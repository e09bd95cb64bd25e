/** The geometry of the exported PNG: the canvas height the `reduce` computes,
    the block-by-block layout loop that advances `currentY`, the label drawn
    on each block, and where the footer banner goes. Canvas sizes are device
    pixels (2 per logical pixel); `currentY` and the blocks are logical pixels. */
module ImageExport {
  import opened Wrappers
  import opened NumberText
  import opened RackItems

  const SCALE := 2
  const CANVAS_WIDTH := 800 * SCALE
  const BASE_HEIGHT := 80 * SCALE
  const SPACING := 10 * SCALE
  const BANNER_HEIGHT := 80 * SCALE

  /** The units a block is drawn with: filler is always one unit, whatever
      its `size` says. */
  function BlockUnits(it: Item): int {
    if IsBlank(it) then 1 else it.size
  }

  /** `totalHeight` before the banner: the `reduce` over the items, left to right. */
  function RowsHeight(items: seq<Item>): int {
    if items == [] then 0
    else RowsHeight(items[..|items| - 1]) + BASE_HEIGHT * BlockUnits(items[|items| - 1]) + SPACING
  }

  /** `canvas.height`. */
  function CanvasHeight(items: seq<Item>): int {
    RowsHeight(items) + BANNER_HEIGHT
  }

  /** A block's height in logical pixels. */
  function BlockHeight(it: Item): int {
    (BASE_HEIGHT * BlockUnits(it)) / SCALE
  }

  /** `currentY` once the loop has drawn `items`. */
  function StackHeight(items: seq<Item>): int {
    if items == [] then 0
    else StackHeight(items[..|items| - 1]) + BlockHeight(items[|items| - 1]) + SPACING / SCALE
  }

  /** The label overlay's text. */
  function LabelText(it: Item): string {
    if IsBlank(it) then "1U - Empty" else IntToString(it.size) + "U - " + it.labelText
  }

  /** One drawn block: its top in logical pixels, its height and its label. */
  datatype Block = Block(y: int, height: int, text: string)

  /** The block the loop draws for entry `i`. */
  function BlockAt(items: seq<Item>, i: nat): Block
    requires i < |items|
  {
    Block(StackHeight(items[..i]), BlockHeight(items[i]), LabelText(items[i]))
  }

  /** The units of all blocks. */
  function RenderedUnits(items: seq<Item>): int {
    if items == [] then 0 else BlockUnits(items[0]) + RenderedUnits(items[1..])
  }

  /** The drawing loop of `saveRackImage`: each block is placed at the current
      `currentY`, which then advances by the block's height and the spacing;
      the banner goes where the loop stops. */
  method LayOutImage(items: seq<Item>) returns (canvasHeight: int, blocks: seq<Block>, bannerY: int)
    ensures canvasHeight == CanvasHeight(items)
    ensures |blocks| == |items|
    ensures forall i :: 0 <= i < |items| ==>
      blocks[i].y == StackHeight(items[..i]) && blocks[i].height == 80 * BlockUnits(items[i]) &&
      blocks[i].text == LabelText(items[i])
    ensures forall i :: 0 <= i < |items| - 1 ==> blocks[i + 1].y == blocks[i].y + blocks[i].height + 10
    ensures bannerY == StackHeight(items) && 2 * bannerY == canvasHeight - BANNER_HEIGHT
  {
    canvasHeight := CanvasHeight(items);
    var currentY := 0;
    blocks := [];
    for k := 0 to |items|
      invariant |blocks| == k
      invariant currentY == StackHeight(items[..k])
      invariant forall i :: 0 <= i < k ==> blocks[i] == BlockAt(items, i)
    {
      var slotHeight := BlockHeight(items[k]);
      StackHeightStep(items, k);
      blocks := blocks + [Block(currentY, slotHeight, LabelText(items[k]))];
      currentY := currentY + slotHeight + SPACING / SCALE;
    }
    forall i | 0 <= i < |items| ensures
      blocks[i].y == StackHeight(items[..i]) && blocks[i].height == 80 * BlockUnits(items[i]) &&
      blocks[i].text == LabelText(items[i])
    {
      BlockHeightIs80PerUnit(items[i]);
    }
    assert items[..|items|] == items;
    forall i | 0 <= i < |items| - 1 ensures blocks[i + 1].y == blocks[i].y + blocks[i].height + 10 {
      StackHeightStep(items, i);
      BlockHeightIs80PerUnit(items[i]);
    }
    bannerY := currentY;
    CanvasIsTwiceStackPlusBanner(items);
  }

  lemma BlockHeightIs80PerUnit(it: Item)
    ensures BlockHeight(it) == 80 * BlockUnits(it)
  {
  }

  lemma StackHeightStep(items: seq<Item>, k: nat)
    requires k < |items|
    ensures StackHeight(items[..k + 1]) == StackHeight(items[..k]) + BlockHeight(items[k]) + 10
  {
    assert items[..k + 1][..k] == items[..k];
  }

  /** The canvas is the logical layout at scale 2 plus the banner. */
  lemma {:induction false} CanvasIsTwiceStackPlusBanner(items: seq<Item>)
    ensures CanvasHeight(items) == 2 * StackHeight(items) + BANNER_HEIGHT
  {
    if items != [] {
      var last := items[|items| - 1];
      CanvasIsTwiceStackPlusBanner(items[..|items| - 1]);
      BlockHeightIs80PerUnit(last);
      assert BASE_HEIGHT * BlockUnits(last) == 2 * BlockHeight(last);
    }
  }

  lemma {:induction false} RenderedUnitsAppend(items: seq<Item>, it: Item)
    ensures RenderedUnits(items + [it]) == RenderedUnits(items) + BlockUnits(it)
  {
    if items != [] {
      assert (items + [it])[1..] == items[1..] + [it];
      RenderedUnitsAppend(items[1..], it);
    }
  }

  /** Every block counts one unit per filler entry and its size otherwise. */
  lemma {:induction false} RenderedUnitsSplit(items: seq<Item>)
    ensures RenderedUnits(items) == UsedSlots(items) + BlankCount(items)
  {
    if items != [] { RenderedUnitsSplit(items[1..]); }
  }

  /** `totalHeight` is 160 device pixels per unit drawn (filler counting one),
      20 per block, and 160 for the banner. */
  lemma {:induction false} CanvasHeightClosedForm(items: seq<Item>)
    ensures CanvasHeight(items) == BASE_HEIGHT * RenderedUnits(items) + SPACING * |items| + BANNER_HEIGHT
    ensures CanvasHeight(items) ==
            BASE_HEIGHT * (UsedSlots(items) + BlankCount(items)) + SPACING * |items| + BANNER_HEIGHT
  {
    RenderedUnitsSplit(items);
    if items != [] {
      var init := items[..|items| - 1];
      CanvasHeightClosedForm(init);
      RenderedUnitsAppend(init, items[|items| - 1]);
      assert init + [items[|items| - 1]] == items;
    }
  }

  /** A filler block is one unit high whatever its `size` field says. */
  lemma BlankBlockIsOneUnit(it: Item)
    requires IsBlank(it)
    ensures BlockHeight(it) == 80 && LabelText(it) == "1U - Empty"
  {
  }

  /** The number a label starts with is the number of units its block is drawn with. */
  lemma LabelStartsWithUnits(it: Item)
    ensures ParseInt(LabelText(it)) == Some(BlockUnits(it))
  {
    if IsBlank(it) {
      assert LabelText(it) == IntToString(1) + "U - Empty";
      ParseIntOfIntToString(1, "U - Empty");
    } else {
      assert LabelText(it) == IntToString(it.size) + ("U - " + it.labelText);
      ParseIntOfIntToString(it.size, "U - " + it.labelText);
    }
  }

  /** With no negative equipment size, `currentY` never goes down. */
  lemma {:induction false} StackHeightMonotone(items: seq<Item>, j: nat)
    requires j <= |items|
    requires forall k :: 0 <= k < |items| ==> BlockUnits(items[k]) >= 0
    ensures StackHeight(items[..j]) <= StackHeight(items)
    ensures j < |items| ==> StackHeight(items[..j]) < StackHeight(items)
  {
    if j < |items| {
      var init := items[..|items| - 1];
      assert init[..j] == items[..j];
      assert forall k :: 0 <= k < |init| ==> init[k] == items[k];
      StackHeightMonotone(init, j);
    } else {
      assert items[..j] == items;
    }
  }

  /** Block tops strictly increase in rack order. */
  lemma OffsetsIncrease(items: seq<Item>, i: nat, j: nat)
    requires i < j <= |items|
    requires forall k :: 0 <= k < |items| ==> BlockUnits(items[k]) >= 0
    ensures StackHeight(items[..i]) < StackHeight(items[..j])
  {
    var pre := items[..j];
    assert pre[..i] == items[..i];
    assert forall k :: 0 <= k < |pre| ==> pre[k] == items[k];
    StackHeightMonotone(pre, i);
  }
}
