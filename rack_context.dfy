/** The rack state the provider owns (slot count and item list) and the
    component handlers that change it: the guarded slot-count update, reset,
    load, reorder, and the rack-size form. */
module RackContext {
  import opened Wrappers
  import opened NumberText
  import opened JsValues
  import opened RackItems
  import opened LayoutCodec

  const INITIAL_SLOT_COUNT := 12
  const MIN_SLOT_COUNT := 1
  const MAX_SLOT_COUNT := 50

  predicate InRange(n: int) {
    MIN_SLOT_COUNT <= n <= MAX_SLOT_COUNT
  }

  /** The slot count after `updateSlotCount(n)` from `current`. */
  function GuardedSlotCount(current: int, n: int): int {
    if InRange(n) then n else current
  }

  /** The update keeps the count in range, and changes it exactly when the
      new value is in range and different. */
  lemma GuardedSlotCountInRange(current: int, n: int)
    requires InRange(current)
    ensures InRange(GuardedSlotCount(current, n))
    ensures GuardedSlotCount(current, n) != current <==> InRange(n) && n != current
  {
  }

  /** Applying the same update twice is applying it once. */
  lemma GuardedSlotCountIdempotent(current: int, n: int)
    ensures GuardedSlotCount(GuardedSlotCount(current, n), n) == GuardedSlotCount(current, n)
  {
  }

  /** The value the rack-size form passes on when submitted with `text`:
      `parseInt(text)` when it is a number from 1 to 50, `None` otherwise. */
  function SubmittedCount(text: string): (r: Option<int>)
    ensures r.Some? ==> InRange(r.value)
  {
    var n := ParseInt(text);
    if n.Some? && InRange(n.value) then n else None
  }

  /** The text the form reverts to is one it accepts, with the current count. */
  lemma RevertedTextResubmits(slotCount: int)
    requires InRange(slotCount)
    ensures SubmittedCount(IntToString(slotCount)) == Some(slotCount)
  {
    ParseIntOfIntToStringAlone(slotCount);
  }

  /** The text of an integer is accepted exactly when the integer is from 1
      to 50: the text of 1 and of 50 is accepted, that of 0 and of 51 refused. */
  lemma FormAcceptsExactlyTheRange(n: int)
    ensures SubmittedCount(IntToString(n)) == (if InRange(n) then Some(n) else None)
  {
    ParseIntOfIntToStringAlone(n);
  }

  /** Empty and non-numeric text is refused. */
  lemma FormRejectsNonNumeric()
    ensures SubmittedCount("") == None && SubmittedCount("abc") == None
  {
    assert !IsWhiteSpace('a') && !IsRadixDigit('a', 10);
  }

  /** `parseInt` stops at the first non-digit. The number input hands over
      any valid floating-point text, so `"1e1"` submits 1, not 10, and
      `"2.5"` submits 2. */
  lemma FormReadsLeadingNumber()
    ensures SubmittedCount("1e1") == Some(1)
    ensures SubmittedCount("2.5") == Some(2)
  {
    assert NatToString(1) + "e1" == "1e1";
    assert NatToString(2) + ".5" == "2.5";
    ParseIntOfNatText(1, "e1");
    ParseIntOfNatText(2, ".5");
  }

  /** Whether entry `k` of a new order is the one reported as moved: its id is
      not the one at the same place before (or there was none), and it is not filler. */
  predicate MovedAt(before: seq<Item>, after: seq<Item>, k: nat)
    requires k < |after|
  {
    (k >= |before| || after[k].id != before[k].id) && !IsBlank(after[k])
  }

  /** `newItems.find(...)` from index `from` on. */
  function FindMovedFrom(before: seq<Item>, after: seq<Item>, from: nat): (r: Option<Item>)
    requires from <= |after|
    ensures r.None? <==> forall k :: from <= k < |after| ==> !MovedAt(before, after, k)
    ensures r.Some? ==> exists k :: from <= k < |after| && MovedAt(before, after, k) && r.value == after[k] &&
                                    forall j :: from <= j < k ==> !MovedAt(before, after, j)
    decreases |after| - from
  {
    if from == |after| then None
    else if MovedAt(before, after, from) then Some(after[from])
    else FindMovedFrom(before, after, from + 1)
  }

  /** The item `handleReorder` reports as moved: the first non-filler entry of
      the new order whose id differs from the id at the same index before. */
  function MovedItem(before: seq<Item>, after: seq<Item>): (r: Option<Item>)
    ensures r.None? <==> forall k :: 0 <= k < |after| ==> !MovedAt(before, after, k)
    ensures r.Some? ==> !IsBlank(r.value) && r.value in after
  {
    FindMovedFrom(before, after, 0)
  }

  /** An order with the same ids place by place reports nothing moved. */
  lemma SameIdsReportNoMove(before: seq<Item>, after: seq<Item>)
    requires |after| <= |before|
    requires forall k :: 0 <= k < |after| ==> after[k].id == before[k].id
    ensures MovedItem(before, after) == None
  {
  }

  /** The rack state of the provider. Every reachable state keeps the slot
      count from 1 to 50; nothing ties the items to it. */
  class Rack {
    var slotCount: int
    var items: seq<Item>

    ghost predicate Valid()
      reads this
    {
      InRange(slotCount)
    }

    /** The provider starts at 12 units; its initial item list is supplied. */
    constructor (initialItems: seq<Item>)
      ensures Valid() && slotCount == INITIAL_SLOT_COUNT && items == initialItems
    {
      slotCount := INITIAL_SLOT_COUNT;
      items := initialItems;
    }

    /** `updateSlotCount`: a value outside 1..50 is ignored. */
    method UpdateSlotCount(n: int)
      requires Valid()
      modifies this
      ensures Valid()
      ensures slotCount == GuardedSlotCount(old(slotCount), n) && items == old(items)
    {
      if MIN_SLOT_COUNT <= n && n <= MAX_SLOT_COUNT {
        slotCount := n;
      }
    }

    /** `updateItems`: the list is replaced as given. */
    method UpdateItems(newItems: seq<Item>)
      requires Valid()
      modifies this
      ensures Valid()
      ensures items == newItems && slotCount == old(slotCount)
    {
      items := newItems;
    }

    /** `handleReset`: one fresh 1U filler entry per slot; `stamps` are the
        clock readings taken for the entries, one per slot. */
    method Reset(stamps: seq<nat>)
      requires Valid() && |stamps| == slotCount
      modifies this
      ensures Valid()
      ensures slotCount == old(slotCount) && items == BlankSlots(stamps)
      ensures SizeSum(items) == slotCount && UsedSlots(items) == 0 && AllBlank(items)
    {
      UpdateItems(BlankSlots(stamps));
      ResetFillsCount(stamps);
      UnitFillerSums(items);
    }

    /** Loading a parsed layout file: `handleLoad` of the action buttons
      commits only a record that passes `validateRackState`, and the panel's
      `onLoad` then hands its slot count to the guarded update and replaces
      the items wholesale, without comparing their sizes to the count. */
    method Load(v: JsValue) returns (loaded: bool)
      requires Valid()
      modifies this
      ensures Valid()
      ensures loaded == ValidateRackState(v)
      ensures !loaded ==> slotCount == old(slotCount) && items == old(items)
      ensures loaded ==> slotCount == GuardedSlotCount(old(slotCount), ImportRecord(v).value.slotCount) &&
                         items == ImportRecord(v).value.items
    {
      var record := ImportRecord(v);
      loaded := record.Some?;
      if loaded {
        UpdateSlotCount(record.value.slotCount);
        UpdateItems(record.value.items);
      }
    }

    /** `handleReorder`: the new order is committed as given, and the moved
      item (for the analytics event) is reported. */
    method Reorder(newItems: seq<Item>) returns (moved: Option<Item>)
      requires Valid()
      modifies this
      ensures Valid()
      ensures items == newItems && slotCount == old(slotCount)
      ensures moved == MovedItem(old(items), newItems)
    {
      moved := MovedItem(items, newItems);
      UpdateItems(newItems);
    }
  }

  /** Reordering and then restoring the earlier order gives back the same
      state, whatever the intermediate order was. */
  method ReorderAndBack(rack: Rack, newItems: seq<Item>)
    requires rack.Valid()
    modifies rack
    ensures rack.Valid() && rack.items == old(rack.items) && rack.slotCount == old(rack.slotCount)
  {
    var original := rack.items;
    var _ := rack.Reorder(newItems);
    var _ := rack.Reorder(original);
  }

  /** The rack-size input of the settings panel. */
  class SizeForm {
    var inputValue: string

    /** The input starts with the rack's current count. */
    constructor (slotCount: int)
      ensures inputValue == IntToString(slotCount)
    {
      inputValue := IntToString(slotCount);
    }

    /** `handleSubmit`: an accepted value goes to `updateSlotCount` and the
      text stays as typed; anything else changes no rack state and puts the
      current count back into the input. */
    method Submit(rack: Rack)
      requires rack.Valid()
      modifies this, rack
      ensures rack.Valid() && rack.items == old(rack.items)
      ensures SubmittedCount(old(inputValue)).Some? ==>
                rack.slotCount == SubmittedCount(old(inputValue)).value && inputValue == old(inputValue)
      ensures SubmittedCount(old(inputValue)).None? ==>
                rack.slotCount == old(rack.slotCount) && inputValue == IntToString(rack.slotCount)
    {
      var newValue := ParseInt(inputValue);
      if newValue.Some? && newValue.value >= 1 && newValue.value <= 50 {
        rack.UpdateSlotCount(newValue.value);
      } else {
        inputValue := IntToString(rack.slotCount);
      }
    }
  }
}
