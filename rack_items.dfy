/** A rack entry and the arithmetic the settings panels do over the rack's
    item list: units used, the capacity query, the reset list, the rule that
    disables Save/Image/Reset, and which entries offer a remove control. */
module RackItems {
  import opened Wrappers
  import opened NumberText

  /** One entry of the rack, top to bottom in list order. `isBlank` is absent
      on inserted equipment; an entry is filler exactly when it is `true`. */
  datatype Item = Item(
    id: string,
    labelText: string,  // the `label` field (`label` is a Dafny keyword)
    size: int,
    imageUrl: Option<string>,
    isBlank: Option<bool>,
    link: Option<string>)

  predicate IsBlank(it: Item) {
    it.isBlank == Some(true)
  }

  /** `usedSlots`: the units taken by equipment; filler counts 0. */
  function UsedSlots(items: seq<Item>): int {
    if items == [] then 0
    else (if IsBlank(items[0]) then 0 else items[0].size) + UsedSlots(items[1..])
  }

  /** The total of every entry's size, filler included. */
  function SizeSum(items: seq<Item>): int {
    if items == [] then 0 else items[0].size + SizeSum(items[1..])
  }

  /** The number of filler entries (`items.filter(item => item.isBlank).length`). */
  function BlankCount(items: seq<Item>): (n: nat)
    ensures n <= |items|
  {
    if items == [] then 0
    else (if IsBlank(items[0]) then 1 else 0) + BlankCount(items[1..])
  }

  /** `canFitEquipment(size)`: at least `size` filler entries, wherever they are. */
  predicate CanFit(items: seq<Item>, size: int) {
    BlankCount(items) >= size
  }

  /** A run of `k` adjacent filler entries: what an insertion of a `k`U item
      actually needs. */
  ghost predicate HasBlankRun(items: seq<Item>, k: nat) {
    exists i :: 0 <= i <= |items| - k && BlankRunAt(items, i, k)
  }

  /** Entries `i` to `i + k - 1` are all filler. */
  predicate BlankRunAt(items: seq<Item>, i: nat, k: nat)
    requires i + k <= |items|
  {
    forall j :: i <= j < i + k ==> IsBlank(items[j])
  }

  /** `items.every(item => item.isBlank)`: Save, Image and Reset are disabled. */
  predicate AllBlank(items: seq<Item>) {
    forall i :: 0 <= i < |items| ==> IsBlank(items[i])
  }

  /** The ids whose entry shows a remove control, in rack order: the only ids
      `removeItem` can be called with. */
  function RemovableIds(items: seq<Item>): seq<string> {
    if items == [] then []
    else (if IsBlank(items[0]) then [] else [items[0].id]) + RemovableIds(items[1..])
  }

  /** The filler entry `i` of a reset, stamped with the clock reading `stamp`
      taken while that entry was built. */
  function ResetSlot(stamp: nat, i: nat): Item {
    Item("blank-" + IntToString(stamp) + "-" + IntToString(i), "1U", 1, None, Some(true), None)
  }

  /** `handleReset`'s list: one fresh 1U filler entry per clock reading, the
      clock being read again for every entry. */
  function BlankSlots(stamps: seq<nat>): (r: seq<Item>)
    ensures |r| == |stamps|
    ensures forall i :: 0 <= i < |r| ==>
      IsBlank(r[i]) && r[i].size == 1 && r[i].labelText == "1U" && r[i].imageUrl.None? && r[i].link.None?
  {
    seq(|stamps|, i requires 0 <= i < |stamps| => ResetSlot(stamps[i], i))
  }

  /** The sizes of the filler entries only. */
  function BlankSizeSum(items: seq<Item>): int {
    if items == [] then 0
    else (if IsBlank(items[0]) then items[0].size else 0) + BlankSizeSum(items[1..])
  }

  /** Every unit is either equipment or filler, so with no negative filler
      size the units used never exceed the total size. */
  lemma {:induction false} UsedSlotsWithinSizeSum(items: seq<Item>)
    ensures UsedSlots(items) + BlankSizeSum(items) == SizeSum(items)
    ensures (forall i :: 0 <= i < |items| && IsBlank(items[i]) ==> items[i].size >= 0) ==>
              UsedSlots(items) <= SizeSum(items)
  {
    if items != [] {
      UsedSlotsWithinSizeSum(items[1..]);
      if forall i :: 0 <= i < |items| && IsBlank(items[i]) ==> items[i].size >= 0 {
        assert forall i :: 0 <= i < |items| - 1 && IsBlank(items[1..][i]) ==> items[1..][i].size >= 0 by {
          forall i | 0 <= i < |items| - 1 && IsBlank(items[1..][i]) ensures items[1..][i].size >= 0 {
            assert items[1..][i] == items[i + 1];
          }
        }
      }
    }
  }

  lemma CanFitMonotone(items: seq<Item>, k: int, k': int)
    requires k' <= k && CanFit(items, k)
    ensures CanFit(items, k')
  {
  }

  /** The capacity query reads only which entries are filler, never their sizes. */
  lemma {:induction false} CanFitIgnoresBlankSizes(a: seq<Item>, b: seq<Item>, k: int)
    requires |a| == |b|
    requires forall i :: 0 <= i < |a| ==> IsBlank(a[i]) == IsBlank(b[i])
    ensures CanFit(a, k) == CanFit(b, k)
    ensures BlankCount(a) == BlankCount(b)
  {
    if a != [] {
      CanFitIgnoresBlankSizes(a[1..], b[1..], k);
    }
  }

  lemma {:induction false} BlankCountAppend(a: seq<Item>, b: seq<Item>)
    ensures BlankCount(a + b) == BlankCount(a) + BlankCount(b)
  {
    if a != [] {
      assert (a + b)[0] == a[0];
      assert (a + b)[1..] == a[1..] + b;
      BlankCountAppend(a[1..], b);
    } else {
      assert a + b == b;
    }
  }

  /** The list is all filler exactly when every entry is counted as filler. */
  lemma {:induction false} AllBlankIffCountIsLength(items: seq<Item>)
    ensures AllBlank(items) <==> BlankCount(items) == |items|
  {
    if items != [] {
      AllBlankIffCountIsLength(items[1..]);
      assert AllBlank(items) <==> IsBlank(items[0]) && AllBlank(items[1..]) by {
        if IsBlank(items[0]) && AllBlank(items[1..]) {
          forall i | 0 <= i < |items| ensures IsBlank(items[i]) {
            if i > 0 { assert items[i] == items[1..][i - 1]; }
          }
        }
      }
    }
  }

  /** A contiguous run of `k` filler entries always passes the capacity query. */
  lemma ContiguousRunFits(items: seq<Item>, k: nat)
    requires HasBlankRun(items, k)
    ensures CanFit(items, k)
  {
    var i :| 0 <= i <= |items| - k && BlankRunAt(items, i, k);
    var run := items[i..i + k];
    assert AllBlank(run) by {
      forall j | 0 <= j < |run| ensures IsBlank(run[j]) { assert run[j] == items[i + j]; }
    }
    AllBlankIffCountIsLength(run);
    assert items == items[..i] + run + items[i + k..];
    BlankCountAppend(items[..i] + run, items[i + k..]);
    BlankCountAppend(items[..i], run);
  }

  /** The converse fails: two filler entries split by equipment pass the
      query for a 2U item although no two adjacent entries are free. */
  lemma FragmentedFillerPassesCapacityQuery()
    ensures var blank := Item("b", "1U", 1, None, Some(true), None);
            var server := Item("s", "Server", 1, None, None, None);
            CanFit([blank, server, blank], 2) && !HasBlankRun([blank, server, blank], 2)
  {
    var blank := Item("b", "1U", 1, None, Some(true), None);
    var server := Item("s", "Server", 1, None, None, None);
    var items := [blank, server, blank];
    assert BlankCount([blank]) == 1 by { assert [blank][1..] == []; }
    assert BlankCount([server, blank]) == 1 by { assert [server, blank][1..] == [blank]; }
    assert BlankCount(items) == 2 by { assert items[1..] == [server, blank]; }
    forall i | 0 <= i <= |items| - 2 ensures !BlankRunAt(items, i, 2) {
      assert !IsBlank(items[1]);
    }
  }

  /** A list of 1U filler entries: units used 0, size total and filler count
      both equal to its length, so the buttons it feeds are disabled. */
  lemma {:induction false} UnitFillerSums(items: seq<Item>)
    requires forall i :: 0 <= i < |items| ==> IsBlank(items[i]) && items[i].size == 1
    ensures SizeSum(items) == |items| && BlankCount(items) == |items| && UsedSlots(items) == 0
    ensures AllBlank(items)
  {
    if items != [] {
      assert forall i :: 0 <= i < |items| - 1 ==> items[1..][i] == items[i + 1];
      UnitFillerSums(items[1..]);
    }
  }

  /** After a reset the rack holds exactly `count` units, all of them filler. */
  lemma ResetFillsCount(stamps: seq<nat>)
    ensures SizeSum(BlankSlots(stamps)) == |stamps|
    ensures BlankCount(BlankSlots(stamps)) == |stamps|
    ensures UsedSlots(BlankSlots(stamps)) == 0
    ensures forall k :: CanFit(BlankSlots(stamps), k) <==> k <= |stamps|
  {
    UnitFillerSums(BlankSlots(stamps));
  }

  /** In a digit run followed by `-`, the first `-` is right after the run. */
  lemma DigitsThenDash(a: string, b: string)
    requires forall k :: 0 <= k < |a| ==> IsDecimalDigit(a[k])
    ensures (a + "-" + b)[|a|] == '-'
    ensures forall k :: 0 <= k < |a| ==> IsDecimalDigit((a + "-" + b)[k])
  {
  }

  /** Two digit strings joined by `-` split back only one way. */
  lemma DashJoinSplits(a: string, b: string, c: string, d: string)
    requires forall k :: 0 <= k < |a| ==> IsDecimalDigit(a[k])
    requires forall k :: 0 <= k < |c| ==> IsDecimalDigit(c[k])
    requires a + "-" + b == c + "-" + d
    ensures a == c && b == d
  {
    var s := a + "-" + b;
    DigitsThenDash(a, b);
    DigitsThenDash(c, d);
    assert |a| == |c|;
    assert a == s[..|a|] == c;
    assert b == s[|a| + 1..] == d;
  }

  /** Reset ids differ pairwise, whatever the clock reads for each entry: the
      text after `blank-` is a digit run, a `-` and the entry's index, and
      the index part differs. */
  lemma ResetIdsDistinct(stamps: seq<nat>, i: nat, j: nat)
    requires i < |stamps| && j < |stamps| && i != j
    ensures BlankSlots(stamps)[i].id != BlankSlots(stamps)[j].id
  {
    var a, b := IntToString(stamps[i]), IntToString(i);
    var c, d := IntToString(stamps[j]), IntToString(j);
    assert a == NatToString(stamps[i]) && c == NatToString(stamps[j]);
    var x, y := BlankSlots(stamps)[i].id, BlankSlots(stamps)[j].id;
    assert x == "blank-" + (a + "-" + b);
    assert y == "blank-" + (c + "-" + d);
    if x == y {
      assert x[6..] == a + "-" + b;
      assert y[6..] == c + "-" + d;
      DashJoinSplits(a, b, c, d);
      IntToStringInjective(i, j);
    }
  }

  /** Save, Image and Reset are disabled exactly when no entry offers a
      remove control; the empty list counts as all filler. */
  lemma {:induction false} AllBlankIffNothingRemovable(items: seq<Item>)
    ensures AllBlank(items) <==> RemovableIds(items) == []
    ensures AllBlank(items) ==> UsedSlots(items) == 0
  {
    if items != [] {
      AllBlankIffNothingRemovable(items[1..]);
      assert AllBlank(items) <==> IsBlank(items[0]) && AllBlank(items[1..]) by {
        if IsBlank(items[0]) && AllBlank(items[1..]) {
          forall i | 0 <= i < |items| ensures IsBlank(items[i]) {
            if i > 0 { assert items[i] == items[1..][i - 1]; }
          }
        }
      }
    }
  }

  /** `removeItem` is reachable for an id exactly when some equipment entry
      (not filler) carries it. */
  lemma {:induction false} RemovableIdsAreEquipment(items: seq<Item>, id: string)
    ensures id in RemovableIds(items) <==>
            exists i :: 0 <= i < |items| && !IsBlank(items[i]) && items[i].id == id
  {
    if items != [] {
      RemovableIdsAreEquipment(items[1..], id);
      if exists i :: 0 <= i < |items| && !IsBlank(items[i]) && items[i].id == id {
        var i :| 0 <= i < |items| && !IsBlank(items[i]) && items[i].id == id;
        if i > 0 { assert items[1..][i - 1] == items[i]; }
      }
      if exists i :: 0 <= i < |items| - 1 && !IsBlank(items[1..][i]) && items[1..][i].id == id {
        var i :| 0 <= i < |items| - 1 && !IsBlank(items[1..][i]) && items[1..][i].id == id;
        assert items[i + 1] == items[1..][i];
      }
    }
  }
}
