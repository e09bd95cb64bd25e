/** The equipment list of the settings panel: the search and tag filter over
    the catalog, the "Insert"/"No Space" rule, and the entry `handleInsert`
    asks the rack to add. The catalog itself arrives from the network. */
module Catalog {
  import opened Wrappers
  import opened NumberText
  import opened RackItems

  /** A catalog record; `size` is the numeric string the catalog stores.
      The logo and avatar images are presentation only. */
  datatype EquipmentData = EquipmentData(
    id: string,
    labelText: string,  // the `label` field
    manufacturer: string,
    model: string,
    size: string,
    color: string,
    imageUrl: Option<string>,
    link: Option<string>,
    tags: Option<seq<string>>)

  /** `toLowerCase` on one character (ASCII letters only). */
  function ToLowerChar(c: char): char {
    if 'A' <= c <= 'Z' then (c as int + 32) as char else c
  }

  function ToLower(s: string): (r: string)
    ensures |r| == |s| && forall i :: 0 <= i < |s| ==> r[i] == ToLowerChar(s[i])
  {
    seq(|s|, i requires 0 <= i < |s| => ToLowerChar(s[i]))
  }

  predicate OccursAt(s: string, sub: string, i: nat)
    requires i + |sub| <= |s|
  {
    s[i..i + |sub|] == sub
  }

  /** `s.includes(sub)`. */
  predicate Contains(s: string, sub: string) {
    exists i :: 0 <= i <= |s| - |sub| && OccursAt(s, sub, i)
  }

  /** The fields searched, in order: label, manufacturer, model, then the tags. */
  function SearchableFields(e: EquipmentData): seq<string> {
    [e.labelText, e.manufacturer, e.model] + (if e.tags.Some? then e.tags.value else [])
  }

  /** The tag test: a selected (non-empty) tag must be among the record's tags. */
  predicate PassesTag(e: EquipmentData, selectedTag: Option<string>) {
    selectedTag.None? || selectedTag.value == "" || (e.tags.Some? && selectedTag.value in e.tags.value)
  }

  /** The text test: an empty query keeps everything, otherwise some searchable
      field must contain the query, both lower-cased. */
  predicate PassesQuery(e: EquipmentData, query: string) {
    var fields := SearchableFields(e);
    query == "" || exists i :: 0 <= i < |fields| && Contains(ToLower(fields[i]), ToLower(query))
  }

  predicate Matches(e: EquipmentData, selectedTag: Option<string>, query: string) {
    PassesTag(e, selectedTag) && PassesQuery(e, query)
  }

  /** `filteredEquipment`. */
  function FilterEquipment(list: seq<EquipmentData>, selectedTag: Option<string>, query: string): seq<EquipmentData> {
    if list == [] then []
    else (if Matches(list[0], selectedTag, query) then [list[0]] else [])
         + FilterEquipment(list[1..], selectedTag, query)
  }

  /** `r` is `s` with some elements left out and the rest in their order. */
  predicate IsSubsequence<T(==)>(r: seq<T>, s: seq<T>) {
    if r == [] then true
    else if s == [] then false
    else if r[0] == s[0] then IsSubsequence(r[1..], s[1..])
    else IsSubsequence(r, s[1..])
  }

  /** A record is listed exactly when it is in the catalog and passes both tests. */
  lemma {:induction false} FilterMembership(list: seq<EquipmentData>, selectedTag: Option<string>, query: string, e: EquipmentData)
    ensures e in FilterEquipment(list, selectedTag, query) <==> e in list && Matches(e, selectedTag, query)
  {
    if list != [] {
      FilterMembership(list[1..], selectedTag, query, e);
      assert list == [list[0]] + list[1..];
    }
  }

  lemma {:induction false} SubsequenceOfTail<T>(r: seq<T>, s: seq<T>)
    requires s != [] && IsSubsequence(r, s[1..])
    ensures IsSubsequence(r, s)
    decreases |s|, 1
  {
    if r != [] && r[0] == s[0] {
      SubsequenceDropHead(r, s[1..]);
    }
  }

  lemma {:induction false} SubsequenceDropHead<T>(r: seq<T>, t: seq<T>)
    requires r != [] && IsSubsequence(r, t)
    ensures IsSubsequence(r[1..], t)
    decreases |t|, 2
  {
    if r[0] == t[0] {
      SubsequenceOfTail(r[1..], t);
    } else {
      SubsequenceDropHead(r, t[1..]);
      SubsequenceOfTail(r[1..], t);
    }
  }

  /** The listed records keep the catalog's order. */
  lemma {:induction false} FilterIsSubsequence(list: seq<EquipmentData>, selectedTag: Option<string>, query: string)
    ensures IsSubsequence(FilterEquipment(list, selectedTag, query), list)
  {
    if list != [] {
      var rest := FilterEquipment(list[1..], selectedTag, query);
      FilterIsSubsequence(list[1..], selectedTag, query);
      if Matches(list[0], selectedTag, query) {
        assert ([list[0]] + rest)[1..] == rest;
      } else {
        assert [] + rest == rest;
        SubsequenceOfTail(rest, list);
      }
    }
  }

  /** With no tag selected and an empty query, the whole catalog is listed. */
  lemma {:induction false} FilterKeepsAllWhenUnfiltered(list: seq<EquipmentData>)
    ensures FilterEquipment(list, None, "") == list
  {
    if list != [] {
      FilterKeepsAllWhenUnfiltered(list[1..]);
      assert list == [list[0]] + list[1..];
    }
  }

  /** Only the query's lower-case form matters: queries that differ in letter
      case list the same records. */
  lemma {:induction false} QueryCaseIgnored(list: seq<EquipmentData>, selectedTag: Option<string>, q1: string, q2: string)
    requires ToLower(q1) == ToLower(q2)
    ensures FilterEquipment(list, selectedTag, q1) == FilterEquipment(list, selectedTag, q2)
  {
    assert |q1| == |q2|;
    if list != [] {
      QueryCaseIgnored(list[1..], selectedTag, q1, q2);
      assert PassesQuery(list[0], q1) == PassesQuery(list[0], q2);
    }
  }

  /** A match in any one searchable field lists the record. */
  lemma FieldMatchLists(e: EquipmentData, query: string, i: nat, at: nat)
    requires i < |SearchableFields(e)|
    requires at + |query| <= |SearchableFields(e)[i]|
    requires OccursAt(ToLower(SearchableFields(e)[i]), ToLower(query), at)
    ensures Matches(e, None, query)
  {
  }

  /** What `handleInsert` passes to the rack's `addItem`: the catalog id with
      `-` and a timestamp, the label, the parsed size (`None` for `NaN`), the
      image and the link; it carries no filler flag. */
  datatype NewItem = NewItem(id: string, labelText: string, size: Option<int>, imageUrl: Option<string>, link: Option<string>)

  function InsertRequest(e: EquipmentData, now: nat): (r: NewItem)
    ensures r.labelText == e.labelText && r.imageUrl == e.imageUrl && r.link == e.link
    ensures |r.id| > |e.id| + 1 && r.id[..|e.id| + 1] == e.id + "-"
    ensures ParseInt(r.id[|e.id| + 1..]) == Some(now)
    ensures r.size == ParseInt(e.size)
  {
    var r := NewItem(e.id + "-" + IntToString(now), e.labelText, ParseInt(e.size), e.imageUrl, e.link);
    assert r.id[|e.id| + 1..] == IntToString(now);
    ParseIntOfIntToStringAlone(now);
    r
  }

  /** The insert button is enabled when the catalog size parses and fits the
      filler count; a size that is not a number (`NaN`) never fits. */
  predicate InsertEnabled(items: seq<Item>, e: EquipmentData) {
    match ParseInt(e.size)
    case None => false
    case Some(k) => CanFit(items, k)
  }

  /** On a freshly reset rack of `n` units, insertion is offered exactly for
      catalog sizes that parse to at most `n`. */
  lemma InsertEnabledAfterReset(stamps: seq<nat>, e: EquipmentData)
    ensures InsertEnabled(BlankSlots(stamps), e) <==> ParseInt(e.size).Some? && ParseInt(e.size).value <= |stamps|
  {
    ResetFillsCount(stamps);
  }
}
