/** The layout file: the shape check `validateRackState` applies to a parsed
    file, the save projection that builds the record `JSON.stringify` writes,
    the load that commits a checked record, and the older load path of the
    mounted settings panel, which commits a file without checking it. */
module LayoutCodec {
  import opened Wrappers
  import opened JsValues
  import opened RackItems

  /** A layout as the rack holds it after a load: the record's slot count and items. */
  datatype RackRecord = RackRecord(slotCount: int, items: seq<Item>)

  /** One element of `items` passes when it is a non-null object with a string
      `id`, a string `label` and a numeric `size`; other fields are not looked at. */
  predicate ItemShapeOk(v: JsValue) {
    IsObject(v) && Get(v, "id").Str? && Get(v, "label").Str? && Get(v, "size").Num?
  }

  /** `items.every(...)`, element by element from the front. */
  function EveryItemOk(elems: seq<JsValue>): (ok: bool)
    ensures ok <==> forall i :: 0 <= i < |elems| ==> ItemShapeOk(elems[i])
  {
    if elems == [] then true else ItemShapeOk(elems[0]) && EveryItemOk(elems[1..])
  }

  /** `validateRackState`: an object whose `slotCount` is a number and whose
      `items` is an array of well-shaped items. */
  function ValidateRackState(v: JsValue): (ok: bool)
    ensures !IsObject(v) ==> !ok
    ensures !Get(v, "slotCount").Num? || !Get(v, "items").Arr? ==> !ok
    ensures ok <==> IsObject(v) && Get(v, "slotCount").Num? && Get(v, "items").Arr? &&
                    forall i :: 0 <= i < |Get(v, "items").elems| ==> ItemShapeOk(Get(v, "items").elems[i])
  {
    if !IsObject(v) then false
    else if !Get(v, "slotCount").Num? || !Get(v, "items").Arr? then false
    else EveryItemOk(Get(v, "items").elems)
  }

  /** An optional string field as `JSON.stringify` writes it: left out when undefined. */
  function WithString(m: map<string, JsValue>, key: string, o: Option<string>): map<string, JsValue> {
    if o.Some? then m[key := Str(o.value)] else m
  }

  /** The save projection of one item: `id`, `label`, `size`, `imageUrl`, `isBlank`, `link`. */
  function ItemToJson(it: Item): (j: JsValue)
    ensures ItemShapeOk(j)
    ensures Get(j, "id") == Str(it.id) && Get(j, "label") == Str(it.labelText) && Get(j, "size") == Num(it.size)
  {
    var m := map["id" := Str(it.id), "label" := Str(it.labelText), "size" := Num(it.size)];
    var m := WithString(m, "imageUrl", it.imageUrl);
    var m := if it.isBlank.Some? then m["isBlank" := Bool(it.isBlank.value)] else m;
    Obj(WithString(m, "link", it.link))
  }

  /** `handleSave`'s record: the slot count and the projected items, in rack order. */
  function SaveRecord(slotCount: int, items: seq<Item>): (v: JsValue)
    ensures Get(v, "slotCount") == Num(slotCount)
    ensures Get(v, "items").Arr? && |Get(v, "items").elems| == |items|
    ensures forall i :: 0 <= i < |items| ==> Get(v, "items").elems[i] == ItemToJson(items[i])
  {
    Obj(map["slotCount" := Num(slotCount),
            "items" := Arr(seq(|items|, i requires 0 <= i < |items| => ItemToJson(items[i])))])
  }

  /** A string field read back, dropped when it is not a string. */
  function StringField(v: JsValue, key: string): Option<string> {
    if Get(v, key).Str? then Some(Get(v, key).s) else None
  }

  /** The `isBlank` field read back: absent stays absent, anything else is
      taken by its truthiness, which is how the rack and the image export test it. */
  function BlankField(v: JsValue): Option<bool> {
    if Get(v, "isBlank").Undefined? then None else Some(Truthy(Get(v, "isBlank")))
  }

  /** A checked item as the rack holds it after a load. */
  function ItemFromJson(v: JsValue): Item
    requires ItemShapeOk(v)
  {
    Item(Get(v, "id").s, Get(v, "label").s, Get(v, "size").n,
         StringField(v, "imageUrl"), BlankField(v), StringField(v, "link"))
  }

  /** The load gate of the action buttons: a parsed file reaches `onLoad`
      only when it passes `validateRackState`; the record it then carries has
      the file's slot count and its items in file order. */
  function ImportRecord(v: JsValue): (r: Option<RackRecord>)
    ensures r.Some? <==> ValidateRackState(v)
    ensures r.Some? ==>
      var elems := Get(v, "items").elems;
      r.value.slotCount == Get(v, "slotCount").n && |r.value.items| == |elems| &&
      forall i :: 0 <= i < |elems| ==>
        r.value.items[i].id == Get(elems[i], "id").s &&
        r.value.items[i].labelText == Get(elems[i], "label").s &&
        r.value.items[i].size == Get(elems[i], "size").n &&
        r.value.items[i].imageUrl == StringField(elems[i], "imageUrl") &&
        r.value.items[i].isBlank == BlankField(elems[i]) &&
        r.value.items[i].link == StringField(elems[i], "link")
  {
    if !ValidateRackState(v) then None
    else
      var elems := Get(v, "items").elems;
      Some(RackRecord(Get(v, "slotCount").n,
                      seq(|elems|, i requires 0 <= i < |elems| => ItemFromJson(elems[i]))))
  }

  lemma ItemRoundTrip(it: Item)
    ensures ItemShapeOk(ItemToJson(it)) && ItemFromJson(ItemToJson(it)) == it
  {
  }

  /** Export then import gives back the same slot count and the same items
      in the same order, every field included. */
  lemma SaveThenLoad(slotCount: int, items: seq<Item>)
    ensures ImportRecord(SaveRecord(slotCount, items)) == Some(RackRecord(slotCount, items))
  {
    var v := SaveRecord(slotCount, items);
    var elems := Get(v, "items").elems;
    forall i | 0 <= i < |elems| ensures ItemShapeOk(elems[i]) && ItemFromJson(elems[i]) == items[i] {
      ItemRoundTrip(items[i]);
    }
    assert ValidateRackState(v);
    assert ImportRecord(v).value.items == items;
  }

  /** Whatever the save path writes passes the validator. */
  lemma SavedRecordIsValid(slotCount: int, items: seq<Item>)
    ensures ValidateRackState(SaveRecord(slotCount, items))
  {
    SaveThenLoad(slotCount, items);
  }

  /** A numeric slot count with an empty item array is a valid layout. */
  lemma EmptyLayoutIsValid(slotCount: int)
    ensures ValidateRackState(Obj(map["slotCount" := Num(slotCount), "items" := Arr([])]))
  {
  }

  /** Fields other than `id`, `label` and `size` never change an item's verdict. */
  lemma OtherItemFieldsIgnored(m: map<string, JsValue>, key: string, x: JsValue)
    requires key != "id" && key != "label" && key != "size"
    ensures ItemShapeOk(Obj(m[key := x])) == ItemShapeOk(Obj(m))
  {
    assert Get(Obj(m[key := x]), "id") == Get(Obj(m), "id");
    assert Get(Obj(m[key := x]), "label") == Get(Obj(m), "label");
    assert Get(Obj(m[key := x]), "size") == Get(Obj(m), "size");
  }

  /** What the mounted settings panel's `handleLoad` does with a parsed file,
      in call order: the value passed to `updateSlotCount`, the value whose
      text becomes the size input, the value passed to `updateItems`, and
      whether the "Invalid file format" alert is raised. Three things throw
      into the alert: a property read on `null` or `undefined`, a slot count
      whose conversion in `size >= 1` throws, and `toString` on a null or
      missing slot count. */
  datatype LegacyLoadEffect = LegacyLoadEffect(
    slotCountArg: Option<JsValue>,
    inputTextOf: Option<JsValue>,
    itemsArg: Option<JsValue>,
    alerted: bool)

  function LegacyLoad(v: JsValue): (e: LegacyLoadEffect)
    ensures e.alerted <==> e.itemsArg.None?
    ensures e.itemsArg.Some? ==> e.itemsArg == Some(Get(v, "items"))
  {
    if v.Null? || v.Undefined? then LegacyLoadEffect(None, None, None, true)
    else
      var sc := Get(v, "slotCount");
      if ToPrimitiveThrows(sc) || sc.Null? || sc.Undefined? then LegacyLoadEffect(Some(sc), None, None, true)
      else LegacyLoadEffect(Some(sc), Some(sc), Some(Get(v, "items")), false)
  }

  /** The older load commits a file the validator rejects: a record with a
      slot count and no `items` raises no alert, applies the slot count, and
      hands `undefined` to `updateItems`. */
  lemma LegacyLoadCommitsRecordWithoutItems()
    ensures var v := Obj(map["slotCount" := Num(20)]);
            !ValidateRackState(v) &&
            LegacyLoad(v) == LegacyLoadEffect(Some(Num(20)), Some(Num(20)), Some(Undefined), false)
  {
  }

  /** For an object, the older load alerts exactly when its slot count is null,
      missing, or cannot be converted; otherwise it passes the file's `items`,
      whatever they are, to `updateItems`. */
  lemma LegacyLoadNeverChecksItems(v: JsValue)
    requires v.Obj?
    ensures var sc := Get(v, "slotCount");
            LegacyLoad(v).alerted <==> sc.Null? || sc.Undefined? || ToPrimitiveThrows(sc)
    ensures !LegacyLoad(v).alerted ==>
              LegacyLoad(v).slotCountArg == Some(Get(v, "slotCount")) &&
              LegacyLoad(v).itemsArg == Some(Get(v, "items"))
  {
  }

  /** A slot count object with its own `toString` field makes `size >= 1`
      throw: the alert is raised and `updateItems` is never called. */
  lemma LegacyLoadAlertsOnUnconvertibleSlotCount()
    ensures var v := Obj(map["slotCount" := Obj(map["toString" := Num(0)]), "items" := Arr([])]);
            LegacyLoad(v).alerted && LegacyLoad(v).itemsArg.None? && LegacyLoad(v).inputTextOf.None?
  {
  }

  /** The checked load refuses that same file. */
  lemma ImportRejectsRecordWithoutItems(n: int)
    ensures ImportRecord(Obj(map["slotCount" := Num(n)])) == None
  {
  }
}
