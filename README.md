# rackplan: rack state, layout file and image geometry in Dafny

rackplan is a web tool for planning a server rack. The rack is a column of
`slotCount` units (1 to 50, 12 at start). Its `items` list holds equipment
entries and 1U filler ("blank") entries, laid out top to bottom in list
order. This project models the logic the rackplan components run around that
list:

- the guarded slot-count update of the rack provider, and the rack-size form
  that feeds it through `parseInt`;
- the units-used figure, the capacity query behind "Insert"/"No Space", and
  the rule that disables Save, Image and Reset;
- reset to fresh filler, and reorder with its moved-item report;
- the layout file: the shape check `validateRackState`, the save projection,
  the checked load of the action buttons, and the unchecked load of the panel
  the page mounts;
- the equipment search and tag filter, and the entry `handleInsert` builds;
- the integer geometry of the PNG export: canvas height, block offsets,
  label texts and where the banner goes.

Modules, one file each:

| file | module | what it holds |
|---|---|---|
| `wrappers.dfy` | `Wrappers` | `Option`, standing for `undefined`/`null`/`NaN` |
| `js_values.dfy` | `JsValues` | the parsed JSON value, `typeof … === "object"`, property lookup, truthiness |
| `number_text.dfy` | `NumberText` | `parseInt` with no radix, `String(n)` for integers, and the round trip between them |
| `rack_items.dfy` | `RackItems` | the rack entry and the sums and predicates over the list |
| `layout_codec.dfy` | `LayoutCodec` | validator, save projection, checked load, unchecked load |
| `image_export.dfy` | `ImageExport` | the image geometry, including the drawing loop as a method |
| `catalog.dfy` | `Catalog` | equipment filter, insert button rule, insert request |
| `rack_context.dfy` | `RackContext` | the `Rack` state class, the `SizeForm` input class, reorder |

Facts about the code that shape the model:

- No code in this repository keeps the entry sizes adding up to
  `slotCount`. A load replaces the items wholesale and hands the slot count
  to the guarded update, which ignores an out-of-range value. A reorder
  commits whatever order it is given. `Rack.Valid` therefore only keeps
  `slotCount` in range.
- A malformed file is refused, with the state left unchanged, only by the
  checked load in `components/settings/action-buttons.tsx`. The panel that
  `app/page.tsx` mounts (`components/settings-panel.tsx`) loads without
  checking. See Findings.
- `validateRackState` accepts any number as a `size`, negative ones
  included. Lemmas that need non-negative sizes say so in their `requires`.
- `context/rack-context.tsx` holds only `slotCount` and `updateSlotCount`.
  The components also call `items`, `updateItems`, `addItem` and
  `removeItem` on the rack context, but no file in this repository defines
  them. The model takes `updateItems` to be a plain setter of the list.

## Model

| member | source | states |
|---|---|---|
| `LayoutCodec.ValidateRackState` | lib/rack-actions.ts:3-24 | A value that is not an object, or is null, fails. So does a record whose `slotCount` is not a number or whose `items` is not an array. Otherwise the record passes exactly when every element of `items` is a non-null object with a string `id`, a string `label` and a numeric `size`. |
| `LayoutCodec.EveryItemOk` | components/settings/action-buttons.tsx:43-51 | The `every` over the items holds exactly when each element passes the item check. |
| `LayoutCodec.OtherItemFieldsIgnored` | lib/rack-actions.ts:15-23 | Setting any item field other than `id`, `label` or `size` never changes the item's verdict. |
| `LayoutCodec.EmptyLayoutIsValid` | lib/rack-actions.ts:8-15 | A record with a numeric `slotCount` and an empty `items` array passes. |
| `LayoutCodec.ItemToJson` | components/settings/action-buttons.tsx:80-87 | An entry's projection passes the item check and carries the entry's `id`, `label` and `size`. `ItemRoundTrip` shows it is undone by `ItemFromJson`. |
| `LayoutCodec.ItemFromJson` | components/settings/action-buttons.tsx:54-75 | A checked element as the rack holds it after a load. `ItemRoundTrip` shows it undoes `ItemToJson`. |
| `LayoutCodec.SaveRecord` | components/settings/action-buttons.tsx:77-88 | The saved record carries the rack's `slotCount`, and its `items` array holds, in rack order, exactly the projection of each entry. |
| `LayoutCodec.SaveThenLoad` | components/settings/action-buttons.tsx:77-88 | Importing what the save path writes gives back the same slot count and the same items, in order, with every field (`id`, `label`, `size`, `imageUrl`, `isBlank`, `link`). |
| `LayoutCodec.ItemRoundTrip` | components/settings-panel.tsx:56-63 | One projected item passes the item check and reads back as the same item. |
| `LayoutCodec.SavedRecordIsValid` | components/settings-panel.tsx:53-64 | Whatever the save projection writes passes `validateRackState`. |
| `LayoutCodec.ImportRecord` | components/settings/action-buttons.tsx:54-75 | A parsed file reaches `onLoad` exactly when it passes the validator. The record it then carries has the file's `slotCount` and one entry per element, in file order. Each entry has the element's `id`, `label` and `size`, its `imageUrl` and `link` when they are strings, and its `isBlank` taken by truthiness when present. |
| `LayoutCodec.ImportRejectsRecordWithoutItems` | components/settings/action-buttons.tsx:61-65 | The checked load refuses a record that has a slot count but no `items`. |
| `LayoutCodec.LegacyLoadCommitsRecordWithoutItems` | components/settings-panel.tsx:79-99 | The mounted panel's load takes `{"slotCount": 20}` without an alert. It passes 20 to `updateSlotCount` and `undefined` to `updateItems`, although the validator rejects that file. |
| `LayoutCodec.LegacyLoadNeverChecksItems` | components/settings-panel.tsx:84-95 | For any object, the mounted panel's load raises the alert exactly when the slot count is null or missing, or its conversion to a number throws. Otherwise it passes the slot count on and hands the file's `items` value, whatever it is, to `updateItems`. |
| `LayoutCodec.LegacyLoadAlertsOnUnconvertibleSlotCount` | context/rack-context.tsx:16 | `{"slotCount": {"toString": 0}, "items": []}` makes `size >= 1` throw. The alert is raised, and neither the size input nor `updateItems` is reached. |
| `LayoutCodec.LegacyLoad` | components/settings-panel.tsx:79-99 | The alert is raised exactly when `updateItems` is not reached. When `updateItems` is reached, it receives the file's `items` value unchecked. |
| `RackItems.UsedSlotsWithinSizeSum` | components/settings/rack-size-control.tsx:32-35 | Units used plus the filler sizes equal the total size. So with no negative filler size, `usedSlots` never exceeds the total. |
| `RackItems.CanFitMonotone` | components/settings/equipment-list.tsx:52-55 | If a size fits, every smaller size fits. |
| `RackItems.CanFitIgnoresBlankSizes` | components/settings-panel.tsx:156-159 | The capacity query and the filler count depend only on which entries are filler, never on their `size` fields. |
| `RackItems.ContiguousRunFits` | components/settings/equipment-list.tsx:52-55 | A run of `k` adjacent filler entries always passes the query for size `k`. |
| `RackItems.FragmentedFillerPassesCapacityQuery` | components/settings/equipment-list.tsx:52-55 | The converse fails. Filler, equipment, filler passes the query for 2 units, although no two adjacent entries are free: contiguity is not checked. |
| `RackItems.BlankSlots` | components/settings/settings-panel.tsx:37-45 | Reset builds one entry per clock reading, `slotCount` in all. Each one is filler of size 1, labelled "1U", with no image and no link. |
| `RackItems.ResetFillsCount` | components/settings-panel.tsx:161-169 | After a reset the sizes add up to `slotCount`, all units are filler, none is used, and size `k` fits exactly when `k <= slotCount`. |
| `RackItems.ResetIdsDistinct` | components/settings/settings-panel.tsx:39 | Reset ids differ pairwise, whatever the clock reads for each entry. After `blank-` each id is a run of digits, a `-`, and the entry's index, which splits only one way, and the indices differ. |
| `RackItems.UnitFillerSums` | components/settings/settings-panel.tsx:38-43 | For any list of 1U filler, the size total and the filler count equal its length, the units used are 0, and the list is all filler. |
| `RackItems.AllBlankIffNothingRemovable` | components/settings/action-buttons.tsx:276-299 | Save, Image and Reset are disabled exactly when no entry offers a remove control, which includes the empty list. When they are disabled, no unit is used. |
| `RackItems.AllBlankIffCountIsLength` | components/settings-panel.tsx:369-387 | The list is all filler exactly when the filler count equals its length. |
| `RackItems.RemovableIdsAreEquipment` | components/rack-planner.tsx:55-91 | `removeItem` can be called with an id exactly when some non-filler entry carries it. |
| `RackItems.UsedSlots` | components/settings/rack-size-control.tsx:32-35 | The `reduce` behind "NU of MU Used": equipment sizes summed, filler counting 0. `UsedSlotsWithinSizeSum` relates it to the size total. |
| `RackItems.BlankCount` | components/settings/equipment-list.tsx:52-55 | The number of filler entries, never more than the list length. |
| `RackItems.CanFit` | components/settings/equipment-list.tsx:52-55 | `canFitEquipment`: the filler count is at least the size. `CanFitMonotone`, `ContiguousRunFits` and `FragmentedFillerPassesCapacityQuery` state what that does and does not mean. |
| `RackItems.AllBlank` | components/settings/action-buttons.tsx:280 | The `disabled` rule `items.every((item) => item.isBlank)`. `AllBlankIffNothingRemovable` and `AllBlankIffCountIsLength` characterise it. |
| `RackItems.RemovableIds` | components/rack-planner.tsx:55-91 | The ids of the entries rendered with a remove control, in rack order. `RemovableIdsAreEquipment` characterises it. |
| `ImageExport.LayOutImage` | lib/rack-actions.ts:137-172 | The drawing loop places block `i` at the sum of the earlier blocks' heights plus 10 per earlier block. Each block is 80 px per unit tall and carries its label. Each block starts 10 px below the previous one's end. The banner goes at the final `currentY`, and twice that is the canvas height minus 160. |
| `ImageExport.RowsHeight` | lib/rack-actions.ts:55-59 | The height `reduce`: 160 per block unit plus 20 per block. `CanvasHeightClosedForm` gives its closed form. |
| `ImageExport.CanvasHeight` | lib/rack-actions.ts:55-59 | `RowsHeight` plus the 160 px banner. `CanvasIsTwiceStackPlusBanner` ties it to the drawing loop. |
| `ImageExport.BlockHeight` | lib/rack-actions.ts:139 | `slotHeight`: 160 per unit at scale 2, so 80 logical px per unit (`BlockHeightIs80PerUnit`). |
| `ImageExport.StackHeight` | lib/rack-actions.ts:137-161 | `currentY` after the loop has drawn a prefix. `LayOutImage` is proved against it. |
| `ImageExport.LabelText` | lib/rack-actions.ts:141-159 | The label: "1U - Empty" for filler, `<size>U - <label>` otherwise. `LabelStartsWithUnits` reads the units back out of it. |
| `ImageExport.CanvasIsTwiceStackPlusBanner` | lib/rack-actions.ts:55-59 | The canvas height is twice the logical stack height plus the 160 px banner. |
| `ImageExport.CanvasHeightClosedForm` | components/settings/action-buttons.tsx:118-122 | The canvas height is 160 per unit drawn (filler counting one), plus 20 per block, plus 160. Equivalently it is 160 times (units used plus filler count), plus 20 per block, plus 160. |
| `ImageExport.RenderedUnitsSplit` | components/settings-panel.tsx:206-210 | The units drawn are the units used plus one per filler entry. |
| `ImageExport.BlankBlockIsOneUnit` | lib/rack-actions.ts:139-144 | A filler block is 80 px high and labelled "1U - Empty", whatever its `size` says. |
| `ImageExport.LabelStartsWithUnits` | lib/rack-actions.ts:141-159 | The number at the start of a block's label (read by `parseInt`) is the block's unit count: 1 for filler, `size` otherwise. |
| `ImageExport.OffsetsIncrease` | lib/rack-actions.ts:137-161 | With no negative equipment size, block tops strictly increase in list order. |
| `Catalog.FilterEquipment` | components/settings/equipment-list.tsx:67-85 | The `filter` over the catalog. `FilterMembership` and `FilterIsSubsequence` characterise it. |
| `Catalog.InsertEnabled` | components/settings/equipment-list.tsx:111 | `canFitEquipment(parseInt(item.size))`: a size that parses and fits. `InsertEnabledAfterReset` characterises it on a reset rack. |
| `Catalog.FilterMembership` | components/settings/equipment-list.tsx:67-85 | A record is listed exactly when it is in the catalog, passes the tag test (a selected tag must be among its tags) and passes the query test. An empty query passes; otherwise some lower-cased field among label, manufacturer, model and tags must contain the lower-cased query. |
| `Catalog.FilterIsSubsequence` | components/settings-panel.tsx:171-189 | The listed records are a subsequence of the catalog, in catalog order. |
| `Catalog.FilterKeepsAllWhenUnfiltered` | components/settings/equipment-list.tsx:72 | With no tag and an empty query, the whole catalog is listed unchanged. |
| `Catalog.QueryCaseIgnored` | components/settings/equipment-list.tsx:74-84 | Queries that agree once lower-cased list the same records. |
| `Catalog.FieldMatchLists` | components/settings/equipment-list.tsx:74-84 | An occurrence of the query in any one searchable field lists the record. |
| `Catalog.InsertRequest` | components/settings/equipment-list.tsx:57-65 | The new entry's id is the catalog id, then `-`, then a number that `parseInt` reads back as the timestamp. Label, image and link are copied, the size is `parseInt` of the catalog size, and there is no filler flag. |
| `Catalog.InsertEnabledAfterReset` | components/settings/equipment-list.tsx:111 | On a freshly reset rack of `n` units, insertion is offered exactly for catalog sizes that parse to at most `n`. A size that does not parse is never offered. |
| `NumberText.ParseInt` | components/settings/rack-size-control.tsx:39 | `parseInt` with no radix. `ParseIntOfIntToString` shows it reads back what `IntToString` writes. |
| `NumberText.IntToString` | components/settings/rack-size-control.tsx:46 | `String(n)` for an integer: a non-empty text starting with `-` or a digit. `ParseIntOfIntToString` and `IntToStringInjective` relate it to `ParseInt`. |
| `NumberText.ParseIntOfIntToString` | components/settings/rack-size-control.tsx:39-46 | `parseInt` reads back the integer `String(n)` wrote, whatever non-digit text follows. |
| `NumberText.IntToStringInjective` | components/settings/settings-panel.tsx:39 | Distinct integers have distinct decimal texts. |
| `RackContext.GuardedSlotCount` | context/rack-context.tsx:15-19 | `updateSlotCount`'s effect on the count. `GuardedSlotCountInRange` and `GuardedSlotCountIdempotent` characterise it. |
| `RackContext.GuardedSlotCountInRange` | context/rack-context.tsx:15-19 | The update keeps the count in 1..50. It changes the count exactly when the new value is in range and different. |
| `RackContext.GuardedSlotCountIdempotent` | context/rack-context.tsx:15-19 | Applying the same update twice is applying it once. |
| `RackContext.SubmittedCount` | components/settings-panel.tsx:136-144 | The form passes on only an integer from 1 to 50. |
| `RackContext.FormAcceptsExactlyTheRange` | components/settings/rack-size-control.tsx:40 | The text of an integer is accepted exactly when the integer is from 1 to 50. So 1 and 50 are accepted, and 0 and 51 are refused. |
| `RackContext.FormRejectsNonNumeric` | components/settings/rack-size-control.tsx:39-40 | Empty and non-numeric text is refused. |
| `RackContext.FormReadsLeadingNumber` | components/settings/rack-size-control.tsx:39 | `parseInt` stops at the first non-digit. Of the floating-point texts the number input hands over, "1e1" submits 1, not 10, and "2.5" submits 2. |
| `RackContext.RevertedTextResubmits` | components/settings/rack-size-control.tsx:45-47 | The text the form reverts to is accepted and submits the current count. |
| `RackContext.FindMovedFrom` | components/rack-planner.tsx:116-118 | The search from an index finds the first entry from there that is non-filler and whose id differs from the old id at the same index (or has no old entry). It finds none exactly when no such entry exists. |
| `RackContext.MovedItem` | components/rack-planner.tsx:114-124 | The reported item is never filler and comes from the new order. Nothing is reported exactly when no entry qualifies. |
| `RackContext.SameIdsReportNoMove` | components/rack-planner.tsx:116-124 | An order with the same ids place by place reports no moved item. |
| `RackContext.Rack.constructor` | context/rack-context.tsx:13 | The provider starts with `slotCount` 12, which is in range. |
| `RackContext.Rack.UpdateSlotCount` | context/rack-context.tsx:15-19 | The count becomes `n` when 1 <= n <= 50 and is otherwise unchanged. The items are untouched. |
| `RackContext.Rack.UpdateItems` | components/rack-planner.tsx:126 | The items are replaced exactly as given, with no permutation or size check. |
| `RackContext.Rack.Reset` | components/settings/settings-panel.tsx:37-45 | Given one clock reading per slot, the items become `slotCount` fresh filler entries, whose sizes add up to `slotCount`. The count is unchanged. |
| `RackContext.Rack.Load` | components/settings/settings-panel.tsx:47-50 | The rack loads exactly when the file passes the validator. A rejected file changes nothing. An accepted one goes through the guarded count update and replaces the items wholesale, with no sum check. |
| `RackContext.Rack.Reorder` | components/rack-planner.tsx:114-127 | The new order is committed verbatim, the count is unchanged, and the moved item is reported. |
| `RackContext.ReorderAndBack` | components/rack-planner.tsx:114-127 | Reordering and then reordering back restores the original items and count. |
| `RackContext.SizeForm.constructor` | components/settings/rack-size-control.tsx:31 | The input starts with the text of the current count. |
| `RackContext.SizeForm.Submit` | components/settings/rack-size-control.tsx:37-48 | An accepted value reaches `updateSlotCount` and the text stays as typed. Anything else leaves the rack unchanged and puts the current count's text back into the input. |

## Findings

| source | as written | input that shows it | evidently intended | confidence | as-written member | corrected member |
|---|---|---|---|---|---|---|
| components/settings-panel.tsx:79-99 | The `handleLoad` of the settings panel that `app/page.tsx` mounts applies the parsed file with no shape check. For a file whose `slotCount` is a number, nothing in the handler throws: `updateSlotCount`, `setInputValue` and `updateItems` all run, so a malformed file raises no alert and is committed. | `{"slotCount": 20}`: the slot count becomes 20, `updateItems(undefined)` is called, and no alert is raised. | Reject a file that fails `validateRackState` and leave the state unchanged, as the `components/settings/` load path does. | medium, not executed | `LayoutCodec.LegacyLoadCommitsRecordWithoutItems` | `RackContext.Rack.Load` |

## Left out

- Insert, remove and resize-with-refill (`addItem`, `removeItem` and the
  filler recomputation) are not part of this model.
  `context/rack-context.tsx` holds only `slotCount`, and no file in this
  repository defines `addItem`, `removeItem` or `updateItems`. Only which
  ids can reach `removeItem` is modelled.
- `RackContext.Rack.UpdateItems`: this is an assumption. `updateItems` is
  called by reset, by both loads and by reorder, but no file in this
  repository defines it. The model takes it to replace the list exactly as
  given, changing nothing else and checking nothing.
- `context/rack-context.tsx` defines no initial item list, so the `Rack`
  constructor takes it as a parameter.
- JavaScript numbers are modelled as integers. A fractional `size` or
  `slotCount` in a loaded file, and `parseInt`'s loss of precision past 2^53,
  are not captured.
- `LayoutCodec.LegacyLoad`: JavaScript's `>=` and `<=` convert a string,
  boolean or array slot count to a number, so `{"slotCount": "20"}` stores
  the string `"20"`. The model records the raw value passed to
  `updateSlotCount` and does not evaluate that conversion. It does model when
  the conversion throws: an object with its own `toString` field, or an array
  holding one at any depth (`JsValues.ToPrimitiveThrows`).
- `LayoutCodec.ImportRecord`: loaded items keep only the six known fields.
  A non-string `imageUrl` or `link` is dropped, and `isBlank` is kept by its
  truthiness. JavaScript keeps the parsed values as they are.
- `Catalog.ToLower`: only ASCII letters are lower-cased. JavaScript's
  `toLowerCase` applies full Unicode case mapping.
- Canvas drawing (fill styles, the rounded label background and its text
  width), image decoding, PNG encoding and the download are browser APIs.
  Only the integer heights, offsets and label texts are modelled.
- File reading, `JSON.parse` and `JSON.stringify`: the model starts from the
  parsed value and ends at the value to be written.
- The catalog fetch and its API route (network and file system), analytics
  events, drag animation, theming, dialogs and keyboard shortcuts.
- The clock: reset reads `Date.now()` once per entry, so `RackItems.BlankSlots`
  takes one reading per entry (`stamps`). The insert request takes its one
  reading as `now`.
- The rack-size input is `type="number"`. The browser hands `onChange` only
  an empty string or a valid floating-point text (`"12U"` arrives as `""`),
  and `onChange` stores it. That sanitizing is browser behaviour and is not
  modelled: `SizeForm.Submit` takes whatever text is stored, so the model
  also covers texts the browser would never produce.
