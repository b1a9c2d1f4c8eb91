# custom-components: dynamic form core, modelled in Dafny

This project models the logic behind the dynamic form of the
`custom-components` Vue library. It covers:

- the pagination of a form's field list into pages and a stepper;
- filling field descriptors from a backend record and reading values back;
- the attribute bag and the event handlers each field's component receives;
- the form's custom validation rules, and the `message` wrapper that gives
  the library's rules their French texts;
- the generic tree helpers `filterWithinDescendant`, `copyKeys`, `isArray`
  and `hasType`.

The JavaScript values the code handles are modelled in `js.dfy` (module
`Js`). That module covers truthiness, `String(v)`, `+v`, own enumerable
properties and `v[key]`. Exceptions are outcomes of a `Thrown` datatype:
`TypeError`, and `RangeError` for an exhausted call stack. A field
descriptor (`fields.dfy`) is its `id`, its `type` tag and a map holding
every other attribute.

Files:

- `pagination.dfy`: `useFormPagination`. A class `FormPagination` whose
  `page` field the navigation methods update.
- `prefill.dfy`: `useFillFormKey`, `usePrefillForm`, `getOneValueFromKey`
  and `getOneFormValue`. The field list is an `array` updated in place,
  with loops for `findIndex` and for the walk over the record's keys.
- `global.dfy`: `filterWithinDescendant`, `copyKeys`, `isArray`, `hasType`.
  `copyKeys` is a method with loops, proved equal to a recursive
  definition.
- `hydrate.dfy`: `useIdFor`, `useHydrateAttr`, `useHydrateOn`.
- `rules.dfy`: `message`, `not_empty_array`, `strict_min_value`,
  `strict_max_value`, `starts_with`, `ends_with`. It includes
  `String.prototype.replace` with a string pattern, so only the first
  occurrence is replaced and `$$`, `$&`, `` $` `` and `$'` are expanded.

Points where the code's behaviour is easy to misread:

- `types.d.ts` also declares a `filepond` type, which `useHydrateAttr`
  gives the base bag only.
- Nothing makes field ids unique within a list. Every lookup takes the
  first descriptor with the id, and so does the model.
- `ends_with` fails with the text `Doit commencer par …`, the same as
  `starts_with`. The model keeps that text.

## Model

| member | source | states |
|---|---|---|
| Fields.ParseTypeName | modules/dynamicForm/types.d.ts:4-17 | every `type` tag of the field union is recognised from its name and read back as itself |
| Fields.Put | modules/dynamicForm/composables/prefill.ts:16 | `field[key] = v`: the written key reads back as `v`, every other key is unchanged, and the id moves only on a write to `id` |
| Js.NumberOfIntString | modules/dynamicForm/composables/prefill.ts:13 | `Number` of the decimal text of an integer is that integer |
| Js.PropOfCopy | modules/utils/global.ts:22-24 | reading a key of `Object.assign({}, o)` gives what reading `o` gives, except an array's `length` |
| Pagination.PageCount | modules/dynamicForm/composables/pagination.ts:14 | no pages without a positive limit; otherwise the ceiling of length / limit, given as `(r-1)*limit < len <= r*limit` |
| Pagination.PageBounds | modules/dynamicForm/composables/pagination.ts:15-16 | helper: a page from 1 has a non-negative start; a page in range starts inside the list, and its window reaches the end exactly on the last page |
| Pagination.PageOfIndex | modules/dynamicForm/composables/pagination.ts:18 | helper: an index lies in a page's window exactly when its quotient by the limit is that page minus one |
| Pagination.FilterShownIsWindow | modules/dynamicForm/composables/pagination.ts:15-18 | on a paginated form, filtering by `showItem` keeps exactly the fields with index in `[first, last)`, in order |
| Pagination.FilterShownAll | modules/dynamicForm/composables/pagination.ts:18 | on an unpaginated form, filtering by `showItem` keeps every field |
| Pagination.StepLabel | modules/dynamicForm/composables/pagination.ts:43 | the definition of the label `Etape <k+1>` of step `k`; `StepLabelsDistinct`, `Stepper` and `ActiveStepInStepper` are stated against it |
| Pagination.StepLabelsDistinct | modules/dynamicForm/composables/pagination.ts:42-44 | different steps carry different `Etape n` labels |
| Pagination.FormPagination.TotalPage | modules/dynamicForm/composables/pagination.ts:14 | the definition of `totalPage`: 0 without a positive limit, else the least page count covering every field (`PageCount`) |
| Pagination.FormPagination.First | modules/dynamicForm/composables/pagination.ts:15 | the definition of `first`: non-negative from page 1 on, and inside the list on a page in range |
| Pagination.FormPagination.Last | modules/dynamicForm/composables/pagination.ts:16 | the definition of `last`: not before `first`; on a page in range it passes the list's end exactly on the last page |
| Pagination.FormPagination.ShowItem | modules/dynamicForm/composables/pagination.ts:18 | the definition of `showItem`: every index when unpaginated; otherwise exactly the indices on the current page (`FilterShownIsWindow`, `FilterShownAll`) |
| Pagination.FormPagination.HasPrev | modules/dynamicForm/composables/pagination.ts:25 | the definition of `hasPrev`: false when unpaginated; on a page in range, true exactly when the previous page exists (`PrevPage`) |
| Pagination.FormPagination.HasNext | modules/dynamicForm/composables/pagination.ts:26 | the definition of `hasNext`: false when unpaginated; on a page in range, true exactly when the next page exists (`NextPage`) |
| Pagination.FormPagination.ActiveStep | modules/dynamicForm/composables/pagination.ts:41 | the definition of `activeStep`: on a page in range, an index into the steps (`ActiveStepInStepper`) |
| Pagination.FormPagination.constructor | modules/dynamicForm/composables/pagination.ts:13-20 | limit is `fieldLimit`, or 0 when that is absent or zero; the page is the cursor from the route, or 1 without one |
| Pagination.FormPagination.GoToPage | modules/dynamicForm/composables/pagination.ts:28-30 | moves to `p` exactly when `0 < p <= totalPage`, else stays; a moved page is in range |
| Pagination.FormPagination.PrevPage | modules/dynamicForm/composables/pagination.ts:32-34 | goes back one page exactly when paginated and past page 1; a page in range stays in range |
| Pagination.FormPagination.NextPage | modules/dynamicForm/composables/pagination.ts:35-37 | goes forward one page exactly when paginated and before the last page; a page in range stays in range |
| Pagination.FormPagination.PaginatedForm | modules/dynamicForm/composables/pagination.ts:39 | all fields when unpaginated; otherwise the current page's contiguous window, at most `limit` fields, with entry `j` being field `first + j` |
| Pagination.FormPagination.Stepper | modules/dynamicForm/composables/pagination.ts:42-44 | one step per page, step `k` labelled `Etape k+1` |
| Pagination.FormPagination.ActiveStepInStepper | modules/dynamicForm/composables/pagination.ts:41-44 | on a page in range the active step indexes the stepper, at the label of that page |
| Prefill.IndexOf | modules/dynamicForm/composables/prefill.ts:9 | the position of the first descriptor with the id, or -1 when none has it |
| Prefill.Find | modules/dynamicForm/composables/prefill.ts:27 | `find` gives the descriptor at that first position, or nothing |
| Prefill.FilledValue | modules/dynamicForm/composables/prefill.ts:12-16 | a number field receives a number or `NaN`, and a number filler as it is; any other field receives the filler itself |
| Prefill.FillFormKeyResult | modules/dynamicForm/composables/prefill.ts:9-16 | the definition of the list after `useFillFormKey`: unchanged without a match, else the first match with `fieldKey` set to the filled value; `FillFormKey`, `FillThenGet` and `PrefillStep` are stated against it |
| Prefill.FindIndex | modules/dynamicForm/composables/prefill.ts:9 | the loop returns the first position with the id, or -1 |
| Prefill.FillFormKey | modules/dynamicForm/composables/prefill.ts:3-17 | an unknown id changes nothing; otherwise only the matching descriptor changes, and only in `fieldKey`, which then holds the (number-coerced) filler |
| Prefill.GetOneValueFromKey | modules/dynamicForm/composables/prefill.ts:26-30 | `undefined` when no descriptor has the id, else the attribute of the first one that does |
| Prefill.GetOneFormValue | modules/dynamicForm/composables/prefill.ts:32-34 | the `value` attribute of the first descriptor with the id, or `undefined` |
| Prefill.FillThenGet | modules/dynamicForm/composables/prefill.ts:3-30 | reading back a filled attribute gives the stored value: the filler itself for a non-number field |
| Prefill.BackendRecord | modules/dynamicForm/composables/prefill.ts:20 | only a non-null object (including an array) is walked; a plain object's own properties are its keys |
| Prefill.PrefilledWith | modules/dynamicForm/composables/prefill.ts:21-23 | the definition of the list once some of the record's keys are filled: the first descriptor with each such key takes its filled `value`; `PrefillStep`, `PrefillKey`, `PrefillAll` and `PrefillReadBack` are stated against it |
| Prefill.Prefilled | modules/dynamicForm/composables/prefill.ts:19-24 | the definition of the list after `usePrefillForm`: unchanged without a record, else filled from every key; `UsePrefillForm` and `PrefillThenRead` are stated against it |
| Prefill.PrefillStep | modules/dynamicForm/composables/prefill.ts:21-23 | filling one more record key is one `useFillFormKey` call on its `value` |
| Prefill.PrefillKey | modules/dynamicForm/composables/prefill.ts:21-23 | one pass of the loop over the record's keys: field `key` takes its value, one more key is done |
| Prefill.PrefillAll | modules/dynamicForm/composables/prefill.ts:21-23 | the loop over the record's keys, in any order, leaves the list filled from every key of the record |
| Prefill.UsePrefillForm | modules/dynamicForm/composables/prefill.ts:19-24 | a non-null object's own properties prefill the list, in any key order; any other value leaves it unchanged |
| Prefill.PrefillThenRead | modules/dynamicForm/composables/prefill.ts:19-24 | no record changes nothing; each key that names a descriptor reads back as its coerced value; descriptors whose id is no key, later descriptors repeating an earlier id, and every attribute other than `value` stay unchanged |
| Prefill.PrefillReadBack | modules/dynamicForm/composables/prefill.ts:21-23 | helper: after filling from a record, each key that names a descriptor reads back as its coerced value |
| Prefill.PrefillNumberExample | modules/dynamicForm/composables/prefill.ts:12-14 | a number field prefilled with the string `"42"` holds the number 42 |
| TreeUtils.KeepNode | modules/utils/global.ts:27-31 | the definition of the `filter` callback `f` on one element's copy: the copy itself when it passes, dropped when it fails with falsy children, and only ever an object (`KeepNodeSpec`, `KeepNodeShape`, `KeepNodeChildren`) |
| TreeUtils.FilterFrom | modules/utils/global.ts:26 | the definition of `map(copy).filter(f)` over a list's suffix: no more entries than the suffix (`FilterFromSpec`, `SubseqLength`) |
| TreeUtils.CopyChild | modules/utils/global.ts:29 | the children entry of an element's copy |
| TreeUtils.FilterWithinDescendant | modules/utils/global.ts:15-33 | a non-array comes back unchanged; an array gives an array no longer than the input |
| TreeUtils.SubseqLength | modules/utils/global.ts:26-32 | a filtered list has at most one entry per input, and is empty exactly when no input has a match |
| TreeUtils.KeepNodeSpec | modules/utils/global.ts:26-32 | an element is kept exactly when it or some descendant passes the filter |
| TreeUtils.KeepNodeShape | modules/utils/global.ts:27-31 | a kept element is its copy, unchanged when it passes the filter, else with its children replaced by their non-empty filtered list; its other properties are the original's |
| TreeUtils.KeepNodeDerived | modules/utils/global.ts:27-31 | helper: every kept element has the original's properties, except possibly its children entry |
| TreeUtils.KeepNodeFailedShape | modules/utils/global.ts:29-30 | helper: an element kept although it fails the filter holds, under the children key, its non-empty filtered children |
| TreeUtils.KeepNodeChildren | modules/utils/global.ts:29-31 | an element failing the filter has empty filtered children exactly when it has no matching descendant |
| TreeUtils.FilterFromSpec | modules/utils/global.ts:26 | the filtered list holds, in order, one copy for each input element with a match and nothing for the others |
| TreeUtils.FilterWithinDescendantSpec | modules/utils/global.ts:15-33 | the whole result is that in-order list of matching copies; an element failing the filter with falsy children is dropped |
| TreeUtils.FilterFromReturns | modules/utils/global.ts:26-32 | on trees whose children are absent, falsy or arrays, the filter does not throw |
| TreeUtils.KeepNodeReturns | modules/utils/global.ts:29-31 | one such element's filtering does not throw |
| TreeUtils.FilterExample | modules/utils/global.ts:15-33 | filtering a parent with children 2 and 3 by `id === 3` keeps the parent with child 3 only |
| TreeUtils.ApplyMapping | modules/utils/global.ts:47-48 | only the new key can change and no key is deleted; a string mapping then reads its own key's value, or leaves the new key as it was when that key is absent; a function mapping's new key reads the callback's result on the item so far |
| TreeUtils.ApplyMappings | modules/utils/global.ts:46-51 | the definition of the `forEach` over the mappings, each applied to what the earlier ones left; `ApplyAll`, `ApplyMappingsFirst` and `ApplyMappingsFrame` are stated against it |
| TreeUtils.ApplyMappingsFirst | modules/utils/global.ts:46-51 | mappings apply in list order, later ones seeing what earlier ones wrote |
| TreeUtils.ApplyMappingsFrame | modules/utils/global.ts:46-51 | nothing is deleted, and keys that no mapping targets keep their values |
| TreeUtils.ApplyAll | modules/utils/global.ts:46-51 | the `forEach` over the mappings applies them one after another, in list order (`ApplyMappings`) |
| TreeUtils.ChildrenOf | modules/utils/global.ts:53 | the definition of `newItem.children`: the own entry, or `undefined`; `CopyItem` is built on it and `CopyOne` reads it |
| TreeUtils.LengthPositive | modules/utils/global.ts:53 | the definition of `children.length > 0`, through `+` of the `length` read; `CopyItem` is built on it and `CopyOne` tests it |
| TreeUtils.CopyItem | modules/utils/global.ts:45-56 | the definition of one item's copy, the mappings then `WithChildren`: when it does not throw, it is an object (`CopyOne`, `CopyKeysShape`, `CopyItemReturns`) |
| TreeUtils.WithChildren | modules/utils/global.ts:53-56 | the definition of the recursion into `children`: empty or falsy children leave the mapped item as the result; a returned copy is an object keeping every key of the mapped item |
| TreeUtils.CopyKeysList | modules/utils/global.ts:44 | the definition of `arrayToCopy.map(...)`: when nothing throws, one output per input (`CopyKeysListReturned`, `CopyKeysListThrows`) |
| TreeUtils.CopyKeysListReturned | modules/utils/global.ts:44-57 | when every item copies, the result lists the copies in order |
| TreeUtils.CopyKeysListThrows | modules/utils/global.ts:44 | the first item that throws ends the map with the same exception |
| TreeUtils.CopyKeysShape | modules/utils/global.ts:44-57 | when the copy returns (`CopyKeysReturns` gives the trees on which it does): one output per input, in order, each an object holding every key of its input |
| TreeUtils.Shallow | modules/utils/global.ts:53-54 | the definition of the trees the copy handles within a stack depth: non-empty children are arrays, nested no deeper than the depth |
| TreeUtils.ChildrenSurvive | modules/utils/global.ts:46-53 | mappings whose targets are not `children` leave the item's `children` entry as it was |
| TreeUtils.CopyKeysReturns | modules/utils/global.ts:44-57 | with mappings that do not target `children`, a list of trees shallow enough for the depth copies without `TypeError` or `RangeError` |
| TreeUtils.CopyItemReturns | modules/utils/global.ts:45-56 | the single-item half of `CopyKeysReturns` |
| TreeUtils.CopyKeysReturnsExample | modules/utils/global.ts:44-57 | a parent with one leaf child copies at a depth of one frame, under `["value", "id"]`, and keeps its `id` |
| TreeUtils.CopyKeys | modules/utils/global.ts:40-58 | the loop over the items computes the recursive definition, including the `TypeError` and `RangeError` the copy itself raises |
| TreeUtils.CopyOne | modules/utils/global.ts:44-57 | the mapping loop plus the recursion into non-empty children compute one item's copy |
| TreeUtils.CopyChildren | modules/utils/global.ts:53-56 | the `if` on `newItem.children` computes `WithChildren`, exceptions included |
| TreeUtils.IsArray | modules/utils/global.ts:61-64 | the definition of `isArray`: true exactly for arrays (`HasTypeFacts`) |
| TreeUtils.HasType | modules/utils/global.ts:66-72 | the definition of `hasType`: only a non-null object or array can pass, and one passes exactly when it has every listed property (`HasTypeFacts`) |
| TreeUtils.HasTypeFacts | modules/utils/global.ts:61-72 | `isArray` holds exactly for arrays; `hasType` with no property accepts exactly non-null objects; property lists combine by conjunction; arrays have `length` |
| Hydrate.IdFor | modules/dynamicForm/composables/hydrateAttrs.ts:3-5 | the DOM id is the form id, a dash, then the field id |
| Hydrate.IdForInjective | modules/dynamicForm/composables/hydrateAttrs.ts:3-5 | within one form, DOM ids are equal exactly when field ids are |
| Hydrate.IsInvalid | modules/dynamicForm/composables/hydrateAttrs.ts:12 | the definition of `isInvalid`: the errors hold a truthy entry for the field id; `BaseClass`, the select bags' `invalid` and `InvalidMarker` are stated against it |
| Hydrate.BaseClass | modules/dynamicForm/composables/hydrateAttrs.ts:13-17 | the definition of the class string: `w-full`, the invalid marker, then the input class of an input or textarea; `InvalidMarker` and `HydrateAttr` are stated against it |
| Hydrate.BaseBag | modules/dynamicForm/composables/hydrateAttrs.ts:16-21 | the definition of `returnValue`: class, DOM id, `disabled` as a boolean and placeholder; `HydrateAttr` and `HydratePlain` are stated against it |
| Hydrate.FirstOption | modules/dynamicForm/composables/hydrateAttrs.ts:61-62 | the definition of `item.selectOption[0]`, a TypeError when the list is absent; `TypeAttrs`, `HydrateAttr` and `HydrateOptions` are stated against it |
| Hydrate.OptionKey | modules/dynamicForm/composables/hydrateAttrs.ts:61-62 | the definition of the `optionValue`/`optionLabel` ternaries: null for a string first option, else the chosen key or its default; `SelectAttrs` and `MultiSelectAttrs` are stated against it |
| Hydrate.DateAttrs | modules/dynamicForm/composables/hydrateAttrs.ts:22-27 | a date nulls `id` and passes the DOM id as `pt.input.id` |
| Hydrate.NumberAttrs | modules/dynamicForm/composables/hydrateAttrs.ts:28-37 | a number nulls `id` and passes the DOM id as `inputId` |
| Hydrate.PasswordAttrs | modules/dynamicForm/composables/hydrateAttrs.ts:38-48 | a password nulls `id` and passes the DOM id as `inputId` |
| Hydrate.MaskAttrs | modules/dynamicForm/composables/hydrateAttrs.ts:49-56 | a mask keeps the DOM id as `id`; `autoClear` is the field's value or `true` |
| Hydrate.SelectAttrs | modules/dynamicForm/composables/hydrateAttrs.ts:57-68 | a select moves the DOM id to `inputId`; option keys are null for string options, else the chosen key or its default |
| Hydrate.MultiSelectAttrs | modules/dynamicForm/composables/hydrateAttrs.ts:69-82 | a multiselect keeps every key of the select bag and adds `emptyFilterMessage` = `Pas de résultat` and `display` = `chip` |
| Hydrate.TreeSelectAttrs | modules/dynamicForm/composables/hydrateAttrs.ts:83-94 | a treeselect nulls `id` and passes the DOM id as `inputId` |
| Hydrate.LazySelectAttrs | modules/dynamicForm/composables/hydrateAttrs.ts:95-107 | a lazyselect nulls `id` and passes the DOM id as `inputId` |
| Hydrate.ChoiceAttrs | modules/dynamicForm/composables/hydrateAttrs.ts:108-125 | radio and checkbox leave `id` and the base properties alone |
| Hydrate.FileAttrs | modules/dynamicForm/composables/hydrateAttrs.ts:126-143 | a file defaults `readFiles` to `[]` and the previews to `/images/Doc.jpg` and `/images/Video.jpg` |
| Hydrate.TypeAttrs | modules/dynamicForm/composables/hydrateAttrs.ts:22-144 | only a select or multiselect without an option list throws, with a TypeError; input, textarea, filepond and template add nothing |
| Hydrate.TypeAttrsFacts | modules/dynamicForm/composables/hydrateAttrs.ts:22-143 | no type overrides `class`, `disabled` or `placeholder`; the id-moving types null `id` and pass the DOM id on; any other type that writes `id` writes the DOM id |
| Hydrate.HydrateAttr | modules/dynamicForm/composables/hydrateAttrs.ts:7-145 | the bag keeps the base `class`, `disabled` (as a boolean) and `placeholder`; `id` is null for the id-moving types and the DOM id otherwise; the error case is exactly a select without options |
| Hydrate.HydrateOptions | modules/dynamicForm/composables/hydrateAttrs.ts:57-82 | a select's `optionValue`/`optionLabel` are null for string options, else the chosen keys defaulting to `value`/`label` |
| Hydrate.HydrateMask | modules/dynamicForm/composables/hydrateAttrs.ts:52 | a mask's `autoClear` is always truthy, and `true` unless the field holds another truthy non-boolean |
| Hydrate.HydrateFile | modules/dynamicForm/composables/hydrateAttrs.ts:130-132 | a file field always hydrates, with the three defaults applied |
| Hydrate.HydratePlain | modules/dynamicForm/composables/hydrateAttrs.ts:144 | input, textarea, filepond and template fields get exactly the base bag |
| Hydrate.InvalidMarker | modules/dynamicForm/composables/hydrateAttrs.ts:12-17 | the class carries `p-invalid` right after `w-full ` exactly when the field has an error |
| Hydrate.HydrateOn | modules/dynamicForm/composables/hydrateAttrs.ts:147-158 | no handlers for a missing or non-file descriptor; a file descriptor gets exactly `update:readFiles`, bound to that descriptor |
| Hydrate.Invoke | modules/dynamicForm/composables/hydrateAttrs.ts:153-155 | the handler writes the event into the descriptor's `readFiles`, and nothing else changes |
| Hydrate.HydrateAfterUpdate | modules/dynamicForm/composables/hydrateAttrs.ts:126-155 | after the handler stores files, the next hydration passes them on as `readFiles` (the empty list for a falsy event) |
| Rules.FindFirst | modules/dynamicForm/utils/rules.ts:20 | the first position where the pattern occurs, or none when it does not occur |
| Rules.Replace | modules/dynamicForm/utils/rules.ts:20 | at the first occurrence of the pattern (`FirstAt`), the text before it, the expanded replacement and the text after it; the case with no occurrence is `ReplaceAbsent` |
| Rules.FindFirstIsFirst | modules/dynamicForm/utils/rules.ts:20 | `FindFirst` finds nothing when the pattern never occurs, and finds every first occurrence |
| Rules.ReplaceAbsent | modules/dynamicForm/utils/rules.ts:20 | a pattern that never occurs leaves the text unchanged |
| Rules.ExpandPlain | modules/dynamicForm/utils/rules.ts:20 | a replacement without `$` is inserted as it is |
| Rules.ReplacePlain | modules/dynamicForm/utils/rules.ts:20 | a `$`-free replacement splices in at the first occurrence |
| Rules.ReplaceFirstPlaceholder | modules/dynamicForm/utils/rules.ts:20 | a placeholder with no `$` before it gives way to the replacement, and the rest of the text is unchanged |
| Rules.SubstitutePlain | modules/dynamicForm/utils/rules.ts:19-20 | a template without `$` comes out unchanged whatever the parameters |
| Rules.Substitute | modules/dynamicForm/utils/rules.ts:20 | the definition of the `reduce` in `message`; `SubstituteStep`, `SubstitutePlain`, `SubstituteFirst`, `SubstituteSecond` and `SubstituteTwo` state what it does |
| Rules.SubstituteStep | modules/dynamicForm/utils/rules.ts:20 | parameter `k` (from 1) replaces the placeholder `$k`, after the earlier ones |
| Rules.SubstituteFirst | modules/dynamicForm/utils/rules.ts:20 | the first parameter fills the first `$1`; a later `$1` stays |
| Rules.SubstituteSecond | modules/dynamicForm/utils/rules.ts:20 | the second parameter fills `$2` once `$1` is filled |
| Rules.SubstituteTwo | modules/dynamicForm/utils/rules.ts:20 | two parameters fill `$1` and `$2` in order |
| Rules.Message | modules/dynamicForm/utils/rules.ts:15-22 | accepted exactly when the wrapped rule returns `true`; otherwise the template, filled from the parameters when they are an array |
| Rules.BetweenText | modules/dynamicForm/utils/rules.ts:39 | the `between` text with integer bounds filled in reads `Doit être entre <lo> et <hi>` |
| Rules.BetweenFilled | modules/dynamicForm/utils/rules.ts:39 | helper: a text split as `pre $1 mid $2` with no `$` around takes the two written bounds in order |
| Rules.BetweenMessage | modules/dynamicForm/utils/rules.ts:39 | a value failing `between lo hi` gets `Doit être entre <lo> et <hi>` |
| Rules.NotEmptyArray | modules/dynamicForm/utils/rules.ts:44-48 | accepts exactly a non-empty array; `Champs invalide` for a non-array, `Choix requis` for the empty array |
| Rules.StrictMinValue | modules/dynamicForm/utils/rules.ts:50-55 | accepts exactly a number strictly above the numeric bound; checks the value, then the bound, then the comparison |
| Rules.StrictMaxValue | modules/dynamicForm/utils/rules.ts:56-61 | accepts exactly a number strictly below the numeric bound; the same three failure texts |
| Rules.StrictMinFailuresDistinct | modules/dynamicForm/utils/rules.ts:51-53 | the three failures of `strict_min_value` give three different texts |
| Rules.StrictBoundsExclusive | modules/dynamicForm/utils/rules.ts:50-61 | a value equal to the bound fails both rules; any other number passes exactly one |
| Rules.StrictMinExample | modules/dynamicForm/utils/rules.ts:50-55 | `5` fails a bound of 5 with its message; `"6"` passes it |
| Rules.AnyPrefix | modules/dynamicForm/utils/rules.ts:66 | true exactly when some listed text begins the string |
| Rules.AnySuffix | modules/dynamicForm/utils/rules.ts:74 | true exactly when some listed text ends the string |
| Rules.StartsWith | modules/dynamicForm/utils/rules.ts:63-69 | an empty value passes; a string passes exactly when a listed text begins it, else fails with the joined list; another value throws unless the list is empty |
| Rules.EndsWith | modules/dynamicForm/utils/rules.ts:71-77 | the same, with endings, and the same `Doit commencer par` text |
| Rules.EmptyListRejects | modules/dynamicForm/utils/rules.ts:63-77 | with nothing listed, every non-empty string fails both rules |
| Rules.PhoneExample | modules/dynamicForm/utils/rules.ts:63-77 | `0612` starts with one of `06`, `07` but ends with neither: `Doit commencer par 06 ou 07` |

## Left out

- Vue reactivity, `computed` and the router are not modelled. The current page is an ordinary field, and the pages are read when asked for.
- Pagination.FormPagination.constructor: takes the route's page as an optional integer. A query that is not an integer is not modelled: a non-numeric one gives a `NaN` page in the library, and a fractional one such as `1.5` a fractional page.
- vee-validate is not modelled: `defineRule`, `configure`, the default message, and the library's own rules. The wrapped rule is a parameter of `Message`, and a result given as a `Promise` is not modelled.
- `asyncTimeout` (a timer) and `dynamicError` (reading an HTTP error) are not modelled; neither is part of the form logic.
- Js.ToNumber: reads only the integer forms (empty, an optional sign, decimal digits). Any other string reads as `NaN`, although JavaScript reads a number from whitespace-padded, hexadecimal, exponent and fractional forms and from `Infinity`. Numbers are unbounded integers here. So `strict_min_value` and `strict_max_value` answer `Nombre invalide` for such strings (`"0.5"` against a bound of 0, for one), and a number field filled with such a string stores `NaN` instead of the number.
- Values are finite trees. A cyclic structure, on which `filterWithinDescendant` and `copyKeys` exhaust the stack, cannot be written down.
- Strings are sequences of code points, not of UTF-16 units, so `length` and indexing differ from JavaScript on characters outside the Basic Multilingual Plane.
- Properties inherited from prototypes are not modelled. `v[key]` sees own properties, plus `length` on arrays and strings.
- `Object.keys` order is not modelled: records are maps, and `Prefill.UsePrefillForm` is proved for every key order.
- Fields.Put: a write to `id` that is not a string, or to `type` that is not a known tag, is dropped. The descriptor cannot hold such a value.
- Function values (`fetcher`, `uploader`, `deleter`, …) are opaque. They are passed through by value and never called; their `String()` is their source text.
- Rules.Message: each parameter is turned to text with `String()`. A parameter that is itself a function would be used as a replacer by `replace`; that case is not modelled.
- Rules.StartsWith: the listed texts are strings, as the rules type them. Non-string entries are not modelled.
- Rules.EndsWith: the same as `Rules.StartsWith`.
- TreeUtils.CopyKeys: runs with an explicit stack depth, and `RangeError` stands for running out of stack. A function mapping that rebuilds `children` on every level recurses until the stack is exhausted, so the model cannot be total without this bound.
- TreeUtils.FilterWithinDescendant: the callback `filterFn` is a pure, total function of the element's copy. A callback that changes the copy it is given, or that throws, is not modelled.
- TreeUtils.CopyKeys: a function mapping is a pure, total function of the item built so far. A callback that changes that item (deleting a key, say) or throws is not modelled, so `CopyKeysShape` and the exceptions of `CopyKeys` speak of side-effect-free, non-throwing callbacks only.
- TreeUtils.CopyKeysReturns: covers only mappings whose target is not `children`. A mapping that writes `children` can make the copy recurse without end, which is why the depth bound exists.
- TreeUtils.HasType: the value of `obj && …` is read as a boolean. The falsy value itself (`0`, `""`, `null`) is not returned.
- TreeUtils.KeepNodeSpec: states which elements are kept only for runs that do not throw. `TreeUtils.FilterFromReturns` gives the trees on which that is every run.
- The field list in `prefill.dfy` is an array of descriptor values. A descriptor shared with other code is not modelled there; `Hydrate.FieldCell` models sharing only for the handler of `useHydrateOn`.
