/** The attribute bag a field descriptor's component receives
    (`useIdFor`, `useHydrateAttr`) and the event handlers bound to it
    (`useHydrateOn`). */
module Hydrate {
  import opened Js
  import opened Fields

  /** An object literal built for a component: property name to value. */
  type Bag = map<string, Value>

  /** `${propId}-${item.id}`, the DOM id of the field's input. */
  function IdFor(propId: string, item: Field): (r: string)
    ensures |r| == |propId| + 1 + |item.id|
    ensures r[..|propId|] == propId && r[|propId|] == '-' && r[|propId| + 1..] == item.id
  {
    propId + "-" + item.id
  }

  /** Within one form (one `propId`), different field ids give different DOM ids. */
  lemma IdForInjective(propId: string, a: Field, b: Field)
    ensures IdFor(propId, a) == IdFor(propId, b) <==> a.id == b.id
  {
    if IdFor(propId, a) == IdFor(propId, b) {
      assert a.id == IdFor(propId, a)[|propId| + 1..];
    }
  }

  /** The error map holds a truthy entry for the field. */
  predicate IsInvalid(item: Field, errors: Option<map<string, Value>>) {
    errors.Some? && item.id in errors.value && Truthy(errors.value[item.id])
  }

  /** The class string: `w-full`, the invalid marker when the field has an
      error, then the field's own input class for inputs and textareas. */
  function BaseClass(item: Field, errors: Option<map<string, Value>>): string {
    "w-full " + (if IsInvalid(item, errors) then "p-invalid" else "") + " "
    + (if item.kind == Input || item.kind == Textarea then ToStr(Get(item, "inputClass")) else "")
  }

  /** `returnValue`: what every type receives. */
  function BaseBag(propId: string, item: Field, errors: Option<map<string, Value>>): Bag {
    map[
      "class" := Str(BaseClass(item, errors)),
      "id" := Str(IdFor(propId, item)),
      "disabled" := Bool(Truthy(Get(item, "disabled"))),
      "placeholder" := Get(item, "placeholder")]
  }

  /** `w-full` followed by the field's own input class. */
  function WideInputClass(item: Field): Value {
    Str("w-full " + ToStr(Get(item, "inputClass")))
  }

  /** The types whose component takes its DOM id through `inputId` (or,
      for a date, through `pt.input.id`), so that the top-level `id` is null. */
  predicate IdMoved(kind: FieldType) {
    kind == Date || kind == Number || kind == Password || kind == Select
    || kind == MultiSelect || kind == TreeSelect || kind == LazySelect
  }

  /** The types answered with the base bag alone. */
  predicate PlainKind(kind: FieldType) {
    kind == Input || kind == Textarea || kind == Filepond || kind == Template
  }

  /** An option key: null when the options are strings, else the chosen
      key or, when that is falsy, the fallback. */
  function OptionKey(first: Value, chosen: Value, fallback: string): Value {
    if first.Str? then Null else Or(chosen, Str(fallback))
  }

  /** `item.selectOption[0]`, which throws when the option list is absent. */
  function FirstOption(item: Field): Thrown<Value> {
    var options := Get(item, "selectOption");
    if options.Undefined? || options.Null? then TypeError else Returned(Prop(options, "0"))
  }

  /** No type's literal overrides `class`, `disabled` or `placeholder`. */
  predicate KeepsBase(extra: Bag) {
    "class" !in extra && "disabled" !in extra && "placeholder" !in extra
  }

  /** The literal nulls the top-level `id` and passes the DOM id as `inputId`. */
  predicate MovesId(extra: Bag, propId: string, item: Field) {
    && "id" in extra && extra["id"] == Null
    && "inputId" in extra && extra["inputId"] == Str(IdFor(propId, item))
  }

  function DateAttrs(propId: string, item: Field): (r: Bag)
    ensures KeepsBase(r) && "id" in r && r["id"] == Null
    ensures "pt" in r && Prop(Prop(r["pt"], "input"), "id") == Str(IdFor(propId, item))
  {
    map[
      "pt" := Obj(map["input" := Obj(map["id" := Str(IdFor(propId, item)), "class" := Get(item, "inputClass")])]),
      "id" := Null]
  }

  function NumberAttrs(propId: string, item: Field, errors: Option<map<string, Value>>): (r: Bag)
    ensures KeepsBase(r) && MovesId(r, propId, item)
  {
    map[
      "type" := Str("number"),
      "inputClass" := WideInputClass(item),
      "inputId" := Str(IdFor(propId, item)),
      "id" := Null,
      "useGrouping" := Bool(true),
      "invalid" := Bool(IsInvalid(item, errors))]
  }

  function PasswordAttrs(propId: string, item: Field, errors: Option<map<string, Value>>): (r: Bag)
    ensures KeepsBase(r) && MovesId(r, propId, item)
  {
    map[
      "toggleMask" := Bool(true),
      "feedback" := Bool(false),
      "inputClass" := WideInputClass(item),
      "pt" := Obj(map["input" := Obj(map["autocomplete" := Str("current-password")])]),
      "inputId" := Str(IdFor(propId, item)),
      "id" := Null,
      "invalid" := Bool(IsInvalid(item, errors))]
  }

  function MaskAttrs(propId: string, item: Field): (r: Bag)
    ensures KeepsBase(r) && "id" in r && r["id"] == Str(IdFor(propId, item))
    ensures "autoClear" in r && r["autoClear"] == Or(Get(item, "autoClear"), Bool(true))
  {
    map[
      "autoClear" := Or(Get(item, "autoClear"), Bool(true)),
      "mask" := Get(item, "mask"),
      "inputClass" := WideInputClass(item),
      "id" := Str(IdFor(propId, item))]
  }

  /** The properties `select` and `multiselect` share. */
  function SelectAttrs(propId: string, item: Field, errors: Option<map<string, Value>>, first: Value): (r: Bag)
    ensures KeepsBase(r) && MovesId(r, propId, item)
    ensures "optionValue" in r && r["optionValue"] == OptionKey(first, Get(item, "selectValue"), "value")
    ensures "optionLabel" in r && r["optionLabel"] == OptionKey(first, Get(item, "selectLabel"), "label")
  {
    map[
      "options" := Get(item, "selectOption"),
      "optionValue" := OptionKey(first, Get(item, "selectValue"), "value"),
      "optionLabel" := OptionKey(first, Get(item, "selectLabel"), "label"),
      "inputClass" := WideInputClass(item),
      "inputId" := Str(IdFor(propId, item)),
      "filter" := Get(item, "filter"),
      "id" := Null,
      "invalid" := Bool(IsInvalid(item, errors))]
  }

  function MultiSelectAttrs(propId: string, item: Field, errors: Option<map<string, Value>>, first: Value): (r: Bag)
    ensures KeepsBase(r) && MovesId(r, propId, item)
    ensures "emptyFilterMessage" in r && r["emptyFilterMessage"] == Str("Pas de résultat")
    ensures "display" in r && r["display"] == Str("chip")
    ensures forall k :: k in SelectAttrs(propId, item, errors, first) ==> k in r
    ensures "optionValue" in r && r["optionValue"] == OptionKey(first, Get(item, "selectValue"), "value")
    ensures "optionLabel" in r && r["optionLabel"] == OptionKey(first, Get(item, "selectLabel"), "label")
  {
    var extra := map["emptyFilterMessage" := Str("Pas de résultat"), "display" := Str("chip")];
    assert KeepsBase(extra);
    assert "id" !in extra && "inputId" !in extra && "optionValue" !in extra && "optionLabel" !in extra;
    SelectAttrs(propId, item, errors, first) + extra
  }

  function TreeSelectAttrs(propId: string, item: Field, errors: Option<map<string, Value>>): (r: Bag)
    ensures KeepsBase(r) && MovesId(r, propId, item)
  {
    map[
      "options" := Get(item, "selectOption"),
      "invalid" := Bool(IsInvalid(item, errors)),
      "inputClass" := WideInputClass(item),
      "selectLabel" := Get(item, "selectLabel"),
      "selectValue" := Get(item, "selectValue"),
      "childrenKey" := Get(item, "childrenKey"),
      "inputId" := Str(IdFor(propId, item)),
      "id" := Null]
  }

  function LazySelectAttrs(propId: string, item: Field, errors: Option<map<string, Value>>): (r: Bag)
    ensures KeepsBase(r) && MovesId(r, propId, item)
  {
    map[
      "invalid" := Bool(IsInvalid(item, errors)),
      "inputClass" := WideInputClass(item),
      "selectLabel" := Get(item, "selectLabel"),
      "selectValue" := Get(item, "selectValue"),
      "filter" := Get(item, "filter"),
      "fetcher" := Get(item, "fetcher"),
      "oneFetcher" := Get(item, "oneFetcher"),
      "inputId" := Str(IdFor(propId, item)),
      "id" := Null]
  }

  /** The properties `radio` and `checkbox` add. */
  function ChoiceAttrs(item: Field, errors: Option<map<string, Value>>): (r: Bag)
    ensures KeepsBase(r) && "id" !in r
  {
    map[
      "alignement" := Get(item, "alignement"),
      "options" := Get(item, "selectOption"),
      "invalid" := Bool(IsInvalid(item, errors)),
      "selectLabel" := Get(item, "selectLabel"),
      "selectValue" := Get(item, "selectValue")]
  }

  function FileAttrs(item: Field): (r: Bag)
    ensures KeepsBase(r) && "id" !in r
    ensures "readFiles" in r && r["readFiles"] == Or(Get(item, "readFiles"), Arr([]))
    ensures "docPreviewImgUrl" in r && r["docPreviewImgUrl"] == Or(Get(item, "docPreviewImgUrl"), Str("/images/Doc.jpg"))
    ensures "videoPreviewImgUrl" in r && r["videoPreviewImgUrl"] == Or(Get(item, "videoPreviewImgUrl"), Str("/images/Video.jpg"))
  {
    var defaults := map[
      "readFiles" := Or(Get(item, "readFiles"), Arr([])),
      "docPreviewImgUrl" := Or(Get(item, "docPreviewImgUrl"), Str("/images/Doc.jpg")),
      "videoPreviewImgUrl" := Or(Get(item, "videoPreviewImgUrl"), Str("/images/Video.jpg"))];
    var passed := FilePassedAttrs(item);
    assert "readFiles" !in passed && "docPreviewImgUrl" !in passed && "videoPreviewImgUrl" !in passed;
    passed + defaults
  }

  /** The file options passed through unchanged. */
  function FilePassedAttrs(item: Field): (r: Bag)
    ensures KeepsBase(r) && "id" !in r
  {
    map[
      "allowMultiple" := Get(item, "allowMultiple"),
      "uploader" := Get(item, "uploader"),
      "deleter" := Get(item, "deleter"),
      "reorderer" := Get(item, "reorderer"),
      "acceptedFileTypes" := Get(item, "fileType"),
      "invalidFileTypeMessage" := Get(item, "invalidFileTypeMessage"),
      "maxFileSize" := Get(item, "maxFileSize"),
      "invalidFileSizeMessage" := Get(item, "invalidFileSizeMessage"),
      "fileLimit" := Get(item, "fileLimit"),
      "invalidFileLimitMessage" := Get(item, "invalidFileLimitMessage"),
      "valueType" := Get(item, "valueType")]
  }

  /** What each type's object literal writes after `...returnValue`. Only
      a select or multiselect without an option list throws. */
  function TypeAttrs(propId: string, item: Field, errors: Option<map<string, Value>>): (r: Thrown<Bag>)
    ensures r.TypeError? <==>
              (item.kind == Select || item.kind == MultiSelect) && FirstOption(item).TypeError?
    ensures !r.RangeError?
    ensures PlainKind(item.kind) ==> r == Returned(map[])
  {
    match item.kind
    case Date => Returned(DateAttrs(propId, item))
    case Number => Returned(NumberAttrs(propId, item, errors))
    case Password => Returned(PasswordAttrs(propId, item, errors))
    case Mask => Returned(MaskAttrs(propId, item))
    case Select =>
      (match FirstOption(item)
       case Returned(first) => Returned(SelectAttrs(propId, item, errors, first))
       case _ => TypeError)
    case MultiSelect =>
      (match FirstOption(item)
       case Returned(first) => Returned(MultiSelectAttrs(propId, item, errors, first))
       case _ => TypeError)
    case TreeSelect => Returned(TreeSelectAttrs(propId, item, errors))
    case LazySelect => Returned(LazySelectAttrs(propId, item, errors))
    case Radio => Returned(ChoiceAttrs(item, errors))
    case Checkbox => Returned(ChoiceAttrs(item, errors))
    case File => Returned(FileAttrs(item))
    case _ => Returned(map[])
  }

  /** No type overrides `class`, `disabled` or `placeholder`. The types of
      `IdMoved` null the top-level `id` and pass the DOM id on (as
      `inputId`, or inside `pt` for a date); the one other type that writes
      `id`, a mask, writes the DOM id itself. */
  lemma TypeAttrsFacts(propId: string, item: Field, errors: Option<map<string, Value>>)
    ensures var r := TypeAttrs(propId, item, errors);
            && (r.Returned? ==> KeepsBase(r.value))
            && (r.Returned? && IdMoved(item.kind) && item.kind != Date ==> MovesId(r.value, propId, item))
            && (r.Returned? && item.kind == Date ==>
                  && "id" in r.value && r.value["id"] == Null
                  && "pt" in r.value && Prop(Prop(r.value["pt"], "input"), "id") == Str(IdFor(propId, item)))
            && (r.Returned? && !IdMoved(item.kind) && "id" in r.value ==> r.value["id"] == Str(IdFor(propId, item)))
  {
    match item.kind {
      case Date =>
      case Number =>
      case Password =>
      case Mask =>
      case Select =>
      case MultiSelect =>
      case TreeSelect =>
      case LazySelect =>
      case Radio =>
      case Checkbox =>
      case File =>
      case _ =>
    }
  }

  /** `useHydrateAttr(propId, item, errors)`: the base bag spread under the type's own entries.
      Every type keeps the base bag's `class`, `disabled` and `placeholder`,
      so `disabled` is always a boolean; the DOM id is the top-level `id`
      except for the types of `IdMoved`, whose `id` is null and whose DOM
      id goes to `inputId` (to `pt.input.id` for a date). */
  function HydrateAttr(propId: string, item: Field, errors: Option<map<string, Value>>): (r: Thrown<Bag>)
    ensures r.TypeError? <==>
              (item.kind == Select || item.kind == MultiSelect) && FirstOption(item).TypeError?
    ensures !r.RangeError?
    ensures r.Returned? ==>
              && BaseBag(propId, item, errors).Keys <= r.value.Keys
              && r.value["class"] == Str(BaseClass(item, errors))
              && r.value["disabled"] == Bool(Truthy(Get(item, "disabled")))
              && r.value["placeholder"] == Get(item, "placeholder")
    ensures r.Returned? ==> r.value["id"] == (if IdMoved(item.kind) then Null else Str(IdFor(propId, item)))
    ensures r.Returned? && IdMoved(item.kind) && item.kind != Date ==>
              "inputId" in r.value && r.value["inputId"] == Str(IdFor(propId, item))
    ensures r.Returned? && item.kind == Date ==>
              "pt" in r.value && Prop(Prop(r.value["pt"], "input"), "id") == Str(IdFor(propId, item))
  {
    TypeAttrsFacts(propId, item, errors);
    match TypeAttrs(propId, item, errors)
    case Returned(extra) => Returned(BaseBag(propId, item, errors) + extra)
    case _ => TypeError
  }

  /** `optionValue` and `optionLabel` of a select: null when the first
      option is a string, else the chosen keys with their defaults. */
  lemma HydrateOptions(propId: string, item: Field, errors: Option<map<string, Value>>)
    requires item.kind == Select || item.kind == MultiSelect
    ensures var r := HydrateAttr(propId, item, errors);
            r.Returned? ==>
              var first := FirstOption(item).value;
              && "optionValue" in r.value && "optionLabel" in r.value
              && (first.Str? ==> r.value["optionValue"] == Null && r.value["optionLabel"] == Null)
              && (!first.Str? ==>
                    && r.value["optionValue"] == Or(Get(item, "selectValue"), Str("value"))
                    && r.value["optionLabel"] == Or(Get(item, "selectLabel"), Str("label")))
  {
  }

  /** A mask's `autoClear` is always truthy, and `true` unless the
      descriptor holds some other truthy, non-boolean value there. */
  lemma HydrateMask(propId: string, item: Field, errors: Option<map<string, Value>>)
    requires item.kind == Mask
    ensures var r := HydrateAttr(propId, item, errors);
            && r.Returned? && "autoClear" in r.value && Truthy(r.value["autoClear"])
            && (!Truthy(Get(item, "autoClear")) || Get(item, "autoClear").Bool? ==>
                  r.value["autoClear"] == Bool(true))
  {
  }

  /** A file field's list of files defaults to `[]`, its preview images
      to `/images/Doc.jpg` and `/images/Video.jpg`. */
  lemma HydrateFile(propId: string, item: Field, errors: Option<map<string, Value>>)
    requires item.kind == File
    ensures var r := HydrateAttr(propId, item, errors);
            && r.Returned?
            && "readFiles" in r.value && "docPreviewImgUrl" in r.value && "videoPreviewImgUrl" in r.value
            && r.value["readFiles"] == (if Truthy(Get(item, "readFiles")) then Get(item, "readFiles") else Arr([]))
            && r.value["docPreviewImgUrl"] == Or(Get(item, "docPreviewImgUrl"), Str("/images/Doc.jpg"))
            && r.value["videoPreviewImgUrl"] == Or(Get(item, "videoPreviewImgUrl"), Str("/images/Video.jpg"))
  {
  }

  /** Input, textarea, filepond and template fields get exactly the base bag. */
  lemma HydratePlain(propId: string, item: Field, errors: Option<map<string, Value>>)
    requires PlainKind(item.kind)
    ensures HydrateAttr(propId, item, errors) == Returned(BaseBag(propId, item, errors))
  {
    var base := BaseBag(propId, item, errors);
    assert base + map[] == base;
  }

  /** The class string carries the `p-invalid` marker, right after
      `"w-full "`, exactly when the field has an error. */
  lemma InvalidMarker(item: Field, errors: Option<map<string, Value>>)
    ensures var c := BaseClass(item, errors);
            |c| >= 16 && c[7..16] == "p-invalid" <==> IsInvalid(item, errors)
  {
    var c := BaseClass(item, errors);
    if !IsInvalid(item, errors) {
      assert c[7] == ' ';
    }
  }

  // ---------------------------------------------------------------------
  // useHydrateOn

  /** A field descriptor as a shared, mutable object: the handler below
      writes into the very descriptor it was created for. */
  class FieldCell {
    var field: Field

    constructor (field: Field)
      ensures this.field == field
    {
      this.field := field;
    }
  }

  /** The one handler there is, which stores the event's files as the
      descriptor's `readFiles`, with the descriptor it closes over. */
  datatype Handler = SetReadFiles(target: FieldCell)

  /** The handlers to bind: none for a missing or non-file descriptor,
      `update:readFiles` for a file descriptor. */
  function HydrateOn(item: FieldCell?): (r: map<string, Handler>)
    reads item
    ensures item == null || item.field.kind != File ==> r == map[]
    ensures item != null && item.field.kind == File ==>
              r.Keys == {"update:readFiles"} && r["update:readFiles"].target == item
  {
    if item == null then map[]
    else if item.field.kind == File then map["update:readFiles" := SetReadFiles(item)]
    else map[]
  }

  /** Calling a handler with the event's value. */
  method Invoke(h: Handler, evt: Value)
    modifies h.target
    ensures h.target.field == Put(old(h.target.field), "readFiles", evt)
    ensures Get(h.target.field, "readFiles") == evt
    ensures forall k :: k != "readFiles" ==> Get(h.target.field, k) == Get(old(h.target.field), k)
  {
    h.target.field := Put(h.target.field, "readFiles", evt);
  }

  /** Once the handler has stored new files, the next hydration of the
      field passes them on (or the empty list, when the event is falsy). */
  lemma HydrateAfterUpdate(propId: string, f: Field, errors: Option<map<string, Value>>, evt: Value)
    requires f.kind == File
    ensures var r := HydrateAttr(propId, Put(f, "readFiles", evt), errors);
            r.Returned? && r.value["readFiles"] == Or(evt, Arr([]))
  {
  }

  /** A file descriptor's handler, invoked with new files, updates the
      very descriptor it was made for; hydrating that descriptor again
      passes the files on. */
  method UpdateScenario(propId: string, f: Field, files: seq<Value>)
    requires f.kind == File
  {
    var cell := new FieldCell(f);
    var ons := HydrateOn(cell);
    assert "update:readFiles" in ons;
    Invoke(ons["update:readFiles"], Arr(files));
    assert cell.field == Put(f, "readFiles", Arr(files));
    HydrateAfterUpdate(propId, f, None, Arr(files));
  }
}
