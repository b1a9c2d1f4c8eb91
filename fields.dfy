/** Form field descriptors: the `type` tag of the field union, the `id`
    every field carries, and the remaining attributes as a property map. */
module Fields {
  import opened Js

  /** The `type` discriminant of the field union. */
  datatype FieldType =
    | Input | Textarea | Date | Password | Number
    | Select | MultiSelect | TreeSelect | LazySelect
    | Mask | Radio | Checkbox | File | Filepond | Template

  function TypeName(t: FieldType): string {
    match t
    case Input => "input"
    case Textarea => "textarea"
    case Date => "date"
    case Password => "password"
    case Number => "number"
    case Select => "select"
    case MultiSelect => "multiselect"
    case TreeSelect => "treeselect"
    case LazySelect => "lazyselect"
    case Mask => "mask"
    case Radio => "radio"
    case Checkbox => "checkbox"
    case File => "file"
    case Filepond => "filepond"
    case Template => "template"
  }

  /** The tag a `type` string names, if it names one. */
  function ParseType(s: string): (r: Option<FieldType>)
    ensures r.Some? ==> TypeName(r.value) == s
  {
    if s == "input" then Some(Input)
    else if s == "textarea" then Some(Textarea)
    else if s == "date" then Some(Date)
    else if s == "password" then Some(Password)
    else if s == "number" then Some(Number)
    else if s == "select" then Some(Select)
    else if s == "multiselect" then Some(MultiSelect)
    else if s == "treeselect" then Some(TreeSelect)
    else if s == "lazyselect" then Some(LazySelect)
    else if s == "mask" then Some(Mask)
    else if s == "radio" then Some(Radio)
    else if s == "checkbox" then Some(Checkbox)
    else if s == "file" then Some(File)
    else if s == "filepond" then Some(Filepond)
    else if s == "template" then Some(Template)
    else None
  }

  /** Every tag's name reads back as that tag, so `ParseType` accepts exactly the names. */
  lemma ParseTypeName(t: FieldType)
    ensures ParseType(TypeName(t)) == Some(t)
  {
  }

  /** One field descriptor. `attrs` holds every attribute other than `id`
      and `type`; an entry for either key in `attrs` is shadowed. */
  datatype Field = Field(id: string, kind: FieldType, attrs: map<string, Value>)

  /** `field[key]` */
  function Get(f: Field, key: string): Value {
    if key == "id" then Str(f.id)
    else if key == "type" then Str(TypeName(f.kind))
    else if key in f.attrs then f.attrs[key]
    else Undefined
  }

  /** The writes a descriptor can hold: its `id` is a string and its
      `type` one of the tags. */
  predicate Storable(key: string, v: Value) {
    && (key == "id" ==> v.Str?)
    && (key == "type" ==> v.Str? && ParseType(v.s).Some?)
  }

  /** `field[key] = v` */
  function Put(f: Field, key: string, v: Value): (r: Field)
    ensures Storable(key, v) ==> Get(r, key) == v
    ensures !Storable(key, v) ==> r == f
    ensures forall k :: k != key ==> Get(r, k) == Get(f, k)
    ensures key != "id" ==> r.id == f.id
  {
    if key == "id" then
      if v.Str? then f.(id := v.s) else f
    else if key == "type" then
      if v.Str? && ParseType(v.s).Some? then f.(kind := ParseType(v.s).value) else f
    else
      f.(attrs := f.attrs[key := v])
  }
}
