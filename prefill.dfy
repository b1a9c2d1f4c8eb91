/** Filling descriptor attributes from a backend record and reading them
    back (`useFillFormKey`, `usePrefillForm`, `getOneValueFromKey`,
    `getOneFormValue`). The field list is an array updated in place. */
module Prefill {
  import opened Js
  import opened Fields

  /** Position of the first descriptor with the given id, or -1. */
  function IndexOf(form: seq<Field>, id: string): (r: int)
    ensures -1 <= r < |form|
    ensures r >= 0 ==> form[r].id == id
    ensures forall j :: 0 <= j < |form| && (r < 0 || j < r) ==> form[j].id != id
  {
    if form == [] then -1
    else if form[0].id == id then 0
    else
      var k := IndexOf(form[1..], id);
      if k < 0 then -1 else k + 1
  }

  /** The first descriptor with the given id, if any. */
  function Find(form: seq<Field>, id: string): (r: Option<Field>)
    ensures r == (if IndexOf(form, id) < 0 then None else Some(form[IndexOf(form, id)]))
  {
    if form == [] then None
    else if form[0].id == id then Some(form[0])
    else Find(form[1..], id)
  }

  /** Two lists whose descriptors carry the same ids, position by
      position, find every id at the same place. */
  lemma IndexOfSameIds(a: seq<Field>, b: seq<Field>, id: string)
    requires |a| == |b|
    requires forall j :: 0 <= j < |a| ==> a[j].id == b[j].id
    ensures IndexOf(a, id) == IndexOf(b, id)
  {
    var i, k := IndexOf(a, id), IndexOf(b, id);
    if i >= 0 { assert b[i].id == id; }
    if k >= 0 { assert a[k].id == id; }
  }

  /** What `useFillFormKey` stores: `Number(filler)` for a number field,
      `filler` itself for every other type. */
  function FilledValue(f: Field, filler: Value): (v: Value)
    ensures f.kind == Number ==> v.Num? || v.NaN?
    ensures f.kind == Number && filler.Num? ==> v == filler
    ensures f.kind != Number ==> v == filler
  {
    if f.kind == Number then NumberValue(filler) else filler
  }

  /** The field list after `useFillFormKey(form, id, key, filler)`. */
  function FillFormKeyResult(form: seq<Field>, id: string, key: string, filler: Value): seq<Field> {
    var i := IndexOf(form, id);
    if i < 0 then form else form[i := Put(form[i], key, FilledValue(form[i], filler))]
  }

  /** The loop of `findIndex`: the first position with the given id, or -1. */
  method FindIndex(form: array<Field>, id: string) returns (index: int)
    ensures index == IndexOf(form[..], id)
  {
    var i := 0;
    while i < form.Length
      invariant 0 <= i <= form.Length
      invariant forall j :: 0 <= j < i ==> form[j].id != id
    {
      if form[i].id == id {
        return i;
      }
      i := i + 1;
    }
    return -1;
  }

  method FillFormKey(form: array<Field>, fieldId: string, fieldKey: string, filler: Value)
    modifies form
    ensures form[..] == FillFormKeyResult(old(form[..]), fieldId, fieldKey, filler)
    ensures IndexOf(old(form[..]), fieldId) < 0 ==> form[..] == old(form[..])
    ensures forall j :: 0 <= j < form.Length && j != IndexOf(old(form[..]), fieldId) ==> form[j] == old(form[j])
    ensures var i := IndexOf(old(form[..]), fieldId);
            i >= 0 ==>
              && (forall k :: k != fieldKey ==> Get(form[i], k) == Get(old(form[i]), k))
              && (Storable(fieldKey, FilledValue(old(form[i]), filler)) ==>
                    Get(form[i], fieldKey) == FilledValue(old(form[i]), filler))
  {
    var index := FindIndex(form, fieldId);
    if index < 0 {
      return;
    }
    if form[index].kind == Number {
      form[index] := Put(form[index], fieldKey, NumberValue(filler));
      return;
    }
    form[index] := Put(form[index], fieldKey, filler);
  }

  /** The attribute of the first descriptor with that id, or `undefined`
      when there is none. */
  function GetOneValueFromKey(form: seq<Field>, fieldId: string, fieldKey: string): (r: Value)
    ensures IndexOf(form, fieldId) < 0 ==> r == Undefined
    ensures IndexOf(form, fieldId) >= 0 ==> r == Get(form[IndexOf(form, fieldId)], fieldKey)
  {
    match Find(form, fieldId)
    case None => Undefined
    case Some(f) => Get(f, fieldKey)
  }

  function GetOneFormValue(form: seq<Field>, fieldId: string): (r: Value)
    ensures IndexOf(form, fieldId) < 0 ==> r == Undefined
    ensures IndexOf(form, fieldId) >= 0 ==> r == Get(form[IndexOf(form, fieldId)], "value")
  {
    GetOneValueFromKey(form, fieldId, "value")
  }

  /** Reading back what `useFillFormKey` stored gives the stored value:
      the filler itself for a field that is not a number field. A write
      to `id` is excluded: it renames the descriptor, so the lookup by the
      old id no longer finds it. */
  lemma {:induction false} FillThenGet(form: seq<Field>, id: string, key: string, x: Value)
    requires IndexOf(form, id) >= 0
    requires key != "id"
    requires Storable(key, FilledValue(form[IndexOf(form, id)], x))
    ensures GetOneValueFromKey(FillFormKeyResult(form, id, key, x), id, key)
              == FilledValue(form[IndexOf(form, id)], x)
    ensures form[IndexOf(form, id)].kind != Number ==>
              GetOneValueFromKey(FillFormKeyResult(form, id, key, x), id, key) == x
  {
    var after := FillFormKeyResult(form, id, key, x);
    IndexOfSameIds(form, after, id);
  }

  // ---------------------------------------------------------------------
  // usePrefillForm

  /** The properties `usePrefillForm` walks: those of a non-null object
      (an array's are its indices); nothing for any other value. */
  function BackendRecord(formBack: Value): (r: Option<map<string, Value>>)
    ensures r.Some? <==> formBack.Obj? || formBack.Arr?
    ensures formBack.Obj? ==> r == Some(formBack.props)
  {
    if IsObjectType(formBack) && Truthy(formBack) then Some(OwnProperties(formBack)) else None
  }

  /** The field list once the keys in `done` have been filled from `rec`. */
  function PrefilledWith(form: seq<Field>, rec: map<string, Value>, done: set<string>): seq<Field> {
    seq(|form|, i requires 0 <= i < |form| =>
      var id := form[i].id;
      if id in done && id in rec && IndexOf(form, id) == i
      then Put(form[i], "value", FilledValue(form[i], rec[id]))
      else form[i])
  }

  /** The field list after `usePrefillForm(form, formBack)`. */
  function Prefilled(form: seq<Field>, formBack: Value): seq<Field> {
    match BackendRecord(formBack)
    case None => form
    case Some(rec) => PrefilledWith(form, rec, rec.Keys)
  }

  /** One pass of the `forEach` over the record's keys: field `key` takes
      its record value, so one more key counts as done. */
  method PrefillKey(form: array<Field>, ghost start: seq<Field>, rec: map<string, Value>,
                    ghost done: set<string>, key: string)
    modifies form
    requires key in rec && key !in done
    requires form[..] == PrefilledWith(start, rec, done)
    ensures form[..] == PrefilledWith(start, rec, done + {key})
  {
    PrefillStep(start, rec, done, key);
    FillFormKey(form, key, "value", rec[key]);
  }

  /** Filling one more key of the record is one `useFillFormKey` call. */
  lemma PrefillStep(form: seq<Field>, rec: map<string, Value>, done: set<string>, k: string)
    requires k in rec && k !in done
    ensures FillFormKeyResult(PrefilledWith(form, rec, done), k, "value", rec[k])
              == PrefilledWith(form, rec, done + {k})
  {
    var before := PrefilledWith(form, rec, done);
    IndexOfSameIds(form, before, k);
    var i := IndexOf(form, k);
    var lhs := FillFormKeyResult(before, k, "value", rec[k]);
    var rhs := PrefilledWith(form, rec, done + {k});
    assert |lhs| == |rhs|;
    forall j | 0 <= j < |lhs| ensures lhs[j] == rhs[j] {
      if j == i {
        assert before[j] == form[j];
      }
    }
  }

  /** The `forEach` over the record's keys, in whatever order they come. */
  method PrefillAll(form: array<Field>, rec: map<string, Value>)
    modifies form
    ensures form[..] == PrefilledWith(old(form[..]), rec, rec.Keys)
  {
    var keys := rec.Keys;
    ghost var start := form[..];
    assert start == PrefilledWith(start, rec, {});
    while keys != {}
      invariant keys <= rec.Keys
      invariant form[..] == PrefilledWith(start, rec, rec.Keys - keys)
      decreases keys
    {
      var key :| key in keys;
      PrefillKey(form, start, rec, rec.Keys - keys, key);
      assert rec.Keys - (keys - {key}) == (rec.Keys - keys) + {key};
      keys := keys - {key};
    }
  }

  /** `usePrefillForm(form, formBack)`: only a non-null object is walked. */
  method UsePrefillForm(form: array<Field>, formBack: Value)
    modifies form
    ensures form[..] == Prefilled(old(form[..]), formBack)
  {
    if !IsObjectType(formBack) || !Truthy(formBack) {
      return;
    }
    PrefillAll(form, OwnProperties(formBack));
  }

  /** After prefilling, each record key that names a descriptor reads back
      as the (number-coerced) record value; descriptors whose id is not a
      key, later descriptors sharing the id of an earlier one, and every
      attribute other than `value`, are untouched. */
  lemma PrefillThenRead(form: seq<Field>, formBack: Value)
    ensures BackendRecord(formBack).None? ==> Prefilled(form, formBack) == form
    ensures |Prefilled(form, formBack)| == |form|
    ensures BackendRecord(formBack).Some? ==>
              var rec := BackendRecord(formBack).value;
              forall k :: k in rec && IndexOf(form, k) >= 0 ==>
                GetOneFormValue(Prefilled(form, formBack), k) == FilledValue(form[IndexOf(form, k)], rec[k])
    ensures BackendRecord(formBack).Some? ==>
              var rec := BackendRecord(formBack).value;
              forall i :: 0 <= i < |form| && (form[i].id !in rec || IndexOf(form, form[i].id) != i) ==>
                Prefilled(form, formBack)[i] == form[i]
    ensures forall i, key :: 0 <= i < |form| && key != "value" ==>
              Get(Prefilled(form, formBack)[i], key) == Get(form[i], key)
  {
    if BackendRecord(formBack).Some? {
      PrefillReadBack(form, BackendRecord(formBack).value);
    }
  }

  /** The read-back part of `PrefillThenRead`, for one record. */
  lemma PrefillReadBack(form: seq<Field>, rec: map<string, Value>)
    ensures forall k :: k in rec && IndexOf(form, k) >= 0 ==>
              GetOneFormValue(PrefilledWith(form, rec, rec.Keys), k) == FilledValue(form[IndexOf(form, k)], rec[k])
  {
    var after := PrefilledWith(form, rec, rec.Keys);
    forall k | k in rec && IndexOf(form, k) >= 0
      ensures GetOneFormValue(after, k) == FilledValue(form[IndexOf(form, k)], rec[k])
    {
      IndexOfSameIds(form, after, k);
    }
  }

  /** A number field prefilled from the string `"42"` holds the number 42. */
  lemma PrefillNumberExample()
    ensures var form := [Field("age", Number, map["value" := Num(0)])];
            var after := Prefilled(form, Obj(map["age" := Str("42")]));
            GetOneFormValue(after, "age") == Num(42)
  {
    var form := [Field("age", Number, map["value" := Num(0)])];
    PrefillThenRead(form, Obj(map["age" := Str("42")]));
    NumberOfIntString(42);
    assert IntToStr(42) == "42";
  }
}
