/** The form's own validation rules and the `message` wrapper that gives
    the library's rules their French error texts. A rule answers `true`
    (`Accept`) or an error text (`Reject`). */
module Rules {
  import opened Js

  datatype RuleResult = Accept | Reject(message: string)

  // ---------------------------------------------------------------------
  // String.prototype.replace with a string pattern

  /** `p` occurs in `s` at position `i`. */
  predicate OccursAt(s: string, p: string, i: int) {
    0 <= i && i + |p| <= |s| && s[i..i + |p|] == p
  }

  /** The first position at or after `i` where `p` occurs. */
  function FindFrom(s: string, p: string, i: nat): (r: Option<nat>)
    ensures r.Some? ==> i <= r.value && OccursAt(s, p, r.value)
    ensures forall j :: i <= j && (r.None? || j < r.value) ==> !OccursAt(s, p, j)
    decreases |s| - i
  {
    if i + |p| > |s| then None
    else if s[i..i + |p|] == p then Some(i)
    else FindFrom(s, p, i + 1)
  }

  /** The position `indexOf` reports, as an option: the first occurrence, if any. */
  function FindFirst(s: string, p: string): (r: Option<nat>)
    ensures r.Some? ==> OccursAt(s, p, r.value)
    ensures forall j :: 0 <= j && (r.None? || j < r.value) ==> !OccursAt(s, p, j)
  {
    FindFrom(s, p, 0)
  }

  /** The replacement text with its `$` patterns expanded: `$$` is a
      dollar, `$&` the match, `` $` `` the text before it and `$'` the text
      after it; any other `$` stands for itself (a string pattern has no
      capture groups, so `$1` is literal). */
  function Expand(rep: string, matched: string, before: string, after: string): string
    decreases |rep|
  {
    if rep == [] then []
    else if rep[0] == '$' && |rep| >= 2 && rep[1] == '$' then "$" + Expand(rep[2..], matched, before, after)
    else if rep[0] == '$' && |rep| >= 2 && rep[1] == '&' then matched + Expand(rep[2..], matched, before, after)
    else if rep[0] == '$' && |rep| >= 2 && rep[1] == '`' then before + Expand(rep[2..], matched, before, after)
    else if rep[0] == '$' && |rep| >= 2 && rep[1] == '\'' then after + Expand(rep[2..], matched, before, after)
    else [rep[0]] + Expand(rep[1..], matched, before, after)
  }

  predicate NoDollar(s: string) {
    forall i :: 0 <= i < |s| ==> s[i] != '$'
  }

  /** A replacement without `$` is inserted as it is. */
  lemma {:induction false} ExpandPlain(rep: string, matched: string, before: string, after: string)
    requires NoDollar(rep)
    ensures Expand(rep, matched, before, after) == rep
    decreases |rep|
  {
    if rep != [] {
      ExpandPlain(rep[1..], matched, before, after);
      assert rep == [rep[0]] + rep[1..];
    }
  }

  /** `p` does not occur in `s`. */
  ghost predicate Absent(s: string, p: string) {
    forall j :: !OccursAt(s, p, j)
  }

  /** `i` is the first position where `p` occurs in `s`. */
  predicate FirstAt(s: string, p: string, i: int) {
    OccursAt(s, p, i) && forall j :: 0 <= j < i ==> !OccursAt(s, p, j)
  }

  /** `FindFirst` is the first occurrence: the position of an occurrence
      with none before it, and nothing when there is no occurrence. */
  lemma FindFirstIsFirst(s: string, p: string)
    ensures Absent(s, p) ==> FindFirst(s, p).None?
    ensures forall i :: FirstAt(s, p, i) ==> FindFirst(s, p) == Some(i)
  {
    var r := FindFirst(s, p);
    if r.Some? {
      assert OccursAt(s, p, r.value);
    }
  }

  /** `s.replace(p, rep)`: only the first occurrence is replaced. */
  function Replace(s: string, p: string, rep: string): (r: string)
    ensures forall i :: FirstAt(s, p, i) ==>
              r == s[..i] + Expand(rep, p, s[..i], s[i + |p|..]) + s[i + |p|..]
  {
    FindFirstIsFirst(s, p);
    match FindFirst(s, p)
    case None => s
    case Some(i) => s[..i] + Expand(rep, p, s[..i], s[i + |p|..]) + s[i + |p|..]
  }

  /** A pattern that does not occur leaves the text as it is. */
  lemma ReplaceAbsent(s: string, p: string, rep: string)
    requires Absent(s, p)
    ensures Replace(s, p, rep) == s
  {
    FindFirstIsFirst(s, p);
  }

  /** Replacing a pattern that occurs by a `$`-free text: the text before
      the first occurrence, the replacement, the text after it. */
  lemma ReplacePlain(s: string, p: string, rep: string)
    requires NoDollar(rep)
    ensures FindFirst(s, p).Some? ==>
              var i := FindFirst(s, p).value;
              Replace(s, p, rep) == s[..i] + rep + s[i + |p|..] && OccursAt(s, p, i)
  {
    if FindFirst(s, p).Some? {
      var i := FindFirst(s, p).value;
      ExpandPlain(rep, p, s[..i], s[i + |p|..]);
    }
  }

  /** Filling a `$` placeholder preceded by no other `$`: the placeholder
      gives way to the replacement and nothing else changes. */
  lemma ReplaceFirstPlaceholder(pre: string, p: string, post: string, rep: string)
    requires NoDollar(pre) && NoDollar(rep) && |p| >= 1 && p[0] == '$'
    ensures Replace(pre + p + post, p, rep) == pre + rep + post
  {
    var s := pre + p + post;
    var i := |pre|;
    assert s[i..i + |p|] == p;
    forall j | 0 <= j < i ensures !OccursAt(s, p, j) {
      assert s[j] == pre[j];
      if j + |p| <= |s| {
        assert s[j..j + |p|][0] == s[j];
      }
    }
    assert FirstAt(s, p, i);
    assert s[..i] == pre && s[i + |p|..] == post;
    ExpandPlain(rep, p, pre, post);
  }

  // ---------------------------------------------------------------------
  // message

  /** The placeholder of the `k`-th parameter (from 1): `$k`. */
  function Placeholder(k: nat): (r: string)
    ensures |r| >= 2 && r[0] == '$'
  {
    "$" + Decimal(k)
  }

  /** `String(arg)` of each parameter, as `replace` reads its replacement. */
  function Texts(params: seq<Value>): (r: seq<string>)
    ensures |r| == |params| && forall k :: 0 <= k < |params| ==> r[k] == ToStr(params[k])
  {
    seq(|params|, k requires 0 <= k < |params| => ToStr(params[k]))
  }

  /** The `reduce` of `message`: starting from the template, the `k`-th
      parameter's text replaces the first `$k`, for `k` from 1 up.
      `SubstituteStep`, `SubstitutePlain`, `SubstituteFirst`,
      `SubstituteSecond` and `SubstituteTwo` state what it does. */
  function Substitute(template: string, args: seq<string>): string
    decreases |args|
  {
    if args == [] then template
    else
      var n := |args|;
      Replace(Substitute(template, args[..n - 1]), Placeholder(n), args[n - 1])
  }

  /** A template without `$` comes out unchanged, whatever the parameters. */
  lemma {:induction false} SubstitutePlain(template: string, args: seq<string>)
    requires NoDollar(template)
    ensures Substitute(template, args) == template
    decreases |args|
  {
    if args != [] {
      var n := |args|;
      SubstitutePlain(template, args[..n - 1]);
      var p := Placeholder(n);
      forall j | 0 <= j ensures !OccursAt(template, p, j) {
        if j + |p| <= |template| {
          assert template[j..j + |p|][0] == template[j];
        }
      }
    }
  }

  /** `message(func, errorMessage)` applied to `(value, params)`: accepted
      exactly when the wrapped rule answers `true` itself; otherwise the
      template, with its placeholders filled when the parameters are an
      array. */
  function Message(func: (Value, Value) -> Value, template: string, value: Value, params: Value): (r: RuleResult)
    ensures r.Accept? <==> func(value, params) == Bool(true)
    ensures r.Reject? && !params.Arr? ==> r.message == template
    ensures r.Reject? && params.Arr? ==> r.message == Substitute(template, Texts(params.items))
  {
    if !Truthy(params) || !params.Arr? then
      if func(value, params) != Bool(true) then Reject(template) else Accept
    else
      var errors := Substitute(template, Texts(params.items));
      if func(value, params) != Bool(true) then Reject(errors) else Accept
  }

  lemma NoDollarConcat(x: string, y: string)
    requires NoDollar(x) && NoDollar(y)
    ensures NoDollar(x + y)
  {
    forall i | 0 <= i < |x + y| ensures (x + y)[i] != '$' {
      if i >= |x| {
        assert (x + y)[i] == y[i - |x|];
      }
    }
  }

  /** One more parameter is one more `replace`, of the next placeholder. */
  lemma SubstituteStep(template: string, args: seq<string>, x: string)
    ensures Substitute(template, args + [x])
              == Replace(Substitute(template, args), Placeholder(|args| + 1), x)
  {
    assert (args + [x])[..|args|] == args;
  }

  /** The first parameter fills the first `$1`, when no `$` comes before
      it; a later `$1` in `rest` stays as it is. */
  lemma SubstituteFirst(pre: string, rest: string, a: string)
    requires NoDollar(pre) && NoDollar(a)
    ensures Substitute(pre + "$1" + rest, [a]) == pre + a + rest
  {
    SubstituteStep(pre + "$1" + rest, [], a);
    assert [] + [a] == [a];
    assert Placeholder(1) == "$1";
    ReplaceFirstPlaceholder(pre, "$1", rest, a);
  }

  /** The second parameter fills `$2` when no `$` comes before it. */
  lemma SubstituteSecond(t: string, left: string, post: string, a: string, b: string)
    requires NoDollar(left) && NoDollar(b)
    requires Substitute(t, [a]) == left + "$2" + post
    ensures Substitute(t, [a, b]) == left + b + post
  {
    SubstituteStep(t, [a], b);
    assert [a] + [b] == [a, b];
    assert Placeholder(2) == "$2";
    ReplaceFirstPlaceholder(left, "$2", post, b);
  }

  /** Parameters fill `$1` and `$2` in order (as in the `between` text,
      `Doit être entre $1 et $2`) when the surrounding text and the
      parameters hold no `$`. */
  lemma SubstituteTwo(pre: string, mid: string, post: string, a: string, b: string)
    requires NoDollar(pre) && NoDollar(mid) && NoDollar(a) && NoDollar(b)
    ensures Substitute(pre + "$1" + mid + "$2" + post, [a, b]) == pre + a + mid + b + post
  {
    var t := pre + "$1" + mid + "$2" + post;
    var left := pre + a + mid;
    assert t == pre + "$1" + (mid + "$2" + post);
    SubstituteFirst(pre, mid + "$2" + post, a);
    assert pre + a + (mid + "$2" + post) == left + "$2" + post;
    NoDollarConcat(pre, a);
    NoDollarConcat(pre + a, mid);
    SubstituteSecond(t, left, post, a, b);
  }

  /** A written integer holds no `$`. */
  lemma NoDollarInt(n: int)
    ensures NoDollar(IntToStr(n))
  {
    if n < 0 {
      DecimalDigits(-n);
      NoDollarConcat("-", Decimal(-n));
    } else {
      DecimalDigits(n);
    }
  }

  /** The `between` text with its two integer bounds filled in. */
  lemma BetweenText(lo: int, hi: int)
    ensures Substitute("Doit être entre $1 et $2", [IntToStr(lo), IntToStr(hi)])
              == "Doit être entre " + IntToStr(lo) + " et " + IntToStr(hi)
  {
    assert "Doit être entre " + "$1" + " et " + "$2" + "" == "Doit être entre $1 et $2";
    BetweenFilled("Doit être entre $1 et $2", "Doit être entre ", " et ", lo, hi);
  }

  /** `BetweenText` over a text `t` split around its two placeholders. */
  lemma BetweenFilled(t: string, pre: string, mid: string, lo: int, hi: int)
    requires t == pre + "$1" + mid + "$2" + ""
    requires NoDollar(pre) && NoDollar(mid)
    ensures Substitute(t, [IntToStr(lo), IntToStr(hi)]) == pre + IntToStr(lo) + mid + IntToStr(hi)
  {
    var a, b := IntToStr(lo), IntToStr(hi);
    NoDollarInt(lo);
    NoDollarInt(hi);
    SubstituteTwo(pre, mid, "", a, b);
    assert pre + a + mid + b + "" == pre + a + mid + b;
  }

  /** `between` through the wrapper: a value that fails between the
      integer bounds `lo` and `hi` gets `Doit être entre <lo> et <hi>`. */
  lemma BetweenMessage(func: (Value, Value) -> Value, value: Value, lo: int, hi: int)
    requires func(value, Arr([Num(lo), Num(hi)])) != Bool(true)
    ensures Message(func, "Doit être entre $1 et $2", value, Arr([Num(lo), Num(hi)]))
              == Reject("Doit être entre " + IntToStr(lo) + " et " + IntToStr(hi))
  {
    assert Texts([Num(lo), Num(hi)]) == [IntToStr(lo), IntToStr(hi)];
    BetweenText(lo, hi);
  }

  // ---------------------------------------------------------------------
  // The custom rules

  /** `not_empty_array` */
  function NotEmptyArray(value: Value): (r: RuleResult)
    ensures r.Accept? <==> value.Arr? && |value.items| > 0
    ensures !value.Arr? ==> r == Reject("Champs invalide")
    ensures value.Arr? && value.items == [] ==> r == Reject("Choix requis")
  {
    if !value.Arr? then Reject("Champs invalide")
    else if |value.items| <= 0 then Reject("Choix requis")
    else Accept
  }

  /** The first rule parameter, `[min]` of the destructured list. */
  function FirstParam(params: seq<Value>): Value {
    if params == [] then Undefined else params[0]
  }

  /** `strict_min_value`: a number strictly above the bound. The value is
      checked before the bound. */
  function StrictMinValue(value: Value, params: seq<Value>): (r: RuleResult)
    ensures r.Accept? <==>
              ToNumber(value).Some? && ToNumber(FirstParam(params)).Some?
              && ToNumber(value).value > ToNumber(FirstParam(params)).value
    ensures ToNumber(value).None? ==> r == Reject("Nombre invalide")
    ensures ToNumber(value).Some? && ToNumber(FirstParam(params)).None? ==> r == Reject("Validateur invalide")
    ensures ToNumber(value).Some? && ToNumber(FirstParam(params)).Some? && r.Reject? ==>
              r.message == "Doit être strictement supérieur à " + ToStr(FirstParam(params))
  {
    var min := FirstParam(params);
    if ToNumber(value).None? then Reject("Nombre invalide")
    else if ToNumber(min).None? then Reject("Validateur invalide")
    else if ToNumber(value).value <= ToNumber(min).value then
      Reject("Doit être strictement supérieur à " + ToStr(min))
    else Accept
  }

  /** `strict_max_value`: a number strictly below the bound. */
  function StrictMaxValue(value: Value, params: seq<Value>): (r: RuleResult)
    ensures r.Accept? <==>
              ToNumber(value).Some? && ToNumber(FirstParam(params)).Some?
              && ToNumber(value).value < ToNumber(FirstParam(params)).value
    ensures ToNumber(value).None? ==> r == Reject("Nombre invalide")
    ensures ToNumber(value).Some? && ToNumber(FirstParam(params)).None? ==> r == Reject("Validateur invalide")
    ensures ToNumber(value).Some? && ToNumber(FirstParam(params)).Some? && r.Reject? ==>
              r.message == "Doit être strictement inférieur à " + ToStr(FirstParam(params))
  {
    var max := FirstParam(params);
    if ToNumber(value).None? then Reject("Nombre invalide")
    else if ToNumber(max).None? then Reject("Validateur invalide")
    else if ToNumber(value).value >= ToNumber(max).value then
      Reject("Doit être strictement inférieur à " + ToStr(max))
    else Accept
  }

  /** The three ways `strict_min_value` can fail give three different texts. */
  lemma StrictMinFailuresDistinct(bound: Value)
    ensures "Nombre invalide" != "Validateur invalide"
    ensures "Doit être strictement supérieur à " + ToStr(bound) != "Nombre invalide"
    ensures "Doit être strictement supérieur à " + ToStr(bound) != "Validateur invalide"
  {
    var m := "Doit être strictement supérieur à " + ToStr(bound);
    assert m[0] == 'D';
  }

  /** Both bounds are exclusive: for numbers, a value equal to the bound
      fails both rules, and any other value passes exactly one of them. */
  lemma StrictBoundsExclusive(value: Value, bound: Value)
    requires ToNumber(value).Some? && ToNumber(bound).Some?
    ensures ToNumber(value) == ToNumber(bound) ==>
              StrictMinValue(value, [bound]).Reject? && StrictMaxValue(value, [bound]).Reject?
    ensures ToNumber(value) != ToNumber(bound) ==>
              StrictMinValue(value, [bound]).Accept? != StrictMaxValue(value, [bound]).Accept?
  {
  }

  /** `strict_min_value(5, [5])` fails and `strict_min_value("6", [5])` passes. */
  lemma StrictMinExample()
    ensures StrictMinValue(Num(5), [Num(5)]) == Reject("Doit être strictement supérieur à 5")
    ensures StrictMinValue(Str("6"), [Num(5)]) == Accept
  {
    assert IntToStr(5) == "5";
    NumberOfIntString(6);
    assert IntToStr(6) == "6";
  }

  /** `p` is a prefix / a suffix of `s` (`startsWith` / `endsWith`). */
  predicate IsPrefix(p: string, s: string) {
    |p| <= |s| && s[..|p|] == p
  }

  predicate IsSuffix(p: string, s: string) {
    |p| <= |s| && s[|s| - |p|..] == p
  }

  /** Some listed text begins `s`. */
  function AnyPrefix(s: string, startings: seq<string>): (r: bool)
    ensures r <==> exists k :: 0 <= k < |startings| && IsPrefix(startings[k], s)
  {
    if startings == [] then false
    else IsPrefix(startings[0], s) || AnyPrefix(s, startings[1..])
  }

  /** Some listed text ends `s`. */
  function AnySuffix(s: string, endings: seq<string>): (r: bool)
    ensures r <==> exists k :: 0 <= k < |endings| && IsSuffix(endings[k], s)
  {
    if endings == [] then false
    else IsSuffix(endings[0], s) || AnySuffix(s, endings[1..])
  }

  /** `starts_with`: an empty value passes; a string passes exactly when
      one of the listed texts begins it. A non-string value has no
      `startsWith`, which throws as soon as `some` calls it. */
  function StartsWith(value: Value, startings: seq<string>): (r: Thrown<RuleResult>)
    ensures !Truthy(value) ==> r == Returned(Accept)
    ensures value.Str? && Truthy(value) ==>
              && r.Returned?
              && (r.value.Accept? <==> exists k :: 0 <= k < |startings| && IsPrefix(startings[k], value.s))
              && (r.value.Reject? ==> r.value.message == "Doit commencer par " + Join(startings, " ou "))
    ensures Truthy(value) && !value.Str? ==>
              r == (if startings == [] then Returned(Reject("Doit commencer par " + Join(startings, " ou "))) else TypeError)
  {
    if !Truthy(value) then Returned(Accept)
    else
      var all := Join(startings, " ou ");
      if !value.Str? then
        if startings == [] then Returned(Reject("Doit commencer par " + all)) else TypeError
      else if !AnyPrefix(value.s, startings) then Returned(Reject("Doit commencer par " + all))
      else Returned(Accept)
  }

  /** `ends_with`; its failure text, too, says "Doit commencer par". */
  function EndsWith(value: Value, endings: seq<string>): (r: Thrown<RuleResult>)
    ensures !Truthy(value) ==> r == Returned(Accept)
    ensures value.Str? && Truthy(value) ==>
              && r.Returned?
              && (r.value.Accept? <==> exists k :: 0 <= k < |endings| && IsSuffix(endings[k], value.s))
              && (r.value.Reject? ==> r.value.message == "Doit commencer par " + Join(endings, " ou "))
    ensures Truthy(value) && !value.Str? ==>
              r == (if endings == [] then Returned(Reject("Doit commencer par " + Join(endings, " ou "))) else TypeError)
  {
    if !Truthy(value) then Returned(Accept)
    else
      var all := Join(endings, " ou ");
      if !value.Str? then
        if endings == [] then Returned(Reject("Doit commencer par " + all)) else TypeError
      else if !AnySuffix(value.s, endings) then Returned(Reject("Doit commencer par " + all))
      else Returned(Accept)
  }

  /** With nothing listed, every non-empty string fails both rules. */
  lemma EmptyListRejects(s: string)
    requires s != ""
    ensures StartsWith(Str(s), []) == Returned(Reject("Doit commencer par "))
    ensures EndsWith(Str(s), []) == Returned(Reject("Doit commencer par "))
  {
    assert "Doit commencer par " + "" == "Doit commencer par ";
  }

  /** `starts_with("0612", ["06", "07"])` passes; `ends_with("0612", ["06", "07"])`
      fails with `Doit commencer par 06 ou 07`. */
  lemma PhoneExample()
    ensures StartsWith(Str("0612"), ["06", "07"]) == Returned(Accept)
    ensures EndsWith(Str("0612"), ["06", "07"]) == Returned(Reject("Doit commencer par 06 ou 07"))
  {
    assert IsPrefix("06", "0612");
    assert !IsSuffix("06", "0612") && !IsSuffix("07", "0612");
    assert ["06", "07"][..1] == ["06"] && ["06", "07"][1..] == ["07"];
    assert !AnySuffix("0612", ["06", "07"]);
    assert Join(["06", "07"], " ou ") == "06 ou 07";
    assert EndsWith(Str("0612"), ["06", "07"]) == Returned(Reject("Doit commencer par " + "06 ou 07"));
    assert "Doit commencer par " + "06 ou 07" == "Doit commencer par 06 ou 07";
  }
}
