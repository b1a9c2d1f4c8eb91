/** Pagination of a form's field list (`useFormPagination`). The current
    page, which the library keeps in the router's query string, is an
    ordinary field of the `FormPagination` object here. */
module Pagination {
  import opened Js

  /** The page count of `len` fields, `limit` to a page. */
  function PageCount(len: nat, limit: int): (r: nat)
    ensures limit <= 0 ==> r == 0
    ensures limit > 0 ==> (r - 1) * limit < len <= r * limit
  {
    if limit > 0 then CeilDiv(len, limit) else 0
  }

  /** The ceiling of `len / d`, characterised by its two bounds. */
  function CeilDiv(len: nat, d: int): (q: nat)
    requires d > 0
    ensures (q - 1) * d < len <= q * d
  {
    var x := len + d - 1;
    var q := x / d;
    assert x == q * d + x % d && 0 <= x % d < d;
    assert (q - 1) * d == q * d - d;
    q
  }

  /** The index filter of `showItem`: everything when not paginated, else `[first, last)`. */
  predicate ShowIndex(isPaginated: bool, first: int, last: int, id: int) {
    !isPaginated || (id >= first && id < last)
  }

  /** The fields whose index `showItem` accepts, in order. */
  function FilterShown<T>(s: seq<T>, isPaginated: bool, first: int, last: int): (r: seq<T>)
    ensures |r| <= |s|
    decreases |s|
  {
    if s == [] then []
    else FilterShown(s[..|s| - 1], isPaginated, first, last)
         + (if ShowIndex(isPaginated, first, last, |s| - 1) then [s[|s| - 1]] else [])
  }

  function Clamp(x: int, n: nat): (r: nat)
    ensures r <= n
  {
    if x < 0 then 0 else if x > n then n else x
  }

  /** The contiguous part of `s` whose indices lie in `[first, last)`. */
  function Window<T>(s: seq<T>, first: int, last: int): seq<T> {
    var lo := Clamp(first, |s|);
    var hi := Clamp(last, |s|);
    if hi <= lo then [] else s[lo..hi]
  }

  /** The window of a list is the window of all but its last element,
      followed by that element when its index lies in `[first, last)`. */
  lemma WindowStep<T>(s: seq<T>, first: int, last: int)
    requires s != []
    ensures var n := |s| - 1;
            Window(s, first, last) == Window(s[..n], first, last) + (if first <= n < last then [s[n]] else [])
  {
    var n := |s| - 1;
    var s' := s[..n];
    var lo, hi := Clamp(first, |s|), Clamp(last, |s|);
    var lo', hi' := Clamp(first, n), Clamp(last, n);
    if first <= n < last {
      assert lo == lo' && hi == n + 1 && hi' == n;
      assert s[lo..n + 1] == s'[lo..n] + [s[n]];
    } else if n < first {
      assert lo == n + 1 && lo' == n;
    } else {
      assert lo == lo' && hi == hi' && hi <= n;
      if lo < hi {
        assert s[lo..hi] == s'[lo..hi];
      }
    }
  }

  /** Filtering by `[first, last)` keeps exactly that window, in order. */
  lemma {:induction false} FilterShownIsWindow<T>(s: seq<T>, first: int, last: int)
    ensures FilterShown(s, true, first, last) == Window(s, first, last)
    decreases |s|
  {
    if s != [] {
      FilterShownIsWindow(s[..|s| - 1], first, last);
      WindowStep(s, first, last);
    }
  }

  /** Unpaginated filtering keeps the whole list. */
  lemma {:induction false} FilterShownAll<T>(s: seq<T>, first: int, last: int)
    ensures FilterShown(s, false, first, last) == s
    decreases |s|
  {
    if s != [] {
      FilterShownAll(s[..|s| - 1], first, last);
    }
  }

  /** One entry of the stepper, `{ label: … }`. */
  datatype Step = Step(labelText: string)

  function StepLabel(k: nat): string {
    "Etape " + Decimal(k + 1)
  }

  /** Different steps carry different labels. */
  lemma StepLabelsDistinct(j: nat, k: nat)
    requires j != k
    ensures StepLabel(j) != StepLabel(k)
  {
    if StepLabel(j) == StepLabel(k) {
      assert StepLabel(j)[6..] == Decimal(j + 1);
      assert StepLabel(k)[6..] == Decimal(k + 1);
      DecimalInjective();
      assert false;
    }
  }

  /** Page `page` of `total` pages of `limit` fields starts inside a form
      of `len` fields, and ends at or past its end exactly on the last page. */
  lemma PageBounds(page: int, total: nat, limit: int, len: nat)
    requires limit > 0 ==> (total - 1) * limit < len <= total * limit
    ensures page >= 1 && limit >= 0 ==> (page - 1) * limit >= 0
    ensures 1 <= page <= total && limit > 0 ==>
              && (page - 1) * limit < len
              && ((page - 1) * limit + limit >= len <==> page == total)
  {
    if page >= 1 && limit >= 0 {
      MulMonotone(0, page - 1, limit);
    }
    if 1 <= page <= total && limit > 0 {
      MulMonotone(page - 1, total - 1, limit);
      assert (page - 1) * limit + limit == page * limit;
      if page < total {
        MulMonotone(page, total - 1, limit);
      }
    }
  }

  lemma MulMonotone(a: int, b: int, c: int)
    requires a <= b && c >= 0
    ensures a * c <= b * c
  {
    assert b * c == a * c + (b - a) * c;
  }

  /** Index `id` lies in `[(page-1)*limit, page*limit)` exactly when it is
      on page `id / limit + 1`. */
  lemma PageOfIndex(id: int, limit: int, page: int)
    ensures limit > 0 && id >= 0 ==>
              ((page - 1) * limit <= id < (page - 1) * limit + limit <==> id / limit == page - 1)
  {
    if limit > 0 && id >= 0 {
      var q := id / limit;
      var d := q - (page - 1);
      assert id == q * limit + id % limit && 0 <= id % limit < limit;
      assert d * limit == q * limit - (page - 1) * limit;
      assert d >= 1 ==> d * limit >= limit by {
        assert d * limit == (d - 1) * limit + limit;
      }
      assert d <= -1 ==> d * limit <= -limit by {
        assert d * limit == (d + 1) * limit - limit;
      }
    }
  }

  class FormPagination<T> {
    const form: seq<T>
    const isPaginated: bool
    const limit: int
    /** The current page, 1-based. */
    var page: int

    /** `fieldLimit || 0` gives the limit; without a cursor the page is 1. */
    constructor (form: seq<T>, isPaginated: bool, fieldLimit: Option<int>, cursor: Option<int>)
      ensures this.form == form && this.isPaginated == isPaginated
      ensures limit == (if fieldLimit.Some? && fieldLimit.value != 0 then fieldLimit.value else 0)
      ensures page == (if cursor.Some? then cursor.value else 1)
    {
      this.form := form;
      this.isPaginated := isPaginated;
      limit := if fieldLimit.Some? && fieldLimit.value != 0 then fieldLimit.value else 0;
      page := if cursor.Some? then cursor.value else 1;
    }

    /** The number of pages: none without a positive limit, else just
        enough pages of `limit` fields to hold the form. */
    function TotalPage(): (r: nat)
      ensures limit <= 0 ==> r == 0
      ensures limit > 0 ==> (r - 1) * limit < |form| <= r * limit
    {
      PageCount(|form|, limit)
    }

    /** Index of the current page's first field: an index of the form on
        every page in range. */
    function First(): (r: int)
      reads this
      ensures page >= 1 && limit >= 0 ==> r >= 0
      ensures InRange() && limit > 0 ==> r < |form|
    {
      PageBounds(page, TotalPage(), limit, |form|);
      (page - 1) * limit
    }

    /** One past the current page's last field: the window reaches the end
        of the form exactly on the last page. */
    function Last(): (r: int)
      reads this
      ensures limit >= 0 ==> First() <= r
      ensures InRange() && limit > 0 ==> (r >= |form| <==> page == TotalPage())
    {
      PageBounds(page, TotalPage(), limit, |form|);
      First() + limit
    }

    /** On a paginated form with a positive limit, field `id` is shown
        exactly when it belongs to the current page. */
    predicate ShowItem(id: int)
      reads this
      ensures isPaginated && limit > 0 && id >= 0 ==> (ShowItem(id) <==> id / limit == page - 1)
      ensures !isPaginated ==> ShowItem(id)
    {
      PageOfIndex(id, limit, page);
      ShowIndex(isPaginated, First(), Last(), id)
    }

    /** On a page in range, there is a previous page exactly when the
        previous page is in range too; never without pagination. */
    predicate HasPrev()
      reads this
      ensures isPaginated && InRange() ==> (HasPrev() <==> 1 <= page - 1 <= TotalPage())
      ensures !isPaginated ==> !HasPrev()
    {
      isPaginated && page > 1
    }

    /** On a page in range, there is a next page exactly when the next
        page is in range too; never without pagination. */
    predicate HasNext()
      reads this
      ensures isPaginated && InRange() ==> (HasNext() <==> 1 <= page + 1 <= TotalPage())
      ensures !isPaginated ==> !HasNext()
    {
      isPaginated && page < TotalPage()
    }

    /** The page names one of the pages. */
    predicate InRange()
      reads this
    {
      1 <= page <= TotalPage()
    }

    method GoToPage(p: int)
      modifies this
      ensures page == (if 0 < p <= TotalPage() then p else old(page))
      ensures limit <= 0 ==> page == old(page)
      ensures page != old(page) ==> InRange()
    {
      if p <= TotalPage() && p > 0 {
        page := p;
      }
    }

    method PrevPage()
      modifies this
      ensures page == (if old(HasPrev()) then old(page) - 1 else old(page))
      ensures old(InRange()) ==> InRange()
    {
      if HasPrev() {
        page := page - 1;
      }
    }

    method NextPage()
      modifies this
      ensures page == (if old(HasNext()) then old(page) + 1 else old(page))
      ensures old(InRange()) ==> InRange()
    {
      if HasNext() {
        page := page + 1;
      }
    }

    /** The visible fields: all of them, or the current page's window. */
    function PaginatedForm(): (r: seq<T>)
      reads this
      ensures !isPaginated ==> r == form
      ensures isPaginated ==> r == Window(form, First(), Last())
      ensures isPaginated && limit >= 0 ==> |r| <= limit
      ensures isPaginated && First() >= 0 ==>
                forall j :: 0 <= j < |r| ==> First() + j < |form| && r[j] == form[First() + j]
    {
      FilterShownIsWindow(form, First(), Last());
      FilterShownAll(form, First(), Last());
      FilterShown(form, isPaginated, First(), Last())
    }

    /** The stepper index of the current page. */
    function ActiveStep(): (r: int)
      reads this
      ensures InRange() ==> 0 <= r < TotalPage()
    {
      page - 1
    }

    function Stepper(): (r: seq<Step>)
      ensures |r| == TotalPage()
      ensures forall k :: 0 <= k < |r| ==> r[k].labelText == StepLabel(k)
    {
      seq(TotalPage(), k requires 0 <= k => Step(StepLabel(k)))
    }

    /** On a page in range, the active step is an entry of the stepper. */
    lemma ActiveStepInStepper()
      requires InRange()
      ensures 0 <= ActiveStep() < |Stepper()|
      ensures Stepper()[ActiveStep()].labelText == StepLabel(page - 1)
    {
    }
  }

  /** 25 fields, 10 per page: three pages, pages 0 and 4 refused, page 2 shows fields 10 to 19. */
  method PaginationScenario(form: seq<int>)
    requires |form| == 25
  {
    var p := new FormPagination(form, true, Some(10), None);
    assert p.page == 1 && p.TotalPage() == 3;
    p.GoToPage(0);
    assert p.page == 1;
    p.GoToPage(4);
    assert p.page == 1;
    p.GoToPage(2);
    assert p.First() == 10 && p.Last() == 20;
    assert p.PaginatedForm() == form[10..20];
    p.NextPage();
    p.NextPage();
    assert p.page == 3 && p.PaginatedForm() == form[20..];
  }
}
