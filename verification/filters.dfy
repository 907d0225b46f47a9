/** Row selection: the boolean masks the dashboard indexes its frame with
    (`df[mask]`), and the sidebar's date-range, direction and category
    filters built from them. */
module Filters {
  import opened Classifier
  import opened Text
  import opened Calls

  /** The row masks the dashboard uses. */
  datatype Mask =
    | DateBetween(lo: int, hi: int)          // (Date >= lo) & (Date <= hi)
    | DirectionIn(directions: seq<string>)   // Call_Direction.isin(directions)
    | CategoryIn(categories: seq<Category>)  // Category.isin(categories)
    | CategoryIs(category: Category)         // Category == label
    | StatusContains(word: string)           // Call_Status.str.lower().str.contains(word)
    | ContactTypeIs(contactType: string)     // Contact_Type == contactType

  predicate Keeps(m: Mask, r: CallRecord) {
    match m
    case DateBetween(lo, hi) => lo <= r.date && r.date <= hi
    case DirectionIn(ds) => r.direction in ds
    case CategoryIn(cs) => r.category in cs
    case CategoryIs(c) => r.category == c
    case StatusContains(w) => Contains(Lower(r.status), w)
    case ContactTypeIs(ct) => r.contactType == ct
  }

  /** A row passes a list of masks when every mask keeps it. */
  predicate KeptByAll(ms: seq<Mask>, r: CallRecord) {
    forall m :: m in ms ==> Keeps(m, r)
  }

  /** `a` is `b` with some elements dropped and the rest in their order. */
  ghost predicate IsSubsequence<T>(a: seq<T>, b: seq<T>)
    decreases |b|
  {
    if |a| == 0 then true
    else if |b| == 0 then false
    else (a[0] == b[0] && IsSubsequence(a[1..], b[1..])) || IsSubsequence(a, b[1..])
  }

  /** Indexing a frame with the conjunction of several masks: the kept rows
      are those every mask keeps, in their original order, each exactly as
      often as in the input. */
  function SelectWhere(rows: seq<CallRecord>, ms: seq<Mask>): (r: seq<CallRecord>)
    ensures IsSubsequence(r, rows)
    ensures |r| <= |rows|
    ensures forall i :: 0 <= i < |r| ==> KeptByAll(ms, r[i])
    ensures forall x :: multiset(r)[x] == if KeptByAll(ms, x) then multiset(rows)[x] else 0
  {
    if |rows| == 0 then []
    else
      var rest := SelectWhere(rows[1..], ms);
      assert rows == [rows[0]] + rows[1..];
      if KeptByAll(ms, rows[0]) then
        assert ([rows[0]] + rest)[1..] == rest;
        [rows[0]] + rest
      else
        rest
  }

  /** `df[mask]` for one mask. */
  function Select(rows: seq<CallRecord>, m: Mask): (r: seq<CallRecord>)
    ensures IsSubsequence(r, rows)
    ensures |r| <= |rows|
    ensures forall i :: 0 <= i < |r| ==> Keeps(m, r[i])
    ensures forall x :: multiset(r)[x] == if Keeps(m, x) then multiset(rows)[x] else 0
  {
    assert forall x :: KeptByAll([m], x) <==> Keeps(m, x);
    SelectWhere(rows, [m])
  }

  /** Selection unfolded one row at a time. */
  lemma SelectCons(rows: seq<CallRecord>, m: Mask)
    requires |rows| > 0
    ensures Select(rows, m)
            == (if Keeps(m, rows[0]) then [rows[0]] else []) + Select(rows[1..], m)
  {
    assert KeptByAll([m], rows[0]) <==> Keeps(m, rows[0]);
  }

  /** Two masks that agree on every row select the same rows. */
  lemma {:induction false} SelectAgreeing(rows: seq<CallRecord>, a: Mask, b: Mask)
    requires forall i :: 0 <= i < |rows| ==> (Keeps(a, rows[i]) <==> Keeps(b, rows[i]))
    ensures Select(rows, a) == Select(rows, b)
  {
    if |rows| > 0 {
      SelectCons(rows, a);
      SelectCons(rows, b);
      SelectAgreeing(rows[1..], a, b);
    }
  }

  /** A mask that keeps every row selects the whole frame. */
  lemma {:induction false} SelectKeepsAll(rows: seq<CallRecord>, m: Mask)
    requires forall i :: 0 <= i < |rows| ==> Keeps(m, rows[i])
    ensures Select(rows, m) == rows
  {
    if |rows| > 0 {
      SelectCons(rows, m);
      SelectKeepsAll(rows[1..], m);
      assert rows == [rows[0]] + rows[1..];
    }
  }

  /** Selecting twice is selecting once with both lists of masks. */
  lemma {:induction false} SelectWhereTwice(rows: seq<CallRecord>, a: seq<Mask>, b: seq<Mask>)
    ensures SelectWhere(SelectWhere(rows, a), b) == SelectWhere(rows, a + b)
  {
    if |rows| > 0 {
      SelectWhereTwice(rows[1..], a, b);
      assert KeptByAll(a + b, rows[0]) <==> KeptByAll(a, rows[0]) && KeptByAll(b, rows[0]);
      var rest := SelectWhere(rows[1..], a);
      if KeptByAll(a, rows[0]) {
        assert SelectWhere(rows, a) == [rows[0]] + rest;
        assert ([rows[0]] + rest)[1..] == rest;
      }
    }
  }

  /** What a row selection keeps depends only on which masks are applied, not
      on how the list of masks is written. */
  lemma {:induction false} SelectWhereSameMasks(rows: seq<CallRecord>, a: seq<Mask>, b: seq<Mask>)
    requires forall m :: m in a <==> m in b
    ensures SelectWhere(rows, a) == SelectWhere(rows, b)
  {
    if |rows| > 0 {
      SelectWhereSameMasks(rows[1..], a, b);
      assert KeptByAll(a, rows[0]) <==> KeptByAll(b, rows[0]);
    }
  }

  /** With no masks every row is kept. */
  lemma {:induction false} SelectWhereNone(rows: seq<CallRecord>)
    ensures SelectWhere(rows, []) == rows
  {
    if |rows| > 0 {
      SelectWhereNone(rows[1..]);
      assert rows == [rows[0]] + rows[1..];
    }
  }

  /** Masks applied one after another, first mask first, as the dashboard
      reassigns its frame once per filter: the result keeps exactly the rows
      every mask keeps. */
  function SelectEach(rows: seq<CallRecord>, ms: seq<Mask>): (r: seq<CallRecord>)
    ensures r == SelectWhere(rows, ms)
    decreases |ms|
  {
    if |ms| == 0 then
      SelectWhereNone(rows);
      rows
    else
      var first := Select(rows, ms[0]);
      var r := SelectEach(first, ms[1..]);
      FirstMaskThenRest(rows, ms, first, r);
      r
  }

  /** Selecting by the first mask and then by the rest is selecting by all
      of them. */
  lemma FirstMaskThenRest(rows: seq<CallRecord>, ms: seq<Mask>, first: seq<CallRecord>, r: seq<CallRecord>)
    requires |ms| > 0 && first == Select(rows, ms[0])
    requires r == SelectWhere(first, ms[1..])
    ensures r == SelectWhere(rows, ms)
  {
    SelectWhereTwice(rows, [ms[0]], ms[1..]);
    assert [ms[0]] + ms[1..] == ms;
  }

  /** Two masks commute. */
  lemma SelectCommutes(rows: seq<CallRecord>, a: Mask, b: Mask)
    ensures Select(Select(rows, a), b) == Select(Select(rows, b), a)
  {
    calc {
      Select(Select(rows, a), b);
      SelectWhere(SelectWhere(rows, [a]), [b]);
      { SelectWhereTwice(rows, [a], [b]); assert [a] + [b] == [a, b]; }
      SelectWhere(rows, [a, b]);
      { SelectWhereSameMasks(rows, [a, b], [b, a]); }
      SelectWhere(rows, [b, a]);
      { SelectWhereTwice(rows, [b], [a]); assert [b] + [a] == [b, a]; }
      SelectWhere(SelectWhere(rows, [b]), [a]);
      Select(Select(rows, b), a);
    }
  }

  /** Applying a mask a second time changes nothing. */
  lemma SelectIdempotent(rows: seq<CallRecord>, m: Mask)
    ensures Select(Select(rows, m), m) == Select(rows, m)
  {
    calc {
      Select(Select(rows, m), m);
      SelectWhere(SelectWhere(rows, [m]), [m]);
      { SelectWhereTwice(rows, [m], [m]); assert [m] + [m] == [m, m]; }
      SelectWhere(rows, [m, m]);
      { SelectWhereSameMasks(rows, [m, m], [m]); }
      SelectWhere(rows, [m]);
    }
  }

  /** Selection keeps every row's classification. */
  lemma SelectKeepsClassified(rows: seq<CallRecord>, m: Mask)
    requires AllClassified(rows)
    ensures AllClassified(Select(rows, m))
  {
    var r := Select(rows, m);
    forall i | 0 <= i < |r|
      ensures IsClassified(r[i])
    {
      assert multiset(r)[r[i]] > 0;
      assert r[i] in multiset(rows);
    }
  }

  /** `isin` with an empty selection keeps nothing, which is why the sidebar
      only filters on a non-empty selection. */
  lemma {:induction false} EmptyDirectionSelectionKeepsNothing(rows: seq<CallRecord>)
    ensures Select(rows, DirectionIn([])) == []
  {
    var r := Select(rows, DirectionIn([]));
    assert multiset(r) == multiset{};
  }

  /** The masks the sidebar applies, in the order it applies them: the date
      range only when both ends are chosen, and each membership filter only
      when its selection is non-empty. */
  function ActiveMasks(dateRange: seq<int>, directions: seq<string>, categories: seq<Category>): (r: seq<Mask>)
    ensures |r| <= 3
    ensures |dateRange| == 2 ==> DateBetween(dateRange[0], dateRange[1]) in r
    ensures |directions| > 0 <==> DirectionIn(directions) in r
    ensures |categories| > 0 <==> CategoryIn(categories) in r
    ensures forall m :: m in r ==>
              || (|dateRange| == 2 && m == DateBetween(dateRange[0], dateRange[1]))
              || (|directions| > 0 && m == DirectionIn(directions))
              || (|categories| > 0 && m == CategoryIn(categories))
  {
    (if |dateRange| == 2 then [DateBetween(dateRange[0], dateRange[1])] else [])
    + (if |directions| > 0 then [DirectionIn(directions)] else [])
    + (if |categories| > 0 then [CategoryIn(categories)] else [])
  }

  /** The sidebar's conditions on one row, stated directly. */
  predicate PassesSidebar(r: CallRecord, dateRange: seq<int>, directions: seq<string>, categories: seq<Category>) {
    && (|dateRange| == 2 ==> dateRange[0] <= r.date && r.date <= dateRange[1])
    && (|directions| > 0 ==> r.direction in directions)
    && (|categories| > 0 ==> r.category in categories)
  }

  lemma ActiveMasksMeanSidebar(dateRange: seq<int>, directions: seq<string>, categories: seq<Category>, r: CallRecord)
    ensures KeptByAll(ActiveMasks(dateRange, directions, categories), r)
            <==> PassesSidebar(r, dateRange, directions, categories)
  {
    var ms := ActiveMasks(dateRange, directions, categories);
    if |dateRange| == 2 {
      assert DateBetween(dateRange[0], dateRange[1]) in ms;
    }
    if |directions| > 0 {
      assert DirectionIn(directions) in ms;
    }
    if |categories| > 0 {
      assert CategoryIn(categories) in ms;
    }
  }

  /** The sidebar filters: the rows that meet every active condition, in
      their original order and multiplicity. */
  function ApplyFilters(rows: seq<CallRecord>, dateRange: seq<int>, directions: seq<string>,
                        categories: seq<Category>): (r: seq<CallRecord>)
    ensures IsSubsequence(r, rows)
    ensures forall i :: 0 <= i < |r| ==> PassesSidebar(r[i], dateRange, directions, categories)
    ensures forall x :: multiset(r)[x]
              == if PassesSidebar(x, dateRange, directions, categories) then multiset(rows)[x] else 0
  {
    var ms := ActiveMasks(dateRange, directions, categories);
    assert forall x :: KeptByAll(ms, x) <==> PassesSidebar(x, dateRange, directions, categories) by {
      forall x
        ensures KeptByAll(ms, x) <==> PassesSidebar(x, dateRange, directions, categories)
      {
        ActiveMasksMeanSidebar(dateRange, directions, categories, x);
      }
    }
    SelectEach(rows, ms)
  }

  /** With no date range chosen and both selections empty the sidebar leaves
      the frame as it is. */
  lemma NoSelectionKeepsAll(rows: seq<CallRecord>, dateRange: seq<int>)
    requires |dateRange| != 2
    ensures ApplyFilters(rows, dateRange, [], []) == rows
  {
    SelectWhereNone(rows);
  }

  /** The three sidebar filters may be applied in any order: every ordering
      of the active masks gives the same rows. */
  lemma FiltersCommute(rows: seq<CallRecord>, dateRange: seq<int>, directions: seq<string>,
                       categories: seq<Category>, order: seq<Mask>)
    requires forall m :: m in order <==> m in ActiveMasks(dateRange, directions, categories)
    ensures SelectEach(rows, order) == ApplyFilters(rows, dateRange, directions, categories)
  {
    var ms := ActiveMasks(dateRange, directions, categories);
    SelectWhereSameMasks(rows, order, ms);
  }
}
