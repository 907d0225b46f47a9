/** The key performance indicators shown above the charts, computed over
    the filtered frame: call counts by status substring, by category and by
    contact type, and the missed-call and booking rates as percentages that
    are 0 for an empty frame. */
module Metrics {
  import opened Text
  import opened Classifier
  import opened Calls
  import opened Filters

  /** The number of rows a mask keeps, counted row by row. */
  function Count(rows: seq<CallRecord>, m: Mask): (n: nat)
    ensures n <= |rows|
    ensures n == 0 <==> forall i :: 0 <= i < |rows| ==> !Keeps(m, rows[i])
  {
    if |rows| == 0 then 0
    else (if Keeps(m, rows[0]) then 1 else 0) + Count(rows[1..], m)
  }

  /** The count is `len(df[mask])`: the length of the selected frame. */
  lemma {:induction false} CountIsSelectionLength(rows: seq<CallRecord>, m: Mask)
    ensures Count(rows, m) == |Select(rows, m)|
  {
    if |rows| > 0 {
      SelectCons(rows, m);
      CountIsSelectionLength(rows[1..], m);
    }
  }

  /** `(count / total) * 100 if total else 0`, as an exact ratio (the
      dashboard's rounding to two decimals is not modelled). */
  function Percent(count: nat, total: nat): (r: real)
    ensures total == 0 ==> r == 0.0
    ensures total > 0 ==> r * (total as real) == (count as real) * 100.0
    ensures count <= total ==> 0.0 <= r <= 100.0
  {
    if total == 0 then 0.0 else (count as real) / (total as real) * 100.0
  }

  datatype Kpis = Kpis(
    totalCalls: nat,
    answeredCalls: nat,
    missedCalls: nat,
    missedRate: real,
    newPatientCalls: nat,
    appointmentBookings: nat,
    bookingRate: real,
    emergencyCalls: nat,
    billingCalls: nat,
    insuranceCalls: nat)

  const NoCalls: Kpis := Kpis(0, 0, 0, 0.0, 0, 0, 0.0, 0, 0, 0)

  /** The indicators of a filtered frame. An empty frame shows zero
      everywhere; otherwise every count is a count of rows of the frame and
      each rate is its count as a percentage of the total. */
  function ComputeKpis(rows: seq<CallRecord>): (k: Kpis)
    ensures k.totalCalls == |rows|
    ensures |rows| == 0 ==> k == NoCalls
    ensures k.answeredCalls <= k.totalCalls && k.missedCalls <= k.totalCalls
    ensures k.newPatientCalls <= k.totalCalls && k.appointmentBookings <= k.totalCalls
    ensures k.emergencyCalls <= k.totalCalls && k.billingCalls <= k.totalCalls
    ensures k.insuranceCalls <= k.totalCalls
    ensures 0.0 <= k.missedRate <= 100.0 && 0.0 <= k.bookingRate <= 100.0
    ensures k.missedRate == Percent(k.missedCalls, k.totalCalls)
    ensures k.bookingRate == Percent(k.appointmentBookings, k.totalCalls)
    ensures k.answeredCalls == |Select(rows, StatusContains("answered"))|
    ensures k.missedCalls == |Select(rows, StatusContains(MissedWord))|
    ensures k.newPatientCalls == |Select(rows, ContactTypeIs("New Patient"))|
    ensures k.appointmentBookings == |Select(rows, CategoryIs(AppointmentBooking))|
    ensures k.emergencyCalls == |Select(rows, CategoryIs(EmergencyClinical))|
    ensures k.billingCalls == |Select(rows, CategoryIs(BillingPayment))|
    ensures k.insuranceCalls == |Select(rows, CategoryIs(InsuranceInquiry))|
  {
    KpiCountsAreSelections(rows);
    if |rows| == 0 then NoCalls
    else
      var total := |rows|;
      var answered := Count(rows, StatusContains("answered"));
      var missed := Count(rows, StatusContains(MissedWord));
      var newPatients := Count(rows, ContactTypeIs("New Patient"));
      var bookings := Count(rows, CategoryIs(AppointmentBooking));
      var emergency := Count(rows, CategoryIs(EmergencyClinical));
      var billing := Count(rows, CategoryIs(BillingPayment));
      var insurance := Count(rows, CategoryIs(InsuranceInquiry));
      var missedRate := Percent(missed, total);
      var bookingRate := Percent(bookings, total);
      Kpis(total, answered, missed, missedRate, newPatients, bookings, bookingRate,
           emergency, billing, insurance)
  }

  /** Each indicator's row-by-row count is the length of the frame its mask
      selects. */
  lemma KpiCountsAreSelections(rows: seq<CallRecord>)
    ensures Count(rows, StatusContains("answered")) == |Select(rows, StatusContains("answered"))|
    ensures Count(rows, StatusContains(MissedWord)) == |Select(rows, StatusContains(MissedWord))|
    ensures Count(rows, ContactTypeIs("New Patient")) == |Select(rows, ContactTypeIs("New Patient"))|
    ensures Count(rows, CategoryIs(AppointmentBooking)) == |Select(rows, CategoryIs(AppointmentBooking))|
    ensures Count(rows, CategoryIs(EmergencyClinical)) == |Select(rows, CategoryIs(EmergencyClinical))|
    ensures Count(rows, CategoryIs(BillingPayment)) == |Select(rows, CategoryIs(BillingPayment))|
    ensures Count(rows, CategoryIs(InsuranceInquiry)) == |Select(rows, CategoryIs(InsuranceInquiry))|
  {
    CountIsSelectionLength(rows, StatusContains("answered"));
    CountIsSelectionLength(rows, StatusContains(MissedWord));
    CountIsSelectionLength(rows, ContactTypeIs("New Patient"));
    CountIsSelectionLength(rows, CategoryIs(AppointmentBooking));
    CountIsSelectionLength(rows, CategoryIs(EmergencyClinical));
    CountIsSelectionLength(rows, CategoryIs(BillingPayment));
    CountIsSelectionLength(rows, CategoryIs(InsuranceInquiry));
  }

  /** 12 missed calls out of 100 give a missed-call rate of 12 percent. */
  lemma MissedRateExample()
    ensures Percent(12, 100) == 12.0
  {
  }

  /** Counts per category, summed over a list of categories. */
  function SumCategoryCounts(rows: seq<CallRecord>, cs: seq<Category>): nat
    decreases |cs|
  {
    if |cs| == 0 then 0 else Count(rows, CategoryIs(cs[0])) + SumCategoryCounts(rows, cs[1..])
  }

  /** Counting the rows in a category selection: the first category's rows
      plus the rest's, as the categories are distinct. */
  lemma {:induction false} CategoryInSplit(rows: seq<CallRecord>, c: Category, cs: seq<Category>)
    requires c !in cs
    ensures Count(rows, CategoryIn([c] + cs)) == Count(rows, CategoryIs(c)) + Count(rows, CategoryIn(cs))
  {
    if |rows| > 0 {
      var d := rows[0].category;
      assert d in [c] + cs <==> d == c || d in cs;
      CategoryInSplit(rows[1..], c, cs);
    }
  }

  /** Per-category counts over distinct categories add up to the number of
      rows in any of them. */
  lemma {:induction false} SumCategoryCountsIsSelection(rows: seq<CallRecord>, cs: seq<Category>)
    requires forall i, j :: 0 <= i < j < |cs| ==> cs[i] != cs[j]
    ensures SumCategoryCounts(rows, cs) == Count(rows, CategoryIn(cs))
    decreases |cs|
  {
    if |cs| > 0 {
      SumCategoryCountsIsSelection(rows, cs[1..]);
      assert cs == [cs[0]] + cs[1..];
      CategoryInSplit(rows, cs[0], cs[1..]);
    }
  }

  /** A mask that keeps every row counts every row. */
  lemma {:induction false} CountAll(rows: seq<CallRecord>, m: Mask)
    requires forall i :: 0 <= i < |rows| ==> Keeps(m, rows[i])
    ensures Count(rows, m) == |rows|
  {
    if |rows| > 0 {
      CountAll(rows[1..], m);
    }
  }

  /** Two masks that agree on every row count the same. */
  lemma {:induction false} CountAgreeing(rows: seq<CallRecord>, a: Mask, b: Mask)
    requires forall i :: 0 <= i < |rows| ==> (Keeps(a, rows[i]) <==> Keeps(b, rows[i]))
    ensures Count(rows, a) == Count(rows, b)
  {
    if |rows| > 0 {
      CountAgreeing(rows[1..], a, b);
    }
  }

  /** Every category is one of the nine. */
  lemma CategoryListed(c: Category)
    ensures c in AllCategories
  {
    match c
    case MissedCall => assert AllCategories[0] == c;
    case AppointmentBooking => assert AllCategories[1] == c;
    case CancellationReschedule => assert AllCategories[2] == c;
    case InsuranceInquiry => assert AllCategories[3] == c;
    case BillingPayment => assert AllCategories[4] == c;
    case EmergencyClinical => assert AllCategories[5] == c;
    case FollowUpRoutineCare => assert AllCategories[6] == c;
    case PrescriptionRelated => assert AllCategories[7] == c;
    case GeneralInquiry => assert AllCategories[8] == c;
  }

  /** The nine categories are listed once each. */
  lemma AllCategoriesDistinct()
    ensures forall i, j :: 0 <= i < j < |AllCategories| ==> AllCategories[i] != AllCategories[j]
  {
  }

  /** Every row has exactly one category, so the nine per-category counts add
      up to the total. */
  lemma CategoryCountsSumToTotal(rows: seq<CallRecord>)
    ensures SumCategoryCounts(rows, AllCategories) == |rows|
  {
    AllCategoriesDistinct();
    SumCategoryCountsIsSelection(rows, AllCategories);
    forall i | 0 <= i < |rows|
      ensures Keeps(CategoryIn(AllCategories), rows[i])
    {
      CategoryListed(rows[i].category);
    }
    CountAll(rows, CategoryIn(AllCategories));
  }

  /** Where the missed calls are the rows whose status mentions "missed",
      the status mask and the category mask keep the same rows. */
  lemma StatusMaskIsMissedMask(rows: seq<CallRecord>)
    requires forall i :: 0 <= i < |rows| ==>
               (rows[i].category == MissedCall <==> Contains(Lower(rows[i].status), MissedWord))
    ensures forall i :: 0 <= i < |rows| ==>
              (Keeps(StatusContains(MissedWord), rows[i]) <==> Keeps(CategoryIs(MissedCall), rows[i]))
  {
  }

  /** On classified rows the missed-call count, taken from the status, equals
      the number of rows labelled "Missed Call". */
  lemma MissedCountIsMissedCategory(rows: seq<CallRecord>)
    requires AllClassified(rows)
    ensures Count(rows, StatusContains(MissedWord)) == Count(rows, CategoryIs(MissedCall))
  {
    AllClassifiedMissed(rows);
    StatusMaskIsMissedMask(rows);
    CountAgreeing(rows, StatusContains(MissedWord), CategoryIs(MissedCall));
  }

  /** Filtering never raises a count: each count over the filtered frame is
      at most the same count over the whole frame. */
  lemma FilteringLowersCounts(rows: seq<CallRecord>, dateRange: seq<int>, directions: seq<string>,
                              categories: seq<Category>, m: Mask)
    ensures Count(ApplyFilters(rows, dateRange, directions, categories), m) <= Count(rows, m)
  {
    var ms := ActiveMasks(dateRange, directions, categories);
    assert ApplyFilters(rows, dateRange, directions, categories) == SelectWhere(rows, ms);
    SelectWhereTwice(rows, ms, [m]);
    SelectWhereTwice(rows, [m], ms);
    SelectWhereSameMasks(rows, ms + [m], [m] + ms);
    assert |SelectWhere(SelectWhere(rows, [m]), ms)| <= |SelectWhere(rows, [m])|;
    CountIsSelectionLength(rows, m);
    CountIsSelectionLength(ApplyFilters(rows, dateRange, directions, categories), m);
  }

  /** "answered" is a substring of "unanswered", so an unanswered call is
      counted as answered. */
  lemma UnansweredCountsAsAnswered(r: CallRecord)
    requires r.status == "Unanswered"
    ensures Keeps(StatusContains("answered"), r)
  {
    var low := Lower(r.status);
    assert low == "u" + "n" + "answered";
    assert low[2..10] == "answered";
    assert OccursAt(low, "answered", 2);
  }

  /** A status can mention both words, so the answered and missed counts
      together can exceed the total: one call with status
      "Missed - unanswered" is counted once as answered and once as
      missed. */
  lemma AnsweredPlusMissedCanExceedTotal(r: CallRecord)
    requires r.status == "Missed - unanswered"
    ensures Count([r], StatusContains("answered")) + Count([r], StatusContains(MissedWord)) == 2
  {
    var low := Lower(r.status);
    var pre, mid, post := "missed", " - un", "answered";
    assert low == pre + mid + post;
    assert low[0..6] == pre;
    assert OccursAt(low, MissedWord, 0);
    assert low[11..19] == post;
    assert OccursAt(low, "answered", 11);
  }

  /** The frame the dashboard holds: its rows, and whether the "Category"
      column exists. The column is only added when the loaded frame has rows,
      and a failed load yields a frame with no columns at all. */
  datatype Frame = Frame(hasCategoryColumn: bool, rows: seq<CallRecord>)

  /** The frame after loading and classification. */
  function ClassifyFrame(raws: seq<RawCall>): (f: Frame)
    ensures f.hasCategoryColumn <==> |raws| > 0
    ensures |f.rows| == |raws| && AllClassified(f.rows)
    ensures forall i :: 0 <= i < |raws| ==> f.rows[i] == ClassifyRow(raws[i])
  {
    Frame(|raws| > 0, Categorize(raws))
  }

  /** Looking a column up in a frame either finds a count or raises
      `KeyError`. */
  datatype Lookup = Found(count: nat) | KeyError(column: string)

  /** `len(filtered_df[filtered_df["Category"] == label])` as written: the
      per-category cards index the "Category" column without checking that
      the frame has it. */
  function CategoryCountAsWritten(f: Frame, c: Category): (r: Lookup)
    ensures r.KeyError? <==> !f.hasCategoryColumn
    ensures r.Found? ==> r.count <= |f.rows|
    ensures r.Found? ==> r.count == |Select(f.rows, CategoryIs(c))|
  {
    CountIsSelectionLength(f.rows, CategoryIs(c));
    if !f.hasCategoryColumn then KeyError("Category")
    else Found(Count(f.rows, CategoryIs(c)))
  }

  /** After a failed load the emergency, billing and insurance cards raise
      `KeyError` instead of showing zero. */
  lemma FailedLoadCategoryCountRaises(c: Category)
    ensures CategoryCountAsWritten(ClassifyFrame([]), c) == KeyError("Category")
  {
  }

  /** Frames the dashboard can hold: one without the "Category" column has
      no rows. */
  predicate WellFormedFrame(f: Frame) {
    f.hasCategoryColumn || |f.rows| == 0
  }

  lemma ClassifiedFrameWellFormed(raws: seq<RawCall>)
    ensures WellFormedFrame(ClassifyFrame(raws))
  {
  }

  /** The per-category card as intended: a frame without rows shows zero
      calls in every category, and wherever the source's lookup succeeds
      the two agree. */
  function CategoryCount(f: Frame, c: Category): (n: nat)
    requires WellFormedFrame(f)
    ensures |f.rows| == 0 ==> n == 0
    ensures n <= |f.rows|
    ensures n == |Select(f.rows, CategoryIs(c))|
    ensures f.hasCategoryColumn ==> CategoryCountAsWritten(f, c) == Found(n)
  {
    CountIsSelectionLength(f.rows, CategoryIs(c));
    if f.hasCategoryColumn then Count(f.rows, CategoryIs(c)) else 0
  }

  /** The indicators computed from a frame's rows show the corrected
      per-category counts. */
  lemma KpisUseCorrectedCounts(f: Frame)
    requires WellFormedFrame(f)
    ensures ComputeKpis(f.rows).appointmentBookings == CategoryCount(f, AppointmentBooking)
    ensures ComputeKpis(f.rows).emergencyCalls == CategoryCount(f, EmergencyClinical)
    ensures ComputeKpis(f.rows).billingCalls == CategoryCount(f, BillingPayment)
    ensures ComputeKpis(f.rows).insuranceCalls == CategoryCount(f, InsuranceInquiry)
  {
  }
}
