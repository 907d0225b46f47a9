/** Call records as the dashboard holds them after loading, and the step
    that adds a "Category" column by classifying every row. */
module Calls {
  import opened Text
  import opened Classifier

  datatype Option<T> = None | Some(value: T)

  /** `row.get(key, "")`: the cell when the column exists, else the empty
      string. */
  function GetOrEmpty(cell: Option<string>): (r: string)
    ensures cell.Some? ==> r == cell.value
    ensures cell.None? ==> r == ""
  {
    match cell
    case Some(v) => v
    case None => ""
  }

  /** One row before classification. `date` is the call's calendar day as a
      day number. The transcript is read under the key "transcript", which
      may be absent from the sheet. Missing cells are already "" here. */
  datatype RawCall = RawCall(
    date: int,
    direction: string,
    status: string,
    contactType: string,
    transcript: Option<string>)

  /** One row after classification. */
  datatype CallRecord = CallRecord(
    date: int,
    direction: string,
    status: string,
    contactType: string,
    transcript: string,
    category: Category)

  /** A row's category is the classifier's verdict on its own transcript and
      status. */
  predicate IsClassified(r: CallRecord) {
    r.category == Classify(r.transcript, r.status)
  }

  /** A classified row is a missed call exactly when its status mentions
      "missed". */
  lemma ClassifiedMissedStatus(r: CallRecord)
    requires IsClassified(r)
    ensures r.category == MissedCall <==> Contains(Lower(r.status), MissedWord)
  {
    var c := Classify(r.transcript, r.status);
    assert c == MissedCall <==> Contains(Lower(r.status), MissedWord);
  }

  predicate AllClassified(rows: seq<CallRecord>) {
    forall i :: 0 <= i < |rows| ==> IsClassified(rows[i])
  }

  /** In classified rows, the missed calls are the rows whose status
      mentions "missed". */
  lemma AllClassifiedMissed(rows: seq<CallRecord>)
    requires AllClassified(rows)
    ensures forall i :: 0 <= i < |rows| ==>
              (rows[i].category == MissedCall <==> Contains(Lower(rows[i].status), MissedWord))
  {
    forall i | 0 <= i < |rows|
      ensures rows[i].category == MissedCall <==> Contains(Lower(rows[i].status), MissedWord)
    {
      ClassifiedMissedStatus(rows[i]);
    }
  }

  /** One row of `df.apply(...)`: the row keeps its fields, its transcript
      is the sheet's cell or "" when the column is absent, and its category
      is the classifier's verdict on that transcript and the row's status. */
  function ClassifyRow(raw: RawCall): (r: CallRecord)
    ensures IsClassified(r)
    ensures r.transcript == GetOrEmpty(raw.transcript)
    ensures r.category == Classify(GetOrEmpty(raw.transcript), raw.status)
    ensures r.date == raw.date && r.direction == raw.direction
    ensures r.status == raw.status && r.contactType == raw.contactType
  {
    var t := GetOrEmpty(raw.transcript);
    CallRecord(raw.date, raw.direction, raw.status, raw.contactType, t,
               Classify(t, raw.status))
  }

  /** `df["Category"] = df.apply(classify_call ...)`: every row keeps its
      place and its fields and gains exactly one category. */
  function Categorize(raws: seq<RawCall>): (r: seq<CallRecord>)
    ensures |r| == |raws|
    ensures AllClassified(r)
    ensures forall i :: 0 <= i < |r| ==> r[i] == ClassifyRow(raws[i])
    ensures forall i :: 0 <= i < |r| ==>
              r[i].category == Classify(GetOrEmpty(raws[i].transcript), raws[i].status)
  {
    seq(|raws|, i requires 0 <= i < |raws| => ClassifyRow(raws[i]))
  }

  /** A classified row read back as a sheet row whose transcript cell is
      present. */
  function AsRaw(r: CallRecord): RawCall {
    RawCall(r.date, r.direction, r.status, r.contactType, Some(r.transcript))
  }

  /** Classifying an already classified frame again, as a reload of the
      dashboard's own output would, changes no row. */
  lemma ReclassifyIsNoop(raws: seq<RawCall>)
    ensures var once := Categorize(raws);
            Categorize(seq(|once|, i requires 0 <= i < |once| => AsRaw(once[i]))) == once
  {
    var once := Categorize(raws);
    var again := Categorize(seq(|once|, i requires 0 <= i < |once| => AsRaw(once[i])));
    forall i | 0 <= i < |once|
      ensures again[i] == once[i]
    {
      ReclassifyRowIsNoop(raws[i]);
    }
  }

  lemma ReclassifyRowIsNoop(raw: RawCall)
    ensures ClassifyRow(AsRaw(ClassifyRow(raw))) == ClassifyRow(raw)
  {
  }

  /** A row whose transcript column is absent is classified as if the
      transcript were empty: a missed call or a general inquiry. */
  lemma AbsentTranscript(raw: RawCall)
    requires raw.transcript.None?
    ensures ClassifyRow(raw).category in {MissedCall, GeneralInquiry}
  {
    assert Text.Lower("") == "";
    assert forall k :: 0 <= k < |Rules| ==> !Hits("", Rules[k].keywords);
  }
}
