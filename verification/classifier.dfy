/** The call classifier `classify_call`: a status that mentions "missed"
    makes the call a missed call; otherwise seven ordered keyword rules are
    tried against the lower-cased transcript and the first rule with a
    keyword hit names the category; a call that hits none is a general
    inquiry. */
module Classifier {
  import opened Text

  /** The closed set of labels a call can receive. */
  datatype Category =
    | MissedCall
    | AppointmentBooking
    | CancellationReschedule
    | InsuranceInquiry
    | BillingPayment
    | EmergencyClinical
    | FollowUpRoutineCare
    | PrescriptionRelated
    | GeneralInquiry

  /** The nine labels in the order the classifier considers them. */
  const AllCategories: seq<Category> := [
    MissedCall, AppointmentBooking, CancellationReschedule, InsuranceInquiry,
    BillingPayment, EmergencyClinical, FollowUpRoutineCare,
    PrescriptionRelated, GeneralInquiry
  ]

  /** The label strings the dashboard stores in its "Category" column. */
  const Labels: seq<string> := [
    "Missed Call", "Appointment Booking", "Cancellation/Reschedule",
    "Insurance Inquiry", "Billing/Payment", "Emergency/Clinical",
    "Follow-up/Routine Care", "Prescription Related", "General Inquiry"
  ]

  /** The label string of a category: one of the nine, and different
      categories get different strings. */
  function Label(c: Category): (r: string)
    ensures r in Labels
  {
    match c
    case MissedCall => "Missed Call"
    case AppointmentBooking => "Appointment Booking"
    case CancellationReschedule => "Cancellation/Reschedule"
    case InsuranceInquiry => "Insurance Inquiry"
    case BillingPayment => "Billing/Payment"
    case EmergencyClinical => "Emergency/Clinical"
    case FollowUpRoutineCare => "Follow-up/Routine Care"
    case PrescriptionRelated => "Prescription Related"
    case GeneralInquiry => "General Inquiry"
  }

  /** Different categories are stored as different strings, so comparing the
      "Category" column with a label string is comparing categories. */
  lemma LabelInjective(c: Category, d: Category)
    requires Label(c) == Label(d)
    ensures c == d
  {
  }

  /** One `elif any(w in t for w in [...])` branch. */
  datatype Rule = Rule(category: Category, keywords: seq<string>)

  /** The transcript rules in the order the classifier tries them. */
  const Rules: seq<Rule> := [
    Rule(AppointmentBooking, ["book", "appointment", "schedule", "availability"]),
    Rule(CancellationReschedule, ["cancel", "reschedule", "postpone"]),
    Rule(InsuranceInquiry, ["insurance", "coverage", "benefit"]),
    Rule(BillingPayment, ["bill", "payment", "price", "fee", "charge"]),
    Rule(EmergencyClinical, ["pain", "tooth", "emergency", "hurt", "swelling", "broken"]),
    Rule(FollowUpRoutineCare, ["follow up", "check up", "cleaning", "exam"]),
    Rule(PrescriptionRelated, ["prescription", "medicine", "medication"])
  ]

  /** The status keyword that takes precedence over every transcript rule. */
  const MissedWord: string := "missed"

  /** A rule table is well formed when its categories are pairwise different
      and none of them is the missed-call or the fallback category. */
  predicate WellFormed(rules: seq<Rule>) {
    && (forall k :: 0 <= k < |rules| ==>
          rules[k].category != MissedCall && rules[k].category != GeneralInquiry)
    && (forall j, k :: 0 <= j < k < |rules| ==> rules[j].category != rules[k].category)
  }

  /** `any(w in t for w in keywords)`. */
  predicate Hits(t: string, keywords: seq<string>) {
    exists k :: 0 <= k < |keywords| && Contains(t, keywords[k])
  }

  /** Rule `k` is the first rule of the table whose keywords hit `t`. */
  predicate FirstHitAt(rules: seq<Rule>, t: string, k: int) {
    && 0 <= k < |rules|
    && Hits(t, rules[k].keywords)
    && forall j :: 0 <= j < k ==> !Hits(t, rules[j].keywords)
  }

  /** No rule of the table hits `t`. */
  predicate NoHit(rules: seq<Rule>, t: string) {
    forall k :: 0 <= k < |rules| ==> !Hits(t, rules[k].keywords)
  }

  /** The `elif` chain over a rule table: the category of the first rule
      with a hit, or the fallback when no rule hits. */
  function FirstMatch(rules: seq<Rule>, t: string): (r: Category)
    ensures NoHit(rules, t) ==> r == GeneralInquiry
    ensures forall k :: FirstHitAt(rules, t, k) ==> r == rules[k].category
    ensures r == GeneralInquiry || exists k :: FirstHitAt(rules, t, k) && r == rules[k].category
    decreases |rules|
  {
    if |rules| == 0 then GeneralInquiry
    else if Hits(t, rules[0].keywords) then rules[0].category
    else
      FirstHitShift(rules, t);
      FirstMatch(rules[1..], t)
  }

  /** When the first rule misses, the first hit of the table is the first
      hit of the remaining rules, one place later. */
  lemma FirstHitShift(rules: seq<Rule>, t: string)
    requires |rules| > 0 && !Hits(t, rules[0].keywords)
    ensures forall k :: FirstHitAt(rules[1..], t, k) ==> FirstHitAt(rules, t, k + 1)
    ensures forall k :: FirstHitAt(rules, t, k) ==> k > 0 && FirstHitAt(rules[1..], t, k - 1)
    ensures NoHit(rules, t) <==> NoHit(rules[1..], t)
  {
    forall k | FirstHitAt(rules[1..], t, k)
      ensures FirstHitAt(rules, t, k + 1)
    {
      assert rules[k + 1] == rules[1..][k];
      forall j | 0 <= j < k + 1
        ensures !Hits(t, rules[j].keywords)
      {
        if j > 0 {
          assert rules[j] == rules[1..][j - 1];
        }
      }
    }
    forall k | FirstHitAt(rules, t, k)
      ensures k > 0 && FirstHitAt(rules[1..], t, k - 1)
    {
      assert rules[1..][k - 1] == rules[k];
      forall j | 0 <= j < k - 1
        ensures !Hits(t, rules[1..][j].keywords)
      {
        assert rules[1..][j] == rules[j + 1];
      }
    }
    if NoHit(rules[1..], t) {
      forall k | 0 <= k < |rules|
        ensures !Hits(t, rules[k].keywords)
      {
        if k > 0 {
          assert rules[k] == rules[1..][k - 1];
        }
      }
    }
  }

  /** `classify_call` over an arbitrary rule table. */
  function ClassifyWith(rules: seq<Rule>, transcript: string, status: string): (r: Category)
    requires WellFormed(rules)
    ensures r == MissedCall <==> Contains(Lower(status), MissedWord)
  {
    if Contains(Lower(status), MissedWord) then MissedCall
    else FirstMatch(rules, Lower(transcript))
  }

  /** `classify_call(transcript, call_status)` with the dashboard's rules.
      The source's `except` fallback to "General Inquiry" cannot fire here:
      lower-casing and substring tests are total on strings. */
  function Classify(transcript: string, status: string): (r: Category)
    ensures r == MissedCall <==> Contains(Lower(status), MissedWord)
    ensures (!Contains(Lower(status), MissedWord) && NoHit(Rules, Lower(transcript)))
              ==> r == GeneralInquiry
  {
    ClassifyWith(Rules, transcript, status)
  }
}
