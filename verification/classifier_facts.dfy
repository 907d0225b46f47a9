/** Properties of the call classifier: the missed-call override, the
    first-match priority of the transcript rules, exactly when the fallback
    label is given, and the keyword "reschedule" that can never decide a
    label. */
module ClassifierFacts {
  import opened Text
  import opened Classifier

  /** Every keyword of a rule table, rule by rule, in table order. */
  function Keywords(rules: seq<Rule>): (r: seq<string>)
    ensures forall k, i :: 0 <= k < |rules| && 0 <= i < |rules[k].keywords|
              ==> rules[k].keywords[i] in r
    ensures forall w :: w in r ==> exists k :: 0 <= k < |rules| && w in rules[k].keywords
  {
    if |rules| == 0 then []
    else rules[0].keywords + Keywords(rules[1..])
  }

  /** The dashboard's transcript rules list 28 keywords. */
  lemma KeywordCount()
    ensures |Keywords(Rules)| == 28
  {
  }

  /** No rule hits exactly when no keyword of the table occurs. */
  lemma NoHitIffNoKeyword(rules: seq<Rule>, t: string)
    ensures NoHit(rules, t) <==> forall w :: w in Keywords(rules) ==> !Contains(t, w)
  {
    if NoHit(rules, t) {
      forall w | w in Keywords(rules)
        ensures !Contains(t, w)
      {
        var k :| 0 <= k < |rules| && w in rules[k].keywords;
        var i :| 0 <= i < |rules[k].keywords| && rules[k].keywords[i] == w;
        assert !Hits(t, rules[k].keywords);
      }
    }
  }

  /** When some rule hits, there is a first rule that hits. */
  lemma {:induction false} FirstHitExists(rules: seq<Rule>, t: string)
    requires !NoHit(rules, t)
    ensures exists k :: FirstHitAt(rules, t, k)
    decreases |rules|
  {
    if Hits(t, rules[0].keywords) {
      assert FirstHitAt(rules, t, 0);
    } else {
      var k :| 0 <= k < |rules| && Hits(t, rules[k].keywords);
      assert !NoHit(rules[1..], t) by {
        assert Hits(t, rules[1..][k - 1].keywords);
      }
      FirstHitExists(rules[1..], t);
      var j :| FirstHitAt(rules[1..], t, j);
      assert FirstHitAt(rules, t, j + 1);
    }
  }

  /** The dashboard's rule table is well formed. */
  lemma RulesWellFormed()
    ensures WellFormed(Rules)
  {
  }

  /** A call is labelled with rule `k`'s category exactly when its status
      does not mention "missed" and rule `k` is the first rule whose
      keywords occur in the lower-cased transcript. */
  lemma ClassifyIsFirstHit(transcript: string, status: string, k: int)
    requires 0 <= k < |Rules|
    ensures Classify(transcript, status) == Rules[k].category
            <==> !Contains(Lower(status), MissedWord) && FirstHitAt(Rules, Lower(transcript), k)
  {
    RulesWellFormed();
    var t := Lower(transcript);
    var r := Classify(transcript, status);
    if r == Rules[k].category {
      assert !Contains(Lower(status), MissedWord);
      assert r == FirstMatch(Rules, t);
      var k' :| FirstHitAt(Rules, t, k') && r == Rules[k'].category;
      assert k' == k;
    }
  }

  /** A call is a general inquiry exactly when its status does not mention
      "missed" and none of the 28 keywords occurs in its lower-cased
      transcript. */
  lemma ClassifyGeneralIff(transcript: string, status: string)
    ensures Classify(transcript, status) == GeneralInquiry
            <==> !Contains(Lower(status), MissedWord)
                 && forall w :: w in Keywords(Rules) ==> !Contains(Lower(transcript), w)
  {
    RulesWellFormed();
    var t := Lower(transcript);
    NoHitIffNoKeyword(Rules, t);
    if !Contains(Lower(status), MissedWord) && !NoHit(Rules, t) {
      FirstHitExists(Rules, t);
      var k :| FirstHitAt(Rules, t, k);
      assert Classify(transcript, status) == Rules[k].category;
    }
  }

  /** A status that mentions "missed" in any letter case makes the call a
      missed call, whatever the transcript says. */
  lemma MissedStatusExample(transcript: string)
    ensures Classify(transcript, "MISSED - No Answer") == MissedCall
  {
    var low := Lower("MISSED - No Answer");
    assert low[0..6] == MissedWord;
    assert OccursAt(low, MissedWord, 0);
  }

  /** A lower-cased status without an `m` never mentions "missed". */
  lemma NotMissedWithoutM(status: string)
    requires 'm' !in Lower(status)
    ensures !Contains(Lower(status), MissedWord)
  {
    NotContainsMissingChar(Lower(status), MissedWord, 0);
  }

  /** A transcript holding any appointment-booking keyword is an appointment
      booking unless the call was missed, whatever later rules it also hits:
      "book" together with "bill" is a booking, not a billing call. */
  lemma BookingWins(transcript: string, status: string, w: string)
    requires w in Rules[0].keywords
    requires Contains(Lower(transcript), w)
    requires !Contains(Lower(status), MissedWord)
    ensures Classify(transcript, status) == AppointmentBooking
  {
    assert FirstHitAt(Rules, Lower(transcript), 0);
  }

  lemma ScheduleInReschedule()
    ensures Contains("reschedule", "schedule")
  {
    assert "reschedule"[2..10] == "schedule";
    assert OccursAt("reschedule", "schedule", 2);
  }

  /** "reschedule" holds "schedule", so any transcript with "reschedule" is an
      appointment booking when the call was not missed. */
  lemma RescheduleIsBooking(transcript: string, status: string)
    requires Contains(Lower(transcript), "reschedule")
    requires !Contains(Lower(status), MissedWord)
    ensures Classify(transcript, status) == AppointmentBooking
  {
    ScheduleInReschedule();
    ContainsTransitive(Lower(transcript), "reschedule", "schedule");
    BookingWins(transcript, status, "schedule");
  }

  /** The rule table with "reschedule" taken out of the cancellation rule. */
  const RulesWithoutReschedule: seq<Rule> :=
    Rules[1 := Rule(CancellationReschedule, ["cancel", "postpone"])]

  /** Two tables with the same categories and the same hits give the same
      label. */
  lemma {:induction false} FirstMatchSameHits(a: seq<Rule>, b: seq<Rule>, t: string)
    requires |a| == |b|
    requires forall k :: 0 <= k < |a| ==> a[k].category == b[k].category
    requires forall k :: 0 <= k < |a| ==> (Hits(t, a[k].keywords) <==> Hits(t, b[k].keywords))
    ensures FirstMatch(a, t) == FirstMatch(b, t)
    decreases |a|
  {
    if |a| > 0 && !Hits(t, a[0].keywords) {
      FirstMatchSameHits(a[1..], b[1..], t);
    }
  }

  /** A transcript with "reschedule" hits the booking rule. */
  lemma RescheduleHitsBooking(t: string)
    requires Contains(t, "reschedule")
    ensures Hits(t, Rules[0].keywords)
  {
    ScheduleInReschedule();
    ContainsTransitive(t, "reschedule", "schedule");
    assert Rules[0].keywords[2] == "schedule";
  }

  /** Without "reschedule" in the transcript, the cancellation rule hits with
      or without that keyword. */
  lemma CancelRuleHitsAgree(t: string)
    requires !Contains(t, "reschedule")
    ensures Hits(t, Rules[1].keywords) <==> Hits(t, RulesWithoutReschedule[1].keywords)
  {
    var full, cut := Rules[1].keywords, RulesWithoutReschedule[1].keywords;
    assert full == ["cancel", "reschedule", "postpone"];
    assert cut == ["cancel", "postpone"];
    if Hits(t, full) {
      var i :| 0 <= i < |full| && Contains(t, full[i]);
      assert Contains(t, cut[if i == 0 then 0 else 1]);
    }
    if Hits(t, cut) {
      var i :| 0 <= i < |cut| && Contains(t, cut[i]);
      assert Contains(t, full[if i == 0 then 0 else 2]);
    }
  }

  /** The two tables differ only in rule 1. */
  lemma RulesWithoutRescheduleShape()
    ensures |RulesWithoutReschedule| == |Rules|
    ensures forall k :: 0 <= k < |Rules| ==> RulesWithoutReschedule[k].category == Rules[k].category
    ensures forall k :: 0 <= k < |Rules| && k != 1 ==> RulesWithoutReschedule[k] == Rules[k]
  {
  }

  /** The keyword "reschedule" never decides a label: the classifier with it
      removed labels every call the same way. */
  lemma RescheduleIsDeadKeyword(transcript: string, status: string)
    ensures WellFormed(RulesWithoutReschedule)
    ensures ClassifyWith(RulesWithoutReschedule, transcript, status)
            == Classify(transcript, status)
  {
    RulesWithoutRescheduleShape();
    RulesWellFormed();
    var t := Lower(transcript);
    if Hits(t, Rules[0].keywords) {
      assert FirstHitAt(Rules, t, 0);
      assert FirstHitAt(RulesWithoutReschedule, t, 0);
    } else {
      if Contains(t, "reschedule") {
        RescheduleHitsBooking(t);
      }
      CancelRuleHitsAgree(t);
      FirstMatchSameHits(RulesWithoutReschedule, Rules, t);
    }
  }

  /** "I need to reschedule my appointment" on an answered call is an
      appointment booking: the booking rule is tried before the cancellation
      rule and both "schedule" and "appointment" hit it. */
  lemma RescheduleAppointmentExample()
    ensures Classify("I need to reschedule my appointment", "Answered") == AppointmentBooking
  {
    var pre, w, post := "I need to ", "reschedule", " my appointment";
    var x := pre + w + post;
    assert x == "I need to reschedule my appointment";
    assert x[|pre|..|pre| + |w|] == w;
    LowerKeepsOccurrence(x, "reschedule", 10);
    AnsweredIsNotMissed();
    RescheduleIsBooking(x, "Answered");
  }

  /** The status "Answered" does not mention "missed". */
  lemma AnsweredIsNotMissed()
    ensures !Contains(Lower("Answered"), MissedWord)
  {
    assert Lower("Answered") == "answered";
    NotMissedWithoutM("Answered");
  }

  /** Python lower-cases the Kelvin sign to `k`, so "BOO" followed by a
      Kelvin sign is an appointment booking. */
  lemma KelvinSignExample()
    ensures Classify("BOO\U{212A}", "Answered") == AppointmentBooking
  {
    var low := Lower("BOO\U{212A}");
    assert low == "book";
    assert OccursAt(low, "book", 0);
    AnsweredIsNotMissed();
    BookingWins("BOO\U{212A}", "Answered", "book");
  }

  /** The classifier ignores letter case in both of its inputs. */
  lemma ClassifyIgnoresCase(transcript: string, status: string)
    ensures Classify(Lower(transcript), Lower(status)) == Classify(transcript, status)
  {
    LowerIdempotent(transcript);
    LowerIdempotent(status);
  }
}
