/** A hospital visit and the facts a patient's visit history determines.

    A history is the sequence of visits recorded for one patient, oldest
    first.  The functions below are the specifications the loops of the
    patient and hospital queries are proved against; each one is defined on
    a prefix of the history followed by its last visit, in the order in which
    those loops walk the history.
 */
module Visits {
  import opened Wrappers
  import opened Calendar

  /** One encounter between a doctor and a patient.  A visit without a
      prescription or without a follow-up has `None` there. */
  datatype Visit = Visit(
    date: Date,
    doctorId: int,
    patientId: int,
    diagnosis: string,
    prognosis: string,
    prescribed: Option<string>,
    followup: Option<Date>)

  /** The representation invariant a visit documents: a follow-up, when there
      is one, falls after the visit itself. */
  predicate WellFormed(v: Visit)
  {
    v.followup.Some? ==> v.date < v.followup.value
  }

  /** Equality of visits: same day, same doctor, same patient, whatever was
      diagnosed, prescribed or booked. */
  predicate SameVisit(a: Visit, b: Visit)
  {
    a.date == b.date && a.doctorId == b.doctorId && a.patientId == b.patientId
  }

  /** Visit equality is an equivalence that ignores the clinical details. */
  lemma SameVisitIsEquivalence(a: Visit, b: Visit, c: Visit)
    ensures SameVisit(a, a)
    ensures SameVisit(a, b) ==> SameVisit(b, a)
    ensures SameVisit(a, b) && SameVisit(b, c) ==> SameVisit(a, c)
    ensures SameVisit(a, a.(diagnosis := b.diagnosis, prognosis := b.prognosis,
                             prescribed := b.prescribed, followup := b.followup))
  {
  }

  // ---------------------------------------------------------------------
  // Prescriptions

  /** Some visit of the history prescribed `medication`. */
  predicate Prescribes(h: seq<Visit>, medication: string)
  {
    exists i :: 0 <= i < |h| && h[i].prescribed == Some(medication)
  }

  /** The prescriptions of the visits strictly after day `d`, with repeats,
      in history order (a visit without a prescription contributes `None`). */
  function PrescribedSince(h: seq<Visit>, d: Date): (meds: seq<Option<string>>)
  {
    if h == [] then []
    else
      var last := h[|h| - 1];
      PrescribedSince(h[..|h| - 1], d) + (if d < last.date then [last.prescribed] else [])
  }

  /** A prescription is listed after `d` exactly when some visit strictly
      after `d` carried it; a visit on `d` itself does not count. */
  lemma {:induction false} PrescribedSinceMembers(h: seq<Visit>, d: Date, x: Option<string>)
    ensures x in PrescribedSince(h, d) <==>
            exists i :: 0 <= i < |h| && d < h[i].date && h[i].prescribed == x
  {
    if h != [] {
      var init := h[..|h| - 1];
      PrescribedSinceMembers(init, d, x);
      assert forall i :: 0 <= i < |init| ==> init[i] == h[i];
      if exists i :: 0 <= i < |h| && d < h[i].date && h[i].prescribed == x {
        var i :| 0 <= i < |h| && d < h[i].date && h[i].prescribed == x;
        if i == |h| - 1 {
          assert x in PrescribedSince(h, d);
        }
      }
    }
  }

  /** The number of visits strictly after day `d` whose prescription is `x`. */
  function CountAfter(h: seq<Visit>, d: Date, x: Option<string>): (n: nat)
    ensures n <= |h|
    ensures n == 0 <==> forall i :: 0 <= i < |h| ==> !(d < h[i].date && h[i].prescribed == x)
  {
    if h == [] then 0
    else
      var init := h[..|h| - 1];
      assert forall i :: 0 <= i < |init| ==> init[i] == h[i];
      CountAfter(init, d, x) + (if d < h[|h| - 1].date && h[|h| - 1].prescribed == x then 1 else 0)
  }

  /** A prescription is listed once per visit strictly after `d` that
      carried it: repeats are kept, none is merged or dropped. */
  lemma {:induction false} PrescribedSinceCount(h: seq<Visit>, d: Date, x: Option<string>)
    ensures multiset(PrescribedSince(h, d))[x] == CountAfter(h, d, x)
  {
    if h != [] {
      PrescribedSinceCount(h[..|h| - 1], d, x);
    }
  }

  /** Moving the day later can only drop prescriptions, never add any. */
  lemma {:induction false} PrescribedSinceShrinks(h: seq<Visit>, d1: Date, d2: Date)
    requires d1 <= d2
    ensures multiset(PrescribedSince(h, d2)) <= multiset(PrescribedSince(h, d1))
  {
    if h != [] {
      PrescribedSinceShrinks(h[..|h| - 1], d1, d2);
    }
  }

  /** Asking for the prescriptions after a day before every visit lists every
      prescription, so it agrees with `Prescribes`. */
  lemma PrescribesIffListedSince(h: seq<Visit>, d: Date, medication: string)
    requires forall i :: 0 <= i < |h| ==> d < h[i].date
    ensures Prescribes(h, medication) <==> Some(medication) in PrescribedSince(h, d)
  {
    PrescribedSinceMembers(h, d, Some(medication));
  }

  /** One visit on 2017-10-23 prescribing Sucralfate: it is listed after
      2017-10-22, but neither after its own day nor after 2017-12-01. */
  lemma PrescribedSinceExample(v: Visit)
    requires v.date == 17462 && v.prescribed == Some("Sucralfate")
    ensures PrescribedSince([v], 17461) == [Some("Sucralfate")]
    ensures PrescribedSince([v], 17462) == []
    ensures PrescribedSince([v], 17501) == []
  {
    assert [v][..0] == [];
  }

  // ---------------------------------------------------------------------
  // Follow-ups

  /** The follow-up dates booked by the visits of the history, in history order. */
  function FollowupDates(h: seq<Visit>): (fs: seq<Date>)
  {
    if h == [] then []
    else
      var last := h[|h| - 1];
      FollowupDates(h[..|h| - 1]) + (if last.followup.Some? then [last.followup.value] else [])
  }

  /** The follow-up dates of the history that fall in calendar month `month`. */
  function FollowupsInMonth(h: seq<Visit>, month: int): (fs: seq<Date>)
  {
    if h == [] then []
    else
      var last := h[|h| - 1];
      FollowupsInMonth(h[..|h| - 1], month) +
        (if last.followup.Some? && MonthOf(last.followup.value) == month
         then [last.followup.value] else [])
  }

  /** A date is listed for `month` exactly when some visit booked it as a
      follow-up and it lies in that month. */
  lemma {:induction false} FollowupsInMonthMembers(h: seq<Visit>, month: int, x: Date)
    ensures x in FollowupsInMonth(h, month) <==>
            exists i :: 0 <= i < |h| && h[i].followup == Some(x) && MonthOf(x) == month
  {
    if h != [] {
      var init := h[..|h| - 1];
      FollowupsInMonthMembers(init, month, x);
      assert forall i :: 0 <= i < |init| ==> init[i] == h[i];
      if exists i :: 0 <= i < |h| && h[i].followup == Some(x) && MonthOf(x) == month {
        var i :| 0 <= i < |h| && h[i].followup == Some(x) && MonthOf(x) == month;
        if i == |h| - 1 {
          assert x in FollowupsInMonth(h, month);
        }
      }
    }
  }

  /** A month number outside 1..12 (an unknown month label) selects nothing. */
  lemma {:induction false} FollowupsOutsideYear(h: seq<Visit>, month: int)
    requires month < 1 || 12 < month
    ensures FollowupsInMonth(h, month) == []
  {
    if h != [] {
      FollowupsOutsideYear(h[..|h| - 1], month);
    }
  }

  /** The follow-ups selected by the months 1 .. k together. */
  function FollowupsUpToMonth(h: seq<Visit>, k: nat): (n: nat)
  {
    if k == 0 then 0 else FollowupsUpToMonth(h, k - 1) + |FollowupsInMonth(h, k)|
  }

  lemma {:induction false} FollowupsUpToMonthStep(h: seq<Visit>, k: nat)
    requires h != []
    ensures var f := h[|h| - 1].followup;
            FollowupsUpToMonth(h, k) == FollowupsUpToMonth(h[..|h| - 1], k) +
              (if f.Some? && MonthOf(f.value) <= k then 1 else 0)
  {
    if k > 0 {
      FollowupsUpToMonthStep(h, k - 1);
    }
  }

  lemma {:induction false} NoFollowupsUpToMonth(h: seq<Visit>, k: nat)
    requires h == []
    ensures FollowupsUpToMonth(h, k) == 0
  {
    if k > 0 {
      NoFollowupsUpToMonth(h, k - 1);
    }
  }

  /** The twelve months partition the follow-ups: every booked follow-up is
      listed for exactly one month. */
  lemma {:induction false} FollowupsPartitionByMonth(h: seq<Visit>)
    ensures FollowupsUpToMonth(h, 12) == |FollowupDates(h)|
  {
    if h == [] {
      NoFollowupsUpToMonth(h, 12);
    } else {
      FollowupsPartitionByMonth(h[..|h| - 1]);
      FollowupsUpToMonthStep(h, 12);
    }
  }

  /** The number of visits that took place on `day`. */
  function VisitsOn(h: seq<Visit>, day: Date): (n: nat)
  {
    if h == [] then 0
    else VisitsOn(h[..|h| - 1], day) + (if h[|h| - 1].date == day then 1 else 0)
  }

  /** `VisitsOn` counts the positions of the history dated `day`. */
  lemma {:induction false} VisitsOnCountsPositions(h: seq<Visit>, day: Date)
    ensures VisitsOn(h, day) == |set i | 0 <= i < |h| && h[i].date == day|
  {
    if h != [] {
      var n := |h| - 1;
      var init := h[..n];
      VisitsOnCountsPositions(init, day);
      var before := set i | 0 <= i < n && init[i].date == day;
      var after := set i | 0 <= i < |h| && h[i].date == day;
      if h[n].date == day {
        assert after == before + {n};
      } else {
        assert after == before;
      }
    }
  }

  /** Classifies each follow-up date of `fs` as kept, when exactly one visit
      of `h` took place on it, or missed otherwise (no visit, or several).
      The result is (missed, kept). */
  function Tally(h: seq<Visit>, fs: seq<Date>): (r: (nat, nat))
    ensures r.0 + r.1 == |fs|
  {
    if fs == [] then (0, 0)
    else
      var (missed, kept) := Tally(h, fs[..|fs| - 1]);
      if VisitsOn(h, fs[|fs| - 1]) == 1 then (missed, kept + 1) else (missed + 1, kept)
  }

  /** A follow-up on a date with several visits is missed, not kept. */
  lemma CrowdedFollowupIsMissed(h: seq<Visit>, fs: seq<Date>)
    requires fs != [] && VisitsOn(h, fs[|fs| - 1]) != 1
    ensures Tally(h, fs).0 == Tally(h, fs[..|fs| - 1]).0 + 1
    ensures Tally(h, fs).1 == Tally(h, fs[..|fs| - 1]).1
  {
  }

  /** Two visits, on 2017-10-23 and 2017-11-30, booking follow-ups on
      2017-11-30 and 2017-12-02: the first follow-up is kept, the second
      missed. */
  lemma TallyTwoVisitsExample(v1: Visit, v2: Visit)
    requires v1.date == 17462 && v1.followup == Some(17500)
    requires v2.date == 17500 && v2.followup == Some(17502)
    ensures Tally([v1, v2], FollowupDates([v1, v2])) == (1, 1)
  {
    var h := [v1, v2];
    assert h[..1] == [v1] && [v1][..0] == [];
    assert FollowupDates([v1]) == [17500];
    assert FollowupDates(h) == [17500, 17502];
    assert VisitsOn([v1], 17500) == 0;
    assert VisitsOn([v1], 17502) == 0;
    assert VisitsOn(h, 17500) == 1;
    assert VisitsOn(h, 17502) == 0;
    assert [17500, 17502][..1] == [17500] && [17500][..0] == [];
  }

  /** A visit on 2020-01-10 booking 2020-01-20, and a visit on 2020-01-20
      without a follow-up: one kept follow-up and none missed. */
  lemma TallyKeptExample(v1: Visit, v2: Visit)
    requires v1.date == 18271 && v1.followup == Some(18281)
    requires v2.date == 18281 && v2.followup == None
    ensures Tally([v1, v2], FollowupDates([v1, v2])) == (0, 1)
  {
    var h := [v1, v2];
    assert h[..1] == [v1] && [v1][..0] == [];
    assert FollowupDates([v1]) == [18281];
    assert FollowupDates(h) == [18281];
    assert VisitsOn([v1], 18281) == 0;
    assert VisitsOn(h, 18281) == 1;
    assert [18281][..0] == [];
  }

  /** The number of visits whose follow-up falls in [lo, hi]. */
  function FollowupsWithin(h: seq<Visit>, lo: Date, hi: Date): (n: nat)
  {
    if h == [] then 0
    else
      var f := h[|h| - 1].followup;
      FollowupsWithin(h[..|h| - 1], lo, hi) + (if f.Some? && lo <= f.value <= hi then 1 else 0)
  }

  /** A history contributes a reminder exactly when one of its follow-ups
      falls in [lo, hi]. */
  lemma {:induction false} FollowupsWithinPositive(h: seq<Visit>, lo: Date, hi: Date)
    ensures 0 < FollowupsWithin(h, lo, hi) <==>
            exists i :: 0 <= i < |h| && h[i].followup.Some? && lo <= h[i].followup.value <= hi
  {
    if h != [] {
      var init := h[..|h| - 1];
      FollowupsWithinPositive(init, lo, hi);
      assert forall i :: 0 <= i < |init| ==> init[i] == h[i];
    }
  }

  // ---------------------------------------------------------------------
  // Visits by doctor

  /** The visit at position i was with doctor `id` on a day in [s, e]. */
  predicate SeenBy(h: seq<Visit>, i: int, id: int, s: Date, e: Date)
    requires 0 <= i < |h|
  {
    h[i].doctorId == id && s <= h[i].date <= e
  }

  /** The history has a visit with doctor `id` on a day in [s, e]. */
  predicate SawDoctor(h: seq<Visit>, id: int, s: Date, e: Date)
  {
    exists i :: 0 <= i < |h| && SeenBy(h, i, id, s, e)
  }

  /** Looking at one more visit finds the doctor exactly when it was seen
      before or that visit is with them in range. */
  lemma SawDoctorStep(h: seq<Visit>, j: int, id: int, s: Date, e: Date)
    requires 0 <= j < |h|
    ensures SawDoctor(h[..j + 1], id, s, e) <==> SawDoctor(h[..j], id, s, e) || SeenBy(h, j, id, s, e)
  {
    var h' := h[..j + 1];
    assert forall i :: 0 <= i <= j ==> h'[i] == h[i];
    if SawDoctor(h', id, s, e) && !SeenBy(h, j, id, s, e) {
      var i :| 0 <= i < |h'| && SeenBy(h', i, id, s, e);
      assert SeenBy(h[..j], i, id, s, e);
    }
    if SawDoctor(h[..j], id, s, e) {
      var i :| 0 <= i < j && SeenBy(h[..j], i, id, s, e);
      assert SeenBy(h', i, id, s, e);
    }
    if SeenBy(h, j, id, s, e) {
      assert SeenBy(h', j, id, s, e);
    }
  }

  /** The number of visits with doctor `id` on a day in [s, e]. */
  function VisitsBy(h: seq<Visit>, id: int, s: Date, e: Date): (n: nat)
  {
    if h == [] then 0
    else VisitsBy(h[..|h| - 1], id, s, e) + (if SeenBy(h, |h| - 1, id, s, e) then 1 else 0)
  }

  lemma VisitsByStep(h: seq<Visit>, j: int, id: int, s: Date, e: Date)
    requires 0 <= j < |h|
    ensures VisitsBy(h[..j + 1], id, s, e) == VisitsBy(h[..j], id, s, e) + (if SeenBy(h, j, id, s, e) then 1 else 0)
  {
    assert h[..j + 1][..j] == h[..j];
  }

  /** The visits of doctor `id` that prescribed something: the pair counts
      those that prescribed `medication` and those that prescribed anything. */
  function Prescriptions(h: seq<Visit>, id: int, medication: string): (r: (nat, nat))
    ensures r.0 <= r.1 <= |h|
  {
    if h == [] then (0, 0)
    else
      var (yes, any) := Prescriptions(h[..|h| - 1], id, medication);
      var v := h[|h| - 1];
      if v.doctorId == id && v.prescribed == Some(medication) then (yes + 1, any + 1)
      else if v.doctorId == id && v.prescribed.Some? then (yes, any + 1)
      else (yes, any)
  }

  /** The doctor prescribed nothing exactly when none of their visits has a
      prescription. */
  lemma {:induction false} NoPrescriptions(h: seq<Visit>, id: int, medication: string)
    ensures Prescriptions(h, id, medication).1 == 0 <==>
            forall i :: 0 <= i < |h| && h[i].doctorId == id ==> h[i].prescribed.None?
  {
    if h != [] {
      var init := h[..|h| - 1];
      NoPrescriptions(init, id, medication);
      assert forall i :: 0 <= i < |init| ==> init[i] == h[i];
    }
  }

  /** Doctor 7 prescribed A on one visit and B on another: A accounts for one
      of two prescriptions, C for none. */
  lemma PrescriptionsExample(v1: Visit, v2: Visit)
    requires v1.doctorId == 7 && v1.prescribed == Some("A")
    requires v2.doctorId == 7 && v2.prescribed == Some("B")
    ensures Prescriptions([v1, v2], 7, "A") == (1, 2)
    ensures Prescriptions([v1, v2], 7, "C") == (0, 2)
  {
    assert [v1, v2][..1] == [v1] && [v1][..0] == [];
  }

  /** The doctor ids of the history, each once, in order of first appearance. */
  function DoctorIds(h: seq<Visit>): (ids: seq<int>)
    ensures forall x :: x in ids <==> exists i :: 0 <= i < |h| && h[i].doctorId == x
    ensures forall j, k :: 0 <= j < k < |ids| ==> ids[j] != ids[k]
  {
    if h == [] then []
    else
      var init := h[..|h| - 1];
      var earlier := DoctorIds(init);
      assert forall i :: 0 <= i < |init| ==> init[i] == h[i];
      var id := h[|h| - 1].doctorId;
      if id in earlier then earlier else earlier + [id]
  }
}
