/** A patient: identity and the history of their hospital visits, with the
    queries a patient answers about that history. */
module Patients {
  import opened Wrappers
  import opened Calendar
  import opened Visits

  class Patient {
    const name: string
    /** Unique among patients; equality and order are by id. */
    const id: int
    /** The visits of this patient, oldest first; it only grows. */
    var history: seq<Visit>

    constructor (name: string, id: int)
      ensures this.name == name && this.id == id && history == []
    {
      this.name := name;
      this.id := id;
      history := [];
    }

    /** Patients are equal when their ids are. */
    predicate SamePatient(other: Patient)
    {
      id == other.id
    }

    /** Patients are ordered by id. */
    predicate Precedes(other: Patient)
    {
      id < other.id
    }

    /** Records one more visit at the end of the history. */
    method AddVisit(v: Visit)
      modifies this
      ensures history == old(history) + [v]
    {
      history := history + [v];
    }

    /** Whether some visit prescribed `medication`. */
    method IsPrescribed(medication: string) returns (b: bool)
      ensures b <==> exists i :: 0 <= i < |history| && history[i].prescribed == Some(medication)
    {
      for i := 0 to |history|
        invariant forall k :: 0 <= k < i ==> history[k].prescribed != Some(medication)
      {
        if history[i].prescribed == Some(medication) {
          return true;
        }
      }
      return false;
    }

    /** The follow-up dates that fall in the month labelled `month`; an
        unknown label selects the month number 0, which no date has. */
    method Followups(month: string) returns (fs: seq<Date>)
      ensures fs == FollowupsInMonth(history, MonthNumber(month))
      ensures forall x :: x in fs <==>
                exists i :: 0 <= i < |history| && history[i].followup == Some(x) &&
                            MonthNumber(month) == MonthOf(x)
      ensures month !in MonthAbbrev ==> fs == []
    {
      var intMonth := 0;
      for i := 0 to |MonthAbbrev|
        invariant intMonth <= i
        invariant intMonth == 0 <==> month !in MonthAbbrev[..i]
        invariant 0 < intMonth ==> MonthAbbrev[intMonth - 1] == month
      {
        if MonthAbbrev[i] == month {
          intMonth := i + 1;
        }
      }
      MonthAbbrevDistinct();
      assert MonthAbbrev[..|MonthAbbrev|] == MonthAbbrev;
      assert intMonth == MonthNumber(month);

      fs := [];
      for j := 0 to |history|
        invariant fs == FollowupsInMonth(history[..j], intMonth)
      {
        var v := history[j];
        assert history[..j + 1][..j] == history[..j];
        if v.followup.Some? && MonthOf(v.followup.value) == intMonth {
          fs := fs + [v.followup.value];
        }
      }
      assert history[..|history|] == history;
      forall x
        ensures x in fs <==>
                exists i :: 0 <= i < |history| && history[i].followup == Some(x) &&
                            intMonth == MonthOf(x)
      {
        FollowupsInMonthMembers(history, intMonth, x);
      }
      if intMonth == 0 {
        FollowupsOutsideYear(history, intMonth);
      }
    }

    /** The prescriptions of the visits strictly after `date`, with repeats,
        in history order. */
    method PrescribedAfter(date: Date) returns (meds: seq<Option<string>>)
      ensures meds == PrescribedSince(history, date)
    {
      meds := [];
      for j := 0 to |history|
        invariant meds == PrescribedSince(history[..j], date)
      {
        var v := history[j];
        assert history[..j + 1][..j] == history[..j];
        if date < v.date {
          meds := meds + [v.prescribed];
        }
      }
      assert history[..|history|] == history;
    }

    /** The follow-ups that were missed and kept: a follow-up is kept when
        exactly one visit of the history falls on its date. */
    method MissedFollowups() returns (missed: nat, kept: nat)
      ensures (missed, kept) == Tally(history, FollowupDates(history))
      ensures missed + kept == |FollowupDates(history)|
    {
      var followUps := [];
      for j := 0 to |history|
        invariant followUps == FollowupDates(history[..j])
      {
        assert history[..j + 1][..j] == history[..j];
        if history[j].followup.Some? {
          followUps := followUps + [history[j].followup.value];
        }
      }
      assert history[..|history|] == history;

      kept, missed := 0, 0;
      for k := 0 to |followUps|
        invariant (missed, kept) == Tally(history, followUps[..k])
      {
        var followUp := followUps[k];
        var temp := 0;
        for j := 0 to |history|
          invariant temp == VisitsOn(history[..j], followUp)
        {
          assert history[..j + 1][..j] == history[..j];
          if history[j].date == followUp {
            temp := temp + 1;
          }
        }
        assert history[..|history|] == history;
        assert followUps[..k + 1][..k] == followUps[..k];
        if temp == 1 {
          kept := kept + 1;
        } else {
          missed := missed + 1;
        }
      }
      assert followUps[..|followUps|] == followUps;
    }
  }

  /** Equality by id is an equivalence, and the order by id puts any two
      patients that are not equal one before the other. */
  lemma PatientOrderIsTotal(a: Patient, b: Patient)
    ensures a.SamePatient(a)
    ensures a.SamePatient(b) <==> b.SamePatient(a)
    ensures !a.Precedes(a)
    ensures a.Precedes(b) || b.Precedes(a) || a.SamePatient(b)
    ensures !(a.Precedes(b) && b.Precedes(a))
  {
  }
}
