/** A doctor: identity, daily pay and the days they are scheduled to work. */
module Doctors {
  import opened Calendar

  /** The schedule holds, for each month Jan .. Dec (positions 0 .. 11), the
      days the doctor is due to work, in the order they were added. */
  type Schedule = s: seq<seq<Date>> | |s| == 12 witness EmptySchedule

  /** The schedule of a newly hired doctor: twelve empty months. */
  const EmptySchedule: seq<seq<Date>> := seq(12, _ => [])

  /** The number of scheduled days in the first k months. */
  function DaysUpTo(s: Schedule, k: nat): nat
    requires k <= 12
  {
    if k == 0 then 0 else DaysUpTo(s, k - 1) + |s[k - 1]|
  }

  /** The number of scheduled days in the whole year. */
  function ScheduledDays(s: Schedule): nat
  {
    DaysUpTo(s, 12)
  }

  /** Day `day` is listed under some month of the schedule. */
  predicate Scheduled(s: Schedule, day: Date)
  {
    exists m :: 0 <= m < 12 && day in s[m]
  }

  /** An empty schedule has no scheduled day. */
  lemma {:induction false} EmptyScheduleHasNoDays(k: nat)
    requires k <= 12
    ensures DaysUpTo(EmptySchedule, k) == 0
  {
    if k > 0 {
      EmptyScheduleHasNoDays(k - 1);
    }
  }

  class Doctor {
    const name: string
    /** Unique among the hospital's doctors; equality and order are by id. */
    const id: int
    /** Daily pay, in cents. */
    const salary: nat
    var schedule: Schedule

    constructor (name: string, id: int, salary: nat)
      ensures this.name == name && this.id == id && this.salary == salary
      ensures schedule == EmptySchedule
    {
      this.name := name;
      this.id := id;
      this.salary := salary;
      schedule := EmptySchedule;
    }

    /** Doctors are equal when their ids are. */
    predicate SameDoctor(other: Doctor)
    {
      id == other.id
    }

    /** Doctors are ordered by id. */
    predicate Precedes(other: Doctor)
    {
      id < other.id
    }

    /** Adds `day` to the days listed under the month labelled `month`
        ("Jan" .. "Dec"); any other label is not a key of the schedule. */
    method AddWorkday(month: string, day: Date)
      requires month in MonthAbbrev
      modifies this
      ensures var m := MonthNumber(month) - 1;
              schedule == old(schedule)[m := old(schedule)[m] + [day]]
    {
      var m := MonthNumber(month) - 1;
      schedule := schedule[m := schedule[m] + [day]];
    }
  }

  /** Equality by id is an equivalence, and the order by id puts any two
      doctors that are not equal one before the other. */
  lemma DoctorOrderIsTotal(a: Doctor, b: Doctor)
    ensures a.SameDoctor(a)
    ensures a.SameDoctor(b) <==> b.SameDoctor(a)
    ensures !a.Precedes(a)
    ensures a.Precedes(b) || b.Precedes(a) || a.SameDoctor(b)
    ensures !(a.Precedes(b) && b.Precedes(a))
  {
  }
}
