/** The hospital: its doctors, its patients and the attendance log, with the
    operations that add to them and the queries that scan them.  Each query
    is a loop proved against the function of the same meaning in
    HospitalSpec. */
module Hospitals {
  import opened Wrappers
  import opened Calendar
  import opened Visits
  import opened Doctors
  import opened Patients
  import opened HospitalSpec

  class Hospital {
    const address: string
    /** The doctors, in the order they were hired. */
    var doctors: seq<Doctor>
    /** The patients, in the order they were admitted. */
    var patients: seq<Patient>
    /** One roll per day, in the order the days were recorded. */
    var attendance: seq<Roll>
    /** The visits of each day; no query reads it. */
    var admissions: map<Date, seq<Visit>>

    /** Doctor ids are unique and the log has one roll per day. */
    ghost predicate Valid()
      reads this
    {
      DistinctDoctorIds(doctors) && DistinctDays(attendance)
    }

    constructor (address: string)
      ensures this.address == address
      ensures doctors == [] && patients == [] && attendance == [] && admissions == map[]
      ensures Valid()
    {
      this.address := address;
      doctors := [];
      patients := [];
      attendance := [];
      admissions := map[];
    }

    /** Adds `patient` at the end of the patients. */
    method AdmitPatient(patient: Patient)
      modifies this
      ensures patients == old(patients) + [patient]
      ensures doctors == old(doctors) && attendance == old(attendance) && admissions == old(admissions)
      ensures old(Valid()) ==> Valid()
    {
      patients := patients + [patient];
    }

    /** Adds `doctor` at the end of the doctors; the caller supplies a doctor
        whose id no doctor of the hospital has. */
    method HireDoctor(doctor: Doctor)
      requires forall i :: 0 <= i < |doctors| ==> doctors[i].id != doctor.id
      modifies this
      ensures doctors == old(doctors) + [doctor]
      ensures patients == old(patients) && attendance == old(attendance) && admissions == old(admissions)
      ensures old(Valid()) ==> Valid()
    {
      doctors := doctors + [doctor];
    }

    /** Empties every doctor's schedule, month by month, and lists the
        doctors' names in order: the step that prepares the doctors for a
        freshly read set of schedules. */
    method ClearSchedules() returns (names: seq<string>)
      modifies doctors
      ensures |names| == |doctors| && forall i :: 0 <= i < |doctors| ==> names[i] == doctors[i].name
      ensures forall i :: 0 <= i < |doctors| ==> doctors[i].schedule == EmptySchedule
      ensures ProjectedCost(doctors) == 0
    {
      names := [];
      for i := 0 to |doctors|
        invariant |names| == i && forall k :: 0 <= k < i ==> names[k] == doctors[k].name
        invariant forall k :: 0 <= k < i ==> doctors[k].schedule == EmptySchedule
      {
        var doctor := doctors[i];
        names := names + [doctor.name];
        for m := 0 to 12
          invariant forall k :: 0 <= k < i && doctors[k] != doctor ==> doctors[k].schedule == EmptySchedule
          invariant forall n :: 0 <= n < m ==> doctor.schedule[n] == []
        {
          doctor.schedule := doctor.schedule[m := []];
        }
        assert doctor.schedule == EmptySchedule;
      }
      ProjectedCostOfClearedSchedules(doctors);
    }

    /** The pay of every doctor for every day their schedule lists. */
    method ProjectedExpenses() returns (total: nat)
      ensures total == ProjectedCost(doctors)
    {
      total := 0;
      for i := 0 to |doctors|
        invariant total == ProjectedCost(doctors[..i])
      {
        var doctor := doctors[i];
        var before := total;
        for m := 0 to 12
          invariant total == before + doctor.salary * DaysUpTo(doctor.schedule, m)
        {
          total := total + doctor.salary * |doctor.schedule[m]|;
        }
        assert doctors[..i + 1][..i] == doctors[..i];
      }
      assert doctors[..|doctors|] == doctors;
    }

    /** The pay for every name on every roll: each doctor earns their daily
        pay for each day they are on the roll, and a name that is no
        doctor's earns nothing. */
    method ActualExpenses() returns (total: nat)
      ensures total == AttendanceCost(doctors, attendance)
      ensures total == PayByAttendance(doctors, attendance)
    {
      total := 0;
      for i := 0 to |attendance|
        invariant total == AttendanceCost(doctors, attendance[..i])
      {
        var names := attendance[i].present;
        var before := total;
        for j := 0 to |names|
          invariant total == before + RollCost(doctors, names[..j])
        {
          var name := names[j];
          var earlier := total;
          for k := 0 to |doctors|
            invariant total == earlier + PayFor(doctors[..k], name)
          {
            assert doctors[..k + 1][..k] == doctors[..k];
            if doctors[k].name == name {
              total := total + doctors[k].salary;
            }
          }
          assert doctors[..|doctors|] == doctors;
          assert names[..j + 1][..j] == names[..j];
        }
        assert names[..|names|] == names;
        assert attendance[..i + 1][..i] == attendance[..i];
      }
      assert attendance[..|attendance|] == attendance;
      AttendanceCostIsPayByAttendance(doctors, attendance);
    }

    /** Each patient once for every follow-up of theirs within `delta` days
        from `date`, both ends included. */
    method Reminders(date: Date, delta: int) returns (followUps: seq<Patient>)
      ensures followUps == RemindersOf(patients, date, date + delta)
      ensures forall p :: p in followUps <==>
                p in patients && exists i :: 0 <= i < |p.history| && p.history[i].followup.Some? &&
                                            date <= p.history[i].followup.value <= date + delta
    {
      var newTime := date + delta;
      followUps := [];
      for i := 0 to |patients|
        invariant followUps == RemindersOf(patients[..i], date, newTime)
      {
        var patient := patients[i];
        var before := followUps;
        for j := 0 to |patient.history|
          invariant followUps == before + Repeat(patient, FollowupsWithin(patient.history[..j], date, newTime))
        {
          var visit := patient.history[j];
          assert patient.history[..j + 1][..j] == patient.history[..j];
          if visit.followup.Some? && date <= visit.followup.value <= newTime {
            var n := FollowupsWithin(patient.history[..j], date, newTime);
            assert Repeat(patient, n + 1) == Repeat(patient, n) + [patient];
            followUps := followUps + [patient];
          }
        }
        assert patient.history[..|patient.history|] == patient.history;
        assert patients[..i + 1][..i] == patients[..i];
      }
      assert patients[..|patients|] == patients;
      forall p
        ensures p in followUps <==>
                p in patients && exists i :: 0 <= i < |p.history| && p.history[i].followup.Some? &&
                                            date <= p.history[i].followup.value <= newTime
      {
        RemindersMembers(patients, date, newTime, p);
      }
    }

    /** The number of patients, told apart by id, with a visit to `doctor`
        between `startDate` and `endDate` inclusive. */
    method PatientsSeen(doctor: Doctor, startDate: Date, endDate: Date) returns (total: nat)
      ensures total == |SeenIds(patients, doctor.id, startDate, endDate)|
      ensures total <= |patients|
    {
      total := 0;
      var tempList: seq<Patient> := [];
      for i := 0 to |patients|
        invariant total == |tempList|
        invariant IdsOf(tempList) == SeenIds(patients[..i], doctor.id, startDate, endDate)
        invariant forall k :: 0 <= k < |tempList| ==> tempList[k].id !in IdsOf(tempList[..k])
      {
        var patient := patients[i];
        var h := patient.history;
        ghost var before := IdsOf(tempList);
        ghost var saw := false;
        for j := 0 to |h|
          invariant total == |tempList|
          invariant saw == SawDoctor(h[..j], doctor.id, startDate, endDate)
          invariant IdsOf(tempList) == before + (if saw then {patient.id} else {})
          invariant forall k :: 0 <= k < |tempList| ==> tempList[k].id !in IdsOf(tempList[..k])
        {
          var visit := h[j];
          var qualifies := visit.doctorId == doctor.id && startDate <= visit.date <= endDate;
          SawDoctorStep(h, j, doctor.id, startDate, endDate);
          SeenVisitStep(IdsOf(tempList), before, patient.id, saw, saw || qualifies, qualifies);
          if qualifies && patient.id !in IdsOf(tempList) {
            IdsOfAppend(tempList, patient);
            var earlier := tempList;
            total := total + 1;
            tempList := tempList + [patient];
            assert forall k :: 0 <= k <= |earlier| ==> tempList[..k] == earlier[..k];
          }
          saw := saw || qualifies;
        }
        assert h[..|h|] == h;
        SeenIdsStep(patients, i, doctor.id, startDate, endDate);
      }
      assert patients[..|patients|] == patients;
      IdsOfCount(tempList);
      SeenIdsBound(patients, doctor.id, startDate, endDate);
    }

    /** For each doctor's id, the number of visits, over all patients, with
        that doctor between `startDate` and `endDate` inclusive: the counts
        the busiest doctors are chosen by. */
    method VisitCounts(startDate: Date, endDate: Date) returns (docNums: map<int, nat>)
      requires Valid()
      ensures forall k :: 0 <= k < |doctors| ==>
                doctors[k].id in docNums && docNums[doctors[k].id] == VisitsTo(patients, doctors[k].id, startDate, endDate)
    {
      docNums := map[];
      for i := 0 to |doctors|
        invariant forall k :: 0 <= k < i ==> doctors[k].id in docNums && docNums[doctors[k].id] == 0
      {
        docNums := docNums[doctors[i].id := 0];
      }
      for i := 0 to |patients|
        invariant forall k :: 0 <= k < |doctors| ==>
                    doctors[k].id in docNums && docNums[doctors[k].id] == VisitsTo(patients[..i], doctors[k].id, startDate, endDate)
      {
        var h := patients[i].history;
        for j := 0 to |h|
          invariant forall k :: 0 <= k < |doctors| ==>
                      doctors[k].id in docNums &&
                      docNums[doctors[k].id] == VisitsTo(patients[..i], doctors[k].id, startDate, endDate) +
                                                VisitsBy(h[..j], doctors[k].id, startDate, endDate)
        {
          var visit := h[j];
          ghost var base := docNums;
          for l := 0 to |doctors|
            invariant forall k :: 0 <= k < |doctors| ==>
                        doctors[k].id in docNums &&
                        docNums[doctors[k].id] ==
                          base[doctors[k].id] + (if k < l && SeenBy(h, j, doctors[k].id, startDate, endDate) then 1 else 0)
          {
            var doctor := doctors[l];
            if visit.doctorId == doctor.id && startDate <= visit.date <= endDate {
              docNums := docNums[doctor.id := docNums[doctor.id] + 1];
            }
          }
          forall k | 0 <= k < |doctors|
            ensures VisitsBy(h[..j + 1], doctors[k].id, startDate, endDate) ==
                    VisitsBy(h[..j], doctors[k].id, startDate, endDate) +
                      (if SeenBy(h, j, doctors[k].id, startDate, endDate) then 1 else 0)
          {
            VisitsByStep(h, j, doctors[k].id, startDate, endDate);
          }
        }
        assert h[..|h|] == h;
        forall k | 0 <= k < |doctors|
          ensures VisitsTo(patients[..i + 1], doctors[k].id, startDate, endDate) ==
                  VisitsTo(patients[..i], doctors[k].id, startDate, endDate) + VisitsBy(h, doctors[k].id, startDate, endDate)
        {
          VisitsToStep(patients, i, doctors[k].id, startDate, endDate);
        }
      }
      assert patients[..|patients|] == patients;
    }

    /** The doctors, in hiring order, whose number of visits between
        `startDate` and `endDate` inclusive is the largest: ties are all
        kept, and every doctor is returned when no visit is in range. */
    method BusiestDoctors(startDate: Date, endDate: Date) returns (highest: seq<Doctor>)
      requires Valid()
      ensures highest == Busiest(doctors, patients, startDate, endDate)
    {
      var docNums := VisitCounts(startDate, endDate);
      highest := [];
      var high := 0;
      for k := 0 to |doctors|
        invariant high == TopCount(doctors[..k], patients, startDate, endDate)
        invariant highest == DoctorsWithCount(doctors[..k], patients, startDate, endDate, high)
      {
        var doctor := doctors[k];
        var count := docNums[doctor.id];
        if count == high {
          BusiestStep(doctors, patients, startDate, endDate, k, high);
          highest := highest + [doctor];
        } else if count > high {
          BusiestStep(doctors, patients, startDate, endDate, k, count);
          NoneAboveTop(doctors[..k], patients, startDate, endDate, count);
          high := count;
          highest := [doctor];
        } else {
          BusiestStep(doctors, patients, startDate, endDate, k, high);
        }
      }
      assert doctors[..|doctors|] == doctors;
    }

    /** The days `bob` covered for `alice`: each day of the log that lists
        bob and not alice, once for every month of alice's schedule that
        lists that day.  Bob's own schedule is not consulted. */
    method Coverage(bob: Doctor, alice: Doctor) returns (covered: seq<Date>)
      ensures covered == CoverageDays(attendance, bob.name, alice.name, alice.schedule)
      ensures forall x :: x in covered <==>
                Scheduled(alice.schedule, x) &&
                exists i :: 0 <= i < |attendance| && attendance[i].day == x &&
                            bob.name in attendance[i].present && alice.name !in attendance[i].present
    {
      covered := [];
      for i := 0 to |attendance|
        invariant covered == CoverageDays(attendance[..i], bob.name, alice.name, alice.schedule)
      {
        var roll := attendance[i];
        var before := covered;
        for m := 0 to 12
          invariant covered == before + CoveredOn(roll, bob.name, alice.name, alice.schedule, m)
        {
          if roll.day in alice.schedule[m] && bob.name in roll.present && alice.name !in roll.present {
            covered := covered + [roll.day];
          }
        }
        assert attendance[..i + 1][..i] == attendance[..i];
      }
      assert attendance[..|attendance|] == attendance;
      forall x
        ensures x in covered <==>
                Scheduled(alice.schedule, x) &&
                exists i :: 0 <= i < |attendance| && attendance[i].day == x &&
                            bob.name in attendance[i].present && alice.name !in attendance[i].present
      {
        CoverageMembers(attendance, bob.name, alice.name, alice.schedule, x);
      }
    }

    /** The days `doctor` was sick: their scheduled days, month by month,
        whose roll does not list them.  A scheduled day without a roll is
        not a sick day. */
    method SickDays(doctor: Doctor) returns (sick: seq<Date>)
      ensures sick == SickDaysOf(doctor.schedule, attendance, doctor.name)
      ensures forall x :: x in sick <==>
                Scheduled(doctor.schedule, x) &&
                exists i :: 0 <= i < |attendance| && attendance[i].day == x && doctor.name !in attendance[i].present
      ensures DistinctDays(attendance) ==> |sick| <= ScheduledDays(doctor.schedule)
    {
      sick := [];
      for m := 0 to 12
        invariant sick == SickUpTo(doctor.schedule, attendance, doctor.name, m)
      {
        var days := doctor.schedule[m];
        var before := sick;
        for j := 0 to |days|
          invariant sick == before + AbsentDays(days[..j], attendance, doctor.name)
        {
          var day := days[j];
          var earlier := sick;
          for k := 0 to |attendance|
            invariant sick == earlier + Repeat(day, AbsentOn(attendance[..k], day, doctor.name))
          {
            var roll := attendance[k];
            var n := AbsentOn(attendance[..k], day, doctor.name);
            assert attendance[..k + 1][..k] == attendance[..k];
            if day == roll.day && doctor.name !in roll.present {
              assert Repeat(day, n + 1) == Repeat(day, n) + [day];
              sick := sick + [day];
            }
          }
          assert attendance[..|attendance|] == attendance;
          assert days[..j + 1][..j] == days[..j];
        }
        assert days[..|days|] == days;
      }
      forall x
        ensures x in sick <==>
                Scheduled(doctor.schedule, x) &&
                exists i :: 0 <= i < |attendance| && attendance[i].day == x && doctor.name !in attendance[i].present
      {
        SickDaysMembers(doctor.schedule, attendance, doctor.name, x);
      }
      if DistinctDays(attendance) {
        SickDaysBound(doctor.schedule, attendance, doctor.name);
      }
    }

    /** The doctors, in hiring order, who attended to `patient`: those whose
        id is the doctor id of one of the patient's visits. */
    method AttendedTo(patient: Patient) returns (attending: seq<Doctor>)
      ensures attending == DoctorsAmong(doctors, DoctorIds(patient.history))
      ensures forall d :: d in attending <==>
                d in doctors && exists i :: 0 <= i < |patient.history| && patient.history[i].doctorId == d.id
      ensures DistinctDoctorIds(doctors) ==> DistinctDoctorIds(attending)
    {
      var h := patient.history;
      var ids: seq<int> := [];
      for j := 0 to |h|
        invariant ids == DoctorIds(h[..j])
      {
        assert h[..j + 1][..j] == h[..j];
        if h[j].doctorId !in ids {
          ids := ids + [h[j].doctorId];
        }
      }
      assert h[..|h|] == h;
      attending := [];
      for k := 0 to |doctors|
        invariant attending == DoctorsAmong(doctors[..k], ids)
      {
        assert doctors[..k + 1][..k] == doctors[..k];
        if doctors[k].id in ids {
          attending := attending + [doctors[k]];
        }
      }
      assert doctors[..|doctors|] == doctors;
      forall d
        ensures d in attending <==>
                d in doctors && exists i :: 0 <= i < |h| && h[i].doctorId == d.id
      {
        DoctorsAmongMembers(doctors, ids, d);
      }
      if DistinctDoctorIds(doctors) {
        DoctorsAmongDistinct(doctors, ids);
      }
    }

    /** The share, in percent, of `doctor`'s prescriptions that were
        `medication`; there is none when the doctor prescribed nothing. */
    method PrescribedRate(doctor: Doctor, medication: string) returns (rate: Option<real>)
      ensures rate == Rate(RateCounts(patients, doctor.id, medication))
    {
      var mediYes, mediAny := 0, 0;
      for i := 0 to |patients|
        invariant mediYes == RateCounts(patients[..i], doctor.id, medication).0
        invariant mediAny == RateCounts(patients[..i], doctor.id, medication).1
      {
        var h := patients[i].history;
        var yesBefore, anyBefore := mediYes, mediAny;
        for j := 0 to |h|
          invariant mediYes == yesBefore + Prescriptions(h[..j], doctor.id, medication).0
          invariant mediAny == anyBefore + Prescriptions(h[..j], doctor.id, medication).1
        {
          var visit := h[j];
          assert h[..j + 1][..j] == h[..j];
          if visit.doctorId == doctor.id && visit.prescribed == Some(medication) {
            mediAny := mediAny + 1;
            mediYes := mediYes + 1;
          } else if visit.doctorId == doctor.id && visit.prescribed.Some? {
            mediAny := mediAny + 1;
          }
        }
        assert h[..|h|] == h;
        RateCountsStep(patients, i, doctor.id, medication);
      }
      assert patients[..|patients|] == patients;
      if mediAny == 0 {
        rate := None;
      } else {
        rate := Some((mediYes as real / mediAny as real) * 100.0);
      }
    }
  }
}
