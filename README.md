# Hospital records model

A Dafny model of `hospital.py`, an in-memory record keeper for a hospital. It
holds doctors with daily pay and monthly work schedules, and patients with a
history of visits. It also holds an attendance log that gives, for each day,
the names of the doctors who came in. On top of that data it answers queries:
- expenses, projected from the schedules and actual from the attendance;
- follow-up reminders;
- how many patients a doctor saw, and who was busiest;
- who covered for whom, and who was sick;
- which doctors attended to a patient, and how often a doctor prescribed a
  given medication.

The model keeps the program's shape. `Doctor`, `Patient` and `Hospital` are
classes whose state is held in fields. The schedule, the history and the
doctor and patient lists are reassigned by the methods that change them
(`AddWorkday`, `ClearSchedules`, `AddVisit`, `AdmitPatient`, `HireDoctor`).
The attendance log and the admissions map are fields that only the file
loaders fill, so no method of the model writes them. Every query is a method
with the same nested loops as the Python code, and each method is proved
equal to a specification function over the same state. The lemmas about
those functions state what the query means: which elements are returned,
and the bounds and invariants the documentation promises. Two queries also
have their repeats counted: `prescribed_after` lists a prescription once per
visit after the date that carried it (`Visits.PrescribedSinceCount`), and
`reminders` lists a patient once per qualifying follow-up
(`HospitalSpec.RemindersMultiplicity`).

Files and modules:
- `wrappers.dfy` (`Wrappers`): the `Option` type used for a missing
  prescription or follow-up.
- `calendar.dfy` (`Calendar`): dates as day ordinals (days since 1970-01-01),
  the month labels, and the month of a date.
- `visits.dfy` (`Visits`): the visit record and the functions over one
  patient's history that the queries are specified by.
- `doctors.dfy` (`Doctors`): the schedule (twelve month lists) and the
  `Doctor` class.
- `patients.dfy` (`Patients`): the `Patient` class with its four history
  queries.
- `hospital_spec.dfy` (`HospitalSpec`): the specification functions of the
  hospital-wide queries and the lemmas about them.
- `hospital.dfy` (`Hospitals`): the `Hospital` class with its mutators and
  queries.

Where the docstrings and the code disagree, the model follows the code:
- `prescribed_after` is documented as inclusive, but it keeps only visits
  strictly after the date (`hospital.py:330`).
- `busiest_doctors` is documented as counting unique patients, but it counts
  visits (`hospital.py:714-717`).
- `coverage` documents a first condition, "bob was not scheduled", that the
  code never checks (`hospital.py:752-757`). The model reports a day even
  when bob was scheduled on it, and `HospitalSpec.CoverageOfScheduledDoctor`
  shows such a day.

## Model

| member | source | states |
|---|---|---|
| Calendar.MonthAbbrevDistinct | hospital.py:22-23 | there are twelve month labels and no two are equal |
| Calendar.MonthNumber | hospital.py:277-280 | the number of a label is its 1-based position among the month labels; it is 0 exactly when the string is not a label |
| Calendar.MonthOf | hospital.py:285 | the month of any date lies in 1..12 |
| Calendar.MonthOfExamples | hospital.py:285 | 1969-12-31 is in December, 1970-01-01 in January, 2000-02-29 in February |
| Visits.SameVisitIsEquivalence | hospital.py:95-105 | visit equality on (date, doctor id, patient id) is an equivalence and ignores diagnosis, prognosis, prescription and follow-up |
| Visits.PrescribedSinceMembers | hospital.py:328-332 | a prescription is listed after day d exactly when a visit strictly after d carried it |
| Visits.CountAfter | hospital.py:328-332 | the number of visits strictly after d carrying the prescription is at most the history length, and 0 exactly when no such visit exists |
| Visits.PrescribedSinceCount | hospital.py:293-332 | a prescription is listed as many times as there are visits strictly after d carrying it |
| Visits.PrescribedSinceShrinks | hospital.py:328-332 | a later cut-off day lists a sub-multiset of the prescriptions |
| Visits.PrescribesIffListedSince | hospital.py:241-244 | with a cut-off before every visit, a medication is listed exactly when some visit prescribed it |
| Visits.PrescribedSinceExample | hospital.py:307-310 | the docstring visit of 2017-10-23 is listed after 2017-10-22, not after its own day, not after 2017-12-01 |
| Visits.FollowupsInMonthMembers | hospital.py:282-287 | a date is listed for a month exactly when a visit booked it as follow-up and it falls in that month |
| Visits.FollowupsOutsideYear | hospital.py:277-287 | a month number outside 1..12 lists nothing |
| Visits.FollowupsPartitionByMonth | hospital.py:282-287 | over the twelve months every booked follow-up is listed exactly once |
| Visits.VisitsOnCountsPositions | hospital.py:378-381 | the per-date visit count is the number of history positions on that date |
| Visits.Tally | hospital.py:377-386 | missed plus kept equals the number of follow-ups classified |
| Visits.CrowdedFollowupIsMissed | hospital.py:382-385 | a follow-up on a date with no visit or several visits is counted missed |
| Visits.TallyTwoVisitsExample | hospital.py:339-361 | the docstring history (follow-ups 2017-11-30 and 2017-12-02, one visit on 2017-11-30) gives (1, 1) |
| Visits.TallyKeptExample | hospital.py:377-386 | a follow-up met by exactly one visit is kept: (0, 1) |
| Visits.FollowupsWithinPositive | hospital.py:645-648 | a history has follow-ups in [lo, hi] exactly when some visit's follow-up lies in [lo, hi] |
| Visits.Prescriptions | hospital.py:853-859 | per history, visits prescribing the medication are at most those prescribing anything, at most the history length |
| Visits.NoPrescriptions | hospital.py:853-859 | the count of prescribing visits is 0 exactly when none of the doctor's visits has a prescription |
| Visits.PrescriptionsExample | hospital.py:853-859 | one visit with A and one with B: A counts (1, 2), C counts (0, 2) |
| Visits.DoctorIds | hospital.py:817-820 | the collected ids are exactly the doctor ids of the history, each once |
| Doctors.EmptyScheduleHasNoDays | hospital.py:144 | a fresh schedule has no scheduled day |
| Doctors.Doctor.constructor | hospital.py:137-144 | a new doctor has the given name, id and pay and twelve empty months |
| Doctors.Doctor.AddWorkday | hospital.py:124-125 | appending a day to a month's list changes that month only |
| Doctors.DoctorOrderIsTotal | hospital.py:152-162 | equality by id is symmetric and reflexive; the order by id is irreflexive, asymmetric and total up to equality |
| Patients.Patient.constructor | hospital.py:186-192 | a new patient has the given name and id and an empty history |
| Patients.Patient.AddVisit | hospital.py:227 | a visit is appended at the end of the history |
| Patients.Patient.IsPrescribed | hospital.py:241-244 | true exactly when some visit prescribed the medication |
| Patients.Patient.Followups | hospital.py:277-287 | returns the follow-up dates in the labelled month, exactly those; an unknown label returns [] |
| Patients.Patient.PrescribedAfter | hospital.py:328-332 | returns the prescriptions of the visits strictly after the date, in order with repeats |
| Patients.Patient.MissedFollowups | hospital.py:371-386 | returns (missed, kept) by the exactly-one-visit rule; missed + kept is the number of follow-ups |
| Patients.PatientOrderIsTotal | hospital.py:200-210 | equality by id is symmetric and reflexive; the order by id is irreflexive, asymmetric and total up to equality |
| HospitalSpec.ProjectedCostOfClearedSchedules | hospital.py:494-497 | once every schedule is cleared the projected cost is 0 |
| HospitalSpec.ProjectedCostOfHire | hospital.py:590-594 | hiring a doctor adds exactly their pay times their scheduled days |
| HospitalSpec.PayForStranger | hospital.py:616-618 | a roster name that is no doctor's costs nothing |
| HospitalSpec.AttendanceCostIsPayByAttendance | hospital.py:613-619 | paying every (day, name) pair equals paying each doctor their daily pay times the days they are on the roll |
| HospitalSpec.RemindersMembers | hospital.py:642-649 | a patient is reminded exactly when they are a patient with a follow-up in [date, date + delta] |
| HospitalSpec.RemindersMultiplicity | hospital.py:642-649 | a patient is listed once per qualifying follow-up, times the number of times they are admitted |
| HospitalSpec.SameDayReminders | hospital.py:642-649 | with delta 0 exactly the patients with a follow-up on the date itself are reminded |
| HospitalSpec.SeenIdsMembers | hospital.py:675-684 | an id is counted exactly when a patient with that id saw the doctor in [start, end] |
| HospitalSpec.SeenIdsBound | hospital.py:675-684 | no more patients are counted than the hospital has |
| HospitalSpec.SeenIdsWiden | hospital.py:675-684 | widening the date range never lowers the count (the set only grows) |
| HospitalSpec.TopCountIsMaximum | hospital.py:719-726 | the top count bounds every doctor's visit count and is attained when there is a doctor |
| HospitalSpec.DoctorsWithCountMembers | hospital.py:719-726 | a doctor is selected for a count exactly when they are a doctor with that count |
| HospitalSpec.NoneAboveTop | hospital.py:723-725 | no doctor has a count above the top count, so a new maximum restarts the list |
| HospitalSpec.BusiestCharacterization | hospital.py:706-726 | returned doctors are exactly the doctors whose visit count is maximal; non-empty when there are doctors; all doctors when no visit is in range |
| HospitalSpec.AllIdle | hospital.py:706-726 | when no visit is in range the top count is 0 and every doctor is returned |
| HospitalSpec.CoverageMembers | hospital.py:751-758 | a day is reported exactly when alice's schedule lists it and its roll has bob and not alice |
| HospitalSpec.CoverageOfScheduledDoctor | hospital.py:752-757 | a day on which bob was scheduled is still reported |
| HospitalSpec.SickDaysMembers | hospital.py:785-792 | a day is reported exactly when the schedule lists it and its roll lacks the doctor |
| HospitalSpec.NoRollNoSickDay | hospital.py:785-792 | a scheduled day with no roll is never a sick day |
| HospitalSpec.SickDaysBound | hospital.py:785-792 | with one roll per day there are no more sick days than scheduled days |
| HospitalSpec.DoctorsAmongMembers | hospital.py:821-824 | a doctor is returned exactly when they are a hospital doctor whose id was collected |
| HospitalSpec.DoctorsAmongDistinct | hospital.py:821-824 | with unique doctor ids no doctor is returned twice |
| HospitalSpec.RateCounts | hospital.py:849-859 | visits prescribing the medication never exceed visits prescribing anything |
| HospitalSpec.NoRateCounts | hospital.py:849-859 | the denominator is 0 exactly when none of the doctor's visits has a prescription |
| HospitalSpec.Rate | hospital.py:860 | no rate exactly when nothing was prescribed; otherwise 0..100, 0 when never this medication, 100 when always |
| HospitalSpec.RateDefined | hospital.py:849-860 | over the hospital, no rate exactly when none of the doctor's visits prescribed anything; otherwise within 0..100 |
| HospitalSpec.RateExample | hospital.py:860 | one of two prescriptions gives 50, none of two gives 0 |
| Hospitals.Hospital.constructor | hospital.py:419-427 | a new hospital has the address and no doctors, patients, rolls or admissions |
| Hospitals.Hospital.AdmitPatient | hospital.py:560 | appends the patient; nothing else changes |
| Hospitals.Hospital.HireDoctor | hospital.py:572 | appends the doctor; nothing else changes; ids stay unique |
| Hospitals.Hospital.ClearSchedules | hospital.py:493-497 | returns the doctors' names in order and leaves every schedule empty, so nothing is projected |
| Hospitals.Hospital.ProjectedExpenses | hospital.py:590-594 | returns the sum over doctors of pay times scheduled days |
| Hospitals.Hospital.ActualExpenses | hospital.py:613-619 | returns the pay for every roster name, which equals each doctor's pay times days on the roll |
| Hospitals.Hospital.Reminders | hospital.py:642-649 | returns each patient once per follow-up in [date, date + delta], exactly the patients with one |
| Hospitals.Hospital.PatientsSeen | hospital.py:675-684 | returns the number of distinct patient ids that saw the doctor in [start, end], at most the number of patients |
| Hospitals.Hospital.VisitCounts | hospital.py:706-717 | maps each doctor's id to their number of visits in [start, end] over all patients |
| Hospitals.Hospital.BusiestDoctors | hospital.py:706-726 | returns, in hiring order, the doctors whose visit count is the top count |
| Hospitals.Hospital.Coverage | hospital.py:751-758 | returns alice's scheduled days whose roll has bob and not alice, exactly those |
| Hospitals.Hospital.SickDays | hospital.py:785-792 | returns the scheduled days whose roll lacks the doctor, exactly those, at most the scheduled days |
| Hospitals.Hospital.AttendedTo | hospital.py:817-825 | returns the hospital's doctors, in hiring order, whose id appears in the patient's history; no duplicates when ids are unique |
| Hospitals.Hospital.PrescribedRate | hospital.py:849-860 | returns the medication's share of the doctor's prescriptions in percent, or none when they prescribed nothing |

## Left out

- Loading data from files (`load_doctors`, `load_patients`, `load_attendance`, `load_admissions`, and the parsing part of `load_schedules`): file I/O and the `loaddata` module, which is not part of this model. Clearing the schedules is modelled by `ClearSchedules` and appending a date by `AddWorkday`.
- `__repr__` methods and the `__main__` block that runs the doctests: display and test driving only.
- The `admissions` map is an inert field: only the loaders fill it and no query reads it.
- Floating point: daily pay is a natural number (cents), so expenses are exact sums, and the prescription rate is an exact `real`.
- Hospitals.Hospital.PrescribedRate: when the doctor prescribed nothing, the source divides by zero and raises `ZeroDivisionError`; the model returns `None` for that case.
- Hospitals.Hospital.BusiestDoctors: requires the class invariant `Hospital.Valid`, whose part used here is that doctor ids are unique, which the documentation promises; `Hospitals.Hospital.VisitCounts` requires it too. With a repeated id the source adds each visit once per doctor sharing it. The scan over the dictionary's keys for the doctor's id is modelled as a direct lookup of that key.
- Doctors.Doctor.AddWorkday: the source's schedule dictionary has only the twelve month keys, so a date appended under any other label raises `KeyError`; the model requires a known label instead of modelling that error.
- Hospitals.Hospital.HireDoctor: requires an id no hired doctor has; the source leaves this to its callers.
- Dates: `datetime.date` is a day ordinal. The calendar's range (years 1 to 9999) and the overflow error beyond it are not modelled.
- The attendance log is a sequence of (day, names) rolls. A dictionary has one roll per day, which `Hospital.Valid` states together with unique doctor ids; the constructor sets it up and the mutators keep it.
- The visit invariant that a follow-up falls after its visit (`Visits.WellFormed`) is stated but not enforced, as in the source.
- `diagnosis` and `prognosis` are opaque strings with no behaviour.
