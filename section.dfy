/** `Grouch::Section`: a group of meetings of a course with the people who lead them. Its
    identity and meetings are fixed at construction; the four seat and waitlist counts are
    overwritten by `set_counts`; the four views over the meetings are computed on first read
    and cached. */
module Sections {
  import opened Wrappers
  import opened Errors
  import opened Meetings
  import DaySupport

  /** An element of the `meetings` argument: a genuine Meeting, or any other object (a test
      double, a hash with the same keys, ...). */
  datatype MeetingArg = Genuine(meeting: Meeting) | Foreign

  /** An argument of `set_counts`: omitted or nil, an Integer, or any other value. */
  datatype CountArg = Absent | Int(n: int) | NotInt

  predicate AllWellFormed(ms: seq<Meeting>)
  {
    forall m | m in ms :: m.WellFormed()
  }

  /** Every genuine Meeting handed to a section was built by `Meeting.new`, so it is well-formed. */
  predicate GenuineWellFormed(args: seq<MeetingArg>)
  {
    forall i :: 0 <= i < |args| && args[i].Genuine? ==> args[i].meeting.WellFormed()
  }

  /** The checks of `Section.new`: all four arguments present, then every meeting genuine. */
  function SectionArgsError(crn: Option<int>, identifier: Option<string>, instructors: Option<seq<string>>,
                    meetings: Option<seq<MeetingArg>>): (e: Option<Error>)
    ensures e == Some(MissingField) <==>
      crn.None? || identifier.None? || instructors.None? || meetings.None?
    ensures e.None? <==>
      crn.Some? && identifier.Some? && instructors.Some? && meetings.Some? &&
      forall i :: 0 <= i < |meetings.value| ==> meetings.value[i].Genuine?
    ensures e.Some? && e != Some(MissingField) ==> e == Some(InvalidMeeting)
  {
    if crn.None? || identifier.None? || instructors.None? || meetings.None? then Some(MissingField)
    else if exists i :: 0 <= i < |meetings.value| && meetings.value[i].Foreign? then Some(InvalidMeeting)
    else None
  }

  /** `locations` (called `meeting_locations` by the test suite): one location per meeting,
      in meeting order, duplicates kept. */
  function Locations(ms: seq<Meeting>): (r: seq<string>)
    ensures |r| == |ms|
    ensures forall i :: 0 <= i < |ms| ==> r[i] == ms[i].location
  {
    if ms == [] then [] else [ms[0].location] + Locations(ms[1..])
  }

  /** `meeting_days`: the union of the meetings' day names. */
  function DaysUnion(ms: seq<Meeting>): (r: set<string>)
    requires AllWellFormed(ms)
    ensures r <= DaySupport.Weekdays
  {
    if ms == [] then {} else (set d | d in ms[0].DayNameList()) + DaysUnion(ms[1..])
  }

  /** `meeting_times`: the meetings' time windows, concatenated in meeting order. Every meeting
      has at least one day letter, so a section with meetings has at least one window. */
  function TimesConcat(ms: seq<Meeting>): (r: seq<TimeWindow>)
    requires AllWellFormed(ms)
    ensures |ms| > 0 ==> |r| > 0
  {
    if ms == [] then [] else ms[0].TimeList() + TimesConcat(ms[1..])
  }

  /** `meeting_types`: the union of the meetings' types. */
  function TypesUnion(ms: seq<Meeting>): (r: set<string>)
    ensures |r| <= |ms|
  {
    if ms == [] then {} else {ms[0].kind} + TypesUnion(ms[1..])
  }

  /** The number of day letters over all meetings. */
  function DayCount(ms: seq<Meeting>): nat
    requires AllWellFormed(ms)
  {
    if ms == [] then 0 else |ms[0].Letters()| + DayCount(ms[1..])
  }

  /** There is one time window per day letter of every meeting. */
  lemma {:induction false} TimesConcatLength(ms: seq<Meeting>)
    requires AllWellFormed(ms)
    ensures |TimesConcat(ms)| == DayCount(ms)
  {
    if ms != [] {
      TimesConcatLength(ms[1..]);
    }
  }

  /** A day is a meeting day of the section exactly when some meeting meets on it. */
  lemma {:induction false} DaysUnionMembers(ms: seq<Meeting>, d: string)
    requires AllWellFormed(ms)
    ensures d in DaysUnion(ms) <==> exists i :: 0 <= i < |ms| && d in ms[i].DayNameList()
  {
    if ms != [] {
      DaysUnionMembers(ms[1..], d);
      if d in DaysUnion(ms[1..]) {
        var i :| 0 <= i < |ms[1..]| && d in ms[1..][i].DayNameList();
        assert d in ms[i + 1].DayNameList();
      }
      if exists i :: 0 <= i < |ms| && d in ms[i].DayNameList() {
        var i :| 0 <= i < |ms| && d in ms[i].DayNameList();
        if i > 0 {
          assert ms[1..][i - 1] == ms[i];
        }
      }
    }
  }

  /** The meeting days are weekday names, so a section meets on at most five distinct days. */
  lemma {:induction false} DaysUnionWeekdays(ms: seq<Meeting>)
    requires AllWellFormed(ms)
    ensures DaysUnion(ms) <= DaySupport.Weekdays
    ensures |DaysUnion(ms)| <= 5
  {
    if ms != [] {
      DaysUnionWeekdays(ms[1..]);
    }
    SubsetCardinality(DaysUnion(ms), DaySupport.Weekdays);
  }

  lemma SubsetCardinality(a: set<string>, b: set<string>)
    requires a <= b
    ensures |a| <= |b|
  {
    assert b == a + (b - a);
  }

  /** A type occurs in the section exactly when some meeting has it. */
  lemma {:induction false} TypesUnionMembers(ms: seq<Meeting>, t: string)
    ensures t in TypesUnion(ms) <==> exists i :: 0 <= i < |ms| && ms[i].kind == t
  {
    if ms != [] {
      TypesUnionMembers(ms[1..], t);
      if t in TypesUnion(ms[1..]) {
        var i :| 0 <= i < |ms[1..]| && ms[1..][i].kind == t;
        assert ms[i + 1].kind == t;
      }
      if exists i :: 0 <= i < |ms| && ms[i].kind == t {
        var i :| 0 <= i < |ms| && ms[i].kind == t;
        if i > 0 {
          assert ms[1..][i - 1] == ms[i];
        }
      }
    }
  }

  /** The times of two groups of meetings are the times of the first group followed by those
      of the second. */
  lemma {:induction false} TimesConcatAppend(a: seq<Meeting>, b: seq<Meeting>)
    requires AllWellFormed(a) && AllWellFormed(b)
    ensures AllWellFormed(a + b)
    ensures TimesConcat(a + b) == TimesConcat(a) + TimesConcat(b)
  {
    if a != [] {
      assert (a + b)[1..] == a[1..] + b;
      TimesConcatAppend(a[1..], b);
    } else {
      assert a + b == b;
    }
  }

  /** The times are not de-duplicated: the i-th meeting's windows appear whole, in place,
      between the windows of the meetings before it and those after it. */
  lemma {:induction false} TimesConcatSplit(ms: seq<Meeting>, i: nat)
    requires AllWellFormed(ms) && i < |ms|
    ensures TimesConcat(ms) == TimesConcat(ms[..i]) + ms[i].TimeList() + TimesConcat(ms[i + 1..])
  {
    if i == 0 {
      assert ms[..0] == [] && ms[1..] == ms[i + 1..];
    } else {
      var rest := ms[1..];
      var head, mid := ms[0].TimeList(), ms[i].TimeList();
      var before, after := TimesConcat(ms[..i][1..]), TimesConcat(ms[i + 1..]);
      assert TimesConcat(rest) == before + mid + after by {
        TimesConcatSplit(rest, i - 1);
        assert rest[..i - 1] == ms[..i][1..] && rest[i - 1] == ms[i] && rest[i..] == ms[i + 1..];
      }
      assert TimesConcat(ms[..i]) == head + before by {
        assert ms[..i][0] == ms[0];
      }
      assert TimesConcat(ms) == head + TimesConcat(rest);
      ConcatRegroup(head, before, mid, after);
    }
  }

  lemma ConcatRegroup<T>(a: seq<T>, b: seq<T>, c: seq<T>, d: seq<T>)
    ensures a + (b + c + d) == (a + b) + c + d
  {
  }

  /** The days the time windows fall on are exactly the section's meeting days: the two views
      hold the same days, one with repetitions, one without. */
  lemma {:induction false} TimesCoverDays(ms: seq<Meeting>)
    requires AllWellFormed(ms)
    ensures WindowDays(TimesConcat(ms)) == DaysUnion(ms)
  {
    if ms != [] {
      var m := ms[0];
      assert WindowDays(TimesConcat(ms[1..])) == DaysUnion(ms[1..]) by {
        TimesCoverDays(ms[1..]);
      }
      assert WindowDays(m.TimeList()) == set d | d in m.DayNameList() by {
        MeetingWindowDays(m);
      }
      assert TimesConcat(ms) == m.TimeList() + TimesConcat(ms[1..]);
      WindowDaysAppend(m.TimeList(), TimesConcat(ms[1..]));
    }
  }

  /** The days a list of time windows falls on. */
  function WindowDays(ws: seq<TimeWindow>): set<string>
  {
    set w | w in ws :: w.day
  }

  lemma WindowDaysAppend(a: seq<TimeWindow>, b: seq<TimeWindow>)
    ensures WindowDays(a + b) == WindowDays(a) + WindowDays(b)
  {
  }

  /** One meeting's windows fall on exactly its day names. */
  lemma MeetingWindowDays(m: Meeting)
    requires m.WellFormed()
    ensures WindowDays(m.TimeList()) == set d | d in m.DayNameList()
  {
    TimesFollowDayNames(m);
    forall d | d in m.DayNameList() ensures d in WindowDays(m.TimeList()) {
      var j :| 0 <= j < |m.DayNameList()| && m.DayNameList()[j] == d;
      assert m.TimeList()[j].day == d;
    }
  }

  /** A section without meetings has no locations, days, times or types. */
  lemma NoMeetings()
    ensures Locations([]) == [] && DaysUnion([]) == {} && TimesConcat([]) == [] && TypesUnion([]) == {}
  {
  }

  /** The tested section's meeting days: meetings on 'mwf', 'w' and 'w' meet on three days,
      not five. */
  lemma TestedSectionDays(m1: Meeting, m2: Meeting)
    requires m1.days == EnumeratorSupport.Text("mwf") && m2.days == EnumeratorSupport.Text("w")
    ensures AllWellFormed([m1, m2, m2])
    ensures DaysUnion([m1, m2, m2]) == {"monday", "wednesday", "friday"}
  {
    MwfMeeting(m1);
    WMeeting(m2);
    ThreeMeetingDays(m1, m2);
  }

  lemma ThreeMeetingDays(m1: Meeting, m2: Meeting)
    requires m1.WellFormed() && m2.WellFormed()
    requires m1.DayNameList() == ["monday", "wednesday", "friday"] && m2.DayNameList() == ["wednesday"]
    ensures AllWellFormed([m1, m2, m2])
    ensures DaysUnion([m1, m2, m2]) == {"monday", "wednesday", "friday"}
  {
    var w, mwf := set d | d in m2.DayNameList(), set d | d in m1.DayNameList();
    assert w == {"wednesday"} by { NameSet(m2.DayNameList()); }
    assert mwf == {"monday", "wednesday", "friday"} by { NameSet(m1.DayNameList()); }
    assert DaysUnion([m2]) == w by { DaysUnionCons(m2, []); }
    assert DaysUnion([m2, m2]) == w by { DaysUnionCons(m2, [m2]); }
    DaysUnionCons(m1, [m2, m2]);
  }

  lemma NameSet(names: seq<string>)
    ensures names == ["wednesday"] ==> (set d | d in names) == {"wednesday"}
    ensures names == ["monday", "wednesday", "friday"] ==>
      (set d | d in names) == {"monday", "wednesday", "friday"}
  {
  }

  lemma DaysUnionCons(m: Meeting, rest: seq<Meeting>)
    requires m.WellFormed() && AllWellFormed(rest)
    ensures AllWellFormed([m] + rest)
    ensures DaysUnion([m] + rest) == (set d | d in m.DayNameList()) + DaysUnion(rest)
  {
    assert ([m] + rest)[1..] == rest;
  }

  /** The tested section's meeting times: a meeting on 'mwf' and one on 'w' give 3 + 1 = 4
      windows, Wednesday twice. */
  lemma TestedSectionTimes(m1: Meeting, m2: Meeting)
    requires m1.days == EnumeratorSupport.Text("mwf") && m2.days == EnumeratorSupport.Text("w")
    ensures AllWellFormed([m1, m2])
    ensures TimesConcat([m1, m2]) == m1.TimeList() + m2.TimeList()
    ensures |TimesConcat([m1, m2])| == 4
  {
    MwfMeeting(m1);
    WMeeting(m2);
    assert [m1, m2][1..] == [m2];
    assert [m2][1..] == [];
    assert TimesConcat([m2]) == m2.TimeList() + TimesConcat([]);
    assert TimesConcat([m1, m2]) == m1.TimeList() + TimesConcat([m2]);
  }

  /** The tested section's meeting types: lecture, recitation, recitation give two types. */
  lemma TestedSectionTypes(m1: Meeting, m2: Meeting)
    requires m1.kind == "lecture" && m2.kind == "recitation"
    ensures TypesUnion([m1, m2, m2]) == {"lecture", "recitation"}
  {
    assert [m1, m2, m2][1..] == [m2, m2];
    assert [m2, m2][1..] == [m2];
    assert [m2][1..] == [];
    assert TypesUnion([m2]) == {"recitation"};
    assert TypesUnion([m2, m2]) == {"recitation"};
    assert TypesUnion([m1, m2, m2]) == {"lecture"} + TypesUnion([m2, m2]);
  }

  /** The checks of `set_counts`, in the order of its error messages: both seat counts must be
      Integers (nil included among the failures), a waitlist count given must be an Integer. */
  function CountsError(seatsLimit: CountArg, seatsTaken: CountArg,
                       waitlistLimit: CountArg, waitlistTaken: CountArg): (e: Option<Error>)
    ensures e.None? <==>
      seatsLimit.Int? && seatsTaken.Int? && !waitlistLimit.NotInt? && !waitlistTaken.NotInt?
    ensures !seatsLimit.Int? ==> e == Some(InvalidCount(SeatsLimit))
    ensures seatsLimit.Int? && !seatsTaken.Int? ==> e == Some(InvalidCount(SeatsTaken))
    ensures seatsLimit.Int? && seatsTaken.Int? && waitlistLimit.NotInt? ==>
      e == Some(InvalidCount(WaitlistLimit))
    ensures seatsLimit.Int? && seatsTaken.Int? && !waitlistLimit.NotInt? && waitlistTaken.NotInt? ==>
      e == Some(InvalidCount(WaitlistTaken))
    ensures e.Some? ==> e.value.InvalidCount?
  {
    if !seatsLimit.Int? then Some(InvalidCount(SeatsLimit))
    else if !seatsTaken.Int? then Some(InvalidCount(SeatsTaken))
    else if waitlistLimit.NotInt? then Some(InvalidCount(WaitlistLimit))
    else if waitlistTaken.NotInt? then Some(InvalidCount(WaitlistTaken))
    else None
  }

  /** A stored count after an accepted call: an Integer argument replaces it, an omitted or
      nil argument leaves it as it was. */
  function Refreshed(current: Option<int>, arg: CountArg): (r: Option<int>)
    requires !arg.NotInt?
    ensures arg.Absent? ==> r == current
    ensures arg.Int? ==> r == Some(arg.n)
  {
    if arg.Int? then Some(arg.n) else current
  }

  class Section {
    const crn: int
    const identifier: string
    const instructors: seq<string>
    const meetings: seq<Meeting>

    var seatsLimitCount: Option<int>
    var seatsTakenCount: Option<int>
    var waitlistLimitCount: Option<int>
    var waitlistTakenCount: Option<int>

    /** The four view caches: empty until the first read of the view. */
    var locationsCache: Option<seq<string>>
    var daysCache: Option<set<string>>
    var timesCache: Option<seq<TimeWindow>>
    var typesCache: Option<set<string>>

    /** The object invariant: every meeting well-formed, and every filled cache holds its
        view. Since `meetings` is a constant, a filled cache never goes stale. */
    ghost predicate Valid()
      reads this
    {
      && AllWellFormed(meetings)
      && (locationsCache.Some? ==> locationsCache.value == Locations(meetings))
      && (daysCache.Some? ==> daysCache.value == DaysUnion(meetings))
      && (timesCache.Some? ==> timesCache.value == TimesConcat(meetings))
      && (typesCache.Some? ==> typesCache.value == TypesUnion(meetings))
    }

    constructor (crn: int, identifier: string, instructors: seq<string>, meetings: seq<Meeting>)
      requires AllWellFormed(meetings)
      ensures this.crn == crn && this.identifier == identifier
      ensures this.instructors == instructors && this.meetings == meetings
      ensures seatsLimitCount.None? && seatsTakenCount.None?
      ensures waitlistLimitCount.None? && waitlistTakenCount.None?
      ensures locationsCache.None? && daysCache.None? && timesCache.None? && typesCache.None?
      ensures Valid()
    {
      this.crn, this.identifier := crn, identifier;
      this.instructors, this.meetings := instructors, meetings;
      seatsLimitCount, seatsTakenCount := None, None;
      waitlistLimitCount, waitlistTakenCount := None, None;
      locationsCache, daysCache, timesCache, typesCache := None, None, None, None;
    }

    /** `Section.new`: fails with the error `SectionArgsError` names, or builds a section holding the
        arguments, with its meetings in the given order, no counts yet and no view cached. */
    static method Create(crn: Option<int>, identifier: Option<string>, instructors: Option<seq<string>>,
                         meetings: Option<seq<MeetingArg>>) returns (r: Result<Section, Error>)
      requires meetings.Some? ==> GenuineWellFormed(meetings.value)
      ensures r.Failure? <==> SectionArgsError(crn, identifier, instructors, meetings).Some?
      ensures r.Failure? ==> Some(r.error) == SectionArgsError(crn, identifier, instructors, meetings)
      ensures r.Success? ==>
        && fresh(r.value) && r.value.Valid()
        && Some(r.value.crn) == crn && Some(r.value.identifier) == identifier
        && Some(r.value.instructors) == instructors
        && |r.value.meetings| == |meetings.value|
        && (forall i :: 0 <= i < |meetings.value| ==> meetings.value[i] == Genuine(r.value.meetings[i]))
        && r.value.seatsLimitCount.None? && r.value.seatsTakenCount.None?
        && r.value.waitlistLimitCount.None? && r.value.waitlistTakenCount.None?
        && r.value.locationsCache.None? && r.value.daysCache.None?
        && r.value.timesCache.None? && r.value.typesCache.None?
    {
      var e := SectionArgsError(crn, identifier, instructors, meetings);
      if e.Some? {
        return Failure(e.value);
      }
      var args := meetings.value;
      var ms := seq(|args|, i requires 0 <= i < |args| => args[i].meeting);
      var s := new Section(crn.value, identifier.value, instructors.value, ms);
      return Success(s);
    }

    /** `locations`: the first read fills the cache, every read returns the cached view. */
    method MeetingLocations() returns (r: seq<string>)
      requires Valid()
      modifies this`locationsCache
      ensures Valid()
      ensures r == Locations(meetings) && locationsCache == Some(r)
    {
      if locationsCache.None? {
        locationsCache := Some(Locations(meetings));
      }
      r := locationsCache.value;
    }

    /** `meeting_days`: cached like `locations`. */
    method MeetingDays() returns (r: set<string>)
      requires Valid()
      modifies this`daysCache
      ensures Valid()
      ensures r == DaysUnion(meetings) && daysCache == Some(r)
    {
      if daysCache.None? {
        daysCache := Some(DaysUnion(meetings));
      }
      r := daysCache.value;
    }

    /** `meeting_times`: cached like `locations`. */
    method MeetingTimes() returns (r: seq<TimeWindow>)
      requires Valid()
      modifies this`timesCache
      ensures Valid()
      ensures r == TimesConcat(meetings) && timesCache == Some(r)
    {
      if timesCache.None? {
        timesCache := Some(TimesConcat(meetings));
      }
      r := timesCache.value;
    }

    /** `meeting_types`: cached like `locations`. */
    method MeetingTypes() returns (r: set<string>)
      requires Valid()
      modifies this`typesCache
      ensures Valid()
      ensures r == TypesUnion(meetings) && typesCache == Some(r)
    {
      if typesCache.None? {
        typesCache := Some(TypesUnion(meetings));
      }
      r := typesCache.value;
    }

    /** `set_counts(seats_limit:, seats_taken:, waitlist_limit: nil, waitlist_taken: nil)`:
        every argument is checked before any count is written, so a rejected call changes
        nothing; an accepted call stores both seat counts and each waitlist count that was
        given, keeping the stored waitlist counts that were not. The views are untouched. */
    method SetCounts(seatsLimit: CountArg, seatsTaken: CountArg,
                     waitlistLimit: CountArg := Absent, waitlistTaken: CountArg := Absent)
      returns (e: Option<Error>)
      requires Valid()
      modifies this`seatsLimitCount, this`seatsTakenCount, this`waitlistLimitCount, this`waitlistTakenCount
      ensures Valid()
      ensures e == CountsError(seatsLimit, seatsTaken, waitlistLimit, waitlistTaken)
      ensures e.Some? ==>
        && seatsLimitCount == old(seatsLimitCount) && seatsTakenCount == old(seatsTakenCount)
        && waitlistLimitCount == old(waitlistLimitCount) && waitlistTakenCount == old(waitlistTakenCount)
      ensures e.None? ==>
        && seatsLimitCount == Some(seatsLimit.n) && seatsTakenCount == Some(seatsTaken.n)
        && waitlistLimitCount == Refreshed(old(waitlistLimitCount), waitlistLimit)
        && waitlistTakenCount == Refreshed(old(waitlistTakenCount), waitlistTaken)
    {
      e := CountsError(seatsLimit, seatsTaken, waitlistLimit, waitlistTaken);
      if e.None? {
        seatsLimitCount, seatsTakenCount := Some(seatsLimit.n), Some(seatsTaken.n);
        waitlistLimitCount := Refreshed(waitlistLimitCount, waitlistLimit);
        waitlistTakenCount := Refreshed(waitlistTakenCount, waitlistTaken);
      }
    }
  }

  /** A client of `set_counts`: two refreshes of the seat counts alone, (1, 1) then (2, 2),
      leave the waitlist counts as they were before the first. */
  method RefreshSeatsTwice(s: Section)
    requires s.Valid()
    modifies s`seatsLimitCount, s`seatsTakenCount, s`waitlistLimitCount, s`waitlistTakenCount
    ensures s.Valid()
    ensures s.seatsLimitCount == Some(2) && s.seatsTakenCount == Some(2)
    ensures s.waitlistLimitCount == old(s.waitlistLimitCount)
    ensures s.waitlistTakenCount == old(s.waitlistTakenCount)
  {
    var e1 := s.SetCounts(Int(1), Int(1));
    assert e1.None?;
    var e2 := s.SetCounts(Int(2), Int(2));
    assert e2.None?;
  }

  /** The tested rejections of `set_counts`. */
  lemma CountsErrorExamples()
    ensures CountsError(Int(1), Int(1), Int(1), Int(1)) == None
    ensures CountsError(Int(1), Int(1), Absent, Absent) == None
    ensures CountsError(NotInt, Int(1), Absent, Absent) == Some(InvalidCount(SeatsLimit))
    ensures CountsError(Int(1), NotInt, Absent, Absent) == Some(InvalidCount(SeatsTaken))
    ensures CountsError(Int(1), Int(1), NotInt, Int(0)) == Some(InvalidCount(WaitlistLimit))
    ensures CountsError(Int(1), Int(1), Int(1), NotInt) == Some(InvalidCount(WaitlistTaken))
    ensures CountsError(Absent, Int(0), Absent, Absent) == Some(InvalidCount(SeatsLimit))
    ensures CountsError(Int(0), Absent, Absent, Absent) == Some(InvalidCount(SeatsTaken))
  {
  }
}
