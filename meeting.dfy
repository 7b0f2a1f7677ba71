/** `Grouch::Meeting`: one scheduled session of a section. Its six attributes are fixed when it
    is built; `day_names` and `times` are computed on first call and kept in cache slots. */
module Meetings {
  import opened Wrappers
  import opened Errors
  import opened EnumeratorSupport
  import DaySupport
  import Strings

  /** One entry of `times`: the hash { day:, start_time:, end_time: }. */
  datatype TimeWindow = TimeWindow(day: string, startTime: string, endTime: string)

  /** The checks of `Meeting.new`, in the order the constructor makes them: every argument
      present, then the day letters valid. The normaliser's error propagates for days that
      are not mappable. */
  function MeetingArgsError(instructor: Option<string>, days: Value, startTime: Option<string>,
                    endTime: Option<string>, kind: Option<string>, location: Option<string>): (e: Option<Error>)
    ensures e == Some(MissingField) <==>
      instructor.None? || days.Nil? || startTime.None? || endTime.None? || kind.None? || location.None?
    ensures e.None? <==>
      instructor.Some? && !days.Nil? && startTime.Some? && endTime.Some? && kind.Some? && location.Some?
      && DaySupport.ValidDayLetters(days) == Success(true)
    ensures e.Some? && e != Some(MissingField) ==>
      (days.Other? <==> e == Some(NotIterable)) && (!days.Other? <==> e == Some(InvalidSchedule))
  {
    if instructor.None? || days.Nil? || startTime.None? || endTime.None? || kind.None? || location.None? then
      Some(MissingField)
    else
      match DaySupport.ValidDayLetters(days)
      case Failure(err) => Some(err)
      case Success(ok) => if ok then None else Some(InvalidSchedule)
  }

  class Meeting {
    const instructor: string
    const days: Value
    const startTime: string
    const endTime: string
    /** The meeting's `type` (lecture, recitation, ...). */
    const kind: string
    const location: string

    /** `@_day_names` and `@_times`: empty until the first call of the reader. */
    var dayNamesCache: Option<seq<string>>
    var timesCache: Option<seq<TimeWindow>>

    /** What the constructor guarantees of every meeting: its day letters are valid. */
    predicate WellFormed()
    {
      DaySupport.ValidDayLetters(days) == Success(true)
    }

    /** The object invariant: well-formed, and a filled cache slot holds what the reader
        would compute. */
    ghost predicate Valid()
      reads this
    {
      && WellFormed()
      && (dayNamesCache.Some? ==> dayNamesCache.value == DayNameList())
      && (timesCache.Some? ==> timesCache.value == TimeList())
    }

    /** The meeting's day letters, one element per day. */
    function Letters(): (r: seq<string>)
      requires WellFormed()
      ensures |r| > 0
      ensures forall i :: 0 <= i < |r| ==> DaySupport.ValidDayLetter(Some(r[i]))
    {
      StringEnumerator(days).value
    }

    /** What `day_names` returns: `letters_to_days(@days)`, one weekday per letter, in order. */
    function DayNameList(): (r: seq<string>)
      requires WellFormed()
      ensures |r| == |Letters()|
      ensures forall i :: 0 <= i < |r| ==> DaySupport.LetterToDay(Some(Letters()[i])) == Success(r[i])
      ensures forall i :: 0 <= i < |r| ==> r[i] in DaySupport.Weekdays
    {
      DaySupport.ValidIffDecodes(days);
      DaySupport.LettersToDays(days).value
    }

    /** What `times` returns: the normalised letters mapped, each to its weekday with the
        meeting's own start and end time. */
    function TimeList(): (r: seq<TimeWindow>)
      requires WellFormed()
      ensures |r| == |Letters()|
    {
      var letters := Letters();
      seq(|letters|, i requires 0 <= i < |letters| =>
        TimeWindow(DaySupport.LetterToDay(Some(letters[i])).value, startTime, endTime))
    }

    constructor (instructor: string, days: Value, startTime: string, endTime: string,
                 kind: string, location: string)
      requires DaySupport.ValidDayLetters(days) == Success(true)
      ensures this.instructor == instructor && this.days == days
      ensures this.startTime == startTime && this.endTime == endTime
      ensures this.kind == kind && this.location == location
      ensures dayNamesCache.None? && timesCache.None?
      ensures Valid()
    {
      this.instructor, this.days := instructor, days;
      this.startTime, this.endTime := startTime, endTime;
      this.kind, this.location := kind, location;
      dayNamesCache, timesCache := None, None;
    }

    /** `Meeting.new`: fails with the error `MeetingArgsError` names, or builds a meeting that holds
        every argument unchanged. */
    static method Create(instructor: Option<string>, days: Value, startTime: Option<string>,
                         endTime: Option<string>, kind: Option<string>, location: Option<string>)
      returns (r: Result<Meeting, Error>)
      ensures r.Failure? <==> MeetingArgsError(instructor, days, startTime, endTime, kind, location).Some?
      ensures r.Failure? ==> Some(r.error) == MeetingArgsError(instructor, days, startTime, endTime, kind, location)
      ensures r.Success? ==>
        && fresh(r.value) && r.value.Valid()
        && Some(r.value.instructor) == instructor && r.value.days == days
        && Some(r.value.startTime) == startTime && Some(r.value.endTime) == endTime
        && Some(r.value.kind) == kind && Some(r.value.location) == location
        && r.value.dayNamesCache.None? && r.value.timesCache.None?
    {
      var e := MeetingArgsError(instructor, days, startTime, endTime, kind, location);
      if e.Some? {
        return Failure(e.value);
      }
      var m := new Meeting(instructor.value, days, startTime.value, endTime.value, kind.value, location.value);
      return Success(m);
    }

    /** `day_names`: the first call fills the cache, every call returns the cached list. */
    method DayNames() returns (r: seq<string>)
      requires Valid()
      modifies this`dayNamesCache
      ensures Valid()
      ensures r == DayNameList() && dayNamesCache == Some(r)
    {
      if dayNamesCache.None? {
        dayNamesCache := Some(DayNameList());
      }
      r := dayNamesCache.value;
    }

    /** `times`: the first call fills the cache, every call returns the cached list. */
    method Times() returns (r: seq<TimeWindow>)
      requires Valid()
      modifies this`timesCache
      ensures Valid()
      ensures r == TimeList() && timesCache == Some(r)
    {
      if timesCache.None? {
        timesCache := Some(TimeList());
      }
      r := timesCache.value;
    }
  }

  /** The two readers agree: one time window per day letter, in order, the i-th on the i-th
      day name and every one carrying the meeting's own start and end time. */
  lemma TimesFollowDayNames(m: Meeting)
    requires m.WellFormed()
    ensures |m.TimeList()| == |m.DayNameList()| == |m.Letters()|
    ensures forall i :: 0 <= i < |m.TimeList()| ==>
      m.TimeList()[i] == TimeWindow(m.DayNameList()[i], m.startTime, m.endTime)
  {
  }

  /** The tested meeting: days 'mwf' give Monday, Wednesday, Friday and three windows, all
      from the meeting's start time to its end time (8:05am to 8:55am in the test). */
  lemma MwfMeeting(m: Meeting)
    requires m.days == Text("mwf")
    ensures m.WellFormed()
    ensures m.DayNameList() == ["monday", "wednesday", "friday"]
    ensures m.TimeList() == [TimeWindow("monday", m.startTime, m.endTime),
                             TimeWindow("wednesday", m.startTime, m.endTime),
                             TimeWindow("friday", m.startTime, m.endTime)]
  {
    DaySupport.ValidatorExamples();
    TimesFollowDayNames(m);
  }

  /** A meeting on 'w' alone meets on Wednesday, in one window. */
  lemma WMeeting(m: Meeting)
    requires m.days == Text("w")
    ensures m.WellFormed()
    ensures m.DayNameList() == ["wednesday"]
    ensures m.TimeList() == [TimeWindow("wednesday", m.startTime, m.endTime)]
  {
    assert StringEnumerator(m.days).value == ["w"];
    assert Strings.DownCase("w") == "w";
    assert DaySupport.ValidDayLetter(Some("w"));
    assert DaySupport.ValidDayLetters(m.days) == Success(true);
    assert DaySupport.LetterToDay(Some("w")) == Success("wednesday");
    TimesFollowDayNames(m);
  }

  /** Construction fails when an argument is nil or a day letter is unknown ('z'). */
  lemma MeetingArgsErrorExamples()
    ensures MeetingArgsError(None, Text("mwf"), Some("8:05am"), Some("8:55am"), Some("lecture"),
                     Some("Clough Undergraduate Commons 102")) == Some(MissingField)
    ensures MeetingArgsError(Some("Monica Sweat"), Text("z"), Some("8:05am"), Some("8:55am"),
                     Some("lecture"), Some("Clough Undergraduate Commons 102")) == Some(InvalidSchedule)
    ensures MeetingArgsError(Some("Monica Sweat"), Text("mwf"), Some("8:05am"), Some("8:55am"),
                     Some("lecture"), Some("Clough Undergraduate Commons 102")) == None
  {
    assert DaySupport.ValidDayLetters(Text("mwf")) == Success(true) by {
      DaySupport.ValidatorExamples();
    }
    assert DaySupport.ValidDayLetters(Text("z")) == Success(false) by {
      assert StringEnumerator(Text("z")).value == ["z"];
      assert Strings.DownCase("z") == "z";
      assert !DaySupport.ValidDayLetter(Some(StringEnumerator(Text("z")).value[0]));
    }
  }
}
