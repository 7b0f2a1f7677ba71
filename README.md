# grouch-ruby entity layer, in Dafny

grouch-ruby scrapes Georgia Tech's OSCAR course catalog. This project models its entity and
aggregation layer: the plain in-memory records the scraper fills, and the code that turns OSCAR's
terse codes into readable values.

- **EnumeratorSupport** (`string_enumerator`) normalises its argument into a sequence of strings:
  a string becomes its one-letter strings, an array passes through unchanged (whole words
  included), and nil becomes the empty sequence. Anything else is rejected as not iterable. Ruby inputs are modelled as a
  tagged `Value`: `Nil`, `Text(s)`, `Items(elems)` (any object answering `map`) and `Other`.
- **DaySupport** decodes the day letters m, t, w, r, f into weekday names. **GradingSupport**
  decodes the ALP grade-basis letters a, l, p into audit, letter grade and pass/fail. Each decoder
  comes with a validator for one letter and one for a whole sequence. A raised `ArgumentError` is
  a `Failure` of the `Result` type; the `Error` datatype names which kind was raised.
- **Meetings.Meeting** is a class. Its six attributes are fixed when it is built, and it has
  two memoised readers: `day_names` and `times`. Each cache is a `var` field. The methods fill it
  on first read, and the object invariant `Valid()` says a filled cache holds what the reader's
  specification function computes.
- **Sections.Section** is a class with fixed `crn`, `identifier`, `instructors` and `meetings`.
  It has four memoised views over its meetings: locations, day set, time windows and type set.
  Its four seat and waitlist counters change only through `set_counts`.
- **Courses.Course** is an immutable record. The constructor stores school, semester and grade
  basis in lower case. It has the derived views `full_name` and `grading_formats`.

The properties proved include:
- each single-letter decoder succeeds exactly when its validator accepts, and is injective;
- each sequence validator accepts exactly when its decoder gives a non-empty result;
- all decoders ignore case;
- the string normaliser gives its input back when its letters are joined;
- a section's time windows are its meetings' windows in meeting order, one per day letter, and
  they fall on exactly the section's meeting days;
- a rejected `set_counts` changes nothing;
- an omitted waitlist argument keeps the stored count (a rule this model chooses, see
  "## Left out");
- `full_name` is nil exactly when school, number and name are all absent, and it splits back
  into the up-cased school, the number (which reads back) and " - name";
- the documented and tested examples hold.

The model follows the code:
- `letters_to_days` (lib/grouch/utils/day_support.rb:59-69) has no nil branch, so nil is rejected
  as not iterable, although `string_enumerator` (lib/grouch/utils/enumerator_support.rb:38)
  maps nil to []. It is not decoded as an empty list.
- Four places where the code contradicts its own documentation and tests are modelled twice, as
  written and as intended (see "## Findings"). The rest of the model uses the intended version.

Some behaviour has no code to follow:
- `Section.new` and `set_counts` are described only by the test suite.
- `Course.new` appears only in the test suite, which gives its argument order. That the school
  is stored in lower case comes from the documented reader (lib/grouch/entities/course.rb:23-29);
  the semester and grade basis are documented only with lower-case values (lines 31-42, 52-63),
  and this model lower-cases them too.
- `valid_day_letter?` and `valid_day_letters?` (the `Grouch::Utils::DaySupport` that
  lib/grouch/entities/meeting.rb:10 includes) are also described only by the test suite.
- The bodies of `full_name`, `grading_formats`, `locations`, `meeting_days`, `meeting_times` and
  `meeting_types` are empty in the source.

These are modelled from their documentation comments and their tests. Both validators follow one
rule:
- case does not matter;
- nil or an unknown letter is invalid;
- an empty sequence is invalid.

## Model

| member | source | states |
|---|---|---|
| EnumeratorSupport.StringEnumerator | lib/grouch/utils/enumerator_support.rb:37-46 | nil gives no elements; a string gives one one-letter string per character, in order; an array passes through unchanged; anything else fails as not mappable |
| EnumeratorSupport.ConcatChars | lib/grouch/utils/enumerator_support.rb:39-40 | joining the one-letter strings of `each_char` gives the string back |
| EnumeratorSupport.TextRoundTrip | lib/grouch/utils/enumerator_support.rb:9-27 | a string is always enumerable; each element has length one; the join of the elements is the original string |
| EnumeratorSupport.Idempotent | lib/grouch/utils/enumerator_support.rb:37-46 | normalising an already-normalised sequence gives the same sequence |
| EnumeratorSupport.Examples | lib/grouch/utils/enumerator_support.rb:9-35 | what the example headings describe: the string 'cat' gives c, a, t; ['d','o','g'] and ['dog','cat'] pass through; nil gives []; 1332 raises (the example bodies themselves pass ['cat'] and, under "given nil", []) |
| EnumeratorSupport.StringEnumeratorAsWritten | lib/grouch/utils/enumerator_support.rb:37-46 | as written: the misspelt `includes?` raises on every non-string, non-nil value, including arrays |
| EnumeratorSupport.AsWrittenRejectsArrays | lib/grouch/utils/enumerator_support.rb:41 | ['d','o','g'] is rejected as written but passed through as intended |
| DaySupport.DayFor | lib/grouch/utils/day_support.rb:28-41 | the `case` table answers exactly for the five day letters, each with a weekday name |
| DaySupport.ValidDayLetter | spec/grouch/utils/day_support_spec.rb:42-73 | only a single character can be valid; nil never is; 'M', 'T', 'W', 'R', 'F' are valid |
| DaySupport.ValidDayLetters | spec/grouch/utils/day_support_spec.rb:75-111 | answers for every mappable value and fails as not mappable otherwise; nil is invalid; a valid sequence is non-empty (its full contract is `DaySupport.ValidIffDecodes` and `DaySupport.ValidDayLettersRejects`) |
| DaySupport.LetterToDay | lib/grouch/utils/day_support.rb:26-42 | decodes exactly when the down-cased `to_s` of the letter is one of m, t, w, r, f; the result is a weekday name; otherwise `ArgumentError` |
| DaySupport.LettersToDays | lib/grouch/utils/day_support.rb:59-69 | a string is decoded character by character and an array element by element, in order, with one result per letter; it succeeds exactly when every letter decodes; nil and non-mappable values are rejected |
| DaySupport.ValidIffDecodes | spec/grouch/utils/day_support_spec.rb:75-111 | `valid_day_letters?` is true exactly when the sequence is non-empty and `letters_to_days` succeeds |
| DaySupport.ValidDayLettersRejects | spec/grouch/utils/day_support_spec.rb:90-110 | for a mappable value, the empty sequence and any sequence with an invalid letter are invalid |
| DaySupport.LetterToDayIgnoresCase | spec/grouch/utils/day_support_spec.rb:45-48 | up-casing or down-casing a letter does not change its decoding |
| DaySupport.LettersToDaysIgnoresCase | lib/grouch/utils/day_support.rb:27 | an up-cased string of letters decodes to the same day names |
| DaySupport.LetterToDayInjective | lib/grouch/utils/day_support.rb:28-38 | two letters that decode to the same day are the same letter up to case |
| DaySupport.LetterToDayOnto | lib/grouch/utils/day_support.rb:8-15 | every weekday name is the decoding of one of the five day letters |
| DaySupport.Examples | lib/grouch/utils/day_support.rb:10-24 | m, t, w, r, f give monday through friday; 's' and nil raise |
| DaySupport.ValidatorExamples | spec/grouch/utils/day_support_spec.rb:42-111 | 'm' and 'M' are valid; 's', 'N' and nil are not; [] and ['m','s','f'] are invalid; 'mwf' is valid and decodes to monday, wednesday, friday |
| DaySupport.MwfDecodes | lib/grouch/utils/day_support.rb:49-55 | what the example intends: the letters m, w, f, given as the string 'mwf' or as an array of letters, decode to monday, wednesday, friday (the example itself passes ['mwf'], a one-word array, which would raise in `letter_to_day`) |
| DaySupport.LettersToDaysAsWritten | lib/grouch/utils/day_support.rb:59-69 | as written: the misspelt `includes?` raises on every non-string input, including arrays; strings decode as intended |
| DaySupport.AsWrittenRejectsArrays | lib/grouch/utils/day_support.rb:62 | ['m','w','f'] is rejected as written and decoded as intended |
| GradingSupport.ValidBasisLetter | lib/grouch/utils/grading_support.rb:64-77 | only a single character can be valid; nil never is; 'A', 'L', 'P' are valid (case ignored, as spec/grouch/utils/grading_support_spec.rb:45-50 expects) |
| GradingSupport.ValidBasisLetters | lib/grouch/utils/grading_support.rb:79-92 | answers for every mappable value and fails as not mappable otherwise; nil is invalid; a valid sequence is non-empty (its full contract is `GradingSupport.ValidIffDecodes` and `GradingSupport.ValidBasisLettersRejects`) |
| GradingSupport.LetterToBasis | lib/grouch/utils/grading_support.rb:36-44 | decodes exactly when the letter is valid; the result is one of the three bases; otherwise `ArgumentError` |
| GradingSupport.LettersToBases | lib/grouch/utils/grading_support.rb:59-62 | nil gives no bases; a string or array is decoded letter by letter, in order, with one result per letter; it succeeds exactly when every letter is valid; non-mappable values are rejected |
| GradingSupport.TableExactly | lib/grouch/utils/grading_support.rb:14-18 | the table's keys are exactly a, l, p, all lower case; its values are exactly the three bases |
| GradingSupport.ValidIffDecodes | spec/grouch/utils/grading_support_spec.rb:77-113 | `valid_basis_letters?` is true exactly when the sequence is non-empty and `letters_to_bases` succeeds |
| GradingSupport.ValidBasisLettersRejects | spec/grouch/utils/grading_support_spec.rb:92-112 | for a mappable value, the empty sequence and any sequence with an invalid letter are invalid |
| GradingSupport.LetterToBasisIgnoresCase | spec/grouch/utils/grading_support_spec.rb:45-50 | up-casing or down-casing a letter does not change its decoding |
| GradingSupport.LettersToBasesIgnoresCase | lib/grouch/utils/grading_support.rb:37 | down-casing or up-casing a string of letters does not change its bases |
| GradingSupport.LetterToBasisInjective | lib/grouch/utils/grading_support.rb:14-18 | two letters with the same basis are the same letter up to case |
| GradingSupport.Examples | lib/grouch/utils/grading_support.rb:20-35 | a, l, p decode to audit, letter grade, pass/fail; 's' raises; 'l' and 'P' are valid; 's', 'N' and nil are not |
| GradingSupport.SequenceExamples | spec/grouch/utils/grading_support_spec.rb:29-113 | ['a','l','p'] decodes to the three bases and is valid; [] and ['m','a','f'] are invalid |
| GradingSupport.ValidBasisLetterAsWritten | lib/grouch/utils/grading_support.rb:75-77 | as written: accepts only lower-case letters, and only letters the intended check also accepts |
| GradingSupport.LetterToBasisAsWritten | lib/grouch/utils/grading_support.rb:36-44 | as written: it succeeds exactly when the letter is an exact, case-sensitive table key |
| GradingSupport.AsWrittenIsCaseSensitive | lib/grouch/utils/grading_support.rb:75-77 | 'P' is rejected as written and accepted as intended; 'L' raises as written and decodes as intended |
| GradingSupport.ValidBasisLettersAsWritten | lib/grouch/utils/grading_support.rb:90-92 | as written, with the normaliser reachable (as the suite's stub makes it) and itself as written: every array and every non-mappable value fails in the normaliser; for a string or nil, true exactly when every letter is an exact table key, which is vacuously so for no letters |
| GradingSupport.AsWrittenAcceptsEmpty | lib/grouch/utils/grading_support.rb:91 | with the normaliser stubbed to return [], as spec/grouch/utils/grading_support_spec.rb:104-112 does, `all?` answers true where the intended check answers false; with it reachable, '' and nil are valid as written and invalid as intended, and [] raises before `all?` |
| Meetings.MeetingArgsError | lib/grouch/entities/meeting.rb:25-33 | fails with a missing field exactly when an argument is nil; succeeds exactly when all are present and the days are valid; otherwise it fails on the days |
| Meetings.Meeting.Letters | lib/grouch/entities/meeting.rb:134 | a constructed meeting has at least one day letter, and every letter is valid |
| Meetings.Meeting.DayNameList | lib/grouch/entities/meeting.rb:90-98 | one weekday name per day letter, in order, each the decoding of its letter |
| Meetings.Meeting.TimeList | lib/grouch/entities/meeting.rb:133-141 | there are as many windows as day letters (what each window holds is stated by Meetings.TimesFollowDayNames) |
| Meetings.Meeting.constructor | lib/grouch/entities/meeting.rb:25-40 | stores the six arguments; both caches start empty |
| Meetings.Meeting.Create | lib/grouch/entities/meeting.rb:25-40 | raises exactly the error `MeetingArgsError` names; otherwise a fresh meeting holding the arguments, with empty caches |
| Meetings.Meeting.DayNames | lib/grouch/entities/meeting.rb:96-98 | returns the decoded day names and leaves them cached, so a later call returns the same list |
| Meetings.Meeting.Times | lib/grouch/entities/meeting.rb:133-141 | returns the time windows and leaves them cached |
| Meetings.TimesFollowDayNames | lib/grouch/entities/meeting.rb:100-141 | there is one time window per day letter; the i-th falls on the i-th day name and carries the meeting's start and end times |
| Meetings.MwfMeeting | spec/grouch/entities/meeting_spec.rb:33-62 | a meeting on 'mwf' is valid, meets monday, wednesday, friday, and has those three windows in that order |
| Meetings.WMeeting | lib/grouch/entities/meeting.rb:90-141 | a meeting on 'w' meets wednesday, in one window |
| Meetings.MeetingArgsErrorExamples | spec/grouch/entities/meeting_spec.rb:5-31 | a nil instructor is a missing field; days 'z' are invalid; the tested arguments are accepted |
| Sections.SectionArgsError | spec/grouch/entities/section_spec.rb:18-43 | fails with a missing field exactly when an argument is nil; succeeds exactly when all are present and every meeting is a Meeting; otherwise it fails on the meetings |
| Sections.Locations | lib/grouch/entities/section.rb:39-46 | one location per meeting, in meeting order |
| Sections.DaysUnion | lib/grouch/entities/section.rb:48-55 | the meeting days are weekday names |
| Sections.TimesConcat | lib/grouch/entities/section.rb:57-96 | a section with at least one meeting has at least one time window |
| Sections.TimesConcatLength | lib/grouch/entities/section.rb:57-96 | there is one time window per day letter over all meetings |
| Sections.TypesUnion | lib/grouch/entities/section.rb:98-105 | there are no more meeting types than meetings |
| Sections.DaysUnionMembers | lib/grouch/entities/section.rb:48-55 | a day is a meeting day exactly when some meeting meets on it |
| Sections.DaysUnionWeekdays | lib/grouch/entities/section.rb:48-55 | the meeting days are weekday names, at most five of them |
| Sections.TypesUnionMembers | lib/grouch/entities/section.rb:98-105 | a type is a meeting type exactly when some meeting has it |
| Sections.TimesConcatAppend | lib/grouch/entities/section.rb:57-96 | the windows of two groups of meetings are the first group's windows followed by the second's |
| Sections.TimesConcatSplit | lib/grouch/entities/section.rb:57-96 | duplicates are kept: the i-th meeting's windows appear whole, after those of the meetings before it and before those after it |
| Sections.TimesCoverDays | lib/grouch/entities/section.rb:48-96 | the days the windows fall on are exactly the meeting days |
| Sections.NoMeetings | spec/grouch/entities/section_spec.rb:56-165 | with no meetings, all four views are empty |
| Sections.TestedSectionDays | spec/grouch/entities/section_spec.rb:65-74 | meetings on 'mwf', 'w' and 'w' meet on monday, wednesday, friday |
| Sections.TestedSectionTimes | spec/grouch/entities/section_spec.rb:85-138 | meetings on 'mwf' and 'w' give the first meeting's windows, then the second's: four in all |
| Sections.TestedSectionTypes | spec/grouch/entities/section_spec.rb:148-157 | lecture, recitation and recitation give the two types |
| Sections.CountsError | spec/grouch/entities/section_spec.rb:222-282 | accepts exactly when both seat counts are integers and each waitlist count is absent or an integer; a failure names the first offending field, with the seat counts checked first |
| Sections.Refreshed | spec/grouch/entities/section_spec.rb:168-220 | an integer argument replaces the stored count; an omitted one keeps it (this model's chosen rule for omitted waitlist arguments) |
| Sections.Section.constructor | spec/grouch/entities/section_spec.rb:18-26 | stores the four arguments; counts unset and caches empty |
| Sections.Section.Create | spec/grouch/entities/section_spec.rb:18-43 | raises exactly the error `SectionArgsError` names; otherwise a fresh section holding the arguments, meetings in order, with counts unset and all four view caches empty |
| Sections.Section.MeetingLocations | lib/grouch/entities/section.rb:39-46 | returns the locations and leaves them cached |
| Sections.Section.MeetingDays | lib/grouch/entities/section.rb:48-55 | returns the meeting days and leaves them cached |
| Sections.Section.MeetingTimes | lib/grouch/entities/section.rb:57-96 | returns the time windows and leaves them cached |
| Sections.Section.MeetingTypes | lib/grouch/entities/section.rb:98-105 | returns the meeting types and leaves them cached |
| Sections.Section.SetCounts | spec/grouch/entities/section_spec.rb:168-283 | raises exactly the error `CountsError` names and then changes no count; otherwise sets both seat counts, and the waitlist counts are replaced when given and, by the chosen rule, kept when omitted |
| Sections.RefreshSeatsTwice | spec/grouch/entities/section_spec.rb:204-220 | two calls that give only the seat counts, as the test's call does, leave the latest seat counts and, by the chosen rule, the waitlist counts as they were |
| Sections.CountsErrorExamples | spec/grouch/entities/section_spec.rb:168-283 | every tested call: the two accepted calls, each field given a string, and each seat count given nil |
| Courses.NewCourse | lib/grouch/entities/course.rb:23-42 | school, semester and grade basis are stored without upper case, equal to the argument up to case; the other fields are stored as given |
| Courses.FullName | lib/grouch/entities/course.rb:93-121 | nil exactly when school, number and name are all absent; it ends with the name when there is one; it starts with the up-cased school, followed by a space and the number when there is one, or with the number when there is no school; without a name it is the school-and-number prefix alone |
| Courses.FullNameSplits | lib/grouch/entities/course.rb:93-99 | with a school and a number the display name splits back into the up-cased school (no lower-case letter left), a space, digits that read back as the number, and then " - name" or nothing |
| Courses.FullNameSplitsSchoolOnly | lib/grouch/entities/course.rb:101-105 | with a school and no number the display name is the up-cased school, then " - name" or nothing |
| Courses.FullNameSplitsNumberOnly | lib/grouch/entities/course.rb:107-111 | with a number and no school the display name is digits that read back as the number, then " - name" or nothing |
| Courses.FullNameSeparator | lib/grouch/entities/course.rb:93-117 | " - " stands right before the name exactly when a school or number precedes it; a name alone is the whole display name |
| Courses.FullNameNumberReadsBack | lib/grouch/entities/course.rb:110-111 | the display name of a course with only a number reads back as that number |
| Courses.FullNameIgnoresSchoolCase | lib/grouch/entities/course.rb:23-29 | schools equal up to case give the same display name, which starts with the up-cased school |
| Courses.FullNameNumberExamples | lib/grouch/entities/course.rb:95-111 | "CS 1332 - name", "CS 1332", "1332 - name" and "1332" |
| Courses.FullNameExamples | lib/grouch/entities/course.rb:101-117 | "CS - name", "CS", the name alone, and nil |
| Courses.TestedCourse | spec/grouch/entities/course_spec.rb:4-11 | the tested course has the display name "CS 1332 - Data Structures and Algorithms"; its school 'CS' is stored as 'cs', as the reader at lib/grouch/entities/course.rb:23-29 documents |
| Courses.GradingFormats | lib/grouch/entities/course.rb:123-140 | no grade basis gives []; otherwise the basis is decoded letter by letter, in order, and succeeds exactly when every letter is valid |
| Courses.GradingFormatsOfNewCourse | lib/grouch/entities/course.rb:31-42 | down-casing the basis at construction does not change its grading formats |
| Courses.LpDecodes | lib/grouch/entities/course.rb:134-136 | the basis 'lp' decodes to letter grade, then pass/fail |
| Courses.GradingFormatsExamples | spec/grouch/entities/course_spec.rb:13-33 | 'lp' (and 'LP') give letter grade, then pass/fail; nil gives [] |

## Left out

- The `Entity` base class and the module mixins are not modelled. The classes derive from
  `Entity`, which is not part of this model. lib/grouch/entities/meeting.rb:10 includes
  `Grouch::Utils::DaySupport`, which is not part of this model either. The methods of the
  `Grouch::DaySupport` shown in lib/grouch/utils/day_support.rb are singleton methods, which an
  include would not make instance methods. The model calls the decoders directly.
- GradingSupport.LettersToBases and GradingSupport.ValidBasisLetters call the normaliser
  directly. As written, lib/grouch/utils/grading_support.rb:60 and :91 cannot reach it:
  `string_enumerator` is a singleton method (lib/grouch/utils/enumerator_support.rb:37), and
  `include EnumeratorSupport` (line 10) does not make it callable from GradingSupport's own
  singleton methods, so every call raises `NoMethodError`. The suite stubs the normaliser, and
  the model follows it.
- Error message texts are not modelled. Errors are the constructors of `Errors.Error`, and
  `InvalidCount` names the field.
- Times are opaque strings. Nothing parses or compares '8:05am'.
- `hours` is a Float in the source and an `int` in the model. Floating point is out of scope.
- Restrictions, prerequisites and corequisites (lib/grouch/entities/course.rb:73-86) are not
  modelled. Their entities are not part of this model.
- The scraper, HTTP, HTML parsing and persistence are not modelled, since they are I/O. So is
  concurrent access to a section's caches and counters; the source assumes a single thread.
- `String#downcase` and `String#upcase` are modelled on the ASCII letters only. Ruby's full
  Unicode case mapping is left out.
- Courses.NewCourse takes the number, year and hours as integers. The source may also coerce a
  numeric string with `to_i`, and that coercion is not modelled.
- Courses.NewCourse stores the semester and the grade basis in lower case. Only the school's
  lower case is documented (lib/grouch/entities/course.rb:26); for the other two this is the
  model's chosen rule, following their documented values (lines 31-42, 52-63).
- Courses.NewCourse does not restrict the semester to spring, summer and fall. The source
  documents those values (lib/grouch/entities/course.rb:52-63) but checks nothing.
- The hash `{ day:, start_time:, end_time: }` is the datatype `Meetings.TimeWindow`.
- Sections.Section.MeetingLocations, MeetingDays, MeetingTimes and MeetingTypes compute their
  views from each meeting's specification functions, not through each meeting's own cache. The
  two agree by `Meetings.Meeting.DayNames` and `Meetings.Meeting.Times`, but the model does not
  fill the meetings' caches as a side effect.
- Sections.Section.Create requires every genuine meeting to be well-formed. In Ruby a `Meeting`
  object exists only once its constructor has accepted its days, and `Meetings.Meeting.Create`
  establishes exactly that.
- Sections.Section.SetCounts keeps a stored waitlist count when its argument is omitted. This is
  the model's chosen rule: neither the code nor the tests state it (spec/grouch/entities/section_spec.rb:204-220
  calls `set_counts` once, without waitlist arguments, and checks only `seats_limit_count`).
- Sections.Section.SetCounts checks all four arguments before writing any of them, so a
  rejected call changes nothing. It does not check `seats_taken <= seats_limit`, and counts may
  be negative; the source checks neither.
- Section `crn` is an integer. The test suite passes '123456'; the model does not distinguish
  integer-like strings.
- DaySupport.LettersToDays rejects nil as not mappable, following
  lib/grouch/utils/day_support.rb:59-69. It does not return an empty list.

## Findings

| source | as written | input that shows it | evidently intended | confidence | as-written member | corrected member |
|---|---|---|---|---|---|---|
| lib/grouch/utils/enumerator_support.rb:41 | `instance_methods.includes?(:map)`; `Array` has no `includes?`, so every non-string, non-nil value raises `NoMethodError` | `string_enumerator(['d', 'o', 'g'])` | `include?`: an array passes through unchanged (documentation lines 14-22, test lines 20-23) | not executed | EnumeratorSupport.StringEnumeratorAsWritten | EnumeratorSupport.StringEnumerator |
| lib/grouch/utils/day_support.rb:62 | the same misspelt `includes?` in `letters_to_days` | `letters_to_days(['m', 'w', 'f'])` | the array is decoded to monday, wednesday, friday | not executed | DaySupport.LettersToDaysAsWritten | DaySupport.LettersToDays |
| lib/grouch/utils/grading_support.rb:76 | `has_key?(letter)` on the letter as given, so case matters, and `letter_to_basis` (line 39) rejects upper case despite down-casing on line 37 | `valid_basis_letter?('P')`, `letter_to_basis('L')` | case is ignored (test lines 45-50): 'P' is valid and 'L' is letter grade | not executed | GradingSupport.LetterToBasisAsWritten | GradingSupport.LetterToBasis |
| lib/grouch/utils/grading_support.rb:91 | `all?` over the normalised letters, which is true for an empty sequence | `valid_basis_letters?('')` with `string_enumerator` stubbed to return [] (spec/grouch/utils/grading_support_spec.rb:104-112) | no letters is invalid, as that test expects | not executed | GradingSupport.ValidBasisLettersAsWritten | GradingSupport.ValidBasisLetters |
