/** `Grouch::DaySupport`: the day letters of the registration system (m t w r f) and the
    lower-case weekday names they stand for.

    Both letter codecs follow one rule for their validators, the one the test suite asserts:
    a letter is compared after `downcase` (so 'M' is as valid as 'm', and nil, whose `to_s` is
    the empty string, is never valid), and a sequence of letters is valid only when it is
    non-empty and every element is valid. */
module DaySupport {
  import opened Wrappers
  import opened Errors
  import opened Strings
  import opened EnumeratorSupport

  const DayLetters: set<string> := {"m", "t", "w", "r", "f"}

  const Weekdays: set<string> := {"monday", "tuesday", "wednesday", "thursday", "friday"}

  /** The `case` table of `letter_to_day`, applied to an already down-cased letter. */
  function DayFor(lowered: string): (r: Option<string>)
    ensures r.Some? <==> lowered in DayLetters
    ensures r.Some? ==> r.value in Weekdays
  {
    if lowered == "m" then Some("monday")
    else if lowered == "t" then Some("tuesday")
    else if lowered == "w" then Some("wednesday")
    else if lowered == "r" then Some("thursday")
    else if lowered == "f" then Some("friday")
    else None
  }

  /** `valid_day_letter?`: the down-cased letter is one of the five day letters. Only a single
      character can be valid, nil never is, and the upper-case letters are as valid as the
      lower-case ones. */
  predicate ValidDayLetter(letter: Option<string>)
    ensures ValidDayLetter(letter) ==> letter.Some? && |letter.value| == 1
    ensures letter.Some? && letter.value in {"M", "T", "W", "R", "F"} ==> ValidDayLetter(letter)
  {
    assert DownCase("M") == "m" && DownCase("T") == "t" && DownCase("W") == "w";
    assert DownCase("R") == "r" && DownCase("F") == "f";
    DownCase(ToS(letter)) in DayLetters
  }

  /** `letter_to_day`: the weekday a letter stands for, ignoring case; any other letter,
      the empty string and nil raise. */
  function LetterToDay(letter: Option<string>): (r: Result<string, Error>)
    ensures r.Success? <==> ValidDayLetter(letter)
    ensures r.Success? ==> r.value in Weekdays
    ensures r.Failure? ==> r.error == InvalidCode
  {
    match DayFor(DownCase(ToS(letter)))
    case Some(day) => Success(day)
    case None => Failure(InvalidCode)
  }

  /** `letters_to_days`: the letters of a String, or the elements of a collection, decoded one
      by one in order. Unlike `string_enumerator` the method tests the value itself and has no
      nil branch, so nil is rejected as not mappable. */
  function LettersToDays(letters: Value): (r: Result<seq<string>, Error>)
    ensures letters.Nil? || letters.Other? ==> r == Failure(NotIterable)
    ensures letters.Text? || letters.Items? ==>
      var xs := StringEnumerator(letters).value;
      && (r.Success? <==> forall i :: 0 <= i < |xs| ==> ValidDayLetter(Some(xs[i])))
      && (r.Success? ==> |r.value| == |xs|)
      && (r.Success? ==> forall i :: 0 <= i < |xs| ==> LetterToDay(Some(xs[i])) == Success(r.value[i]))
      && (r.Failure? ==> r.error == InvalidCode)
  {
    match letters
    case Text(s) => MapAll(Chars(s), (x: string) => LetterToDay(Some(x)))
    case Items(xs) => MapAll(xs, (x: string) => LetterToDay(Some(x)))
    case _ => Failure(NotIterable)
  }

  /** `valid_day_letters?`: the normalised sequence is non-empty and every letter is valid.
      The normaliser's own error propagates for a value that is not mappable. */
  function ValidDayLetters(letters: Value): (r: Result<bool, Error>)
    ensures r.Success? <==> !letters.Other?
    ensures r.Failure? ==> r.error == NotIterable
    ensures letters.Nil? ==> r == Success(false)
    ensures r == Success(true) ==> |StringEnumerator(letters).value| > 0
  {
    match StringEnumerator(letters)
    case Failure(e) => Failure(e)
    case Success(xs) => Success(|xs| > 0 && forall i :: 0 <= i < |xs| ==> ValidDayLetter(Some(xs[i])))
  }

  /** The validator and the decoder agree: letters are valid exactly when they decode to a
      non-empty list of days. */
  lemma ValidIffDecodes(letters: Value)
    ensures ValidDayLetters(letters) == Success(true) <==>
            LettersToDays(letters).Success? && |LettersToDays(letters).value| > 0
  {
  }

  /** An invalid sequence is reported as such, not as an error, whenever it is mappable;
      an empty sequence and a sequence with one bad letter are both invalid. */
  lemma ValidDayLettersRejects(letters: Value)
    requires !letters.Other?
    ensures ValidDayLetters(letters).Success?
    ensures StringEnumerator(letters).value == [] ==> ValidDayLetters(letters) == Success(false)
    ensures (exists i :: 0 <= i < |StringEnumerator(letters).value| &&
                         !ValidDayLetter(Some(StringEnumerator(letters).value[i])))
            ==> ValidDayLetters(letters) == Success(false)
  {
  }

  /** Decoding ignores case: an up-cased or down-cased letter decodes like the letter itself. */
  lemma LetterToDayIgnoresCase(s: string)
    ensures LetterToDay(Some(UpCase(s))) == LetterToDay(Some(s))
    ensures LetterToDay(Some(DownCase(s))) == LetterToDay(Some(s))
  {
    CaseRoundTrips(s);
    DownCaseNormalises(s);
  }

  /** Decoding a whole String ignores case as well. */
  lemma LettersToDaysIgnoresCase(s: string)
    ensures LettersToDays(Text(UpCase(s))) == LettersToDays(Text(s))
  {
    var f := (x: string) => LetterToDay(Some(x));
    forall i | 0 <= i < |s|
      ensures f(Chars(UpCase(s))[i]) == f(Chars(s)[i])
    {
      assert Chars(UpCase(s))[i] == UpCase([s[i]]);
      LetterToDayIgnoresCase([s[i]]);
    }
    MapAllCongruent(Chars(UpCase(s)), Chars(s), f, f);
  }

  /** Distinct letters name distinct days: the table is one-to-one. */
  lemma LetterToDayInjective(a: Option<string>, b: Option<string>)
    requires LetterToDay(a).Success? && LetterToDay(a) == LetterToDay(b)
    ensures DownCase(ToS(a)) == DownCase(ToS(b))
  {
  }

  /** Every weekday is named by some letter: decoding is onto the five weekday names. */
  lemma LetterToDayOnto(day: string)
    requires day in Weekdays
    ensures exists l :: l in DayLetters && LetterToDay(Some(l)) == Success(day)
  {
    var l := if day == "monday" then "m" else if day == "tuesday" then "t"
             else if day == "wednesday" then "w" else if day == "thursday" then "r" else "f";
    assert DownCase(l) == l;
    assert LetterToDay(Some(l)) == Success(day);
  }

  /** The table of the documented method: m, t, w, r, f name Monday to Friday; 's' and nil raise. */
  lemma Examples()
    ensures LetterToDay(Some("m")) == Success("monday")
    ensures LetterToDay(Some("t")) == Success("tuesday")
    ensures LetterToDay(Some("w")) == Success("wednesday")
    ensures LetterToDay(Some("r")) == Success("thursday")
    ensures LetterToDay(Some("f")) == Success("friday")
    ensures LetterToDay(Some("s")) == Failure(InvalidCode)
    ensures LetterToDay(None) == Failure(InvalidCode)
  {
    assert DownCase("m") == "m" && DownCase("t") == "t" && DownCase("w") == "w";
    assert DownCase("r") == "r" && DownCase("f") == "f" && DownCase("s") == "s";
  }

  /** The tested validator cases: 'm' and 'M' are valid; 's', 'N' and nil are not; an empty
      sequence and a sequence holding 's' are invalid; 'mwf' is valid and decodes in order. */
  lemma ValidatorExamples()
    ensures ValidDayLetter(Some("m")) && ValidDayLetter(Some("M"))
    ensures !ValidDayLetter(Some("s")) && !ValidDayLetter(Some("N")) && !ValidDayLetter(None)
    ensures ValidDayLetters(Items([])) == Success(false)
    ensures ValidDayLetters(Items(["m", "s", "f"])) == Success(false)
    ensures ValidDayLetters(Text("mwf")) == Success(true)
    ensures LettersToDays(Text("mwf")) == Success(["monday", "wednesday", "friday"])
  {
    assert DownCase("m") == "m" && DownCase("M") == "m";
    assert DownCase("s") == "s" && DownCase("N") == "n";
    assert !ValidDayLetter(Some(["m", "s", "f"][1]));
    assert StringEnumerator(Text("mwf")).value == ["m", "w", "f"];
    MwfDecodes(Text("mwf"));
    ValidIffDecodes(Text("mwf"));
  }

  /** `letters_to_days` as written: its `includes?` test raises NoMethodError for every value
      that is not a String, so only Strings decode. */
  function LettersToDaysAsWritten(letters: Value): (r: Result<seq<string>, Error>)
    ensures !letters.Text? ==> r == Failure(UndefinedMethod)
    ensures letters.Text? ==> r == LettersToDays(letters)
  {
    match letters
    case Text(s) => MapAll(Chars(s), (x: string) => LetterToDay(Some(x)))
    case _ => Failure(UndefinedMethod)
  }

  /** The array ['m', 'w', 'f'] fails as written and decodes as intended. */
  lemma AsWrittenRejectsArrays()
    ensures LettersToDaysAsWritten(Items(["m", "w", "f"])).Failure?
    ensures LettersToDays(Items(["m", "w", "f"])) == Success(["monday", "wednesday", "friday"])
  {
    MwfDecodes(Items(["m", "w", "f"]));
  }

  /** Whichever way the letters m, w, f are given, they decode to Monday, Wednesday, Friday. */
  lemma MwfDecodes(letters: Value)
    requires letters.Text? || letters.Items?
    requires StringEnumerator(letters) == Success(["m", "w", "f"])
    ensures LettersToDays(letters) == Success(["monday", "wednesday", "friday"])
  {
    var xs := ["m", "w", "f"];
    assert DownCase("m") == "m" && DownCase("w") == "w" && DownCase("f") == "f";
    assert LetterToDay(Some(xs[0])) == Success("monday");
    assert LetterToDay(Some(xs[1])) == Success("wednesday");
    assert LetterToDay(Some(xs[2])) == Success("friday");
    assert forall i :: 0 <= i < |xs| ==> ValidDayLetter(Some(xs[i]));
    var r := LettersToDays(letters);
    assert r.Success? && |r.value| == 3;
    assert LetterToDay(Some(xs[0])) == Success(r.value[0]);
    assert LetterToDay(Some(xs[1])) == Success(r.value[1]);
    assert LetterToDay(Some(xs[2])) == Success(r.value[2]);
    assert r.value == ["monday", "wednesday", "friday"];
  }
}
