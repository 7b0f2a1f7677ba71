/** `Grouch::GradingSupport`: the grading-basis letters of the registration system (ALP format)
    and their human-readable descriptions.

    The validators follow the rule shared with the day codec (see DaySupport): letters are
    compared after `downcase`, and an empty sequence of letters is invalid. The code as written
    compares exactly and accepts an empty sequence; both variants are modelled below with the
    inputs that tell them apart. */
module GradingSupport {
  import opened Wrappers
  import opened Errors
  import opened Strings
  import opened EnumeratorSupport

  /** `VALID_LETTERS`: the keys are the basis letters, the values their descriptions. */
  const ValidLetters: map<string, string> :=
    map["a" := "audit", "l" := "letter grade", "p" := "pass/fail"]

  const Bases: set<string> := {"audit", "letter grade", "pass/fail"}

  /** `valid_basis_letter?`: the down-cased letter is a key of the table. Only a single
      character can be valid, nil never is, and 'A', 'L', 'P' are as valid as 'a', 'l', 'p'. */
  predicate ValidBasisLetter(letter: Option<string>)
    ensures ValidBasisLetter(letter) ==> letter.Some? && |letter.value| == 1
    ensures letter.Some? && letter.value in {"A", "L", "P"} ==> ValidBasisLetter(letter)
  {
    assert DownCase("A") == "a" && DownCase("L") == "l" && DownCase("P") == "p";
    DownCase(ToS(letter)) in ValidLetters
  }

  /** `letter_to_basis`: the table entry of the down-cased letter, for a valid letter only. */
  function LetterToBasis(letter: Option<string>): (r: Result<string, Error>)
    ensures r.Success? <==> ValidBasisLetter(letter)
    ensures r.Success? ==> r.value in Bases
    ensures r.Failure? ==> r.error == InvalidCode
  {
    var lowercase := DownCase(ToS(letter));
    if !ValidBasisLetter(letter) then Failure(InvalidCode) else Success(ValidLetters[lowercase])
  }

  /** `letters_to_bases`: the normalised letters decoded one by one, in order. nil has no
      letters and gives no bases. */
  function LettersToBases(letters: Value): (r: Result<seq<string>, Error>)
    ensures letters.Other? ==> r == Failure(NotIterable)
    ensures letters.Nil? ==> r == Success([])
    ensures !letters.Other? ==>
      var xs := StringEnumerator(letters).value;
      && (r.Success? <==> forall i :: 0 <= i < |xs| ==> ValidBasisLetter(Some(xs[i])))
      && (r.Success? ==> |r.value| == |xs|)
      && (r.Success? ==> forall i :: 0 <= i < |xs| ==> LetterToBasis(Some(xs[i])) == Success(r.value[i]))
      && (r.Failure? ==> r.error == InvalidCode)
  {
    match StringEnumerator(letters)
    case Failure(e) => Failure(e)
    case Success(xs) => MapAll(xs, (x: string) => LetterToBasis(Some(x)))
  }

  /** `valid_basis_letters?`: the normalised sequence is non-empty and every letter is valid. */
  function ValidBasisLetters(letters: Value): (r: Result<bool, Error>)
    ensures r.Success? <==> !letters.Other?
    ensures r.Failure? ==> r.error == NotIterable
    ensures letters.Nil? ==> r == Success(false)
    ensures r == Success(true) ==> |StringEnumerator(letters).value| > 0
  {
    match StringEnumerator(letters)
    case Failure(e) => Failure(e)
    case Success(xs) => Success(|xs| > 0 && forall i :: 0 <= i < |xs| ==> ValidBasisLetter(Some(xs[i])))
  }

  /** The table holds exactly the three ALP letters. */
  lemma TableExactly()
    ensures ValidLetters.Keys == {"a", "l", "p"}
    ensures ValidLetters.Values == Bases
    ensures forall l :: l in ValidLetters ==> DownCase(l) == l
  {
    assert ValidLetters["a"] == "audit" && ValidLetters["l"] == "letter grade";
    assert ValidLetters["p"] == "pass/fail";
  }

  /** The validator and the decoder agree: letters are valid exactly when they decode to a
      non-empty list of bases. */
  lemma ValidIffDecodes(letters: Value)
    ensures ValidBasisLetters(letters) == Success(true) <==>
            LettersToBases(letters).Success? && |LettersToBases(letters).value| > 0
  {
  }

  /** An empty sequence and a sequence with one bad letter are invalid, not errors. */
  lemma ValidBasisLettersRejects(letters: Value)
    requires !letters.Other?
    ensures ValidBasisLetters(letters).Success?
    ensures StringEnumerator(letters).value == [] ==> ValidBasisLetters(letters) == Success(false)
    ensures (exists i :: 0 <= i < |StringEnumerator(letters).value| &&
                         !ValidBasisLetter(Some(StringEnumerator(letters).value[i])))
            ==> ValidBasisLetters(letters) == Success(false)
  {
  }

  /** Decoding ignores case. */
  lemma LetterToBasisIgnoresCase(s: string)
    ensures LetterToBasis(Some(UpCase(s))) == LetterToBasis(Some(s))
    ensures LetterToBasis(Some(DownCase(s))) == LetterToBasis(Some(s))
  {
    CaseRoundTrips(s);
    DownCaseNormalises(s);
  }

  /** Decoding a whole String ignores case as well; in particular a down-cased basis string
      decodes like the original. */
  lemma LettersToBasesIgnoresCase(s: string)
    ensures LettersToBases(Text(DownCase(s))) == LettersToBases(Text(s))
    ensures LettersToBases(Text(UpCase(s))) == LettersToBases(Text(s))
  {
    var f := (x: string) => LetterToBasis(Some(x));
    forall i | 0 <= i < |s|
      ensures f(Chars(DownCase(s))[i]) == f(Chars(s)[i])
      ensures f(Chars(UpCase(s))[i]) == f(Chars(s)[i])
    {
      assert Chars(DownCase(s))[i] == DownCase([s[i]]);
      assert Chars(UpCase(s))[i] == UpCase([s[i]]);
      LetterToBasisIgnoresCase([s[i]]);
    }
    MapAllCongruent(Chars(DownCase(s)), Chars(s), f, f);
    MapAllCongruent(Chars(UpCase(s)), Chars(s), f, f);
  }

  /** Distinct letters name distinct bases. */
  lemma LetterToBasisInjective(a: Option<string>, b: Option<string>)
    requires LetterToBasis(a).Success? && LetterToBasis(a) == LetterToBasis(b)
    ensures DownCase(ToS(a)) == DownCase(ToS(b))
  {
    TableExactly();
  }

  /** The tested single-letter cases. */
  lemma Examples()
    ensures LetterToBasis(Some("a")) == Success("audit")
    ensures LetterToBasis(Some("l")) == Success("letter grade")
    ensures LetterToBasis(Some("p")) == Success("pass/fail")
    ensures LetterToBasis(Some("s")) == Failure(InvalidCode)
    ensures ValidBasisLetter(Some("l")) && ValidBasisLetter(Some("P"))
    ensures !ValidBasisLetter(Some("s")) && !ValidBasisLetter(Some("N")) && !ValidBasisLetter(None)
  {
    assert DownCase("a") == "a" && DownCase("l") == "l" && DownCase("p") == "p";
    assert DownCase("P") == "p" && DownCase("s") == "s" && DownCase("N") == "n";
  }

  /** The tested sequence cases: a, l, p decode in order; empty and 'm', 'a', 'f' are invalid. */
  lemma SequenceExamples()
    ensures LettersToBases(Items(["a", "l", "p"])) == Success(["audit", "letter grade", "pass/fail"])
    ensures ValidBasisLetters(Items(["a", "l", "p"])) == Success(true)
    ensures ValidBasisLetters(Items([])) == Success(false)
    ensures ValidBasisLetters(Items(["m", "a", "f"])) == Success(false)
  {
    var xs := ["a", "l", "p"];
    assert DownCase("a") == "a" && DownCase("l") == "l" && DownCase("p") == "p";
    assert DownCase("m") == "m";
    assert LetterToBasis(Some(xs[0])) == Success("audit");
    assert LetterToBasis(Some(xs[1])) == Success("letter grade");
    assert LetterToBasis(Some(xs[2])) == Success("pass/fail");
    assert forall i :: 0 <= i < |xs| ==> ValidBasisLetter(Some(xs[i]));
    var r := LettersToBases(Items(xs));
    assert r.Success? && |r.value| == 3;
    assert LetterToBasis(Some(xs[0])) == Success(r.value[0]);
    assert LetterToBasis(Some(xs[1])) == Success(r.value[1]);
    assert LetterToBasis(Some(xs[2])) == Success(r.value[2]);
    assert r.value == ["audit", "letter grade", "pass/fail"];
    assert !ValidBasisLetter(Some(["m", "a", "f"][0]));
  }

  /** `valid_basis_letter?` as written: `has_key?` on the letter itself, so case matters. It
      accepts only lower-case letters, and only letters the intended check also accepts. */
  predicate ValidBasisLetterAsWritten(letter: Option<string>)
    ensures ValidBasisLetterAsWritten(letter) ==> ValidBasisLetter(letter) && HasNoUpper(letter.value)
  {
    assert DownCase("a") == "a" && DownCase("l") == "l" && DownCase("p") == "p";
    letter.Some? && letter.value in ValidLetters
  }

  /** `letter_to_basis` as written: validated by the exact-match predicate, then looked up
      down-cased. */
  function LetterToBasisAsWritten(letter: Option<string>): (r: Result<string, Error>)
    ensures r.Success? <==> ValidBasisLetterAsWritten(letter)
  {
    var lowercase := DownCase(ToS(letter));
    if !ValidBasisLetterAsWritten(letter) then Failure(InvalidCode)
    else
      assert DownCase(letter.value) == letter.value;
      Success(ValidLetters[lowercase])
  }

  /** 'P' is rejected as written although the suite expects it to be valid, and so
      `letter_to_basis('L')` raises even though the method down-cases its argument. */
  lemma AsWrittenIsCaseSensitive()
    ensures !ValidBasisLetterAsWritten(Some("P")) && ValidBasisLetter(Some("P"))
    ensures LetterToBasisAsWritten(Some("L")).Failure?
    ensures LetterToBasis(Some("L")) == Success("letter grade")
  {
    assert DownCase("P") == "p" && DownCase("L") == "l";
  }

  /** The block of `valid_basis_letters?` as written, on letters already normalised: `all?`
      of the exact-match check, true of no letters at all. */
  predicate AllBasisLettersAsWritten(xs: seq<string>)
  {
    forall i :: 0 <= i < |xs| ==> ValidBasisLetterAsWritten(Some(xs[i]))
  }

  /** `valid_basis_letters?` as written, with `string_enumerator` reachable as the suite's stub
      makes it (the singleton normaliser is not callable from here otherwise): the normaliser as
      written, then `all?`. An array never reaches `all?`, since the misspelt `includes?` raises
      first; a String or nil does. */
  function ValidBasisLettersAsWritten(letters: Value): (r: Result<bool, Error>)
    ensures r.Success? <==> letters.Nil? || letters.Text?
    ensures letters.Items? || letters.Other? ==> r == Failure(UndefinedMethod)
    ensures r == Success(true) <==>
      (letters.Nil? || letters.Text?) && forall i :: 0 <= i < |StringEnumerator(letters).value| ==>
        ValidBasisLetterAsWritten(Some(StringEnumerator(letters).value[i]))
  {
    match StringEnumeratorAsWritten(letters)
    case Failure(e) => Failure(e)
    case Success(xs) => Success(AllBasisLettersAsWritten(xs))
  }

  /** No letters pass as written, because `all?` of no letters is true; the suite expects them
      to be invalid. With the normaliser stubbed to return [] (whatever the argument), the
      as-written block answers true and the intended check false; unstubbed but reachable, ''
      and nil pass as written, and the array [] raises in the normaliser before `all?` runs. */
  lemma AsWrittenAcceptsEmpty()
    ensures AllBasisLettersAsWritten([])
    ensures ValidBasisLetters(Items([])) == Success(false)
    ensures ValidBasisLettersAsWritten(Text("")) == Success(true)
    ensures ValidBasisLetters(Text("")) == Success(false)
    ensures ValidBasisLettersAsWritten(Nil) == Success(true)
    ensures ValidBasisLetters(Nil) == Success(false)
    ensures ValidBasisLettersAsWritten(Items([])) == Failure(UndefinedMethod)
  {
  }
}
