/** `Grouch::EnumeratorSupport.string_enumerator`: one uniform element sequence for nil,
    a String of letters, or a collection that already has elements. */
module EnumeratorSupport {
  import opened Wrappers
  import opened Errors

  /** The Ruby values a caller may hand to the normaliser. `Items` is any value that responds
      to `map` (an Array in practice); `Other` is everything else, such as an Integer. */
  datatype Value = Nil | Text(s: string) | Items(elems: seq<string>) | Other

  /** `String#each_char`: every character as a one-character string. */
  function Chars(s: string): seq<string>
  {
    seq(|s|, i requires 0 <= i < |s| => [s[i]])
  }

  /** Joins a sequence of strings back together (`Array#join`). */
  function Concat(xs: seq<string>): string
  {
    if xs == [] then "" else xs[0] + Concat(xs[1..])
  }

  /** nil gives no elements, a String its characters in order, a mappable value itself;
      anything else is rejected as not mappable. */
  function StringEnumerator(v: Value): (r: Result<seq<string>, Error>)
    ensures v.Nil? ==> r == Success([])
    ensures v.Text? ==> r.Success? && |r.value| == |v.s|
    ensures v.Text? ==> forall i :: 0 <= i < |v.s| ==> r.value[i] == [v.s[i]]
    ensures v.Items? ==> r == Success(v.elems)
    ensures v.Other? ==> r == Failure(NotIterable)
  {
    match v
    case Nil => Success([])
    case Text(s) => Success(Chars(s))
    case Items(xs) => Success(xs)
    case Other => Failure(NotIterable)
  }

  /** Joining the characters of a string gives the string back. */
  lemma {:induction false} ConcatChars(s: string)
    ensures Concat(Chars(s)) == s
  {
    if s != [] {
      assert Chars(s)[1..] == Chars(s[1..]);
      ConcatChars(s[1..]);
      assert s == [s[0]] + s[1..];
    }
  }

  /** Splitting a String loses nothing: joining its elements restores it, and every
      element is a single character. */
  lemma TextRoundTrip(s: string)
    ensures StringEnumerator(Text(s)).Success?
    ensures Concat(StringEnumerator(Text(s)).value) == s
    ensures forall e :: e in StringEnumerator(Text(s)).value ==> |e| == 1
  {
    ConcatChars(s);
  }

  /** Normalising is idempotent: the elements of a normalisation, handed back as a
      collection, normalise to themselves. */
  lemma Idempotent(v: Value)
    requires StringEnumerator(v).Success?
    ensures StringEnumerator(Items(StringEnumerator(v).value)) == StringEnumerator(v)
  {
  }

  /** The documented examples: 'cat' splits into letters, arrays of letters or of words pass
      through, nil is empty and an Integer is rejected. */
  lemma Examples()
    ensures StringEnumerator(Text("cat")) == Success(["c", "a", "t"])
    ensures StringEnumerator(Items(["d", "o", "g"])) == Success(["d", "o", "g"])
    ensures StringEnumerator(Items(["dog", "cat"])) == Success(["dog", "cat"])
    ensures StringEnumerator(Nil) == Success([])
    ensures StringEnumerator(Other) == Failure(NotIterable)
  {
    assert Chars("cat") == ["c", "a", "t"];
  }

  /** The method as written: `instance_methods.includes?(:map)` calls a method that Array
      does not have, so every value that is neither nil nor a String raises NoMethodError. */
  function StringEnumeratorAsWritten(v: Value): (r: Result<seq<string>, Error>)
    ensures v.Items? || v.Other? ==> r == Failure(UndefinedMethod)
    ensures v.Nil? || v.Text? ==> r == StringEnumerator(v)
  {
    match v
    case Nil => Success([])
    case Text(s) => Success(Chars(s))
    case _ => Failure(UndefinedMethod)
  }

  /** The array ['d', 'o', 'g'] of the documented example is rejected as written and passes
      through as intended; the Integer 1234 raises the wrong kind of error as written. */
  lemma AsWrittenRejectsArrays()
    ensures StringEnumeratorAsWritten(Items(["d", "o", "g"])).Failure?
    ensures StringEnumerator(Items(["d", "o", "g"])) == Success(["d", "o", "g"])
    ensures StringEnumeratorAsWritten(Other) != StringEnumerator(Other)
  {
  }
}
