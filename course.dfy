/** `Grouch::Course`: a catalog course with its sections. Nothing changes after construction;
    the constructor only normalises case. */
module Courses {
  import opened Wrappers
  import opened Errors
  import opened Strings
  import opened EnumeratorSupport
  import GradingSupport
  import Sections

  /** A course as stored: `school`, `semester` and `grade_basis` down-cased, absent ones nil. */
  datatype Course = Course(
    school: Option<string>,
    number: Option<int>,
    name: Option<string>,
    semester: Option<string>,
    year: int,
    hours: int,
    sections: seq<Sections.Section>,
    gradeBasis: Option<string>)

  function DownCaseOpt(x: Option<string>): (r: Option<string>)
    ensures r.Some? <==> x.Some?
    ensures r.Some? ==> HasNoUpper(r.value) && DownCase(r.value) == DownCase(x.value)
  {
    DownCaseNormalises(ToS(x));
    if x.Some? then Some(DownCase(x.value)) else None
  }

  /** `Course.new`: every argument is stored, the case of school, semester and grade basis
      normalised to lower case. */
  function NewCourse(school: Option<string>, number: Option<int>, name: Option<string>,
                     semester: Option<string>, year: int, hours: int,
                     sections: seq<Sections.Section>, gradeBasis: Option<string>): (c: Course)
    ensures c.school.Some? <==> school.Some?
    ensures c.school.Some? ==> HasNoUpper(c.school.value) && DownCase(c.school.value) == DownCase(school.value)
    ensures c.semester.Some? <==> semester.Some?
    ensures c.semester.Some? ==> HasNoUpper(c.semester.value) && DownCase(c.semester.value) == DownCase(semester.value)
    ensures c.gradeBasis.Some? <==> gradeBasis.Some?
    ensures c.gradeBasis.Some? ==> HasNoUpper(c.gradeBasis.value) && DownCase(c.gradeBasis.value) == DownCase(gradeBasis.value)
    ensures c.number == number && c.name == name && c.year == year && c.hours == hours
    ensures c.sections == sections
  {
    Course(DownCaseOpt(school), number, name, DownCaseOpt(semester), year, hours, sections,
           DownCaseOpt(gradeBasis))
  }

  /** The part of the display name before the course name: the up-cased school and the
      number, separated by a space, whichever of the two are present. */
  function Prefix(c: Course): Option<string>
  {
    match (c.school, c.number)
    case (Some(s), Some(n)) => Some(UpCase(s) + " " + IntToString(n))
    case (Some(s), None) => Some(UpCase(s))
    case (None, Some(n)) => Some(IntToString(n))
    case (None, None) => None
  }

  predicate StartsWith(s: string, p: string)
  {
    |p| <= |s| && s[..|p|] == p
  }

  predicate EndsWith(s: string, p: string)
  {
    |p| <= |s| && s[|s| - |p|..] == p
  }

  /** `full_name`: "SCHOOL NUMBER - name", leaving out what is absent; the " - " only when a
      name follows a school or number; nil rather than "" when school, number and name are
      all absent. */
  function FullName(c: Course): (r: Option<string>)
    ensures r.None? <==> c.school.None? && c.number.None? && c.name.None?
    ensures c.name.Some? ==> r.Some? && EndsWith(r.value, c.name.value)
    ensures c.school.Some? ==> r.Some? && StartsWith(r.value, UpCase(c.school.value))
    ensures c.school.None? && c.number.Some? ==> r.Some? && StartsWith(r.value, IntToString(c.number.value))
    ensures c.school.Some? && c.number.Some? ==>
      r.Some? && StartsWith(r.value, UpCase(c.school.value) + " " + IntToString(c.number.value))
    ensures c.name.None? ==> r == Prefix(c)
  {
    match (Prefix(c), c.name)
    case (Some(p), Some(n)) => Some(p + " - " + n)
    case (Some(p), None) => Some(p)
    case (None, Some(n)) => Some(n)
    case (None, None) => None
  }

  /** The separator appears exactly when a name and a school or number are both present: then
      " - " stands right before the name; with the name alone the display name is the name. */
  lemma FullNameSeparator(c: Course)
    requires c.name.Some?
    ensures var r := FullName(c).value; var n := c.name.value;
      (c.school.Some? || c.number.Some?) ==>
        |r| >= |n| + 3 && r[|r| - |n| - 3..|r| - |n|] == " - "
    ensures c.school.None? && c.number.None? ==> FullName(c) == c.name
  {
    if c.school.Some? || c.number.Some? {
      var p := Prefix(c).value;
      var r := FullName(c).value;
      assert r == p + " - " + c.name.value;
      assert r[|p|..|p| + 3] == " - ";
    }
  }

  /** The display name splits back into its parts: with a school and a number it is the
      up-cased school, a space, the number's digits (which read back as the number), and then
      " - " and the name when there is one, or nothing more. */
  lemma FullNameSplits(c: Course)
    requires c.school.Some? && c.number.Some?
    ensures var r := FullName(c).value; var s := c.school.value; var k := |s| + 1 + |IntToString(c.number.value)|;
      && k <= |r|
      && r[..|s|] == UpCase(s) && HasNoLower(r[..|s|])
      && r[|s|] == ' '
      && ParseInt(r[|s| + 1..k]) == c.number
      && (c.name.Some? ==> r[k..] == " - " + c.name.value)
      && (c.name.None? ==> |r| == k)
  {
    var r := FullName(c).value;
    var s := c.school.value;
    var digits := IntToString(c.number.value);
    var p := UpCase(s) + " " + digits;
    assert Prefix(c) == Some(p);
    assert r[..|p|] == p;
    assert r[..|s|] == p[..|s|];
    UpCaseNormalises(s);
    assert r[|s| + 1..|p|] == p[|s| + 1..] == digits;
    IntToStringRoundTrip(c.number.value);
    if c.name.Some? {
      assert r == p + (" - " + c.name.value);
    }
  }

  /** With a school but no number the display name is the up-cased school, then " - " and the
      name when there is one, or nothing more. */
  lemma FullNameSplitsSchoolOnly(c: Course)
    requires c.school.Some? && c.number.None?
    ensures var r := FullName(c).value; var s := c.school.value;
      && |s| <= |r|
      && r[..|s|] == UpCase(s) && HasNoLower(r[..|s|])
      && (c.name.Some? ==> r[|s|..] == " - " + c.name.value)
      && (c.name.None? ==> |r| == |s|)
  {
    var r := FullName(c).value;
    var s := c.school.value;
    UpCaseNormalises(s);
    assert Prefix(c) == Some(UpCase(s));
    if c.name.Some? {
      assert r == UpCase(s) + (" - " + c.name.value);
    }
  }

  /** With a number but no school the display name is the number's digits, which read back as
      the number, then " - " and the name when there is one, or nothing more. */
  lemma FullNameSplitsNumberOnly(c: Course)
    requires c.school.None? && c.number.Some?
    ensures var r := FullName(c).value; var k := |IntToString(c.number.value)|;
      && k <= |r|
      && ParseInt(r[..k]) == c.number
      && (c.name.Some? ==> r[k..] == " - " + c.name.value)
      && (c.name.None? ==> |r| == k)
  {
    var r := FullName(c).value;
    var digits := IntToString(c.number.value);
    assert Prefix(c) == Some(digits);
    IntToStringRoundTrip(c.number.value);
    if c.name.Some? {
      assert r == digits + (" - " + c.name.value);
      assert r[..|digits|] == digits;
    }
  }

  /** Without a school and a name the display name is the number, and reading it back gives
      the number: `to_i` undoes the `to_s` of `full_name`. */
  lemma FullNameNumberReadsBack(c: Course)
    requires c.school.None? && c.name.None? && c.number.Some?
    ensures ParseInt(FullName(c).value) == c.number
  {
    IntToStringRoundTrip(c.number.value);
  }

  /** The school is stored lower-case but shown upper-case: courses built from "CS" and from
      "cs" (any two spellings equal up to case) have the same display name. */
  lemma FullNameIgnoresSchoolCase(s: string, t: string, number: Option<int>, name: Option<string>,
                                  semester: Option<string>, year: int, hours: int,
                                  sections: seq<Sections.Section>, gradeBasis: Option<string>)
    requires DownCase(s) == DownCase(t)
    ensures FullName(NewCourse(Some(s), number, name, semester, year, hours, sections, gradeBasis))
         == FullName(NewCourse(Some(t), number, name, semester, year, hours, sections, gradeBasis))
    ensures StartsWith(FullName(NewCourse(Some(s), number, name, semester, year, hours, sections, gradeBasis)).value,
                       UpCase(s))
  {
    CaseRoundTrips(s);
    CaseRoundTrips(t);
  }

  /** 1332 is shown as "1332". */
  lemma NumberShown()
    ensures IntToString(1332) == "1332"
  {
    assert NatToString(1) == "1";
    assert NatToString(13) == "13";
    assert NatToString(133) == "133";
    assert NatToString(1332) == "1332";
  }

  /** The examples of the documented method with the number 1332 ("Data Structures and
      Algorithms" there, any name here), the school "cs" present or absent. */
  lemma FullNameNumberExamples(name: string, sections: seq<Sections.Section>)
    ensures FullName(NewCourse(Some("cs"), Some(1332), Some(name), Some("fall"), 2016, 3, sections, None))
         == Some("CS 1332 - " + name)
    ensures FullName(NewCourse(Some("cs"), Some(1332), None, Some("fall"), 2016, 3, sections, None))
         == Some("CS 1332")
    ensures FullName(NewCourse(None, Some(1332), Some(name), Some("fall"), 2016, 3, sections, None))
         == Some("1332 - " + name)
    ensures FullName(NewCourse(None, Some(1332), None, Some("fall"), 2016, 3, sections, None))
         == Some("1332")
  {
    NumberShown();
    assert DownCase("cs") == "cs";
    assert UpCase("cs") == "CS";
    assert "CS" + " " + "1332" == "CS 1332";
    assert "CS 1332" + " - " + name == "CS 1332 - " + name;
    assert "1332" + " - " + name == "1332 - " + name;
  }

  /** The examples of the documented method without a number. */
  lemma FullNameExamples(name: string, sections: seq<Sections.Section>)
    ensures FullName(NewCourse(Some("cs"), None, Some(name), Some("fall"), 2016, 3, sections, None))
         == Some("CS - " + name)
    ensures FullName(NewCourse(Some("cs"), None, None, Some("fall"), 2016, 3, sections, None))
         == Some("CS")
    ensures FullName(NewCourse(None, None, Some(name), Some("fall"), 2016, 3, sections, None))
         == Some(name)
    ensures FullName(NewCourse(None, None, None, Some("fall"), 2016, 3, sections, None))
         == None
  {
    assert DownCase("cs") == "cs";
    assert UpCase("cs") == "CS";
    assert "CS" + " - " + name == "CS - " + name;
  }

  /** The tested course: school given as "CS" is stored as "cs" and shown as "CS". */
  lemma TestedCourse(sections: seq<Sections.Section>)
    ensures var c := NewCourse(Some("CS"), Some(1332), Some("Data Structures and Algorithms"),
                               Some("fall"), 2016, 3, sections, Some("lp"));
      && c.school == Some("cs")
      && c.semester == Some("fall")
      && FullName(c) == Some("CS 1332 - " + "Data Structures and Algorithms")
  {
    var dsa := "Data Structures and Algorithms";
    assert DownCase("CS") == "cs";
    assert DownCase("fall") == "fall";
    FullNameNumberExamples(dsa, sections);
    assert NewCourse(Some("CS"), Some(1332), Some(dsa), Some("fall"), 2016, 3, sections, Some("lp"))
        == NewCourse(Some("cs"), Some(1332), Some(dsa), Some("fall"), 2016, 3, sections, Some("lp"));
    assert FullName(NewCourse(Some("cs"), Some(1332), Some(dsa), Some("fall"), 2016, 3, sections, Some("lp")))
        == FullName(NewCourse(Some("cs"), Some(1332), Some(dsa), Some("fall"), 2016, 3, sections, None));
  }

  /** `grading_formats`: the grade basis decoded letter by letter, in order; no basis gives
      no formats. */
  function GradingFormats(c: Course): (r: Result<seq<string>, Error>)
    ensures c.gradeBasis.None? ==> r == Success([])
    ensures c.gradeBasis.Some? ==>
      var g := c.gradeBasis.value;
      && (r.Success? <==> forall i :: 0 <= i < |g| ==> GradingSupport.ValidBasisLetter(Some([g[i]])))
      && (r.Success? ==> |r.value| == |g|)
      && (r.Success? ==> forall i :: 0 <= i < |g| ==> GradingSupport.LetterToBasis(Some([g[i]])) == Success(r.value[i]))
  {
    GradingSupport.LettersToBases(if c.gradeBasis.Some? then Text(c.gradeBasis.value) else Nil)
  }

  /** Down-casing the grade basis at construction does not change what it decodes to:
      a course built with basis g has the grading formats of g itself. */
  lemma GradingFormatsOfNewCourse(school: Option<string>, number: Option<int>, name: Option<string>,
                                  semester: Option<string>, year: int, hours: int,
                                  sections: seq<Sections.Section>, g: string)
    ensures GradingFormats(NewCourse(school, number, name, semester, year, hours, sections, Some(g)))
         == GradingSupport.LettersToBases(Text(g))
  {
    GradingSupport.LettersToBasesIgnoresCase(g);
  }

  /** The basis 'lp' decodes to letter grade, then pass/fail. */
  lemma LpDecodes()
    ensures GradingSupport.LettersToBases(Text("lp")) == Success(["letter grade", "pass/fail"])
  {
    var xs := ["l", "p"];
    assert Chars("lp")[0] == "l" && Chars("lp")[1] == "p";
    assert Chars("lp") == xs;
    assert StringEnumerator(Text("lp")) == Success(xs);
    assert DownCase("l") == "l" && DownCase("p") == "p";
    assert GradingSupport.LetterToBasis(Some(xs[0])) == Success("letter grade");
    assert GradingSupport.LetterToBasis(Some(xs[1])) == Success("pass/fail");
    assert forall i :: 0 <= i < |xs| ==> GradingSupport.ValidBasisLetter(Some(xs[i]));
    var lp := GradingSupport.LettersToBases(Text("lp"));
    assert lp.Success? && |lp.value| == 2;
    assert GradingSupport.LetterToBasis(Some(xs[0])) == Success(lp.value[0]);
    assert GradingSupport.LetterToBasis(Some(xs[1])) == Success(lp.value[1]);
    assert lp.value == ["letter grade", "pass/fail"];
  }

  /** The tested cases: basis 'lp' (or 'LP') gives letter grade then pass/fail; none gives []. */
  lemma GradingFormatsExamples(sections: seq<Sections.Section>)
    ensures GradingFormats(NewCourse(Some("CS"), Some(1332), Some("Data Structures and Algorithms"),
                                     Some("fall"), 2016, 3, sections, Some("lp")))
         == Success(["letter grade", "pass/fail"])
    ensures GradingFormats(NewCourse(Some("CS"), Some(1332), Some("Data Structures and Algorithms"),
                                     Some("fall"), 2016, 3, sections, Some("LP")))
         == Success(["letter grade", "pass/fail"])
    ensures GradingFormats(NewCourse(Some("CS"), Some(1332), Some("Data Structures and Algorithms"),
                                     Some("fall"), 2016, 3, sections, None))
         == Success([])
  {
    LpDecodes();
    assert UpCase("lp") == "LP";
    GradingSupport.LettersToBasesIgnoresCase("lp");
    GradingFormatsOfNewCourse(Some("CS"), Some(1332), Some("Data Structures and Algorithms"),
                              Some("fall"), 2016, 3, sections, "lp");
    GradingFormatsOfNewCourse(Some("CS"), Some(1332), Some("Data Structures and Algorithms"),
                              Some("fall"), 2016, 3, sections, "LP");
  }
}
