/** RegexResourceCriteria: a resource is wanted when its file name matches a regular expression. */
module RegexCriteria {
  import opened Wrappers
  import Files
  import Resources

  /**
   * A compiled java.util.regex.Pattern: the expression it was compiled from
   * and whether Matcher.matches() accepts a whole input under it.
   */
  datatype Pattern = Pattern(regex: string, wholeMatch: string -> bool)

  /** The criteria holds the pattern given to its constructor and never changes it. */
  datatype RegexResourceCriteria = RegexResourceCriteria(pattern: Pattern) {

    /**
     * matches: false for null; otherwise whether the pattern matches the whole
     * of the name's last path segment (File.getName).
     */
    function Matches(resourceName: Option<string>): (r: bool)
      ensures resourceName.None? ==> !r
      ensures r ==> pattern.wholeMatch(Files.GetName(resourceName.value))
    {
      match resourceName
      case None => false
      case Some(name) => pattern.wholeMatch(Files.GetName(name))
    }

    /**
     * The criteria seen through the ResourceCriteria interface: it refuses
     * null, answers for a path as for the path's file name, and tests a
     * plain name whole against the pattern.
     */
    function AsResourceCriteria(): (c: Resources.ResourceCriteria)
      ensures !c.matches(None)
      ensures forall path {:trigger Files.GetName(path)} ::
        c.matches(Some(path)) == c.matches(Some(Files.GetName(path)))
      ensures forall name :: '/' !in name ==> c.matches(Some(name)) == pattern.wholeMatch(name)
    {
      InterfaceAnswers(this);
      Resources.ResourceCriteria(name => Matches(name))
    }
  }

  /** The facts AsResourceCriteria passes on, for every path and every plain name. */
  lemma InterfaceAnswers(criteria: RegexResourceCriteria)
    ensures forall path {:trigger Files.GetName(path)} ::
      criteria.Matches(Some(path)) == criteria.Matches(Some(Files.GetName(path)))
    ensures forall name :: '/' !in name ==> criteria.Matches(Some(name)) == criteria.pattern.wholeMatch(name)
  {
    forall path ensures criteria.Matches(Some(path)) == criteria.Matches(Some(Files.GetName(path))) {
      MatchesDependsOnNameOnly(criteria, path);
    }
    forall name | '/' !in name ensures criteria.Matches(Some(name)) == criteria.pattern.wholeMatch(name) {
      PlainNameMatches(criteria, name);
    }
  }

  /** A name without a separator is tested as it is. */
  lemma PlainNameMatches(criteria: RegexResourceCriteria, name: string)
    requires '/' !in name
    ensures criteria.Matches(Some(name)) == criteria.pattern.wholeMatch(name)
  {
    Files.GetNameOfPlainName(name);
  }

  /** Only the last segment counts: a name placed under any directory gets the same answer as the bare name. */
  lemma MatchesOnlyFinalSegment(criteria: RegexResourceCriteria, dir: string, name: string)
    requires name != "" && '/' !in name
    ensures criteria.Matches(Some(dir + "/" + name)) == criteria.Matches(Some(name))
  {
    Files.GetNameAfterDirectory(dir, name);
    PlainNameMatches(criteria, name);
  }

  /** A path and its own file name get the same answer. */
  lemma MatchesDependsOnNameOnly(criteria: RegexResourceCriteria, path: string)
    ensures criteria.Matches(Some(path)) == criteria.Matches(Some(Files.GetName(path)))
  {
    Files.GetNameIdempotent(path);
  }

  // ---- The pattern the unit test uses ----

  /** The characters '.' does not match when DOTALL is off. */
  predicate IsLineTerminator(ch: char) {
    ch == '\n' || ch == '\r' || ch == '\U{0085}' || ch == '\U{2028}' || ch == '\U{2029}'
  }

  predicate IsAsciiDigit(ch: char) {
    '0' <= ch <= '9'
  }

  /**
   * Whether ^Test[0-9]+.txt matches the whole of s: "Test", one or more
   * digits, any one character but a line terminator (the dot is not
   * escaped), then "txt".
   */
  predicate TestRegexMatches(s: string) {
    && |s| >= 9
    && s[..4] == "Test"
    && (forall i :: 4 <= i < |s| - 4 ==> IsAsciiDigit(s[i]))
    && !IsLineTerminator(s[|s| - 4])
    && s[|s| - 3..] == "txt"
  }

  const TestRegex := "^Test[0-9]+.txt"

  const TestCriteria := RegexResourceCriteria(Pattern(TestRegex, TestRegexMatches))

  /** The names of the cases below that the test pattern accepts. */
  lemma TestRegexAccepts()
    ensures TestRegexMatches("Test12.txt")
    ensures TestRegexMatches("Test12_txt")
  {
  }

  /** The names of the cases below that the test pattern rejects. */
  lemma TestRegexRejects()
    ensures !TestRegexMatches("Test.txt")
    ensures !TestRegexMatches("")
    ensures !TestRegexMatches("xTest12.txt")
    ensures !TestRegexMatches("Test12.txt.bak")
  {
    assert "xTest12.txt"[..4][0] == 'x';
    assert "Test12.txt.bak"[11..][0] == 'b';
  }

  /** A matching name under a directory. */
  lemma TestMatchesNestedName()
    ensures TestCriteria.Matches(Some("foo/bar/Test12.txt"))
  {
    assert "foo/bar/Test12.txt" == "foo/bar" + "/" + "Test12.txt";
    MatchesOnlyFinalSegment(TestCriteria, "foo/bar", "Test12.txt");
    PlainNameMatches(TestCriteria, "Test12.txt");
    TestRegexAccepts();
  }

  /** A matching bare name. */
  lemma TestMatchesBareName()
    ensures TestCriteria.Matches(Some("Test12.txt"))
  {
    PlainNameMatches(TestCriteria, "Test12.txt");
    TestRegexAccepts();
  }

  /** No digits: rejected. */
  lemma TestRejectsMissingDigits()
    ensures !TestCriteria.Matches(Some("foo/bar/Test.txt"))
  {
    assert "foo/bar/Test.txt" == "foo/bar" + "/" + "Test.txt";
    MatchesOnlyFinalSegment(TestCriteria, "foo/bar", "Test.txt");
    PlainNameMatches(TestCriteria, "Test.txt");
    TestRegexRejects();
  }

  /** The empty name: rejected. */
  lemma TestRejectsEmptyName()
    ensures !TestCriteria.Matches(Some(""))
  {
    PlainNameMatches(TestCriteria, "");
    TestRegexRejects();
  }

  /** The cases of the unit test for RegexResourceCriteria.matches. */
  lemma RegexResourceCriteriaTestCases()
    ensures TestCriteria.Matches(Some("foo/bar/Test12.txt"))
    ensures TestCriteria.Matches(Some("Test12.txt"))
    ensures !TestCriteria.Matches(Some("foo/bar/Test.txt"))
    ensures !TestCriteria.Matches(Some(""))
    ensures !TestCriteria.Matches(None)
  {
    TestMatchesNestedName();
    TestMatchesBareName();
    TestRejectsMissingDigits();
    TestRejectsEmptyName();
  }

  /** A name that holds a matching name after a prefix, xTest12.txt, is rejected: the whole name must match. */
  lemma TestRejectsLeadingText()
    ensures !TestCriteria.Matches(Some("xTest12.txt"))
  {
    PlainNameMatches(TestCriteria, "xTest12.txt");
    TestRegexRejects();
  }

  /** A name that holds a matching name before a suffix, Test12.txt.bak, is rejected: the whole name must match. */
  lemma TestRejectsTrailingText()
    ensures !TestCriteria.Matches(Some("Test12.txt.bak"))
  {
    PlainNameMatches(TestCriteria, "Test12.txt.bak");
    TestRegexRejects();
  }

  /** The unescaped dot accepts any character before "txt", not only '.'. */
  lemma TestDotIsAnyCharacter()
    ensures TestCriteria.Matches(Some("Test12_txt"))
  {
    PlainNameMatches(TestCriteria, "Test12_txt");
    TestRegexAccepts();
  }
}
