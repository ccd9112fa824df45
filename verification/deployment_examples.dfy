/**
  Worked examples of the manager's conversions on concrete text: the srun
  command line of a typical deployment file, and the `int` conversions of a
  component's `MIN` field.
 */
module DeploymentExamples {
  import opened Wrappers
  import opened PyStr
  import opened PyInt
  import opened ServicesDeployment

  /** The srun options section of a deployment file, as read from the file,
      without its surrounding whitespace, and as the list it becomes. */
  const Options: seq<string> := ["srun", "--exact", "--label", "--nodes=1", "--ntasks=1"]
  const CommandLine: string := "srun --exact --label --nodes=1 --ntasks=1"
  const SectionText: string := "srun --exact --label --nodes=1 --ntasks=1\n"

  /** A section text ending in a new line becomes the srun command and its
      options, in order. */
  lemma SrunCommandLine()
    ensures SrunOptions(SectionText) == Options
  {
    OptionsSplitCommandLine();
    CommandLineIsTrimmed();
    SectionTextIsLine();
    OptionsOfLine(SectionText, CommandLine, Options);
  }

  lemma SectionTextIsLine()
    ensures SectionText == CommandLine + "\n"
  {
  }

  /** A line without surrounding whitespace, followed by a new line, gives
      the list its split gives. */
  lemma OptionsOfLine(raw: string, line: string, ts: seq<string>)
    requires raw == line + "\n"
    requires Trimmed(line) && Split(line) == ts
    ensures SrunOptions(raw) == ts
  {
    StripTrimmed(line);
    TrailingNewLineIgnored(line);
  }

  /** The options joined by single spaces spell the command line. */
  lemma JoinOptions()
    ensures Join(Options) == CommandLine
  {
    var ts := Options;
    assert Join(ts[4..]) == ts[4];
    assert Join(ts[3..]) == ts[3] + " " + ts[4];
    assert Join(ts[2..]) == ts[2] + " " + (ts[3] + " " + ts[4]);
    assert Join(ts[1..]) == ts[1] + " " + (ts[2] + " " + (ts[3] + " " + ts[4]));
    assert Join(ts) == ts[0] + " " + (ts[1] + " " + (ts[2] + " " + (ts[3] + " " + ts[4])));
    SpelledOut();
  }

  lemma SpelledOut()
    ensures var ts := Options;
      ts[0] + " " + (ts[1] + " " + (ts[2] + " " + (ts[3] + " " + ts[4]))) == CommandLine
  {
  }

  lemma OptionsSplitCommandLine()
    ensures Split(CommandLine) == Options
  {
    JoinOptions();
    SplitJoin(Options);
  }

  lemma CommandLineIsTrimmed()
    ensures Trimmed(CommandLine)
  {
    var line := CommandLine;
    if IsSpace(line[0]) { SpaceBounds(line[0]); }
    if IsSpace(line[|line| - 1]) { SpaceBounds(line[|line| - 1]); }
  }

  /** `str(59100)` is `"59100"`. */
  lemma NatDigitsOf59100()
    ensures NatDigits(59100) == "59100"
  {
    assert NatDigits(5) == "5";
    assert NatDigits(59) == "59";
    assert NatDigits(591) == "591";
    assert NatDigits(5910) == "5910";
  }

  /** `int("59100")` is 59100. */
  lemma ParseMinField()
    ensures ParseInt("59100") == Some(59100)
  {
    NatDigitsOf59100();
    ParseShow(59100);
  }

  /** A leading file separator, which `str.strip` would remove, makes `int`
      raise `ValueError`. */
  lemma ParseRejectsLeadingSeparator()
    ensures ParseInt("\U{1C}59100") == None
  {
    ParseRejectsInformationSeparator("\U{1C}59100", 0);
  }

  const Grouped: string := "1_000"
  const DoubledUnderscore: string := "1__0"

  lemma GroupedIsTrimmed()
    ensures Trimmed(Grouped)
  {
    var t := Grouped;
    if IsSpace(t[0]) { SpaceBounds(t[0]); }
    if IsSpace(t[|t| - 1]) { SpaceBounds(t[|t| - 1]); }
  }

  lemma GroupedIsStripped()
    ensures Strip(Grouped) == Grouped && !HasInformationSeparator(Grouped)
  {
    GroupedIsTrimmed();
    StripTrimmed(Grouped);
    forall k | 0 <= k < |Grouped| ensures !IsInformationSeparator(Grouped[k]) {
      assert DigitOrUnderscore(Grouped[k]);
    }
  }

  lemma DoubledIsTrimmed()
    ensures Trimmed(DoubledUnderscore)
  {
    var t := DoubledUnderscore;
    if IsSpace(t[0]) { SpaceBounds(t[0]); }
    if IsSpace(t[|t| - 1]) { SpaceBounds(t[|t| - 1]); }
  }

  /** The digits of `"1_000"`, underscores skipped: four of them, spelling
      1000. */
  lemma GroupedValue()
    ensures DigitCount(Grouped) == 4 && DigitsValue(Grouped) == 1000
  {
    var p1, p2, p3, p4 := Grouped[..1], Grouped[..2], Grouped[..3], Grouped[..4];
    assert p1[..0] == [] && p2[..1] == p1 && p3[..2] == p2 && p4[..3] == p3 && Grouped[..4] == p4;
    assert DigitCount(p1) == 1 && DigitsValue(p1) == 1;
    assert DigitCount(p2) == 1 && DigitsValue(p2) == 1;
    assert DigitCount(p3) == 2 && DigitsValue(p3) == 10;
    assert DigitCount(p4) == 3 && DigitsValue(p4) == 100;
  }

  /** `int("1_000")` is 1000: a single underscore between digits is skipped. */
  lemma ParseGroupedDigits()
    ensures ParseInt(Grouped) == Some(1000)
  {
    GroupedIsStripped();
    GroupedValue();
    ParseAcceptsDecimal(Grouped);
  }

  /** `int("1__0")` raises `ValueError`: underscores may not be doubled. */
  lemma ParseRejectsDoubledUnderscore()
    ensures ParseInt(DoubledUnderscore) == None
  {
    DoubledIsTrimmed();
    StripTrimmed(DoubledUnderscore);
    assert Unsigned(DoubledUnderscore) == DoubledUnderscore;
    if ParseInt(DoubledUnderscore).Some? {
      ParseAccepted(DoubledUnderscore);
      assert false;
    }
  }
}
