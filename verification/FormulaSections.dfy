/**
  The lines of a printed formula: how each opens, and that the fixed ones are no heading and
  carry no error marker.
*/
module FormulaSections {
  import opened Wrappers
  import opened TextLines
  import opened Formula
  import opened FormulaRoundTrip

  // ------------------------------------------------------------ quoted lines

  lemma QuotedField(pre: string, value: string)
    ensures Quoted([pre, value, ""]) == (pre + "\"") + value + "\""
  {
    assert [pre, value, ""][1..] == [value, ""] && [value, ""][1..] == [""];
    assert Quoted([value, ""]) == value + "\"" + "";
  }

  /** A heading can occur in a quoted line only before one of its quotes. */
  lemma {:induction false} HeadingNeedsQuote(pieces: seq<string>)
    requires forall p | p in pieces :: '"' !in p && !EndsLikeHeading(p)
    ensures !Contains(Quoted(pieces), RESOURCE)
  {
    var line := Quoted(pieces);
    if |pieces| <= 1 {
      forall k ensures !OccursAt(line, RESOURCE, k) {
        OccurrenceHasQuote(line, k);
      }
    } else {
      var first, rest := pieces[0], Quoted(pieces[1..]);
      assert forall p | p in pieces[1..] :: p in pieces;
      HeadingNeedsQuote(pieces[1..]);
      assert line == first + "\"" + rest;
      if Contains(line, RESOURCE) {
        var k :| 0 <= k <= |line| && OccursAt(line, RESOURCE, k);
        HeadingAtQuote(first, rest, k);
      }
    }
  }

  /** A line that is no heading and carries no error marker. */
  predicate IsPlain(line: string) {
    CountIn(line, RESOURCE) == 0 && !Contains(line, RESOURCE_ERROR)
  }

  predicate IsFixed(piece: string) {
    '"' !in piece && 'U' !in piece && !EndsLikeHeading(piece)
  }

  lemma {:induction false} QuotedHasNo(pieces: seq<string>, c: char)
    requires c != '"' && forall p | p in pieces :: c !in p
    ensures c !in Quoted(pieces)
  {
    if |pieces| > 1 {
      assert forall p | p in pieces[1..] :: p in pieces;
      QuotedHasNo(pieces[1..], c);
    }
  }

  lemma FixedLineIsPlain(pieces: seq<string>)
    requires forall p | p in pieces :: IsFixed(p)
    ensures IsPlain(Quoted(pieces))
  {
    var line := Quoted(pieces);
    HeadingNeedsQuote(pieces);
    CountIsZeroIffAbsent(line, RESOURCE);
    QuotedHasNo(pieces, 'U');
    forall k ensures !OccursAt(line, RESOURCE_ERROR, k) {
      if OccursAt(line, RESOURCE_ERROR, k) {
        OccurrenceAt(line, RESOURCE_ERROR, k, 4);
      }
    }
  }

  lemma NoHeadingEnd(piece: string)
    requires |piece| < 11 || piece[|piece| - 1] != ' ' || piece[|piece| - 2] != 'e' || piece[|piece| - 3] != 'c'
    ensures !EndsLikeHeading(piece)
  {
  }

  // ------------------------------------------------------------- the sections

  /** The third character of a line, with the lines told apart that open like a dependency. */
  function Tag(line: string): char {
    if |line| <= 4 || (line[2] == 'd' && line[4] != 'p') then ' ' else line[2]
  }

  predicate TagsAre(text: Text, tags: set<char>) {
    forall line | line in text :: Tag(line) in tags
  }

  predicate AllPlain(text: Text) {
    forall line | line in text :: IsPlain(line)
  }

  /** A line built from fixed pieces, the first of which shows its tag. */
  lemma FixedLine(pieces: seq<string>)
    requires |pieces| > 1 && |pieces[0]| > 4 && forall p | p in pieces :: IsFixed(p)
    ensures IsPlain(Quoted(pieces)) && Tag(Quoted(pieces)) == Tag(pieces[0])
  {
    FixedLineIsPlain(pieces);
    QuotedTag(pieces);
  }

  lemma QuotedTag(pieces: seq<string>)
    requires |pieces| > 1 && |pieces[0]| > 4
    ensures Tag(Quoted(pieces)) == Tag(pieces[0])
  {
  }

  lemma UnquotedLine(line: string)
    requires '"' !in line && 'U' !in line
    ensures IsPlain(line)
  {
    forall k ensures !OccursAt(line, RESOURCE, k) && !OccursAt(line, RESOURCE_ERROR, k) {
      OccurrenceHasQuote(line, k);
      if OccursAt(line, RESOURCE_ERROR, k) {
        OccurrenceAt(line, RESOURCE_ERROR, k, 4);
      }
    }
    CountIsZeroIffAbsent(line, RESOURCE);
  }

  lemma ClassLineIsPlain(name: string)
    requires '"' !in name && 'U' !in name
    ensures IsPlain("class " + name + " < Formula") && Tag("class " + name + " < Formula") == 'a'
  {
    assert '"' !in "class " && 'U' !in "class " && '"' !in " < Formula" && 'U' !in " < Formula";
    UnquotedLine("class " + name + " < Formula");
  }

  lemma ClassNameFacts(s: Snapshot)
    ensures IsPlain(ClassName(s)) && Tag(ClassName(s)) == 'a'
    ensures Match(ClassLine, ClassName(s)) == Some(if s.dev then DEV_CLASS else STABLE_CLASS)
  {
    hide IsPlain, Tag;
    assert '"' !in STABLE_CLASS && 'U' !in STABLE_CLASS && '"' !in DEV_CLASS && 'U' !in DEV_CLASS;
    ClassLineIsPlain(STABLE_CLASS);
    ClassLineIsPlain(DEV_CLASS);
    assert |STABLE_CLASS| < |DEV_CLASS|;
  }

  predicate IsBare(piece: string) {
    '"' !in piece && 'U' !in piece
  }

  lemma BareInPieces(text: string, a: string, b: string, c: string)
    requires IsBare(a) && IsBare(b) && IsBare(c) && forall x | x in text :: x in a || x in b || x in c
    ensures IsBare(text)
  {
  }

  lemma FixedWord(piece: string)
    requires IsBare(piece) && |piece| > 2
    requires piece[|piece| - 1] != ' ' || piece[|piece| - 2] != 'e' || piece[|piece| - 3] != 'c'
    ensures IsFixed(piece)
  {
    NoHeadingEnd(piece);
  }

  lemma DescriptionWordsAreBare()
    ensures IsBare("Deterministic PR ") && IsBare("review-resolution ") && IsBare("control plane runtime")
  {
  }

  lemma DescriptionIsBare()
    ensures IsBare(DESCRIPTION)
  {
    hide IsBare;
    DescriptionWordsAreBare();
    BareInPieces(DESCRIPTION, "Deterministic PR ", "review-resolution ", "control plane runtime");
  }

  lemma FixedDescription()
    ensures IsFixed(DESCRIPTION)
  {
    hide IsBare, IsFixed;
    DescriptionIsBare();
    FixedWord(DESCRIPTION);
  }

  lemma HomepageIsBare()
    ensures IsBare(HOMEPAGE)
  {
    BareInPieces(HOMEPAGE, "https://github", ".com/RbBtSn0w", "/gh-address-cr");
  }

  lemma FixedHomepage()
    ensures IsFixed(HOMEPAGE)
  {
    hide IsBare, IsFixed;
    HomepageIsBare();
    FixedWord(HOMEPAGE);
  }

  lemma FixedNames()
    ensures IsFixed("") && IsFixed("  desc ") && IsFixed("  url ") && IsFixed("  version ") && IsFixed("  sha256 ")
    ensures IsFixed("  license ") && IsFixed("MIT")
  {
  }

  lemma FixedLongNames()
    ensures IsFixed("  homepage ") && IsFixed("  depends_on ")
  {
    assert "  homepage "[8] == 'g' && "  depends_on "[10] == 'o';
    NoHeadingEnd("  homepage ");
    NoHeadingEnd("  depends_on ");
  }

  /** A section of the formula: plain lines, each with one of the tags. */
  predicate IsSection(text: Text, tags: set<char>) {
    AllPlain(text) && TagsAre(text, tags)
  }

  lemma BlankLineIsPlain()
    ensures IsPlain("") && Tag("") == ' '
  {
    UnquotedLine("");
  }

  lemma IncludeIsBare()
    ensures IsBare(INCLUDE_LINE)
  {
    BareInPieces(INCLUDE_LINE, "  include ", "Language::", "Python::Virtualenv");
  }

  lemma IncludeLine()
    ensures IsPlain(INCLUDE_LINE) && Tag(INCLUDE_LINE) == 'i'
  {
    hide IsPlain;
    IncludeIsBare();
    assert INCLUDE_LINE[2] == 'i';
    UnquotedLine(INCLUDE_LINE);
  }

  lemma DescLine()
    ensures var line := Quoted(["  desc ", DESCRIPTION, ""]); IsPlain(line) && Tag(line) == ' '
  {
    hide IsPlain, Quoted, DESCRIPTION;
    FixedNames();
    FixedDescription();
    FixedLine(["  desc ", DESCRIPTION, ""]);
  }

  lemma HomepageLine()
    ensures var line := Quoted(["  homepage ", HOMEPAGE, ""]); IsPlain(line) && Tag(line) == 'h'
  {
    hide IsPlain, Quoted, HOMEPAGE;
    FixedNames();
    FixedLongNames();
    FixedHomepage();
    FixedLine(["  homepage ", HOMEPAGE, ""]);
  }

  lemma HeadsSection()
    ensures IsSection(Heads(), {'i', ' ', 'h'})
  {
    hide IsPlain, Tag, Quoted, INCLUDE_LINE, DESCRIPTION, HOMEPAGE;
    IncludeLine();
    BlankLineIsPlain();
    DescLine();
    HomepageLine();
  }

  lemma PythonCharacters(s: string)
    requires IsPython(s)
    ensures '"' !in s && 'U' !in s && ' ' !in s && s != ""
  {
    assert '"' !in "python@" && 'U' !in "python@" && ' ' !in "python@";
    var d :| 7 <= d < |s| && s[d] == '.' && IsDigits(s[7..d]) && IsDigits(s[d + 1..]);
    assert forall i | 0 <= i < |s| :: s[i] in s[..7] || s[i] in s[7..d] || s[i] == '.' || s[i] in s[d + 1..];
  }

  lemma SpacelessIsFixed(s: string)
    requires '"' !in s && 'U' !in s && ' ' !in s
    ensures IsFixed(s)
  {
    if |s| > 0 {
      assert s[|s| - 1] in s;
    }
    NoHeadingEnd(s);
  }

  lemma PythonIsFixed(s: string)
    requires IsPython(s)
    ensures IsFixed(s) && IsFixed(WithoutAt(s))
  {
    hide IsPython;
    PythonCharacters(s);
    WithoutAtKeepsNoMore(s);
    SpacelessIsFixed(s);
    SpacelessIsFixed(WithoutAt(s));
  }

  lemma {:induction false} WithoutAtKeepsNoMore(s: string)
    ensures forall c | c in WithoutAt(s) :: c in s
  {
    if s != "" {
      WithoutAtKeepsNoMore(s[1..]);
    }
  }

  lemma HexIsFixed(s: string)
    requires IsHex(s, 64)
    ensures IsFixed(s)
  {
    SpacelessIsFixed(s);
  }

  lemma ShaLine(sha: string)
    requires IsHex(sha, 64)
    ensures var line := Quoted(["  sha256 ", sha, ""]); IsPlain(line) && Tag(line) == 's'
  {
    hide IsPlain, Quoted, IsHex;
    FixedNames();
    HexIsFixed(sha);
    FixedLine(["  sha256 ", sha, ""]);
  }

  lemma LicenseLine()
    ensures var line := Quoted(["  license ", "MIT", ""]); IsPlain(line) && Tag(line) == 'l'
  {
    hide IsPlain, Quoted;
    FixedNames();
    FixedLine(["  license ", "MIT", ""]);
  }

  lemma DependsLine(python: string)
    requires IsPython(python)
    ensures var line := Quoted(["  depends_on ", python, ""]); IsPlain(line) && Tag(line) == 'd'
  {
    hide IsPlain, Quoted, IsPython;
    FixedNames();
    FixedLongNames();
    PythonIsFixed(python);
    FixedLine(["  depends_on ", python, ""]);
  }

  lemma ConflictNames()
    ensures IsFixed("  conflicts_with ") && IsFixed("gh-address-cr") && IsFixed(", because: ")
  {
    FixedWord("  conflicts_with ");
    FixedWord("gh-address-cr");
    FixedWord(", because: ");
  }

  lemma ReasonIsBare()
    ensures IsBare(CONFLICT_REASON)
  {
    BareInPieces(CONFLICT_REASON, "both install", " gh-address", "-cr binary");
  }

  lemma ConflictReason()
    ensures IsFixed(CONFLICT_REASON)
  {
    hide IsBare, IsFixed;
    ReasonIsBare();
    FixedWord(CONFLICT_REASON);
  }

  lemma ConflictSection(s: Snapshot)
    ensures IsSection(ConflictLine(s), {'c'})
  {
    hide IsPlain, Quoted;
    var pieces := ["  conflicts_with ", "gh-address-cr", ", because: ", CONFLICT_REASON, ""];
    ConflictNames();
    ConflictReason();
    FixedNames();
    FixedLine(pieces);
  }

  lemma InstallIsBare()
    ensures IsBare(INSTALL)
  {
    BareInPieces(INSTALL, "    virtualenv_", "install_with_", "resources using: ");
  }

  lemma FixedInstall()
    ensures IsFixed(INSTALL) && |INSTALL| > 4 && Tag(INSTALL) == ' '
  {
    hide IsBare, IsFixed;
    InstallIsBare();
    assert INSTALL[2] == ' ';
    FixedWord(INSTALL);
  }

  lemma FixedShell()
    ensures IsFixed(SHELL) && IsFixed(")")
  {
    FixedWord(SHELL);
  }

  lemma VersionTestIsBare()
    ensures IsBare(VERSION_TEST)
  {
    BareInPieces(VERSION_TEST, "    assert_match", " version.to_s,", " shell_output(");
  }

  lemma FixedVersionTest()
    ensures IsFixed(VERSION_TEST) && |VERSION_TEST| > 4 && Tag(VERSION_TEST) == ' '
  {
    hide IsBare, IsFixed;
    VersionTestIsBare();
    assert VERSION_TEST[2] == ' ';
    FixedWord(VERSION_TEST);
  }

  lemma VersionCommandIsBare()
    ensures IsBare(VERSION_COMMAND)
  {
    BareInPieces(VERSION_COMMAND, "#{bin}/", "gh-address-cr", " --version");
  }

  lemma ManifestCommandIsBare()
    ensures IsBare(MANIFEST_COMMAND)
  {
    BareInPieces(MANIFEST_COMMAND, "#{bin}/", "gh-address-cr", " agent manifest");
  }

  lemma FixedCommands()
    ensures IsFixed(VERSION_COMMAND) && IsFixed(MANIFEST_COMMAND)
  {
    hide IsBare, IsFixed;
    VersionCommandIsBare();
    ManifestCommandIsBare();
    FixedWord(VERSION_COMMAND);
    FixedWord(MANIFEST_COMMAND);
  }

  lemma FixedMatch()
    ensures IsFixed("    assert_match ") && IsFixed("\\") && IsFixed("runtime_version\\")
    ensures Tag("    assert_match ") == ' '
  {
    FixedWord("    assert_match ");
    FixedWord("runtime_version\\");
  }

  lemma InstallLine(python: string)
    requires IsPython(python)
    ensures var line := Quoted([INSTALL, WithoutAt(python), ""]); IsPlain(line) && Tag(line) == ' '
  {
    hide IsPlain, Quoted, INSTALL, IsPython;
    FixedInstall();
    FixedNames();
    PythonIsFixed(python);
    FixedLine([INSTALL, WithoutAt(python), ""]);
  }

  lemma VersionTestLine()
    ensures var line := Quoted([VERSION_TEST, VERSION_COMMAND, ")"]); IsPlain(line) && Tag(line) == ' '
  {
    hide IsPlain, Quoted, VERSION_TEST, VERSION_COMMAND;
    FixedVersionTest();
    FixedShell();
    FixedCommands();
    FixedLine([VERSION_TEST, VERSION_COMMAND, ")"]);
  }

  lemma ManifestTestLine()
    ensures var line := Quoted(["    assert_match ", "\\", "runtime_version\\", "", SHELL, MANIFEST_COMMAND, ")"]);
            IsPlain(line) && Tag(line) == ' '
  {
    hide IsPlain, Quoted, SHELL, MANIFEST_COMMAND;
    FixedMatch();
    FixedNames();
    FixedShell();
    FixedCommands();
    FixedLine(["    assert_match ", "\\", "runtime_version\\", "", SHELL, MANIFEST_COMMAND, ")"]);
  }

  lemma KeywordLines()
    ensures IsPlain("  def install") && Tag("  def install") == ' ' && IsPlain("end") && Tag("end") == ' '
  {
    UnquotedLine("  def install");
    UnquotedLine("end");
  }

  lemma NestedKeywordLines()
    ensures IsPlain("  end") && Tag("  end") == 'e' && IsPlain("  test do") && Tag("  test do") == 't'
  {
    UnquotedLine("  end");
    UnquotedLine("  test do");
  }

  lemma BottomSection(s: Snapshot)
    requires IsPython(s.python)
    ensures IsSection(Bottom(s), {' ', 'e', 't'})
  {
    hide IsPlain, Tag, Quoted, INSTALL, VERSION_TEST, SHELL, VERSION_COMMAND, MANIFEST_COMMAND, IsPython;
    KeywordLines();
    NestedKeywordLines();
    BlankLineIsPlain();
    InstallLine(s.python);
    VersionTestLine();
    ManifestTestLine();
  }

  lemma BlockTags(r: Resource)
    ensures TagsAre(BlockLines(r), {'r', ' ', 'e'})
  {
    assert BlockLines(r)[0][2] == 'r' && BlockLines(r)[1][2] == ' ' && BlockLines(r)[2][2] == ' ';
    assert Tag("  end") == 'e';
  }

  lemma {:induction false} RenderedTags(rs: seq<Resource>)
    ensures TagsAre(RenderResources(rs), {'r', ' ', 'e'})
  {
    if |rs| > 0 {
      hide BlockLines;
      BlockTags(rs[0]);
      if |rs| > 1 {
        RenderedTags(rs[1..]);
      }
    }
  }
}
