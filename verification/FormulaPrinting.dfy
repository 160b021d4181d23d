/** Which snapshots the printed formula is accepted for, and that it gives them back. */
module FormulaPrinting {
  import opened Wrappers
  import opened TextLines
  import opened Formula
  import opened FormulaRoundTrip
  import opened FormulaSections

  /** A snapshot whose fields have the form that a formula can carry. */
  predicate IsFormed(rules: Rules, s: Snapshot) {
    && s.url != "" && '"' !in s.url && rules.sourceUrl(s.url)
    && IsHex(s.sha256, 64) && IsHex(s.commit, 40)
    && rules.validVersion(s.version)
    && (rules.sourceVersion(s.url) != Some(s.version) ==> s.version != "" && '"' !in s.version)
    && IsPython(s.python)
    && s.resources != [] && DistinctNames(s.resources)
    && forall r | r in s.resources :: WellFormed(r) && rules.resourceUrl(r.url)
  }

  /** Nothing printed from the snapshot looks like formula syntax to the two whole-text checks. */
  predicate IsPrintable(rules: Rules, s: Snapshot) {
    && IsNeutral(s.url)
    && (rules.sourceVersion(s.url) == Some(s.version) || IsNeutral(s.version))
    && forall r | r in s.resources :: Unambiguous(r)
  }

  // -------------------------------------------------------------- the matches

  /** The tag of every line that a pattern matches. */
  function PatternTag(p: Pattern): char {
    match p
    case ClassLine => 'a'
    case FieldLine(name) => if name == "" then ' ' else name[0]
    case PythonLine => 'd'
  }

  lemma StartsLike(line: string, pre: string, post: string, i: nat)
    requires i < |pre|
    ensures Between(line, pre, post).Some? ==> i < |line| && line[i] == pre[i]
  {
    assert Between(line, pre, post).Some? ==> line[..|pre|][i] == pre[i];
  }

  lemma MatchShowsTag(p: Pattern, line: string)
    requires p.FieldLine? ==> |p.name| > 2 && p.name[0] != 'd'
    ensures Match(p, line).Some? ==> Tag(line) == PatternTag(p)
  {
    match p
    case ClassLine =>
      assert Tag("class " + STABLE_CLASS + " < Formula") == 'a' && Tag("class " + DEV_CLASS + " < Formula") == 'a';
    case FieldLine(name) =>
      var pre := "  " + name + " \"";
      assert pre[2] == name[0];
      StartsLike(line, pre, "\"", 2);
    case PythonLine =>
      var pre := "  depends_on \"";
      assert pre[2] == 'd' && pre[4] == 'p';
      StartsLike(line, pre, "\"", 2);
      StartsLike(line, pre, "\"", 4);
  }

  predicate Avoids(text: Text, tag: char) {
    forall line | line in text :: Tag(line) != tag
  }

  lemma {:induction false} NoMatches(p: Pattern, text: Text, rest: Text)
    requires p.FieldLine? ==> |p.name| > 2 && p.name[0] != 'd'
    requires Avoids(text, PatternTag(p))
    ensures Matches(text + rest, p) == Matches(rest, p)
  {
    if text == [] {
      assert text + rest == rest;
    } else {
      assert (text + rest)[0] == text[0] && (text + rest)[1..] == text[1..] + rest;
      assert text[0] in text && forall line | line in text[1..] :: line in text;
      MatchShowsTag(p, text[0]);
      NoMatches(p, text[1..], rest);
    }
  }

  lemma SoleMatch(p: Pattern, before: Text, line: string, after: Text)
    requires p.FieldLine? ==> |p.name| > 2 && p.name[0] != 'd'
    requires Avoids(before, PatternTag(p)) && Avoids(after, PatternTag(p))
    requires Match(p, line).Some?
    ensures Matches(before + [line] + after, p) == [Match(p, line).value]
  {
    assert before + [line] + after == before + ([line] + after);
    NoMatches(p, before, [line] + after);
    assert ([line] + after)[1..] == after;
    NoMatches(p, after, []);
    assert after + [] == after;
  }

  // ------------------------------------------------------------ the whole text

  lemma {:induction false} PlainCount(text: Text)
    requires AllPlain(text)
    ensures CountAll(text, RESOURCE) == 0 && !AnyContains(text, RESOURCE_ERROR)
  {
    if text != [] {
      assert forall line | line in text[1..] :: line in text;
      assert text[0] in text;
      PlainCount(text[1..]);
    }
  }

  lemma FieldReads(name: string, value: string)
    requires value != "" && '"' !in value
    ensures Match(FieldLine(name), Quoted(["  " + name + " ", value, ""])) == Some(value)
  {
    var pre := "  " + name + " \"";
    QuotedField("  " + name + " ", value);
    assert ("  " + name + " ") + "\"" == pre;
    BetweenReadsBack(pre, value, "\"");
  }

  function UrlField(s: Snapshot): string {
    Quoted(["  url ", s.url, ""])
  }

  function ShaField(s: Snapshot): string {
    Quoted(["  sha256 ", s.sha256, ""])
  }

  function License(): Text {
    [Quoted(["  license ", "MIT", ""]), ""]
  }

  function DependsField(s: Snapshot): string {
    Quoted(["  depends_on ", s.python, ""])
  }

  lemma FieldMatches(s: Snapshot)
    requires s.url != "" && '"' !in s.url && IsHex(s.sha256, 64)
    ensures Match(FieldLine("url"), UrlField(s)) == Some(s.url)
    ensures Match(FieldLine("sha256"), ShaField(s)) == Some(s.sha256)
    ensures s.version != "" && '"' !in s.version
        ==> Match(FieldLine("version"), Quoted(["  version ", s.version, ""])) == Some(s.version)
  {
    FieldReads("url", s.url);
    FieldReads("sha256", s.sha256);
    if s.version != "" && '"' !in s.version {
      FieldReads("version", s.version);
    }
    assert "  " + "url" + " " == "  url " && "  " + "sha256" + " " == "  sha256 " && "  " + "version" + " " == "  version ";
    assert s.sha256[0] in s.sha256;
  }

  lemma PythonMatches(s: Snapshot)
    requires IsPython(s.python)
    ensures Match(PythonLine, DependsField(s)) == Some(s.python)
  {
    PythonCharacters(s.python);
    QuotedField("  depends_on ", s.python);
    assert "  depends_on " + "\"" == "  depends_on \"";
    BetweenReadsBack("  depends_on \"", s.python, "\"");
  }

  /** The pattern lines of a formula with the text before, between and after them. */
  datatype Layout = Layout(
    className: string, heads: Text, url: string, version: Text, sha: string, license: Text, depends: string, tail: Text
  ) {
    function Lines(): Text {
      [className] + heads + [url] + version + [sha] + license + [depends] + tail
    }

    predicate Tagged() {
      && Tag(className) == 'a' && TagsAre(heads, {'i', ' ', 'h'}) && Tag(url) == 'u' && TagsAre(version, {'v'})
      && Tag(sha) == 's' && TagsAre(license, {'l', ' '}) && Tag(depends) == 'd'
      && TagsAre(tail, {'c', ' ', 'r', 'e', 't'})
    }
  }

  lemma ClassFound(t: Layout)
    requires t.Tagged() && Match(ClassLine, t.className).Some?
    ensures Matches(t.Lines(), ClassLine) == [Match(ClassLine, t.className).value]
  {
    hide Match, Tag;
    var after := t.heads + [t.url] + t.version + [t.sha] + t.license + [t.depends] + t.tail;
    SoleMatch(ClassLine, [], t.className, after);
    assert t.Lines() == [] + [t.className] + after;
  }

  lemma UrlFound(t: Layout)
    requires t.Tagged() && Match(FieldLine("url"), t.url).Some?
    ensures Matches(t.Lines(), FieldLine("url")) == [Match(FieldLine("url"), t.url).value]
  {
    hide Match, Tag;
    var before, after := [t.className] + t.heads, t.version + [t.sha] + t.license + [t.depends] + t.tail;
    SoleMatch(FieldLine("url"), before, t.url, after);
    assert t.Lines() == before + [t.url] + after;
  }

  lemma ShaFound(t: Layout)
    requires t.Tagged() && Match(FieldLine("sha256"), t.sha).Some?
    ensures Matches(t.Lines(), FieldLine("sha256")) == [Match(FieldLine("sha256"), t.sha).value]
  {
    hide Match, Tag;
    var before, after := [t.className] + t.heads + [t.url] + t.version, t.license + [t.depends] + t.tail;
    SoleMatch(FieldLine("sha256"), before, t.sha, after);
    assert t.Lines() == before + [t.sha] + after;
  }

  lemma VersionFound(t: Layout)
    requires t.Tagged() && |t.version| <= 1
    requires t.version != [] ==> Match(FieldLine("version"), t.version[0]).Some?
    ensures Matches(t.Lines(), FieldLine("version"))
         == if t.version == [] then [] else [Match(FieldLine("version"), t.version[0]).value]
  {
    hide Match, Tag;
    var before, after := [t.className] + t.heads + [t.url], [t.sha] + t.license + [t.depends] + t.tail;
    if t.version == [] {
      NoMatches(FieldLine("version"), t.Lines(), []);
      assert t.Lines() + [] == t.Lines();
    } else {
      SoleMatch(FieldLine("version"), before, t.version[0], after);
      assert t.Lines() == before + [t.version[0]] + after;
    }
  }

  lemma PythonFound(t: Layout)
    requires t.Tagged() && Match(PythonLine, t.depends).Some?
    ensures Matches(t.Lines(), PythonLine) == [Match(PythonLine, t.depends).value]
  {
    hide Match, Tag;
    var before := [t.className] + t.heads + [t.url] + t.version + [t.sha] + t.license;
    SoleMatch(PythonLine, before, t.depends, t.tail);
    assert t.Lines() == before + [t.depends] + t.tail;
  }

  function Tail(s: Snapshot): Text {
    ConflictLine(s) + [""] + RenderResources(s.resources) + Bottom(s)
  }

  function LayoutOf(rules: Rules, s: Snapshot): Layout {
    Layout(ClassName(s), Heads(), UrlField(s), VersionLine(rules, s), ShaField(s), License(), DependsField(s), Tail(s))
  }

  lemma FormulaHasLayout(rules: Rules, s: Snapshot)
    ensures LayoutOf(rules, s).Lines() == FormulaText(rules, s)
  {
    hide ClassName, Heads, VersionLine, ConflictLine, RenderResources, Bottom, Quoted;
    assert FormulaText(rules, s) == Top(rules, s, []) + RenderResources(s.resources) + Bottom(s);
  }

  lemma LayoutIsTagged(rules: Rules, s: Snapshot)
    requires IsFormed(rules, s)
    ensures LayoutOf(rules, s).Tagged()
  {
    hide ClassName, Heads, ConflictLine, RenderResources, Bottom, Quoted, Tag, IsPlain, IsHex, IsPython;
    ClassNameFacts(s);
    HeadsSection();
    FieldTags(s);
    ShaLine(s.sha256);
    LicenseLine();
    BlankLineIsPlain();
    DependsLine(s.python);
    ConflictSection(s);
    RenderedTags(s.resources);
    BottomSection(s);
  }

  lemma FieldTags(s: Snapshot)
    ensures Tag(UrlField(s)) == 'u' && Tag(Quoted(["  version ", s.version, ""])) == 'v'
  {
    QuotedTag(["  url ", s.url, ""]);
    QuotedTag(["  version ", s.version, ""]);
  }

  lemma HeadingShowsTag(line: string)
    ensures Heading(line).Some? ==> Tag(line) == 'r'
  {
    assert RESOURCE[2] == 'r';
    StartsLike(line, RESOURCE, "\" do", 2);
  }

  lemma TopTags(rules: Rules, s: Snapshot)
    requires IsFormed(rules, s)
    ensures Avoids(Top(rules, s, []), 'r')
  {
    hide ClassName, Heads, ConflictLine, RenderResources, Bottom, Quoted, Tag, IsPlain, IsHex, IsPython;
    ClassNameFacts(s);
    HeadsSection();
    FieldTags(s);
    ShaLine(s.sha256);
    LicenseLine();
    BlankLineIsPlain();
    DependsLine(s.python);
    ConflictSection(s);
  }

  lemma UntaggedOpensNothing(text: Text)
    requires Avoids(text, 'r')
    ensures forall line | line in text :: Heading(line).None?
  {
    forall line | line in text ensures Heading(line).None? {
      HeadingShowsTag(line);
    }
  }

  /** The printed resources are the ones found, whatever the quoted values are. */
  lemma PrintedResourcesAreFound(rules: Rules, s: Snapshot)
    requires IsFormed(rules, s)
    ensures FindResources(FormulaText(rules, s)) == s.resources
  {
    TopTags(rules, s);
    BottomSection(s);
    hide Heading, FindResources, RenderResources, Top, Tag, WellFormed, IsPlain;
    UntaggedOpensNothing(Top(rules, s, []));
    UntaggedOpensNothing(Bottom(s));
    hide Bottom;
    RenderedBlocksAreFound(s.resources, Bottom(s));
    FindSkips(Top(rules, s, []), RenderResources(s.resources) + Bottom(s));
    assert FormulaText(rules, s) == Top(rules, s, []) + (RenderResources(s.resources) + Bottom(s));
  }

  /** Both whole-text checks see the two quoted fields and the resources only. */
  lemma ChecksSeeFields(a: Text, url: string, version: Text, b: Text, rendered: Text, c: Text)
    requires AllPlain(a) && AllPlain(b) && AllPlain(c)
    ensures var text := a + [url] + version + b + rendered + c;
            && CountAll(text, RESOURCE) == CountIn(url, RESOURCE) + CountAll(version, RESOURCE) + CountAll(rendered, RESOURCE)
            && (AnyContains(text, RESOURCE_ERROR)
                <==> Contains(url, RESOURCE_ERROR) || AnyContains(version, RESOURCE_ERROR)
                     || AnyContains(rendered, RESOURCE_ERROR))
  {
    hide CountIn, Contains, IsPlain;
    PlainCount(a);
    PlainCount(b);
    PlainCount(c);
    hide AllPlain;
    CountDistributes(a + [url] + version + b + rendered, c, RESOURCE);
    CountDistributes(a + [url] + version + b, rendered, RESOURCE);
    CountDistributes(a + [url] + version, b, RESOURCE);
    CountDistributes(a + [url], version, RESOURCE);
    CountDistributes(a, [url], RESOURCE);
    assert CountAll([url], RESOURCE) == CountIn(url, RESOURCE) + CountAll([url][1..], RESOURCE);
    ErrorsSeeFields(a, url, version, b, rendered, c);
  }

  lemma ErrorsSeeFields(a: Text, url: string, version: Text, b: Text, rendered: Text, c: Text)
    requires !AnyContains(a, RESOURCE_ERROR) && !AnyContains(b, RESOURCE_ERROR) && !AnyContains(c, RESOURCE_ERROR)
    ensures AnyContains(a + [url] + version + b + rendered + c, RESOURCE_ERROR)
        <==> Contains(url, RESOURCE_ERROR) || AnyContains(version, RESOURCE_ERROR) || AnyContains(rendered, RESOURCE_ERROR)
  {
    hide Contains;
    assert url in a + [url] + version + b + rendered + c;
  }

  /** The lines after the version up to the resources. */
  function Middle(s: Snapshot): Text {
    [ShaField(s)] + License() + [DependsField(s)] + ConflictLine(s) + [""]
  }

  lemma MiddleIsPlain(rules: Rules, s: Snapshot)
    requires IsFormed(rules, s)
    ensures AllPlain(Middle(s))
  {
    hide ConflictLine, Quoted, Tag, IsPlain, IsHex, IsPython;
    ShaLine(s.sha256);
    LicenseLine();
    BlankLineIsPlain();
    DependsLine(s.python);
    ConflictSection(s);
  }

  lemma FieldChecks(pre: string, value: string)
    requires '"' !in pre && 'R' !in pre && |pre| < 11 && '"' !in value
    ensures var line := Quoted([pre, value, ""]);
            && CountIn(line, RESOURCE) == (if EndsLikeHeading(value) then 1 else 0)
            && (Contains(line, RESOURCE_ERROR) <==> Contains(value, RESOURCE_ERROR))
  {
    QuotedField(pre, value);
    FieldLineCount(pre, value);
    FieldLineError(pre, value);
  }

  lemma VersionChecks(rules: Rules, s: Snapshot)
    requires rules.sourceVersion(s.url) == Some(s.version) || '"' !in s.version
    ensures CountAll(VersionLine(rules, s), RESOURCE) == 0 && !AnyContains(VersionLine(rules, s), RESOURCE_ERROR)
        <==> rules.sourceVersion(s.url) == Some(s.version) || IsNeutral(s.version)
  {
    hide CountIn, Contains, EndsLikeHeading;
    if rules.sourceVersion(s.url) != Some(s.version) {
      var line := Quoted(["  version ", s.version, ""]);
      assert '"' !in "  version " && 'R' !in "  version ";
      FieldChecks("  version ", s.version);
      assert CountAll([line], RESOURCE) == CountIn(line, RESOURCE) + CountAll([line][1..], RESOURCE);
      assert line in [line];
    }
  }

  lemma FixedSectionsArePlain(rules: Rules, s: Snapshot)
    requires IsFormed(rules, s)
    ensures AllPlain([ClassName(s)] + Heads()) && AllPlain(Middle(s)) && AllPlain(Bottom(s))
  {
    hide IsPlain, Tag, ClassName, Heads, Bottom, Match, Middle;
    ClassNameFacts(s);
    HeadsSection();
    MiddleIsPlain(rules, s);
    BottomSection(s);
  }

  lemma PrintedChecks(rules: Rules, s: Snapshot)
    requires IsFormed(rules, s)
    ensures CountAll(FormulaText(rules, s), RESOURCE)
         == CountIn(UrlField(s), RESOURCE) + CountAll(VersionLine(rules, s), RESOURCE)
            + CountAll(RenderResources(s.resources), RESOURCE)
    ensures AnyContains(FormulaText(rules, s), RESOURCE_ERROR)
        <==> Contains(UrlField(s), RESOURCE_ERROR) || AnyContains(VersionLine(rules, s), RESOURCE_ERROR)
             || AnyContains(RenderResources(s.resources), RESOURCE_ERROR)
  {
    hide CountIn, Contains, AnyContains, CountAll, AllPlain, IsFormed, Quoted;
    hide ClassName, Heads, Bottom, ConflictLine, VersionLine, RenderResources;
    var a := [ClassName(s)] + Heads();
    FixedSectionsArePlain(rules, s);
    ChecksSeeFields(a, UrlField(s), VersionLine(rules, s), Middle(s), RenderResources(s.resources), Bottom(s));
    assert FormulaText(rules, s)
        == a + [UrlField(s)] + VersionLine(rules, s) + Middle(s) + RenderResources(s.resources) + Bottom(s);
  }

  /** The two whole-text checks pass exactly on the printable snapshots. */
  lemma ChecksPass(rules: Rules, s: Snapshot)
    requires IsFormed(rules, s)
    ensures CountAll(FormulaText(rules, s), RESOURCE) == |s.resources| && !AnyContains(FormulaText(rules, s), RESOURCE_ERROR)
        <==> IsPrintable(rules, s)
  {
    hide FormulaText, CountAll, CountIn, Contains, AnyContains, EndsLikeHeading, VersionLine, RenderResources, IsPython;
    PrintedChecks(rules, s);
    assert '"' !in "  url " && 'R' !in "  url ";
    FieldChecks("  url ", s.url);
    VersionChecks(rules, s);
    RenderedCount(s.resources);
    RenderedErrors(s.resources);
  }

  /** Each pattern finds its one line, the version's being left out when the URL tells it. */
  lemma PrintedMatches(rules: Rules, s: Snapshot)
    requires IsFormed(rules, s)
    ensures var text := FormulaText(rules, s);
            && Matches(text, ClassLine) == [if s.dev then DEV_CLASS else STABLE_CLASS]
            && Matches(text, FieldLine("url")) == [s.url]
            && Matches(text, FieldLine("sha256")) == [s.sha256]
            && Matches(text, FieldLine("version")) == (if rules.sourceVersion(s.url) == Some(s.version) then [] else [s.version])
            && Matches(text, PythonLine) == [s.python]
  {
    var t := LayoutOf(rules, s);
    LayoutIsTagged(rules, s);
    FormulaHasLayout(rules, s);
    ClassNameFacts(s);
    FieldMatches(s);
    PythonMatches(s);
    hide FormulaText, Matches, Match, Tag, ClassName, Heads, Tail, Quoted, IsPython, IsHex, STABLE_CLASS, DEV_CLASS;
    ClassFound(t);
    UrlFound(t);
    ShaFound(t);
    VersionFound(t);
    PythonFound(t);
  }

  /** The printed resources parse back exactly when the snapshot is printable. */
  lemma PrintedResourcesParse(rules: Rules, s: Snapshot)
    requires IsFormed(rules, s)
    ensures ParseResources(rules, FormulaText(rules, s)) == if IsPrintable(rules, s) then Some(s.resources) else None
  {
    hide FormulaText, FindResources, CountAll, AnyContains, IsPrintable, IsPython, IsHex, WellFormed;
    PrintedResourcesAreFound(rules, s);
    ChecksPass(rules, s);
  }

  /**
    The formula printed from a snapshot whose fields are formed is accepted exactly when the snapshot
    is printable, and then gives back that snapshot with the digest of the printed text.
  */
  lemma PrintedSnapshotIsAccepted(rules: Rules, s: Snapshot)
    requires IsFormed(rules, s)
    ensures MakeSnapshot(rules, FormulaText(rules, s), s.version, s.commit)
         == if IsPrintable(rules, s) then Some((s, Sha256(FormulaText(rules, s)))) else None
  {
    hide FormulaText, Matches, ParseResources, NonBlank, IsPrintable, IsPython, IsHex, WellFormed, STABLE_CLASS, DEV_CLASS;
    PrintedMatches(rules, s);
    PrintedResourcesParse(rules, s);
    ClassesDiffer();
  }

  lemma ClassesDiffer()
    ensures STABLE_CLASS != DEV_CLASS
  {
    assert |STABLE_CLASS| < |DEV_CLASS|;
  }

  // --------------------------------------------------------- the accepted texts

  lemma {:induction false} FieldValues(text: Text, name: string)
    ensures forall v | v in Matches(text, FieldLine(name)) :: v != "" && '"' !in v
  {
    if text != [] {
      FieldValues(text[1..], name);
    }
  }

  lemma {:induction false} PythonValues(text: Text)
    ensures forall v | v in Matches(text, PythonLine) :: IsPython(v)
  {
    if text != [] {
      hide IsPython;
      PythonValues(text[1..]);
    }
  }

  lemma AcceptedIsFormed(rules: Rules, text: Text, version: string, commit: string)
    requires MakeSnapshot(rules, text, version, commit).Some?
    ensures var s := MakeSnapshot(rules, text, version, commit).value.0;
            && IsFormed(rules, s) && s.version == version && s.commit == commit
            && NonBlank(text) == NonBlank(FormulaText(rules, s)) && FindResources(text) == s.resources
  {
    hide Matches, FindResources, CountAll, AnyContains, NonBlank, FormulaText, IsPython;
    FieldValues(text, "url");
    FieldValues(text, "version");
    PythonValues(text);
    FoundBlocksAreWellFormed(text);
    var urls, versions := Matches(text, FieldLine("url")), Matches(text, FieldLine("version"));
    var pythons := Matches(text, PythonLine);
    assert urls[0] in urls && pythons[0] in pythons && (versions != [] ==> versions[0] in versions);
  }

  lemma AcceptedIsPrintable(rules: Rules, text: Text, version: string, commit: string)
    requires MakeSnapshot(rules, text, version, commit).Some?
    ensures IsPrintable(rules, MakeSnapshot(rules, text, version, commit).value.0)
  {
    hide MakeSnapshot, FormulaText, IsFormed, IsPrintable;
    AcceptedIsFormed(rules, text, version, commit);
    SnapshotRoundTrip(rules, text, version, commit);
    PrintedSnapshotIsAccepted(rules, MakeSnapshot(rules, text, version, commit).value.0);
  }

  /** A text with the lines of a printed snapshot and its blocks unbroken gives that snapshot. */
  lemma LooseTextIsAccepted(rules: Rules, text: Text, s: Snapshot)
    requires IsFormed(rules, s) && IsPrintable(rules, s)
    requires NonBlank(text) == NonBlank(FormulaText(rules, s)) && FindResources(text) == s.resources
    ensures MakeSnapshot(rules, text, s.version, s.commit) == Some((s, Sha256(FormulaText(rules, s))))
  {
    var canonical := FormulaText(rules, s);
    PrintedSnapshotIsAccepted(rules, s);
    PrintedResourcesAreFound(rules, s);
    hide FormulaText, Matches, FindResources, CountAll, AnyContains, NonBlank, IsPrintable;
    MatchesAgree(text, canonical, ClassLine);
    MatchesAgree(text, canonical, FieldLine("url"));
    MatchesAgree(text, canonical, FieldLine("sha256"));
    MatchesAgree(text, canonical, FieldLine("version"));
    MatchesAgree(text, canonical, PythonLine);
    ResourceChecksAgree(text, canonical);
  }

  /**
    The accepted texts are the printed forms of formed, printable snapshots, up to blank lines that
    break no resource block; the snapshot is the one that was printed.
  */
  lemma AcceptedTexts(rules: Rules, text: Text, s: Snapshot)
    ensures MakeSnapshot(rules, text, s.version, s.commit) == Some((s, Sha256(FormulaText(rules, s))))
        <==> && IsFormed(rules, s) && IsPrintable(rules, s)
             && NonBlank(text) == NonBlank(FormulaText(rules, s)) && FindResources(text) == s.resources
  {
    hide MakeSnapshot, FormulaText, IsFormed, IsPrintable, FindResources, NonBlank;
    if MakeSnapshot(rules, text, s.version, s.commit) == Some((s, Sha256(FormulaText(rules, s)))) {
      AcceptedIsFormed(rules, text, s.version, s.commit);
      AcceptedIsPrintable(rules, text, s.version, s.commit);
    } else if && IsFormed(rules, s) && IsPrintable(rules, s)
              && NonBlank(text) == NonBlank(FormulaText(rules, s)) && FindResources(text) == s.resources {
      LooseTextIsAccepted(rules, text, s);
    }
  }
}
