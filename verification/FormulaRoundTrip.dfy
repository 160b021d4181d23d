/** Proofs that the formula printer and parser undo each other. */
module FormulaRoundTrip {
  import opened Wrappers
  import opened TextLines
  import opened Formula

  lemma BetweenShowsItsStart(line: string, pre: string, post: string)
    requires Between(line, pre, post).Some? && pre != ""
    ensures pre[|pre| - 1] in line
  {
    assert line[..|pre|][|pre| - 1] == line[|pre| - 1];
  }

  lemma ClassLinesAreVisible(name: string)
    ensures !IsBlank("class " + name + " < Formula")
  {
    var line := "class " + name + " < Formula";
    assert line[0] == 'c' && line[0] in line;
  }

  lemma BlankMatchesNothing(p: Pattern, line: string)
    requires IsBlank(line)
    ensures Match(p, line).None?
  {
    if Match(p, line).Some? {
      match p
      case ClassLine =>
        ClassLinesAreVisible(STABLE_CLASS);
        ClassLinesAreVisible(DEV_CLASS);
      case FieldLine(name) =>
        BetweenShowsItsStart(line, "  " + name + " \"", "\"");
      case PythonLine =>
        BetweenShowsItsStart(line, "  depends_on \"", "\"");
    }
  }

  /** Searching for a pattern sees the non-blank lines only. */
  lemma {:induction false} MatchesIgnoreBlanks(text: Text, p: Pattern)
    ensures Matches(NonBlank(text), p) == Matches(text, p)
  {
    if text != [] {
      MatchesIgnoreBlanks(text[1..], p);
      if IsBlank(text[0]) {
        BlankMatchesNothing(p, text[0]);
      } else {
        assert NonBlank(text)[1..] == NonBlank(text[1..]);
      }
    }
  }

  lemma MatchesAgree(a: Text, b: Text, p: Pattern)
    requires NonBlank(a) == NonBlank(b)
    ensures Matches(a, p) == Matches(b, p)
  {
    MatchesIgnoreBlanks(a, p);
    MatchesIgnoreBlanks(b, p);
  }

  lemma BlockReadsBack(r: Resource, rest: Text)
    requires WellFormed(r) && rest != []
    ensures ReadBlock(BlockLines(r) + rest) == Some(r)
    ensures (BlockLines(r) + rest)[4..] == rest
  {
    var text := BlockLines(r) + rest;
    assert text[0] == RESOURCE + r.name + "\" do" && text[3] == "  end";
    assert text[1] == "    url \"" + r.url + "\"" && text[2] == "    sha256 \"" + r.sha256 + "\"";
    BetweenReadsBack(RESOURCE, r.name, "\" do");
    BetweenReadsBack("    url \"", r.url, "\"");
    BetweenReadsBack("    sha256 \"", r.sha256, "\"");
  }

  lemma {:induction false} FoundBlocksAreWellFormed(text: Text)
    ensures forall r | r in FindResources(text) :: WellFormed(r)
  {
    if text != [] {
      if ReadBlock(text).Some? {
        FoundBlocksAreWellFormed(text[4..]);
      } else {
        FoundBlocksAreWellFormed(text[1..]);
      }
    }
  }

  /** Lines that open no block are passed over. */
  lemma {:induction false} FindSkips(pre: Text, rest: Text)
    requires forall line | line in pre :: Heading(line).None?
    ensures FindResources(pre + rest) == FindResources(rest)
  {
    if pre == [] {
      assert pre + rest == rest;
    } else {
      assert (pre + rest)[0] == pre[0];
      assert (pre + rest)[1..] == pre[1..] + rest;
      FindSkips(pre[1..], rest);
    }
  }

  lemma FindsNothing(text: Text)
    requires forall line | line in text :: Heading(line).None?
    ensures FindResources(text) == []
  {
    FindSkips(text, []);
    assert text + [] == text;
  }

  lemma FirstBlockIsFound(r: Resource, rest: Text)
    requires WellFormed(r) && rest != []
    ensures FindResources(BlockLines(r) + rest) == [r] + FindResources(rest)
  {
    hide ReadBlock;
    BlockReadsBack(r, rest);
  }

  /** Rendered blocks followed by a terminated end are found again, in order. */
  lemma {:induction false} RenderedBlocksAreFound(rs: seq<Resource>, post: Text)
    requires forall r | r in rs :: WellFormed(r)
    requires post != [] && forall line | line in post :: Heading(line).None?
    ensures FindResources(RenderResources(rs) + post) == rs
  {
    hide FindResources, BlockLines, WellFormed;
    if |rs| == 0 {
      assert RenderResources(rs) + post == post;
      FindsNothing(post);
    } else if |rs| == 1 {
      FirstBlockIsFound(rs[0], post);
      FindsNothing(post);
    } else {
      var rest := RenderResources(rs[1..]) + post;
      assert RenderResources(rs) + post == BlockLines(rs[0]) + ([""] + rest);
      FirstBlockIsFound(rs[0], [""] + rest);
      assert Heading("").None?;
      FindSkips([""], rest);
      RenderedBlocksAreFound(rs[1..], post);
    }
  }

  /** A block's first line opens with the text that is counted. */
  lemma HeadingIsCounted(line: string)
    requires Heading(line).Some?
    ensures CountIn(line, RESOURCE) >= 1
  {
    assert line[0..|RESOURCE|] == line[..|RESOURCE|];
    assert OccursAt(line, RESOURCE, 0);
    CountIsZeroIffAbsent(line, RESOURCE);
  }

  lemma {:induction false} UncountedLinesOpenNothing(text: Text)
    requires CountAll(text, RESOURCE) == 0
    ensures forall line | line in text :: Heading(line).None?
  {
    if text != [] {
      UncountedLinesOpenNothing(text[1..]);
      if Heading(text[0]).Some? {
        HeadingIsCounted(text[0]);
      }
    }
  }

  lemma {:induction false} RenderedBlocksAreCounted(rs: seq<Resource>)
    requires forall r | r in rs :: WellFormed(r)
    ensures CountAll(RenderResources(rs), RESOURCE) >= |rs|
  {
    if |rs| > 0 {
      var block := BlockLines(rs[0]);
      BlockReadsBack(rs[0], [""]);
      assert (block + [""])[0] == block[0];
      HeadingIsCounted(block[0]);
      assert CountAll(block, RESOURCE) >= 1;
      if |rs| > 1 {
        RenderedBlocksAreCounted(rs[1..]);
        CountDistributes(block + [""], RenderResources(rs[1..]), RESOURCE);
        CountDistributes(block, [""], RESOURCE);
      }
    }
  }

  /** Equal non-blank lines give equal counts and the same error lines. */
  lemma ResourceChecksAgree(a: Text, b: Text)
    requires NonBlank(a) == NonBlank(b)
    ensures CountAll(a, RESOURCE) == CountAll(b, RESOURCE)
    ensures AnyContains(a, RESOURCE_ERROR) <==> AnyContains(b, RESOURCE_ERROR)
  {
    assert !IsSpace(RESOURCE[2]) && !IsSpace(RESOURCE_ERROR[0]);
    assert !IsBlank(RESOURCE) && !IsBlank(RESOURCE_ERROR);
    CountIgnoresBlanks(a, RESOURCE);
    CountIgnoresBlanks(b, RESOURCE);
    ContainsIgnoresBlanks(a, RESOURCE_ERROR);
    ContainsIgnoresBlanks(b, RESOURCE_ERROR);
  }

  /** When every counted heading belongs to a rendered block, nothing else opens one. */
  lemma FrameOpensNothing(top: Text, rs: seq<Resource>, bottom: Text)
    requires forall r | r in rs :: WellFormed(r)
    requires CountAll(top + RenderResources(rs) + bottom, RESOURCE) == |rs|
    ensures forall line | line in top :: Heading(line).None?
    ensures forall line | line in bottom :: Heading(line).None?
  {
    hide RenderResources;
    CountDistributes(top + RenderResources(rs), bottom, RESOURCE);
    CountDistributes(top, RenderResources(rs), RESOURCE);
    RenderedBlocksAreCounted(rs);
    UncountedLinesOpenNothing(top);
    UncountedLinesOpenNothing(bottom);
  }

  lemma FramedBlocksAreFound(top: Text, rs: seq<Resource>, bottom: Text)
    requires forall r | r in rs :: WellFormed(r)
    requires CountAll(top + RenderResources(rs) + bottom, RESOURCE) == |rs| && bottom != []
    ensures FindResources(top + RenderResources(rs) + bottom) == rs
  {
    hide RenderResources, FindResources, Heading;
    FrameOpensNothing(top, rs, bottom);
    RenderedBlocksAreFound(rs, bottom);
    FindSkips(top, RenderResources(rs) + bottom);
    assert top + RenderResources(rs) + bottom == top + (RenderResources(rs) + bottom);
  }

  /** The canonical text of accepted resources parses to those resources. */
  lemma CanonicalResourcesParse(rules: Rules, text: Text, top: Text, rs: seq<Resource>, bottom: Text)
    requires ParseResources(rules, text) == Some(rs)
    requires NonBlank(text) == NonBlank(top + RenderResources(rs) + bottom)
    requires bottom != []
    ensures ParseResources(rules, top + RenderResources(rs) + bottom) == Some(rs)
  {
    hide RenderResources, FindResources, NonBlank, CountAll, AnyContains;
    ResourceChecksAgree(text, top + RenderResources(rs) + bottom);
    FoundBlocksAreWellFormed(text);
    FramedBlocksAreFound(top, rs, bottom);
  }

  /**
    For every accepted text: its snapshot prints a canonical text that has the same non-blank
    lines, is accepted again, and gives back the same snapshot with the same digest.
  */
  lemma SnapshotRoundTrip(rules: Rules, text: Text, version: string, commit: string)
    requires MakeSnapshot(rules, text, version, commit).Some?
    ensures var made := MakeSnapshot(rules, text, version, commit);
            var canonical := FormulaText(rules, made.value.0);
            && NonBlank(canonical) == NonBlank(text)
            && made.value.1 == Sha256(canonical)
            && MakeSnapshot(rules, canonical, version, commit) == made
  {
    var s := MakeSnapshot(rules, text, version, commit).value.0;
    var canonical := FormulaText(rules, s);
    MatchesAgree(text, canonical, ClassLine);
    MatchesAgree(text, canonical, FieldLine("url"));
    MatchesAgree(text, canonical, FieldLine("sha256"));
    MatchesAgree(text, canonical, FieldLine("version"));
    MatchesAgree(text, canonical, PythonLine);
    CanonicalResourcesParse(rules, text, Top(rules, s, []), s.resources, Bottom(s));
  }

  /** Two accepted texts with one snapshot differ in blank lines only. */
  lemma SnapshotDeterminesLines(rules: Rules, a: Text, b: Text, version: string, commit: string)
    requires MakeSnapshot(rules, a, version, commit).Some?
    ensures MakeSnapshot(rules, b, version, commit) == MakeSnapshot(rules, a, version, commit)
        ==> NonBlank(a) == NonBlank(b)
  {
  }

  // -------------------------------------------------- resources on their own

  predicate EndsLikeHeading(url: string) {
    EndsWith(url, "  resource ")
  }

  /** A quoted value that the two whole-text checks do not mistake for formula syntax. */
  predicate IsNeutral(value: string) {
    !Contains(value, RESOURCE_ERROR) && !EndsLikeHeading(value)
  }

  predicate Unambiguous(r: Resource) {
    IsNeutral(r.url)
  }

  lemma OccurrenceAt(line: string, needle: string, k: int, i: int)
    requires OccursAt(line, needle, k) && 0 <= i < |needle|
    ensures line[k + i] == needle[i]
  {
    assert line[k..k + |needle|][i] == line[k + i];
  }

  /** Where `  resource "` occurs, a quote stands eleven places on, after a space. */
  lemma ResourceShape(line: string, k: int)
    requires OccursAt(line, RESOURCE, k)
    ensures line[k + 2] == 'r' && line[k + 10] == ' ' && line[k + 11] == '"'
    ensures forall i | k <= i < k + 11 :: line[i] != '"'
  {
    OccurrenceAt(line, RESOURCE, k, 2);
    OccurrenceAt(line, RESOURCE, k, 10);
    OccurrenceAt(line, RESOURCE, k, 11);
    forall i | k <= i < k + 11 ensures line[i] != '"' {
      OccurrenceAt(line, RESOURCE, k, i - k);
      assert RESOURCE[i - k] != '"';
    }
  }

  /** A line without capitals holds no error marker. */
  lemma NoCapitalNoError(line: string)
    requires 'R' !in line
    ensures !Contains(line, RESOURCE_ERROR)
  {
    if Contains(line, RESOURCE_ERROR) {
      var k :| 0 <= k <= |line| && OccursAt(line, RESOURCE_ERROR, k);
      OccurrenceAt(line, RESOURCE_ERROR, k, 0);
    }
  }

  lemma HeadingHasNoError(name: string)
    requires IsSlug(name)
    ensures !Contains(RESOURCE + name + "\" do", RESOURCE_ERROR)
  {
    var line := RESOURCE + name + "\" do";
    assert forall c | c in line :: c in RESOURCE || c in name || c in "\" do";
    assert 'R' !in RESOURCE && 'R' !in "\" do";
    NoCapitalNoError(line);
  }

  lemma HeadingCountsOnce(name: string)
    requires IsSlug(name)
    ensures CountIn(RESOURCE + name + "\" do", RESOURCE) == 1
  {
    var line := RESOURCE + name + "\" do";
    assert line[0..|RESOURCE|] == RESOURCE;
    assert OccursAt(line, RESOURCE, 0);
    assert forall i | 0 <= i < |name| :: line[12 + i] == name[i] && name[i] in name;
    forall k | OccursAt(line, RESOURCE, k) ensures k == 0 {
      ResourceShape(line, k);
    }
    CountIsOne(line, RESOURCE, 0);
  }

  lemma OccurrenceHasQuote(line: string, k: int)
    ensures OccursAt(line, RESOURCE, k) ==> '"' in line
  {
    if OccursAt(line, RESOURCE, k) {
      ResourceShape(line, k);
    }
  }

  /** A heading in a line with a quote ends the part before the quote or lies in the part after it. */
  lemma HeadingAtQuote(first: string, rest: string, k: int)
    requires '"' !in first && OccursAt(first + "\"" + rest, RESOURCE, k)
    ensures EndsLikeHeading(first) || Contains(rest, RESOURCE)
  {
    var line := first + "\"" + rest;
    ResourceShape(line, k);
    assert line[|first|] == '"';
    if k + 11 == |first| {
      forall i | 0 <= i < 11 ensures first[k + i] == "  resource "[i] {
        OccurrenceAt(line, RESOURCE, k, i);
      }
      assert first[|first| - 11..] == "  resource ";
    } else {
      var j := k - |first| - 1;
      forall i | 0 <= i < |RESOURCE| ensures rest[j + i] == RESOURCE[i] {
        OccurrenceAt(line, RESOURCE, k, i);
      }
      assert rest[j..j + |RESOURCE|] == RESOURCE;
      assert OccursAt(rest, RESOURCE, j);
    }
  }

  /** After a short start, a quoted value that ends like a heading makes one with its closing quote, and no other. */
  lemma FieldLineCount(pre: string, value: string)
    requires '"' !in pre && |pre| < 11 && '"' !in value
    ensures CountIn(pre + "\"" + value + "\"", RESOURCE) == if EndsLikeHeading(value) then 1 else 0
  {
    var line := pre + "\"" + value + "\"";
    var last := |line| - 1;
    forall k | OccursAt(line, RESOURCE, k) ensures k + 11 == last && EndsLikeHeading(value) {
      FieldHeadingPlace(pre, value, k);
    }
    if EndsLikeHeading(value) {
      assert line[last - 11..last + 1] == value[|value| - 11..] + "\"";
      assert OccursAt(line, RESOURCE, last - 11);
      CountIsOne(line, RESOURCE, last - 11);
    } else {
      CountIsZeroIffAbsent(line, RESOURCE);
    }
  }

  lemma FieldHeadingPlace(pre: string, value: string, k: int)
    requires '"' !in pre && |pre| < 11 && '"' !in value
    requires OccursAt(pre + "\"" + value + "\"", RESOURCE, k)
    ensures k + 11 == |pre| + 1 + |value| && EndsLikeHeading(value)
  {
    var line := pre + "\"" + value + "\"";
    ResourceShape(line, k);
    assert line[|pre|] == '"';
    assert forall i | 0 <= i < |value| :: line[|pre| + 1 + i] == value[i] && value[i] in value;
    var tail := value[|value| - 11..];
    forall i | 0 <= i < 11 ensures tail[i] == "  resource "[i] {
      OccurrenceAt(line, RESOURCE, k, i);
    }
    assert tail == "  resource ";
  }

  /** A quoted value carries the error marker exactly when the whole line does. */
  lemma FieldLineError(pre: string, value: string)
    requires 'R' !in pre
    ensures Contains(pre + "\"" + value + "\"", RESOURCE_ERROR) <==> Contains(value, RESOURCE_ERROR)
  {
    var line := pre + "\"" + value + "\"";
    if Contains(value, RESOURCE_ERROR) {
      var k :| 0 <= k <= |value| && OccursAt(value, RESOURCE_ERROR, k);
      var j := |pre| + 1 + k;
      assert line[j..j + |RESOURCE_ERROR|] == value[k..k + |RESOURCE_ERROR|];
      assert OccursAt(line, RESOURCE_ERROR, j);
    }
    if Contains(line, RESOURCE_ERROR) {
      var k :| 0 <= k <= |line| && OccursAt(line, RESOURCE_ERROR, k);
      forall i | k <= i < k + |RESOURCE_ERROR| ensures line[i] != '"' {
        OccurrenceAt(line, RESOURCE_ERROR, k, i - k);
        assert RESOURCE_ERROR[i - k] != '"';
      }
      OccurrenceAt(line, RESOURCE_ERROR, k, 0);
      assert line[|pre|] == '"' && line[|line| - 1] == '"';
      assert forall i | 0 <= i < |pre| :: line[i] == pre[i] && pre[i] in pre;
      var j := k - |pre| - 1;
      assert 0 <= j && j + |RESOURCE_ERROR| <= |value|;
      forall i | 0 <= i < |RESOURCE_ERROR| ensures value[j + i] == RESOURCE_ERROR[i] {
        OccurrenceAt(line, RESOURCE_ERROR, k, i);
        assert value[j + i] == line[k + i];
      }
      assert value[j..j + |RESOURCE_ERROR|] == RESOURCE_ERROR;
      assert OccursAt(value, RESOURCE_ERROR, j);
    }
  }

  lemma UrlLine(url: string)
    requires '"' !in url
    ensures var line := "    url \"" + url + "\"";
            && CountIn(line, RESOURCE) == (if EndsLikeHeading(url) then 1 else 0)
            && (Contains(line, RESOURCE_ERROR) <==> Contains(url, RESOURCE_ERROR))
  {
    assert "    url \"" + url + "\"" == "    url " + "\"" + url + "\"";
    FieldLineCount("    url ", url);
    FieldLineError("    url ", url);
  }

  lemma DigestLineIsPlain(sha: string)
    requires IsHex(sha, 64)
    ensures CountIn("    sha256 \"" + sha + "\"", RESOURCE) == 0
    ensures !Contains("    sha256 \"" + sha + "\"", RESOURCE_ERROR)
  {
    var line := "    sha256 \"" + sha + "\"";
    assert forall i | 0 <= i < |sha| :: line[12 + i] == sha[i] && sha[i] in sha;
    forall k ensures !OccursAt(line, RESOURCE, k) {
      if OccursAt(line, RESOURCE, k) {
        ResourceShape(line, k);
        assert false;
      }
    }
    CountIsZeroIffAbsent(line, RESOURCE);
    assert forall c | c in line :: c in "    sha256 \"" || c in sha || c in "\"";
    assert 'R' !in "    sha256 \"" && 'R' !in "\"";
    NoCapitalNoError(line);
  }

  lemma BlockCount(r: Resource)
    requires WellFormed(r)
    ensures CountAll(BlockLines(r), RESOURCE) == if EndsLikeHeading(r.url) then 2 else 1
    ensures AnyContains(BlockLines(r), RESOURCE_ERROR) <==> Contains(r.url, RESOURCE_ERROR)
  {
    hide CountIn, Contains, EndsLikeHeading, IsSlug;
    var block := BlockLines(r);
    HeadingCountsOnce(r.name);
    HeadingHasNoError(r.name);
    UrlLine(r.url);
    DigestLineIsPlain(r.sha256);
    EndLineIsPlain();
    assert CountAll(block[4..], RESOURCE) == 0;
    assert block[3..] == ["  end"] + block[4..] && block[2..] == [block[2]] + block[3..];
    assert block[1..] == [block[1]] + block[2..];
    assert CountAll(block[3..], RESOURCE) == 0;
    assert CountAll(block[2..], RESOURCE) == 0;
    assert block[1] in block;
  }

  lemma EndLineIsPlain()
    ensures CountIn("  end", RESOURCE) == 0 && !Contains("  end", RESOURCE_ERROR)
  {
  }

  lemma {:induction false} RenderedCount(rs: seq<Resource>)
    requires forall r | r in rs :: WellFormed(r)
    ensures CountAll(RenderResources(rs), RESOURCE) == |rs| <==> forall r | r in rs :: !EndsLikeHeading(r.url)
    ensures CountAll(RenderResources(rs), RESOURCE) >= |rs|
  {
    hide EndsLikeHeading, CountIn;
    if |rs| > 0 {
      var rest := rs[1..];
      BlockCount(rs[0]);
      assert rs == [rs[0]] + rest;
      if |rs| > 1 {
        RenderedCount(rest);
        EmptyLineIsPlain();
        CountDistributes(BlockLines(rs[0]) + [""], RenderResources(rest), RESOURCE);
        CountDistributes(BlockLines(rs[0]), [""], RESOURCE);
      }
    }
  }

  lemma EmptyLineIsPlain()
    ensures CountAll([""], RESOURCE) == 0 && !Contains("", RESOURCE_ERROR)
  {
  }

  lemma {:induction false} RenderedErrors(rs: seq<Resource>)
    requires forall r | r in rs :: WellFormed(r)
    ensures AnyContains(RenderResources(rs), RESOURCE_ERROR) <==> exists r | r in rs :: Contains(r.url, RESOURCE_ERROR)
  {
    hide Contains;
    if |rs| > 0 {
      var rest := rs[1..];
      BlockCount(rs[0]);
      assert rs == [rs[0]] + rest;
      if |rs| > 1 {
        RenderedErrors(rest);
        EmptyLineIsPlain();
        assert RenderResources(rs) == BlockLines(rs[0]) + [""] + RenderResources(rest);
      }
    }
  }

  /**
    Well-formed resources under distinct names, printed and ended by a newline, parse back to
    themselves in order exactly when no URL looks like formula syntax to the two whole-text checks.
  */
  lemma RenderedResourcesParse(rules: Rules, rs: seq<Resource>)
    requires rs != [] && DistinctNames(rs)
    requires forall r | r in rs :: WellFormed(r) && rules.resourceUrl(r.url)
    ensures ParseResources(rules, RenderResources(rs) + [""]) == Some(rs)
        <==> forall r | r in rs :: Unambiguous(r)
    ensures ParseResources(rules, RenderResources(rs) + [""]) in {Some(rs), None}
  {
    hide Contains, CountIn;
    var text := RenderResources(rs) + [""];
    EmptyLineIsPlain();
    CountDistributes(RenderResources(rs), [""], RESOURCE);
    RenderedCount(rs);
    RenderedErrors(rs);
    assert Heading("").None?;
    RenderedBlocksAreFound(rs, [""]);
    assert AnyContains(text, RESOURCE_ERROR) <==> AnyContains(RenderResources(rs), RESOURCE_ERROR);
  }

  lemma EndingIsAmbiguous()
    ensures var url := "https://files.pythonhosted.org/x  resource "; '"' !in url && EndsLikeHeading(url)
  {
    var url, start := "https://files.pythonhosted.org/x  resource ", "https://files.pythonhosted.org/x";
    assert url == start + "  resource ";
    assert url[|start|..] == "  resource ";
    assert '"' !in start && '"' !in "  resource ";
  }

  /** A URL on which the round trip fails although the resource is well formed. */
  lemma AmbiguousUrlIsRefused(sha: string, rules: Rules)
    requires IsHex(sha, 64) && rules.resourceUrl("https://files.pythonhosted.org/x  resource ")
    ensures var r := Resource("a", "https://files.pythonhosted.org/x  resource ", sha);
            WellFormed(r) && ParseResources(rules, RenderResources([r]) + [""]) == None
  {
    var r := Resource("a", "https://files.pythonhosted.org/x  resource ", sha);
    EndingIsAmbiguous();
    assert !Unambiguous(r) && r in [r];
    RenderedResourcesParse(rules, [r]);
  }

  /** Printed alone, without the newline after the last block, the last resource is lost. */
  lemma {:induction false} UnterminatedBlocksLoseTheLast(rs: seq<Resource>)
    requires rs != [] && forall r | r in rs :: WellFormed(r)
    ensures FindResources(RenderResources(rs)) == rs[..|rs| - 1]
  {
    if |rs| == 1 {
      BlockTailOpensNothing(rs[0]);
    } else {
      var rest := [""] + RenderResources(rs[1..]);
      assert RenderResources(rs) == BlockLines(rs[0]) + rest;
      BlockReadsBack(rs[0], rest);
      assert Heading("").None?;
      FindSkips([""], RenderResources(rs[1..]));
      UnterminatedBlocksLoseTheLast(rs[1..]);
      assert rs[..|rs| - 1] == [rs[0]] + rs[1..][..|rs[1..]| - 1];
    }
  }

  lemma BlockTailOpensNothing(r: Resource)
    ensures FindResources(BlockLines(r)) == []
  {
    hide ReadBlock;
    ShortTextHoldsNone(BlockLines(r));
  }

  lemma {:induction false} ShortTextHoldsNone(text: Text)
    requires |text| < 5
    ensures FindResources(text) == []
  {
    if text != [] {
      ShortTextHoldsNone(text[1..]);
    }
  }

  lemma UnterminatedResourcesAreRefused(rules: Rules, rs: seq<Resource>)
    requires rs != [] && forall r | r in rs :: WellFormed(r)
    ensures ParseResources(rules, RenderResources(rs)).None?
  {
    UnterminatedBlocksLoseTheLast(rs);
    RenderedCount(rs);
  }
}
