/** A machine-owned block inside a human-written description, found by its two markers. */
module MarkerBlock {
  import opened Wrappers
  import opened TextLines

  const OWNER := "!-- gh-address-cr:"
  const PURPOSE := "branch-readiness:"
  const START := "<" + (OWNER + PURPOSE + "start --") + ">"
  const END := "<" + (OWNER + PURPOSE + "end --") + ">"

  /** A marker opens with its only `<`, closes with its only `>` and fits on one line. */
  predicate IsMarker(m: string) {
    && |m| >= 2 && m[0] == '<' && m[|m| - 1] == '>'
    && forall i | 0 <= i < |m| :: (m[i] == '<' ==> i == 0) && (m[i] == '>' ==> i == |m| - 1) && m[i] != '\n'
  }

  lemma Bracketed(core: string)
    requires '<' !in core && '>' !in core && '\n' !in core
    ensures IsMarker("<" + core + ">")
  {
    var m := "<" + core + ">";
    assert forall i | 0 < i < |m| - 1 :: m[i] == core[i - 1] && core[i - 1] in core;
  }

  predicate IsPlain(s: string) {
    '<' !in s && '>' !in s && '\n' !in s
  }

  lemma OwnerIsPlain()
    ensures IsPlain(OWNER)
  {
  }

  lemma PurposeIsPlain()
    ensures IsPlain(PURPOSE)
  {
  }

  lemma EndingsArePlain()
    ensures IsPlain("start --") && IsPlain("end --")
  {
  }

  lemma MarkersAreMarkers()
    ensures IsMarker(START) && IsMarker(END)
  {
    hide IsMarker;
    OwnerIsPlain();
    PurposeIsPlain();
    EndingsArePlain();
    Bracketed(OWNER + PURPOSE + "start --");
    Bracketed(OWNER + PURPOSE + "end --");
  }

  lemma OccurrenceHas(s: string, m: string, k: int, i: int)
    requires 0 <= i < |m|
    ensures OccursAt(s, m, k) ==> s[k + i] == m[i]
  {
    assert OccursAt(s, m, k) ==> s[k..k + |m|][i] == s[k + i];
  }

  /** Neither marker lies inside the other. */
  lemma MarkersDiffer()
    ensures !Contains(START, END) && !Contains(END, START)
  {
    MarkersAreMarkers();
    assert |OWNER + PURPOSE| == 35 && "start --"[2] == 'a' && "end --"[2] == 'd';
    assert START[38] == 'a' && END[38] == 'd' && END[0] == '<';
    forall k ensures !OccursAt(START, END, k) {
      OccurrenceHas(START, END, k, 0);
      OccurrenceHas(START, END, k, 38);
    }
  }

  function RStrip(s: string): string {
    if s != "" && IsSpace(s[|s| - 1]) then RStrip(s[..|s| - 1]) else s
  }

  /** The first place at or after `from` where `needle` occurs. */
  function IndexFrom(line: string, needle: string, from: nat): (k: nat)
    requires exists k :: from <= k && OccursAt(line, needle, k)
    ensures from <= k && OccursAt(line, needle, k) && forall j | from <= j < k :: !OccursAt(line, needle, j)
    decreases |line| - from
  {
    if OccursAt(line, needle, from) then from
    else
      assert exists k :: from + 1 <= k && OccursAt(line, needle, k);
      IndexFrom(line, needle, from + 1)
  }

  function Index(line: string, needle: string): (k: nat)
    requires Contains(line, needle)
    ensures OccursAt(line, needle, k) && forall j | 0 <= j < k :: !OccursAt(line, needle, j)
  {
    IndexFrom(line, needle, 0)
  }

  function Inner(text: string): string {
    "\n" + text + "\n"
  }

  function Block(markdown: string): string {
    START + Inner(RStrip(markdown)) + END
  }

  /** Blank line between existing text and a new block. */
  function Separator(body: string): string {
    if body == "" then "" else "\n\n"
  }

  /** The body with the owned block replaced, or added at the end; `None` when the markers are malformed. */
  function ReplaceSummary(body: string, markdown: string): Option<string> {
    if Contains(markdown, START) || Contains(markdown, END) then None
    else if (CountIn(body, START), CountIn(body, END)) !in {(0, 0), (1, 1)} then None
    else if CountIn(body, START) == 0 then Some(body + Separator(body) + Block(markdown))
    else
      CountIsZeroIffAbsent(body, START);
      CountIsZeroIffAbsent(body, END);
      var start := Index(body, START);
      var end := Index(body, END);
      if end < start then None else Some(body[..start] + Block(markdown) + body[end + |END|..])
  }

  /** Trailing blanks go, and nothing else. */
  lemma {:induction false} StrippedEnd(s: string)
    ensures RStrip(s) <= s && IsBlank(s[|RStrip(s)|..])
    ensures RStrip(s) != "" ==> !IsSpace(RStrip(s)[|RStrip(s)| - 1])
  {
    if s != "" && IsSpace(s[|s| - 1]) {
      StrippedEnd(s[..|s| - 1]);
      assert s[|RStrip(s)|..] == s[..|s| - 1][|RStrip(s)|..] + [s[|s| - 1]];
    }
  }

  /** A body without markers gets the block at its end, after a blank line unless it is empty. */
  lemma FirstBlockIsAppended(body: string, markdown: string)
    requires !Contains(body, START) && !Contains(body, END) && !Contains(markdown, START) && !Contains(markdown, END)
    ensures ReplaceSummary(body, markdown)
         == Some(body + (if body == "" then "" else "\n\n") + (START + ("\n" + RStrip(markdown) + "\n") + END))
  {
    CountIsZeroIffAbsent(body, START);
    CountIsZeroIffAbsent(body, END);
  }

  // ------------------------------------------------------- marker occurrences

  ghost predicate OccursOnlyAt(s: string, m: string, at: int) {
    OccursAt(s, m, at) && forall k | OccursAt(s, m, k) :: k == at
  }

  /** A marker occurs once in a text exactly when it is counted once. */
  lemma {:induction false} CountedOnce(s: string, m: string)
    requires IsMarker(m)
    ensures CountIn(s, m) == 1 <==> exists k :: OccursOnlyAt(s, m, k)
  {
    if CountIn(s, m) == 1 {
      OnceIsOnly(s, m);
    }
    if k :| OccursOnlyAt(s, m, k) {
      CountIsOne(s, m, k);
    }
  }

  /** A marker at the front, and none after it, occurs at the front only. */
  lemma OnlyAtFront(s: string, m: string)
    requires IsMarker(m) && m <= s && !Contains(s[|m|..], m)
    ensures OccursOnlyAt(s, m, 0)
  {
    var rest := s[|m|..];
    assert s[0..|m|] == m;
    forall k | OccursAt(s, m, k) ensures k == 0 {
      OccurrenceHas(s, m, k, 0);
      if |m| <= k {
        assert s[k..k + |m|] == rest[k - |m|..k];
        assert OccursAt(rest, m, k - |m|);
      }
    }
  }

  lemma TailOccurs(s: string, m: string, k: int)
    requires s != "" && k >= 1
    ensures OccursAt(s, m, k) <==> OccursAt(s[1..], m, k - 1)
  {
    if OccursAt(s, m, k) {
      forall i | 0 <= i < |m| ensures s[1..][k - 1 + i] == m[i] {
        OccurrenceHas(s, m, k, i);
      }
      assert s[1..][k - 1..k - 1 + |m|] == m;
    }
    if OccursAt(s[1..], m, k - 1) {
      forall i | 0 <= i < |m| ensures s[k + i] == m[i] {
        OccurrenceHas(s[1..], m, k - 1, i);
      }
      assert s[k..k + |m|] == m;
    }
  }

  lemma OnlyLater(s: string, m: string, at: int)
    requires m != "" && s != "" && !(m <= s) && OccursOnlyAt(s[1..], m, at)
    ensures OccursOnlyAt(s, m, at + 1)
  {
    TailOccurs(s, m, at + 1);
    assert !OccursAt(s, m, 0);
    forall k | OccursAt(s, m, k) ensures k == at + 1 {
      if k >= 1 {
        TailOccurs(s, m, k);
      }
    }
  }

  lemma {:induction false} OnceIsOnly(s: string, m: string)
    requires IsMarker(m) && CountIn(s, m) == 1
    ensures exists k :: OccursOnlyAt(s, m, k)
  {
    hide OccursOnlyAt, IsMarker, Contains;
    if m <= s {
      CountIsZeroIffAbsent(s[|m|..], m);
      OnlyAtFront(s, m);
    } else {
      OnceIsOnly(s[1..], m);
      var at :| OccursOnlyAt(s[1..], m, at);
      OnlyLater(s, m, at);
    }
  }

  // -------------------------------------------------------------------- joins

  /** A join that no marker can straddle. */
  predicate IsSeam(a: string, b: string) {
    || a == "" || b == ""
    || b[0] == '<' || b[0] == '\n'
    || a[|a| - 1] == '>' || a[|a| - 1] == '\n'
  }

  /** At a seam, a marker occurs in the whole exactly where it occurs in one of the parts. */
  lemma SeamSplits(a: string, b: string, m: string, k: int)
    requires IsMarker(m) && IsSeam(a, b)
    ensures OccursAt(a + b, m, k) <==> OccursAt(a, m, k) || OccursAt(b, m, k - |a|)
  {
    var s := a + b;
    if 0 <= k && k + |m| <= |a| {
      assert s[k..k + |m|] == a[k..k + |m|];
    } else if |a| <= k && k + |m| <= |s| {
      assert s[k..k + |m|] == b[k - |a|..k - |a| + |m|];
    } else if 0 <= k < |a| < k + |m| <= |s| {
      OccurrenceHas(s, m, k, |a| - k);
      OccurrenceHas(s, m, k, |a| - 1 - k);
    }
  }

  lemma SeamNone(a: string, b: string, m: string)
    requires IsMarker(m) && IsSeam(a, b) && !Contains(a, m) && !Contains(b, m)
    ensures !Contains(a + b, m)
  {
    forall k ensures !OccursAt(a + b, m, k) {
      SeamSplits(a, b, m, k);
    }
  }

  lemma SeamLeft(a: string, b: string, m: string, at: int)
    requires IsMarker(m) && IsSeam(a, b) && OccursOnlyAt(a, m, at) && !Contains(b, m)
    ensures OccursOnlyAt(a + b, m, at)
  {
    forall k ensures OccursAt(a + b, m, k) <==> k == at {
      SeamSplits(a, b, m, k);
    }
  }

  lemma SeamRight(a: string, b: string, m: string, at: int)
    requires IsMarker(m) && IsSeam(a, b) && !Contains(a, m) && OccursOnlyAt(b, m, at)
    ensures OccursOnlyAt(a + b, m, |a| + at)
  {
    forall k ensures OccursAt(a + b, m, k) <==> k == |a| + at {
      SeamSplits(a, b, m, k);
    }
  }

  // -------------------------------------------------------------------- block

  predicate IsFree(s: string) {
    !Contains(s, START) && !Contains(s, END)
  }

  lemma InnerIsFree(text: string)
    requires IsFree(text)
    ensures IsFree(Inner(text))
  {
    MarkersAreMarkers();
    SeamNone("\n", text, START);
    SeamNone("\n", text, END);
    SeamNone("\n" + text, "\n", START);
    SeamNone("\n" + text, "\n", END);
  }

  lemma MarkerInItself(m: string)
    requires IsMarker(m)
    ensures OccursOnlyAt(m, m, 0)
  {
    assert m[0..|m|] == m;
  }

  /** A block between marker-free texts shows each marker once, in order. */
  lemma BlockShows(pre: string, text: string, post: string)
    requires IsFree(pre) && IsFree(text) && IsFree(post)
    ensures var out := pre + (START + Inner(text) + END) + post;
            && OccursOnlyAt(out, START, |pre|)
            && OccursOnlyAt(out, END, |pre| + |START| + |Inner(text)|)
  {
    MarkersAreMarkers();
    MarkersDiffer();
    InnerIsFree(text);
    MarkerInItself(START);
    MarkerInItself(END);
    hide IsMarker, Contains, OccursOnlyAt;
    var inner := Inner(text);
    var head := START + inner;
    SeamLeft(START, inner, START, 0);
    SeamNone(START, inner, END);
    var block := head + END;
    SeamLeft(head, END, START, 0);
    SeamRight(head, END, END, 0);
    SeamRight(pre, block, START, 0);
    SeamRight(pre, block, END, |head|);
    SeamLeft(pre + block, post, START, |pre|);
    SeamLeft(pre + block, post, END, |pre| + |head|);
  }

  /** The text around the block: what a refresh must leave alone. */
  ghost function Outside(body: string): Option<(string, string)> {
    if IsFree(body) then Some((body + Separator(body), ""))
    else if i, j :| OccursOnlyAt(body, START, i) && OccursOnlyAt(body, END, j) && i <= j
    then Some((body[..i], body[j + |END|..]))
    else None
  }

  lemma {:induction false} StrippedIsPrefix(s: string)
    ensures RStrip(s) <= s
  {
    if s != "" && IsSpace(s[|s| - 1]) {
      StrippedIsPrefix(s[..|s| - 1]);
    }
  }

  lemma PartOccurs(s: string, from: nat, to: nat, m: string, k: int)
    requires from <= to <= |s| && OccursAt(s[from..to], m, k)
    ensures OccursAt(s, m, from + k)
  {
    var part := s[from..to];
    forall i | 0 <= i < |m| ensures s[from + k + i] == m[i] {
      OccurrenceHas(part, m, k, i);
    }
    assert s[from + k..from + k + |m|] == m;
  }

  lemma PartIsFree(s: string, from: nat, to: nat)
    requires from <= to <= |s|
    requires forall k | from <= k < to :: !OccursAt(s, START, k) && !OccursAt(s, END, k)
    ensures IsFree(s[from..to])
  {
    assert |START| > 0 && |END| > 0;
    forall m, k | m in {START, END} ensures !OccursAt(s[from..to], m, k) {
      if OccursAt(s[from..to], m, k) {
        PartOccurs(s, from, to, m, k);
      }
    }
  }

  lemma StrippedIsFree(s: string)
    requires IsFree(s)
    ensures IsFree(RStrip(s))
  {
    StrippedIsPrefix(s);
    forall k ensures !OccursAt(s, START, k) && !OccursAt(s, END, k) {
    }
    PartIsFree(s, 0, |RStrip(s)|);
    assert s[0..|RStrip(s)|] == RStrip(s);
  }

  /** In a body with one ordered pair, the texts around the pair hold no marker. */
  lemma OutsideIsFree(body: string, i: int, j: int)
    requires OccursOnlyAt(body, START, i) && OccursOnlyAt(body, END, j) && i <= j
    ensures IsFree(body[..i]) && IsFree(body[j + |END|..])
  {
    PartIsFree(body, 0, i);
    assert body[0..i] == body[..i];
    PartIsFree(body, j + |END|, |body|);
    assert body[j + |END|..|body|] == body[j + |END|..];
  }

  // --------------------------------------------------------------- refreshing

  /** Replacing is writing the new block between the texts outside the old one. */
  lemma ReplaceKeepsOutside(body: string, markdown: string)
    ensures ReplaceSummary(body, markdown) ==
            if IsFree(markdown) && Outside(body).Some?
            then Some(Outside(body).value.0 + Block(markdown) + Outside(body).value.1) else None
  {
    MarkerPlaces(body);
    hide OccursAt, OccursOnlyAt, CountIn, Contains, START, END;
    if IsFree(body) {
      assert body + Separator(body) + Block(markdown) + "" == body + Separator(body) + Block(markdown);
    }
  }

  lemma MarkerPlaces(body: string)
    ensures Contains(body, START) <==> CountIn(body, START) != 0
    ensures Contains(body, END) <==> CountIn(body, END) != 0
    ensures CountIn(body, START) == 1 && CountIn(body, END) == 1 ==>
              OccursOnlyAt(body, START, Index(body, START)) && OccursOnlyAt(body, END, Index(body, END))
    ensures forall i, j :: OccursOnlyAt(body, START, i) && OccursOnlyAt(body, END, j) ==>
              && CountIn(body, START) == 1 && CountIn(body, END) == 1
              && i == Index(body, START) && j == Index(body, END)
  {
    MarkersAreMarkers();
    CountIsZeroIffAbsent(body, START);
    CountIsZeroIffAbsent(body, END);
    CountedOnce(body, START);
    CountedOnce(body, END);
    hide START, END, CountIn;
  }

  lemma {:induction false} OutsideOfBlock(pre: string, text: string, post: string)
    requires IsFree(pre) && IsFree(text) && IsFree(post)
    ensures Outside(pre + (START + Inner(text) + END) + post) == Some((pre, post))
  {
    BlockShows(pre, text, post);
    var out := pre + (START + Inner(text) + END) + post;
    var i, j := |pre|, |pre| + |START| + |Inner(text)|;
    assert out[..i] == pre && out[j + |END|..] == post;
  }

  lemma OutsideIsAlwaysFree(body: string)
    requires Outside(body).Some?
    ensures IsFree(Outside(body).value.0) && IsFree(Outside(body).value.1)
  {
    MarkersAreMarkers();
    if IsFree(body) {
      assert IsFree(Separator(body)) by { SeparatorIsFree(body); }
      SeamNone(body, Separator(body), START);
      SeamNone(body, Separator(body), END);
      assert !Contains("", START) && !Contains("", END);
    } else {
      var i, j :| OccursOnlyAt(body, START, i) && OccursOnlyAt(body, END, j) && i <= j
                  && Outside(body) == Some((body[..i], body[j + |END|..]));
      OutsideIsFree(body, i, j);
    }
  }

  lemma SeparatorIsFree(body: string)
    ensures IsFree(Separator(body))
  {
  }

  /**
    A refresh shows one ordered pair of markers around the new text and leaves everything outside
    the block as it was.
  */
  lemma RefreshKeepsOutside(body: string, markdown: string)
    requires ReplaceSummary(body, markdown).Some?
    ensures Outside(body).Some?
    ensures var out := ReplaceSummary(body, markdown).value;
            var (pre, post) := Outside(body).value;
            && out == pre + Block(markdown) + post
            && OccursOnlyAt(out, START, |pre|)
            && OccursOnlyAt(out, END, |pre| + |START| + |RStrip(markdown)| + 2)
            && Outside(out) == Outside(body)
  {
    hide Outside, ReplaceSummary, IsFree, OccursOnlyAt, RStrip;
    ReplaceKeepsOutside(body, markdown);
    OutsideIsAlwaysFree(body);
    StrippedIsFree(markdown);
    var (pre, post) := Outside(body).value;
    BlockShows(pre, RStrip(markdown), post);
    OutsideOfBlock(pre, RStrip(markdown), post);
  }

  /** The last refresh wins: what an earlier one wrote makes no difference, not even to failure. */
  lemma LastWriterWins(body: string, first: string, second: string)
    requires ReplaceSummary(body, first).Some?
    ensures ReplaceSummary(ReplaceSummary(body, first).value, second) == ReplaceSummary(body, second)
  {
    hide Outside, ReplaceSummary, IsFree, OccursOnlyAt;
    RefreshKeepsOutside(body, first);
    ReplaceKeepsOutside(body, second);
    ReplaceKeepsOutside(ReplaceSummary(body, first).value, second);
  }

  // --------------------------------------------------------------------- runs

  /** A refresh by the tool, or an edit by a person of the text around the block. */
  datatype Change = Refresh(markdown: string) | Edit(pre: string, post: string)

  /** A person rewrites what surrounds the block and leaves the block alone. */
  ghost function Edited(body: string, pre: string, post: string): Option<string> {
    if !IsFree(pre) || !IsFree(post) then None
    else if i, j :| OccursOnlyAt(body, START, i) && OccursOnlyAt(body, END, j) && i <= j
    then Some(pre + body[i..j + |END|] + post) else None
  }

  ghost function Apply(body: string, change: Change): Option<string> {
    match change
    case Refresh(markdown) => ReplaceSummary(body, markdown)
    case Edit(pre, post) => Edited(body, pre, post)
  }

  ghost function ApplyAll(body: string, changes: seq<Change>): Option<string> {
    if changes == [] then Some(body)
    else
      var before := ApplyAll(body, changes[..|changes| - 1]);
      if before.None? then None else Apply(before.value, changes[|changes| - 1])
  }

  /** The human text after some changes: the last edit, or what surrounded the block at first. */
  function HumanText(changes: seq<Change>, around: (string, string)): (string, string) {
    if changes == [] then around
    else
      match changes[|changes| - 1]
      case Refresh(_) => HumanText(changes[..|changes| - 1], around)
      case Edit(pre, post) => (pre, post)
  }

  /** The tool's text after some changes: the last refresh. */
  function ToolText(changes: seq<Change>, text: string): string {
    if changes == [] then text
    else
      match changes[|changes| - 1]
      case Refresh(markdown) => markdown
      case Edit(_, _) => ToolText(changes[..|changes| - 1], text)
  }

  function Framed(around: (string, string), markdown: string): string {
    around.0 + Block(markdown) + around.1
  }

  lemma EditKeepsBlock(around: (string, string), markdown: string, pre: string, post: string)
    requires IsFree(around.0) && IsFree(around.1) && IsFree(markdown) && IsFree(pre) && IsFree(post)
    ensures Edited(Framed(around, markdown), pre, post) == Some(Framed((pre, post), markdown))
  {
    StrippedIsFree(markdown);
    var text := RStrip(markdown);
    BlockShows(around.0, text, around.1);
    var body := Framed(around, markdown);
    var i, j := |around.0|, |around.0| + |START| + |Inner(text)|;
    assert body[i..j + |END|] == Block(markdown);
  }

  lemma RefreshFramed(around: (string, string), markdown: string, next: string)
    requires IsFree(around.0) && IsFree(around.1) && IsFree(markdown)
    requires ReplaceSummary(Framed(around, markdown), next).Some?
    ensures ReplaceSummary(Framed(around, markdown), next) == Some(Framed(around, next)) && IsFree(next)
  {
    StrippedIsFree(markdown);
    hide Outside, IsFree, RStrip, ReplaceSummary;
    ReplaceKeepsOutside(Framed(around, markdown), next);
    OutsideOfBlock(around.0, RStrip(markdown), around.1);
  }

  lemma ChangeFramed(around: (string, string), markdown: string, change: Change)
    requires IsFree(around.0) && IsFree(around.1) && IsFree(markdown)
    requires Apply(Framed(around, markdown), change).Some?
    ensures var last := if change.Edit? then (change.pre, change.post) else around;
            var text := if change.Refresh? then change.markdown else markdown;
            && Apply(Framed(around, markdown), change) == Some(Framed(last, text))
            && IsFree(last.0) && IsFree(last.1) && IsFree(text)
  {
    hide IsFree, Framed, ReplaceSummary;
    match change
    case Refresh(next) => RefreshFramed(around, markdown, next);
    case Edit(pre, post) => EditKeepsBlock(around, markdown, pre, post);
  }

  /**
    Any run of refreshes and outside edits that starts from a refreshed body ends with the text of
    the last edit around the block of the last refresh.
  */
  lemma {:induction false} HumanTextSurvives(around: (string, string), markdown: string, changes: seq<Change>)
    requires IsFree(around.0) && IsFree(around.1) && IsFree(markdown)
    requires ApplyAll(Framed(around, markdown), changes).Some?
    ensures var last := HumanText(changes, around);
            && ApplyAll(Framed(around, markdown), changes) == Some(Framed(last, ToolText(changes, markdown)))
            && IsFree(last.0) && IsFree(last.1) && IsFree(ToolText(changes, markdown))
  {
    hide IsFree, Framed, Apply;
    if changes != [] {
      var n := |changes| - 1;
      HumanTextSurvives(around, markdown, changes[..n]);
      ChangeFramed(HumanText(changes[..n], around), ToolText(changes[..n], markdown), changes[n]);
    }
  }
}
