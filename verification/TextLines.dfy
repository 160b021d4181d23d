/** Lines of text, substring counts and quoted values, as the release scripts use them. */
module TextLines {
  import opened Wrappers

  /** A text split at newlines: every line but the last ends with one. */
  type Text = seq<string>

  predicate IsSpace(c: char) {
    c == ' ' || '\t' <= c <= '\r' || '\U{1c}' <= c <= '\U{1f}' || c == '\U{85}' || c == '\U{a0}'
  }

  predicate IsBlank(line: string) {
    forall c | c in line :: IsSpace(c)
  }

  /** The non-blank lines of a text, in order. */
  function NonBlank(text: Text): (r: Text)
    ensures forall line | line in r :: line in text && !IsBlank(line)
  {
    if text == [] then []
    else if IsBlank(text[0]) then NonBlank(text[1..])
    else [text[0]] + NonBlank(text[1..])
  }

  predicate OccursAt(line: string, needle: string, k: int) {
    0 <= k && k + |needle| <= |line| && line[k..k + |needle|] == needle
  }

  predicate Contains(line: string, needle: string) {
    exists k | 0 <= k <= |line| :: OccursAt(line, needle, k)
  }

  predicate EndsWith(line: string, tail: string) {
    |tail| <= |line| && line[|line| - |tail|..] == tail
  }

  /** Non-overlapping occurrences, left to right. */
  function CountIn(line: string, needle: string): nat
    requires needle != ""
  {
    if |line| < |needle| then 0
    else if needle <= line then 1 + CountIn(line[|needle|..], needle)
    else CountIn(line[1..], needle)
  }

  lemma {:induction false} CountIsZeroIffAbsent(line: string, needle: string)
    requires needle != ""
    ensures CountIn(line, needle) == 0 <==> !Contains(line, needle)
  {
    if |line| < |needle| {
    } else if needle <= line {
      assert OccursAt(line, needle, 0);
    } else {
      CountIsZeroIffAbsent(line[1..], needle);
      if Contains(line, needle) {
        var k :| 0 <= k <= |line| && OccursAt(line, needle, k);
        assert line[0..|needle|] == line[..|needle|];
        assert line[1..][k - 1..k - 1 + |needle|] == line[k..k + |needle|];
        assert OccursAt(line[1..], needle, k - 1);
      }
      if Contains(line[1..], needle) {
        var k :| 0 <= k <= |line[1..]| && OccursAt(line[1..], needle, k);
        assert line[1..][k..k + |needle|] == line[k + 1..k + 1 + |needle|];
        assert OccursAt(line, needle, k + 1);
      }
    }
  }

  lemma {:induction false} CountIsOne(line: string, needle: string, at: int)
    requires needle != "" && OccursAt(line, needle, at)
    requires forall k | OccursAt(line, needle, k) :: k == at
    ensures CountIn(line, needle) == 1
  {
    if needle <= line {
      assert OccursAt(line, needle, 0);
      var rest := line[|needle|..];
      forall k ensures !OccursAt(rest, needle, k) {
        if OccursAt(rest, needle, k) {
          assert rest[k..k + |needle|] == line[|needle| + k..|needle| + k + |needle|];
          assert OccursAt(line, needle, |needle| + k);
        }
      }
      CountIsZeroIffAbsent(rest, needle);
    } else {
      assert at > 0;
      var rest := line[1..];
      assert rest[at - 1..at - 1 + |needle|] == line[at..at + |needle|];
      forall k | OccursAt(rest, needle, k) ensures k == at - 1 {
        assert rest[k..k + |needle|] == line[k + 1..k + 1 + |needle|];
        assert OccursAt(line, needle, k + 1);
      }
      CountIsOne(rest, needle, at - 1);
    }
  }

  /** Occurrences in a whole text, for a needle without newlines. */
  function CountAll(text: Text, needle: string): nat
    requires needle != ""
  {
    if text == [] then 0 else CountIn(text[0], needle) + CountAll(text[1..], needle)
  }

  lemma {:induction false} CountDistributes(a: Text, b: Text, needle: string)
    requires needle != ""
    ensures CountAll(a + b, needle) == CountAll(a, needle) + CountAll(b, needle)
  {
    if a == [] {
      assert a + b == b;
    } else {
      CountDistributes(a[1..], b, needle);
      assert (a + b)[1..] == a[1..] + b;
    }
  }

  /** A needle with a visible character does not occur in a blank line. */
  lemma BlankHasNone(line: string, needle: string)
    requires needle != "" && !IsBlank(needle) && IsBlank(line)
    ensures !Contains(line, needle) && CountIn(line, needle) == 0
  {
    var i :| 0 <= i < |needle| && !IsSpace(needle[i]);
    assert forall k :: OccursAt(line, needle, k) ==> line[k..k + |needle|][i] == needle[i];
    CountIsZeroIffAbsent(line, needle);
  }

  lemma {:induction false} CountIgnoresBlanks(text: Text, needle: string)
    requires needle != "" && !IsBlank(needle)
    ensures CountAll(NonBlank(text), needle) == CountAll(text, needle)
  {
    if text != [] {
      CountIgnoresBlanks(text[1..], needle);
      if IsBlank(text[0]) {
        BlankHasNone(text[0], needle);
      } else {
        assert NonBlank(text)[1..] == NonBlank(text[1..]);
      }
    }
  }

  predicate AnyContains(text: Text, needle: string) {
    exists line | line in text :: Contains(line, needle)
  }

  lemma {:induction false} NonBlankKeeps(text: Text, line: string)
    requires line in text && !IsBlank(line)
    ensures line in NonBlank(text)
  {
    if line != text[0] {
      NonBlankKeeps(text[1..], line);
    }
  }

  lemma ContainsIgnoresBlanks(text: Text, needle: string)
    requires needle != "" && !IsBlank(needle)
    ensures AnyContains(NonBlank(text), needle) <==> AnyContains(text, needle)
  {
    if AnyContains(text, needle) {
      var line :| line in text && Contains(line, needle);
      if IsBlank(line) {
        BlankHasNone(line, needle);
      } else {
        NonBlankKeeps(text, line);
      }
    }
  }

  /** The text between a fixed start and a fixed end: not empty and without a double quote. */
  function Between(line: string, pre: string, post: string): Option<string> {
    if && |pre| + |post| < |line|
       && line[..|pre|] == pre
       && line[|line| - |post|..] == post
       && '"' !in line[|pre|..|line| - |post|]
    then Some(line[|pre|..|line| - |post|])
    else None
  }

  lemma BetweenReadsBack(pre: string, value: string, post: string)
    requires value != "" && '"' !in value
    ensures Between(pre + value + post, pre, post) == Some(value)
  {
    var line := pre + value + post;
    assert line[..|pre|] == pre;
    assert line[|line| - |post|..] == post;
    assert line[|pre|..|line| - |post|] == value;
  }
}
