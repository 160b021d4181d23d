/** The shapes of names, digests and quoted values in a formula, written out. */
module FormulaFields {
  import opened Wrappers
  import opened TextLines
  import opened Formula

  const LETTERS := "abcdefghijklmnopqrstuvwxyz"
  const DIGITS := "0123456789"

  lemma DigitsExactly(c: char)
    ensures c in DIGITS <==> '0' <= c <= '9'
  {
    if '0' <= c <= '9' {
      assert DIGITS[c as int - '0' as int] == c;
    }
  }

  lemma LettersExactly(c: char)
    ensures c in LETTERS <==> 'a' <= c <= 'z'
  {
    if 'a' <= c <= 'z' {
      assert LETTERS[c as int - 'a' as int] == c;
    }
  }

  lemma HexLettersExactly(c: char)
    ensures c in "abcdef" <==> 'a' <= c <= 'f'
  {
    if 'a' <= c <= 'f' {
      assert "abcdef"[c as int - 'a' as int] == c;
    }
  }

  /** A line is blank exactly when it holds only these characters. */
  lemma BlankExactly(line: string)
    ensures var blanks := {' ', '\t', '\n', '\U{b}', '\U{c}', '\r', '\U{1c}', '\U{1d}', '\U{1e}', '\U{1f}', '\U{85}', '\U{a0}'};
            IsBlank(line) <==> forall i | 0 <= i < |line| :: line[i] in blanks
  {
    assert forall i | 0 <= i < |line| :: line[i] in line;
  }

  /** A value is read from a line exactly when the line is the start, the value and the end. */
  lemma BetweenExactly(line: string, pre: string, post: string, value: string)
    ensures Between(line, pre, post) == Some(value) <==> line == pre + value + post && value != "" && '"' !in value
  {
    if line == pre + value + post && value != "" && '"' !in value {
      BetweenReadsBack(pre, value, post);
    }
    if Between(line, pre, post) == Some(value) {
      assert line == line[..|pre|] + line[|pre|..|line| - |post|] + line[|line| - |post|..];
    }
  }

  /** A digest is that many hexadecimal digits, all in lower case. */
  lemma HexExactly(s: string, n: nat)
    ensures IsHex(s, n) <==> |s| == n && forall c | c in s :: c in DIGITS || c in "abcdef"
  {
    forall c: char ensures (c in DIGITS || c in "abcdef") <==> '0' <= c <= '9' || 'a' <= c <= 'f' {
      DigitsExactly(c);
      HexLettersExactly(c);
    }
  }

  predicate IsWord(w: string) {
    w != "" && forall c | c in w :: c in DIGITS || c in LETTERS
  }

  function Hyphenated(words: seq<string>): string {
    if words == [] then "" else if |words| == 1 then words[0] else words[0] + "-" + Hyphenated(words[1..])
  }

  predicate AreWords(words: seq<string>) {
    words != [] && forall w | w in words :: IsWord(w)
  }

  lemma WordCharacters(w: string)
    requires forall c | c in w :: c in DIGITS || c in LETTERS
    ensures forall i | 0 <= i < |w| :: ('0' <= w[i] <= '9' || 'a' <= w[i] <= 'z') && w[i] != '-'
  {
    forall i | 0 <= i < |w| ensures ('0' <= w[i] <= '9' || 'a' <= w[i] <= 'z') && w[i] != '-' {
      assert w[i] in w;
      DigitsExactly(w[i]);
      LettersExactly(w[i]);
    }
  }

  lemma WordIsSlug(w: string)
    requires IsWord(w)
    ensures IsSlug(w)
  {
    WordCharacters(w);
    hide DIGITS, LETTERS;
  }

  lemma SlugGrows(w: string, s: string)
    requires IsWord(w) && IsSlug(s)
    ensures IsSlug(w + "-" + s)
  {
    WordIsSlug(w);
    WordCharacters(w);
    JoinedHyphens(w, s);
    hide DIGITS, LETTERS, IsWord;
    var all := w + "-" + s;
    assert all[0] == w[0] && all[|all| - 1] == s[|s| - 1];
  }

  lemma JoinedHyphens(w: string, s: string)
    requires (forall i | 0 <= i < |w| :: w[i] != '-') && s != "" && s[0] != '-'
    requires w != "" && forall i | 0 < i < |s| :: !(s[i - 1] == '-' && s[i] == '-')
    ensures var all := w + "-" + s; forall i | 0 < i < |all| :: !(all[i - 1] == '-' && all[i] == '-')
  {
    var all := w + "-" + s;
    forall i | 0 < i < |all| ensures !(all[i - 1] == '-' && all[i] == '-') {
      if i <= |w| {
        assert all[i - 1] == w[i - 1];
      } else if i == |w| + 1 {
        assert all[i] == s[0];
      } else {
        var k := i - |w| - 1;
        assert all[i - 1] == s[k - 1] && all[i] == s[k];
      }
    }
  }

  lemma {:induction false} WordsMakeASlug(words: seq<string>)
    requires AreWords(words)
    ensures IsSlug(Hyphenated(words))
  {
    if |words| == 1 {
      WordIsSlug(words[0]);
    } else {
      WordsMakeASlug(words[1..]);
      SlugGrows(words[0], Hyphenated(words[1..]));
    }
  }

  lemma {:induction false} SlugHasWords(s: string, k: nat) returns (words: seq<string>)
    requires IsSlug(s) && k <= |s| && '-' !in s[..k]
    ensures AreWords(words) && Hyphenated(words) == s
    decreases |s|, |s| - k
  {
    if k == |s| || s[k] == '-' {
      var w := s[..k];
      forall c | c in w ensures c in DIGITS || c in LETTERS {
        DigitsExactly(c);
        LettersExactly(c);
        assert c in s && c != '-';
      }
      assert k > 0;
      if k == |s| {
        assert w == s;
        return [s];
      }
      var rest := s[k + 1..];
      assert rest != "" && rest[|rest| - 1] == s[|s| - 1];
      assert forall c | c in rest :: c in s;
      assert rest[0] == s[k + 1] && forall i | 0 <= i < |rest| :: rest[i] == s[k + 1 + i];
      var others := SlugHasWords(rest, 0);
      words := [w] + others;
      assert words[1..] == others;
      assert s == w + "-" + rest;
    } else {
      assert s[..k + 1] == s[..k] + [s[k]];
      words := SlugHasWords(s, k + 1);
    }
  }

  /** A resource name is one or more words of small letters and digits joined by single hyphens. */
  lemma SlugExactly(s: string)
    ensures IsSlug(s) <==> exists words :: AreWords(words) && Hyphenated(words) == s
  {
    if IsSlug(s) {
      var words := SlugHasWords(s, 0);
    }
    if words :| AreWords(words) && Hyphenated(words) == s {
      WordsMakeASlug(words);
    }
  }

  predicate IsNumber(s: string) {
    s != "" && forall c | c in s :: c in DIGITS
  }

  lemma NumberIsDigits(s: string)
    ensures IsNumber(s) <==> IsDigits(s)
  {
    forall c | c in s ensures c in DIGITS <==> '0' <= c <= '9' {
      DigitsExactly(c);
    }
  }

  /** A Python dependency is the name, an at sign, and two numbers around one point. */
  lemma PythonExactly(s: string)
    ensures IsPython(s) <==> exists major, minor :: IsNumber(major) && IsNumber(minor) && s == "python@" + major + "." + minor
  {
    hide IsNumber, IsDigits;
    if IsPython(s) {
      var d :| 7 <= d < |s| && s[d] == '.' && IsDigits(s[7..d]) && IsDigits(s[d + 1..]);
      NumberIsDigits(s[7..d]);
      NumberIsDigits(s[d + 1..]);
      assert s == "python@" + s[7..d] + "." + s[d + 1..];
    }
    if major, minor :| IsNumber(major) && IsNumber(minor) && s == "python@" + major + "." + minor {
      NumberIsDigits(major);
      NumberIsDigits(minor);
      var d := 7 + |major|;
      assert s[7..d] == major && s[d] == '.' && s[d + 1..] == minor;
    }
  }

  function Names(rs: seq<Resource>): set<string> {
    set r | r in rs :: r.name
  }

  lemma {:induction false} NamesAreBounded(rs: seq<Resource>)
    ensures |Names(rs)| <= |rs|
    ensures |Names(rs)| == |rs| <==> DistinctNames(rs)
  {
    if rs != [] {
      var n := |rs| - 1;
      NamesAreBounded(rs[..n]);
      OneMoreName(rs[..n], rs[n]);
      assert rs == rs[..n] + [rs[n]];
      hide Names, DistinctNames;
    }
  }

  lemma OneMoreName(rs: seq<Resource>, r: Resource)
    ensures Names(rs + [r]) == Names(rs) + {r.name}
    ensures DistinctNames(rs + [r]) <==> DistinctNames(rs) && r.name !in Names(rs)
  {
    var all := rs + [r];
    assert forall i | 0 <= i < |rs| :: all[i] == rs[i] && rs[i] in rs;
    assert forall x :: x in all <==> x in rs || x == r;
    if DistinctNames(all) {
      forall x | x in rs ensures x.name != r.name {
        var i :| 0 <= i < |rs| && rs[i] == x;
        assert all[i].name != all[|rs|].name;
      }
    }
    if DistinctNames(rs) && r.name !in Names(rs) {
      forall i, j | 0 <= i < j < |all| ensures all[i].name != all[j].name {
        assert all[i].name in Names(rs);
      }
    }
  }

  /** A text's resources are accepted exactly when they are all well placed and no two share a name. */
  lemma ResourcesParseExactly(rules: Rules, text: Text)
    ensures var rows := FindResources(text);
            && (ParseResources(rules, text).Some? <==>
                  && rows != [] && |Names(rows)| == |rows|
                  && |rows| == CountAll(text, RESOURCE) && CountAll(text, RESOURCE_ERROR) == 0
                  && forall k | 0 <= k < |rows| :: rules.resourceUrl(rows[k].url))
            && (ParseResources(rules, text).Some? ==> ParseResources(rules, text).value == rows)
  {
    NamesAreBounded(FindResources(text));
    NoneCounted(text, RESOURCE_ERROR);
  }

  lemma {:induction false} NoneCounted(text: Text, needle: string)
    requires needle != ""
    ensures CountAll(text, needle) == 0 <==> !AnyContains(text, needle)
  {
    if text != [] {
      NoneCounted(text[1..], needle);
      CountIsZeroIffAbsent(text[0], needle);
      assert text == [text[0]] + text[1..];
    }
  }
}
