/** The printed formula line by line. */
module FormulaTemplate {
  import opened Wrappers
  import opened TextLines
  import opened Formula
  import opened FormulaRoundTrip
  import opened FormulaSections
  import opened FormulaPrinting

  lemma {:induction false} NothingToTake(s: string)
    requires '@' !in s
    ensures WithoutAt(s) == s
  {
    if s != "" {
      assert s[0] in s;
      NothingToTake(s[1..]);
    }
  }

  lemma {:induction false} WithoutAtJoins(a: string, b: string)
    ensures WithoutAt(a + b) == WithoutAt(a) + WithoutAt(b)
  {
    if a == "" {
      assert a + b == b;
    } else {
      assert (a + b)[1..] == a[1..] + b;
      WithoutAtJoins(a[1..], b);
    }
  }

  lemma OnlyTheAtGoes()
    ensures WithoutAt("python@") == "python"
  {
    NothingToTake("python");
    WithoutAtJoins("python", "@");
    assert "python@" == "python" + "@" && "@"[1..] == "";
  }

  /** The install line names `python@3.13` as `python3.13`. */
  lemma PythonLosesItsAt(s: string)
    requires IsPython(s)
    ensures WithoutAt(s) == "python" + s[7..]
  {
    var d :| 7 <= d < |s| && s[d] == '.' && IsDigits(s[7..d]) && IsDigits(s[d + 1..]);
    forall c | c in s[7..] ensures c != '@' {
      var i :| 7 <= i < |s| && s[i] == c;
      assert i < d ==> s[7..d][i - 7] == c && c in s[7..d];
      assert i > d ==> s[d + 1..][i - d - 1] == c && c in s[d + 1..];
    }
    var version := s[7..];
    assert s == s[..7] + version;
    hide IsPython, WithoutAt;
    NothingToTake(version);
    OnlyTheAtGoes();
    WithoutAtJoins("python@", version);
  }

  lemma QuotedTwice(a: string, x: string, b: string, y: string, c: string)
    ensures Quoted([a, x, b, y, c]) == a + "\"" + x + "\"" + b + "\"" + y + "\"" + c
    ensures Quoted([a, x, c]) == a + "\"" + x + "\"" + c
  {
    assert Quoted([c]) == c;
    assert [y, c][1..] == [c] && [b, y, c][1..] == [y, c] && [x, b, y, c][1..] == [b, y, c];
    assert [a, x, b, y, c][1..] == [x, b, y, c];
    assert [x, c][1..] == [c] && [a, x, c][1..] == [x, c];
    assert Quoted([y, c]) == y + "\"" + c;
    assert Quoted([b, y, c]) == b + "\"" + Quoted([y, c]);
    assert Quoted([x, b, y, c]) == x + "\"" + Quoted([b, y, c]);
  }

  function Field(name: string, value: string): string {
    "  " + name + " \"" + value + "\""
  }

  lemma FieldIsQuoted(start: string, name: string, value: string)
    requires start == "  " + name + " "
    ensures Quoted([start, value, ""]) == Field(name, value)
  {
    QuotedField(start, value);
    assert ("  " + name + " ") + "\"" == "  " + name + " \"";
  }

  lemma NamesOfFields()
    ensures "  desc " == "  " + "desc" + " " && "  homepage " == "  " + "homepage" + " " && "  url " == "  " + "url" + " "
    ensures "  version " == "  " + "version" + " " && "  sha256 " == "  " + "sha256" + " "
    ensures "  license " == "  " + "license" + " " && "  depends_on " == "  " + "depends_on" + " "
  {
  }

  /** The lines above the resources, in order. */
  lemma TopReads(rules: Rules, s: Snapshot, bottle: Text)
    ensures Top(rules, s, bottle)
         == ["class " + (if s.dev then DEV_CLASS else STABLE_CLASS) + " < Formula", INCLUDE_LINE, "",
             Field("desc", DESCRIPTION), Field("homepage", HOMEPAGE), Field("url", s.url)]
            + (if rules.sourceVersion(s.url) == Some(s.version) then [] else [Field("version", s.version)])
            + [Field("sha256", s.sha256), Field("license", "MIT"), ""]
            + (if bottle == [] then [] else bottle + [""])
            + [Field("depends_on", s.python)]
            + (if s.dev then ["  conflicts_with \"gh-address-cr\", because: \"" + CONFLICT_REASON + "\""] else [])
            + [""]
  {
    NamesOfFields();
    FieldIsQuoted("  desc ", "desc", DESCRIPTION);
    FieldIsQuoted("  homepage ", "homepage", HOMEPAGE);
    FieldIsQuoted("  url ", "url", s.url);
    FieldIsQuoted("  version ", "version", s.version);
    FieldIsQuoted("  sha256 ", "sha256", s.sha256);
    FieldIsQuoted("  license ", "license", "MIT");
    FieldIsQuoted("  depends_on ", "depends_on", s.python);
    ConflictReads(CONFLICT_REASON);
    hide Quoted, Field, INCLUDE_LINE, DESCRIPTION, HOMEPAGE, CONFLICT_REASON, STABLE_CLASS, DEV_CLASS;
    TopIsItsLines(rules, s, bottle);
  }

  lemma ConflictStart()
    ensures "  conflicts_with \"gh-address-cr\", because: \""
         == "  conflicts_with " + "\"" + "gh-address-cr" + "\"" + ", because: " + "\""
  {
  }

  lemma ConflictReads(reason: string)
    ensures Quoted(["  conflicts_with ", "gh-address-cr", ", because: ", reason, ""])
         == "  conflicts_with \"gh-address-cr\", because: \"" + reason + "\""
  {
    QuotedTwice("  conflicts_with ", "gh-address-cr", ", because: ", reason, "");
    ConflictStart();
    hide Quoted;
  }

  lemma TopIsItsLines(rules: Rules, s: Snapshot, bottle: Text)
    ensures Top(rules, s, bottle)
         == [ClassName(s), INCLUDE_LINE, "", Quoted(["  desc ", DESCRIPTION, ""]), Quoted(["  homepage ", HOMEPAGE, ""]),
             Quoted(["  url ", s.url, ""])]
            + VersionLine(rules, s)
            + [Quoted(["  sha256 ", s.sha256, ""]), Quoted(["  license ", "MIT", ""]), ""]
            + (if bottle == [] then [] else bottle + [""])
            + [Quoted(["  depends_on ", s.python, ""])] + ConflictLine(s) + [""]
  {
    hide Quoted, INCLUDE_LINE, DESCRIPTION, HOMEPAGE, ClassName, VersionLine, ConflictLine;
  }

  lemma {:induction false} QuotedSteps(a: string, rest: seq<string>)
    requires rest != []
    ensures Quoted([a] + rest) == a + "\"" + Quoted(rest)
  {
    assert ([a] + rest)[1..] == rest;
  }

  lemma ManifestTestReads(escape: string, name: string, shell: string, command: string)
    ensures Quoted(["    assert_match ", escape, name, "", shell, command, ")"])
         == "    assert_match " + "\"" + (escape + "\"" + (name + "\"" + ("" + "\"" + (shell + "\"" + command + "\"" + ")"))))
  {
    QuotedTwice(shell, command, "", "", ")");
    var tail := [shell, command, ")"];
    QuotedSteps("", tail);
    QuotedSteps(name, [""] + tail);
    QuotedSteps(escape, [name] + ([""] + tail));
    QuotedSteps("    assert_match ", [escape] + ([name] + ([""] + tail)));
    assert ["    assert_match ", escape, name, "", shell, command, ")"]
        == ["    assert_match "] + ([escape] + ([name] + ([""] + tail)));
  }

  /** The lines below the resources, in order. */
  lemma BottomReads(s: Snapshot)
    requires IsPython(s.python)
    ensures Bottom(s)
         == (if s.resources == [] then [] else [""])
            + ["  def install", INSTALL + "\"" + ("python" + s.python[7..]) + "\"", "  end", "", "  test do",
               VERSION_TEST + "\"" + VERSION_COMMAND + "\"" + ")",
               "    assert_match " + "\"" + ("\\" + "\"" + ("runtime_version\\" + "\"" + ("" + "\"" + (SHELL + "\"" + MANIFEST_COMMAND + "\"" + ")")))),
               "  end", "end", ""]
  {
    PythonLosesItsAt(s.python);
    QuotedField(INSTALL, "python" + s.python[7..]);
    QuotedTwice(VERSION_TEST, VERSION_COMMAND, "", "", ")");
    ManifestTestReads("\\", "runtime_version\\", SHELL, MANIFEST_COMMAND);
    BottomIsItsLines(s);
    hide Quoted, WithoutAt, IsPython, INSTALL, VERSION_TEST, VERSION_COMMAND, SHELL, MANIFEST_COMMAND, Bottom;
  }

  lemma BottomIsItsLines(s: Snapshot)
    ensures Bottom(s)
         == (if s.resources == [] then [] else [""])
            + ["  def install", Quoted([INSTALL, WithoutAt(s.python), ""]), "  end", "", "  test do",
               Quoted([VERSION_TEST, VERSION_COMMAND, ")"]),
               Quoted(["    assert_match ", "\\", "runtime_version\\", "", SHELL, MANIFEST_COMMAND, ")"]),
               "  end", "end", ""]
  {
  }
}
