/** Printer and parser of the Homebrew formula that a release publishes. */
module Formula {
  import opened Wrappers
  import opened TextLines

  datatype Resource = Resource(name: string, url: string, sha256: string)

  /** SHA-256 of a text, taken as collision free. */
  datatype Digest = Sha256(of: Text)

  datatype Snapshot = Snapshot(
    dev: bool,
    version: string,
    commit: string,
    url: string,
    sha256: string,
    python: string,
    resources: seq<Resource>
  )

  /**
    Decisions on URLs and versions that the formula code takes with library calls and patterns;
    a valid version is one that both the package library and the printer accept.
  */
  datatype Rules = Rules(
    sourceUrl: string -> bool,
    resourceUrl: string -> bool,
    sourceVersion: string -> Option<string>,
    validVersion: string -> bool
  )

  const RESOURCE := "  resource \""
  const RESOURCE_ERROR := "RESOURCE-ERROR"

  predicate IsHex(s: string, n: nat) {
    |s| == n && forall c | c in s :: '0' <= c <= '9' || 'a' <= c <= 'f'
  }

  /** Lower-case words and digits joined by single hyphens. */
  predicate IsSlug(s: string) {
    && s != ""
    && (forall c | c in s :: '0' <= c <= '9' || 'a' <= c <= 'z' || c == '-')
    && s[0] != '-' && s[|s| - 1] != '-'
    && forall i | 0 < i < |s| :: !(s[i - 1] == '-' && s[i] == '-')
  }

  predicate IsDigits(s: string) {
    s != "" && forall c | c in s :: '0' <= c <= '9'
  }

  predicate IsPython(s: string) {
    && |s| > 7 && s[..7] == "python@"
    && exists d | 7 <= d < |s| :: s[d] == '.' && IsDigits(s[7..d]) && IsDigits(s[d + 1..])
  }

  predicate WellFormed(r: Resource) {
    IsSlug(r.name) && r.url != "" && '"' !in r.url && IsHex(r.sha256, 64)
  }

  // ---------------------------------------------------------------- printing

  function BlockLines(r: Resource): Text {
    [RESOURCE + r.name + "\" do",
     "    url \"" + r.url + "\"",
     "    sha256 \"" + r.sha256 + "\"",
     "  end"]
  }

  /** Blocks separated by one blank line; the last line is not terminated. */
  function RenderResources(rs: seq<Resource>): Text {
    if |rs| == 0 then []
    else if |rs| == 1 then BlockLines(rs[0])
    else BlockLines(rs[0]) + [""] + RenderResources(rs[1..])
  }

  function WithoutAt(s: string): string {
    if s == "" then "" else (if s[0] == '@' then "" else [s[0]]) + WithoutAt(s[1..])
  }

  /** The pieces of a line, joined by double quotes. */
  function Quoted(pieces: seq<string>): string {
    if pieces == [] then "" else if |pieces| == 1 then pieces[0] else pieces[0] + "\"" + Quoted(pieces[1..])
  }

  const STABLE_CLASS := "GhAddressCr"
  const DEV_CLASS := "GhAddressCrDev"

  function ClassName(s: Snapshot): string {
    "class " + (if s.dev then DEV_CLASS else STABLE_CLASS) + " < Formula"
  }

  const INCLUDE_LINE := "  include Language::Python::Virtualenv"
  const DESCRIPTION := "Deterministic PR review-resolution control plane runtime"
  const HOMEPAGE := "https://github.com/RbBtSn0w/gh-address-cr"

  function Heads(): Text {
    [INCLUDE_LINE,
     "",
     Quoted(["  desc ", DESCRIPTION, ""]),
     Quoted(["  homepage ", HOMEPAGE, ""])]
  }

  function VersionLine(rules: Rules, s: Snapshot): Text {
    if rules.sourceVersion(s.url) != Some(s.version) then [Quoted(["  version ", s.version, ""])] else []
  }

  const CONFLICT_REASON := "both install gh-address-cr binary"

  function ConflictLine(s: Snapshot): Text {
    if s.dev then [Quoted(["  conflicts_with ", "gh-address-cr", ", because: ", CONFLICT_REASON, ""])] else []
  }

  function Top(rules: Rules, s: Snapshot, bottle: Text): Text {
    [ClassName(s)] + Heads()
    + [Quoted(["  url ", s.url, ""])]
    + VersionLine(rules, s)
    + [Quoted(["  sha256 ", s.sha256, ""])]
    + [Quoted(["  license ", "MIT", ""]), ""]
    + (if bottle == [] then [] else bottle + [""])
    + [Quoted(["  depends_on ", s.python, ""])]
    + ConflictLine(s)
    + [""]
  }

  const INSTALL := "    virtualenv_install_with_resources using: "
  const SHELL := ", shell_output("
  const VERSION_TEST := "    assert_match version.to_s, shell_output("
  const VERSION_COMMAND := "#{bin}/gh-address-cr --version"
  const MANIFEST_COMMAND := "#{bin}/gh-address-cr agent manifest"

  function Bottom(s: Snapshot): Text {
    (if s.resources == [] then [] else [""])
    + ["  def install",
       Quoted([INSTALL, WithoutAt(s.python), ""]),
       "  end",
       "",
       "  test do",
       Quoted([VERSION_TEST, VERSION_COMMAND, ")"]),
       Quoted(["    assert_match ", "\\", "runtime_version\\", "", SHELL, MANIFEST_COMMAND, ")"]),
       "  end",
       "end",
       ""]
  }

  function FormulaText(rules: Rules, s: Snapshot, bottle: Text := []): Text {
    Top(rules, s, bottle) + RenderResources(s.resources) + Bottom(s)
  }

  // ----------------------------------------------------------------- parsing

  /** The one-line patterns searched for in a formula. */
  datatype Pattern = ClassLine | FieldLine(name: string) | PythonLine

  function Match(p: Pattern, line: string): Option<string> {
    match p
    case ClassLine =>
      if line == "class " + STABLE_CLASS + " < Formula" then Some(STABLE_CLASS)
      else if line == "class " + DEV_CLASS + " < Formula" then Some(DEV_CLASS)
      else None
    case FieldLine(name) => Between(line, "  " + name + " \"", "\"")
    case PythonLine =>
      var v := Between(line, "  depends_on \"", "\"");
      if v.Some? && IsPython(v.value) then v else None
  }

  function Matches(text: Text, p: Pattern): seq<string> {
    if text == [] then []
    else
      var found := Match(p, text[0]);
      (if found.Some? then [found.value] else []) + Matches(text[1..], p)
  }

  /** The resource name of a block's first line. */
  function Heading(line: string): Option<string> {
    var v := Between(line, RESOURCE, "\" do");
    if v.Some? && IsSlug(v.value) then v else None
  }

  /** A block at the start of a text: four lines, each ended by a newline. */
  function ReadBlock(text: Text): Option<Resource> {
    if |text| < 5 then None
    else
      var name := Heading(text[0]);
      var url := Between(text[1], "    url \"", "\"");
      var sha := Between(text[2], "    sha256 \"", "\"");
      if name.Some? && url.Some? && sha.Some? && IsHex(sha.value, 64) && text[3] == "  end"
      then Some(Resource(name.value, url.value, sha.value))
      else None
  }

  function FindResources(text: Text): seq<Resource> {
    if text == [] then []
    else
      var block := ReadBlock(text);
      if block.Some? then [block.value] + FindResources(text[4..]) else FindResources(text[1..])
  }

  predicate DistinctNames(rs: seq<Resource>) {
    forall i, j | 0 <= i < j < |rs| :: rs[i].name != rs[j].name
  }

  function ParseResources(rules: Rules, text: Text): Option<seq<Resource>> {
    var rows := FindResources(text);
    if && (forall r | r in rows :: rules.resourceUrl(r.url))
       && !AnyContains(text, RESOURCE_ERROR)
       && rows != []
       && |rows| == CountAll(text, RESOURCE)
       && DistinctNames(rows)
    then Some(rows) else None
  }

  /** A formula snapshot with the digest of its canonical text, or `None` when it is refused. */
  function MakeSnapshot(rules: Rules, text: Text, version: string, commit: string): Option<(Snapshot, Digest)> {
    var classes := Matches(text, ClassLine);
    var urls := Matches(text, FieldLine("url"));
    var shas := Matches(text, FieldLine("sha256"));
    var versions := Matches(text, FieldLine("version"));
    var pythons := Matches(text, PythonLine);
    if !IsHex(commit, 40) || |classes| != 1 || |urls| != 1 || !rules.sourceUrl(urls[0]) then None
    else if |shas| != 1 || !IsHex(shas[0], 64) then None
    else if |versions| > 1 then None
    else if (if versions != [] then Some(versions[0]) else rules.sourceVersion(urls[0])) != Some(version) then None
    else if !rules.validVersion(version) || |pythons| != 1 then None
    else
      var rows := ParseResources(rules, text);
      if rows.None? then None
      else
        var s := Snapshot(classes[0] == DEV_CLASS, version, commit, urls[0], shas[0], pythons[0], rows.value);
        var canonical := FormulaText(rules, s);
        if NonBlank(text) != NonBlank(canonical) then None else Some((s, Sha256(canonical)))
  }
}
