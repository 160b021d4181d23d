/** Filling a response from a stored evidence profile that it refers to. */
module EvidenceProfile {
  import opened Wrappers
  import opened Protocol
  import opened TextLines
  import opened Submission

  datatype Profile = Profile(files: Option<Json>, validation: Option<Json>, fixReply: Option<Json>, commitHash: Option<Json>)

  /** A stored profile is usable only when it is an object. */
  datatype Slot = Broken | Usable(profile: Profile)

  /** The fields of a response that a profile can fill. */
  datatype Draft = Draft(
    ref: string,
    isFix: bool,
    files: Option<Json>,
    validation: Option<Json>,
    fixReply: Option<Json>
  )

  /** How values are read: any value as text, and a value as a list of validation records. */
  datatype Reading = Reading(text: Json -> string, records: Json -> seq<Json>)

  datatype Problem = ProfileNotFound | InvalidFixReply

  // ---------------------------------------------------------------- reading

  function LeftStrip(s: string): string {
    if s != "" && IsSpace(s[0]) then LeftStrip(s[1..]) else s
  }

  function RightStrip(s: string): string {
    if s != "" && IsSpace(s[|s| - 1]) then RightStrip(s[..|s| - 1]) else s
  }

  function Strip(s: string): string {
    RightStrip(LeftStrip(s))
  }

  function Split(s: string): seq<string> {
    if s == "" then [""]
    else
      var rest := Split(s[1..]);
      if s[0] == ',' then [""] + rest else if rest == [] then [[s[0]]] else [[s[0]] + rest[0]] + rest[1..]
  }

  /** Stripped, and without the empty ones. */
  function Tidy(parts: seq<string>): seq<string> {
    if parts == [] then []
    else (if Strip(parts[0]) == "" then [] else [Strip(parts[0])]) + Tidy(parts[1..])
  }

  function Texts(values: seq<Json>, reading: Reading): seq<string> {
    if values == [] then []
    else [if values[0].Str? then values[0].s else reading.text(values[0])] + Texts(values[1..], reading)
  }

  /** A comma-separated text or a list, as a list of tidy texts; anything else is empty. */
  function StringList(v: Option<Json>, reading: Reading): seq<string> {
    match Get(v)
    case Str(s) => Tidy(Split(s))
    case List(values) => Tidy(Texts(values, reading))
    case _ => []
  }

  function AsJson(texts: seq<string>): (r: seq<Json>)
    ensures |r| == |texts|
  {
    if texts == [] then [] else [Str(texts[0])] + AsJson(texts[1..])
  }

  function Fields(v: Option<Json>): map<string, Json> {
    match Get(v)
    case Obj(fields) => fields
    case _ => map[]
  }

  // -------------------------------------------------------------- expanding

  function FilledFiles(d: Draft, p: Profile, reading: Reading): Draft {
    var found := StringList(p.files, reading);
    if StringList(d.files, reading) == [] && found != [] then d.(files := Some(List(AsJson(found)))) else d
  }

  function FilledValidation(d: Draft, p: Profile, reading: Reading): Draft {
    var records := if Get(p.validation).List? then reading.records(Get(p.validation)) else [];
    if !Truthy(Get(d.validation)) && records != [] then d.(validation := Some(List(records))) else d
  }

  function Lookup(fields: map<string, Json>, key: string): Json {
    if key in fields then fields[key] else Null
  }

  /** The profile's reply under the agent's, completed with the commit and the files. */
  function MergedReply(d: Draft, p: Profile, reading: Reading): map<string, Json> {
    var merged := Fields(p.fixReply) + Fields(d.fixReply);
    var committed := if Truthy(Get(p.commitHash)) && !Truthy(Lookup(merged, "commit_hash"))
                     then merged["commit_hash" := Get(p.commitHash)] else merged;
    var files := StringList(d.files, reading);
    if files != [] && !Truthy(Lookup(committed, "files")) then committed["files" := List(AsJson(files))] else committed
  }

  function FilledReply(d: Draft, p: Profile, reading: Reading): Draft {
    var merged := MergedReply(d, p, reading);
    if d.isFix && merged != map[] then d.(fixReply := Some(Obj(merged))) else d
  }

  predicate HasBadReply(d: Draft) {
    d.fixReply.Some? && d.fixReply.value != Null && !d.fixReply.value.Obj?
  }

  /** The response after expansion, and what is wrong with its reference if anything is. */
  function Expand(d: Draft, profiles: Option<map<string, Slot>>, reading: Reading): (Draft, Option<Problem>) {
    if d.ref == "" then (d, None)
    else if profiles.None? || d.ref !in profiles.value || profiles.value[d.ref].Broken? then (d, Some(ProfileNotFound))
    else
      var p := profiles.value[d.ref].profile;
      var filled := FilledValidation(FilledFiles(d, p, reading), p, reading);
      if HasBadReply(d) then (filled, Some(InvalidFixReply)) else (FilledReply(filled, p, reading), None)
  }

  // -------------------------------------------------------------- properties

  lemma {:induction false} LeftStripEnds(s: string)
    ensures LeftStrip(s) != "" ==> !IsSpace(LeftStrip(s)[0])
  {
    if s != "" && IsSpace(s[0]) {
      LeftStripEnds(s[1..]);
    }
  }

  lemma {:induction false} RightStripEnds(s: string)
    ensures RightStrip(s) <= s
    ensures RightStrip(s) != "" ==> !IsSpace(RightStrip(s)[|RightStrip(s)| - 1])
  {
    if s != "" && IsSpace(s[|s| - 1]) {
      RightStripEnds(s[..|s| - 1]);
    }
  }

  lemma StripTwice(s: string)
    ensures Strip(Strip(s)) == Strip(s)
  {
    LeftStripEnds(s);
    RightStripEnds(LeftStrip(s));
  }

  predicate IsTidy(texts: seq<string>) {
    forall t | t in texts :: t != "" && Strip(t) == t
  }

  lemma {:induction false} TidyIsTidy(parts: seq<string>)
    ensures IsTidy(Tidy(parts))
  {
    if parts != [] {
      TidyIsTidy(parts[1..]);
      StripTwice(parts[0]);
    }
  }

  lemma {:induction false} TidyKeepsTidy(texts: seq<string>)
    requires IsTidy(texts)
    ensures Tidy(texts) == texts
  {
    if texts != [] {
      assert texts[0] in texts;
      TidyKeepsTidy(texts[1..]);
    }
  }

  lemma {:induction false} TextsReadBack(texts: seq<string>, reading: Reading)
    ensures Texts(AsJson(texts), reading) == texts
  {
    if texts != [] {
      TextsReadBack(texts[1..], reading);
    }
  }

  /** A list that was read once reads back as itself. */
  lemma ListReadsBack(v: Option<Json>, reading: Reading)
    ensures StringList(Some(List(AsJson(StringList(v, reading)))), reading) == StringList(v, reading)
  {
    var texts := StringList(v, reading);
    match Get(v) {
      case Str(s) => TidyIsTidy(Split(s));
      case List(values) => TidyIsTidy(Texts(values, reading));
      case _ =>
    }
    TidyKeepsTidy(texts);
    TextsReadBack(texts, reading);
  }

  lemma FilesTwice(d: Draft, p: Profile, reading: Reading)
    ensures FilledFiles(FilledFiles(d, p, reading), p, reading) == FilledFiles(d, p, reading)
  {
    hide StringList;
    ListReadsBack(p.files, reading);
  }

  lemma ValidationTwice(d: Draft, p: Profile, reading: Reading)
    ensures FilledValidation(FilledValidation(d, p, reading), p, reading) == FilledValidation(d, p, reading)
  {
  }

  lemma FillsCommute(d: Draft, p: Profile, reading: Reading)
    ensures FilledFiles(FilledValidation(d, p, reading), p, reading) == FilledValidation(FilledFiles(d, p, reading), p, reading)
  {
    hide StringList;
  }

  /** A merged reply merges to itself: it already has every profile field, the commit and the files. */
  lemma MergeTwice(d: Draft, p: Profile, reading: Reading)
    ensures var once := MergedReply(d, p, reading);
            MergedReply(d.(fixReply := Some(Obj(once))), p, reading) == once
  {
    hide StringList, AsJson;
    var once := MergedReply(d, p, reading);
    assert Fields(p.fixReply).Keys <= once.Keys;
    assert Fields(p.fixReply) + once == once;
  }

  lemma ReplyTwice(d: Draft, p: Profile, reading: Reading)
    ensures FilledReply(FilledReply(d, p, reading), p, reading) == FilledReply(d, p, reading)
  {
    hide MergedReply;
    MergeTwice(d, p, reading);
  }

  lemma ReplyLeavesRest(d: Draft, p: Profile, reading: Reading)
    ensures var r := FilledReply(d, p, reading);
            && FilledFiles(d, p, reading) == d ==> FilledFiles(r, p, reading) == r
    ensures var r := FilledReply(d, p, reading);
            FilledValidation(d, p, reading) == d ==> FilledValidation(r, p, reading) == r
  {
    hide StringList, MergedReply;
  }

  /** Expanding a second time changes neither the response nor the verdict, errors included. */
  lemma ExpandingTwice(d: Draft, profiles: Option<map<string, Slot>>, reading: Reading)
    ensures var (once, problem) := Expand(d, profiles, reading);
            Expand(once, profiles, reading) == (once, problem)
  {
    if d.ref != "" && profiles.Some? && d.ref in profiles.value && profiles.value[d.ref].Usable? {
      var p := profiles.value[d.ref].profile;
      FilesTwice(d, p, reading);
      ValidationTwice(FilledFiles(d, p, reading), p, reading);
      FillsCommute(FilledFiles(d, p, reading), p, reading);
      var filled := FilledValidation(FilledFiles(d, p, reading), p, reading);
      FilledKeepsReply(d, p, reading);
      ReplyTwice(filled, p, reading);
      ReplyLeavesRest(filled, p, reading);
      ReplyStaysGood(filled, p, reading);
      hide FilledFiles, FilledValidation, FilledReply;
    }
  }

  lemma FilledKeepsReply(d: Draft, p: Profile, reading: Reading)
    ensures var filled := FilledValidation(FilledFiles(d, p, reading), p, reading);
            filled.fixReply == d.fixReply && filled.ref == d.ref && filled.isFix == d.isFix
  {
  }

  lemma ReplyStaysGood(d: Draft, p: Profile, reading: Reading)
    ensures HasBadReply(FilledReply(d, p, reading)) ==> HasBadReply(d)
    ensures FilledReply(d, p, reading).ref == d.ref
  {
  }

  /**
    What the agent supplied wins: its files when they name any, its validation when it is not
    empty, and every field of its reply except an empty commit or an empty file list.
  */
  lemma AgentWins(d: Draft, profiles: Option<map<string, Slot>>, reading: Reading, key: string)
    ensures var e := Expand(d, profiles, reading).0;
            && (StringList(d.files, reading) != [] ==> e.files == d.files)
            && (Truthy(Get(d.validation)) ==> e.validation == d.validation)
            && ((key in Fields(d.fixReply) && (Truthy(Fields(d.fixReply)[key]) || key !in {"commit_hash", "files"})) ==>
                  key in Fields(e.fixReply) && Fields(e.fixReply)[key] == Fields(d.fixReply)[key])
  {
    hide StringList, AsJson;
  }

  /** An empty value in the agent's reply still hides the profile's value of that field. */
  lemma EmptyAnswerHidesProfile(d: Draft, profiles: Option<map<string, Slot>>, reading: Reading, key: string)
    requires d.ref != "" && profiles.Some? && d.ref in profiles.value && profiles.value[d.ref].Usable? && !HasBadReply(d)
    requires d.isFix && key in Fields(d.fixReply) && key !in {"commit_hash", "files"}
    requires !Truthy(Fields(d.fixReply)[key]) && Truthy(Lookup(Fields(profiles.value[d.ref].profile.fixReply), key))
    ensures !Truthy(Lookup(Fields(Expand(d, profiles, reading).0.fixReply), key))
  {
    AgentWins(d, profiles, reading, key);
  }

  // ------------------------------------------------- what a profile supplies

  /** Stripping takes the blank ends away and nothing else. */
  lemma {:induction false} StripTakesBlankEnds(s: string)
    ensures exists lead, trail :: s == lead + Strip(s) + trail && IsBlank(lead) && IsBlank(trail)
    ensures Strip(s) != "" ==> !IsSpace(Strip(s)[0]) && !IsSpace(Strip(s)[|Strip(s)| - 1])
  {
    var lead := LeftTakes(s);
    var trail := RightTakes(LeftStrip(s));
    assert s == lead + Strip(s) + trail;
    LeftStripEnds(s);
    RightStripEnds(LeftStrip(s));
  }

  lemma {:induction false} LeftTakes(s: string) returns (lead: string)
    ensures s == lead + LeftStrip(s) && IsBlank(lead)
  {
    if s != "" && IsSpace(s[0]) {
      var rest := LeftTakes(s[1..]);
      lead := [s[0]] + rest;
    } else {
      lead := "";
    }
  }

  lemma {:induction false} RightTakes(s: string) returns (trail: string)
    ensures s == RightStrip(s) + trail && IsBlank(trail)
  {
    if s != "" && IsSpace(s[|s| - 1]) {
      var rest := RightTakes(s[..|s| - 1]);
      trail := rest + [s[|s| - 1]];
    } else {
      trail := "";
    }
  }

  /** The texts joined by commas. */
  function Joined(parts: seq<string>): string {
    if parts == [] then "" else if |parts| == 1 then parts[0] else parts[0] + "," + Joined(parts[1..])
  }

  /** Splitting cuts at every comma and loses nothing. */
  lemma {:induction false} SplitCutsAtCommas(s: string)
    ensures Split(s) != [] && Joined(Split(s)) == s
    ensures forall part | part in Split(s) :: ',' !in part
  {
    if s != "" {
      SplitCutsAtCommas(s[1..]);
      var rest := Split(s[1..]);
      assert Split(s)[1..] == if s[0] == ',' then rest else rest[1..];
      assert s == [s[0]] + s[1..];
    }
  }

  /** What one text adds to a tidied list. */
  function Tidied(part: string): seq<string> {
    if Strip(part) == "" then [] else [Strip(part)]
  }

  lemma TidyUnfolds(parts: seq<string>)
    requires parts != []
    ensures Tidy(parts) == Tidied(parts[0]) + Tidy(parts[1..])
  {
  }

  lemma {:induction false} TidyJoins(a: seq<string>, b: seq<string>)
    ensures Tidy(a + b) == Tidy(a) + Tidy(b)
  {
    if a == [] {
      assert a + b == b;
    } else {
      TidyJoins(a[1..], b);
      OneTidied(a, b);
    }
  }

  lemma FirstOfJoined<T>(a: seq<T>, b: seq<T>)
    requires a != []
    ensures (a + b)[0] == a[0] && (a + b)[1..] == a[1..] + b
  {
  }

  lemma JoiningAssociates<T>(a: seq<T>, b: seq<T>, c: seq<T>)
    ensures a + (b + c) == a + b + c
  {
  }

  lemma OneTidied(a: seq<string>, b: seq<string>)
    requires a != [] && Tidy(a[1..] + b) == Tidy(a[1..]) + Tidy(b)
    ensures Tidy(a + b) == Tidy(a) + Tidy(b)
  {
    TidyUnfolds(a);
    TidyUnfolds(a + b);
    hide Tidy, Tidied;
    FirstOfJoined(a, b);
    JoiningAssociates(Tidied(a[0]), Tidy(a[1..]), Tidy(b));
  }

  /** Tidying keeps exactly the non-blank texts, stripped, in order. */
  lemma TidyKeepsEveryText(a: seq<string>, part: string, b: seq<string>)
    ensures Tidy(a + [part] + b) == Tidy(a) + (if Strip(part) == "" then [] else [Strip(part)]) + Tidy(b)
  {
    TidyJoins(a + [part], b);
    TidyJoins(a, [part]);
    TidiesOne(part);
    hide Tidy, Strip;
  }

  lemma TidiesOne(part: string)
    ensures Tidy([part]) == if Strip(part) == "" then [] else [Strip(part)]
  {
    assert Tidy([part][1..]) == [];
  }

  /** A list names its texts one by one; a value that is no text is read as one. */
  lemma {:induction false} TextsAreReadInOrder(values: seq<Json>, reading: Reading, k: nat)
    requires k < |values|
    ensures |Texts(values, reading)| == |values|
    ensures Texts(values, reading)[k] == match values[k] case Str(text) => text case other => reading.text(other)
  {
    if |values| > 1 {
      TextsAreReadInOrder(values[1..], reading, if k == 0 then 0 else k - 1);
    }
  }

  /** A text is a comma-separated list, a list is a list, and anything else names nothing. */
  lemma ListsAreRead(v: Option<Json>, reading: Reading)
    ensures v.None? ==> StringList(v, reading) == []
    ensures v.Some? && v.value.Str? ==> StringList(v, reading) == Tidy(Split(v.value.s))
    ensures v.Some? && v.value.List? ==> StringList(v, reading) == Tidy(Texts(v.value.items, reading))
    ensures v.Some? && !v.value.Str? && !v.value.List? ==> StringList(v, reading) == []
  {
  }

  predicate Refers(d: Draft, profiles: Option<map<string, Slot>>, p: Profile) {
    d.ref != "" && profiles.Some? && d.ref in profiles.value && profiles.value[d.ref] == Usable(p)
  }

  /** A reference is at fault exactly when it names no usable profile, or the reply it should fill is no object. */
  lemma ReferencesFailExactly(d: Draft, profiles: Option<map<string, Slot>>, reading: Reading)
    ensures var (e, problem) := Expand(d, profiles, reading);
            && (problem == Some(ProfileNotFound) <==> d.ref != "" && forall p :: !Refers(d, profiles, p))
            && (problem == Some(InvalidFixReply) <==>
                  (exists p :: Refers(d, profiles, p)) && d.fixReply.Some? && d.fixReply.value != Null && !d.fixReply.value.Obj?)
            && (d.ref == "" || problem == Some(ProfileNotFound) ==> e == d)
  {
    if d.ref != "" && profiles.Some? && d.ref in profiles.value && profiles.value[d.ref].Usable? {
      assert Refers(d, profiles, profiles.value[d.ref].profile);
    }
    hide StringList, AsJson, MergedReply;
  }

  lemma MergedFields(d: Draft, p: Profile, reading: Reading, key: string)
    ensures var (merged, own, given) := (MergedReply(d, p, reading), Fields(d.fixReply), Fields(p.fixReply));
            && (key in own || key in given ==> key in merged)
            && (key in merged && key !in own && key !in given ==> key == "commit_hash" || key == "files")
            && (key in given && key !in own && (Truthy(given[key]) || (key != "commit_hash" && key != "files")) ==>
                  merged[key] == given[key])
  {
    hide StringList, AsJson;
  }

  lemma MergedCommitAndFiles(d: Draft, p: Profile, reading: Reading)
    ensures var (merged, own, given) := (MergedReply(d, p, reading), Fields(d.fixReply), Fields(p.fixReply));
            && (!Truthy(Lookup(own, "commit_hash")) && !Truthy(Lookup(given, "commit_hash")) && Truthy(Get(p.commitHash)) ==>
                  Lookup(merged, "commit_hash") == Get(p.commitHash))
            && (!Truthy(Lookup(own, "files")) && !Truthy(Lookup(given, "files")) && StringList(d.files, reading) != [] ==>
                  Lookup(merged, "files") == List(AsJson(StringList(d.files, reading))))
  {
    hide StringList, AsJson;
    assert |"commit_hash"| == 11 && |"files"| == 5;
  }

  lemma ReplyIsMerged(d: Draft, profiles: Option<map<string, Slot>>, reading: Reading, p: Profile)
    requires Refers(d, profiles, p) && d.isFix && !HasBadReply(d)
    ensures var e := Expand(d, profiles, reading).0;
            Fields(e.fixReply) == MergedReply(d.(files := e.files), p, reading)
  {
    var filled := FilledValidation(FilledFiles(d, p, reading), p, reading);
    FilledKeepsReply(d, p, reading);
    var e := FilledReply(filled, p, reading);
    assert e.files == filled.files;
    assert MergedReply(filled, p, reading) == MergedReply(d.(files := e.files), p, reading);
    if MergedReply(filled, p, reading) == map[] {
      assert Fields(d.fixReply).Keys <= MergedReply(filled, p, reading).Keys;
    }
    hide StringList, AsJson, FilledFiles, FilledValidation;
  }

  /** What the agent left out is taken from the profile: its files, its validation and its reply fields. */
  lemma ProfileFillsTheRest(d: Draft, profiles: Option<map<string, Slot>>, reading: Reading, p: Profile, key: string)
    requires Refers(d, profiles, p)
    ensures var e := Expand(d, profiles, reading).0;
            && e.ref == d.ref && e.isFix == d.isFix
            && (StringList(d.files, reading) == [] ==>
                  if StringList(p.files, reading) == [] then e.files == d.files
                  else e.files == Some(List(AsJson(StringList(p.files, reading)))))
            && (!Truthy(Get(d.validation)) ==>
                  if p.validation.Some? && p.validation.value.List? && reading.records(p.validation.value) != []
                  then e.validation == Some(List(reading.records(p.validation.value))) else e.validation == d.validation)
            && (!d.isFix || HasBadReply(d) ==> e.fixReply == d.fixReply)
            && (d.isFix && !HasBadReply(d) && key !in Fields(d.fixReply) && key != "commit_hash" && key != "files" ==>
                  if key in Fields(p.fixReply)
                  then key in Fields(e.fixReply) && Fields(e.fixReply)[key] == Fields(p.fixReply)[key]
                  else key !in Fields(e.fixReply))
  {
    if d.isFix && !HasBadReply(d) {
      ReplyIsMerged(d, profiles, reading, p);
      MergedFields(d.(files := Expand(d, profiles, reading).0.files), p, reading, key);
    }
    hide StringList, AsJson, MergedReply;
  }

  /**
    A fix reply without a commit takes the profile's, and one without files takes the response's,
    unless the profile's own reply has them.
  */
  lemma CommitAndFilesAreFilled(d: Draft, profiles: Option<map<string, Slot>>, reading: Reading, p: Profile)
    requires Refers(d, profiles, p) && d.isFix && !HasBadReply(d)
    ensures var (e, own, given) := (Expand(d, profiles, reading).0, Fields(d.fixReply), Fields(p.fixReply));
            && (!Truthy(Lookup(own, "commit_hash")) && !Truthy(Lookup(given, "commit_hash")) && Truthy(Get(p.commitHash)) ==>
                  Lookup(Fields(e.fixReply), "commit_hash") == Get(p.commitHash))
            && (!Truthy(Lookup(own, "files")) && !Truthy(Lookup(given, "files")) && StringList(e.files, reading) != [] ==>
                  Lookup(Fields(e.fixReply), "files") == List(AsJson(StringList(e.files, reading))))
  {
    ReplyIsMerged(d, profiles, reading, p);
    MergedCommitAndFiles(d.(files := Expand(d, profiles, reading).0.files), p, reading);
    hide StringList, AsJson, MergedReply, Expand;
  }

  // ----------------------------------------------------------------- in place

  /** A response object that preparation fills in place. */
  class ResponseDraft {
    const ref: string
    const isFix: bool
    var files: Option<Json>
    var validation: Option<Json>
    var fixReply: Option<Json>

    constructor (d: Draft)
      ensures View() == d
    {
      ref, isFix, files, validation, fixReply := d.ref, d.isFix, d.files, d.validation, d.fixReply;
    }

    function View(): Draft
      reads this
    {
      Draft(ref, isFix, files, validation, fixReply)
    }

    method ExpandReference(profiles: Option<map<string, Slot>>, reading: Reading) returns (problem: Option<Problem>)
      modifies this
      ensures (View(), problem) == Expand(old(View()), profiles, reading)
    {
      hide StringList, AsJson;
      if ref == "" {
        return None;
      }
      if profiles.None? || ref !in profiles.value || profiles.value[ref].Broken? {
        return Some(ProfileNotFound);
      }
      var p := profiles.value[ref].profile;
      var found := StringList(p.files, reading);
      var named := StringList(files, reading);
      if named == [] && found != [] {
        files := Some(List(AsJson(found)));
        ListReadsBack(p.files, reading);
        named := found;
      }
      var records := if Get(p.validation).List? then reading.records(Get(p.validation)) else [];
      if !Truthy(Get(validation)) && records != [] {
        validation := Some(List(records));
      }
      if HasBadReply(View()) {
        return Some(InvalidFixReply);
      }
      var merged := Fields(p.fixReply) + Fields(fixReply);
      if Truthy(Get(p.commitHash)) && !Truthy(Lookup(merged, "commit_hash")) {
        merged := merged["commit_hash" := Get(p.commitHash)];
      }
      if named != [] && !Truthy(Lookup(merged, "files")) {
        merged := merged["files" := List(AsJson(named))];
      }
      if isFix && merged != map[] {
        fixReply := Some(Obj(merged));
      }
      problem := None;
    }
  }
}
