/** Publishing a fixed set of files to an add-only index, in rounds that may be cut short. */
module PypiReconcile {
  import opened Wrappers
  import opened TextLines

  type Files = map<string, string>  // file name to SHA-256 digest

  datatype Listed = Listed(name: Option<string>, digest: Option<string>)

  /** What the index answers for a version: not found, or a listing; anything else is malformed. */
  datatype Answer = NotFound | Malformed | Listing(version: string, urls: seq<Listed>)

  datatype Failure =
    | BadListing
    | BadHandoff
    | Conflict
    | StillMissing
    | OutputExists

  predicate IsDigest(s: string) {
    |s| == 64 && forall c | c in s :: '0' <= c <= '9' || 'a' <= c <= 'f'
  }

  predicate IsFileName(s: string) {
    s != "" && s != "." && '/' !in s && '\\' !in s
  }

  predicate IsListed(e: Listed) {
    e.name.Some? && IsFileName(e.name.value) && e.digest.Some? && IsDigest(e.digest.value)
  }

  /** A listing is accepted exactly when each entry is well formed and no name comes twice. */
  predicate IsUnambiguous(urls: seq<Listed>) {
    && (forall e | e in urls :: IsListed(e))
    && (forall i, j | 0 <= i < j < |urls| :: urls[i].name != urls[j].name)
  }

  /** The files of a listing, each under its one name. */
  predicate Collects(files: Files, urls: seq<Listed>) {
    && (forall j | 0 <= j < |urls| ::
          urls[j].name.Some? && urls[j].digest.Some? && urls[j].name.value in files
          && files[urls[j].name.value] == urls[j].digest.value)
    && (forall n | n in files :: exists j | 0 <= j < |urls| :: urls[j] == Listed(Some(n), Some(files[n])))
  }

  method PublishedFiles(answer: Answer, version: string) returns (r: Result<Files, Failure>)
    ensures answer.NotFound? ==> r == Ok(map[])
    ensures answer.Malformed? ==> r == Err(BadListing)
    ensures answer.Listing? ==> (r.Ok? <==> answer.version == version && IsUnambiguous(answer.urls))
    ensures answer.Listing? && r.Ok? ==> Collects(r.value, answer.urls)
  {
    if answer.NotFound? {
      return Ok(map[]);
    }
    if answer.Malformed? || answer.version != version {
      return Err(BadListing);
    }
    r := Collect(answer.urls);
  }

  method Collect(urls: seq<Listed>) returns (r: Result<Files, Failure>)
    ensures r.Ok? <==> IsUnambiguous(urls)
    ensures r.Ok? ==> Collects(r.value, urls)
    ensures r.Err? ==> r == Err(BadListing)
  {
    hide IsFileName, IsDigest;
    var files: Files := map[];
    var k := 0;
    while k < |urls|
      invariant 0 <= k <= |urls|
      invariant IsUnambiguous(urls[..k]) && Collects(files, urls[..k])
    {
      var e := urls[k];
      if !IsListed(e) {
        assert e in urls;
        return Err(BadListing);
      }
      if e.name.value in files {
        var j :| 0 <= j < k && urls[..k][j] == Listed(e.name, Some(files[e.name.value]));
        assert urls[j].name == urls[k].name;
        return Err(BadListing);
      }
      CollectOneMore(urls, files, k);
      files := files[e.name.value := e.digest.value];
      k := k + 1;
    }
    assert urls[..k] == urls;
    r := Ok(files);
  }

  lemma CollectOneMore(urls: seq<Listed>, files: Files, k: nat)
    requires k < |urls| && IsUnambiguous(urls[..k]) && Collects(files, urls[..k])
    requires IsListed(urls[k]) && urls[k].name.value !in files
    ensures IsUnambiguous(urls[..k + 1])
    ensures Collects(files[urls[k].name.value := urls[k].digest.value], urls[..k + 1])
  {
    hide IsFileName, IsDigest;
    var more := files[urls[k].name.value := urls[k].digest.value];
    var pre, next := urls[..k], urls[..k + 1];
    assert next == pre + [urls[k]];
    forall i, j | 0 <= i < j < |next| ensures next[i].name != next[j].name {
      assert next[i] == pre[i] && pre[i].name.value in files;
    }
    forall n | n in more ensures exists j | 0 <= j < |next| :: next[j] == Listed(Some(n), Some(more[n])) {
      if n == urls[k].name.value {
        assert next[k] == Listed(Some(n), Some(more[n]));
      } else {
        var j :| 0 <= j < |pre| && pre[j] == Listed(Some(n), Some(files[n]));
        assert next[j] == pre[j];
      }
    }
  }

  // -------------------------------------------------------------- reconciling

  datatype Status = Unverified | ConflictsWith | Verified | AlreadyPresent | Missing

  datatype Outcome =
    | Stopped(failure: Failure, receipt: map<string, Status>)
    | Finished(missing: seq<string>, receipt: map<string, Status>)

  function WithSuffix(names: seq<string>, suffix: string): seq<string> {
    if names == [] then []
    else (if EndsWith(names[0], suffix) then [names[0]] else []) + WithSuffix(names[1..], suffix)
  }

  /** Exactly the names with the suffix are kept. */
  lemma {:induction false} SuffixedExactly(names: seq<string>, suffix: string)
    ensures forall n :: n in WithSuffix(names, suffix) <==> n in names && EndsWith(n, suffix)
  {
    if names != [] {
      SuffixedExactly(names[1..], suffix);
      assert forall n | n in names :: n == names[0] || n in names[1..];
    }
  }

  /** They are kept in order and as often as they come. */
  lemma {:induction false} SuffixedInOrder(a: seq<string>, name: string, b: seq<string>, suffix: string)
    ensures WithSuffix(a + [name] + b, suffix)
         == WithSuffix(a, suffix) + (if EndsWith(name, suffix) then [name] else []) + WithSuffix(b, suffix)
  {
    if a == [] {
      assert a + [name] + b == [name] + b;
    } else {
      assert (a + [name] + b)[1..] == a[1..] + [name] + b;
      SuffixedInOrder(a[1..], name, b, suffix);
    }
  }

  /** The receipt entry of one local file against what is published. */
  function StatusOf(digest: string, remote: Files, name: string, confirming: bool): Status {
    if name !in remote then Missing
    else if remote[name] != digest then ConflictsWith
    else if confirming then Verified else AlreadyPresent
  }

  predicate Conflicts(local: Files, remote: Files) {
    exists n | n in local && n in remote :: local[n] != remote[n]
  }

  predicate AllPublished(local: Files, remote: Files) {
    forall n | n in local :: n in remote && remote[n] == local[n]
  }

  function Absent(local: Files, remote: Files): set<string> {
    set n | n in local && n !in remote
  }

  /**
    Compare the two archives of a handoff with the published files. Staging hands back the archives
    that are absent; confirming succeeds only when none is. `order` lists the directory.
  */
  method Reconcile(directory: Files, order: seq<string>, remote: Files, confirming: bool, outputExists: bool)
    returns (o: Outcome)
    requires forall n | n in order :: n in directory
    ensures |WithSuffix(order, ".whl")| != 1 || |WithSuffix(order, ".tar.gz")| != 1 ==> o == Stopped(BadHandoff, map[])
    ensures |WithSuffix(order, ".whl")| == 1 && |WithSuffix(order, ".tar.gz")| == 1 ==>
              var local := Archives(directory, order);
              && o.receipt.Keys == local.Keys
              && (forall n :: n in local <==> n in order && (EndsWith(n, ".whl") || EndsWith(n, ".tar.gz")))
              && (forall n | n in local ::
                    && local[n] == directory[n]
                    && (o.receipt[n] == Missing <==> n !in remote)
                    && (o.receipt[n] == ConflictsWith <==> n in remote && remote[n] != local[n])
                    && (o.receipt[n] == Verified <==> n in remote && remote[n] == local[n] && confirming)
                    && (o.receipt[n] == AlreadyPresent <==> n in remote && remote[n] == local[n] && !confirming))
              && (o == Stopped(Conflict, o.receipt) <==> Conflicts(local, remote))
              && (confirming ==> (o.Finished? <==> AllPublished(local, remote)))
              && (!confirming ==> (o.Finished? <==> !Conflicts(local, remote) && !outputExists))
              && (o.Finished? ==> (set n | n in o.missing) == Absent(local, remote))
  {
    var wheels := WithSuffix(order, ".whl");
    var sdists := WithSuffix(order, ".tar.gz");
    if |wheels| != 1 || |sdists| != 1 {
      return Stopped(BadHandoff, map[]);
    }
    ArchivesAreListed(directory, order);
    SuffixedExactly(order, ".whl");
    SuffixedExactly(order, ".tar.gz");
    ghost var local := Archives(directory, order);
    hide WithSuffix;
    var receipt, missing, conflicts := Compare(directory, wheels + sdists, remote, confirming);
    assert forall n :: n in local <==> n in wheels + sdists;
    assert conflicts <==> Conflicts(local, remote);
    if conflicts {
      return Stopped(Conflict, receipt);
    }
    if confirming && missing != [] {
      assert missing[0] in missing;
      return Stopped(StillMissing, receipt);
    }
    if !confirming && outputExists {
      return Stopped(OutputExists, receipt);
    }
    o := Finished(missing, receipt);
  }

  method Compare(directory: Files, paths: seq<string>, remote: Files, confirming: bool)
    returns (receipt: map<string, Status>, missing: seq<string>, conflicts: bool)
    requires forall n | n in paths :: n in directory
    ensures forall n :: n in receipt <==> n in paths
    ensures forall n | n in paths :: receipt[n] == StatusOf(directory[n], remote, n, confirming)
    ensures forall n :: n in missing <==> n in paths && n !in remote
    ensures conflicts <==> exists n | n in paths :: n in remote && remote[n] != directory[n]
  {
    receipt, missing, conflicts := map[], [], false;
    var k := 0;
    while k < |paths|
      invariant 0 <= k <= |paths|
      invariant forall n :: n in receipt <==> n in paths[..k]
      invariant forall n | n in paths[..k] :: receipt[n] == StatusOf(directory[n], remote, n, confirming)
      invariant forall n :: n in missing <==> n in paths[..k] && n !in remote
      invariant conflicts <==> exists n | n in paths[..k] :: n in remote && remote[n] != directory[n]
    {
      var n := paths[k];
      assert paths[..k + 1] == paths[..k] + [n];
      receipt := receipt[n := StatusOf(directory[n], remote, n, confirming)];
      if n in remote && remote[n] != directory[n] {
        conflicts := true;
      }
      if n !in remote {
        missing := missing + [n];
      }
      k := k + 1;
    }
    assert paths[..k] == paths;
  }

  /** The one wheel and the one source archive of a handoff. */
  function Archives(directory: Files, order: seq<string>): Files
    requires |WithSuffix(order, ".whl")| == 1 && |WithSuffix(order, ".tar.gz")| == 1
  {
    map n | n in WithSuffix(order, ".whl") + WithSuffix(order, ".tar.gz") && n in directory :: directory[n]
  }

  lemma {:induction false} SuffixedAreNames(names: seq<string>, suffix: string)
    ensures forall n | n in WithSuffix(names, suffix) :: n in names
  {
    if names != [] {
      SuffixedAreNames(names[1..], suffix);
    }
  }

  lemma ArchivesAreListed(directory: Files, order: seq<string>)
    requires forall n | n in order :: n in directory
    ensures forall n | n in WithSuffix(order, ".whl") + WithSuffix(order, ".tar.gz") :: n in directory
  {
    SuffixedAreNames(order, ".whl");
    SuffixedAreNames(order, ".tar.gz");
  }

  // --------------------------------------------------------------------- runs

  /** The index and the files a round has staged but not yet uploaded. */
  datatype Round = Round(remote: Files, staged: set<string>)

  datatype Step =
    | Stage                               // read the index and stage what is absent, or stop on a conflict
    | Upload(name: string)                // add one staged file; the index refuses a name it has
    | Interrupt                           // the round ends with files left over
    | Foreign(name: string, digest: string)  // somebody adds another file; nothing is ever replaced

  function After(local: Files, r: Round, step: Step): Round {
    match step
    case Stage => if Conflicts(local, r.remote) then r.(staged := {}) else r.(staged := Absent(local, r.remote))
    case Upload(n) =>
      if n in r.staged && n in local
      then Round(if n in r.remote then r.remote else r.remote[n := local[n]], r.staged - {n}) else r
    case Interrupt => r.(staged := {})
    case Foreign(n, d) => if n in r.remote then r else r.(remote := r.remote[n := d])
  }

  function Run(local: Files, r: Round, steps: seq<Step>): Round {
    if steps == [] then r else After(local, Run(local, r, steps[..|steps| - 1]), steps[|steps| - 1])
  }

  /** Nothing published is ever replaced or removed. */
  predicate Grows(a: Files, b: Files) {
    forall n | n in a :: n in b && b[n] == a[n]
  }

  lemma {:induction false} RemoteOnlyGrows(local: Files, r: Round, steps: seq<Step>)
    ensures Grows(r.remote, Run(local, r, steps).remote)
  {
    if steps != [] {
      RemoteOnlyGrows(local, r, steps[..|steps| - 1]);
    }
  }

  /** A confirmed publication stays confirmed, and a conflict stays a conflict, whatever happens next. */
  lemma VerdictsLast(local: Files, r: Round, steps: seq<Step>)
    ensures AllPublished(local, r.remote) ==> AllPublished(local, Run(local, r, steps).remote)
    ensures Conflicts(local, r.remote) ==> Conflicts(local, Run(local, r, steps).remote)
  {
    RemoteOnlyGrows(local, r, steps);
    var later := Run(local, r, steps).remote;
    if Conflicts(local, r.remote) {
      var n :| n in local && n in r.remote && local[n] != r.remote[n];
      assert n in later && later[n] != local[n];
    }
  }

  predicate TouchesNothing(local: Files, steps: seq<Step>) {
    forall step | step in steps && step.Foreign? :: step.name !in local
  }

  /** As long as nobody else takes a name of the handoff, its rounds never conflict with themselves. */
  lemma {:induction false} RoundsNeverConflict(local: Files, r: Round, steps: seq<Step>)
    requires !Conflicts(local, r.remote) && TouchesNothing(local, steps)
    ensures !Conflicts(local, Run(local, r, steps).remote)
  {
    if steps != [] {
      var n := |steps| - 1;
      assert forall step | step in steps[..n] :: step in steps;
      RoundsNeverConflict(local, r, steps[..n]);
      assert steps[n] in steps;
    }
  }

  /**
    After any interrupted rounds of one handoff the next stage selects exactly the files still
    absent, and every file it passes over is published already with its digest.
  */
  lemma StageSelectsAbsent(local: Files, r: Round, steps: seq<Step>)
    requires !Conflicts(local, r.remote) && TouchesNothing(local, steps)
    ensures var before := Run(local, r, steps);
            var staged := After(local, before, Stage).staged;
            && (forall n | n in staged :: n in local && n !in before.remote)
            && (forall n | n in local && n !in staged :: n in before.remote && before.remote[n] == local[n])
  {
    RoundsNeverConflict(local, r, steps);
  }

  function Uploads(names: seq<string>): seq<Step> {
    if names == [] then [] else Uploads(names[..|names| - 1]) + [Upload(names[|names| - 1])]
  }

  /** Uploading staged names one by one publishes exactly those, with their digests. */
  lemma {:induction false} UploadsPublish(local: Files, r: Round, names: seq<string>)
    requires forall n | n in names :: n in local && n in r.staged && n !in r.remote
    requires forall i, j | 0 <= i < j < |names| :: names[i] != names[j]
    ensures var s := Run(local, r, Uploads(names));
            && (forall n | n in names :: n in s.remote && s.remote[n] == local[n])
            && (forall n | n in s.remote && n !in names :: n in r.remote)
            && s.staged == r.staged - set n | n in names
  {
    if names != [] {
      var k := |names| - 1;
      UploadsPublish(local, r, names[..k]);
      UploadsGrow(local, r, names);
      assert names == names[..k] + [names[k]];
      hide Run, Uploads;
      var s := Run(local, r, Uploads(names[..k]));
      assert names[k] !in names[..k];
      assert names[k] in s.staged && names[k] !in s.remote;
    }
  }

  lemma UploadsGrow(local: Files, r: Round, names: seq<string>)
    requires names != []
    ensures var k := |names| - 1;
            Run(local, r, Uploads(names)) == After(local, Run(local, r, Uploads(names[..k])), Upload(names[k]))
  {
    UploadCount(names);
    UploadCount(names[..|names| - 1]);
    assert Uploads(names)[..|names| - 1] == Uploads(names[..|names| - 1]);
  }

  lemma {:induction false} UploadCount(names: seq<string>)
    ensures |Uploads(names)| == |names|
  {
    if names != [] {
      UploadCount(names[..|names| - 1]);
    }
  }

  /**
    After any number of interrupted rounds of one handoff, one complete round publishes everything:
    staging finds no conflict, and once its files are uploaded confirmation succeeds.
  */
  lemma OneFullRoundConfirms(local: Files, r: Round, steps: seq<Step>, names: seq<string>)
    requires !Conflicts(local, r.remote) && TouchesNothing(local, steps)
    requires var now := After(local, Run(local, r, steps), Stage);
             (forall n :: n in names <==> n in now.staged) && forall i, j | 0 <= i < j < |names| :: names[i] != names[j]
    ensures var now := After(local, Run(local, r, steps), Stage);
            AllPublished(local, Run(local, now, Uploads(names)).remote)
  {
    RoundsNeverConflict(local, r, steps);
    var before := Run(local, r, steps);
    var now := After(local, before, Stage);
    UploadsPublish(local, now, names);
    RemoteOnlyGrows(local, now, Uploads(names));
  }
}
