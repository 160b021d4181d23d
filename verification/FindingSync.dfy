/** Taking in one producer's findings, and closing those it no longer reports. */
module FindingSync {
  import opened Wrappers
  import opened Protocol

  datatype Severity = P0 | P1 | P2 | P3 | P4

  /** What a finding says about severity: nothing, something unreadable, or a level. */
  datatype Directive = Keep | Clear | Set(level: Severity)

  datatype Finding = Finding(id: string, content: map<string, Json>, severity: Directive)

  datatype Times = Times(created: Option<int>, updated: Option<int>, handled: Option<int>)

  datatype Record = Record(
    local: bool,
    thread: bool,
    source: string,
    content: map<string, Json>,
    extras: map<string, Json>,
    severity: Option<Severity>,
    closed: bool,
    blocking: bool,
    handled: bool,
    needsHuman: bool,
    dropped: bool,
    times: Times
  )

  type Items = map<string, Record>

  const BLANK := Record(false, false, "", map[], map[], None, false, false, false, false, false, Times(None, None, None))

  /** Fields a fresh item starts with when the producer did not set them. */
  const DEFAULTS := map["history" := List([]), "reply_posted" := Bool(false), "reply_url" := Null, "validation_commands" := List([])]

  function Graded(severity: Option<Severity>, d: Directive): Option<Severity> {
    match d
    case Keep => severity
    case Clear => None
    case Set(level) => Some(level)
  }

  /** An item as one finding leaves it: open, blocking, and owned by the producer. */
  function Opened(was: Record, f: Finding, source: string, now: int): Record {
    was.(local := true, thread := false, source := source, content := was.content + f.content, extras := DEFAULTS + was.extras,
         severity := Graded(was.severity, f.severity), closed := false, dropped := false, blocking := true, handled := false,
         needsHuman := false,
         times := was.times.(created := if was.times.created.Some? then was.times.created else Some(now), updated := Some(now)))
  }

  function Closed(was: Record, now: int): Record {
    was.(closed := true, dropped := false, blocking := false, handled := true,
         times := was.times.(handled := Some(now), updated := Some(now)))
  }

  function Found(items: Items, id: string): Record {
    if id in items then items[id] else BLANK
  }

  function OpenAll(items: Items, findings: seq<Finding>, source: string, now: int): Items {
    if findings == [] then items
    else
      var before := OpenAll(items, findings[..|findings| - 1], source, now);
      var f := findings[|findings| - 1];
      before[f.id := Opened(Found(before, f.id), f, source, now)]
  }

  function Ids(findings: seq<Finding>): set<string> {
    set f | f in findings :: f.id
  }

  predicate IsUnreported(r: Record, id: string, source: string, incoming: set<string>) {
    r.local && r.source == source && id !in incoming
  }

  function CloseRest(items: Items, source: string, incoming: set<string>, now: int): Items {
    map i | i in items :: if IsUnreported(items[i], i, source, incoming) then Closed(items[i], now) else items[i]
  }

  function Ingest(items: Items, findings: seq<Finding>, source: string, sync: bool, now: int): Items {
    var all := OpenAll(items, findings, source, now);
    if sync then CloseRest(all, source, Ids(findings), now) else all
  }

  // ---------------------------------------------------- one item at a time

  /** All findings of one input that name the same item, taken together. */
  datatype Patch = Patch(content: map<string, Json>, severity: Directive)

  function Merged(findings: seq<Finding>, id: string): Option<Patch> {
    if findings == [] then None
    else
      var before := Merged(findings[..|findings| - 1], id);
      var f := findings[|findings| - 1];
      if f.id != id then before
      else if before.None? then Some(Patch(f.content, f.severity))
      else Some(Patch(before.value.content + f.content, if f.severity.Keep? then before.value.severity else f.severity))
  }

  function Patched(was: Record, p: Patch, source: string, now: int): Record {
    Opened(was, Finding("", p.content, p.severity), source, now)
  }

  lemma PatchesCompose(was: Record, p: Patch, f: Finding, source: string, now: int)
    ensures Opened(Patched(was, p, source, now), f, source, now)
         == Patched(was, Patch(p.content + f.content, if f.severity.Keep? then p.severity else f.severity), source, now)
  {
    assert was.content + p.content + f.content == was.content + (p.content + f.content);
    assert DEFAULTS + (DEFAULTS + was.extras) == DEFAULTS + was.extras;
  }

  lemma {:induction false} MergedIsIncoming(findings: seq<Finding>, id: string)
    ensures Merged(findings, id).Some? <==> id in Ids(findings)
  {
    if findings != [] {
      MergedIsIncoming(findings[..|findings| - 1], id);
      assert findings == findings[..|findings| - 1] + [findings[|findings| - 1]];
    }
  }

  /** What opening an input does to one item: its own findings count, and nothing else. */
  lemma {:induction false} OpenAllPatches(items: Items, findings: seq<Finding>, source: string, now: int, id: string)
    ensures var after := OpenAll(items, findings, source, now);
            var patch := Merged(findings, id);
            && (id in after <==> id in items || patch.Some?)
            && (id in after ==> after[id] == if patch.Some? then Patched(Found(items, id), patch.value, source, now) else items[id])
  {
    if findings != [] {
      var n := |findings| - 1;
      var f := findings[n];
      OpenAllPatches(items, findings[..n], source, now, id);
      hide Opened;
      var before := Merged(findings[..n], id);
      if f.id == id && before.Some? {
        PatchesCompose(Found(items, id), before.value, f, source, now);
      } else if f.id == id {
        OpenedIgnoresId(Found(items, id), f, source, now);
      }
    }
  }

  lemma OpenedIgnoresId(was: Record, f: Finding, source: string, now: int)
    ensures Opened(was, f, source, now) == Patched(was, Patch(f.content, f.severity), source, now)
  {
  }

  // -------------------------------------------------------------- properties

  function BlockingOf(items: Items, source: string): set<string> {
    set i | i in items && items[i].local && items[i].source == source && items[i].blocking
  }

  /** After a sync the producer's blocking findings are exactly the ones it just reported. */
  lemma SyncLeavesExactlyIncoming(items: Items, findings: seq<Finding>, source: string, now: int)
    ensures BlockingOf(Ingest(items, findings, source, true, now), source) == Ids(findings)
  {
    var after := Ingest(items, findings, source, true, now);
    forall i ensures i in BlockingOf(after, source) <==> i in Ids(findings) {
      OpenAllPatches(items, findings, source, now, i);
      MergedIsIncoming(findings, i);
    }
  }

  /** The finding at `k` is the last one of the input on its item that says anything about the key. */
  predicate SaysLast(findings: seq<Finding>, k: nat, key: string)
    requires k < |findings|
  {
    key in findings[k].content && forall j | k < j < |findings| && findings[j].id == findings[k].id :: key !in findings[j].content
  }

  /** The finding at `k` is the last one of the input on its item that says anything about severity. */
  predicate GradesLast(findings: seq<Finding>, k: nat)
    requires k < |findings|
  {
    !findings[k].severity.Keep? && forall j | k < j < |findings| && findings[j].id == findings[k].id :: findings[j].severity.Keep?
  }

  /** A reported item is the producer's open, blocking finding, whatever it was before. */
  lemma ReportedIsOpen(items: Items, findings: seq<Finding>, source: string, sync: bool, now: int, id: string)
    requires id in Ids(findings)
    ensures var after := Ingest(items, findings, source, sync, now);
            && id in after
            && var r := after[id];
               && r.local && !r.thread && r.source == source
               && !r.closed && !r.dropped && r.blocking && !r.handled && !r.needsHuman
               && r.times.updated == Some(now)
               && r.times.created == (if id in items && items[id].times.created.Some? then items[id].times.created else Some(now))
               && r.times.handled == (if id in items then items[id].times.handled else None)
               && (forall key | id in items && key in items[id].extras ::
                     key in r.extras && r.extras[key] == items[id].extras[key])
               && (forall key | key in {"history", "reply_posted", "reply_url", "validation_commands"} :: key in r.extras)
  {
    OpenAllPatches(items, findings, source, now, id);
    MergedIsIncoming(findings, id);
  }

  lemma {:induction false} LastWordIsMerged(findings: seq<Finding>, k: nat, key: string)
    requires k < |findings|
    ensures Merged(findings, findings[k].id).Some?
    ensures SaysLast(findings, k, key) ==>
              var patch := Merged(findings, findings[k].id).value;
              key in patch.content && patch.content[key] == findings[k].content[key]
    ensures GradesLast(findings, k) ==> Merged(findings, findings[k].id).value.severity == findings[k].severity
  {
    var n := |findings| - 1;
    if k < n {
      LastWordIsMerged(findings[..n], k, key);
      assert findings[..n][k] == findings[k];
      assert SaysLast(findings, k, key) ==> SaysLast(findings[..n], k, key);
      assert GradesLast(findings, k) ==> GradesLast(findings[..n], k);
    }
  }

  /** Each field of a reported item has the value of the last finding that gives one; severity likewise. */
  lemma LastWordCounts(items: Items, findings: seq<Finding>, source: string, sync: bool, now: int, k: nat, key: string)
    requires k < |findings|
    ensures var after := Ingest(items, findings, source, sync, now);
            && findings[k].id in after
            && (SaysLast(findings, k, key) ==>
                  key in after[findings[k].id].content && after[findings[k].id].content[key] == findings[k].content[key])
            && (GradesLast(findings, k) ==>
                  after[findings[k].id].severity == match findings[k].severity case Set(level) => Some(level) case _ => None)
  {
    OpenAllPatches(items, findings, source, now, findings[k].id);
    LastWordIsMerged(findings, k, key);
    assert findings[k].id in Ids(findings);
  }

  /** What no finding speaks of keeps its value. */
  lemma UnspokenStays(items: Items, findings: seq<Finding>, source: string, sync: bool, now: int, id: string, key: string)
    requires id in items && id in Ids(findings)
    ensures var after := Ingest(items, findings, source, sync, now);
            && id in after
            && ((forall f | f in findings && f.id == id :: key !in f.content) && key in items[id].content ==>
                  key in after[id].content && after[id].content[key] == items[id].content[key])
            && ((forall f | f in findings && f.id == id :: f.severity.Keep?) ==> after[id].severity == items[id].severity)
  {
    OpenAllPatches(items, findings, source, now, id);
    MergedIsIncoming(findings, id);
    NothingIsMerged(findings, id, key);
  }

  lemma {:induction false} NothingIsMerged(findings: seq<Finding>, id: string, key: string)
    ensures Merged(findings, id).Some? && (forall f | f in findings && f.id == id :: key !in f.content) ==>
              key !in Merged(findings, id).value.content
    ensures Merged(findings, id).Some? && (forall f | f in findings && f.id == id :: f.severity.Keep?) ==>
              Merged(findings, id).value.severity.Keep?
  {
    if findings != [] {
      var n := |findings| - 1;
      NothingIsMerged(findings[..n], id, key);
      assert forall f | f in findings[..n] :: f in findings;
      assert findings[n] in findings;
    }
  }

  /** Items of other producers and threads are untouched, unless the input names them. */
  lemma OthersAreUntouched(items: Items, findings: seq<Finding>, source: string, sync: bool, now: int, i: string)
    requires i in items && i !in Ids(findings)
    ensures i in Ingest(items, findings, source, sync, now)
    ensures !sync || !items[i].local || items[i].source != source ==> Ingest(items, findings, source, sync, now)[i] == items[i]
    ensures sync && items[i].local && items[i].source == source ==>
              Ingest(items, findings, source, sync, now)[i]
              == items[i].(closed := true, dropped := false, blocking := false, handled := true,
                           times := Times(items[i].times.created, Some(now), Some(now)))
  {
    OpenAllPatches(items, findings, source, now, i);
    MergedIsIncoming(findings, i);
  }

  function Timeless(r: Record): Record {
    r.(times := Times(None, None, None))
  }

  lemma PatchingAgain(was: Record, p: Patch, source: string, now: int, later: int)
    ensures Timeless(Patched(Patched(was, p, source, now), p, source, later)) == Timeless(Patched(was, p, source, now))
  {
    assert was.content + p.content + p.content == was.content + p.content;
    assert DEFAULTS + (DEFAULTS + was.extras) == DEFAULTS + was.extras;
  }

  /** Taking in the same findings again changes nothing but timestamps, with or without sync. */
  lemma SecondIngestChangesTimesOnly(items: Items, findings: seq<Finding>, source: string, sync: bool, now: int, later: int)
    ensures var once := Ingest(items, findings, source, sync, now);
            var twice := Ingest(once, findings, source, sync, later);
            twice.Keys == once.Keys && forall i | i in once :: Timeless(twice[i]) == Timeless(once[i])
  {
    var once := Ingest(items, findings, source, sync, now);
    var twice := Ingest(once, findings, source, sync, later);
    forall i ensures (i in twice <==> i in once) && (i in once ==> Timeless(twice[i]) == Timeless(once[i])) {
      OpenAllPatches(items, findings, source, now, i);
      OpenAllPatches(once, findings, source, later, i);
      MergedIsIncoming(findings, i);
      var patch := Merged(findings, i);
      if patch.Some? {
        PatchingAgain(Found(items, i), patch.value, source, now, later);
      }
    }
  }

  // ------------------------------------------------------------------ updates

  datatype Metrics = Metrics(blocking: nat, openFindings: nat, unresolvedThreads: nat, needsHuman: nat)

  function Count(items: Items, test: Record -> bool): set<string> {
    set i | i in items && test(items[i])
  }

  const IS_BLOCKING: Record -> bool := (r: Record) => r.blocking
  const IS_OPEN_FINDING: Record -> bool := (r: Record) => r.local && r.blocking
  const IS_UNRESOLVED: Record -> bool := (r: Record) => r.thread && !r.closed && !r.dropped
  const NEEDS_HUMAN: Record -> bool := (r: Record) => r.needsHuman

  /** The part of a session that ingestion updates in place. */
  class FindingSession {
    var items: Items
    var metrics: Metrics

    constructor (items: Items)
      ensures this.items == items
    {
      this.items := items;
      this.metrics := Metrics(0, 0, 0, 0);
    }

    /** Open every reported finding, then with `sync` close the producer's others. */
    method TakeIn(findings: seq<Finding>, source: string, sync: bool, now: int)
      modifies this
      ensures items == Ingest(old(items), findings, source, sync, now) && metrics == old(metrics)
    {
      ghost var was := items;
      var incoming: set<string> := {};
      var k := 0;
      while k < |findings|
        invariant 0 <= k <= |findings| && metrics == old(metrics)
        invariant items == OpenAll(was, findings[..k], source, now)
        invariant incoming == Ids(findings[..k])
      {
        hide Opened;
        var f := findings[k];
        assert findings[..k + 1][..k] == findings[..k];
        assert findings[..k + 1] == findings[..k] + [f];
        items := items[f.id := Opened(Found(items, f.id), f, source, now)];
        incoming := incoming + {f.id};
        k := k + 1;
      }
      assert findings[..k] == findings;
      if sync {
        CloseMissing(source, incoming, now);
      }
    }

    method CloseMissing(source: string, incoming: set<string>, now: int)
      modifies this
      ensures items == CloseRest(old(items), source, incoming, now) && metrics == old(metrics)
    {
      ghost var was := items;
      var rest := items.Keys;
      while rest != {}
        invariant rest <= items.Keys == was.Keys && metrics == old(metrics)
        invariant forall i | i in items ::
                    items[i] == if i !in rest && IsUnreported(was[i], i, source, incoming) then Closed(was[i], now) else was[i]
        decreases rest
      {
        var i :| i in rest;
        if IsUnreported(items[i], i, source, incoming) {
          items := items[i := Closed(items[i], now)];
        }
        rest := rest - {i};
      }
      assert items == CloseRest(was, source, incoming, now);
    }

    method CountItems(test: Record -> bool) returns (n: nat)
      ensures n == |Count(items, test)|
    {
      n := 0;
      ghost var seen: set<string> := {};
      var rest := items.Keys;
      while rest != {}
        invariant rest <= items.Keys && n == |seen|
        invariant seen == set i | i in items && i !in rest && test(items[i])
        decreases rest
      {
        var i :| i in rest;
        if test(items[i]) {
          n := n + 1;
          seen := seen + {i};
        }
        rest := rest - {i};
      }
      assert seen == Count(items, test);
    }

    /** The metrics are the true counts, whatever they were before. */
    method Recalculate()
      modifies this
      ensures items == old(items)
      ensures metrics.blocking == |(set i | i in items && items[i].blocking)|
      ensures metrics.openFindings == |(set i | i in items && items[i].local && items[i].blocking)|
      ensures metrics.unresolvedThreads == |(set i | i in items && items[i].thread && !items[i].closed && !items[i].dropped)|
      ensures metrics.needsHuman == |(set i | i in items && items[i].needsHuman)|
    {
      assert Count(items, IS_BLOCKING) == set i | i in items && items[i].blocking;
      assert Count(items, IS_OPEN_FINDING) == set i | i in items && items[i].local && items[i].blocking;
      assert Count(items, IS_UNRESOLVED) == set i | i in items && items[i].thread && !items[i].closed && !items[i].dropped;
      assert Count(items, NEEDS_HUMAN) == set i | i in items && items[i].needsHuman;
      var blocking := CountItems(IS_BLOCKING);
      var findings := CountItems(IS_OPEN_FINDING);
      var threads := CountItems(IS_UNRESOLVED);
      var humans := CountItems(NEEDS_HUMAN);
      metrics := Metrics(blocking, findings, threads, humans);
    }
  }
}
