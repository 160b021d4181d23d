/**
  The request file of one active lease and the hash the lease keeps for it, while claims and
  re-entries are cut short at any point and the file is lost or damaged.
*/
module RequestFiles {
  import opened Wrappers
  import opened Protocol
  import opened Submission
  import opened BatchClaim

  /** What is still to be done for the lease when the process last stopped. */
  datatype Pending =
    | Nothing
    | FileUnwritten(request: Request)  // claim or batch re-entry: hash committed, file to be written
    | HashUnsaved(request: Request)    // single re-entry: file written, hash to be saved

  datatype Slot = Slot(requestId: string, leaseId: string, hash: Hash, file: File, pending: Pending) {
    predicate Owns(r: Request) {
      r.requestId == requestId && r.leaseId == leaseId
    }

    predicate Usable() {
      PayloadForLease(file, requestId, leaseId).Some?
    }

    /** A usable file hashes to what the lease expects. */
    predicate Agrees() {
      Usable() ==> hash == HashOf(file.request)
    }
  }

  datatype Step =
    | Stop                            // a crash, or a save refused because the session moved on
    | Damage(file: File)              // the file is lost, garbled, outdated or replaced by a foreign one
    | Reenter                         // re-entry that finds a usable file and keeps it
    | BeginSingle(rebuilt: Request)   // single re-entry writes the rebuilt file first
    | BeginBatch(rebuilt: Request)    // batch re-entry commits the rebuilt hash first
    | Finish                          // the second half of a claim or of a re-entry

  predicate CanTake(s: Slot, step: Step) {
    match step
    case Stop => true
    case Damage(f) => PayloadForLease(f, s.requestId, s.leaseId).None?
    case Reenter => s.pending.Nothing? && s.Usable()
    case BeginSingle(r) => s.pending.Nothing? && !s.Usable() && s.Owns(r)
    case BeginBatch(r) => s.pending.Nothing? && !s.Usable() && s.Owns(r)
    case Finish => !s.pending.Nothing?
  }

  function Advance(s: Slot, step: Step): Slot {
    match step
    case Stop => s.(pending := Nothing)
    case Damage(f) => s.(file := f)
    case Reenter => s
    case BeginSingle(r) => s.(file := Stored(r), pending := HashUnsaved(r))
    case BeginBatch(r) => s.(hash := HashOf(r), pending := FileUnwritten(r))
    case Finish =>
      match s.pending
      case Nothing => s
      case FileUnwritten(r) => s.(file := Stored(r), pending := Nothing)
      case HashUnsaved(r) => s.(hash := HashOf(r), pending := Nothing)
  }

  /** A freshly committed claim: the hash is stored, the file is not yet written. */
  predicate IsFreshClaim(s: Slot) {
    s.pending.FileUnwritten? && s.Owns(s.pending.request) && s.hash == HashOf(s.pending.request) && !s.Usable()
  }

  /** Agreement, up to a single re-entry that has written the file and not yet saved its hash. */
  predicate InStep(s: Slot) {
    match s.pending
    case Nothing => s.Agrees()
    case FileUnwritten(r) => s.Owns(r) && s.hash == HashOf(r) && s.Agrees()
    case HashUnsaved(r) => s.Owns(r) && (s.Usable() ==> s.file == Stored(r))
  }

  /** The one interruption that hurts: a rebuilt file with another hash than the lease still holds. */
  predicate Strands(s: Slot, step: Step) {
    step.Stop? && s.pending.HashUnsaved? && s.Usable() && s.hash != HashOf(s.pending.request)
  }

  /** A step keeps file and hash in step exactly when it does not strand a rebuilt file. */
  lemma OnlyStrandingHurts(s: Slot, step: Step)
    requires InStep(s) && CanTake(s, step)
    ensures InStep(Advance(s, step)) <==> !Strands(s, step)
  {
  }

  /** A run of one lease's file, with the steps taken. */
  predicate IsRun(run: seq<Slot>, steps: seq<Step>) {
    |run| == |steps| + 1 && forall i | 0 <= i < |steps| :: CanTake(run[i], steps[i]) && run[i + 1] == Advance(run[i], steps[i])
  }

  /** Unless a rebuilt file is stranded, a usable file agrees with the lease whenever nothing is pending. */
  lemma {:induction false} FileAndHashAgree(run: seq<Slot>, steps: seq<Step>)
    requires IsRun(run, steps) && IsFreshClaim(run[0])
    requires forall i | 0 <= i < |steps| :: !Strands(run[i], steps[i])
    ensures forall s | s in run :: InStep(s) && (s.pending.Nothing? ==> s.Agrees())
    decreases |run|
  {
    if |steps| > 0 {
      var n := |steps|;
      FileAndHashAgree(run[..n], steps[..n - 1]);
      assert run[n - 1] in run[..n];
      OnlyStrandingHurts(run[n - 1], steps[n - 1]);
      assert run == run[..n] + [run[n]];
    }
  }

  /** Runs in which every re-entry is a batch re-entry never strand a file. */
  lemma {:induction false} BatchReentryNeverStrands(run: seq<Slot>, steps: seq<Step>)
    requires IsRun(run, steps) && IsFreshClaim(run[0])
    requires forall step | step in steps :: !step.BeginSingle?
    ensures forall s | s in run :: InStep(s) && !s.pending.HashUnsaved?
    decreases |run|
  {
    if |steps| > 0 {
      var n := |steps|;
      BatchReentryNeverStrands(run[..n], steps[..n - 1]);
      assert run[n - 1] in run[..n] && steps[n - 1] in steps;
      OnlyStrandingHurts(run[n - 1], steps[n - 1]);
      assert run == run[..n] + [run[n]];
    }
  }

  /** A stranded file is never repaired: as long as it is not damaged, re-entry hands it back as it is. */
  lemma {:induction false} StrandedStays(run: seq<Slot>, steps: seq<Step>, k: nat)
    requires IsRun(run, steps) && k < |run|
    requires run[0].pending.Nothing? && run[0].Usable() && !run[0].Agrees()
    requires forall step | step in steps :: !step.Damage?
    ensures run[k] == run[0]
  {
    if k > 0 {
      StrandedStays(run, steps, k - 1);
      assert steps[k - 1] in steps;
    }
  }

  /** A crash between the two writes of a single re-entry really does strand a lease. */
  lemma CrashStrands(s: Slot, rebuilt: Request)
    requires InStep(s) && s.pending.Nothing? && !s.Usable() && s.Owns(rebuilt)
    ensures var crashed := Advance(Advance(s, BeginSingle(rebuilt)), Stop);
            && crashed.Usable()
            && (crashed.Agrees() <==> HashOf(rebuilt) == s.hash)
  {
  }

  // -------------------------------------------------- responses written early

  /** The lease of a slot, as the submit path reads it. */
  predicate Backs(s: Slot, l: Lease, files: map<string, File>) {
    l.requestId == s.requestId && l.hash == s.hash && Read(files, l.requestPath) == s.file
  }

  /**
    After any finished claim or re-entry the file is usable under the original ids, and a response
    to the original request passes the request and hash checks of submission.
  */
  lemma EarlierResponseStillPasses(s: Slot, step: Step, l: Lease, files: map<string, File>, r: Response)
    requires InStep(s) && CanTake(s, step) && (step.Finish? || step.Reenter?)
    requires s.pending.HashUnsaved? ==> s.Usable()
    requires Backs(Advance(s, step), l, files) && r.requestId == s.requestId
    ensures Advance(s, step).Usable() && Advance(s, step).Agrees()
    ensures ExpectedHash(r, l, files) == Ok(l.hash)
  {
  }

  /** With a stranded file the same response is refused, whatever it says. */
  lemma StrandedResponseIsRefused(s: Slot, l: Lease, files: map<string, File>, r: Response, now: int)
    requires s.Usable() && !s.Agrees() && Backs(s, l, files)
    requires r.requestId == s.requestId && r.agentId == l.agentId && l.status == Active && l.expiresAt > now
    ensures ExpectedHash(r, l, files).Ok?
    ensures LeaseRefusal(r, l, Prepared(r.leaseId, l.itemId, ExpectedHash(r, l, files).value), now) == Some(StaleRequestContext)
  {
  }

  // ------------------------------------------------------------- the updates

  /** One lease's hash and request file, updated in place by the two re-entry paths. */
  class RequestSlot {
    const requestId: string
    const leaseId: string
    var hash: Hash
    var file: File

    constructor (requestId: string, leaseId: string, hash: Hash, file: File)
      ensures At(Nothing) == Slot(requestId, leaseId, hash, file, Nothing)
    {
      this.requestId, this.leaseId, this.hash, this.file := requestId, leaseId, hash, file;
    }

    function At(p: Pending): Slot
      reads this
    {
      Slot(requestId, leaseId, hash, file, p)
    }

    /** `agent next`: write the rebuilt file, then save its hash unless the save is refused. */
    method ReenterSingle(rebuilt: Request, saved: bool)
      requires At(Nothing).Owns(rebuilt)
      modifies this
      ensures At(Nothing) ==
              if old(At(Nothing)).Usable() then old(At(Nothing))
              else Advance(Advance(old(At(Nothing)), BeginSingle(rebuilt)), if saved then Finish else Stop)
      ensures At(Nothing).Usable()
      ensures old(At(Nothing)).Agrees() ==>
                (At(Nothing).Agrees() <==> saved || old(At(Nothing)).Usable() || HashOf(rebuilt) == old(hash))
    {
      if PayloadForLease(file, requestId, leaseId).None? {
        file := Stored(rebuilt);
        if saved {
          hash := HashOf(rebuilt);
        }
      }
    }

    /** `agent next --batch`: commit the rebuilt hash, then write the file unless stopped. */
    method ReenterBatch(rebuilt: Request, written: bool)
      requires At(Nothing).Owns(rebuilt)
      modifies this
      ensures At(Nothing) ==
              if old(At(Nothing)).Usable() then old(At(Nothing))
              else Advance(Advance(old(At(Nothing)), BeginBatch(rebuilt)), if written then Finish else Stop)
      ensures old(At(Nothing)).Agrees() ==> At(Nothing).Agrees()
      ensures At(Nothing).Usable() <==> written || old(At(Nothing)).Usable()
    {
      var rebuild := PayloadForLease(file, requestId, leaseId).None?;
      if rebuild {
        hash := HashOf(rebuilt);
        if written {
          file := Stored(rebuilt);
        }
      }
    }
  }
}
