/**
 * A learner adopting a published checkpoint (replica.go): the sync thread walks from verification over
 * prepare to compaction while a renewal goroutine keeps the recovery pin alive and a verifier goroutine waits
 * to close it. The three share a job under a mutex, and the replica's readiness and failure latch.
 */
module LearnerAdoption {
  import opened Options

  /** Two minutes, in nanoseconds; the store keeps pin expiry in whole milliseconds. */
  const LEASE: nat := 120_000_000_000

  function Ms(t: nat): nat { t / 1_000_000 }

  /** The local finding that the lease ran out, or an error some call reported. */
  datatype Failure = LeaseExpired | Reported(error: nat)

  datatype Phase = Verifying | Preparing | Compacting

  /** Waiting for its ticker, inside Renew, about to react to a recorded loss, about to store not-ready, gone. */
  datatype Renewer = Waiting | Renewing(started: nat) | Reacting(seen: Phase) | Marking | Stopped

  datatype Verifier = Watching | ClosingPin | Gone

  /** The certified candidate: its seal index and the slot that decided the seal. */
  datatype Candidate = Candidate(seal: nat, slot: nat)

  /** `lostIn` is the phase in which the loss was recorded, if it was; `until` is the pin as stored. */
  datatype Job = Job(
    candidate: Candidate, phase: Phase, lostIn: Option<Phase>, leaseErr: Failure, deadline: nat, until: nat,
    cancelled: bool, finish: bool, halt: bool, renewer: Renewer, verifier: Verifier)

  /** Where the sync thread is: `Outside` adoption it may also stop the job, after a failed peer sync or on close. */
  datatype Pc =
    | Outside
    | Entered
    | LeaseChecked
    | TipsChecked
    | BaseChecked
    | InPrepare
    | Prepared
    | InCompact
    | Compacted(failed: Option<Failure>)
    | Latching(why: Failure)
    | StoringNotReady
    | StoppingJob
    | Joining

  datatype State = State(
    now: nat, job: Option<Job>, pc: Pc, ready: bool, failure: Option<Failure>, shutdown: bool,
    tip: nat, material: nat, floor: nat, lossAfterPrepare: bool)

  datatype Event =
    | Tick(t: nat)
    | Advance(tip: nat, material: nat)
    | Shutdown
    | StartJob(candidate: Candidate, leaseStart: nat, until: nat)
    | EnterSync
    | CheckLease
    | CheckTips
    | CheckBase(ok: bool, stop: bool)
    | EnterPrepare
    | PrepareReturns(failed: Option<Failure>)
    | EnterCompact
    | CompactReturns(failed: Option<Failure>)
    | LeaveCompact
    | LatchFailure
    | StoreNotReady
    | StopJob
    | JoinJob
    | RenewTick
    | RenewReturns(ok: bool, err: Failure, until: nat)
    | RenewReacts
    | RenewStoresNotReady
    | RenewStops
    | VerifierWakes
    | VerifierCloses(until: nat)

  ghost predicate Init(s: State) {
    s.job == None && s.pc == Outside && s.ready && s.failure == None && !s.shutdown && !s.lossAfterPrepare
  }

  // ------------------------------------------------------------------------------ the step system

  predicate LeaseOk(s: State, j: Job) { j.lostIn.None? && s.now < j.deadline }

  /** The job's context is done: cancelled itself, or the replica's. */
  predicate Cancelled(s: State, j: Job) { j.cancelled || s.shutdown }

  ghost predicate SyncEnabled(s: State, e: Event) {
    && s.job.Some?
    && match e {
         case EnterSync => s.pc.Outside? && s.ready && s.failure.None?
         case CheckLease => s.pc.Entered?
         case CheckTips => s.pc.LeaseChecked?
         case CheckBase(_, _) => s.pc.TipsChecked?
         case EnterPrepare => s.pc.BaseChecked?
         case PrepareReturns(_) => s.pc.InPrepare?
         case EnterCompact => s.pc.Prepared?
         case CompactReturns(_) => s.pc.InCompact?
         case LeaveCompact => s.pc.Compacted? && s.job.value.renewer.Stopped?
         case LatchFailure => s.pc.Latching?
         case StoreNotReady => s.pc.StoringNotReady?
         case StopJob => s.pc.StoppingJob? || s.pc.Outside?
         case JoinJob => s.pc.Joining? && s.job.value.verifier.Gone?
         case _ => false
       }
  }

  ghost predicate JobEnabled(s: State, e: Event) {
    && s.job.Some?
    && var j := s.job.value;
       match e {
         case RenewTick => j.renewer.Waiting?
         case RenewReturns(ok, _, until) =>
           j.renewer.Renewing? && j.until <= until && (ok ==> Ms(j.renewer.started + LEASE) <= until)
         case RenewReacts => j.renewer.Reacting?
         case RenewStoresNotReady => j.renewer.Marking?
         case RenewStops => j.renewer.Waiting? && (j.halt || (Cancelled(s, j) && !j.phase.Compacting?))
         case VerifierWakes => j.verifier.Watching? && (j.finish || (Cancelled(s, j) && !j.phase.Compacting?))
         case VerifierCloses(until) =>
           j.verifier.ClosingPin? && j.renewer.Stopped? && (until == j.until || until == Ms(s.now))
         case _ => false
       }
  }

  ghost predicate WorldEnabled(s: State, e: Event) {
    match e
    case Tick(t) => s.now <= t
    case Advance(tip, material) => s.tip <= tip && s.material <= material
    case Shutdown => true
    case StartJob(candidate, leaseStart, until) =>
      && s.job.None? && s.pc.Outside? && s.ready && s.failure.None? && 0 < candidate.seal < candidate.slot
      && leaseStart <= s.now && Ms(leaseStart + LEASE) <= until
    case _ => false
  }

  ghost function WorldStep(s: State, e: Event): State
    requires WorldEnabled(s, e)
  {
    match e
    case Tick(t) => s.(now := t)
    case Advance(tip, material) => s.(tip := tip, material := material)
    case Shutdown => s.(shutdown := true, ready := false)
    case StartJob(candidate, leaseStart, until) =>
      s.(job := Some(Job(candidate, Verifying, None, LeaseExpired, leaseStart + LEASE, until, false, false, false,
                         Waiting, Watching)))
  }

  ghost function WithJob(s: State, j: Job): State { s.(job := Some(j)) }

  function Reason(j: Job, otherwise: Failure): Failure { if j.lostIn.Some? then j.leaseErr else otherwise }

  ghost function SyncStep(s: State, e: Event): State
    requires SyncEnabled(s, e)
  {
    var j := s.job.value;
    match e
    case EnterSync => s.(pc := Entered)
    case CheckLease => s.(pc := if LeaseOk(s, j) then LeaseChecked else StoppingJob)
    case CheckTips =>
      s.(pc := if s.tip < j.candidate.slot || s.material < j.candidate.slot then Outside else TipsChecked)
    case CheckBase(ok, stop) =>
      s.(pc := if j.candidate.seal <= s.floor then StoppingJob
               else if ok then BaseChecked else if stop then StoppingJob else Outside)
    case EnterPrepare =>
      if LeaseOk(s, j) then WithJob(s, j.(phase := Preparing)).(pc := InPrepare) else s.(pc := StoppingJob)
    case PrepareReturns(failed) => s.(pc := if failed.Some? then Latching(failed.value) else Prepared)
    case EnterCompact =>
      if LeaseOk(s, j) then WithJob(s, j.(phase := Compacting)).(pc := InCompact)
      else s.(pc := Latching(Reason(j, LeaseExpired)))
    case CompactReturns(failed) =>
      WithJob(s, j.(halt := true))
        .(pc := Compacted(failed), floor := if failed.None? then j.candidate.seal else s.floor)
    case LeaveCompact =>
      WithJob(s, j.(phase := Verifying))
        .(pc := if s.pc.failed.Some? then Latching(s.pc.failed.value)
                else if j.lostIn.Some? then Latching(j.leaseErr) else StoppingJob)
    case LatchFailure => s.(failure := if s.failure.None? then Some(s.pc.why) else s.failure, pc := StoringNotReady)
    case StoreNotReady => s.(ready := false, pc := StoppingJob)
    case StopJob => WithJob(s, j.(cancelled := true, finish := true)).(pc := Joining)
    case JoinJob => s.(job := None, pc := Outside)
  }

  ghost function JobStep(s: State, e: Event): State
    requires JobEnabled(s, e)
  {
    var j := s.job.value;
    match e
    case RenewTick => WithJob(s, j.(renewer := Renewing(s.now)))
    case RenewReturns(ok, err, until) =>
      if ok && j.renewer.started < j.deadline && s.now < j.deadline then
        WithJob(s, j.(deadline := j.renewer.started + LEASE, until := until, renewer := Waiting))
      else
        WithJob(s, j.(lostIn := Some(j.phase), leaseErr := err, until := until, renewer := Reacting(j.phase)))
          .(lossAfterPrepare := s.lossAfterPrepare || !j.phase.Verifying?)
    case RenewReacts =>
      if j.renewer.seen.Compacting? then
        WithJob(s, j.(renewer := Marking)).(failure := if s.failure.None? then Some(j.leaseErr) else s.failure)
      else WithJob(s, j.(renewer := Stopped, cancelled := true))
    case RenewStoresNotReady => WithJob(s, j.(renewer := Stopped)).(ready := false)
    case RenewStops => WithJob(s, j.(renewer := Stopped))
    case VerifierWakes => WithJob(s, j.(verifier := ClosingPin, halt := true))
    case VerifierCloses(until) => WithJob(s, j.(verifier := Gone, until := until))
  }

  ghost function After(s: State, e: Event): State {
    if WorldEnabled(s, e) then WorldStep(s, e)
    else if SyncEnabled(s, e) then SyncStep(s, e)
    else if JobEnabled(s, e) then JobStep(s, e)
    else s
  }

  ghost function Trace(s: State, es: seq<Event>): State
    decreases |es|
  {
    if es == [] then s else Trace(After(s, es[0]), es[1..])
  }

  // -------------------------------------------------------------------------------- the invariant

  predicate Latched(s: State) { s.failure.Some? && !s.ready }

  /** The sync thread is between entering prepare and storing not-ready. */
  predicate Committed(pc: Pc) {
    pc.InPrepare? || pc.Prepared? || pc.InCompact? || pc.Compacted? || pc.Latching? || (pc.StoringNotReady?)
  }

  ghost predicate PhaseOk(s: State, j: Job) {
    && (j.phase.Preparing? ==>
          s.pc.InPrepare? || s.pc.Prepared? || s.pc.Latching? || s.pc.StoringNotReady?
          || ((s.pc.StoppingJob? || s.pc.Joining?) && Latched(s)))
    && (s.pc.InPrepare? || s.pc.Prepared? ==> j.phase.Preparing?)
    && (j.phase.Compacting? <==> s.pc.InCompact? || s.pc.Compacted?)
  }

  ghost predicate BaseOk(s: State, j: Job) {
    && (s.pc.TipsChecked? || s.pc.BaseChecked? || s.pc.InPrepare? || s.pc.Prepared? ==>
          s.tip >= j.candidate.slot && s.material >= j.candidate.slot)
    && (s.pc.BaseChecked? || s.pc.InPrepare? || s.pc.Prepared? || s.pc.InCompact? ==> j.candidate.seal > s.floor)
  }

  /** The stored pin outlives the confirmed lease until the verifier closes it. */
  ghost predicate PinOk(s: State, j: Job) {
    && (!j.verifier.Gone? && j.lostIn.None? ==> Ms(j.deadline) <= j.until)
    && (!j.verifier.Watching? ==> j.cancelled || s.shutdown || j.finish)
    && (j.finish ==> s.pc.Joining?) && (j.cancelled ==> j.lostIn.Some? || s.pc.Joining?)
  }

  ghost predicate RenewerOk(s: State, j: Job) {
    && (j.renewer.Waiting? || j.renewer.Renewing? ==> j.lostIn.None?)
    && (j.renewer.Reacting? ==> j.lostIn == Some(j.renewer.seen))
    && (j.renewer.Marking? ==> j.lostIn == Some(Compacting) && s.failure.Some?)
    && (j.renewer.Marking? || j.renewer == Reacting(Compacting) ==> j.phase.Compacting?)
  }

  /** A loss recorded from prepare on is latched, or will be before the sync thread leaves. */
  ghost predicate LossOk(s: State, j: Job) {
    && (j.lostIn.Some? && !j.lostIn.value.Verifying? ==> Latched(s) || Committed(s.pc))
    && (s.pc.StoringNotReady? ==> s.failure.Some?)
  }

  ghost predicate JobOk(s: State, j: Job) {
    PhaseOk(s, j) && BaseOk(s, j) && PinOk(s, j) && RenewerOk(s, j) && LossOk(s, j)
  }

  ghost predicate Inv(s: State) {
    && (s.job.None? ==> s.pc.Outside?)
    && (s.job.Some? ==> JobOk(s, s.job.value))
    && (s.failure.Some? && s.ready ==> s.pc.StoringNotReady? || (s.job.Some? && s.job.value.renewer.Marking?))
    && (s.lossAfterPrepare ==>
          Latched(s) || (s.job.Some? && s.job.value.lostIn.Some? && !s.job.value.lostIn.value.Verifying?))
  }

  // ------------------------------------------------------------------------ keeping the invariant

  lemma WorldKeepsInv(s: State, e: Event)
    requires Inv(s) && WorldEnabled(s, e)
    ensures Inv(WorldStep(s, e))
  {
  }

  predicate IsCheck(e: Event) {
    e.EnterSync? || e.CheckLease? || e.CheckTips? || e.CheckBase? || e.EnterPrepare?
  }

  predicate IsCommit(e: Event) { e.PrepareReturns? || e.EnterCompact? || e.CompactReturns? || e.LeaveCompact? }

  lemma ChecksKeepInv(s: State, e: Event)
    requires Inv(s) && SyncEnabled(s, e) && IsCheck(e)
    ensures Inv(SyncStep(s, e))
  {
    hide Ms;
  }

  lemma CommitsKeepInv(s: State, e: Event)
    requires Inv(s) && SyncEnabled(s, e) && IsCommit(e)
    ensures Inv(SyncStep(s, e))
  {
    hide Ms;
  }

  lemma EndingsKeepInv(s: State, e: Event)
    requires Inv(s) && SyncEnabled(s, e) && !IsCheck(e) && !IsCommit(e)
    ensures Inv(SyncStep(s, e))
  {
    hide Ms;
  }

  lemma SyncKeepsInv(s: State, e: Event)
    requires Inv(s) && SyncEnabled(s, e)
    ensures Inv(SyncStep(s, e))
  {
    hide Inv, SyncStep;
    if IsCheck(e) {
      ChecksKeepInv(s, e);
    } else if IsCommit(e) {
      CommitsKeepInv(s, e);
    } else {
      EndingsKeepInv(s, e);
    }
  }

  lemma RenewalStartKeepsInv(s: State, e: Event)
    requires Inv(s) && JobEnabled(s, e) && e.RenewTick?
    ensures Inv(JobStep(s, e))
  {
    hide Ms;
  }

  lemma RenewalEndKeepsInv(s: State, e: Event)
    requires Inv(s) && JobEnabled(s, e) && e.RenewReturns?
    ensures Inv(JobStep(s, e))
  {
    hide Ms;
  }

  lemma ReactionKeepsInv(s: State, e: Event)
    requires Inv(s) && JobEnabled(s, e) && (e.RenewReacts? || e.RenewStoresNotReady? || e.RenewStops?)
    ensures Inv(JobStep(s, e))
  {
    hide Ms;
  }

  lemma VerifierKeepsInv(s: State, e: Event)
    requires Inv(s) && JobEnabled(s, e) && (e.VerifierWakes? || e.VerifierCloses?)
    ensures Inv(JobStep(s, e))
  {
    hide Ms;
  }

  lemma JobKeepsInv(s: State, e: Event)
    requires Inv(s) && JobEnabled(s, e)
    ensures Inv(JobStep(s, e))
  {
    hide Inv, JobStep;
    if e.RenewTick? {
      RenewalStartKeepsInv(s, e);
    } else if e.RenewReturns? {
      RenewalEndKeepsInv(s, e);
    } else if e.VerifierWakes? || e.VerifierCloses? {
      VerifierKeepsInv(s, e);
    } else {
      ReactionKeepsInv(s, e);
    }
  }

  lemma StepKeepsInv(s: State, e: Event)
    requires Inv(s)
    ensures Inv(After(s, e))
  {
    hide Inv, WorldStep, SyncStep, JobStep;
    if WorldEnabled(s, e) {
      WorldKeepsInv(s, e);
    } else if SyncEnabled(s, e) {
      SyncKeepsInv(s, e);
    } else if JobEnabled(s, e) {
      JobKeepsInv(s, e);
    }
  }

  lemma {:induction false} TraceKeepsInv(s: State, es: seq<Event>)
    requires Inv(s)
    ensures Inv(Trace(s, es))
    decreases |es|
  {
    hide Inv, After;
    if es != [] {
      StepKeepsInv(s, es[0]);
      TraceKeepsInv(After(s, es[0]), es[1..]);
    }
  }

  // --------------------------------------------------------------------------------- the theorems

  ghost predicate Reachable(s: State) { exists s0, es :: Init(s0) && Trace(s0, es) == s }

  lemma ReachableInv(s: State)
    requires Reachable(s)
    ensures Inv(s)
  {
    var s0, es :| Init(s0) && Trace(s0, es) == s;
    TraceKeepsInv(s0, es);
  }

  /** The step that starts compaction. */
  ghost predicate Starts(s: State, e: Event) { !s.pc.InCompact? && After(s, e).pc.InCompact? }

  lemma StartsOnlyFromPrepared(s: State, e: Event)
    requires Starts(s, e)
    ensures e.EnterCompact? && s.pc.Prepared? && s.job.Some? && LeaseOk(s, s.job.value)
  {
  }

  /**
   * Compaction starts only with no loss recorded, before the confirmed deadline, with both tips past the
   * deciding slot and a seal above the floor. Unless the replica is shutting down or this is the deadline's own
   * millisecond, the pin is then unexpired in the store too.
   */
  lemma CompactionStartsSafely(s: State, e: Event)
    requires Reachable(s) && Starts(s, e)
    ensures s.job.Some?
    ensures var j := s.job.value;
            && j.lostIn.None? && s.now < j.deadline
            && s.tip >= j.candidate.slot && s.material >= j.candidate.slot && j.candidate.seal > s.floor
            && (!s.shutdown && Ms(s.now) < Ms(j.deadline) ==> j.until > Ms(s.now))
            && (!s.shutdown ==> j.until >= Ms(j.deadline) && j.verifier.Watching?)
  {
    hide After;
    ReachableInv(s);
    StartsOnlyFromPrepared(s, e);
  }

  /** A renewal failure recorded from prepare on has latched not-ready by the time the sync call is over. */
  lemma LossFromPrepareOnLatches(s: State)
    requires Reachable(s) && s.lossAfterPrepare && !Committed(s.pc)
    ensures Latched(s)
  {
    ReachableInv(s);
  }

  /** What is latched stays: the first failure is kept and readiness never returns. */
  ghost predicate KeepsLatch(s: State, s': State) {
    && (s.failure.Some? ==> s'.failure == s.failure) && (!s.ready ==> !s'.ready)
    && (s.lossAfterPrepare ==> s'.lossAfterPrepare)
  }

  lemma WorldKeepsLatch(s: State, e: Event)
    requires WorldEnabled(s, e)
    ensures KeepsLatch(s, WorldStep(s, e))
  {
    hide Ms, LeaseOk, Cancelled, Reason;
  }

  lemma SyncKeepsLatch(s: State, e: Event)
    requires SyncEnabled(s, e)
    ensures KeepsLatch(s, SyncStep(s, e))
  {
    hide Ms, LeaseOk, Cancelled, Reason;
  }

  lemma JobKeepsLatch(s: State, e: Event)
    requires JobEnabled(s, e)
    ensures KeepsLatch(s, JobStep(s, e))
  {
    hide Ms, LeaseOk, Cancelled, Reason;
  }

  lemma StepKeepsLatch(s: State, e: Event)
    ensures KeepsLatch(s, After(s, e))
  {
    hide WorldEnabled, SyncEnabled, JobEnabled, WorldStep, SyncStep, JobStep;
    if WorldEnabled(s, e) {
      WorldKeepsLatch(s, e);
    } else if SyncEnabled(s, e) {
      SyncKeepsLatch(s, e);
    } else if JobEnabled(s, e) {
      JobKeepsLatch(s, e);
    }
  }

  lemma {:induction false} LatchIsForGood(s: State, es: seq<Event>)
    ensures s.failure.Some? ==> Trace(s, es).failure == s.failure
    ensures !s.ready ==> !Trace(s, es).ready
    ensures s.lossAfterPrepare ==> Trace(s, es).lossAfterPrepare
    decreases |es|
  {
    hide After;
    if es != [] {
      StepKeepsLatch(s, es[0]);
      LatchIsForGood(After(s, es[0]), es[1..]);
    }
  }

  /**
   * From the record of such a failure on, in every continuation: whenever the sync thread is outside, the
   * replica is not ready, with a failure latched that no later one replaces.
   */
  lemma LossFromPrepareOnIsPermanent(s: State, es: seq<Event>, more: seq<Event>)
    requires Reachable(s) && s.lossAfterPrepare && !Committed(Trace(s, es).pc)
    ensures Latched(Trace(s, es))
    ensures Latched(Trace(Trace(s, es), more)) && Trace(Trace(s, es), more).failure == Trace(s, es).failure
  {
    hide After;
    ReachableInv(s);
    TraceKeepsInv(s, es);
    LatchIsForGood(s, es);
    LatchIsForGood(Trace(s, es), more);
  }

  /** Once not ready and out of adoption, adoption never starts again and the floor stays. */
  lemma {:induction false} LatchedNeverAdopts(s: State, es: seq<Event>)
    requires (s.pc.Outside? || s.pc.Joining?) && !s.ready
    ensures (Trace(s, es).pc.Outside? || Trace(s, es).pc.Joining?) && Trace(s, es).floor == s.floor
    decreases |es|
  {
    if es != [] {
      StepKeepsLatch(s, es[0]);
      LatchedNeverAdopts(After(s, es[0]), es[1..]);
    }
  }

  // ---------------------------------------------- the two gaps between the local lease and the store

  lemma {:induction false} TraceLast(s: State, es: seq<Event>, e: Event)
    ensures Trace(s, es + [e]) == After(Trace(s, es), e)
    decreases |es|
  {
    hide After;
    if es == [] {
      assert (es + [e])[1..] == [];
    } else {
      assert (es + [e])[1..] == es[1..] + [e];
      TraceLast(After(s, es[0]), es[1..], e);
    }
  }

  lemma ReachableStart(s: State)
    requires Init(s)
    ensures Reachable(s)
  {
    assert Trace(s, []) == s;
  }

  lemma ReachableStep(s: State, e: Event)
    requires Reachable(s)
    ensures Reachable(After(s, e))
  {
    hide After;
    var s0, es :| Init(s0) && Trace(s0, es) == s;
    TraceLast(s0, es, e);
  }

  /** Prepared at time `t`, with a pin taken at `start` and stored at once. */
  ghost function PreparedAt(start: nat, t: nat): State {
    State(t, Some(Job(Candidate(1, 2), Preparing, None, LeaseExpired, start + LEASE, Ms(start + LEASE), false, false,
                      false, Waiting, Watching)),
          Prepared, true, None, false, 2, 2, 0, false)
  }

  lemma PreparedIsReachable(start: nat, t: nat)
    requires start <= t
    ensures Reachable(PreparedAt(start, t))
  {
    hide Reachable, Trace, Ms;
    var s0 := State(start, None, Outside, true, None, false, 2, 2, 0, false);
    ReachableStart(s0);
    var j := Job(Candidate(1, 2), Verifying, None, LeaseExpired, start + LEASE, Ms(start + LEASE), false, false, false,
                 Waiting, Watching);
    ReachableStep(s0, StartJob(Candidate(1, 2), start, Ms(start + LEASE)));
    var s1 := s0.(job := Some(j));
    assert Reachable(s1);
    ReachableStep(s1, EnterSync);
    ReachableStep(s1.(pc := Entered), CheckLease);
    ReachableStep(s1.(pc := LeaseChecked), CheckTips);
    ReachableStep(s1.(pc := TipsChecked), CheckBase(true, false));
    ReachableStep(s1.(pc := BaseChecked), EnterPrepare);
    var s2 := s0.(job := Some(j.(phase := Preparing)), pc := InPrepare);
    ReachableStep(s2, PrepareReturns(None));
    ReachableStep(s2.(pc := Prepared), Tick(t));
  }

  lemma CloseDuringPrepare(s: State, j: Job)
    requires Reachable(s) && s.job == Some(j) && j.phase.Preparing? && j.renewer.Waiting? && j.verifier.Watching?
    requires s.shutdown
    ensures Reachable(s.(job := Some(j.(verifier := Gone, halt := true, renewer := Stopped, until := Ms(s.now)))))
  {
    hide Reachable, Trace, Ms;
    ReachableStep(s, VerifierWakes);
    var j1 := j.(verifier := ClosingPin, halt := true);
    assert Reachable(WithJob(s, j1));
    ReachableStep(WithJob(s, j1), RenewStops);
    var j2 := j1.(renewer := Stopped);
    assert Reachable(WithJob(s, j2));
    ReachableStep(WithJob(s, j2), VerifierCloses(Ms(s.now)));
  }

  /** Prepared, then shut down, and the pin closed by the verifier. */
  ghost function ClosedAt(start: nat, t: nat): State {
    var s := PreparedAt(start, t).(shutdown := true, ready := false);
    s.(job := Some(s.job.value.(verifier := Gone, halt := true, renewer := Stopped, until := Ms(t))))
  }

  lemma ClosedIsReachable(start: nat, t: nat)
    requires start <= t
    ensures Reachable(ClosedAt(start, t))
  {
    hide Reachable, Trace, Ms;
    PreparedIsReachable(start, t);
    ReachableStep(PreparedAt(start, t), Shutdown);
    var s := PreparedAt(start, t).(shutdown := true, ready := false);
    CloseDuringPrepare(s, s.job.value);
  }

  /** What the sync thread can see when it is about to start compaction. */
  ghost predicate Sees(s: State, now: nat, deadline: nat, shutdown: bool) {
    s.now == now && s.job.Some? && s.job.value.deadline == deadline && s.shutdown == shutdown
  }

  ghost predicate AliveWheneverStarted(now: nat, deadline: nat, shutdown: bool) {
    forall s, e | Starts(s, e) && Reachable(s) && Sees(s, now, deadline, shutdown) :: s.job.value.until > Ms(now)
  }

  /**
   * The stored pin is unexpired at every start of compaction with a given view exactly when the replica is not
   * shutting down and the deadline lies in a later millisecond: after a shutdown the verifier may have closed the
   * pin, and in the deadline's own millisecond the store, which keeps whole milliseconds, counts it as expired.
   */
  lemma PinAliveIff(now: nat, deadline: nat, shutdown: bool)
    requires LEASE <= deadline && deadline - LEASE <= now < deadline
    ensures AliveWheneverStarted(now, deadline, shutdown) <==> !shutdown && Ms(now) < Ms(deadline)
  {
    hide Reachable, Trace, Ms;
    var start := deadline - LEASE;
    if shutdown {
      ClosedIsReachable(start, now);
      assert Starts(ClosedAt(start, now), EnterCompact) && Sees(ClosedAt(start, now), now, deadline, shutdown);
    } else if Ms(now) >= Ms(deadline) {
      PreparedIsReachable(start, now);
      assert Starts(PreparedAt(start, now), EnterCompact) && Sees(PreparedAt(start, now), now, deadline, shutdown);
    } else {
      forall s, e | Starts(s, e) && Reachable(s) && Sees(s, now, deadline, shutdown)
        ensures s.job.value.until > Ms(now)
      {
        CompactionStartsSafely(s, e);
      }
    }
  }

  // -------------------------------------------------------------------------- an adoption left alone

  ghost predicate Leads(s: State, t: State) { exists es :: Trace(s, es) == t }

  lemma LeadsNowhere(s: State)
    ensures Leads(s, s)
  {
    assert Trace(s, []) == s;
  }

  lemma LeadsOn(s: State, t: State, e: Event)
    requires Leads(s, t)
    ensures Leads(s, After(t, e))
  {
    hide After;
    var es :| Trace(s, es) == t;
    TraceLast(s, es, e);
  }

  /** A job as it is handed over. */
  function FreshJob(c: Candidate, leaseStart: nat, until: nat): Job {
    Job(c, Verifying, None, LeaseExpired, leaseStart + LEASE, until, false, false, false, Waiting, Watching)
  }

  /** The checks pass exactly with a running lease, both tips past the deciding slot and a seal above the floor. */
  lemma ChecksPass(s: State, t: State, j: Job) returns (u: State)
    requires Leads(s, t) && t.job == Some(j) && t.pc.Outside? && t.ready && t.failure.None?
    requires j.lostIn.None? && t.now < j.deadline && t.tip >= j.candidate.slot && t.material >= j.candidate.slot
    requires j.candidate.seal > t.floor
    ensures Leads(s, u) && u == t.(pc := InPrepare, job := Some(j.(phase := Preparing)))
  {
    hide Leads, Ms;
    LeadsOn(s, t, EnterSync);
    var t1 := t.(pc := Entered);
    assert After(t, EnterSync) == t1;
    LeadsOn(s, t1, CheckLease);
    var t2 := t.(pc := LeaseChecked);
    assert After(t1, CheckLease) == t2;
    LeadsOn(s, t2, CheckTips);
    var t3 := t.(pc := TipsChecked);
    assert After(t2, CheckTips) == t3;
    u := BaseChecks(s, t3, j);
  }

  lemma BaseChecks(s: State, t: State, j: Job) returns (u: State)
    requires Leads(s, t) && t.job == Some(j) && t.pc.TipsChecked? && j.lostIn.None? && t.now < j.deadline
    requires j.candidate.seal > t.floor
    ensures Leads(s, u) && u == t.(pc := InPrepare, job := Some(j.(phase := Preparing)))
  {
    hide Leads, Ms;
    LeadsOn(s, t, CheckBase(true, false));
    var t1 := t.(pc := BaseChecked);
    assert After(t, CheckBase(true, false)) == t1;
    LeadsOn(s, t1, EnterPrepare);
    u := After(t1, EnterPrepare);
  }

  /** Prepared and compacted without a failure: the floor is the candidate's seal. */
  lemma Compacts(s: State, t: State, j: Job) returns (u: State)
    requires Leads(s, t) && t.job == Some(j) && t.pc.InPrepare? && j.lostIn.None? && t.now < j.deadline
    requires j.renewer.Waiting?
    ensures Leads(s, u) && u == t.(pc := StoppingJob, floor := j.candidate.seal,
                                   job := Some(j.(phase := Verifying, halt := true, renewer := Stopped)))
  {
    hide Leads, Ms;
    LeadsOn(s, t, PrepareReturns(None));
    var t1 := t.(pc := Prepared);
    assert After(t, PrepareReturns(None)) == t1;
    LeadsOn(s, t1, EnterCompact);
    var t2 := t.(pc := InCompact, job := Some(j.(phase := Compacting)));
    assert After(t1, EnterCompact) == t2;
    LeadsOn(s, t2, CompactReturns(None));
    var j3 := j.(phase := Compacting, halt := true);
    var t3 := t.(pc := Compacted(None), floor := j.candidate.seal, job := Some(j3));
    assert After(t2, CompactReturns(None)) == t3;
    u := LeavesCompact(s, t3, j3);
  }

  lemma LeavesCompact(s: State, t: State, j: Job) returns (u: State)
    requires Leads(s, t) && t.job == Some(j) && t.pc == Compacted(None)
    requires j.lostIn.None? && j.renewer.Waiting? && j.halt
    ensures Leads(s, u) && u == t.(pc := StoppingJob, job := Some(j.(phase := Verifying, renewer := Stopped)))
  {
    hide Leads, Ms;
    LeadsOn(s, t, RenewStops);
    var t1 := t.(job := Some(j.(renewer := Stopped)));
    assert After(t, RenewStops) == t1;
    LeadsOn(s, t1, LeaveCompact);
    u := After(t1, LeaveCompact);
  }

  /** The job is stopped and joined, and its pin closed. */
  lemma JobEnds(s: State, t: State, j: Job) returns (u: State)
    requires Leads(s, t) && t.job == Some(j) && (t.pc.StoppingJob? || t.pc.Outside?)
    requires j.renewer.Stopped? && j.verifier.Watching?
    ensures Leads(s, u) && u == t.(pc := Outside, job := None)
  {
    hide Leads, Ms;
    LeadsOn(s, t, StopJob);
    var j1 := j.(cancelled := true, finish := true);
    var t1 := t.(pc := Joining, job := Some(j1));
    assert After(t, StopJob) == t1;
    u := StoppedJobEnds(s, t1, j1);
  }

  lemma StoppedJobEnds(s: State, t: State, j: Job) returns (u: State)
    requires Leads(s, t) && t.job == Some(j) && t.pc.Joining? && j.finish && j.renewer.Stopped? && j.verifier.Watching?
    ensures Leads(s, u) && u == t.(pc := Outside, job := None)
  {
    hide Leads, Ms, LeaseOk;
    LeadsOn(s, t, VerifierWakes);
    var j1 := j.(verifier := ClosingPin, halt := true);
    var t1 := t.(job := Some(j1));
    assert After(t, VerifierWakes) == t1;
    LeadsOn(s, t1, VerifierCloses(Ms(t.now)));
    var t2 := t.(job := Some(j1.(verifier := Gone, until := Ms(t.now))));
    assert After(t1, VerifierCloses(Ms(t.now))) == t2;
    LeadsOn(s, t2, JoinJob);
    u := After(t2, JoinJob);
  }

  /**
   * Left alone, a ready replica adopts any candidate sealed above its floor whose deciding slot both tips have passed,
   * under a lease that still runs: its floor becomes the seal, it stays ready, and it is free for the next one.
   */
  lemma AdoptionAlone(s: State, c: Candidate, leaseStart: nat, until: nat) returns (t: State)
    requires s.job.None? && s.pc.Outside? && s.ready && s.failure.None? && 0 < c.seal < c.slot
    requires leaseStart <= s.now < leaseStart + LEASE && Ms(leaseStart + LEASE) <= until
    requires s.tip >= c.slot && s.material >= c.slot && c.seal > s.floor
    ensures Leads(s, t) && t == s.(floor := c.seal)
  {
    hide Leads, Ms;
    LeadsNowhere(s);
    var j := FreshJob(c, leaseStart, until);
    LeadsOn(s, s, StartJob(c, leaseStart, until));
    var t1 := s.(job := Some(j));
    assert After(s, StartJob(c, leaseStart, until)) == t1;
    var t2 := ChecksPass(s, t1, j);
    var t3 := Compacts(s, t2, j.(phase := Preparing));
    t := JobEnds(s, t3, t3.job.value);
  }

  /** A renewal that succeeds in time runs the lease for its full length from when it was started. */
  lemma RenewalAlone(s: State, j: Job, until: nat, err: Failure) returns (t: State)
    requires s.job == Some(j) && j.renewer.Waiting? && s.now < j.deadline
    requires j.until <= until && Ms(s.now + LEASE) <= until
    ensures Leads(s, t) && t == s.(job := Some(j.(deadline := s.now + LEASE, until := until)))
  {
    hide Leads, Ms;
    LeadsNowhere(s);
    LeadsOn(s, s, RenewTick);
    var t1 := s.(job := Some(j.(renewer := Renewing(s.now))));
    assert After(s, RenewTick) == t1;
    LeadsOn(s, t1, RenewReturns(true, err, until));
    t := After(t1, RenewReturns(true, err, until));
  }

  /** In every run the confirmed lease ends a full length after some moment that had passed when it was confirmed. */
  ghost predicate LeaseBounded(s: State) {
    s.job.Some? ==>
      && s.job.value.deadline <= s.now + LEASE
      && (s.job.value.renewer.Renewing? ==> s.job.value.renewer.started <= s.now)
  }

  lemma StepKeepsLease(s: State, e: Event)
    requires LeaseBounded(s)
    ensures LeaseBounded(After(s, e))
  {
    hide WorldStep, SyncStep, JobStep, LeaseBounded;
    if WorldEnabled(s, e) {
      WorldKeepsLease(s, e);
    } else if SyncEnabled(s, e) {
      SyncKeepsLease(s, e);
    } else if JobEnabled(s, e) {
      JobKeepsLease(s, e);
    }
  }

  lemma WorldKeepsLease(s: State, e: Event)
    requires LeaseBounded(s) && WorldEnabled(s, e)
    ensures LeaseBounded(WorldStep(s, e))
  {
    hide Ms;
  }

  lemma SyncKeepsLease(s: State, e: Event)
    requires LeaseBounded(s) && SyncEnabled(s, e)
    ensures LeaseBounded(SyncStep(s, e))
  {
    hide Ms, LeaseOk, Cancelled, Reason;
  }

  lemma JobKeepsLease(s: State, e: Event)
    requires LeaseBounded(s) && JobEnabled(s, e)
    ensures LeaseBounded(JobStep(s, e))
  {
    hide Ms, LeaseOk, Cancelled, Reason;
  }

  lemma {:induction false} TraceKeepsLease(s: State, es: seq<Event>)
    requires LeaseBounded(s)
    ensures LeaseBounded(Trace(s, es))
    decreases |es|
  {
    hide After, LeaseBounded;
    if es != [] {
      StepKeepsLease(s, es[0]);
      TraceKeepsLease(After(s, es[0]), es[1..]);
    }
  }

  lemma LeaseNeverOutlastsItsLength(s: State)
    requires Reachable(s) && s.job.Some?
    ensures s.job.value.deadline <= s.now + LEASE
  {
    hide After;
    var s0, es :| Init(s0) && Trace(s0, es) == s;
    TraceKeepsLease(s0, es);
  }

  /** A loss before prepare costs the job, not the replica: it stays ready and may start over. */
  lemma EarlyLossAlone(s: State, j: Job, err: Failure, until: nat) returns (t: State)
    requires s.job == Some(j) && s.pc.Outside? && j.phase.Verifying? && j.renewer.Waiting? && j.verifier.Watching?
    requires j.until <= until
    ensures Leads(s, t) && t == s.(job := None)
  {
    hide Leads, Ms;
    LeadsNowhere(s);
    LeadsOn(s, s, RenewTick);
    var t1 := s.(job := Some(j.(renewer := Renewing(s.now))));
    assert After(s, RenewTick) == t1;
    var t2 := LossIsReactedTo(s, t1, t1.job.value, err, until);
    t := JobEnds(s, t2, t2.job.value);
    assert t == s.(job := None);
  }

  lemma LossIsReactedTo(s: State, t: State, j: Job, err: Failure, until: nat) returns (u: State)
    requires Leads(s, t) && t.job == Some(j) && j.phase.Verifying? && j.renewer.Renewing? && j.until <= until
    ensures Leads(s, u)
    ensures u == t.(job := Some(j.(lostIn := Some(Verifying), leaseErr := err, until := until, renewer := Stopped,
                                   cancelled := true)))
  {
    hide Leads, Ms, LeaseOk;
    LeadsOn(s, t, RenewReturns(false, err, until));
    var j1 := j.(lostIn := Some(Verifying), leaseErr := err, until := until, renewer := Reacting(Verifying));
    var t1 := t.(job := Some(j1));
    assert After(t, RenewReturns(false, err, until)) == t1;
    LeadsOn(s, t1, RenewReacts);
    u := After(t1, RenewReacts);
  }

  /** The floor only ever moves to the seal of the job being compacted, and that lies above it. */
  lemma FloorRises(s: State, e: Event)
    requires Reachable(s) && After(s, e).floor != s.floor
    ensures e == CompactReturns(None) && s.pc.InCompact? && s.job.Some?
    ensures After(s, e).floor == s.job.value.candidate.seal > s.floor
  {
    hide After;
    ReachableInv(s);
    FloorMoves(s, e);
  }

  lemma FloorMoves(s: State, e: Event)
    requires After(s, e).floor != s.floor
    ensures e == CompactReturns(None) && s.pc.InCompact? && s.job.Some?
    ensures After(s, e).floor == s.job.value.candidate.seal
  {
    hide Ms, LeaseOk, Cancelled, Reason;
  }

  lemma LatchesWhy(s: State, t: State, j: Job, why: Failure) returns (u: State)
    requires Leads(s, t) && t.job == Some(j) && t.pc == Latching(why) && t.failure.None?
    ensures Leads(s, u) && u == t.(pc := StoppingJob, failure := Some(why), ready := false)
  {
    hide Leads, Ms, LeaseOk;
    LeadsOn(s, t, LatchFailure);
    var t1 := t.(pc := StoringNotReady, failure := Some(why));
    assert After(t, LatchFailure) == t1;
    LeadsOn(s, t1, StoreNotReady);
    u := After(t1, StoreNotReady);
  }

  /** A failed prepare, and a lease found lost or run out after it, latch just that failure. */
  lemma FailureIsLatched(s: State, j: Job, failed: Option<Failure>) returns (t: State)
    requires s.job == Some(j) && s.failure.None? && (s.pc.InPrepare? || s.pc.Prepared?)
    requires s.pc.InPrepare? ==> failed.Some?
    requires s.pc.Prepared? ==> j.lostIn.Some? || s.now >= j.deadline
    ensures Leads(s, t) && !t.ready && t.pc.StoppingJob? && t.floor == s.floor
    ensures t.failure == if s.pc.InPrepare? then failed
                         else if j.lostIn.Some? then Some(j.leaseErr) else Some(LeaseExpired)
  {
    hide Leads, Ms;
    LeadsNowhere(s);
    var e := if s.pc.InPrepare? then PrepareReturns(failed) else EnterCompact;
    LeadsOn(s, s, e);
    var why := if s.pc.InPrepare? then failed.value else if j.lostIn.Some? then j.leaseErr else LeaseExpired;
    var t1 := s.(pc := Latching(why));
    assert After(s, e) == t1;
    t := LatchesWhy(s, t1, j, why);
  }
}
