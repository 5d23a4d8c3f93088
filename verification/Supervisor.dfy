/**
 * One fencing supervisor (pkg/fencing/supervisor.go) driving the shared ledger over an authority
 * whose replies can be lost. A lost call stays in `inFlight` and may be applied at any later
 * moment, any number of times. Every other party acts through environment transitions; none of
 * them speaks for this supervisor's run, whose identifier is a fresh random nonce.
 */
module Supervisor {
  import opened FencingLedger
  import opened FencingProtocol
  import opened FencingTheorems
  import opened Options

  datatype Phase =
    | Starting                                            // before Register
    | Serving                                             // child running, select loop
    | ChildExited                                         // finishExitedChild entered
    | Finishing(receipt: DrainReceipt)                    // finishDrain entered
    | AskingStop(receipt: DrainReceipt, caller: Identity)
    | SendingDrain(receipt: DrainReceipt)
    | WaitingChild(receipt: DrainReceipt)
    | EmptyingNamespace(receipt: DrainReceipt)
    | SendingExit(receipt: DrainReceipt)
    | NeverBound                                          // recordNeverBoundExit entered
    | AskingUnboundStop(caller: Identity)
    | EmptyingUnbound(request: StopRequest)
    | SendingNeverBound(request: StopRequest)
    | Finished(ok: bool)

  /** A /v1/drained request in progress: its receipt, the identity it captured, and whether the
      authority's stop has matched it. */
  datatype DrainCall = DrainCall(receipt: DrainReceipt, caller: Identity, matched: bool)

  datatype State = State(
    ledger: LedgerState,
    identity: Identity,             // as registered: no WAL yet
    bound: Identity,                // s.bound
    drain: Option<DrainReceipt>,    // s.drain
    binding: Option<Identity>,      // a bind call in progress; it holds the mutex
    drainCalls: set<DrainCall>,
    phase: Phase,
    waited: bool,                   // the direct child has been waited on
    emptied: bool,                  // the private namespace was then found empty
    inFlight: set<Transition>)

  /** A reply arrives (the call took effect just before), or is lost. */
  datatype Reply = Answered | Lost

  datatype Event =
    | RegisterCall(reply: Reply)
    | NaturalExit
    | TakeReceipt
    | Tick
    | BeginFinish
    | StopCall(reply: Reply)
    | DrainCallOut(reply: Reply)
    | WaitChild
    | EmptyNamespace
    | ExitCall(reply: Reply)
    | GiveUp                              // context cancelled, kill or namespace check failed
    | BindBegin(wal: Identity)
    | BindEnd(reply: Reply)
    | DrainedBegin(receipt: DrainReceipt)
    | DrainedStop(call: DrainCall, reply: Reply)
    | DrainedStore(call: DrainCall)
    | Land(t: Transition)                 // a lost call is applied
    | Environment(t: Transition)

  /** The authority's stop lookup (pkg/operator/fencing_executor.go). */
  function StopLookup(l: LedgerState, caller: Identity): Option<StopRequest> {
    if caller.runID in l.runs && l.runs[caller.runID].identity == caller then l.runs[caller.runID].stop else None
  }

  /** The run a transition speaks for; closing operations speak for none. */
  function SpeaksFor(t: Transition): Option<string> {
    match t
    case Register(identity) => Some(identity.runID)
    case Bind(identity) => Some(identity.runID)
    case RecordDrain(receipt) => Some(receipt.request.identity.runID)
    case RecordExit(request) => Some(request.identity.runID)
    case RecordNeverBoundExit(request) => Some(request.identity.runID)
    case CloseNodes(_, _, _) => None
    case Close(_, _) => None
  }

  predicate MutexFree(s: State) { s.binding.None? }

  /** finishDrain's precondition check. */
  predicate ReceiptUsable(receipt: DrainReceipt, caller: Identity) {
    receipt.Clean() && receipt.request.identity == caller && caller.walIdentity != ""
    && receipt.request.operationID != "" && receipt.request.requestHash != ""
  }

  predicate BindAllowed(s: State, wal: Identity) {
    wal.walIdentity != "" && wal.(walIdentity := s.bound.walIdentity) == s.bound
    && (s.bound.walIdentity == "" || s.bound.walIdentity == wal.walIdentity)
  }

  predicate Enabled(s: State, e: Event) {
    match e
    case RegisterCall(_) => s.phase.Starting?
    case NaturalExit => s.phase.Serving?
    case TakeReceipt => s.phase.ChildExited? && MutexFree(s)
    case Tick => s.phase.Serving? && MutexFree(s) && s.drain.Some? && s.drain.value.Clean()
    case BeginFinish => (s.phase.Finishing? || s.phase.NeverBound?) && MutexFree(s)
    case StopCall(_) => s.phase.AskingStop? || s.phase.AskingUnboundStop?
    case DrainCallOut(_) => s.phase.SendingDrain?
    case WaitChild => s.phase.WaitingChild?
    case EmptyNamespace => s.phase.EmptyingNamespace? || s.phase.EmptyingUnbound?
    case ExitCall(_) => s.phase.SendingExit? || s.phase.SendingNeverBound?
    case GiveUp => true
    case BindBegin(_) => MutexFree(s) && !s.phase.Starting?
    case BindEnd(_) => s.binding.Some?
    case DrainedBegin(_) => MutexFree(s) && !s.phase.Starting?
    case DrainedStop(call, _) => call in s.drainCalls && !call.matched
    case DrainedStore(call) => call in s.drainCalls && call.matched && MutexFree(s)
    case Land(t) => t in s.inFlight
    case Environment(t) => SpeaksFor(t) != Some(s.identity.runID)
  }

  /** One authority call: applied and answered, or lost and left in flight. */
  ghost function Call(s: State, t: Transition, reply: Reply): State {
    if reply.Answered? then s.(ledger := Next(s.ledger, t)) else s.(inFlight := s.inFlight + {t})
  }

  ghost function Step(s: State, e: Event): State
    requires Enabled(s, e)
  {
    match e
    case RegisterCall(reply) =>
      var t := Register(s.identity);
      var s' := Call(s, t, reply);
      if reply.Answered? && Error(s.ledger, t).None? then s'.(phase := Serving) else s'.(phase := Finished(false))
    case NaturalExit => s.(phase := ChildExited, waited := true)
    case TakeReceipt => s.(phase := if s.drain.Some? then Finishing(s.drain.value) else NeverBound)
    case Tick => s.(phase := Finishing(s.drain.value))
    case BeginFinish =>
      if s.phase.Finishing? then
        s.(phase := if ReceiptUsable(s.phase.receipt, s.bound) then AskingStop(s.phase.receipt, s.bound)
                    else Finished(false))
      else
        s.(phase := if s.bound.walIdentity == "" then AskingUnboundStop(s.bound) else Finished(false))
    case StopCall(reply) =>
      if reply.Lost? then s
      else
        var found := StopLookup(s.ledger, s.phase.caller);
        if s.phase.AskingStop? then
          s.(phase := if found == Some(s.phase.receipt.request) then SendingDrain(s.phase.receipt) else Finished(false))
        else if found.Some? && found.value.identity == s.phase.caller && found.value.identity.walIdentity == ""
                && found.value.operationID != "" && found.value.requestHash != "" then
          s.(phase := EmptyingUnbound(found.value))
        else s.(phase := Finished(false))
    case DrainCallOut(reply) =>
      var t := RecordDrain(s.phase.receipt);
      var s' := Call(s, t, reply);
      if reply.Lost? then s'
      else s'.(phase := if Error(s.ledger, t).None? then WaitingChild(s.phase.receipt) else Finished(false))
    case WaitChild => s.(phase := EmptyingNamespace(s.phase.receipt), waited := true)
    case EmptyNamespace =>
      s.(emptied := true,
         phase := if s.phase.EmptyingNamespace? then SendingExit(s.phase.receipt)
                  else SendingNeverBound(s.phase.request))
    case ExitCall(reply) =>
      var t := if s.phase.SendingExit? then RecordExit(s.phase.receipt.request)
               else RecordNeverBoundExit(s.phase.request);
      var s' := Call(s, t, reply);
      if reply.Lost? then s' else s'.(phase := Finished(Error(s.ledger, t).None?))
    case GiveUp => if s.phase.Finished? then s else s.(phase := Finished(false))
    case BindBegin(wal) => if BindAllowed(s, wal) then s.(binding := Some(wal)) else s
    case BindEnd(reply) =>
      var t := Bind(s.binding.value);
      var s' := Call(s, t, reply).(binding := None);
      if reply.Answered? && Error(s.ledger, t).None? then s'.(bound := s.binding.value) else s'
    case DrainedBegin(receipt) => s.(drainCalls := s.drainCalls + {DrainCall(receipt, s.bound, false)})
    case DrainedStop(call, reply) =>
      if reply.Answered? && StopLookup(s.ledger, call.caller) == Some(call.receipt.request)
      then s.(drainCalls := s.drainCalls - {call} + {call.(matched := true)})
      else s.(drainCalls := s.drainCalls - {call})
    case DrainedStore(call) =>
      s.(drainCalls := s.drainCalls - {call}, drain := if s.drain.None? then Some(call.receipt) else s.drain)
    case Land(t) => s.(ledger := Next(s.ledger, t))
    case Environment(t) => s.(ledger := Next(s.ledger, t))
  }

  ghost function After(s: State, e: Event): State {
    if Enabled(s, e) then Step(s, e) else s
  }

  ghost function Trace(s: State, es: seq<Event>): State
    decreases |es|
  {
    if es == [] then s else Trace(After(s, es[0]), es[1..])
  }

  /** A supervisor about to register a fresh run on any reachable ledger. */
  ghost predicate Init(s: State) {
    && Reachable(s.ledger) && s.identity.runID !in s.ledger.runs
    && s.identity.walIdentity == "" && s.bound == s.identity
    && s.drain.None? && s.binding.None? && s.drainCalls == {} && s.phase == Starting
    && !s.waited && !s.emptied && s.inFlight == {}
  }

  // ----------------------------------------------------------------------------- the invariant

  ghost predicate OwnIdentity(s: State, i: Identity) {
    i.(walIdentity := "") == s.identity
  }

  /** The receipt a drain exit is being built on. */
  function Committed(p: Phase): Option<DrainReceipt> {
    match p
    case AskingStop(r, _) => Some(r)
    case SendingDrain(r) => Some(r)
    case WaitingChild(r) => Some(r)
    case EmptyingNamespace(r) => Some(r)
    case SendingExit(r) => Some(r)
    case _ => None
  }

  predicate Unbinding(p: Phase) {
    p.AskingUnboundStop? || p.EmptyingUnbound? || p.SendingNeverBound?
  }

  /** No exit evidence of any kind has been produced for this run yet. */
  predicate BeforeEvidence(p: Phase) {
    p.Starting? || p.Serving? || p.ChildExited? || p.Finishing? || p.NeverBound? || p.AskingStop?
    || p.AskingUnboundStop?
  }

  /** What may be in flight or already applied on behalf of this run. */
  ghost predicate OwnMessage(s: State, t: Transition) {
    match t
    case Register(i) => i == s.identity
    case Bind(i) => OwnIdentity(s, i)
    case RecordDrain(r) => r.Clean() && r.request.identity.runID == s.identity.runID
    case RecordExit(q) => q.identity.runID == s.identity.runID && s.waited && s.emptied
    case RecordNeverBoundExit(q) =>
      q.identity.runID == s.identity.runID && q.identity.walIdentity == "" && s.waited && s.emptied
    case _ => false
  }

  ghost predicate Bounded(s: State) {
    && s.identity.walIdentity == "" && OwnIdentity(s, s.bound)
    && (s.binding.Some? ==> BindAllowed(s, s.binding.value))
    && (s.bound.walIdentity != "" ==> s.identity.runID in s.ledger.runs
                                      && s.ledger.runs[s.identity.runID].identity == s.bound)
  }

  /** The ledger's own record of this run. */
  ghost predicate RecordSound(s: State) {
    s.identity.runID in s.ledger.runs ==>
      var run := s.ledger.runs[s.identity.runID];
      && OwnIdentity(s, run.identity)
      && (run.drain.Some? ==> run.drain.value.Clean())
      && (run.exited ==> s.waited && s.emptied)
  }

  ghost predicate PhaseSound(s: State) {
    var k := s.identity.runID;
    && (s.phase.ChildExited? || s.phase.NeverBound? || Unbinding(s.phase) ==> s.waited)
    && (s.phase.EmptyingNamespace? || s.phase.SendingExit? ==> s.waited)
    && (s.phase.SendingExit? || s.phase.SendingNeverBound? ==> s.emptied)
    && (Committed(s.phase).Some? ==> ReceiptUsable(Committed(s.phase).value, s.bound))
    && (s.phase.AskingStop? ==> s.phase.caller == s.bound)
    && (s.phase.AskingUnboundStop? ==> OwnIdentity(s, s.phase.caller) && s.phase.caller.walIdentity == "")
    && (s.phase == Finished(true) ==> k in s.ledger.runs && s.ledger.runs[k].exited)
  }

  /** Nothing contradicts the evidence the supervisor is about to send. */
  ghost predicate EvidenceSound(s: State) {
    var k := s.identity.runID;
    && (BeforeEvidence(s.phase) || Unbinding(s.phase) ==>
          && (forall t | t in s.inFlight :: !t.RecordDrain?)
          && (k in s.ledger.runs ==> s.ledger.runs[k].drain.None?))
    && (BeforeEvidence(s.phase) || Committed(s.phase).Some? ==>
          && (forall t | t in s.inFlight :: !t.RecordNeverBoundExit?)
          && (k in s.ledger.runs ==> s.ledger.runs[k].neverBoundExit.None?))
    && (Committed(s.phase).Some? && !s.phase.AskingStop? ==>
          var r := Committed(s.phase).value;
          && k in s.ledger.runs && s.ledger.runs[k].stop == Some(r.request)
          && (forall t | t in s.inFlight && t.RecordDrain? :: t.receipt == r)
          && (s.ledger.runs[k].drain.Some? ==> s.ledger.runs[k].drain == Some(r))
          && (!s.phase.SendingDrain? ==> s.ledger.runs[k].drain == Some(r)))
    && (s.phase.EmptyingUnbound? || s.phase.SendingNeverBound? ==>
          && k in s.ledger.runs && s.ledger.runs[k].stop == Some(s.phase.request)
          && s.phase.request.identity.walIdentity == "")
  }

  ghost predicate SupInv(s: State) {
    && Inv(s.ledger) && Bounded(s) && RecordSound(s) && PhaseSound(s) && EvidenceSound(s)
    && (forall t | t in s.inFlight :: OwnMessage(s, t))
    && (s.phase.Starting? ==> s.identity.runID !in s.ledger.runs && s.inFlight == {} && s.binding.None?)
  }

  // ------------------------------------------------------------------------ preservation, by parts

  /** A change of one run's record names the transition that made it. */
  ghost predicate MovedBy(t: Transition, k: string, a: Run, b: Run) {
    && (b.identity != a.identity ==> t.Bind? && t.identity.runID == k && b.identity == t.identity)
    && (b.drain != a.drain ==> t.RecordDrain? && t.receipt.request.identity.runID == k && b.drain == Some(t.receipt))
    && (b.exited && !a.exited ==> (t.RecordExit? || t.RecordNeverBoundExit?) && t.request.identity.runID == k)
    && (b.neverBoundExit != a.neverBoundExit ==> t.RecordNeverBoundExit? && t.request.identity.runID == k)
  }

  lemma NextMovesRun(l: LedgerState, t: Transition, k: string)
    requires Inv(l)
    ensures k in Next(l, t).runs && k !in l.runs ==> t.Register? && t.identity.runID == k
                                                     && Next(l, t).runs[k] == NewRun(t.identity)
    ensures k in l.runs ==> k in Next(l, t).runs && MovedBy(t, k, l.runs[k], Next(l, t).runs[k])
  {
    if Error(l, t).None? {
      if EvidenceStep(t) {
        EvidenceMovesRun(l, t, k);
      } else {
        AdmissionMovesRun(l, t, k);
      }
    }
  }

  lemma EvidenceMovesRun(l: LedgerState, t: Transition, k: string)
    requires Inv(l) && EvidenceStep(t) && Error(l, t).None?
    ensures Next(l, t).runs.Keys == l.runs.Keys
    ensures k in l.runs ==> MovedBy(t, k, l.runs[k], Next(l, t).runs[k])
  {
    assert RunWellFormed(l, EvidenceRun(t), l.runs[EvidenceRun(t)]);
  }

  lemma AdmissionMovesRun(l: LedgerState, t: Transition, k: string)
    requires !EvidenceStep(t) && Error(l, t).None?
    ensures k in Next(l, t).runs && k !in l.runs ==> t.Register? && t.identity.runID == k
                                                     && Next(l, t).runs[k] == NewRun(t.identity)
    ensures k in l.runs ==> k in Next(l, t).runs && MovedBy(t, k, l.runs[k], Next(l, t).runs[k])
  {
  }

  /** When applying a transition to the ledger cannot contradict the supervisor. */
  ghost predicate Compatible(s: State, t: Transition) {
    && !s.phase.Starting?
    && (OwnMessage(s, t) || SpeaksFor(t) != Some(s.identity.runID))
    && (SpeaksFor(t) == Some(s.identity.runID) && t.RecordDrain? ==>
          !BeforeEvidence(s.phase) && !Unbinding(s.phase)
          && (Committed(s.phase).Some? ==> t.receipt == Committed(s.phase).value))
    && (SpeaksFor(t) == Some(s.identity.runID) && t.RecordNeverBoundExit? ==>
          !BeforeEvidence(s.phase) && Committed(s.phase).None?)
  }

  /** How a ledger may have moved about this supervisor's run. */
  ghost predicate RunMoved(s: State, t: Transition, l: LedgerState) {
    var k := s.identity.runID;
    && (k in l.runs && k !in s.ledger.runs ==> t.Register? && t.identity.runID == k && l.runs[k] == NewRun(t.identity))
    && (k in s.ledger.runs ==>
          && k in l.runs && RunEvolves(s.ledger.runs[k], l.runs[k]) && MovedBy(t, k, s.ledger.runs[k], l.runs[k]))
  }

  lemma NextMoved(s: State, t: Transition)
    requires Inv(s.ledger)
    ensures Inv(Next(s.ledger, t)) && RunMoved(s, t, Next(s.ledger, t))
  {
    hide Inv, Error, Effect, RunEvolves, MovedBy;
    NextKeepsInv(s.ledger, t);
    NextEvolves(s.ledger, t);
    NextMovesRun(s.ledger, t, s.identity.runID);
  }

  lemma MovedRecordSound(s: State, t: Transition, l: LedgerState)
    requires SupInv(s) && Compatible(s, t) && RunMoved(s, t, l)
    ensures Bounded(s.(ledger := l)) && RecordSound(s.(ledger := l))
  {
    hide Inv, EvidenceSound;
  }

  lemma MovedEvidenceSound(s: State, t: Transition, l: LedgerState)
    requires SupInv(s) && Compatible(s, t) && RunMoved(s, t, l)
    ensures PhaseSound(s.(ledger := l)) && EvidenceSound(s.(ledger := l))
  {
    hide Inv, Bounded, RecordSound;
  }

  lemma MovedMessagesOwn(s: State, t: Transition, l: LedgerState)
    requires SupInv(s) && Compatible(s, t) && RunMoved(s, t, l)
    ensures forall m | m in s.inFlight :: OwnMessage(s.(ledger := l), m)
  {
    hide Inv, EvidenceSound, PhaseSound;
    assert forall m | m in s.inFlight :: OwnMessage(s, m);
  }

  lemma ApplyKeepsInv(s: State, t: Transition)
    requires SupInv(s) && Compatible(s, t)
    ensures SupInv(s.(ledger := Next(s.ledger, t)))
  {
    hide Inv, Next, Bounded, RecordSound, PhaseSound, EvidenceSound, OwnMessage, RunMoved;
    var l := Next(s.ledger, t);
    NextMoved(s, t);
    MovedRecordSound(s, t, l);
    MovedEvidenceSound(s, t, l);
    MovedMessagesOwn(s, t, l);
  }

  lemma LandKeepsInv(s: State, t: Transition)
    requires SupInv(s) && t in s.inFlight
    ensures SupInv(s.(ledger := Next(s.ledger, t)))
  {
    assert OwnMessage(s, t);
    ApplyKeepsInv(s, t);
  }

  lemma EnvironmentKeepsInv(s: State, t: Transition)
    requires SupInv(s) && SpeaksFor(t) != Some(s.identity.runID)
    ensures SupInv(s.(ledger := Next(s.ledger, t)))
  {
    if s.phase.Starting? {
      NextKeepsInv(s.ledger, t);
      NextMovesRun(s.ledger, t, s.identity.runID);
    } else {
      ApplyKeepsInv(s, t);
    }
  }

  /** Moving to a phase whose obligations are met. */
  lemma PhaseKeepsInv(s: State, p: Phase, waited: bool, emptied: bool)
    requires SupInv(s) && !p.Starting? && (s.waited ==> waited) && (s.emptied ==> emptied)
    requires var s' := s.(phase := p, waited := waited, emptied := emptied); PhaseSound(s') && EvidenceSound(s')
    ensures SupInv(s.(phase := p, waited := waited, emptied := emptied))
  {
    hide Inv, Error, Effect;
    assert forall m | m in s.inFlight :: OwnMessage(s, m);
  }

  /** Losing the reply of a call that the current phase may make. */
  lemma LostKeepsInv(s: State, t: Transition)
    requires SupInv(s) && !s.phase.Starting? && OwnMessage(s, t)
    requires t.RecordDrain? ==> Committed(s.phase) == Some(t.receipt) && !s.phase.AskingStop?
    requires t.RecordNeverBoundExit? ==> s.phase.SendingNeverBound?
    ensures SupInv(s.(inFlight := s.inFlight + {t}))
  {
    hide Inv, Error, Effect;
    assert forall m | m in s.inFlight :: OwnMessage(s, m);
  }

  lemma HandlersKeepInv(s: State, binding: Option<Identity>, drain: Option<DrainReceipt>, calls: set<DrainCall>)
    requires SupInv(s)
    requires binding.Some? ==> BindAllowed(s, binding.value) && !s.phase.Starting?
    ensures SupInv(s.(binding := binding, drain := drain, drainCalls := calls))
  {
    assert forall m | m in s.inFlight :: OwnMessage(s, m);
  }

  lemma BoundKeepsInv(s: State, bound: Identity)
    requires SupInv(s) && s.binding.None? && OwnIdentity(s, bound)
    requires s.bound.walIdentity != "" ==> bound == s.bound
    requires s.identity.runID in s.ledger.runs && s.ledger.runs[s.identity.runID].identity == bound
    ensures SupInv(s.(bound := bound))
  {
    assert forall m | m in s.inFlight :: OwnMessage(s, m);
  }

  lemma RegisterKeepsSupInv(s: State, reply: Reply)
    requires SupInv(s) && s.phase.Starting?
    ensures SupInv(Step(s, RegisterCall(reply)))
  {
    NextKeepsInv(s.ledger, Register(s.identity));
    NextMovesRun(s.ledger, Register(s.identity), s.identity.runID);
  }

  lemma BindKeepsSupInv(s: State, reply: Reply)
    requires SupInv(s) && s.binding.Some?
    ensures SupInv(Step(s, BindEnd(reply)))
  {
    hide Inv, RecordSound, PhaseSound, EvidenceSound;
    var t := Bind(s.binding.value);
    if reply.Answered? {
      ApplyKeepsInv(s, t);
      var applied := s.(ledger := Next(s.ledger, t));
      HandlersKeepInv(applied, None, s.drain, s.drainCalls);
      if Error(s.ledger, t).None? { BoundKeepsInv(applied.(binding := None), s.binding.value); }
    } else {
      LostKeepsInv(s, t);
      HandlersKeepInv(s.(inFlight := s.inFlight + {t}), None, s.drain, s.drainCalls);
    }
  }

  /** Once the stop has matched, an answered drain is always accepted. */
  lemma DrainAccepted(s: State)
    requires SupInv(s) && s.phase.SendingDrain?
    ensures Error(s.ledger, RecordDrain(s.phase.receipt)).None?
    ensures var l' := Next(s.ledger, RecordDrain(s.phase.receipt));
            s.identity.runID in l'.runs && l'.runs[s.identity.runID].drain == Some(s.phase.receipt)
  {
    assert RunWellFormed(s.ledger, s.identity.runID, s.ledger.runs[s.identity.runID]);
  }

  /** After the drain is durable, an answered exit is always accepted. */
  lemma ExitAccepted(s: State)
    requires SupInv(s) && s.phase.SendingExit?
    ensures Error(s.ledger, RecordExit(s.phase.receipt.request)).None?
    ensures var l' := Next(s.ledger, RecordExit(s.phase.receipt.request));
            s.identity.runID in l'.runs && l'.runs[s.identity.runID].exited
  {
    assert RunWellFormed(s.ledger, s.identity.runID, s.ledger.runs[s.identity.runID]);
  }

  /** After an unbound stop has matched, an answered never-bound exit is always accepted. */
  lemma NeverBoundExitAccepted(s: State)
    requires SupInv(s) && s.phase.SendingNeverBound?
    ensures Error(s.ledger, RecordNeverBoundExit(s.phase.request)).None?
    ensures var l' := Next(s.ledger, RecordNeverBoundExit(s.phase.request));
            s.identity.runID in l'.runs && l'.runs[s.identity.runID].exited
  {
    assert RunWellFormed(s.ledger, s.identity.runID, s.ledger.runs[s.identity.runID]);
  }

  lemma CommittedIsOwn(s: State)
    requires SupInv(s) && (s.phase.SendingDrain? || s.phase.SendingExit?)
    ensures s.phase.SendingDrain? ==> OwnMessage(s, RecordDrain(s.phase.receipt))
    ensures s.phase.SendingExit? ==> OwnMessage(s, RecordExit(s.phase.receipt.request))
  {
  }

  lemma DrainRecorded(s: State)
    requires SupInv(s) && s.phase.SendingDrain?
    requires s.ledger.runs[s.identity.runID].drain == Some(s.phase.receipt)
    ensures SupInv(s.(phase := WaitingChild(s.phase.receipt)))
  {
    PhaseKeepsInv(s, WaitingChild(s.phase.receipt), s.waited, s.emptied);
  }

  lemma FinishKeepsInv(s: State, ok: bool)
    requires SupInv(s)
    requires ok ==> s.identity.runID in s.ledger.runs && s.ledger.runs[s.identity.runID].exited
    ensures SupInv(s.(phase := Finished(ok)))
  {
    PhaseKeepsInv(s, Finished(ok), s.waited, s.emptied);
  }

  lemma DrainKeepsSupInv(s: State, reply: Reply)
    requires SupInv(s) && s.phase.SendingDrain?
    ensures SupInv(Step(s, DrainCallOut(reply)))
  {
    hide Inv, Error, Effect, RecordSound, EvidenceSound, Bounded, OwnMessage, PhaseSound;
    var t := RecordDrain(s.phase.receipt);
    CommittedIsOwn(s);
    if reply.Answered? {
      ApplyKeepsInv(s, t);
      DrainAccepted(s);
      DrainRecorded(s.(ledger := Next(s.ledger, t)));
    } else {
      LostKeepsInv(s, t);
    }
  }

  lemma BoundExitKeepsSupInv(s: State, reply: Reply)
    requires SupInv(s) && s.phase.SendingExit?
    ensures SupInv(Step(s, ExitCall(reply)))
  {
    hide Inv, Error, Effect, RecordSound, EvidenceSound, Bounded, OwnMessage, PhaseSound;
    var t := RecordExit(s.phase.receipt.request);
    CommittedIsOwn(s);
    if reply.Answered? {
      ApplyKeepsInv(s, t);
      ExitAccepted(s);
      FinishKeepsInv(s.(ledger := Next(s.ledger, t)), true);
    } else {
      LostKeepsInv(s, t);
    }
  }

  lemma UnboundRequestIsOwn(s: State)
    requires SupInv(s) && s.phase.SendingNeverBound?
    ensures OwnMessage(s, RecordNeverBoundExit(s.phase.request))
  {
    assert RunWellFormed(s.ledger, s.identity.runID, s.ledger.runs[s.identity.runID]);
  }

  lemma UnboundExitKeepsSupInv(s: State, reply: Reply)
    requires SupInv(s) && s.phase.SendingNeverBound?
    ensures SupInv(Step(s, ExitCall(reply)))
  {
    hide Inv, Error, Effect, RecordSound, EvidenceSound, Bounded, OwnMessage, PhaseSound;
    var t := RecordNeverBoundExit(s.phase.request);
    UnboundRequestIsOwn(s);
    if reply.Answered? {
      ApplyKeepsInv(s, t);
      NeverBoundExitAccepted(s);
      FinishKeepsInv(s.(ledger := Next(s.ledger, t)), true);
    } else {
      LostKeepsInv(s, t);
    }
  }

  /** Events that move only the supervisor's own progress. */
  predicate Progress(e: Event) {
    e.NaturalExit? || e.TakeReceipt? || e.Tick? || e.WaitChild? || e.EmptyNamespace? || e.GiveUp?
  }

  lemma ProgressKeepsSupInv(s: State, e: Event)
    requires SupInv(s) && Enabled(s, e) && Progress(e)
    ensures SupInv(Step(s, e))
  {
    hide Inv, Error, Effect, RecordSound, Bounded, OwnMessage;
    var s' := Step(s, e);
    if !(e.GiveUp? && s.phase.Finished?) {
      PhaseKeepsInv(s, s'.phase, s'.waited, s'.emptied);
    }
  }

  lemma BeginFinishKeepsSupInv(s: State)
    requires SupInv(s) && Enabled(s, BeginFinish)
    ensures SupInv(Step(s, BeginFinish))
  {
    hide Inv, Error, Effect, OwnMessage;
    PhaseKeepsInv(s, Step(s, BeginFinish).phase, s.waited, s.emptied);
  }

  /** A stop the lookup finds is the one recorded for this run. */
  lemma LookupIsOwn(s: State)
    requires SupInv(s) && (s.phase.AskingStop? || s.phase.AskingUnboundStop?)
    requires StopLookup(s.ledger, s.phase.caller).Some?
    ensures s.identity.runID in s.ledger.runs
    ensures s.ledger.runs[s.identity.runID].stop == StopLookup(s.ledger, s.phase.caller)
  {
    hide Error, Effect, OwnMessage, OneLine, ClosuresWellFormed, EvidenceSound;
  }

  lemma AskedStopKeepsSupInv(s: State)
    requires SupInv(s) && s.phase.AskingStop?
    ensures SupInv(Step(s, StopCall(Answered)))
  {
    hide Error, Effect, OwnMessage, Inv, Bounded, RecordSound, StopLookup;
    if StopLookup(s.ledger, s.phase.caller).Some? { LookupIsOwn(s); }
    PhaseKeepsInv(s, Step(s, StopCall(Answered)).phase, s.waited, s.emptied);
  }

  lemma AskedUnboundStopKeepsSupInv(s: State)
    requires SupInv(s) && s.phase.AskingUnboundStop?
    ensures SupInv(Step(s, StopCall(Answered)))
  {
    hide Error, Effect, OwnMessage, Inv, Bounded, RecordSound, StopLookup;
    if StopLookup(s.ledger, s.phase.caller).Some? { LookupIsOwn(s); }
    PhaseKeepsInv(s, Step(s, StopCall(Answered)).phase, s.waited, s.emptied);
  }

  lemma StopKeepsSupInv(s: State, reply: Reply)
    requires SupInv(s) && Enabled(s, StopCall(reply))
    ensures SupInv(Step(s, StopCall(reply)))
  {
    hide SupInv, StopLookup;
    if reply.Answered? {
      if s.phase.AskingStop? { AskedStopKeepsSupInv(s); } else { AskedUnboundStopKeepsSupInv(s); }
    }
  }

  lemma StepKeepsInv(s: State, e: Event)
    requires SupInv(s)
    ensures SupInv(After(s, e))
  {
    hide Inv, Effect, Error, RecordSound, PhaseSound, EvidenceSound, StopLookup;
    if Enabled(s, e) {
      match e
      case RegisterCall(reply) => RegisterKeepsSupInv(s, reply);
      case BindEnd(reply) => BindKeepsSupInv(s, reply);
      case DrainCallOut(reply) => DrainKeepsSupInv(s, reply);
      case ExitCall(reply) =>
        if s.phase.SendingExit? { BoundExitKeepsSupInv(s, reply); } else { UnboundExitKeepsSupInv(s, reply); }
      case BeginFinish => BeginFinishKeepsSupInv(s);
      case StopCall(reply) => StopKeepsSupInv(s, reply);
      case Land(t) => LandKeepsInv(s, t);
      case Environment(t) => EnvironmentKeepsInv(s, t);
      case BindBegin(wal) => if BindAllowed(s, wal) { HandlersKeepInv(s, Some(wal), s.drain, s.drainCalls); }
      case DrainedBegin(_) => HandlersKeepInv(s, s.binding, s.drain, Step(s, e).drainCalls);
      case DrainedStop(_, _) => HandlersKeepInv(s, s.binding, s.drain, Step(s, e).drainCalls);
      case DrainedStore(_) => HandlersKeepInv(s, s.binding, Step(s, e).drain, Step(s, e).drainCalls);
      case _ => ProgressKeepsSupInv(s, e);
    }
  }

  lemma {:induction false} TraceKeepsInv(s: State, es: seq<Event>)
    requires SupInv(s)
    ensures SupInv(Trace(s, es))
    decreases |es|
  {
    if es != [] {
      StepKeepsInv(s, es[0]);
      TraceKeepsInv(After(s, es[0]), es[1..]);
    }
  }

  lemma InitInv(s: State)
    requires Init(s)
    ensures SupInv(s)
  {
    ReachableInv(s.ledger);
  }

  // -------------------------------------------------------------------------------- main results

  /** The ledger transition an event applies, if any. */
  ghost function Applied(s: State, e: Event): Option<Transition>
    requires Enabled(s, e)
  {
    match e
    case RegisterCall(Answered) => Some(Register(s.identity))
    case DrainCallOut(Answered) => Some(RecordDrain(s.phase.receipt))
    case ExitCall(Answered) =>
      if s.phase.SendingExit? then Some(RecordExit(s.phase.receipt.request))
      else Some(RecordNeverBoundExit(s.phase.request))
    case BindEnd(Answered) => Some(Bind(s.binding.value))
    case Land(t) => Some(t)
    case Environment(t) => Some(t)
    case _ => None
  }

  lemma StepApplies(s: State, e: Event)
    requires Enabled(s, e)
    ensures Step(s, e).identity == s.identity
    ensures Step(s, e).ledger == if Applied(s, e).Some? then Next(s.ledger, Applied(s, e).value) else s.ledger
  {
  }

  lemma AppliedIsOwn(s: State, e: Event)
    requires SupInv(s) && Enabled(s, e) && Applied(s, e).Some?
    ensures SpeaksFor(Applied(s, e).value) == Some(s.identity.runID) ==> OwnMessage(s, Applied(s, e).value)
  {
    if e.DrainCallOut? || (e.ExitCall? && s.phase.SendingExit?) { CommittedIsOwn(s); }
    if e.ExitCall? && s.phase.SendingNeverBound? { UnboundRequestIsOwn(s); }
  }

  lemma StepEvolves(s: State, e: Event)
    requires SupInv(s)
    ensures Evolves(s.ledger, After(s, e).ledger) && After(s, e).identity == s.identity
  {
    if Enabled(s, e) {
      StepApplies(s, e);
      if Applied(s, e).Some? { NextEvolves(s.ledger, Applied(s, e).value); }
    }
  }

  lemma {:induction false} TraceEvolvesRun(s: State, es: seq<Event>, k: string)
    requires SupInv(s) && k in s.ledger.runs
    ensures k in Trace(s, es).ledger.runs && RunEvolves(s.ledger.runs[k], Trace(s, es).ledger.runs[k])
    ensures Trace(s, es).identity == s.identity
    decreases |es|
  {
    if es != [] {
      var m := After(s, es[0]);
      StepKeepsInv(s, es[0]);
      StepEvolves(s, es[0]);
      assert RunEvolves(s.ledger.runs[k], m.ledger.runs[k]);
      TraceEvolvesRun(m, es[1..], k);
    }
  }

  ghost predicate Exited(s: State) {
    s.identity.runID in s.ledger.runs && s.ledger.runs[s.identity.runID].exited
  }

  /** Whenever the ledger says this run exited, the child was waited on and its namespace was empty;
      and the run's evidence is exactly what completion demands. */
  lemma ExitIsProven(s0: State, es: seq<Event>)
    requires Init(s0)
    ensures var s := Trace(s0, es);
            Exited(s) ==> s.waited && s.emptied && Terminated(s.ledger.runs[s.identity.runID])
  {
    InitInv(s0);
    TraceKeepsInv(s0, es);
    var s := Trace(s0, es);
    if Exited(s) { assert RunWellFormed(s.ledger, s.identity.runID, s.ledger.runs[s.identity.runID]); }
  }

  /** In the state just before an exit becomes durable, the child has been waited on, the namespace
      emptied, the stop issued, and a bound run's clean drain is already durable. */
  lemma ExitComesLast(s0: State, es: seq<Event>, e: Event)
    requires Init(s0)
    requires !Exited(Trace(s0, es)) && Exited(After(Trace(s0, es), e))
    ensures var s := Trace(s0, es);
            && s.waited && s.emptied && s.identity.runID in s.ledger.runs
            && var run := s.ledger.runs[s.identity.runID];
               && run.stop.Some?
               && (run.identity.walIdentity != "" ==> run.drain.Some? && run.drain.value.Clean())
  {
    InitInv(s0);
    TraceKeepsInv(s0, es);
    ExitStep(Trace(s0, es), e);
  }

  lemma ExitStep(s: State, e: Event)
    requires SupInv(s) && !Exited(s) && Exited(After(s, e))
    ensures s.waited && s.emptied && s.identity.runID in s.ledger.runs
    ensures var run := s.ledger.runs[s.identity.runID];
            run.stop.Some? && (run.identity.walIdentity != "" ==> run.drain.Some? && run.drain.value.Clean())
  {
    StepApplies(s, e);
    AppliedIsOwn(s, e);
    NextMovesRun(s.ledger, Applied(s, e).value, s.identity.runID);
  }

  /** A bind that took effect, whether or not its reply was lost, never ends as a never-bound exit. */
  lemma BoundRunNeverExitsUnbound(s0: State, es: seq<Event>, more: seq<Event>)
    requires Init(s0)
    requires var s := Trace(s0, es);
             s0.identity.runID in s.ledger.runs && s.ledger.runs[s0.identity.runID].identity.walIdentity != ""
    ensures var s := Trace(Trace(s0, es), more);
            && s0.identity.runID in s.ledger.runs
            && s.ledger.runs[s0.identity.runID].neverBoundExit.None?
            && s.ledger.runs[s0.identity.runID].identity == Trace(s0, es).ledger.runs[s0.identity.runID].identity
  {
    InitInv(s0);
    TraceKeepsInv(s0, es);
    var s1 := Trace(s0, es);
    TraceKeepsInv(s1, more);
    TraceEvolvesRun(s1, more, s0.identity.runID);
    var s2 := Trace(s1, more);
    assert RunWellFormed(s2.ledger, s0.identity.runID, s2.ledger.runs[s0.identity.runID]);
  }

  /** And once a never-bound exit is durable, a bind still in flight can only be refused. */
  lemma NeverBoundExitShutsOutLateBinds(s0: State, es: seq<Event>, more: seq<Event>, bind: Identity)
    requires Init(s0) && bind.runID == s0.identity.runID
    requires var s := Trace(s0, es);
             s0.identity.runID in s.ledger.runs && s.ledger.runs[s0.identity.runID].neverBoundExit.Some?
    ensures var s := Trace(Trace(s0, es), more);
            && BindError(s.ledger, bind).Some? && s0.identity.runID in s.ledger.runs
            && s.ledger.runs[s0.identity.runID] == Trace(s0, es).ledger.runs[s0.identity.runID]
  {
    InitInv(s0);
    TraceKeepsInv(s0, es);
    var s1 := Trace(s0, es);
    assert RunWellFormed(s1.ledger, s0.identity.runID, s1.ledger.runs[s0.identity.runID]);
    TraceKeepsInv(s1, more);
    TraceEvolvesRun(s1, more, s0.identity.runID);
  }

  /** The supervisor reports success only for an exited run, and once the stop has matched its
      receipt every answered call succeeds: lost replies can delay an exit but never lose it. */
  lemma RetriesConverge(s0: State, es: seq<Event>)
    requires Init(s0)
    ensures var s := Trace(s0, es);
            && (s.phase == Finished(true) ==> Exited(s))
            && (s.phase.SendingDrain? ==> Step(s, DrainCallOut(Answered)).phase == WaitingChild(s.phase.receipt))
            && (s.phase.SendingExit? || s.phase.SendingNeverBound?
                ==> Step(s, ExitCall(Answered)).phase == Finished(true))
  {
    hide Inv, Error, Effect, RecordSound, Bounded, OwnMessage;
    InitInv(s0);
    TraceKeepsInv(s0, es);
    var s := Trace(s0, es);
    if s.phase.SendingDrain? { DrainAccepted(s); }
    if s.phase.SendingExit? { ExitAccepted(s); }
    if s.phase.SendingNeverBound? { NeverBoundExitAccepted(s); }
  }
}
