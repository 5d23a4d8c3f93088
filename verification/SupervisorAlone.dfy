/**
 * What a supervisor left alone achieves: when it starts, when it binds its WAL, and that a stopped run is brought to a
 * durable exit. `Supervisor` says what no interleaving may do; this is what an undisturbed one does.
 */
module SupervisorAlone {
  import opened FencingAnswers
  import opened FencingLedger
  import opened FencingProtocol
  import opened FencingTheorems
  import opened Options
  import opened Supervisor

  ghost predicate Leads(s: State, t: State) { exists es :: Supervisor.Trace(s, es) == t }

  lemma {:induction false} TraceLast(s: State, es: seq<Event>, e: Event)
    ensures Supervisor.Trace(s, es + [e]) == After(Supervisor.Trace(s, es), e)
    decreases |es|
  {
    hide After;
    if es == [] {
      assert (es + [e])[1..] == [];
    } else {
      assert (es + [e])[1..] == es[1..] + [e];
      TraceLast(After(s, es[0]), es[1..], e);
    }
  }

  lemma LeadsNowhere(s: State)
    ensures Leads(s, s)
  {
    assert Supervisor.Trace(s, []) == s;
  }

  lemma LeadsOn(s: State, t: State, e: Event)
    requires Leads(s, t)
    ensures Leads(s, After(t, e))
  {
    hide After;
    var es :| Supervisor.Trace(s, es) == t;
    TraceLast(s, es, e);
  }

  // --------------------------------------------------------------------------------------- starting

  /** A supervisor whose call is answered starts its child exactly if its run is accepted. */
  lemma StartsIff(s: State)
    requires Init(s) && WellNamed(s.ledger, s.identity)
    ensures var t := After(s, RegisterCall(Answered));
            && (t.phase.Serving? || t.phase == Finished(false))
            && (t.phase.Serving? <==>
                  SlotOpen(s.ledger, s.identity.nodeID)
                  && forall k | k in s.ledger.runs && s.ledger.runs[k].identity.nodeID == s.identity.nodeID ::
                       s.ledger.runs[k].identity.podUID == s.identity.podUID)
            && (t.phase.Serving? ==> s.identity.runID in t.ledger.runs)
  {
    hide Reachable, Error, Effect;
    RegisterAcceptedIff(s.ledger, s.identity);
  }

  /** A bind that is answered holds exactly if the slot is open and nobody there is bound to another WAL. */
  lemma BindsIff(s0: State, es: seq<Event>, wal: Identity)
    requires Init(s0)
    requires var s := Supervisor.Trace(s0, es);
             && !s.phase.Starting? && s.binding.None? && s.identity.runID in s.ledger.runs
             && s.ledger.runs[s.identity.runID].identity == s.bound && s.bound.walIdentity == ""
             && wal.walIdentity != "" && wal.(walIdentity := "") == s.bound
    ensures var s := Supervisor.Trace(s0, es);
            var t := After(After(s, BindBegin(wal)), BindEnd(Answered));
            && t.binding.None? && t.phase == s.phase
            && (t.bound == wal <==>
                  SlotOpen(s.ledger, wal.nodeID)
                  && forall k | k in s.ledger.runs && s.ledger.runs[k].identity.nodeID == wal.nodeID ::
                       || s.ledger.runs[k].identity.walIdentity == ""
                       || s.ledger.runs[k].identity.walIdentity == wal.walIdentity)
            && (t.bound != wal ==> t.bound == s.bound && t.ledger == s.ledger)
  {
    hide Reachable, Error, Effect;
    var s := Supervisor.Trace(s0, es);
    LedgerIsReachable(s0, es);
    BindAcceptedIff(s.ledger, wal);
    BindOwn(s0, es);
    assert After(s, BindBegin(wal)) == s.(binding := Some(wal));
  }

  lemma {:induction false} LedgerStaysReachable(s: State, es: seq<Event>)
    requires Reachable(s.ledger)
    ensures Reachable(Supervisor.Trace(s, es).ledger)
    decreases |es|
  {
    hide Reachable, Error, Effect, Next, Step;
    if es != [] {
      if Enabled(s, es[0]) {
        StepApplies(s, es[0]);
        if Applied(s, es[0]).Some? { ReachableNext(s.ledger, Applied(s, es[0]).value); }
      }
      LedgerStaysReachable(After(s, es[0]), es[1..]);
    }
  }

  lemma LedgerIsReachable(s0: State, es: seq<Event>)
    requires Init(s0)
    ensures Reachable(Supervisor.Trace(s0, es).ledger)
  {
    hide Reachable;
    LedgerStaysReachable(s0, es);
  }

  lemma BindOwn(s0: State, es: seq<Event>)
    requires Init(s0)
    ensures var s := Supervisor.Trace(s0, es); OwnIdentity(s, s.bound)
  {
    InitInv(s0);
    Supervisor.TraceKeepsInv(s0, es);
  }

  // -------------------------------------------------------------------------------- a bound run ends

  /** The child's receipt is taken if it answers the stop recorded for the run. */
  lemma ReceiptIsTaken(s: State, t: State, receipt: DrainReceipt) returns (u: State)
    requires Leads(s, t) && t.phase.Serving? && MutexFree(t) && t.drain.None?
    requires StopLookup(t.ledger, t.bound) == Some(receipt.request)
    requires DrainCall(receipt, t.bound, false) !in t.drainCalls && DrainCall(receipt, t.bound, true) !in t.drainCalls
    ensures Leads(s, u) && u == t.(drain := Some(receipt))
  {
    hide Leads, StopLookup;
    var call := DrainCall(receipt, t.bound, false);
    LeadsOn(s, t, DrainedBegin(receipt));
    var t1 := After(t, DrainedBegin(receipt));
    LeadsOn(s, t1, DrainedStop(call, Answered));
    var t2 := After(t1, DrainedStop(call, Answered));
    var matched := call.(matched := true);
    assert matched in t2.drainCalls;
    LeadsOn(s, t2, DrainedStore(matched));
    u := After(t2, DrainedStore(matched));
    assert u.drainCalls == t.drainCalls;
  }

  /** With a clean receipt for its stop, a serving supervisor asks, records the drain, ends the child and exits. */
  lemma DrainedChildIsEnded(s: State, t: State, receipt: DrainReceipt) returns (u: State)
    requires Leads(s, t) && t.phase.Serving? && MutexFree(t) && t.drain == Some(receipt) && SupInv(t)
    requires ReceiptUsable(receipt, t.bound) && StopLookup(t.ledger, t.bound) == Some(receipt.request)
    ensures Leads(s, u) && u.phase == Finished(true) && Exited(u) && u.waited && u.emptied
  {
    hide Leads, StopLookup, SupInv, ReceiptUsable, Error, Effect, Next;
    LeadsOn(s, t, Tick);
    StepKeepsInv(t, Tick);
    var t1 := After(t, Tick);
    CleanIsUsable(receipt, t.bound);
    assert t1 == t.(phase := Finishing(receipt));
    LeadsOn(s, t1, BeginFinish);
    StepKeepsInv(t1, BeginFinish);
    var t2 := After(t1, BeginFinish);
    assert t2 == t.(phase := AskingStop(receipt, t.bound));
    LeadsOn(s, t2, StopCall(Answered));
    StepKeepsInv(t2, StopCall(Answered));
    var t3 := After(t2, StopCall(Answered));
    assert t3 == t.(phase := SendingDrain(receipt));
    u := EvidenceIsSent(s, t3, receipt);
  }

  lemma CleanIsUsable(receipt: DrainReceipt, caller: Identity)
    requires ReceiptUsable(receipt, caller)
    ensures receipt.Clean()
  {
  }

  lemma EvidenceIsSent(s: State, t: State, receipt: DrainReceipt) returns (u: State)
    requires Leads(s, t) && t.phase == SendingDrain(receipt) && SupInv(t)
    ensures Leads(s, u) && u.phase == Finished(true) && Exited(u) && u.waited && u.emptied
  {
    hide Leads, SupInv, Error, Effect, Next;
    DrainAccepted(t);
    LeadsOn(s, t, DrainCallOut(Answered));
    StepKeepsInv(t, DrainCallOut(Answered));
    var t1 := After(t, DrainCallOut(Answered));
    assert t1.phase == WaitingChild(receipt);
    LeadsOn(s, t1, WaitChild);
    StepKeepsInv(t1, WaitChild);
    var t2 := After(t1, WaitChild);
    LeadsOn(s, t2, EmptyNamespace);
    StepKeepsInv(t2, EmptyNamespace);
    var t3 := After(t2, EmptyNamespace);
    assert t3.phase == SendingExit(receipt) && t3.waited && t3.emptied;
    ExitAccepted(t3);
    LeadsOn(s, t3, ExitCall(Answered));
    u := After(t3, ExitCall(Answered));
    ExitIsThere(t3);
  }

  lemma ExitIsThere(s: State)
    requires SupInv(s) && s.phase.SendingExit?
    ensures Exited(After(s, ExitCall(Answered))) && After(s, ExitCall(Answered)).phase == Finished(true)
  {
    ExitAccepted(s);
  }

  /**
   * A serving supervisor whose bound run has been stopped, and whose child answers that stop with a clean receipt,
   * brings the run to a durable exit and reports success.
   */
  lemma StoppedRunExits(s0: State, es: seq<Event>, receipt: DrainReceipt) returns (t: State)
    requires Init(s0)
    requires var s := Supervisor.Trace(s0, es);
             && s.phase.Serving? && s.binding.None? && s.drain.None? && s.bound.walIdentity != ""
             && s.identity.runID in s.ledger.runs && s.ledger.runs[s.identity.runID].stop == Some(receipt.request)
             && receipt.Clean() && forall c | c in s.drainCalls :: c.receipt != receipt
    ensures Leads(Supervisor.Trace(s0, es), t) && t.phase == Finished(true) && Exited(t) && t.waited && t.emptied
  {
    hide Leads, Error, Effect, Next;
    InitInv(s0);
    Supervisor.TraceKeepsInv(s0, es);
    var s := Supervisor.Trace(s0, es);
    StopIsOwn(s, receipt);
    LeadsNowhere(s);
    var t1 := ReceiptIsTaken(s, s, receipt);
    HandlersKeepInv(s, s.binding, Some(receipt), s.drainCalls);
    assert t1 == s.(binding := s.binding, drain := Some(receipt), drainCalls := s.drainCalls);
    t := DrainedChildIsEnded(s, t1, receipt);
  }

  lemma StopIsOwn(s: State, receipt: DrainReceipt)
    requires SupInv(s) && s.bound.walIdentity != "" && receipt.Clean() && s.identity.runID in s.ledger.runs
    requires s.ledger.runs[s.identity.runID].stop == Some(receipt.request)
    ensures ReceiptUsable(receipt, s.bound) && StopLookup(s.ledger, s.bound) == Some(receipt.request)
  {
    hide OneLine, ClosuresWellFormed, RecordSound, PhaseSound, EvidenceSound;
    assert RunWellFormed(s.ledger, s.identity.runID, s.ledger.runs[s.identity.runID]);
  }

  // ---------------------------------------------------------------------------- an unbound run ends

  /** A supervisor whose child is gone before it ever bound a WAL, and whose run is stopped, records just that. */
  lemma UnboundRunExits(s0: State, es: seq<Event>) returns (t: State)
    requires Init(s0)
    requires var s := Supervisor.Trace(s0, es);
             && s.phase.Serving? && s.binding.None? && s.drain.None? && s.bound.walIdentity == ""
             && s.identity.runID in s.ledger.runs && s.ledger.runs[s.identity.runID].stop.Some?
             && s.ledger.runs[s.identity.runID].identity.walIdentity == ""
    ensures Leads(Supervisor.Trace(s0, es), t) && t.phase == Finished(true) && Exited(t) && t.waited && t.emptied
    ensures t.ledger.runs[t.identity.runID].neverBoundExit == t.ledger.runs[t.identity.runID].stop
  {
    hide Leads, Error, Effect, Next;
    InitInv(s0);
    Supervisor.TraceKeepsInv(s0, es);
    var s := Supervisor.Trace(s0, es);
    UnboundStopIsOwn(s);
    var request := s.ledger.runs[s.identity.runID].stop.value;
    LeadsNowhere(s);
    var t1 := ChildIsGone(s);
    t := UnboundEvidenceIsSent(s, t1, request);
  }

  lemma UnboundStopIsOwn(s: State)
    requires SupInv(s) && s.bound.walIdentity == "" && s.identity.runID in s.ledger.runs
    requires s.ledger.runs[s.identity.runID].identity.walIdentity == "" && s.ledger.runs[s.identity.runID].stop.Some?
    ensures var q := s.ledger.runs[s.identity.runID].stop.value;
            && StopLookup(s.ledger, s.bound) == Some(q) && q.identity == s.bound
            && q.operationID != "" && q.requestHash != ""
  {
    hide OneLine, ClosuresWellFormed, PhaseSound, EvidenceSound;
    assert RunWellFormed(s.ledger, s.identity.runID, s.ledger.runs[s.identity.runID]);
  }

  lemma ChildIsGone(s: State) returns (t: State)
    requires SupInv(s) && s.phase.Serving? && s.binding.None? && s.drain.None? && s.bound.walIdentity == ""
    ensures Leads(s, t) && SupInv(t) && t == s.(phase := AskingUnboundStop(s.bound), waited := true)
  {
    hide Leads, SupInv, Error, Effect, Next;
    LeadsNowhere(s);
    LeadsOn(s, s, NaturalExit);
    StepKeepsInv(s, NaturalExit);
    var t1 := After(s, NaturalExit);
    LeadsOn(s, t1, TakeReceipt);
    StepKeepsInv(t1, TakeReceipt);
    var t2 := After(t1, TakeReceipt);
    LeadsOn(s, t2, BeginFinish);
    StepKeepsInv(t2, BeginFinish);
    t := After(t2, BeginFinish);
  }

  lemma UnboundEvidenceIsSent(s: State, t: State, request: StopRequest) returns (u: State)
    requires Leads(s, t) && SupInv(t) && t.phase == AskingUnboundStop(t.bound) && t.bound.walIdentity == "" && t.waited
    requires StopLookup(t.ledger, t.bound) == Some(request) && request.identity == t.bound
    requires request.operationID != "" && request.requestHash != ""
    ensures Leads(s, u) && u.phase == Finished(true) && Exited(u) && u.waited && u.emptied
    ensures u.ledger.runs[u.identity.runID].neverBoundExit == u.ledger.runs[u.identity.runID].stop
  {
    hide Leads, SupInv, Error, Effect, Next, StopLookup;
    LeadsOn(s, t, StopCall(Answered));
    StepKeepsInv(t, StopCall(Answered));
    var t1 := After(t, StopCall(Answered));
    assert t1 == t.(phase := EmptyingUnbound(request));
    LeadsOn(s, t1, EmptyNamespace);
    StepKeepsInv(t1, EmptyNamespace);
    var t2 := After(t1, EmptyNamespace);
    assert t2 == t.(phase := SendingNeverBound(request), emptied := true);
    LeadsOn(s, t2, ExitCall(Answered));
    u := After(t2, ExitCall(Answered));
    UnboundExitIsThere(t2);
    StepKeepsInv(t2, ExitCall(Answered));
  }

  lemma UnboundExitIsThere(s: State)
    requires SupInv(s) && s.phase.SendingNeverBound?
    ensures var t := After(s, ExitCall(Answered));
            && Exited(t) && t.phase == Finished(true) && t.waited == s.waited && t.emptied == s.emptied
            && t.ledger.runs[t.identity.runID].neverBoundExit == t.ledger.runs[t.identity.runID].stop
  {
    hide OneLine, ClosuresWellFormed;
    NeverBoundExitAccepted(s);
    assert RunWellFormed(s.ledger, s.identity.runID, s.ledger.runs[s.identity.runID]);
  }

  // ---------------------------------------------------------------------------------- a bind unseen

  /** A run whose bind took effect unseen gets no stop under its unbound name, so it is never reported as unbound. */
  lemma UnseenBindGetsNoStop(s0: State, es: seq<Event>)
    requires Init(s0)
    requires var s := Supervisor.Trace(s0, es);
             && s.bound.walIdentity == "" && s.identity.runID in s.ledger.runs
             && s.ledger.runs[s.identity.runID].identity.walIdentity != ""
    ensures var s := Supervisor.Trace(s0, es);
            && StopLookup(s.ledger, s.bound).None?
            && (s.phase == AskingUnboundStop(s.bound) ==> After(s, StopCall(Answered)).phase == Finished(false))
  {
    InitInv(s0);
    Supervisor.TraceKeepsInv(s0, es);
  }

}
