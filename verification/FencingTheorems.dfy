/** What the fencing ledger keeps over every run of transitions from the empty ledger. */
module FencingTheorems {
  import opened FencingLedger
  import opened FencingProtocol
  import opened Options

  ghost predicate EvidenceStep(t: Transition) {
    t.RecordDrain? || t.RecordExit? || t.RecordNeverBoundExit?
  }

  ghost function EvidenceRun(t: Transition): string
    requires EvidenceStep(t)
  {
    if t.RecordDrain? then t.receipt.request.identity.runID else t.request.identity.runID
  }

  // ------------------------------------------------------------------------- reachable ledgers

  predicate SlotClosed(l: LedgerState, nodeID: string) {
    l.closedBy != "" || nodeID in l.closedNodes
  }

  ghost predicate RunWellFormed(l: LedgerState, k: string, run: Run) {
    && run.identity.runID == k && k != ""
    && run.identity.sourceClusterID == l.sourceClusterID && run.identity.nodeID != "" && run.identity.podUID != ""
    && (run.stop.Some? <==> SlotClosed(l, run.identity.nodeID))
    && (run.stop.Some? ==> run.stop.value.identity == run.identity
                           && run.stop.value.operationID != "" && run.stop.value.requestHash != "")
    && (run.drain.Some? ==> run.stop == Some(run.drain.value.request) && run.neverBoundExit.None?)
    && (run.neverBoundExit.Some? ==> run.exited && run.neverBoundExit == run.stop
                                     && run.identity.walIdentity == "" && run.drain.None?)
    && (run.exited ==> run.stop.Some?
                       && (run.neverBoundExit.Some? || (run.identity.walIdentity != "" && CleanlyTerminated(run))))
  }

  /** Two runs of one voter slot: one Pod, and one WAL once both are bound. */
  ghost predicate SameLine(a: Identity, b: Identity) {
    a.nodeID == b.nodeID ==>
      a.podUID == b.podUID
      && (a.walIdentity != "" && b.walIdentity != "" ==> a.walIdentity == b.walIdentity)
  }

  ghost predicate RunsWellFormed(l: LedgerState) {
    forall k | k in l.runs :: RunWellFormed(l, k, l.runs[k])
  }

  ghost predicate OneLine(l: LedgerState) {
    forall j, k | j in l.runs && k in l.runs :: SameLine(l.runs[j].identity, l.runs[k].identity)
  }

  ghost predicate ClosuresWellFormed(l: LedgerState) {
    && (l.closedBy != "" <==> l.closedHash != "")
    && (forall n | n in l.closedNodes ::
          n != "" && l.closedNodes[n].operationID != "" && l.closedNodes[n].requestHash != "")
  }

  ghost predicate Inv(l: LedgerState) {
    RunsWellFormed(l) && OneLine(l) && ClosuresWellFormed(l)
  }

  lemma RegisterKeepsInv(l: LedgerState, identity: Identity)
    requires Inv(l)
    ensures Inv(Next(l, Register(identity)))
  {
    if RegisterError(l, identity).None? && identity.runID !in l.runs {
      // A run of this slot that came from another Pod would be exited, hence stopped, hence in a
      // slot already closed to registration.
      forall k | k in l.runs ensures SameLine(l.runs[k].identity, identity) {
        assert RunWellFormed(l, k, l.runs[k]);
      }
      var l' := Next(l, Register(identity));
      assert RunWellFormed(l', identity.runID, NewRun(identity));
      forall k | k in l'.runs ensures RunWellFormed(l', k, l'.runs[k]) {
        if k in l.runs { assert RunWellFormed(l, k, l.runs[k]); }
      }
    }
  }

  lemma BindKeepsInv(l: LedgerState, identity: Identity)
    requires Inv(l)
    ensures Inv(Next(l, Bind(identity)))
  {
    if BindError(l, identity).None? {
      var l' := Next(l, Bind(identity));
      forall k | k in l'.runs ensures RunWellFormed(l', k, l'.runs[k]) {
        assert RunWellFormed(l, k, l.runs[k]);
      }
      forall k | k in l.runs && k != identity.runID ensures SameLine(l.runs[k].identity, identity) {
        assert RunWellFormed(l, k, l.runs[k]);
        assert SameLine(l.runs[k].identity, l.runs[identity.runID].identity);
      }
    }
  }

  lemma StopAllKeepsInv(l: LedgerState, operationID: string, requestHash: string)
    requires Inv(l) && CloseError(l, operationID, requestHash).None?
    ensures Inv(StopAll(l, operationID, requestHash))
  {
    var l' := StopAll(l, operationID, requestHash);
    forall k | k in l'.runs ensures RunWellFormed(l', k, l'.runs[k]) {
      assert RunWellFormed(l, k, l.runs[k]);
    }
    assert OneLine(l') by {
      forall j, k | j in l'.runs && k in l'.runs ensures SameLine(l'.runs[j].identity, l'.runs[k].identity) {
        assert SameLine(l.runs[j].identity, l.runs[k].identity);
      }
    }
  }

  lemma StopNodesKeepsInv(l: LedgerState, operationID: string, requestHash: string, nodeIDs: seq<string>)
    requires Inv(l) && nodeIDs != [] && l.closedBy == ""
    requires CloseNodesError(l, operationID, requestHash, nodeIDs).None?
    ensures Inv(StopNodes(l, operationID, requestHash, nodeIDs))
  {
    var l' := StopNodes(l, operationID, requestHash, nodeIDs);
    forall k | k in l'.runs ensures RunWellFormed(l', k, l'.runs[k]) {
      StopNodesKeepsRun(l, operationID, requestHash, nodeIDs, k);
    }
    hide RunWellFormed, StopIfNamed, SameLine;
    forall n | n in l'.closedNodes
      ensures n != "" && l'.closedNodes[n].operationID != "" && l'.closedNodes[n].requestHash != ""
    {
      assert n in nodeIDs ==> !UnusableSlot(l, n, operationID, requestHash);
    }
    assert OneLine(l') by {
      forall j, k | j in l'.runs && k in l'.runs ensures SameLine(l'.runs[j].identity, l'.runs[k].identity) {
        StopKeepsIdentity(l.runs[j], operationID, requestHash, nodeIDs);
        StopKeepsIdentity(l.runs[k], operationID, requestHash, nodeIDs);
        assert SameLine(l.runs[j].identity, l.runs[k].identity);
      }
    }
  }

  lemma StopKeepsIdentity(run: Run, operationID: string, requestHash: string, nodeIDs: seq<string>)
    ensures StopIfNamed(run, operationID, requestHash, nodeIDs).identity == run.identity
  {
  }

  lemma StopNodesKeepsRun(l: LedgerState, operationID: string, requestHash: string, nodeIDs: seq<string>, k: string)
    requires RunsWellFormed(l) && l.closedBy == "" && operationID != "" && requestHash != "" && k in l.runs
    ensures var l' := StopNodes(l, operationID, requestHash, nodeIDs); RunWellFormed(l', k, l'.runs[k])
  {
    assert RunWellFormed(l, k, l.runs[k]);
  }

  /** Replacing one run by a well-formed run of the same identity. */
  lemma ReplaceKeepsInv(l: LedgerState, k: string, run: Run)
    requires Inv(l) && k in l.runs && run.identity == l.runs[k].identity && RunWellFormed(l, k, run)
    ensures Inv(l.(runs := l.runs[k := run]))
  {
    hide RunWellFormed, SameLine;
    var l' := l.(runs := l.runs[k := run]);
    forall j | j in l'.runs ensures RunWellFormed(l', j, l'.runs[j]) {
      assert RunWellFormed(l, j, l.runs[j]);
      SameClosures(l, l', j, l'.runs[j]);
    }
    forall i, j | i in l'.runs && j in l'.runs ensures SameLine(l'.runs[i].identity, l'.runs[j].identity) {
      assert SameLine(l.runs[i].identity, l.runs[j].identity);
    }
  }

  lemma SameClosures(l: LedgerState, l': LedgerState, k: string, run: Run)
    requires l' == l.(runs := l'.runs) && RunWellFormed(l, k, run)
    ensures RunWellFormed(l', k, run)
  {
  }

  /** A run with one more piece of evidence. */
  ghost function Recorded(t: Transition, run: Run): Run
    requires EvidenceStep(t)
  {
    if t.RecordDrain? then run.(drain := Some(t.receipt))
    else if t.RecordExit? then run.(exited := true)
    else run.(exited := true, neverBoundExit := Some(t.request))
  }

  /** An admitted drain, exit or never-bound exit replaces one well-formed run by another. */
  lemma EvidenceReplaces(l: LedgerState, t: Transition, k: string, run: Run)
    requires Inv(l) && EvidenceStep(t) && Error(l, t).None? && k == EvidenceRun(t)
    requires run == Recorded(t, l.runs[k])
    ensures RunWellFormed(l, k, run) && RunEvolves(l.runs[k], run)
    ensures Next(l, t) == l.(runs := l.runs[k := run])
  {
    assert RunWellFormed(l, k, l.runs[k]);
  }

  lemma EvidenceKeepsInv(l: LedgerState, t: Transition)
    requires Inv(l) && EvidenceStep(t) && Error(l, t).None?
    ensures Inv(Next(l, t))
  {
    var k := EvidenceRun(t);
    var run := Next(l, t).runs[k];
    assert RunWellFormed(l, k, l.runs[k]);
    EvidenceReplaces(l, t, k, run);
    ReplaceKeepsInv(l, k, run);
  }

  lemma NextKeepsInv(l: LedgerState, t: Transition)
    requires Inv(l)
    ensures Inv(Next(l, t))
  {
    if Error(l, t).None? {
      match t
      case Register(identity) => RegisterKeepsInv(l, identity);
      case Bind(identity) => BindKeepsInv(l, identity);
      case CloseNodes(operationID, requestHash, nodeIDs) =>
        if nodeIDs == [] {
          StopAllKeepsInv(l, operationID, requestHash);
        } else if l.closedBy == "" {
          StopNodesKeepsInv(l, operationID, requestHash, nodeIDs);
        }
      case Close(operationID, requestHash) => StopAllKeepsInv(l, operationID, requestHash);
      case _ => EvidenceKeepsInv(l, t);
    }
  }

  lemma {:induction false} ExecKeepsInv(l: LedgerState, ts: seq<Transition>)
    requires Inv(l)
    ensures Inv(Exec(l, ts))
    decreases |ts|
  {
    if ts != [] {
      NextKeepsInv(l, ts[0]);
      ExecKeepsInv(Next(l, ts[0]), ts[1..]);
    }
  }

  lemma ReachableInv(l: LedgerState)
    requires Reachable(l)
    ensures Inv(l)
  {
    var ts: seq<Transition> :| l == Exec(EmptyLedger(l.sourceClusterID), ts);
    ExecKeepsInv(EmptyLedger(l.sourceClusterID), ts);
  }

  /** All runs of a voter slot come from one Pod, and all its bound runs share one WAL identity. */
  lemma OneIncarnationLinePerVoter(l: LedgerState, j: string, k: string)
    requires Reachable(l)
    requires j in l.runs && k in l.runs && l.runs[j].identity.nodeID == l.runs[k].identity.nodeID
    ensures l.runs[j].identity.podUID == l.runs[k].identity.podUID
    ensures l.runs[j].identity.walIdentity != "" && l.runs[k].identity.walIdentity != ""
            ==> l.runs[j].identity.walIdentity == l.runs[k].identity.walIdentity
  {
    ReachableInv(l);
    assert SameLine(l.runs[j].identity, l.runs[k].identity);
  }

  // ------------------------------------------------------------------------ evidence is monotone

  ghost predicate RunEvolves(before: Run, after: Run) {
    && after.identity.(walIdentity := "") == before.identity.(walIdentity := "")
    && (before.identity.walIdentity != "" || before.stop.Some? ==> after.identity == before.identity)
    && (before.stop.Some? ==> after.stop == before.stop)
    && (before.drain.Some? ==> after.drain == before.drain)
    && (before.exited ==> after.exited)
    && (before.neverBoundExit.Some? ==> after.neverBoundExit == before.neverBoundExit)
    && (before.exited ==> after == before)
  }

  ghost predicate Evolves(l: LedgerState, l': LedgerState) {
    && l'.sourceClusterID == l.sourceClusterID
    && (l.closedBy != "" ==> l'.closedBy == l.closedBy && l'.closedHash == l.closedHash)
    && l.closedNodes.Keys <= l'.closedNodes.Keys
    && l.runs.Keys <= l'.runs.Keys
    && (forall k | k in l.runs :: RunEvolves(l.runs[k], l'.runs[k]))
    && (forall k | k in l'.runs && k !in l.runs :: !SlotClosed(l, l'.runs[k].identity.nodeID))
  }

  lemma NextEvolves(l: LedgerState, t: Transition)
    requires Inv(l)
    ensures Evolves(l, Next(l, t))
  {
    hide Evolves, Effect, Error;
    if Error(l, t).None? {
      if EvidenceStep(t) { EvidenceEvolves(l, t); } else { AdmissionEvolves(l, t); }
    } else {
      NothingEvolves(l);
    }
  }

  lemma NothingEvolves(l: LedgerState)
    ensures Evolves(l, l)
  {
  }

  lemma EvidenceEvolves(l: LedgerState, t: Transition)
    requires Inv(l) && EvidenceStep(t) && Error(l, t).None?
    ensures Evolves(l, Next(l, t))
  {
    hide Inv, Evolves, RunEvolves, Next;
    var k := EvidenceRun(t);
    EvidenceRunExists(l, t);
    var run := Recorded(t, l.runs[k]);
    EvidenceReplaces(l, t, k, run);
    ReplacingEvolves(l, k, run);
  }

  lemma EvidenceRunExists(l: LedgerState, t: Transition)
    requires EvidenceStep(t) && Error(l, t).None?
    ensures EvidenceRun(t) in l.runs
  {
  }

  lemma ReplacingEvolves(l: LedgerState, k: string, run: Run)
    requires k in l.runs && RunEvolves(l.runs[k], run)
    ensures Evolves(l, l.(runs := l.runs[k := run]))
  {
  }

  lemma StopAllEvolves(l: LedgerState, operationID: string, requestHash: string)
    requires RunsWellFormed(l) && operationID != ""
    requires l.closedBy == "" || (l.closedBy == operationID && l.closedHash == requestHash)
    ensures Evolves(l, StopAll(l, operationID, requestHash))
  {
    forall k | k in l.runs ensures RunEvolves(l.runs[k], StopAll(l, operationID, requestHash).runs[k]) {
      assert RunWellFormed(l, k, l.runs[k]);
    }
  }

  lemma StopNodesEvolves(l: LedgerState, operationID: string, requestHash: string, nodeIDs: seq<string>)
    requires RunsWellFormed(l) && l.closedBy == ""
    ensures Evolves(l, StopNodes(l, operationID, requestHash, nodeIDs))
  {
    forall k | k in l.runs ensures RunEvolves(l.runs[k], StopNodes(l, operationID, requestHash, nodeIDs).runs[k]) {
      assert RunWellFormed(l, k, l.runs[k]);
    }
  }

  lemma AdmissionEvolves(l: LedgerState, t: Transition)
    requires Inv(l) && !EvidenceStep(t) && Error(l, t).None?
    ensures Evolves(l, Next(l, t))
  {
    hide OneLine, ClosuresWellFormed, StopAll, StopNodes;
    if t.Close? {
      StopAllEvolves(l, t.operationID, t.requestHash);
    } else if t.CloseNodes? {
      if t.nodeIDs == [] {
        StopAllEvolves(l, t.operationID, t.requestHash);
      } else if l.closedBy == "" {
        StopNodesEvolves(l, t.operationID, t.requestHash, t.nodeIDs);
      }
    } else if t.identity.runID in l.runs {
      assert RunWellFormed(l, t.identity.runID, l.runs[t.identity.runID]);
    }
  }

  /** No run of transitions removes a run or changes an issued stop, a recorded drain, an exit, or
      the identity of a stopped run; a run once exited never changes at all. */
  lemma {:induction false} EvidenceIsMonotone(l: LedgerState, ts: seq<Transition>)
    requires Inv(l)
    ensures Evolves(l, Exec(l, ts))
    decreases |ts|
  {
    if ts != [] {
      var m := Next(l, ts[0]);
      NextKeepsInv(l, ts[0]);
      NextEvolves(l, ts[0]);
      EvidenceIsMonotone(m, ts[1..]);
      var l' := Exec(m, ts[1..]);
      forall k | k in l.runs ensures RunEvolves(l.runs[k], l'.runs[k]) {
        assert RunEvolves(l.runs[k], m.runs[k]) && RunEvolves(m.runs[k], l'.runs[k]);
      }
      forall k | k in l'.runs && k !in l.runs ensures !SlotClosed(l, l'.runs[k].identity.nodeID) {
        if k in m.runs { assert RunEvolves(m.runs[k], l'.runs[k]); }
      }
    }
  }

  /** Repeating a transition that was just accepted is accepted again and changes nothing. */
  lemma RetryIsIdempotent(l: LedgerState, t: Transition)
    requires Reachable(l) && Error(l, t).None?
    ensures Error(Next(l, t), t).None? && Next(Next(l, t), t) == Next(l, t)
  {
    ReachableInv(l);
    if EvidenceStep(t) { EvidenceTwice(l, t); } else { AdmissionTwice(l, t); }
  }

  lemma EvidenceTwice(l: LedgerState, t: Transition)
    requires Inv(l) && EvidenceStep(t) && Error(l, t).None?
    ensures Error(Next(l, t), t).None? && Next(Next(l, t), t) == Next(l, t)
  {
    hide OneLine, ClosuresWellFormed;
    assert RunWellFormed(l, EvidenceRun(t), l.runs[EvidenceRun(t)]);
    assert Next(Next(l, t), t).runs == Next(l, t).runs;
  }

  lemma AdmissionTwice(l: LedgerState, t: Transition)
    requires Inv(l) && !EvidenceStep(t) && Error(l, t).None?
    ensures Error(Next(l, t), t).None? && Next(Next(l, t), t) == Next(l, t)
  {
    hide OneLine, ClosuresWellFormed;
    var m := Next(l, t);
    if t.CloseNodes? {
      if t.nodeIDs == [] {
        StopAllTwice(l, t.operationID, t.requestHash);
      } else if l.closedBy == "" {
        StopNodesTwice(l, t.operationID, t.requestHash, t.nodeIDs);
      }
    } else if t.Close? {
      StopAllTwice(l, t.operationID, t.requestHash);
    } else if t.Bind? {
      assert m.runs[t.identity.runID := m.runs[t.identity.runID].(identity := t.identity)] == m.runs;
    }
  }

  lemma StopAllTwice(l: LedgerState, operationID: string, requestHash: string)
    requires CloseError(l, operationID, requestHash).None?
    ensures CloseError(StopAll(l, operationID, requestHash), operationID, requestHash).None?
    ensures StopAll(StopAll(l, operationID, requestHash), operationID, requestHash)
            == StopAll(l, operationID, requestHash)
  {
    var m := StopAll(l, operationID, requestHash);
    assert StopAll(m, operationID, requestHash).runs == m.runs;
  }

  lemma StopNodesTwice(l: LedgerState, operationID: string, requestHash: string, nodeIDs: seq<string>)
    requires nodeIDs != [] && l.closedBy == ""
    requires CloseNodesError(l, operationID, requestHash, nodeIDs).None?
    ensures var m := StopNodes(l, operationID, requestHash, nodeIDs);
            && CloseNodesError(m, operationID, requestHash, nodeIDs).None?
            && StopNodes(m, operationID, requestHash, nodeIDs) == m
  {
    var m := StopNodes(l, operationID, requestHash, nodeIDs);
    forall n | n in nodeIDs ensures !UnusableSlot(m, n, operationID, requestHash) {
      assert !UnusableSlot(l, n, operationID, requestHash);
    }
    assert StopNamed(m.runs, operationID, requestHash, nodeIDs) == m.runs;
    assert LabelNodes(m.closedNodes, StopRequest(operationID, requestHash, NO_IDENTITY), nodeIDs) == m.closedNodes;
  }

  // ------------------------------------------------------------------------------ fence finality

  predicate Fenced(nodeIDs: seq<string>, nodeID: string) {
    nodeIDs == [] || nodeID in nodeIDs
  }

  lemma CompleteClosesScope(l: LedgerState, operationID: string, requestHash: string,
                            nodeIDs: seq<string>, pods: seq<string>, nodeID: string)
    requires Complete(l, operationID, requestHash, nodeIDs, pods) && Fenced(nodeIDs, nodeID)
    ensures SlotClosed(l, nodeID)
  {
    if nodeIDs != [] { assert ClosedAs(l, nodeID, operationID, requestHash); }
  }

  /** In every continuation of a completed fence, no run of a fenced slot registers or binds, and
      the runs of the fenced slots are the same runs, unchanged and terminated. */
  lemma FencedRunsAreFinal(l: LedgerState, operationID: string, requestHash: string,
                           nodeIDs: seq<string>, pods: seq<string>, ts: seq<Transition>)
    requires Reachable(l) && Complete(l, operationID, requestHash, nodeIDs, pods)
    ensures var l' := Exec(l, ts);
            && (forall identity: Identity | Fenced(nodeIDs, identity.nodeID) ::
                  RegisterError(l', identity).Some? && BindError(l', identity).Some?)
            && (forall k | k in l.runs && InScope(l.runs[k], nodeIDs) :: k in l'.runs && l'.runs[k] == l.runs[k])
            && (forall k | k in l'.runs && InScope(l'.runs[k], nodeIDs) ::
                  k in l.runs && l'.runs[k] == l.runs[k] && Terminated(l'.runs[k]))
  {
    hide Exec, OneLine, ClosuresWellFormed;
    ReachableInv(l);
    ExecKeepsInv(l, ts);
    EvidenceIsMonotone(l, ts);
    var l' := Exec(l, ts);
    forall k | k in l.runs && InScope(l.runs[k], nodeIDs) ensures k in l'.runs && l'.runs[k] == l.runs[k] {
      assert RunEvolves(l.runs[k], l'.runs[k]) && Terminated(l.runs[k]);
    }
    forall k | k in l'.runs && InScope(l'.runs[k], nodeIDs)
      ensures k in l.runs && l'.runs[k] == l.runs[k] && Terminated(l'.runs[k])
    {
      if k !in l.runs {
        CompleteClosesScope(l, operationID, requestHash, nodeIDs, pods, l'.runs[k].identity.nodeID);
        assert false;
      }
      assert RunEvolves(l.runs[k], l'.runs[k]);
      assert InScope(l.runs[k], nodeIDs);
    }
    forall identity: Identity | Fenced(nodeIDs, identity.nodeID)
      ensures RegisterError(l', identity).Some? && BindError(l', identity).Some?
    {
      CompleteClosesScope(l, operationID, requestHash, nodeIDs, pods, identity.nodeID);
      if identity.runID in l'.runs { assert RunWellFormed(l', identity.runID, l'.runs[identity.runID]); }
    }
  }

  /** In every continuation, a completed operation still completes exactly while its labels stand;
      the label of a generation-wide operation stands forever. */
  lemma CompletionFollowsLabels(l: LedgerState, operationID: string, requestHash: string,
                                nodeIDs: seq<string>, pods: seq<string>, ts: seq<Transition>)
    requires Reachable(l) && Complete(l, operationID, requestHash, nodeIDs, pods)
    ensures Complete(Exec(l, ts), operationID, requestHash, nodeIDs, pods)
            <==> Labelled(Exec(l, ts), operationID, requestHash, nodeIDs)
    ensures nodeIDs == [] ==> Complete(Exec(l, ts), operationID, requestHash, nodeIDs, pods)
  {
    hide Exec, Reachable, RegisterError, BindError, Terminated, NodeObserved, PodRegistered, Inv, RunEvolves;
    ReachableInv(l);
    EvidenceIsMonotone(l, ts);
    FencedRunsAreFinal(l, operationID, requestHash, nodeIDs, pods, ts);
    var l' := Exec(l, ts);
    assert l'.runs != map[] by {
      var k :| k in l.runs;
      assert k in l'.runs;
    }
    ScopeIsObserved(l, l', nodeIDs, pods);
  }

  /** Whoever was seen among the runs in scope is still seen if those runs are still there. */
  lemma ScopeIsObserved(l: LedgerState, l': LedgerState, nodeIDs: seq<string>, pods: seq<string>)
    requires forall k | k in l.runs && InScope(l.runs[k], nodeIDs) :: k in l'.runs && l'.runs[k] == l.runs[k]
    requires forall n | n in nodeIDs :: NodeObserved(l, n)
    requires forall uid | uid in pods :: PodRegistered(l, nodeIDs, uid)
    ensures forall n | n in nodeIDs :: NodeObserved(l', n)
    ensures forall uid | uid in pods :: PodRegistered(l', nodeIDs, uid)
  {
    forall n | n in nodeIDs ensures NodeObserved(l', n) {
      assert NodeObserved(l, n);
      var k :| k in l.runs && l.runs[k].identity.nodeID == n;
      assert k in l'.runs && l'.runs[k] == l.runs[k];
    }
    forall uid | uid in pods ensures PodRegistered(l', nodeIDs, uid) {
      assert PodRegistered(l, nodeIDs, uid);
      var k :| k in l.runs && InScope(l.runs[k], nodeIDs) && l.runs[k].identity.podUID == uid;
      assert k in l'.runs && l'.runs[k] == l.runs[k];
    }
  }

  /** An accepted closing of a shared slot by another operation, with the generation open. */
  ghost predicate Relabels(l: LedgerState, operationID: string, nodeIDs: seq<string>, t: Transition) {
    && t.CloseNodes? && Error(l, t).None? && l.closedBy == "" && t.operationID != operationID
    && exists n :: n in nodeIDs && n in t.nodeIDs
  }

  lemma OnlyRelabellingRevokes(l: LedgerState, operationID: string, requestHash: string,
                               nodeIDs: seq<string>, pods: seq<string>, t: Transition)
    requires Reachable(l) && Complete(l, operationID, requestHash, nodeIDs, pods)
    requires !Complete(Next(l, t), operationID, requestHash, nodeIDs, pods)
    ensures Relabels(l, operationID, nodeIDs, t)
  {
    CompletionFollowsLabels(l, operationID, requestHash, nodeIDs, pods, [t]);
    assert Exec(l, [t]) == Next(l, t);
    var n :| n in nodeIDs && !ClosedAs(Next(l, t), n, operationID, requestHash);
    assert ClosedAs(l, n, operationID, requestHash);
    if t.CloseNodes? && n in t.nodeIDs && Error(l, t).None? && l.closedBy == "" {
      assert !UnusableSlot(l, n, t.operationID, t.requestHash);
    }
  }

  /** Exactly which next transition takes a completion away, told from the ledger before it. */
  lemma CompletionRevokedIff(l: LedgerState, operationID: string, requestHash: string,
                             nodeIDs: seq<string>, pods: seq<string>, t: Transition)
    requires Reachable(l) && Complete(l, operationID, requestHash, nodeIDs, pods)
    ensures !Complete(Next(l, t), operationID, requestHash, nodeIDs, pods) <==> Relabels(l, operationID, nodeIDs, t)
  {
    hide Reachable;
    if !Complete(Next(l, t), operationID, requestHash, nodeIDs, pods) {
      OnlyRelabellingRevokes(l, operationID, requestHash, nodeIDs, pods, t);
    }
    if Relabels(l, operationID, nodeIDs, t) {
      var n :| n in nodeIDs && n in t.nodeIDs;
      assert !ClosedAs(Next(l, t), n, operationID, requestHash);
    }
  }

  ghost predicate CompleteThroughout(l: LedgerState, operationID: string, requestHash: string,
                                     nodeIDs: seq<string>, pods: seq<string>, ts: seq<Transition>)
    decreases |ts|
  {
    && Complete(l, operationID, requestHash, nodeIDs, pods)
    && (ts == [] || CompleteThroughout(Next(l, ts[0]), operationID, requestHash, nodeIDs, pods, ts[1..]))
  }

  ghost predicate NeverRelabelled(l: LedgerState, operationID: string, nodeIDs: seq<string>, ts: seq<Transition>)
    decreases |ts|
  {
    ts == [] || (!Relabels(l, operationID, nodeIDs, ts[0])
                 && NeverRelabelled(Next(l, ts[0]), operationID, nodeIDs, ts[1..]))
  }

  /** Over whole runs: a completion holds all along exactly if no step of the run relabels one of its slots. */
  lemma {:induction false} CompletionLastsIff(l: LedgerState, operationID: string, requestHash: string,
                                              nodeIDs: seq<string>, pods: seq<string>, ts: seq<Transition>)
    requires Reachable(l) && Complete(l, operationID, requestHash, nodeIDs, pods)
    ensures CompleteThroughout(l, operationID, requestHash, nodeIDs, pods, ts)
            <==> NeverRelabelled(l, operationID, nodeIDs, ts)
    decreases |ts|
  {
    hide Reachable, Complete, Relabels, Next;
    if ts != [] {
      CompletionRevokedIff(l, operationID, requestHash, nodeIDs, pods, ts[0]);
      if Complete(Next(l, ts[0]), operationID, requestHash, nodeIDs, pods) {
        ReachableNext(l, ts[0]);
        CompletionLastsIff(Next(l, ts[0]), operationID, requestHash, nodeIDs, pods, ts[1..]);
      }
    }
  }

  lemma {:induction false} ExecLast(l: LedgerState, ts: seq<Transition>, t: Transition)
    ensures Exec(l, ts + [t]) == Next(Exec(l, ts), t)
    decreases |ts|
  {
    hide Next;
    if ts == [] {
      assert (ts + [t])[1..] == [];
    } else {
      assert (ts + [t])[1..] == ts[1..] + [t];
      ExecLast(Next(l, ts[0]), ts[1..], t);
    }
  }

  lemma ReachableNext(l: LedgerState, t: Transition)
    requires Reachable(l)
    ensures Reachable(Next(l, t))
  {
    hide Exec;
    var ts :| l == Exec(EmptyLedger(l.sourceClusterID), ts);
    ExecLast(EmptyLedger(l.sourceClusterID), ts, t);
    SameCluster(l, t);
    assert Next(l, t) == Exec(EmptyLedger(Next(l, t).sourceClusterID), ts + [t]);
  }

  lemma SameCluster(l: LedgerState, t: Transition)
    ensures Next(l, t).sourceClusterID == l.sourceClusterID
  {
  }

  /** Such a revocation does happen: one unbound run, stopped and exited, then closed by a second operation. */
  lemma VoterCompletionCanBeRevoked()
    ensures exists l, t :: Reachable(l) && Complete(l, "op", "h", ["a"], []) && Relabels(l, "op", ["a"], t)
                           && !Complete(Next(l, t), "op", "h", ["a"], [])
  {
    hide Reachable;
    var l := OneNeverBoundRun();
    var t := CloseNodes("op2", "h2", ["a"]);
    assert "a" in ["a"];
    assert Error(l, t).None? by {
      assert !UnusableSlot(l, "a", "op2", "h2");
    }
    assert Relabels(l, "op", ["a"], t);
    CompletionRevokedIff(l, "op", "h", ["a"], [], t);
  }

  lemma OneNeverBoundRun() returns (l: LedgerState)
    ensures Reachable(l) && Complete(l, "op", "h", ["a"], []) && l.closedBy == ""
    ensures l.closedNodes == map["a" := StopRequest("op", "h", NO_IDENTITY)]
  {
    hide Reachable, Exec, Next;
    var id := Identity("c", "a", "pod", "run", "");
    var stop := StopRequest("op", "h", id);
    var l0 := StartReachable();
    var l1 := l0.(runs := map["run" := NewRun(id)]);
    ReachableNext(l0, Register(id));
    RegisterOne(l0, id);
    var l2 := l1.(runs := map["run" := NewRun(id).(stop := Some(stop))],
                  closedNodes := map["a" := StopRequest("op", "h", NO_IDENTITY)]);
    ReachableNext(l1, CloseNodes("op", "h", ["a"]));
    CloseOne(l1, id, "op", "h");
    l := l2.(runs := map["run" := Run(id, Some(stop), None, true, Some(stop))]);
    ReachableNext(l2, RecordNeverBoundExit(stop));
    ExitOne(l2, stop);
    assert NodeObserved(l, "a") by { assert "run" in l.runs; }
  }

  lemma RegisterOne(l: LedgerState, id: Identity)
    requires l == EmptyLedger(id.sourceClusterID) && id.nodeID != "" && id.podUID != "" && id.runID != ""
    requires id.walIdentity == ""
    ensures Next(l, Register(id)) == l.(runs := map[id.runID := NewRun(id)])
  {
  }

  lemma CloseOne(l: LedgerState, id: Identity, operationID: string, requestHash: string)
    requires l.runs == map[id.runID := NewRun(id)] && l.closedNodes == map[] && l.closedBy == ""
    requires operationID != "" && requestHash != "" && id.nodeID != ""
    ensures Next(l, CloseNodes(operationID, requestHash, [id.nodeID]))
            == l.(runs := map[id.runID := NewRun(id).(stop := Some(StopRequest(operationID, requestHash, id)))],
                  closedNodes := map[id.nodeID := StopRequest(operationID, requestHash, NO_IDENTITY)])
  {
  }

  lemma ExitOne(l: LedgerState, stop: StopRequest)
    requires l.runs == map[stop.identity.runID := NewRun(stop.identity).(stop := Some(stop))]
    requires stop.identity.walIdentity == "" && stop.identity.nodeID in l.closedNodes
    ensures Next(l, RecordNeverBoundExit(stop))
            == l.(runs := map[stop.identity.runID := Run(stop.identity, Some(stop), None, true, Some(stop))])
  {
  }

  lemma StartReachable() returns (l: LedgerState)
    ensures Reachable(l) && l == EmptyLedger("c")
  {
    l := EmptyLedger("c");
    assert l == Exec(EmptyLedger(l.sourceClusterID), []);
  }

  /** Relabelling every slot of a completed voter operation is always admitted; it revokes that
      operation's completion and completes the new operation at once. */
  lemma RelabellingTransfersCompletion(l: LedgerState, operationID: string, requestHash: string,
                                       nodeIDs: seq<string>, pods: seq<string>, newID: string, newHash: string)
    requires Reachable(l) && Complete(l, operationID, requestHash, nodeIDs, pods) && nodeIDs != []
    requires l.closedBy == "" && newID != "" && newHash != "" && newID != operationID
    ensures var t := CloseNodes(newID, newHash, nodeIDs);
            && Error(l, t).None?
            && !Complete(Next(l, t), operationID, requestHash, nodeIDs, pods)
            && Complete(Next(l, t), newID, newHash, nodeIDs, pods)
  {
    hide Inv, Exec, Error, Next, Reachable, Labelled, RegisterError, BindError, Terminated, NodeObserved, PodRegistered;
    var t := CloseNodes(newID, newHash, nodeIDs);
    ReachableInv(l);
    RelabellingIsAdmitted(l, operationID, requestHash, nodeIDs, newID, newHash);
    var l' := Next(l, t);
    ExecOne(l, t);
    FencedRunsAreFinal(l, operationID, requestHash, nodeIDs, pods, [t]);
    CompletionFollowsLabels(l, operationID, requestHash, nodeIDs, pods, [t]);
    ScopeIsObserved(l, l', nodeIDs, pods);
  }

  lemma ExecOne(l: LedgerState, t: Transition)
    ensures Exec(l, [t]) == Next(l, t)
  {
    hide Next;
    assert [t][1..] == [];
  }

  /** The slots change hands and nothing is refused: their names are proper and the new operation is not the old one. */
  lemma RelabellingIsAdmitted(l: LedgerState, operationID: string, requestHash: string, nodeIDs: seq<string>,
                              newID: string, newHash: string)
    requires Inv(l) && Labelled(l, operationID, requestHash, nodeIDs) && nodeIDs != []
    requires l.closedBy == "" && newID != "" && newHash != "" && newID != operationID
    ensures var t := CloseNodes(newID, newHash, nodeIDs);
            && Error(l, t).None? && Labelled(Next(l, t), newID, newHash, nodeIDs)
            && !Labelled(Next(l, t), operationID, requestHash, nodeIDs) && Next(l, t).runs.Keys == l.runs.Keys
  {
    hide OneLine, RunsWellFormed, StopIfNamed;
    forall n | n in nodeIDs ensures !UnusableSlot(l, n, newID, newHash) {
      assert ClosedAs(l, n, operationID, requestHash);
    }
    assert !ClosedAs(Next(l, CloseNodes(newID, newHash, nodeIDs)), nodeIDs[0], operationID, requestHash);
  }

  // ---------------------------------------------------------------------------------- escalation

  /** A generation close leaves the answer of every voter completion unchanged. */
  lemma EscalationKeepsVoterAnswer(l: LedgerState, escalationID: string, escalationHash: string,
                                   operationID: string, requestHash: string, nodeIDs: seq<string>, pods: seq<string>)
    requires Reachable(l) && nodeIDs != []
    ensures Complete(Next(l, Close(escalationID, escalationHash)), operationID, requestHash, nodeIDs, pods)
            <==> Complete(l, operationID, requestHash, nodeIDs, pods)
  {
    hide Reachable, Inv, Terminated, StopRun;
    ReachableInv(l);
    var l' := Next(l, Close(escalationID, escalationHash));
    if Labelled(l, operationID, requestHash, nodeIDs) {
      forall k | k in l.runs && InScope(l.runs[k], nodeIDs) ensures l'.runs[k] == l.runs[k] {
        StoppedStaysAsIs(l, escalationID, escalationHash, operationID, requestHash, nodeIDs, k);
      }
    }
    forall k | k in l.runs ensures l'.runs[k].identity == l.runs[k].identity {
      StopRunKeepsIdentity(l.runs[k], escalationID, escalationHash);
    }
    assert forall uid :: PodRegistered(l', nodeIDs, uid) <==> PodRegistered(l, nodeIDs, uid);
    assert forall n :: NodeObserved(l', n) <==> NodeObserved(l, n);
    assert l'.runs != map[] <==> l.runs != map[] by {
      if k :| k in l.runs { assert k in l'.runs; }
    }
  }

  lemma StopRunKeepsIdentity(run: Run, operationID: string, requestHash: string)
    ensures StopRun(run, operationID, requestHash).identity == run.identity
  {
  }

  lemma StoppedStaysAsIs(l: LedgerState, escalationID: string, escalationHash: string,
                         operationID: string, requestHash: string, nodeIDs: seq<string>, k: string)
    requires Inv(l) && k in l.runs && l.runs[k].identity.nodeID in nodeIDs
    requires Labelled(l, operationID, requestHash, nodeIDs)
    ensures Next(l, Close(escalationID, escalationHash)).runs[k] == l.runs[k]
  {
    hide OneLine, ClosuresWellFormed;
    assert RunWellFormed(l, k, l.runs[k]);
    assert ClosedAs(l, l.runs[k].identity.nodeID, operationID, requestHash);
  }

  /** Escalation commutes with every admitted drain, exit and never-bound exit, so whatever a voter
      operation could still record it can record after escalation, with the same outcome. */
  lemma EscalationCommutesWithEvidence(l: LedgerState, escalationID: string, escalationHash: string, t: Transition)
    requires Reachable(l) && EvidenceStep(t) && Error(l, t).None?
    requires CloseError(l, escalationID, escalationHash).None?
    ensures var close := Close(escalationID, escalationHash);
            && Error(Next(l, close), t).None?
            && Error(Next(l, t), close).None?
            && Next(Next(l, close), t) == Next(Next(l, t), close)
  {
    hide Inv, StopAll, RunWellFormed, RunEvolves, Error, Effect;
    ReachableInv(l);
    var close := Close(escalationID, escalationHash);
    var k := EvidenceRun(t);
    EvidenceRunExists(l, t);
    EvidenceOfStopped(l, t);
    EscalationStandsBeside(l, escalationID, escalationHash, t);
    var escalated := Next(l, close);
    StopAllKeepsInv(l, escalationID, escalationHash);
    var run := Recorded(t, l.runs[k]);
    CloseIs(l, escalationID, escalationHash);
    EvidenceReplaces(l, t, k, run);
    EvidenceReplaces(escalated, t, k, run);
    CloseIs(Next(l, t), escalationID, escalationHash);
    StopAllSkipsStopped(l, escalationID, escalationHash, k, run);
  }

  lemma EvidenceOfStopped(l: LedgerState, t: Transition)
    requires EvidenceStep(t) && Error(l, t).None?
    ensures EvidenceRun(t) in l.runs && l.runs[EvidenceRun(t)].stop.Some?
  {
  }

  lemma CloseIs(l: LedgerState, operationID: string, requestHash: string)
    ensures Error(l, Close(operationID, requestHash)) == CloseError(l, operationID, requestHash)
    ensures CloseError(l, operationID, requestHash).None? ==>
              Next(l, Close(operationID, requestHash)) == StopAll(l, operationID, requestHash)
  {
  }

  /** Closing the generation leaves a stopped run, and what may be recorded of it, as they are. */
  lemma EscalationStandsBeside(l: LedgerState, operationID: string, requestHash: string, t: Transition)
    requires EvidenceStep(t) && Error(l, t).None? && CloseError(l, operationID, requestHash).None?
    ensures var m, k := StopAll(l, operationID, requestHash), EvidenceRun(t);
            k in l.runs && k in m.runs && m.runs[k] == l.runs[k] && Error(m, t).None?
    ensures CloseError(Next(l, t), operationID, requestHash).None?
  {
  }

  lemma StopAllSkipsStopped(l: LedgerState, operationID: string, requestHash: string, k: string, run: Run)
    requires k in l.runs && run.stop.Some?
    ensures StopAll(l.(runs := l.runs[k := run]), operationID, requestHash)
            == var m := StopAll(l, operationID, requestHash); m.(runs := m.runs[k := run])
  {
  }

  /** Conversely, escalation admits no evidence about a slot that was already fenced. */
  lemma EscalationAdmitsNothingNew(l: LedgerState, escalationID: string, escalationHash: string,
                                   t: Transition, k: string)
    requires Reachable(l) && EvidenceStep(t)
    requires k == EvidenceRun(t) && k in l.runs && l.runs[k].identity.nodeID in l.closedNodes
    ensures Error(Next(l, Close(escalationID, escalationHash)), t) == Error(l, t)
  {
    ReachableInv(l);
    assert RunWellFormed(l, k, l.runs[k]);
    assert Next(l, Close(escalationID, escalationHash)).runs[k] == l.runs[k];
  }

  // ------------------------------------------------------------------- which runs can still exit

  /** Evidence that blocks an exit for good: a drain that is unclean, or of an unbound run. */
  predicate ExitBlocked(run: Run) {
    run.drain.Some? && (!run.drain.value.Clean() || run.identity.walIdentity == "")
  }

  ghost predicate ExitsBy(l: LedgerState, k: string, ts: seq<Transition>) {
    k in Exec(l, ts).runs && Exec(l, ts).runs[k].exited
  }

  lemma BlockedNeverExits(l: LedgerState, k: string, ts: seq<Transition>)
    requires Reachable(l) && k in l.runs && ExitBlocked(l.runs[k])
    ensures k in Exec(l, ts).runs && !Exec(l, ts).runs[k].exited
  {
    ReachableInv(l);
    ExecKeepsInv(l, ts);
    EvidenceIsMonotone(l, ts);
    assert RunWellFormed(l, k, l.runs[k]);
    assert RunWellFormed(Exec(l, ts), k, Exec(l, ts).runs[k]);
    assert RunEvolves(l.runs[k], Exec(l, ts).runs[k]);
  }

  /** The transitions that take an unblocked run to its exit. */
  ghost function ExitPlan(l: LedgerState, k: string): seq<Transition>
    requires k in l.runs
  {
    var run := l.runs[k];
    var request := if run.stop.Some? then run.stop.value else StopRequest("op", "hash", run.identity);
    var close := if run.stop.Some? then [] else [Close("op", "hash")];
    if run.identity.walIdentity == "" then close + [RecordNeverBoundExit(request)]
    else
      var receipt := if run.drain.Some? then run.drain.value else DrainReceipt(request, true, 0, 0);
      close + [RecordDrain(receipt), RecordExit(request)]
  }

  lemma StoppedPlanExits(l: LedgerState, k: string)
    requires Inv(l) && k in l.runs && l.runs[k].stop.Some? && !l.runs[k].exited && !ExitBlocked(l.runs[k])
    ensures var l' := Exec(l, ExitPlan(l, k)); k in l'.runs && l'.runs[k].exited
  {
    hide Inv, Next, ExitBlocked;
    PlanOfStopped(l, k);
    if l.runs[k].identity.walIdentity == "" {
      ExecOne(l, ExitPlan(l, k)[0]);
      UnboundExits(l, k);
    } else {
      var plan := ExitPlan(l, k);
      ExecOne(Next(l, plan[0]), plan[1]);
      BoundExits(l, k);
      assert plan[1..] == [plan[1]];
    }
  }

  lemma PlanOfStopped(l: LedgerState, k: string)
    requires k in l.runs && l.runs[k].stop.Some?
    ensures var run := l.runs[k];
            ExitPlan(l, k) == if run.identity.walIdentity == "" then [RecordNeverBoundExit(run.stop.value)]
                              else [RecordDrain(ReceiptOf(run)), RecordExit(run.stop.value)]
  {
  }

  /** The receipt a stopped run has, or a clean one. */
  ghost function ReceiptOf(run: Run): DrainReceipt
    requires run.stop.Some?
  {
    if run.drain.Some? then run.drain.value else DrainReceipt(run.stop.value, true, 0, 0)
  }

  lemma UnboundExits(l: LedgerState, k: string)
    requires Inv(l) && k in l.runs && l.runs[k].stop.Some? && !l.runs[k].exited && !ExitBlocked(l.runs[k])
    requires l.runs[k].identity.walIdentity == ""
    ensures var m := Next(l, RecordNeverBoundExit(l.runs[k].stop.value)); k in m.runs && m.runs[k].exited
  {
    hide OneLine, ClosuresWellFormed;
    assert RunWellFormed(l, k, l.runs[k]);
  }

  lemma BoundExits(l: LedgerState, k: string)
    requires Inv(l) && k in l.runs && l.runs[k].stop.Some? && !l.runs[k].exited && !ExitBlocked(l.runs[k])
    requires l.runs[k].identity.walIdentity != ""
    ensures var m := Next(Next(l, RecordDrain(ReceiptOf(l.runs[k]))), RecordExit(l.runs[k].stop.value));
            k in m.runs && m.runs[k].exited
  {
    hide OneLine, ClosuresWellFormed;
    assert RunWellFormed(l, k, l.runs[k]);
    var m := Next(l, RecordDrain(ReceiptOf(l.runs[k])));
    assert m.runs[k] == l.runs[k].(drain := Some(ReceiptOf(l.runs[k])));
  }

  lemma PlanStartsByClosing(l: LedgerState, k: string)
    requires Inv(l) && k in l.runs && l.runs[k].stop.None? && !ExitBlocked(l.runs[k]) && !l.runs[k].exited
    ensures var m := Next(l, Close("op", "hash"));
            && k in m.runs && m.runs[k].stop.Some? && !ExitBlocked(m.runs[k]) && !m.runs[k].exited
            && ExitPlan(l, k) != [] && ExitPlan(l, k)[0] == Close("op", "hash") && ExitPlan(l, k)[1..] == ExitPlan(m, k)
  {
    hide OneLine, ClosuresWellFormed;
    assert RunWellFormed(l, k, l.runs[k]);
    var m := Next(l, Close("op", "hash"));
    assert m.runs[k] == StopRun(l.runs[k], "op", "hash");
    assert ExitPlan(l, k) == [Close("op", "hash")] + ExitPlan(m, k);
  }

  lemma UnblockedCanExit(l: LedgerState, k: string)
    requires Reachable(l) && k in l.runs && !ExitBlocked(l.runs[k]) && !l.runs[k].exited
    ensures var l' := Exec(l, ExitPlan(l, k)); k in l'.runs && l'.runs[k].exited
  {
    hide Inv, Next, ExitPlan;
    ReachableInv(l);
    if l.runs[k].stop.Some? {
      StoppedPlanExits(l, k);
    } else {
      var close := Close("op", "hash");
      NextKeepsInv(l, close);
      PlanStartsByClosing(l, k);
      StoppedPlanExits(Next(l, close), k);
    }
  }

  /** Exactly the runs without blocking evidence can still be brought to an exit. */
  lemma ExitReachableIff(l: LedgerState, k: string)
    requires Reachable(l) && k in l.runs
    ensures (exists ts: seq<Transition> :: ExitsBy(l, k, ts)) <==> !ExitBlocked(l.runs[k])
  {
    if ExitBlocked(l.runs[k]) {
      forall ts: seq<Transition> ensures !ExitsBy(l, k, ts) {
        BlockedNeverExits(l, k, ts);
      }
    } else if l.runs[k].exited {
      ReachableInv(l);
      assert RunWellFormed(l, k, l.runs[k]);
      assert ExitsBy(l, k, []);
    } else {
      UnblockedCanExit(l, k);
      assert ExitsBy(l, k, ExitPlan(l, k));
    }
  }
}
