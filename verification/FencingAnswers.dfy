/**
 * Which transitions a reachable ledger accepts, and what it then holds, told by the recorded runs and closures alone.
 * `FencingTheorems` says what no run of transitions may do; this is what callers can count on.
 */
module FencingAnswers {
  import opened FencingLedger
  import opened FencingProtocol
  import opened FencingTheorems
  import opened Options

  ghost predicate Accepted(l: LedgerState, t: Transition) { Error(l, t).None? }

  /** Neither the generation nor the slot is closed. */
  predicate SlotOpen(l: LedgerState, nodeID: string) { l.closedBy == "" && nodeID !in l.closedNodes }

  predicate WellNamed(l: LedgerState, i: Identity) {
    i.sourceClusterID == l.sourceClusterID && i.nodeID != "" && i.podUID != "" && i.runID != ""
  }

  // ----------------------------------------------------------------------------- joining the ledger

  /**
   * A new run is registered exactly if its slot is open and every run recorded for the slot came from the same Pod: a
   * restart in the same Pod goes on, another Pod never joins an open slot.
   */
  lemma RegisterAcceptedIff(l: LedgerState, i: Identity)
    requires Reachable(l) && WellNamed(l, i) && i.walIdentity == "" && i.runID !in l.runs
    ensures Accepted(l, Register(i)) <==>
              SlotOpen(l, i.nodeID)
              && forall k | k in l.runs && l.runs[k].identity.nodeID == i.nodeID ::
                   l.runs[k].identity.podUID == i.podUID
    ensures Accepted(l, Register(i)) ==>
              Next(l, Register(i)) == l.(runs := l.runs[i.runID := Run(i, None, None, false, None)])
    ensures !Accepted(l, Register(i)) ==> Next(l, Register(i)) == l
  {
    hide OneLine, ClosuresWellFormed;
    ReachableInv(l);
    if SlotOpen(l, i.nodeID) {
      forall k | k in l.runs && l.runs[k].identity.nodeID == i.nodeID ensures !CleanlyTerminated(l.runs[k]) {
        assert RunWellFormed(l, k, l.runs[k]);
      }
    }
  }

  /** A registration is repeated with success exactly while the run is as registered and its slot is open. */
  lemma RegisterRepeatedIff(l: LedgerState, i: Identity)
    requires Reachable(l) && i.runID in l.runs
    ensures Accepted(l, Register(i)) <==>
              SlotOpen(l, i.nodeID) && l.runs[i.runID].identity == i && i.walIdentity == ""
    ensures Next(l, Register(i)) == l
  {
    hide OneLine, ClosuresWellFormed;
    ReachableInv(l);
    assert RunWellFormed(l, i.runID, l.runs[i.runID]);
  }

  /** What does not name itself properly is refused. */
  lemma IllNamedIsRefused(l: LedgerState, i: Identity)
    requires !WellNamed(l, i) || i.walIdentity != ""
    ensures !Accepted(l, Register(i)) && Next(l, Register(i)) == l
  {
  }

  /**
   * A WAL is bound exactly to a run registered as that identity, in an open slot, if neither it nor any other run of
   * the slot is bound to another WAL.
   */
  lemma BindAcceptedIff(l: LedgerState, i: Identity)
    requires Reachable(l)
    ensures Accepted(l, Bind(i)) <==>
              && i.walIdentity != "" && i.runID in l.runs && SlotOpen(l, i.nodeID)
              && l.runs[i.runID].identity.(walIdentity := "") == i.(walIdentity := "")
              && forall k | k in l.runs && l.runs[k].identity.nodeID == i.nodeID ::
                   l.runs[k].identity.walIdentity == "" || l.runs[k].identity.walIdentity == i.walIdentity
    ensures Accepted(l, Bind(i)) ==>
              Next(l, Bind(i)) == l.(runs := l.runs[i.runID := Run(i, None, None, false, None)])
    ensures !Accepted(l, Bind(i)) ==> Next(l, Bind(i)) == l
  {
    hide OneLine, ClosuresWellFormed;
    ReachableInv(l);
    if i.runID in l.runs {
      assert RunWellFormed(l, i.runID, l.runs[i.runID]);
      forall k | k in l.runs ensures l.runs[k].identity.runID == k { assert RunWellFormed(l, k, l.runs[k]); }
    }
  }

  // ------------------------------------------------------------------------------------- closing it

  /** Each run named by a close is told to stop by it, as itself, unless it was told before; all else stays. */
  ghost predicate ToldToStop(a: Run, b: Run, operationID: string, requestHash: string) {
    && b.identity == a.identity && b.drain == a.drain && b.exited == a.exited && b.neverBoundExit == a.neverBoundExit
    && b.stop.Some?
    && (a.stop.Some? ==> b.stop == a.stop)
    && (a.stop.None? ==> b.stop.value.operationID == operationID && b.stop.value.requestHash == requestHash
                         && b.stop.value.identity == a.identity)
  }

  /** The generation is closed by whoever comes first, for good, and to the same request again. */
  lemma CloseAcceptedIff(l: LedgerState, operationID: string, requestHash: string)
    requires Reachable(l)
    ensures Accepted(l, Close(operationID, requestHash)) <==>
              && operationID != "" && requestHash != ""
              && (l.closedBy == "" || (l.closedBy == operationID && l.closedHash == requestHash))
    ensures Accepted(l, CloseNodes(operationID, requestHash, [])) <==> Accepted(l, Close(operationID, requestHash))
    ensures Next(l, CloseNodes(operationID, requestHash, [])) == Next(l, Close(operationID, requestHash))
    ensures var l' := Next(l, Close(operationID, requestHash));
            if Accepted(l, Close(operationID, requestHash)) then
              && l'.closedBy == operationID && l'.closedHash == requestHash && l'.closedNodes == l.closedNodes
              && l'.runs.Keys == l.runs.Keys
              && forall k | k in l.runs :: ToldToStop(l.runs[k], l'.runs[k], operationID, requestHash)
            else l' == l
  {
    hide RunsWellFormed, OneLine;
    ReachableInv(l);
    var l' := Next(l, Close(operationID, requestHash));
    if Accepted(l, Close(operationID, requestHash)) { assert l'.runs.Keys == l.runs.Keys; }
  }

  /**
   * Slots are closed while the generation is open, unless one is nameless or the same operation closed it for another
   * request; once it is closed, only what has been done already is confirmed.
   */
  lemma CloseNodesAcceptedIff(l: LedgerState, operationID: string, requestHash: string, nodeIDs: seq<string>)
    requires Reachable(l) && nodeIDs != []
    ensures Accepted(l, CloseNodes(operationID, requestHash, nodeIDs)) <==>
              && operationID != "" && requestHash != ""
              && if l.closedBy == "" then
                   forall n | n in nodeIDs ::
                     n != "" && (n in l.closedNodes && l.closedNodes[n].operationID == operationID ==>
                                   l.closedNodes[n].requestHash == requestHash)
                 else
                   forall n | n in nodeIDs ::
                     n in l.closedNodes && l.closedNodes[n].operationID == operationID
                     && l.closedNodes[n].requestHash == requestHash
  {
    if Accepted(l, CloseNodes(operationID, requestHash, nodeIDs)) && l.closedBy == "" {
      assert forall n | n in nodeIDs :: !UnusableSlot(l, n, operationID, requestHash);
    }
    if l.closedBy != "" && Accepted(l, CloseNodes(operationID, requestHash, nodeIDs)) {
      assert forall n | n in nodeIDs :: ClosedAs(l, n, operationID, requestHash);
    }
  }

  lemma CloseNodesStops(l: LedgerState, operationID: string, requestHash: string, nodeIDs: seq<string>)
    requires nodeIDs != [] && Accepted(l, CloseNodes(operationID, requestHash, nodeIDs)) && l.closedBy == ""
    ensures var l' := Next(l, CloseNodes(operationID, requestHash, nodeIDs));
            && l'.closedBy == "" && l'.runs.Keys == l.runs.Keys
            && (forall n :: n in l'.closedNodes <==> n in l.closedNodes || n in nodeIDs)
            && (forall n | n in l'.closedNodes ::
                  if n in nodeIDs then l'.closedNodes[n] == StopRequest(operationID, requestHash, NO_IDENTITY)
                  else l'.closedNodes[n] == l.closedNodes[n])
            && (forall k | k in l.runs ::
                  if l.runs[k].identity.nodeID in nodeIDs
                  then ToldToStop(l.runs[k], l'.runs[k], operationID, requestHash) else l'.runs[k] == l.runs[k])
  {
    var l' := Next(l, CloseNodes(operationID, requestHash, nodeIDs));
    assert l' == StopNodes(l, operationID, requestHash, nodeIDs);
    assert l'.runs.Keys == l.runs.Keys;
  }

  // ------------------------------------------------------------------------------- recording evidence

  /** A drain is recorded for the stop it answers, once, and not after a never-bound exit. */
  lemma DrainAcceptedIff(l: LedgerState, receipt: DrainReceipt)
    requires Reachable(l)
    ensures var k := receipt.request.identity.runID;
            Accepted(l, RecordDrain(receipt)) <==>
              && k in l.runs && l.runs[k].stop == Some(receipt.request) && l.runs[k].neverBoundExit.None?
              && (l.runs[k].drain.None? || l.runs[k].drain == Some(receipt))
    ensures var k := receipt.request.identity.runID;
            Accepted(l, RecordDrain(receipt)) ==>
              && k in l.runs
              && Next(l, RecordDrain(receipt)) == l.(runs := l.runs[k := l.runs[k].(drain := Some(receipt))])
  {
    hide OneLine, ClosuresWellFormed;
    ReachableInv(l);
    var k := receipt.request.identity.runID;
    if k in l.runs { assert RunWellFormed(l, k, l.runs[k]); }
  }

  /** A bound run exits once its stop has been answered by a clean drain. */
  lemma ExitAcceptedIff(l: LedgerState, request: StopRequest)
    requires Reachable(l)
    ensures var k := request.identity.runID;
            Accepted(l, RecordExit(request)) <==>
              && k in l.runs && l.runs[k].stop == Some(request) && l.runs[k].identity.walIdentity != ""
              && l.runs[k].drain.Some? && l.runs[k].drain.value.writersJoined
              && l.runs[k].drain.value.pendingMutations == 0 && l.runs[k].drain.value.unknownMutations == 0
    ensures var k := request.identity.runID;
            Accepted(l, RecordExit(request)) ==>
              k in l.runs && Next(l, RecordExit(request)) == l.(runs := l.runs[k := l.runs[k].(exited := true)])
  {
  }

  /** A run that never bound exits once it is stopped; that its slot is closed need not be asked. */
  lemma NeverBoundExitAcceptedIff(l: LedgerState, request: StopRequest)
    requires Reachable(l)
    ensures var k := request.identity.runID;
            Accepted(l, RecordNeverBoundExit(request)) <==>
              && k in l.runs && l.runs[k].stop == Some(request) && l.runs[k].identity.walIdentity == ""
              && l.runs[k].drain.None?
    ensures var k := request.identity.runID;
            Accepted(l, RecordNeverBoundExit(request)) ==>
              k in l.runs && Next(l, RecordNeverBoundExit(request))
                             == l.(runs := l.runs[k := l.runs[k].(exited := true, neverBoundExit := Some(request))])
  {
    hide OneLine, ClosuresWellFormed;
    ReachableInv(l);
    var k := request.identity.runID;
    if k in l.runs { assert RunWellFormed(l, k, l.runs[k]); }
  }

  // ------------------------------------------------------------------------------------ refusals

  /** Whoever is told `Closed` was in order and came too late; a missing exit proof is `Pending`, all else is wrong. */
  lemma ErrorsMean(l: LedgerState, t: Transition)
    requires Reachable(l) && !Accepted(l, t)
    ensures match t
            case Register(i) =>
              Error(l, t) == Some(Closed) <==> WellNamed(l, i) && i.walIdentity == "" && !SlotOpen(l, i.nodeID)
            case Bind(i) =>
              Error(l, t) == Some(Closed) <==>
                && i.walIdentity != "" && i.runID in l.runs && !SlotOpen(l, i.nodeID)
                && l.runs[i.runID].identity.(walIdentity := "") == i.(walIdentity := "")
                && (l.runs[i.runID].identity.walIdentity == "" || l.runs[i.runID].identity == i)
            case Close(operationID, requestHash) =>
              Error(l, t) == Some(Closed) <==>
                operationID != "" && requestHash != "" && l.closedBy != "" && l.closedBy != operationID
            case CloseNodes(operationID, requestHash, nodeIDs) =>
              nodeIDs != [] ==>
                (Error(l, t) == Some(Closed) <==> operationID == "" || requestHash == "" || l.closedBy != "")
            case RecordDrain(_) => Error(l, t) == Some(Rejected)
            case RecordExit(_) => Error(l, t) == Some(Pending)
            case RecordNeverBoundExit(_) => Error(l, t) == Some(Rejected)
  {
    hide OneLine, ClosuresWellFormed;
    ReachableInv(l);
    if t.Bind? && t.identity.runID in l.runs { assert RunWellFormed(l, t.identity.runID, l.runs[t.identity.runID]); }
    if t.RecordNeverBoundExit? && t.request.identity.runID in l.runs {
      assert RunWellFormed(l, t.request.identity.runID, l.runs[t.request.identity.runID]);
    }
  }

  // ---------------------------------------------------------------------------------- completion

  lemma TerminatedIff(l: LedgerState, k: string)
    requires Inv(l) && k in l.runs
    ensures Terminated(l.runs[k]) <==> l.runs[k].exited
  {
    hide OneLine, ClosuresWellFormed;
    assert RunWellFormed(l, k, l.runs[k]);
  }

  /**
   * In a reachable ledger an exit is evidence enough: an operation is complete exactly if it closed the scope, every
   * run of the scope has exited, every slot it names was seen, and every current Pod had a run there.
   */
  lemma CompleteIff(l: LedgerState, operationID: string, requestHash: string, nodeIDs: seq<string>, pods: seq<string>)
    requires Reachable(l)
    ensures Complete(l, operationID, requestHash, nodeIDs, pods) <==>
              && operationID != "" && requestHash != "" && l.runs != map[]
              && (if nodeIDs == [] then l.closedBy == operationID && l.closedHash == requestHash
                  else forall n | n in nodeIDs ::
                         n in l.closedNodes && l.closedNodes[n].operationID == operationID
                         && l.closedNodes[n].requestHash == requestHash)
              && (forall k | k in l.runs && (nodeIDs == [] || l.runs[k].identity.nodeID in nodeIDs) :: l.runs[k].exited)
              && (forall n | n in nodeIDs :: exists k :: k in l.runs && l.runs[k].identity.nodeID == n)
              && (forall uid | uid in pods ::
                    exists k :: k in l.runs && (nodeIDs == [] || l.runs[k].identity.nodeID in nodeIDs)
                                && l.runs[k].identity.podUID == uid)
  {
    hide Inv, Terminated, Reachable;
    ReachableInv(l);
    forall k | k in l.runs ensures Terminated(l.runs[k]) <==> l.runs[k].exited { TerminatedIff(l, k); }
    if Complete(l, operationID, requestHash, nodeIDs, pods) {
      forall n | n in nodeIDs ensures exists k :: k in l.runs && l.runs[k].identity.nodeID == n {
        assert NodeObserved(l, n);
      }
      forall uid | uid in pods
        ensures exists k :: k in l.runs && (nodeIDs == [] || l.runs[k].identity.nodeID in nodeIDs)
                            && l.runs[k].identity.podUID == uid
      {
        assert PodRegistered(l, nodeIDs, uid);
      }
    }
  }
}
