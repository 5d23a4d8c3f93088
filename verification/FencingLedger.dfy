/**
 * The fencing ledger (pkg/fencing/ledger.go): first the transitions as functions of the durable
 * value, then the class whose methods update that value in place, each proved against them.
 */
module FencingLedger {
  import opened FencingProtocol
  import opened Options

  /** One source generation's durable compare-and-swap value. */
  datatype LedgerState = LedgerState(
    sourceClusterID: string,
    closedBy: string,
    closedHash: string,
    closedNodes: map<string, StopRequest>,
    runs: map<string, Run>)

  function EmptyLedger(sourceClusterID: string): LedgerState {
    LedgerState(sourceClusterID, "", "", map[], map[])
  }

  datatype Transition =
    | Register(identity: Identity)
    | Bind(identity: Identity)
    | CloseNodes(operationID: string, requestHash: string, nodeIDs: seq<string>)
    | Close(operationID: string, requestHash: string)
    | RecordDrain(receipt: DrainReceipt)
    | RecordExit(request: StopRequest)
    | RecordNeverBoundExit(request: StopRequest)

  // ---------------------------------------------------------------- admission of each transition

  ghost predicate CleanlyTerminated(run: Run) {
    run.exited && run.drain.Some? && run.drain.value.Clean()
  }

  ghost predicate EarlierIncarnationOpen(l: LedgerState, identity: Identity) {
    exists k :: k in l.runs && l.runs[k].identity.nodeID == identity.nodeID
                && l.runs[k].identity.podUID != identity.podUID && !CleanlyTerminated(l.runs[k])
  }

  ghost function RegisterError(l: LedgerState, identity: Identity): Option<FenceError> {
    if identity.sourceClusterID != l.sourceClusterID || identity.nodeID == "" || identity.podUID == ""
       || identity.runID == "" || identity.walIdentity != "" then Some(Rejected)
    else if l.closedBy != "" || identity.nodeID in l.closedNodes then Some(Closed)
    else if identity.runID in l.runs then
      var run := l.runs[identity.runID];
      if run.identity == identity && run.stop.None? then None else Some(Rejected)
    else if EarlierIncarnationOpen(l, identity) then Some(Rejected)
    else None
  }

  ghost predicate HistoricalWALDiffers(l: LedgerState, identity: Identity) {
    exists k :: k in l.runs && l.runs[k].identity.runID != identity.runID
                && l.runs[k].identity.nodeID == identity.nodeID
                && l.runs[k].identity.walIdentity != ""
                && l.runs[k].identity.walIdentity != identity.walIdentity
  }

  ghost function BindError(l: LedgerState, identity: Identity): Option<FenceError> {
    if identity.runID !in l.runs || identity.walIdentity == "" then Some(Rejected)
    else
      var run := l.runs[identity.runID];
      if identity.(walIdentity := run.identity.walIdentity) != run.identity
         || (run.identity.walIdentity != "" && run.identity.walIdentity != identity.walIdentity) then Some(Rejected)
      else if l.closedBy != "" || run.stop.Some? then Some(Closed)
      else if HistoricalWALDiffers(l, identity) then Some(Rejected)
      else None
  }

  predicate ClosedAs(l: LedgerState, nodeID: string, operationID: string, requestHash: string) {
    nodeID in l.closedNodes && l.closedNodes[nodeID].operationID == operationID
    && l.closedNodes[nodeID].requestHash == requestHash
  }

  predicate HashChanged(l: LedgerState, nodeID: string, operationID: string, requestHash: string) {
    nodeID in l.closedNodes && l.closedNodes[nodeID].operationID == operationID
    && l.closedNodes[nodeID].requestHash != requestHash
  }

  predicate UnusableSlot(l: LedgerState, nodeID: string, operationID: string, requestHash: string) {
    nodeID == "" || HashChanged(l, nodeID, operationID, requestHash)
  }

  ghost function CloseError(l: LedgerState, operationID: string, requestHash: string): Option<FenceError> {
    if operationID == "" || requestHash == "" then Some(Rejected)
    else if l.closedBy != "" && l.closedBy != operationID then Some(Closed)
    else if l.closedBy == operationID && l.closedHash != requestHash then Some(Rejected)
    else None
  }

  ghost function CloseNodesError(l: LedgerState, operationID: string, requestHash: string, nodeIDs: seq<string>)
    : Option<FenceError>
  {
    if nodeIDs == [] then CloseError(l, operationID, requestHash)
    else if operationID == "" || requestHash == "" then Some(Closed)
    else if l.closedBy != "" then
      if forall n | n in nodeIDs :: ClosedAs(l, n, operationID, requestHash) then None else Some(Closed)
    else if exists n | n in nodeIDs :: UnusableSlot(l, n, operationID, requestHash) then Some(Rejected)
    else None
  }

  ghost function RecordDrainError(l: LedgerState, receipt: DrainReceipt): Option<FenceError> {
    var k := receipt.request.identity.runID;
    if k !in l.runs || l.runs[k].stop != Some(receipt.request) then Some(Rejected)
    else if l.runs[k].neverBoundExit.Some? then Some(Rejected)
    else if l.runs[k].drain.Some? && l.runs[k].drain != Some(receipt) then Some(Rejected)
    else None
  }

  ghost function RecordExitError(l: LedgerState, request: StopRequest): Option<FenceError> {
    var k := request.identity.runID;
    if k !in l.runs || l.runs[k].identity.walIdentity == "" || l.runs[k].stop != Some(request)
       || l.runs[k].drain.None? || !l.runs[k].drain.value.Clean() then Some(Pending)
    else None
  }

  ghost function RecordNeverBoundExitError(l: LedgerState, request: StopRequest): Option<FenceError> {
    var k := request.identity.runID;
    if k !in l.runs || l.runs[k].identity.walIdentity != "" || l.runs[k].drain.Some?
       || request.identity != l.runs[k].identity || l.runs[k].stop != Some(request) then Some(Rejected)
    else if l.closedBy == "" && l.runs[k].identity.nodeID !in l.closedNodes then Some(Pending)
    else None
  }

  ghost function Error(l: LedgerState, t: Transition): Option<FenceError> {
    match t
    case Register(identity) => RegisterError(l, identity)
    case Bind(identity) => BindError(l, identity)
    case CloseNodes(operationID, requestHash, nodeIDs) => CloseNodesError(l, operationID, requestHash, nodeIDs)
    case Close(operationID, requestHash) => CloseError(l, operationID, requestHash)
    case RecordDrain(receipt) => RecordDrainError(l, receipt)
    case RecordExit(request) => RecordExitError(l, request)
    case RecordNeverBoundExit(request) => RecordNeverBoundExitError(l, request)
  }

  // ------------------------------------------------------------------- effect of each transition

  function StopRun(run: Run, operationID: string, requestHash: string): Run {
    if run.stop.Some? then run
    else run.(stop := Some(StopRequest(operationID, requestHash, run.identity)))
  }

  ghost function StopAll(l: LedgerState, operationID: string, requestHash: string): LedgerState {
    l.(closedBy := operationID, closedHash := requestHash,
       runs := map k | k in l.runs :: StopRun(l.runs[k], operationID, requestHash))
  }

  function StopIfNamed(run: Run, operationID: string, requestHash: string, nodeIDs: seq<string>): Run {
    if run.identity.nodeID in nodeIDs then StopRun(run, operationID, requestHash) else run
  }

  ghost function LabelNodes(closedNodes: map<string, StopRequest>, closure: StopRequest, nodeIDs: seq<string>)
    : map<string, StopRequest>
  {
    map n | n in closedNodes.Keys + (set m | m in nodeIDs) :: if n in nodeIDs then closure else closedNodes[n]
  }

  ghost function StopNamed(runs: map<string, Run>, operationID: string, requestHash: string, nodeIDs: seq<string>)
    : map<string, Run>
  {
    map k | k in runs :: StopIfNamed(runs[k], operationID, requestHash, nodeIDs)
  }

  ghost function StopNodes(l: LedgerState, operationID: string, requestHash: string, nodeIDs: seq<string>)
    : LedgerState {
    l.(closedNodes := LabelNodes(l.closedNodes, StopRequest(operationID, requestHash, NO_IDENTITY), nodeIDs),
       runs := StopNamed(l.runs, operationID, requestHash, nodeIDs))
  }

  lemma StopIfNamedTwice(run: Run, operationID: string, requestHash: string, nodeIDs: seq<string>, n: string)
    ensures StopIfNamed(StopIfNamed(run, operationID, requestHash, nodeIDs), operationID, requestHash, [n])
            == StopIfNamed(run, operationID, requestHash, nodeIDs + [n])
  {
  }

  lemma StopNamedSnoc(runs: map<string, Run>, operationID: string, requestHash: string, nodeIDs: seq<string>, n: string)
    ensures StopNamed(StopNamed(runs, operationID, requestHash, nodeIDs), operationID, requestHash, [n])
            == StopNamed(runs, operationID, requestHash, nodeIDs + [n])
  {
    forall k | k in runs {
      StopIfNamedTwice(runs[k], operationID, requestHash, nodeIDs, n);
    }
  }

  lemma LabelNodesSnoc(closedNodes: map<string, StopRequest>, closure: StopRequest, nodeIDs: seq<string>, n: string)
    ensures LabelNodes(LabelNodes(closedNodes, closure, nodeIDs), closure, [n])
            == LabelNodes(closedNodes, closure, nodeIDs + [n])
  {
  }

  ghost function Effect(l: LedgerState, t: Transition): LedgerState
    requires Error(l, t).None?
  {
    match t
    case Register(identity) =>
      if identity.runID in l.runs then l else l.(runs := l.runs[identity.runID := NewRun(identity)])
    case Bind(identity) =>
      l.(runs := l.runs[identity.runID := l.runs[identity.runID].(identity := identity)])
    case CloseNodes(operationID, requestHash, nodeIDs) =>
      if nodeIDs == [] then StopAll(l, operationID, requestHash)
      else if l.closedBy != "" then l
      else StopNodes(l, operationID, requestHash, nodeIDs)
    case Close(operationID, requestHash) => StopAll(l, operationID, requestHash)
    case RecordDrain(receipt) =>
      var run := l.runs[receipt.request.identity.runID];
      l.(runs := l.runs[run.identity.runID := run.(drain := Some(receipt))])
    case RecordExit(request) =>
      l.(runs := l.runs[request.identity.runID := l.runs[request.identity.runID].(exited := true)])
    case RecordNeverBoundExit(request) =>
      l.(runs := l.runs[request.identity.runID :=
           l.runs[request.identity.runID].(exited := true, neverBoundExit := Some(request))])
  }

  /** A refused transition persists nothing. */
  ghost function Next(l: LedgerState, t: Transition): LedgerState {
    if Error(l, t).None? then Effect(l, t) else l
  }

  ghost function Exec(l: LedgerState, ts: seq<Transition>): LedgerState
    decreases |ts|
  {
    if ts == [] then l else Exec(Next(l, ts[0]), ts[1..])
  }

  ghost predicate Reachable(l: LedgerState) {
    exists ts: seq<Transition> :: l == Exec(EmptyLedger(l.sourceClusterID), ts)
  }

  // -------------------------------------------------------------------------------- completion

  /** What completion demands of one run: stopped as itself, exited, drained clean or never bound. */
  predicate Terminated(run: Run) {
    && run.stop.Some? && run.stop.value.identity == run.identity
    && run.stop.value.operationID != "" && run.stop.value.requestHash != "" && run.exited
    && (if run.neverBoundExit.Some?
        then run.identity.walIdentity == "" && run.drain.None? && run.neverBoundExit == run.stop
        else run.identity.walIdentity != "" && run.drain.Some? && run.drain.value.request == run.stop.value
             && run.drain.value.Clean())
  }

  predicate InScope(run: Run, nodeIDs: seq<string>) {
    nodeIDs == [] || run.identity.nodeID in nodeIDs
  }

  ghost predicate AllTerminated(l: LedgerState, nodeIDs: seq<string>) {
    forall k | k in l.runs && InScope(l.runs[k], nodeIDs) :: Terminated(l.runs[k])
  }

  ghost predicate NodeObserved(l: LedgerState, nodeID: string) {
    exists k :: k in l.runs && l.runs[k].identity.nodeID == nodeID
  }

  ghost predicate PodRegistered(l: LedgerState, nodeIDs: seq<string>, uid: string) {
    exists k :: k in l.runs && InScope(l.runs[k], nodeIDs) && l.runs[k].identity.podUID == uid
  }

  ghost predicate Labelled(l: LedgerState, operationID: string, requestHash: string, nodeIDs: seq<string>) {
    if nodeIDs == [] then l.closedBy == operationID && l.closedHash == requestHash
    else forall n | n in nodeIDs :: ClosedAs(l, n, operationID, requestHash)
  }

  ghost predicate Complete(l: LedgerState, operationID: string, requestHash: string,
                           nodeIDs: seq<string>, currentPodUIDs: seq<string>)
  {
    && operationID != "" && requestHash != "" && l.runs != map[]
    && Labelled(l, operationID, requestHash, nodeIDs)
    && AllTerminated(l, nodeIDs)
    && (forall n | n in nodeIDs :: NodeObserved(l, n))
    && (forall uid | uid in currentPodUIDs :: PodRegistered(l, nodeIDs, uid))
  }

  // --------------------------------------------------------------------------- the ledger object

  class Ledger {
    const sourceClusterID: string
    var closedBy: string
    var closedHash: string
    var closedNodes: map<string, StopRequest>
    var runs: map<string, Run>

    ghost function State(): LedgerState
      reads this
    {
      LedgerState(sourceClusterID, closedBy, closedHash, closedNodes, runs)
    }

    constructor (source: string)
      ensures State() == EmptyLedger(source)
    {
      sourceClusterID := source;
      closedBy, closedHash, closedNodes, runs := "", "", map[], map[];
    }

    method Register(identity: Identity) returns (err: Option<FenceError>)
      modifies this
      ensures err == RegisterError(old(State()), identity)
      ensures State() == Next(old(State()), Transition.Register(identity))
    {
      if identity.sourceClusterID != sourceClusterID || identity.nodeID == "" || identity.podUID == ""
         || identity.runID == "" || identity.walIdentity != "" {
        return Some(Rejected);
      }
      if closedBy != "" { return Some(Closed); }
      if identity.nodeID in closedNodes { return Some(Closed); }
      if identity.runID in runs {
        var existing := runs[identity.runID];
        if existing.identity == identity && existing.stop.None? { return None; }
        return Some(Rejected);
      }
      var todo := runs.Keys;
      while todo != {}
        invariant todo <= runs.Keys && State() == old(State())
        invariant forall k | k in runs && k !in todo ::
          !(runs[k].identity.nodeID == identity.nodeID && runs[k].identity.podUID != identity.podUID
            && !CleanlyTerminated(runs[k]))
        decreases |todo|
      {
        var k :| k in todo;
        var run := runs[k];
        if run.identity.nodeID == identity.nodeID && run.identity.podUID != identity.podUID
           && (!run.exited || run.drain.None? || !run.drain.value.Clean()) {
          return Some(Rejected);
        }
        todo := todo - {k};
      }
      runs := runs[identity.runID := NewRun(identity)];
      return None;
    }

    method Bind(identity: Identity) returns (err: Option<FenceError>)
      modifies this
      ensures err == BindError(old(State()), identity)
      ensures State() == Next(old(State()), Transition.Bind(identity))
    {
      if identity.runID !in runs || identity.walIdentity == "" { return Some(Rejected); }
      var run := runs[identity.runID];
      if identity.(walIdentity := run.identity.walIdentity) != run.identity
         || (run.identity.walIdentity != "" && run.identity.walIdentity != identity.walIdentity) {
        return Some(Rejected);
      }
      if closedBy != "" || run.stop.Some? { return Some(Closed); }
      var todo := runs.Keys;
      while todo != {}
        invariant todo <= runs.Keys && State() == old(State())
        invariant forall k | k in runs && k !in todo ::
          !(runs[k].identity.runID != identity.runID && runs[k].identity.nodeID == identity.nodeID
            && runs[k].identity.walIdentity != "" && runs[k].identity.walIdentity != identity.walIdentity)
        decreases |todo|
      {
        var k :| k in todo;
        var other := runs[k].identity;
        if other.runID != identity.runID && other.nodeID == identity.nodeID
           && other.walIdentity != "" && other.walIdentity != identity.walIdentity {
          return Some(Rejected);
        }
        todo := todo - {k};
      }
      runs := runs[identity.runID := run.(identity := identity)];
      return None;
    }

    /** The inner loop of CloseNodes and of Close: stop every selected run that has no stop yet. */
    method StopSelected(operationID: string, requestHash: string, everyNode: bool, nodeID: string)
      modifies this`runs
      ensures runs == map k | k in old(runs) ::
                if everyNode || old(runs)[k].identity.nodeID == nodeID
                then StopRun(old(runs)[k], operationID, requestHash) else old(runs)[k]
    {
      var todo := runs.Keys;
      while todo != {}
        invariant runs.Keys == old(runs).Keys && todo <= runs.Keys
        invariant forall k | k in todo :: runs[k] == old(runs)[k]
        invariant forall k | k in runs && k !in todo ::
          runs[k] == if everyNode || old(runs)[k].identity.nodeID == nodeID
                     then StopRun(old(runs)[k], operationID, requestHash) else old(runs)[k]
        decreases |todo|
      {
        var k :| k in todo;
        todo := todo - {k};
        var run := runs[k];
        if (everyNode || run.identity.nodeID == nodeID) && run.stop.None? {
          runs := runs[k := run.(stop := Some(StopRequest(operationID, requestHash, run.identity)))];
        }
      }
    }

    /** The check loop of CloseNodes over an open generation. */
    method SlotsUsable(operationID: string, requestHash: string, nodeIDs: seq<string>) returns (ok: bool)
      ensures ok <==> forall n | n in nodeIDs :: !UnusableSlot(State(), n, operationID, requestHash)
    {
      for i := 0 to |nodeIDs|
        invariant forall j | 0 <= j < i :: !UnusableSlot(State(), nodeIDs[j], operationID, requestHash)
      {
        if nodeIDs[i] == "" || (nodeIDs[i] in closedNodes && closedNodes[nodeIDs[i]].operationID == operationID
                                && closedNodes[nodeIDs[i]].requestHash != requestHash) {
          assert UnusableSlot(State(), nodeIDs[i], operationID, requestHash);
          return false;
        }
      }
      return true;
    }

    method StopOneSlot(operationID: string, requestHash: string, nodeID: string)
      modifies this
      ensures State() == StopNodes(old(State()), operationID, requestHash, [nodeID])
    {
      closedNodes := closedNodes[nodeID := StopRequest(operationID, requestHash, NO_IDENTITY)];
      StopSelected(operationID, requestHash, false, nodeID);
      assert runs == StopNodes(old(State()), operationID, requestHash, [nodeID]).runs;
    }

    /** The update loop of CloseNodes. */
    method StopSlots(operationID: string, requestHash: string, nodeIDs: seq<string>)
      modifies this
      ensures State() == StopNodes(old(State()), operationID, requestHash, nodeIDs)
    {
      ghost var before := State();
      assert State().runs == StopNodes(before, operationID, requestHash, []).runs;
      for i := 0 to |nodeIDs|
        invariant State() == StopNodes(before, operationID, requestHash, nodeIDs[..i])
      {
        StopOneSlot(operationID, requestHash, nodeIDs[i]);
        StopNamedSnoc(before.runs, operationID, requestHash, nodeIDs[..i], nodeIDs[i]);
        LabelNodesSnoc(before.closedNodes, StopRequest(operationID, requestHash, NO_IDENTITY),
                       nodeIDs[..i], nodeIDs[i]);
        assert nodeIDs[..i + 1] == nodeIDs[..i] + [nodeIDs[i]];
      }
      assert nodeIDs[..|nodeIDs|] == nodeIDs;
    }

    method CloseNodes(operationID: string, requestHash: string, nodeIDs: seq<string>)
      returns (err: Option<FenceError>)
      modifies this
      ensures err == CloseNodesError(old(State()), operationID, requestHash, nodeIDs)
      ensures State() == Next(old(State()), Transition.CloseNodes(operationID, requestHash, nodeIDs))
    {
      if nodeIDs == [] {
        err := Close(operationID, requestHash);
        return;
      }
      if operationID == "" || requestHash == "" { return Some(Closed); }
      if closedBy != "" {
        var same, _ := WantedSlots(operationID, requestHash, nodeIDs);
        return if same then None else Some(Closed);
      }
      var usable := SlotsUsable(operationID, requestHash, nodeIDs);
      if !usable { return Some(Rejected); }
      StopSlots(operationID, requestHash, nodeIDs);
      return None;
    }

    method Close(operationID: string, requestHash: string) returns (err: Option<FenceError>)
      modifies this
      ensures err == CloseError(old(State()), operationID, requestHash)
      ensures State() == Next(old(State()), Transition.Close(operationID, requestHash))
    {
      if operationID == "" || requestHash == "" { return Some(Rejected); }
      if closedBy != "" && closedBy != operationID { return Some(Closed); }
      if closedBy == operationID && closedHash != requestHash { return Some(Rejected); }
      closedBy := operationID;
      closedHash := requestHash;
      StopSelected(operationID, requestHash, true, "");
      return None;
    }

    method RecordDrain(receipt: DrainReceipt) returns (err: Option<FenceError>)
      modifies this
      ensures err == RecordDrainError(old(State()), receipt)
      ensures State() == Next(old(State()), Transition.RecordDrain(receipt))
    {
      var k := receipt.request.identity.runID;
      if k !in runs || runs[k].stop.None? || runs[k].stop.value != receipt.request { return Some(Rejected); }
      var run := runs[k];
      if run.neverBoundExit.Some? { return Some(Rejected); }
      if run.drain.Some? && run.drain.value != receipt { return Some(Rejected); }
      runs := runs[run.identity.runID := run.(drain := Some(receipt))];
      return None;
    }

    method RecordExit(request: StopRequest) returns (err: Option<FenceError>)
      modifies this
      ensures err == RecordExitError(old(State()), request)
      ensures State() == Next(old(State()), Transition.RecordExit(request))
    {
      var k := request.identity.runID;
      if k !in runs || runs[k].identity.walIdentity == "" || runs[k].stop.None? || runs[k].stop.value != request
         || runs[k].drain.None? || !runs[k].drain.value.Clean() {
        return Some(Pending);
      }
      runs := runs[k := runs[k].(exited := true)];
      return None;
    }

    method RecordNeverBoundExit(request: StopRequest) returns (err: Option<FenceError>)
      modifies this
      ensures err == RecordNeverBoundExitError(old(State()), request)
      ensures State() == Next(old(State()), Transition.RecordNeverBoundExit(request))
    {
      var k := request.identity.runID;
      if k !in runs || runs[k].identity.walIdentity != "" || runs[k].drain.Some?
         || request.identity != runs[k].identity || runs[k].stop.None? || runs[k].stop.value != request {
        return Some(Rejected);
      }
      if closedBy == "" && runs[k].identity.nodeID !in closedNodes { return Some(Pending); }
      runs := runs[k := runs[k].(exited := true, neverBoundExit := Some(request))];
      return None;
    }

    /** The label loop of CompleteNodes and of CloseNodes after a generation close. */
    method WantedSlots(operationID: string, requestHash: string, nodeIDs: seq<string>)
      returns (ok: bool, wanted: set<string>)
      ensures ok <==> forall n | n in nodeIDs :: ClosedAs(State(), n, operationID, requestHash)
      ensures ok ==> wanted == set n | n in nodeIDs
    {
      wanted := {};
      for i := 0 to |nodeIDs|
        invariant forall j | 0 <= j < i :: ClosedAs(State(), nodeIDs[j], operationID, requestHash)
        invariant wanted == set n | n in nodeIDs[..i]
      {
        if nodeIDs[i] !in closedNodes || closedNodes[nodeIDs[i]].operationID != operationID
           || closedNodes[nodeIDs[i]].requestHash != requestHash {
          assert !ClosedAs(State(), nodeIDs[i], operationID, requestHash);
          return false, wanted;
        }
        assert nodeIDs[..i + 1] == nodeIDs[..i] + [nodeIDs[i]];
        wanted := wanted + {nodeIDs[i]};
      }
      assert nodeIDs[..|nodeIDs|] == nodeIDs;
      return true, wanted;
    }

    /** The second loop: every run in scope must be terminated; collects its slots and Pods. */
    method ScanRuns(wanted: set<string>, nodeIDs: seq<string>)
      returns (ok: bool, observed: set<string>, registered: set<string>)
      requires wanted == set n | n in nodeIDs
      ensures ok <==> AllTerminated(State(), nodeIDs)
      ensures ok ==> forall n | n in nodeIDs :: n in observed <==> NodeObserved(State(), n)
      ensures ok ==> forall uid :: uid in registered <==> PodRegistered(State(), nodeIDs, uid)
    {
      assert wanted == {} <==> nodeIDs == [] by {
        if nodeIDs != [] { assert nodeIDs[0] in wanted; }
      }
      registered, observed := {}, {};
      var todo := runs.Keys;
      while todo != {}
        invariant todo <= runs.Keys
        invariant forall k | k in runs && k !in todo && InScope(runs[k], nodeIDs) ::
          Terminated(runs[k]) && runs[k].identity.nodeID in observed && runs[k].identity.podUID in registered
        invariant forall n | n in observed :: NodeObserved(State(), n)
        invariant forall uid | uid in registered :: PodRegistered(State(), nodeIDs, uid)
        decreases |todo|
      {
        var k :| k in todo;
        todo := todo - {k};
        var run := runs[k];
        if wanted == {} || run.identity.nodeID in wanted {
          observed := observed + {run.identity.nodeID};
          registered := registered + {run.identity.podUID};
          if run.stop.None? || run.stop.value.identity != run.identity || run.stop.value.operationID == ""
             || run.stop.value.requestHash == "" || !run.exited {
            return false, observed, registered;
          }
          if run.neverBoundExit.Some? {
            if run.identity.walIdentity != "" || run.drain.Some? || run.neverBoundExit.value != run.stop.value {
              return false, observed, registered;
            }
          } else if run.identity.walIdentity == "" || run.drain.None? || run.drain.value.request != run.stop.value
                    || !run.drain.value.Clean() {
            return false, observed, registered;
          }
        }
      }
      return true, observed, registered;
    }

    method CompleteNodes(operationID: string, requestHash: string, nodeIDs: seq<string>, currentPodUIDs: seq<string>)
      returns (complete: bool)
      ensures complete <==> Complete(State(), operationID, requestHash, nodeIDs, currentPodUIDs)
    {
      if operationID == "" || requestHash == "" || |runs| == 0 { return false; }
      var labelled, wanted := WantedSlots(operationID, requestHash, nodeIDs);
      if !labelled { return false; }
      assert wanted == {} <==> nodeIDs == [] by {
        if nodeIDs != [] { assert nodeIDs[0] in wanted; }
      }
      if wanted == {} && (closedBy != operationID || closedHash != requestHash) { return false; }
      var terminated, observed, registered := ScanRuns(wanted, nodeIDs);
      if !terminated { return false; }
      for i := 0 to |nodeIDs|
        invariant forall j | 0 <= j < i :: nodeIDs[j] in observed
      {
        if nodeIDs[i] !in observed { return false; }
      }
      for i := 0 to |currentPodUIDs|
        invariant forall j | 0 <= j < i :: currentPodUIDs[j] in registered
      {
        if currentPodUIDs[i] !in registered { return false; }
      }
      return true;
    }
  }
}
