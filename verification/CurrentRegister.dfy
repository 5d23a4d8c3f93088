/**
 * CURRENT as a shared register (pkg/checkpoint/checkpoint.go and pkg/checkpoint/managed_graph.go): any number
 * of promotion calls, each a loop of reads and one conditional write, over uploads that may land late
 * and replies that may be lost. The object is the sequence of values it has taken.
 */
module CurrentRegister {
  type Id = nat

  const REQUEST_POLICY := 9
  const GRAPH_POLICY := 10

  /** What CURRENT holds: a certified pointer, or a managed locator. Hashes are non-zero numbers. */
  datatype Value =
    | Pointer(index: nat, root: nat)
    | Locator(policy: nat, index: nat, root: nat, slot: nat, decision: nat)

  /** The three promoters: certified pointers, Graph locators, append-only locators. */
  datatype Promoter = Certified | Graph | AppendOnly

  predicate ValidLocator(l: Value) {
    l.Locator? && l.index > 0 && l.index < l.slot && l.root != 0 && l.decision != 0
  }

  /** What a promoter may be asked to store, and what it accepts when it reads CURRENT back. */
  predicate Speaks(p: Promoter, mine: Value, v: Value) {
    match p
    case Certified => v.Pointer?
    case Graph => ValidLocator(v) && v.policy == GRAPH_POLICY
    case AppendOnly =>
      && ValidLocator(v) && mine.Locator? && v.policy == mine.policy
      && (v.policy == REQUEST_POLICY || v.policy == GRAPH_POLICY)
  }

  datatype Verdict = Unreadable | Stale | Conflict | Same | Advance

  /** A promoter compares what it read with what it wants to store. */
  function Judge(p: Promoter, mine: Value, prior: Value): Verdict
    requires Speaks(p, mine, mine)
  {
    if !Speaks(p, mine, prior) then Unreadable
    else match p
      case Certified =>
        if prior.index > mine.index then Stale
        else if prior.index == mine.index then (if prior.root != mine.root then Conflict else Same)
        else Advance
      case Graph =>
        if prior.index > mine.index then Stale
        else if prior.index == mine.index then (if prior != mine then Conflict else Same)
        else Advance
      case AppendOnly =>
        if prior.index > mine.index || (prior.index == mine.index && prior.slot > mine.slot) then Stale
        else if prior.index == mine.index && prior.slot == mine.slot then (if prior != mine then Conflict else Same)
        else Advance
  }

  function SlotOf(v: Value): nat { if v.Locator? then v.slot else 0 }

  /** Lexicographically by cut and seal slot. */
  predicate Below(a: Value, b: Value) { a.index < b.index || (a.index == b.index && SlotOf(a) < SlotOf(b)) }

  predicate SameProfile(a: Value, b: Value) { a.Pointer? == b.Pointer? && (a.Locator? ==> a.policy == b.policy) }

  // ------------------------------------------------------------------------------ the step system

  datatype Entry = Entry(value: Value, writer: Id)

  /** `ifMatch` is the version the upload is conditional on, 0 for "must not exist". */
  datatype Request = Request(ifMatch: nat, entry: Entry)

  datatype Outcome = Stored(at: nat) | Refused(verdict: Verdict, at: nat) | Failed

  /**
   * Attributes, then Get, then (for locators) Attributes again, the conditional upload, and for a
   * locator whose upload failed, one more Get. `got` is the version whose bytes Get returned.
   */
  datatype Phase =
    | Looking
    | Fetching(before: nat)
    | Checking(before: nat, got: nat, data: Value)
    | Deciding(before: nat, got: nat, data: Value)
    | Sent(request: Request)
    | ReadingBack(retry: bool)
    | Done(outcome: Outcome)

  /** `since` is how many values CURRENT had taken when the call began. */
  datatype Call = Call(promoter: Promoter, value: Value, since: nat, phase: Phase)

  datatype State = State(log: seq<Entry>, calls: map<Id, Call>, wire: set<Request>)

  datatype Event =
    | Invoke(id: Id, promoter: Promoter, value: Value)
    | Look(id: Id)
    | Fetch(id: Id)
    | Check(id: Id)
    | Conclude(id: Id)
    | Land(request: Request)
    | Acknowledge(id: Id)
    | Fail(id: Id, conditionNotMet: bool)
    | ReadBack(id: Id)
    | GiveUp(id: Id)

  ghost predicate Init(s: State) { s.log == [] && s.calls == map[] && s.wire == {} }

  ghost predicate Enabled(s: State, e: Event) {
    match e
    case Invoke(id, promoter, value) => id !in s.calls && Speaks(promoter, value, value)
    case Look(id) => id in s.calls && s.calls[id].phase.Looking?
    case Fetch(id) => id in s.calls && s.calls[id].phase.Fetching? && s.log != []
    case Check(id) => id in s.calls && s.calls[id].phase.Checking?
    case Conclude(id) =>
      && id in s.calls && s.calls[id].phase.Deciding? && s.calls[id].phase.got > 0
      && Speaks(s.calls[id].promoter, s.calls[id].value, s.calls[id].value)
    case Land(request) => request in s.wire
    case Acknowledge(id) =>
      id in s.calls && s.calls[id].phase.Sent?
      && var r := s.calls[id].phase.request; r.ifMatch < |s.log| && s.log[r.ifMatch] == r.entry
    case Fail(id, conditionNotMet) =>
      id in s.calls && s.calls[id].phase.Sent?
      && (conditionNotMet ==> s.calls[id].phase.request.ifMatch != |s.log|)
    case ReadBack(id) => id in s.calls && s.calls[id].phase.ReadingBack? && s.log != []
    case GiveUp(id) => id in s.calls && !s.calls[id].phase.Done?
  }

  ghost function Move(s: State, id: Id, phase: Phase): State
    requires id in s.calls
  {
    s.(calls := s.calls[id := s.calls[id].(phase := phase)])
  }

  ghost function Send(s: State, id: Id, ifMatch: nat): State
    requires id in s.calls
  {
    var request := Request(ifMatch, Entry(s.calls[id].value, id));
    Move(s, id, Sent(request)).(wire := s.wire + {request})
  }

  ghost function Step(s: State, e: Event): State
    requires Enabled(s, e)
  {
    match e
    case Invoke(id, promoter, value) => s.(calls := s.calls[id := Call(promoter, value, |s.log|, Looking)])
    case Look(id) => if s.log == [] then Send(s, id, 0) else Move(s, id, Fetching(|s.log|))
    case Fetch(id) =>
      var before, data := s.calls[id].phase.before, s.log[|s.log| - 1].value;
      if s.calls[id].promoter.Certified? then Move(s, id, Deciding(before, |s.log|, data))
      else if !Speaks(s.calls[id].promoter, s.calls[id].value, data) then Move(s, id, Done(Failed))
      else Move(s, id, Checking(before, |s.log|, data))
    case Check(id) =>
      var p := s.calls[id].phase;
      if p.before == |s.log| then Move(s, id, Deciding(p.before, p.got, p.data)) else Move(s, id, Looking)
    case Conclude(id) =>
      var c := s.calls[id];
      var verdict := Judge(c.promoter, c.value, c.phase.data);
      match verdict {
        case Unreadable => Move(s, id, Done(Failed))
        case Stale => Move(s, id, Done(Refused(Stale, c.phase.got - 1)))
        case Conflict => Move(s, id, Done(Refused(Conflict, c.phase.got - 1)))
        case Same => Move(s, id, Done(Stored(c.phase.got - 1)))
        case Advance => Send(s, id, c.phase.before)
      }
    case Land(request) => if request.ifMatch == |s.log| then s.(log := s.log + [request.entry]) else s
    case Acknowledge(id) => Move(s, id, Done(Stored(s.calls[id].phase.request.ifMatch)))
    case Fail(id, conditionNotMet) =>
      if s.calls[id].promoter.Certified? then Move(s, id, if conditionNotMet then Looking else Done(Failed))
      else Move(s, id, ReadingBack(conditionNotMet))
    case ReadBack(id) =>
      if s.log[|s.log| - 1].value == s.calls[id].value then Move(s, id, Done(Stored(|s.log| - 1)))
      else Move(s, id, if s.calls[id].phase.retry then Looking else Done(Failed))
    case GiveUp(id) => Move(s, id, Done(Failed))
  }

  ghost function After(s: State, e: Event): State { if Enabled(s, e) then Step(s, e) else s }

  ghost function Trace(s: State, es: seq<Event>): State
    decreases |es|
  {
    if es == [] then s else Trace(After(s, es[0]), es[1..])
  }

  // -------------------------------------------------------------------------------- the invariant

  ghost predicate Raises(a: Value, b: Value) { Below(a, b) && SameProfile(a, b) }

  ghost predicate LogOk(s: State) {
    forall i | 0 < i < |s.log| :: Raises(s.log[i - 1].value, s.log[i].value)
  }

  /** The rank of a promoter: by cut and slot for append-only locators, by cut alone otherwise. */
  predicate Outranks(p: Promoter, a: Value, b: Value) { if p.AppendOnly? then Below(b, a) else b.index < a.index }

  ghost predicate RequestOk(s: State, r: Request) {
    && r.ifMatch <= |s.log| && r.entry.writer in s.calls && s.calls[r.entry.writer].value == r.entry.value
    && (r.ifMatch == |s.log| && s.log != [] ==>
          && Raises(s.log[|s.log| - 1].value, r.entry.value)
          && Outranks(s.calls[r.entry.writer].promoter, r.entry.value, s.log[|s.log| - 1].value))
  }

  ghost predicate WireOk(s: State) { forall r | r in s.wire :: RequestOk(s, r) }

  /** Position `at` was the stored value at some moment since the call began. */
  ghost predicate During(s: State, since: nat, at: int) { 0 <= at < |s.log| && since <= at + 1 }

  /** A different value of the same rank. */
  predicate Disputes(p: Promoter, a: Value, b: Value) {
    a != b && a.index == b.index && (p.AppendOnly? ==> SlotOf(a) == SlotOf(b))
  }

  ghost predicate OutcomeOk(s: State, c: Call, o: Outcome) {
    match o
    case Stored(at) => During(s, c.since, at) && s.log[at].value == c.value
    case Refused(verdict, at) =>
      && During(s, c.since, at) && SameProfile(s.log[at].value, c.value)
      && (if verdict.Stale? then Outranks(c.promoter, s.log[at].value, c.value)
          else verdict.Conflict? && Disputes(c.promoter, s.log[at].value, c.value))
    case Failed => true
  }

  ghost predicate ReadOk(s: State, c: Call, before: nat, got: nat, data: Value) {
    0 < before <= got <= |s.log| && c.since <= before && data == s.log[got - 1].value
  }

  ghost predicate CallOk(s: State, id: Id, c: Call) {
    && c.since <= |s.log| && Speaks(c.promoter, c.value, c.value)
    && match c.phase {
         case Looking => true
         case Fetching(before) => 0 < before <= |s.log| && c.since <= before
         case Checking(before, got, data) => ReadOk(s, c, before, got, data)
         case Deciding(before, got, data) => ReadOk(s, c, before, got, data)
         case Sent(r) => r in s.wire && r.entry == Entry(c.value, id) && c.since <= r.ifMatch
         case ReadingBack(_) => true
         case Done(o) => OutcomeOk(s, c, o)
       }
  }

  ghost predicate CallsOk(s: State) { forall id | id in s.calls :: CallOk(s, id, s.calls[id]) }

  ghost predicate Inv(s: State) { LogOk(s) && WireOk(s) && CallsOk(s) }

  // ------------------------------------------------------------------------ keeping the invariant

  /** A verdict says how the two values compare, whichever promoter gives it. */
  lemma JudgeMeans(p: Promoter, mine: Value, prior: Value)
    requires Speaks(p, mine, mine)
    ensures match Judge(p, mine, prior)
            case Unreadable => !Speaks(p, mine, prior)
            case Stale => SameProfile(prior, mine) && Below(mine, prior)
            case Conflict =>
              && SameProfile(prior, mine) && prior.index == mine.index && prior != mine
              && (p.AppendOnly? ==> SlotOf(prior) == SlotOf(mine))
            case Same => prior == mine
            case Advance => Raises(prior, mine)
  {
  }

  /**
   * The verdicts, both ways. Certified pointers and Graph locators rank by their cut alone: a different value at the
   * same cut is a conflict, whatever its slot. Append-only locators rank by cut and slot.
   */
  lemma VerdictIff(p: Promoter, mine: Value, prior: Value)
    requires Speaks(p, mine, mine)
    ensures Judge(p, mine, prior) == Unreadable <==> !Speaks(p, mine, prior)
    ensures Speaks(p, mine, prior) ==>
              var v := Judge(p, mine, prior);
              if p.AppendOnly? then
                && (v.Advance? <==> prior.index < mine.index || (prior.index == mine.index && prior.slot < mine.slot))
                && (v.Stale? <==> prior.index > mine.index || (prior.index == mine.index && prior.slot > mine.slot))
                && (v.Conflict? <==> prior.index == mine.index && prior.slot == mine.slot && prior != mine)
                && (v.Same? <==> prior == mine)
              else
                && (v.Advance? <==> prior.index < mine.index) && (v.Stale? <==> prior.index > mine.index)
                && (v.Conflict? <==> prior.index == mine.index && prior != mine) && (v.Same? <==> prior == mine)
  {
  }

  /** Who reads what: a certified promoter any pointer, the others well-formed locators of their own policy. */
  lemma ReadableIff(p: Promoter, mine: Value, v: Value)
    requires Speaks(p, mine, mine)
    ensures Speaks(p, mine, v) <==>
              if p.Certified? then v.Pointer?
              else
                && v.Locator? && v.policy == mine.policy && 0 < v.index < v.slot && v.root != 0 && v.decision != 0
    ensures p.Graph? ==> mine.policy == GRAPH_POLICY
    ensures p.AppendOnly? ==> mine.policy == GRAPH_POLICY || mine.policy == REQUEST_POLICY
  {
  }

  lemma MoveKeepsInv(s: State, id: Id, phase: Phase)
    requires Inv(s) && id in s.calls && CallOk(s, id, s.calls[id].(phase := phase))
    ensures Inv(Move(s, id, phase))
  {
    hide Speaks, Raises, SameProfile, Below, Outranks;
    var s' := Move(s, id, phase);
    forall i | i in s'.calls ensures CallOk(s', i, s'.calls[i]) {
      if i != id { assert CallOk(s, i, s.calls[i]); }
    }
    forall r | r in s'.wire ensures RequestOk(s', r) { assert RequestOk(s, r); }
  }

  lemma SendKeepsInv(s: State, id: Id, ifMatch: nat)
    requires Inv(s) && id in s.calls && s.calls[id].since <= ifMatch
    requires RequestOk(s, Request(ifMatch, Entry(s.calls[id].value, id)))
    ensures Inv(Send(s, id, ifMatch))
  {
    hide Speaks, Raises, SameProfile, Below, Outranks;
    var s' := Send(s, id, ifMatch);
    assert CallOk(s, id, s.calls[id]);
    forall i | i in s'.calls ensures CallOk(s', i, s'.calls[i]) {
      if i != id { assert CallOk(s, i, s.calls[i]); }
    }
    forall r | r in s'.wire ensures RequestOk(s', r) {
      if r in s.wire { assert RequestOk(s, r); }
    }
  }

  lemma LandKeepsInv(s: State, r: Request)
    requires Inv(s) && r in s.wire && r.ifMatch == |s.log|
    ensures Inv(s.(log := s.log + [r.entry]))
  {
    hide Speaks, Raises, SameProfile, Below, Outranks;
    var s' := s.(log := s.log + [r.entry]);
    assert RequestOk(s, r);
    forall i | 0 < i < |s'.log| ensures Raises(s'.log[i - 1].value, s'.log[i].value) {
      if i < |s.log| { assert Raises(s.log[i - 1].value, s.log[i].value); }
    }
    forall q | q in s'.wire ensures RequestOk(s', q) { assert RequestOk(s, q); }
    forall i | i in s'.calls ensures CallOk(s', i, s'.calls[i]) { assert CallOk(s, i, s.calls[i]); }
  }

  lemma VerdictRanks(p: Promoter, mine: Value, prior: Value)
    requires Speaks(p, mine, mine)
    ensures Judge(p, mine, prior).Advance? ==> Outranks(p, mine, prior)
    ensures Judge(p, mine, prior).Stale? ==> Outranks(p, prior, mine)
    ensures Judge(p, mine, prior).Conflict? ==> Disputes(p, prior, mine)
  {
  }

  lemma ConcludeKeepsInv(s: State, id: Id)
    requires Inv(s) && Enabled(s, Conclude(id))
    ensures Inv(Step(s, Conclude(id)))
  {
    hide Speaks, Raises, SameProfile, Below, Judge, Outranks, Disputes;
    var c := s.calls[id];
    assert CallOk(s, id, c);
    JudgeMeans(c.promoter, c.value, c.phase.data);
    VerdictRanks(c.promoter, c.value, c.phase.data);
    if Judge(c.promoter, c.value, c.phase.data).Advance? {
      SendKeepsInv(s, id, c.phase.before);
    } else {
      MoveKeepsInv(s, id, Step(s, Conclude(id)).calls[id].phase);
    }
  }

  lemma StepKeepsInv(s: State, e: Event)
    requires Inv(s)
    ensures Inv(After(s, e))
  {
    hide Speaks, Raises, SameProfile, Below, Judge, Outranks;
    if !Enabled(s, e) { return; }
    var s' := Step(s, e);
    match e
    case Invoke(id, promoter, value) =>
      forall i | i in s'.calls ensures CallOk(s', i, s'.calls[i]) {
        if i != id { assert CallOk(s, i, s.calls[i]); }
      }
      forall r | r in s'.wire ensures RequestOk(s', r) { assert RequestOk(s, r); }
    case Look(id) =>
      assert CallOk(s, id, s.calls[id]);
      if s.log == [] { SendKeepsInv(s, id, 0); } else { MoveKeepsInv(s, id, Fetching(|s.log|)); }
    case Conclude(id) => ConcludeKeepsInv(s, id);
    case Land(request) => if request.ifMatch == |s.log| { LandKeepsInv(s, request); }
    case Fetch(id) =>
      assert CallOk(s, id, s.calls[id]);
      MoveKeepsInv(s, id, s'.calls[id].phase);
    case Check(id) =>
      assert CallOk(s, id, s.calls[id]);
      MoveKeepsInv(s, id, s'.calls[id].phase);
    case Acknowledge(id) =>
      assert CallOk(s, id, s.calls[id]);
      MoveKeepsInv(s, id, s'.calls[id].phase);
    case Fail(id, _) =>
      assert CallOk(s, id, s.calls[id]);
      MoveKeepsInv(s, id, s'.calls[id].phase);
    case ReadBack(id) =>
      assert CallOk(s, id, s.calls[id]);
      MoveKeepsInv(s, id, s'.calls[id].phase);
    case GiveUp(id) =>
      assert CallOk(s, id, s.calls[id]);
      MoveKeepsInv(s, id, Done(Failed));
  }

  lemma {:induction false} TraceKeepsInv(s: State, es: seq<Event>)
    requires Inv(s)
    ensures Inv(Trace(s, es))
    decreases |es|
  {
    hide Inv, After;
    if es != [] {
      StepKeepsInv(s, es[0]);
      TraceKeepsInv(After(s, es[0]), es[1..]);
    }
  }

  // --------------------------------------------------------------------------------- the theorems

  ghost predicate Reachable(s: State) { exists s0, es :: Init(s0) && Trace(s0, es) == s }

  lemma ReachableInv(s: State)
    requires Reachable(s)
    ensures Inv(s)
  {
    var s0, es :| Init(s0) && Trace(s0, es) == s;
    TraceKeepsInv(s0, es);
  }

  lemma {:induction false} LogIncreases(s: State, i: nat, j: nat)
    requires LogOk(s) && i < j < |s.log|
    ensures Raises(s.log[i].value, s.log[j].value)
    decreases j - i
  {
    assert Raises(s.log[j - 1].value, s.log[j].value);
    if i < j - 1 { LogIncreases(s, i, j - 1); }
  }

  /** CURRENT strictly increases over any run, whichever promoters share it, and never changes its profile. */
  lemma CurrentIncreases(s: State, i: nat, j: nat)
    requires Reachable(s) && i < j < |s.log|
    ensures Below(s.log[i].value, s.log[j].value) && SameProfile(s.log[i].value, s.log[j].value)
  {
    ReachableInv(s);
    LogIncreases(s, i, j);
  }

  /**
   * A write never lands on a value of its own rank or above, in particular not on a conflicting one; that of a
   * certified or Graph promotion only on a value of a lower cut.
   */
  lemma EqualRankIsNeverOverwritten(s: State, e: Event)
    requires Reachable(s) && s.log != [] && After(s, e).log != s.log
    ensures |After(s, e).log| == |s.log| + 1 && s.log <= After(s, e).log
    ensures var was, became := s.log[|s.log| - 1].value, After(s, e).log[|s.log|].value;
            Below(was, became) && SameProfile(was, became)
    ensures var became := After(s, e).log[|s.log|];
            && became.writer in s.calls && s.calls[became.writer].value == became.value
            && (!s.calls[became.writer].promoter.AppendOnly? ==> s.log[|s.log| - 1].value.index < became.value.index)
  {
    hide Judge, Speaks;
    ReachableInv(s);
    assert e.Land?;
    assert RequestOk(s, e.request);
  }

  /** Success means the caller's value was the stored one at some moment of the call. */
  lemma SuccessMeansStored(s: State, id: Id)
    requires Reachable(s) && id in s.calls && s.calls[id].phase.Done? && s.calls[id].phase.outcome.Stored?
    ensures var at := s.calls[id].phase.outcome.at;
            at < |s.log| && s.log[at].value == s.calls[id].value && s.calls[id].since <= at + 1
    ensures var stored := s.log[|s.log| - 1].value; stored == s.calls[id].value || Below(s.calls[id].value, stored)
  {
    ReachableInv(s);
    assert CallOk(s, id, s.calls[id]);
    var at := s.calls[id].phase.outcome.at;
    if at < |s.log| - 1 { LogIncreases(s, at, |s.log| - 1); }
  }

  /** A stale or conflicting answer names a value that really was stored during the call. */
  lemma RefusalIsTruthful(s: State, id: Id)
    requires Reachable(s) && id in s.calls && s.calls[id].phase.Done? && s.calls[id].phase.outcome.Refused?
    ensures var at, mine := s.calls[id].phase.outcome.at, s.calls[id].value;
            && at < |s.log| && s.calls[id].since <= at + 1 && SameProfile(s.log[at].value, mine)
            && if s.calls[id].phase.outcome.verdict.Stale? then
                 mine.index < s.log[at].value.index
                 || (s.calls[id].promoter.AppendOnly? && mine.index == s.log[at].value.index
                     && SlotOf(mine) < SlotOf(s.log[at].value))
               else
                 && s.log[at].value.index == mine.index && s.log[at].value != mine
                 && (s.calls[id].promoter.AppendOnly? ==> SlotOf(s.log[at].value) == SlotOf(mine))
  {
    ReachableInv(s);
    assert CallOk(s, id, s.calls[id]);
  }

  // ------------------------------------------------------------------------- a promotion left alone

  ghost predicate Leads(s: State, t: State) { exists es :: Trace(s, es) == t }

  lemma {:induction false} TraceLast(s: State, es: seq<Event>, e: Event)
    ensures Trace(s, es + [e]) == After(Trace(s, es), e)
    decreases |es|
  {
    hide After;
    if es == [] {
      assert (es + [e])[1..] == [];
    } else {
      assert (es + [e])[1..] == es[1..] + [e];
      TraceLast(After(s, es[0]), es[1..], e);
    }
  }

  lemma LeadsNowhere(s: State)
    ensures Leads(s, s)
  {
    assert Trace(s, []) == s;
  }

  lemma LeadsOn(s: State, t: State, e: Event)
    requires Leads(s, t)
    ensures Leads(s, After(t, e))
  {
    hide After;
    var es :| Trace(s, es) == t;
    TraceLast(s, es, e);
  }

  /** The answer a promotion deserves, from what CURRENT holds. */
  ghost function Deserved(p: Promoter, mine: Value, log: seq<Entry>): Outcome {
    if log == [] then Stored(0)
    else
      var prior := log[|log| - 1].value;
      if !Speaks(p, mine, prior) then Failed
      else if Outranks(p, prior, mine) then Refused(Stale, |log| - 1)
      else if Outranks(p, mine, prior) then Stored(|log|)
      else if prior == mine then Stored(|log| - 1)
      else Refused(Conflict, |log| - 1)
  }

  ghost predicate Calls(s: State, id: Id, p: Promoter, mine: Value, phase: Phase) {
    id in s.calls && s.calls[id].promoter == p && s.calls[id].value == mine && s.calls[id].phase == phase
  }

  /** An upload nobody precedes lands and is acknowledged. */
  lemma UploadLands(s: State, t: State, id: Id, p: Promoter, mine: Value) returns (u: State)
    requires Leads(s, t) && Calls(t, id, p, mine, Sent(Request(|t.log|, Entry(mine, id))))
    requires Request(|t.log|, Entry(mine, id)) in t.wire
    ensures Leads(s, u) && u.log == t.log + [Entry(mine, id)] && Calls(u, id, p, mine, Done(Stored(|t.log|)))
  {
    hide Leads, Judge, Speaks;
    var r := Request(|t.log|, Entry(mine, id));
    LeadsOn(s, t, Land(r));
    var v := After(t, Land(r));
    LeadsOn(s, v, Acknowledge(id));
    u := After(v, Acknowledge(id));
  }

  /** A read nobody disturbs ends in the verdict on the stored value, or at once if that is not to be read. */
  lemma ReadsCurrent(s: State, t: State, id: Id, p: Promoter, mine: Value) returns (u: State)
    requires Leads(s, t) && Calls(t, id, p, mine, Looking) && t.log != []
    ensures Leads(s, u) && u == t.(calls := u.calls)
    ensures var n, prior := |t.log|, t.log[|t.log| - 1].value;
            Calls(u, id, p, mine,
                  if p.Certified? || Speaks(p, mine, prior) then Deciding(n, n, prior) else Done(Failed))
  {
    hide Leads, Judge, Speaks;
    LeadsOn(s, t, Look(id));
    u := After(t, Look(id));
    LeadsOn(s, u, Fetch(id));
    u := After(u, Fetch(id));
    if u.calls[id].phase.Checking? {
      LeadsOn(s, u, Check(id));
      u := After(u, Check(id));
    }
  }

  lemma Concludes(s: State, t: State, id: Id, p: Promoter, mine: Value) returns (u: State)
    requires Leads(s, t) && t.log != [] && Speaks(p, mine, mine)
    requires Calls(t, id, p, mine, Deciding(|t.log|, |t.log|, t.log[|t.log| - 1].value))
    ensures var o := Deserved(p, mine, t.log);
            && Leads(s, u) && Calls(u, id, p, mine, Done(o))
            && u.log == if o == Stored(|t.log|) then t.log + [Entry(mine, id)] else t.log
  {
    hide Leads, Judge, Speaks, Outranks;
    var prior := t.log[|t.log| - 1].value;
    VerdictIff(p, mine, prior);
    VerdictDecides(p, mine, prior);
    LeadsOn(s, t, Conclude(id));
    u := After(t, Conclude(id));
    if Judge(p, mine, prior).Advance? { u := UploadLands(s, u, id, p, mine); }
  }

  lemma VerdictDecides(p: Promoter, mine: Value, prior: Value)
    requires Speaks(p, mine, mine)
    ensures Judge(p, mine, prior) ==
              if !Speaks(p, mine, prior) then Unreadable else if Outranks(p, prior, mine) then Stale
              else if Outranks(p, mine, prior) then Advance else if prior == mine then Same else Conflict
  {
  }

  /**
   * Left alone, every promotion is answered as it deserves: the first value is stored, a higher one replaces what is
   * there, the same one is confirmed, a lower or disputed one is refused, and nothing else changes.
   */
  lemma PromotionAlone(s: State, id: Id, p: Promoter, mine: Value) returns (t: State)
    requires id !in s.calls && Speaks(p, mine, mine)
    ensures Leads(s, t) && id in t.calls && t.calls[id].phase == Done(Deserved(p, mine, s.log))
    ensures t.log == if Deserved(p, mine, s.log) == Stored(|s.log|) then s.log + [Entry(mine, id)] else s.log
  {
    hide Leads, Judge, Speaks, Outranks;
    LeadsNowhere(s);
    LeadsOn(s, s, Invoke(id, p, mine));
    t := After(s, Invoke(id, p, mine));
    if s.log == [] {
      LeadsOn(s, t, Look(id));
      t := After(t, Look(id));
      t := UploadLands(s, t, id, p, mine);
    } else {
      t := ReadsCurrent(s, t, id, p, mine);
      if t.calls[id].phase.Deciding? { t := Concludes(s, t, id, p, mine); }
    }
  }

  /** A locator's upload that landed is reported stored even if its reply was lost, as long as nothing followed it. */
  lemma LostReplyIsRecovered(s: State, id: Id, p: Promoter, mine: Value, conditionNotMet: bool) returns (t: State)
    requires s.log != [] && Calls(s, id, p, mine, Sent(Request(|s.log| - 1, Entry(mine, id))))
    requires s.log[|s.log| - 1] == Entry(mine, id) && !p.Certified?
    ensures Leads(s, t) && t.log == s.log && Calls(t, id, p, mine, Done(Stored(|s.log| - 1)))
  {
    hide Leads, Judge, Speaks;
    LeadsNowhere(s);
    LeadsOn(s, s, Fail(id, conditionNotMet));
    t := After(s, Fail(id, conditionNotMet));
    LeadsOn(s, t, ReadBack(id));
    t := After(t, ReadBack(id));
  }

  /** A promotion whose upload lost a race reads again and is answered as it then deserves. */
  lemma RaceLoserIsAnswered(s: State, id: Id, p: Promoter, mine: Value, r: Request) returns (t: State)
    requires Calls(s, id, p, mine, Sent(r)) && r.ifMatch != |s.log| && s.log != [] && Speaks(p, mine, mine)
    requires s.log[|s.log| - 1].value != mine
    ensures Leads(s, t) && id in t.calls && t.calls[id].phase == Done(Deserved(p, mine, s.log))
    ensures t.log == if Deserved(p, mine, s.log) == Stored(|s.log|) then s.log + [Entry(mine, id)] else s.log
  {
    hide Leads, Judge, Speaks, Outranks;
    LeadsNowhere(s);
    LeadsOn(s, s, Fail(id, true));
    t := After(s, Fail(id, true));
    if !p.Certified? {
      LeadsOn(s, t, ReadBack(id));
      t := After(t, ReadBack(id));
    }
    t := ReadsCurrent(s, t, id, p, mine);
    if t.calls[id].phase.Deciding? { t := Concludes(s, t, id, p, mine); }
  }

}
