/**
 * The publisher claim (pkg/checkpoint/checkpoint.go): one stored object that publishers, generation
 * claimants and maintainers take in turn, by conditional writes over a network that may lose replies
 * and deliver uploads late. Every call of every party is a small step machine; the object is the
 * sequence of values written to it, so that its version is simply how many writes it has taken.
 */
module PublisherClaims {
  import opened Options

  type Id = nat

  datatype Purpose = Publisher | Maintenance | Generation

  datatype Claim = Claim(
    generation: nat, owner: string, purpose: Purpose, reserved: nat, bound: nat, root: string, until: nat)

  const MAX_U64: nat := 0xFFFF_FFFF_FFFF_FFFF

  /** The clock counts nanoseconds; leases are stored in milliseconds. */
  function Ms(t: nat): nat { t / 1_000_000 }

  /**
   * What a call was asked to do. `session` names the acquire call whose claim is being used and `claim`
   * the claim value it passes; `certified` is the index of CURRENT read before a generation claim.
   */
  datatype Op =
    | Acquire(owner: string, minExclusive: nat, length: nat, purpose: Purpose)
    | AcquireGeneration(owner: string, index: nat, length: nat, certified: Option<nat>)
    | Bind(session: Id, claim: Claim, index: nat, root: string)
    | Renew(session: Id, claim: Claim)
    | Release(session: Id, claim: Claim)

  predicate Acquires(op: Op) { op.Acquire? || op.AcquireGeneration? }

  datatype Refusal = Invalid | Busy | Fenced | Exhausted | Unavailable

  datatype Decision = Refuse(why: Refusal) | Write(claim: Claim)

  function Max(a: nat, b: nat): nat { if a < b then b else a }

  // -------------------------------------------------------------------------- what a call decides

  /**
   * `length` is the lease length of the session the call belongs to. A bind or a renewal reads the clock twice: it
   * tests the lease at `tested` and extends it from `now`.
   */
  function Decide(op: Op, length: nat, current: Option<Claim>, tested: nat, now: nat): Decision {
    match op
    case Acquire(owner, minExclusive, _, purpose) =>
      if owner == "" || length == 0 || purpose == Generation then Refuse(Invalid)
      else if current.Some? && current.value.until > Ms(now) then Refuse(Busy)
      else if current.Some? && current.value.generation >= MAX_U64 then Refuse(Exhausted)
      else
        var generation := if current.Some? then current.value.generation + 1 else 1;
        var floor := if current.Some?
                     then Max(minExclusive, Max(current.value.reserved, current.value.bound)) else minExclusive;
        if purpose == Publisher && floor >= MAX_U64 then Refuse(Exhausted)
        else Write(Claim(generation, owner, purpose, if purpose == Publisher then floor + 1 else 0, 0, "",
                         Ms(now + length)))
    case AcquireGeneration(owner, index, _, certified) =>
      if owner == "" || length == 0 || index == 0 then Refuse(Invalid)
      else if current.None? then
        if certified.Some? then Refuse(Fenced)
        else Write(Claim(1, owner, Generation, index, 0, "", Ms(now + length)))
      else
        var c := current.value;
        if c.purpose != Generation || c.owner != owner || c.bound > index || c.reserved != index then Refuse(Fenced)
        else if certified.Some? && (certified.value != index || c.bound != index) then Refuse(Fenced)
        else if c.until > Ms(now) then Refuse(Busy)
        else if c.generation >= MAX_U64 then Refuse(Exhausted)
        else Write(Claim(c.generation + 1, owner, Generation, index, 0, "", Ms(now + length)))
    case Bind(_, claim, index, root) =>
      if current.None? then Refuse(Unavailable)
      else
        var c := current.value;
        if c.reserved != claim.reserved || c.purpose == Maintenance || c.purpose != claim.purpose
           || c.generation != claim.generation || c.owner != claim.owner || c.until <= Ms(tested)
           || index < c.reserved || (c.purpose == Generation && index != c.reserved)
        then Refuse(Fenced)
        else Write(c.(bound := index, root := root, until := Ms(now + length)))
    case Renew(_, claim) =>
      if current.None? then Refuse(Unavailable)
      else
        var c := current.value;
        if c.reserved != claim.reserved || c.purpose != claim.purpose || c.generation != claim.generation
           || c.owner != claim.owner || c.bound != claim.bound || c.root != claim.root || c.until <= Ms(tested)
        then Refuse(Fenced)
        else Write(c.(until := Ms(now + length)))
    case Release(_, claim) =>
      if current.None? then Refuse(Unavailable)
      else
        var c := current.value;
        if c.purpose != claim.purpose || c.generation != claim.generation || c.owner != claim.owner
        then Refuse(Fenced)
        else Write(c.(until := Ms(now)))
  }

  // ------------------------------------------------------------------------------ the step system

  /**
   * One write the object has taken: by which call, on behalf of which acquire call, when the lease it found was
   * tested and when the new value was decided.
   */
  datatype Entry = Entry(claim: Claim, session: Id, writer: Id, tested: nat, decided: nat)

  /** An upload on the wire; `ifMatch` is the version it is conditional on, 0 for "must not exist". */
  datatype Request = Request(ifMatch: nat, entry: Entry)

  /** The claim a call wrote and must now read back; `at` is where its write went. */
  datatype Written = Written(claim: Claim, at: nat)

  /**
   * A stable read is Attributes, Get, Attributes with equal versions: `Looking`, `Fetching`, `Checking`.
   * With `back` it is the read that confirms a write. `got` is the version whose bytes Get returned, `since` the
   * time the read ended.
   */
  datatype Phase =
    | Looking(back: Option<Written>)
    | Fetching(back: Option<Written>, before: nat)
    | Checking(back: Option<Written>, before: nat, got: nat, data: Claim)
    | Deciding(back: Option<Written>, seen: nat, current: Option<Claim>, since: nat)
    | Sent(request: Request)
    | Done(refusal: Option<Refusal>)

  /** A claim value handed to the caller of the acquire call `session`; the read found it at version `seen`. */
  datatype Held = Held(session: Id, claim: Claim, seen: nat)

  datatype State = State(
    now: nat, log: seq<Entry>, ops: map<Id, Op>, phases: map<Id, Phase>, wire: set<Request>, held: set<Held>)

  datatype Event =
    | Tick(t: nat)
    | Invoke(id: Id, op: Op)
    | Look(id: Id)
    | Fetch(id: Id)
    | Check(id: Id)
    | Conclude(id: Id, tested: nat)
    | Land(request: Request)
    | Acknowledge(id: Id)
    | Reject(id: Id)
    | GiveUp(id: Id)

  ghost predicate Init(s: State) {
    s.log == [] && s.ops == map[] && s.phases == map[] && s.wire == {} && s.held == {}
  }

  /** A caller can only pass a claim that some call of that session returned. */
  ghost predicate Presentable(s: State, op: Op) {
    Acquires(op) || exists seen: nat :: Held(op.session, op.claim, seen) in s.held
  }

  function SessionOf(id: Id, op: Op): Id { if Acquires(op) then id else op.session }

  function LengthOf(ops: map<Id, Op>, session: Id): nat {
    if session in ops && Acquires(ops[session]) then ops[session].length else 0
  }

  ghost predicate Enabled(s: State, e: Event) {
    match e
    case Tick(t) => s.now <= t
    case Invoke(id, op) => id !in s.ops && id !in s.phases && Presentable(s, op)
    case Look(id) => id in s.phases && id in s.ops && s.phases[id].Looking?
    case Fetch(id) => id in s.phases && id in s.ops && s.phases[id].Fetching? && s.log != []
    case Check(id) => id in s.phases && id in s.ops && s.phases[id].Checking?
    case Conclude(id, tested) =>
      id in s.phases && id in s.ops && s.phases[id].Deciding? && s.phases[id].since <= tested <= s.now
    case Land(request) => request in s.wire
    case Acknowledge(id) =>
      id in s.phases && id in s.ops && s.phases[id].Sent?
      && s.phases[id].request.ifMatch < |s.log| && s.log[s.phases[id].request.ifMatch] == s.phases[id].request.entry
    case Reject(id) =>
      id in s.phases && id in s.ops && s.phases[id].Sent? && s.phases[id].request.ifMatch != |s.log|
    case GiveUp(id) => id in s.phases
  }

  ghost function Move(s: State, id: Id, phase: Phase): State { s.(phases := s.phases[id := phase]) }

  /** The version is absent or the last write. */
  ghost function LookStep(s: State, id: Id): State
    requires Enabled(s, Look(id))
  {
    var back := s.phases[id].back;
    if s.log != [] then Move(s, id, Fetching(back, |s.log|))
    else if back.Some? then Move(s, id, Done(Some(Fenced)))
    else Move(s, id, Deciding(None, 0, None, s.now))
  }

  ghost function ConcludeStep(s: State, id: Id, tested: nat): State
    requires Enabled(s, Conclude(id, tested))
  {
    var phase, op := s.phases[id], s.ops[id];
    var session := SessionOf(id, op);
    if phase.back.Some? then
      if phase.current == Some(phase.back.value.claim) && phase.back.value.claim.until > Ms(s.now) then
        Move(s, id, Done(None)).(held := s.held + {Held(session, phase.back.value.claim, phase.seen)})
      else Move(s, id, Done(Some(Fenced)))
    else
      match Decide(op, LengthOf(s.ops, session), phase.current, tested, s.now)
      case Refuse(why) => Move(s, id, Done(Some(why)))
      case Write(claim) =>
        var request := Request(phase.seen, Entry(claim, session, id, tested, s.now));
        Move(s, id, Sent(request)).(wire := s.wire + {request})
  }

  ghost function Step(s: State, e: Event): State
    requires Enabled(s, e)
  {
    match e
    case Tick(t) => s.(now := t)
    case Invoke(id, op) => s.(ops := s.ops[id := op], phases := s.phases[id := Looking(None)])
    case Look(id) => LookStep(s, id)
    case Fetch(id) =>
      var p := s.phases[id];
      Move(s, id, Checking(p.back, p.before, |s.log|, s.log[|s.log| - 1].claim))
    case Check(id) =>
      var p := s.phases[id];
      if p.before == |s.log| then Move(s, id, Deciding(p.back, p.before, Some(p.data), s.now))
      else Move(s, id, Looking(p.back))
    case Conclude(id, tested) => ConcludeStep(s, id, tested)
    case Land(request) => if request.ifMatch == |s.log| then s.(log := s.log + [request.entry]) else s
    case Acknowledge(id) =>
      var request := s.phases[id].request;
      if s.ops[id].Release? then Move(s, id, Done(None))
      else Move(s, id, Looking(Some(Written(request.entry.claim, request.ifMatch))))
    case Reject(id) => Move(s, id, if Acquires(s.ops[id]) then Looking(None) else Done(Some(Fenced)))
    case GiveUp(id) => Move(s, id, Done(Some(Unavailable)))
  }

  ghost function After(s: State, e: Event): State { if Enabled(s, e) then Step(s, e) else s }

  ghost function Trace(s: State, es: seq<Event>): State
    decreases |es|
  {
    if es == [] then s else Trace(After(s, es[0]), es[1..])
  }

  // -------------------------------------------------------------------------------- the invariant

  /** What `readPublisherClaim` insists on. */
  predicate Readable(c: Claim) {
    0 < c.generation <= MAX_U64 && c.owner != "" && (c.purpose != Maintenance ==> c.reserved > 0)
  }

  /** An index is bound at or above the reserved one, by a generation claim exactly there, and never for maintenance. */
  predicate BoundOk(c: Claim) {
    c.bound == 0
    || (!c.purpose.Maintenance? && c.reserved <= c.bound && (c.purpose.Generation? ==> c.bound == c.reserved))
  }

  /** A lease runs its full length from the decision that wrote it; a release ends it there and then. */
  ghost predicate RunsFrom(ops: map<Id, Op>, e: Entry)
    requires e.writer in ops
  {
    e.claim.until == if ops[e.writer].Release? then Ms(e.decided) else Ms(e.decided + LengthOf(ops, e.session))
  }

  /** What an acquire call asked for is what its claim says, with nothing bound yet. */
  predicate AsAsked(op: Op, c: Claim) {
    && (op.Acquire? ==> c.owner == op.owner && c.purpose == op.purpose && c.bound == 0 && c.root == ""
                        && (op.purpose.Maintenance? ==> c.reserved == 0))
    && (op.AcquireGeneration? ==>
          c.owner == op.owner && c.purpose.Generation? && c.reserved == op.index && c.bound == 0 && c.root == "")
  }

  /** The least number above all of these. */
  predicate JustAbove(n: nat, a: nat, b: nat, c: nat) {
    a < n && b < n && c < n && (n == a + 1 || n == b + 1 || n == c + 1)
  }

  ghost predicate Owned(ops: map<Id, Op>, now: nat, e: Entry) {
    && e.writer in ops && e.session in ops && Acquires(ops[e.session])
    && e.session == SessionOf(e.writer, ops[e.writer])
    && Readable(e.claim) && BoundOk(e.claim)
    && e.decided <= now && RunsFrom(ops, e) && AsAsked(ops[e.writer], e.claim)
  }

  ghost predicate First(ops: map<Id, Op>, e: Entry) {
    && e.writer in ops && Acquires(ops[e.writer]) && e.claim.generation == 1
    && (e.claim.purpose.Publisher? && ops[e.writer].Acquire? ==> e.claim.reserved == ops[e.writer].minExclusive + 1)
  }

  /** A new generation: over a lease that had run out when the acquire decided. */
  ghost predicate Succeeds(op: Op, a: Entry, b: Entry)
    requires Acquires(op)
  {
    && b.claim.generation == a.claim.generation + 1
    && a.claim.until <= Ms(b.decided)
    && (b.claim.purpose == Publisher && op.Acquire? ==>
          JustAbove(b.claim.reserved, op.minExclusive, a.claim.reserved, a.claim.bound))
    && (b.claim.purpose == Publisher ==> op.Acquire?)
    && (b.claim.purpose == Generation ==>
          a.claim.purpose == Generation && a.claim.owner == b.claim.owner && a.claim.reserved == b.claim.reserved)
  }

  /** The same session going on: a bind or a renewal of a lease found unexpired, or a release. */
  ghost predicate GoesOn(op: Op, a: Entry, b: Entry)
    requires !Acquires(op)
  {
    && b.session == a.session && b.claim.generation == a.claim.generation
    && b.claim.owner == a.claim.owner && b.claim.purpose == a.claim.purpose && b.claim.reserved == a.claim.reserved
    && op.claim.generation == b.claim.generation
    && (if op.Bind? then
          && b.claim.bound == op.index && b.claim.root == op.root && !a.claim.purpose.Maintenance?
          && a.claim.reserved <= op.index && (a.claim.purpose.Generation? ==> op.index == a.claim.reserved)
        else b.claim.bound == a.claim.bound && b.claim.root == a.claim.root)
    && (if op.Release? then b.claim.until == Ms(b.decided)
        else Ms(b.tested) < a.claim.until <= b.claim.until && b.tested <= b.decided)
  }

  /** `b` is a legal next value after `a`. */
  ghost predicate Follows(ops: map<Id, Op>, a: Entry, b: Entry) {
    && b.writer in ops && a.decided <= b.decided
    && if Acquires(ops[b.writer]) then Succeeds(ops[b.writer], a, b) else GoesOn(ops[b.writer], a, b)
  }

  ghost predicate Next(s: State, e: Entry) {
    if s.log == [] then First(s.ops, e) else Follows(s.ops, s.log[|s.log| - 1], e)
  }

  ghost predicate LogOk(s: State) {
    && (forall i | 0 <= i < |s.log| :: Owned(s.ops, s.now, s.log[i]))
    && (s.log != [] ==> First(s.ops, s.log[0]))
    && (forall i | 0 < i < |s.log| :: Follows(s.ops, s.log[i - 1], s.log[i]))
  }

  ghost predicate RequestOk(s: State, r: Request) {
    r.ifMatch <= |s.log| && Owned(s.ops, s.now, r.entry) && (r.ifMatch == |s.log| ==> Next(s, r.entry))
  }

  ghost predicate WireOk(s: State) { forall r | r in s.wire :: RequestOk(s, r) }

  ghost predicate HeldIsLogged(s: State, h: Held) {
    0 < h.seen <= |s.log| && s.log[h.seen - 1].claim == h.claim && s.log[h.seen - 1].session == h.session
  }

  /** The write that a claim handed out confirms. */
  ghost predicate Confirms(s: State, h: Held, at: nat) {
    && at < |s.log| && s.log[at].claim == h.claim && s.log[at].session == h.session
    && s.log[at].writer in s.ops && !s.ops[s.log[at].writer].Release?
  }

  ghost predicate HeldIsConfirmed(s: State, h: Held) { exists at: nat :: Confirms(s, h, at) }

  ghost predicate HeldOk(s: State) { forall h | h in s.held :: HeldIsLogged(s, h) && HeldIsConfirmed(s, h) }

  ghost predicate OpOk(s: State, op: Op) { Presentable(s, op) }

  ghost predicate BackOk(s: State, id: Id, back: Option<Written>) {
    back.Some? ==>
      && back.value.at < |s.log| && s.log[back.value.at].claim == back.value.claim
      && s.log[back.value.at].writer == id && id in s.ops && !s.ops[id].Release?
  }

  ghost predicate PhaseOk(s: State, id: Id, p: Phase) {
    match p
    case Looking(back) => BackOk(s, id, back)
    case Fetching(back, before) => BackOk(s, id, back) && 0 < before <= |s.log|
    case Checking(back, before, got, data) =>
      BackOk(s, id, back) && 0 < before <= got <= |s.log| && data == s.log[got - 1].claim
    case Deciding(back, seen, current, _) =>
      && BackOk(s, id, back) && seen <= |s.log|
      && current == (if seen == 0 then None else Some(s.log[seen - 1].claim))
    case Sent(request) => request in s.wire && request.entry.writer == id
    case Done(_) => true
  }

  ghost predicate CallsOk(s: State) {
    && s.phases.Keys == s.ops.Keys
    && forall id | id in s.ops :: OpOk(s, s.ops[id]) && PhaseOk(s, id, s.phases[id])
  }

  ghost predicate Inv(s: State) { LogOk(s) && WireOk(s) && HeldOk(s) && CallsOk(s) }

  // ------------------------------------------------------------------------ facts about any log

  lemma MsMonotone(a: nat, b: nat)
    requires a <= b
    ensures Ms(a) <= Ms(b)
  {
  }

  /** Generations never fall, and one generation belongs to one session. */
  lemma {:induction false} OneSessionPerGeneration(s: State, i: nat, j: nat)
    requires LogOk(s) && i <= j < |s.log|
    ensures s.log[i].claim.generation <= s.log[j].claim.generation
    ensures s.log[i].claim.generation == s.log[j].claim.generation ==> s.log[i].session == s.log[j].session
    decreases j - i
  {
    if i < j {
      OneSessionPerGeneration(s, i, j - 1);
      assert Follows(s.ops, s.log[j - 1], s.log[j]);
    }
  }

  ghost predicate ReleaseInvoked(s: State, session: Id, generation: nat) {
    exists id | id in s.ops ::
      s.ops[id].Release? && s.ops[id].session == session && s.ops[id].claim.generation == generation
  }

  /** A lease nobody asked to release only grows, and is over before the next generation is decided. */
  lemma {:induction false} LeaseEndsFirst(s: State, i: nat, j: nat)
    requires LogOk(s) && i <= j < |s.log| && !ReleaseInvoked(s, s.log[i].session, s.log[i].claim.generation)
    ensures s.log[i].decided <= s.log[j].decided
    ensures if s.log[j].claim.generation == s.log[i].claim.generation
            then s.log[i].claim.until <= s.log[j].claim.until
            else s.log[i].claim.until <= Ms(s.log[j].decided)
    decreases j - i
  {
    if i < j {
      LeaseEndsFirst(s, i, j - 1);
      OneSessionPerGeneration(s, i, j - 1);
      var a, b := s.log[j - 1], s.log[j];
      assert Follows(s.ops, a, b) && Owned(s.ops, s.now, b);
      MsMonotone(a.decided, b.decided);
    }
  }

  // ------------------------------------------------------------------------- keeping the invariant

  ghost predicate Grows(ops: map<Id, Op>, ops': map<Id, Op>) {
    forall id | id in ops :: id in ops' && ops'[id] == ops[id]
  }

  lemma OwnedGrows(ops: map<Id, Op>, ops': map<Id, Op>, now: nat, now': nat, e: Entry)
    requires Owned(ops, now, e) && Grows(ops, ops') && now <= now'
    ensures Owned(ops', now', e)
  {
  }

  lemma FollowsGrows(ops: map<Id, Op>, ops': map<Id, Op>, a: Entry, b: Entry)
    requires Follows(ops, a, b) && Grows(ops, ops')
    ensures Follows(ops', a, b)
  {
  }

  /** Time passing and new calls leave the log and the wire in order. */
  lemma LogGrows(s: State, s': State)
    requires LogOk(s) && s'.log == s.log && Grows(s.ops, s'.ops) && s.now <= s'.now
    ensures LogOk(s')
  {
    forall i | 0 <= i < |s.log| ensures Owned(s'.ops, s'.now, s'.log[i]) {
      OwnedGrows(s.ops, s'.ops, s.now, s'.now, s.log[i]);
    }
    forall i | 0 < i < |s.log| ensures Follows(s'.ops, s'.log[i - 1], s'.log[i]) {
      FollowsGrows(s.ops, s'.ops, s.log[i - 1], s.log[i]);
    }
  }

  lemma HeldGrows(s: State, s': State)
    requires HeldOk(s) && s.log <= s'.log && Grows(s.ops, s'.ops) && s'.held == s.held
    ensures HeldOk(s')
  {
    forall h | h in s'.held ensures HeldIsLogged(s', h) && HeldIsConfirmed(s', h) {
      var at: nat :| Confirms(s, h, at);
      assert Confirms(s', h, at);
    }
  }

  lemma RequestGrows(s: State, s': State, r: Request)
    requires RequestOk(s, r) && s'.log == s.log && Grows(s.ops, s'.ops) && s.now <= s'.now
    ensures RequestOk(s', r)
  {
    OwnedGrows(s.ops, s'.ops, s.now, s'.now, r.entry);
    if r.ifMatch == |s.log| && s.log != [] {
      FollowsGrows(s.ops, s'.ops, s.log[|s.log| - 1], r.entry);
    }
  }

  /** Steps that write nothing: time, invocations and a call moving on, which may gain a held claim. */
  lemma QuietStep(s: State, s': State)
    requires Inv(s) && s'.log == s.log && Grows(s.ops, s'.ops) && s.now <= s'.now && s'.wire == s.wire
    requires s.held <= s'.held && HeldOk(s') && s'.phases.Keys == s'.ops.Keys
    requires forall id | id in s'.ops ::
               (id in s.ops && s'.phases[id] == s.phases[id])
               || (PhaseOk(s', id, s'.phases[id]) && Presentable(s', s'.ops[id]))
    ensures Inv(s')
  {
    hide LogOk, HeldOk, RequestOk;
    LogGrows(s, s');
    forall r | r in s'.wire ensures RequestOk(s', r) { RequestGrows(s, s', r); }
    forall id | id in s'.ops ensures OpOk(s', s'.ops[id]) && PhaseOk(s', id, s'.phases[id]) {
      if id in s.ops && s'.phases[id] == s.phases[id] {
        assert OpOk(s, s.ops[id]) && PhaseOk(s, id, s.phases[id]);
        if !Acquires(s.ops[id]) {
          var seen: nat :| Held(s.ops[id].session, s.ops[id].claim, seen) in s.held;
          assert Held(s.ops[id].session, s.ops[id].claim, seen) in s'.held;
        }
      }
    }
  }

  lemma LandKeepsLog(s: State, r: Request)
    requires Inv(s) && r in s.wire && r.ifMatch == |s.log|
    ensures LogOk(s.(log := s.log + [r.entry]))
  {
    hide Owned, First, PhaseOk, OpOk, HeldIsLogged;
    assert RequestOk(s, r);
    var log := s.log + [r.entry];
    forall i | 0 < i < |log| ensures Follows(s.ops, log[i - 1], log[i]) {
      if i < |s.log| { assert Follows(s.ops, s.log[i - 1], s.log[i]); }
    }
  }

  lemma LandKeepsInv(s: State, r: Request)
    requires Inv(s) && r in s.wire
    ensures Inv(After(s, Land(r)))
  {
    hide LogOk, HeldOk, OpOk, PhaseOk, Owned, Next;
    if r.ifMatch == |s.log| {
      var s' := s.(log := s.log + [r.entry]);
      LandKeepsLog(s, r);
      forall q | q in s'.wire ensures RequestOk(s', q) { assert RequestOk(s, q); }
      HeldGrows(s, s');
      forall id | id in s'.ops ensures OpOk(s', s'.ops[id]) && PhaseOk(s', id, s'.phases[id]) {
        LandKeepsCall(s, r, id);
      }
    }
  }

  lemma LandKeepsCall(s: State, r: Request, id: Id)
    requires CallsOk(s) && id in s.ops
    ensures var s' := s.(log := s.log + [r.entry]); OpOk(s', s'.ops[id]) && PhaseOk(s', id, s'.phases[id])
  {
    assert OpOk(s, s.ops[id]) && PhaseOk(s, id, s.phases[id]);
  }

  lemma AcquireFollows(s: State, id: Id, claim: Claim, seen: nat, tested: nat)
    requires LogOk(s) && id in s.ops && Acquires(s.ops[id]) && seen <= |s.log|
    requires var current := if seen == 0 then None else Some(s.log[seen - 1].claim);
             Decide(s.ops[id], LengthOf(s.ops, id), current, tested, s.now) == Write(claim)
    ensures RequestOk(s, Request(seen, Entry(claim, id, id, tested, s.now)))
  {
    if seen > 0 { assert Owned(s.ops, s.now, s.log[seen - 1]); }
  }

  lemma SessionFollows(s: State, id: Id, claim: Claim, seen: nat, tested: nat)
    requires tested <= s.now
    requires LogOk(s) && id in s.ops && !Acquires(s.ops[id]) && 0 < seen <= |s.log|
    requires s.log[seen - 1].claim.generation == s.ops[id].claim.generation ==>
               s.log[seen - 1].session == s.ops[id].session
    requires Decide(s.ops[id], LengthOf(s.ops, s.ops[id].session), Some(s.log[seen - 1].claim), tested, s.now)
             == Write(claim)
    ensures RequestOk(s, Request(seen, Entry(claim, s.ops[id].session, id, tested, s.now)))
  {
    var last := s.log[seen - 1];
    assert Owned(s.ops, s.now, last);
    MsMonotone(s.now, s.now + LengthOf(s.ops, s.ops[id].session));
    if last.session == s.ops[id].session {
      MsMonotone(last.decided + LengthOf(s.ops, last.session), s.now + LengthOf(s.ops, last.session));
    }
  }

  /** Whichever value a session's call reads: the claim it presents and a value of that generation share a session. */
  lemma PresentedSession(s: State, id: Id, seen: nat)
    requires Inv(s) && id in s.ops && !Acquires(s.ops[id]) && 0 < seen <= |s.log|
    ensures s.log[seen - 1].claim.generation == s.ops[id].claim.generation ==>
              s.log[seen - 1].session == s.ops[id].session
  {
    hide LogOk, WireOk, HeldIsConfirmed, PhaseOk;
    var op := s.ops[id];
    assert OpOk(s, op);
    var k: nat :| Held(op.session, op.claim, k) in s.held;
    assert HeldIsLogged(s, Held(op.session, op.claim, k));
    if seen >= k {
      OneSessionPerGeneration(s, k - 1, seen - 1);
    } else {
      OneSessionPerGeneration(s, seen - 1, k - 1);
    }
  }

  /** A call decides on the value it read; if that is still the stored one, the write may follow it. */
  lemma DecisionFollows(s: State, id: Id, claim: Claim, tested: nat)
    requires tested <= s.now
    requires Inv(s) && id in s.ops && s.phases[id].Deciding? && s.phases[id].back.None?
    requires var session := SessionOf(id, s.ops[id]);
             Decide(s.ops[id], LengthOf(s.ops, session), s.phases[id].current, tested, s.now) == Write(claim)
    ensures RequestOk(s, Request(s.phases[id].seen, Entry(claim, SessionOf(id, s.ops[id]), id, tested, s.now)))
  {
    hide Owned, First, Follows, RequestOk;
    var p := s.phases[id];
    assert PhaseOk(s, id, p);
    if Acquires(s.ops[id]) {
      AcquireFollows(s, id, claim, p.seen, tested);
    } else if p.seen > 0 {
      PresentedSession(s, id, p.seen);
      SessionFollows(s, id, claim, p.seen, tested);
    }
  }

  /** A read-back that fails leaves the call refused; one that succeeds hands out a claim of the log. */
  lemma ConfirmKeepsInv(s: State, id: Id, tested: nat)
    requires Inv(s) && Enabled(s, Conclude(id, tested)) && s.phases[id].back.Some?
    ensures Inv(After(s, Conclude(id, tested)))
  {
    hide Inv, Decide;
    var p := s.phases[id];
    if p.current == Some(p.back.value.claim) && p.back.value.claim.until > Ms(s.now) {
      ConfirmedIsLogged(s, id);
      HoldKeepsInv(s, id, Held(SessionOf(id, s.ops[id]), p.back.value.claim, p.seen));
    } else {
      MoveKeepsInv(s, id, Done(Some(Fenced)));
    }
  }

  lemma HoldKeepsHeld(s: State, id: Id, h: Held)
    requires HeldOk(s) && HeldIsLogged(s, h) && HeldIsConfirmed(s, h)
    ensures HeldOk(Move(s, id, Done(None)).(held := s.held + {h}))
  {
    var s' := Move(s, id, Done(None)).(held := s.held + {h});
    forall k | k in s'.held ensures HeldIsLogged(s', k) && HeldIsConfirmed(s', k) {
      var at: nat :| Confirms(s, k, at);
      assert Confirms(s', k, at);
    }
  }

  lemma HoldKeepsInv(s: State, id: Id, h: Held)
    requires Inv(s) && id in s.ops && HeldIsLogged(s, h) && HeldIsConfirmed(s, h)
    ensures Inv(Move(s, id, Done(None)).(held := s.held + {h}))
  {
    hide Decide, LogOk, WireOk, HeldOk, HeldIsLogged, HeldIsConfirmed;
    var s' := Move(s, id, Done(None)).(held := s.held + {h});
    HoldKeepsHeld(s, id, h);
    assert OpOk(s, s.ops[id]);
    if !Acquires(s.ops[id]) {
      var seen: nat :| Held(s.ops[id].session, s.ops[id].claim, seen) in s.held;
      assert Held(s.ops[id].session, s.ops[id].claim, seen) in s'.held;
    }
    QuietStep(s, s');
  }

  lemma ConcludeKeepsInv(s: State, id: Id, tested: nat)
    requires Inv(s) && Enabled(s, Conclude(id, tested))
    ensures Inv(After(s, Conclude(id, tested)))
  {
    hide Decide, Inv;
    var op, p := s.ops[id], s.phases[id];
    var session := SessionOf(id, op);
    if p.back.Some? {
      ConfirmKeepsInv(s, id, tested);
    } else {
      var d := Decide(op, LengthOf(s.ops, session), p.current, tested, s.now);
      if d.Write? {
        DecisionFollows(s, id, d.claim, tested);
        SendKeepsInv(s, id, Request(p.seen, Entry(d.claim, session, id, tested, s.now)));
      } else {
        MoveKeepsInv(s, id, Done(Some(d.why)));
      }
    }
  }

  lemma LoggedIsOwned(s: State, i: nat)
    requires LogOk(s) && i < |s.log|
    ensures Owned(s.ops, s.now, s.log[i])
  {
  }

  /** The claim read back equals the claim written, so it belongs to the same session. */
  lemma ConfirmedIsLogged(s: State, id: Id)
    requires Inv(s) && id in s.ops && s.phases[id].Deciding? && s.phases[id].back.Some?
    requires s.phases[id].current == Some(s.phases[id].back.value.claim)
    ensures var h := Held(SessionOf(id, s.ops[id]), s.phases[id].back.value.claim, s.phases[id].seen);
            HeldIsLogged(s, h) && HeldIsConfirmed(s, h)
  {
    hide LogOk, WireOk, HeldOk;
    var p := s.phases[id];
    assert PhaseOk(s, id, p);
    var at := p.back.value.at;
    LoggedIsOwned(s, at);
    assert Confirms(s, Held(SessionOf(id, s.ops[id]), p.back.value.claim, p.seen), at);
    if at <= p.seen - 1 {
      OneSessionPerGeneration(s, at, p.seen - 1);
    } else {
      OneSessionPerGeneration(s, p.seen - 1, at);
    }
  }

  lemma SendKeepsInv(s: State, id: Id, r: Request)
    requires Inv(s) && id in s.ops && RequestOk(s, r) && r.entry.writer == id
    ensures Inv(Move(s, id, Sent(r)).(wire := s.wire + {r}))
  {
    hide LogOk, RequestOk, HeldOk, OpOk, PhaseOk;
    var s' := Move(s, id, Sent(r)).(wire := s.wire + {r});
    LogGrows(s, s');
    forall q | q in s'.wire ensures RequestOk(s', q) { RequestGrows(s, s', q); }
    HeldGrows(s, s');
    forall i | i in s'.ops ensures OpOk(s', s'.ops[i]) && PhaseOk(s', i, s'.phases[i]) {
      SendKeepsCall(s, id, r, i);
    }
  }

  lemma SendKeepsCall(s: State, id: Id, r: Request, i: Id)
    requires CallsOk(s) && i in s.ops && id in s.ops && r.entry.writer == id
    ensures var s' := Move(s, id, Sent(r)).(wire := s.wire + {r});
            OpOk(s', s'.ops[i]) && PhaseOk(s', i, s'.phases[i])
  {
    assert OpOk(s, s.ops[i]) && PhaseOk(s, i, s.phases[i]);
  }

  lemma MoveKeepsInv(s: State, id: Id, p: Phase)
    requires Inv(s) && id in s.ops && PhaseOk(s, id, p)
    ensures Inv(Move(s, id, p))
  {
    hide Follows, First, Owned, Next;
    assert OpOk(s, s.ops[id]);
    HeldGrows(s, Move(s, id, p));
    QuietStep(s, Move(s, id, p));
  }

  lemma InvokeKeepsInv(s: State, id: Id, op: Op)
    requires Inv(s) && Enabled(s, Invoke(id, op))
    ensures Inv(After(s, Invoke(id, op)))
  {
    hide Follows, First, Owned, Next;
    HeldGrows(s, After(s, Invoke(id, op)));
    QuietStep(s, After(s, Invoke(id, op)));
  }

  lemma ReadingKeepsInv(s: State, e: Event)
    requires Inv(s) && Enabled(s, e) && (e.Look? || e.Fetch? || e.Check?)
    ensures Inv(After(s, e))
  {
    hide Follows, First, Owned, Next, Decide;
    assert PhaseOk(s, e.id, s.phases[e.id]);
    MoveKeepsInv(s, e.id, After(s, e).phases[e.id]);
  }

  lemma AnswerKeepsInv(s: State, e: Event)
    requires Inv(s) && Enabled(s, e) && (e.Acknowledge? || e.Reject? || e.GiveUp?)
    ensures Inv(After(s, e))
  {
    hide LogOk, WireOk, HeldOk, Decide;
    assert PhaseOk(s, e.id, s.phases[e.id]);
    MoveKeepsInv(s, e.id, After(s, e).phases[e.id]);
  }

  lemma TickKeepsInv(s: State, t: nat)
    requires Inv(s) && s.now <= t
    ensures Inv(s.(now := t))
  {
    hide Follows, First, Owned, Next, Decide;
    HeldGrows(s, s.(now := t));
    QuietStep(s, s.(now := t));
  }

  lemma StepKeepsInv(s: State, e: Event)
    requires Inv(s)
    ensures Inv(After(s, e))
  {
    hide Inv, Decide;
    if !Enabled(s, e) { return; }
    match e
    case Tick(t) => TickKeepsInv(s, t);
    case Invoke(id, op) => InvokeKeepsInv(s, id, op);
    case Conclude(id, tested) => ConcludeKeepsInv(s, id, tested);
    case Land(request) => LandKeepsInv(s, request);
    case Look(_) => ReadingKeepsInv(s, e);
    case Fetch(_) => ReadingKeepsInv(s, e);
    case Check(_) => ReadingKeepsInv(s, e);
    case Acknowledge(_) => AnswerKeepsInv(s, e);
    case Reject(_) => AnswerKeepsInv(s, e);
    case GiveUp(_) => AnswerKeepsInv(s, e);
  }

  lemma {:induction false} TraceKeepsInv(s: State, es: seq<Event>)
    requires Inv(s)
    ensures Inv(Trace(s, es))
    decreases |es|
  {
    hide Inv;
    if es != [] {
      StepKeepsInv(s, es[0]);
      TraceKeepsInv(After(s, es[0]), es[1..]);
    }
  }

  // --------------------------------------------------------------------------------- the theorems

  /** Some run of any number of calls leads here. */
  ghost predicate Reachable(s: State) { exists s0, es :: Init(s0) && Trace(s0, es) == s }

  lemma ReachableInv(s: State)
    requires Reachable(s)
    ensures Inv(s)
  {
    var s0, es :| Init(s0) && Trace(s0, es) == s;
    TraceKeepsInv(s0, es);
  }

  lemma {:induction false} TraceLast(s: State, es: seq<Event>, e: Event)
    ensures Trace(s, es + [e]) == After(Trace(s, es), e)
    decreases |es|
  {
    hide After;
    if es == [] {
      assert (es + [e])[1..] == [];
    } else {
      assert (es + [e])[1..] == es[1..] + [e];
      TraceLast(After(s, es[0]), es[1..], e);
    }
  }

  lemma ReachableStep(s: State, e: Event)
    requires Reachable(s)
    ensures Reachable(After(s, e))
  {
    hide After;
    var s0, es :| Init(s0) && Trace(s0, es) == s;
    TraceLast(s0, es, e);
  }

  lemma ReachableStart(s: State)
    requires Init(s)
    ensures Reachable(s)
  {
    assert Trace(s, []) == s;
  }

  /** The generation the object holds, 0 while it does not exist. */
  ghost function StoredGeneration(s: State): nat { if s.log == [] then 0 else s.log[|s.log| - 1].claim.generation }

  lemma StoredStep(s: State, e: Event)
    requires Reachable(s)
    ensures var g, g' := StoredGeneration(s), StoredGeneration(After(s, e));
            g' == g || (g' == g + 1 && After(s, e).now == s.now)
    ensures s.now <= After(s, e).now
  {
    hide Inv, Decide, Step;
    ReachableInv(s);
    if !Enabled(s, e) {
    } else if e.Land? {
      LandedGeneration(s, e.request);
    } else {
      OnlyLandingWrites(s, e);
    }
  }

  lemma LandedGeneration(s: State, r: Request)
    requires Inv(s) && r in s.wire
    ensures var t := After(s, Land(r));
            && t.now == s.now
            && (StoredGeneration(t) == StoredGeneration(s) || StoredGeneration(t) == StoredGeneration(s) + 1)
  {
    hide Owned, HeldOk, CallsOk, LogOk;
    assert RequestOk(s, r);
  }

  lemma OnlyLandingWrites(s: State, e: Event)
    requires Enabled(s, e) && !e.Land?
    ensures Step(s, e).log == s.log && s.now <= Step(s, e).now
  {
    hide Decide, Presentable;
  }

  ghost predicate Live(s: State, h: Held) {
    h in s.held && !ReleaseInvoked(s, h.session, h.claim.generation) && h.claim.until > Ms(s.now)
  }

  ghost predicate WrittenByAcquire(s: State, e: Entry) { e.writer in s.ops && Acquires(s.ops[e.writer]) }

  lemma DecidedBefore(s: State, i: nat)
    requires LogOk(s) && i < |s.log|
    ensures Ms(s.log[i].decided) <= Ms(s.now)
  {
    assert Owned(s.ops, s.now, s.log[i]);
    MsMonotone(s.log[i].decided, s.now);
  }

  /** No claim value of a generation nobody asked to release outlives that generation in the store. */
  lemma UnexpiredIsStored(s: State, i: nat)
    requires Reachable(s) && i < |s.log| && s.log[i].claim.until > Ms(s.now)
    requires !ReleaseInvoked(s, s.log[i].session, s.log[i].claim.generation)
    ensures var stored := s.log[|s.log| - 1];
            stored.session == s.log[i].session && stored.claim.generation == s.log[i].claim.generation
            && stored.claim.until >= s.log[i].claim.until
  {
    hide Owned, First, Follows, Ms;
    ReachableInv(s);
    LeaseEndsFirst(s, i, |s.log| - 1);
    DecidedBefore(s, |s.log| - 1);
    OneSessionPerGeneration(s, i, |s.log| - 1);
  }

  /** A confirmed claim nobody asked to release is the stored generation for as long as it is unexpired. */
  lemma LeaseExclusion(s: State, h: Held)
    requires Reachable(s) && Live(s, h)
    ensures s.log != []
    ensures var stored := s.log[|s.log| - 1];
            stored.session == h.session && stored.claim.generation == h.claim.generation
            && stored.claim.until >= h.claim.until
  {
    hide Owned, First, Follows, Ms;
    ReachableInv(s);
    assert HeldIsLogged(s, h);
    UnexpiredIsStored(s, h.seen - 1);
  }

  /** Hence two such claims, held by whichever parties, are one session's. */
  lemma NoTwoHolders(s: State, h: Held, k: Held)
    requires Reachable(s) && Live(s, h) && Live(s, k)
    ensures h.session == k.session && h.claim.generation == k.claim.generation
  {
    LeaseExclusion(s, h);
    LeaseExclusion(s, k);
  }

  /** Writes only ever raise the generation, by one at a time from 1, and each is one acquire call's alone. */
  lemma GenerationsIncrease(s: State, i: nat, j: nat)
    requires Reachable(s) && i < j < |s.log|
    ensures s.log[0].claim.generation == 1
    ensures s.log[i].claim.generation <= s.log[j].claim.generation
    ensures s.log[i + 1].claim.generation <= s.log[i].claim.generation + 1
    ensures s.log[i].claim.generation == s.log[j].claim.generation <==>
              forall k | i < k <= j :: !WrittenByAcquire(s, s.log[k])
    ensures s.log[i].claim.generation == s.log[j].claim.generation ==> s.log[i].session == s.log[j].session
  {
    hide Owned;
    ReachableInv(s);
    assert Follows(s.ops, s.log[i], s.log[i + 1]);
    OneSessionPerGeneration(s, i, j);
    forall k | i < k <= j
      ensures s.log[i].claim.generation == s.log[j].claim.generation ==> !WrittenByAcquire(s, s.log[k])
    {
      assert Follows(s.ops, s.log[k - 1], s.log[k]);
      OneSessionPerGeneration(s, i, k - 1);
      OneSessionPerGeneration(s, k, j);
    }
    if forall k | i < k <= j :: !WrittenByAcquire(s, s.log[k]) { SameGeneration(s, i, j); }
  }

  lemma {:induction false} SameGeneration(s: State, i: nat, j: nat)
    requires LogOk(s) && i <= j < |s.log|
    requires forall k | i < k <= j :: !WrittenByAcquire(s, s.log[k])
    ensures s.log[i].claim.generation == s.log[j].claim.generation
    decreases j - i
  {
    if i < j {
      SameGeneration(s, i, j - 1);
      assert Follows(s.ops, s.log[j - 1], s.log[j]);
    }
  }

  /** A bind, renewal or release of an older generation leaves the object alone, whenever it arrives. */
  lemma StaleHoldersChangeNothing(s: State, r: Request)
    requires Reachable(s) && r in s.wire && r.entry.writer in s.ops && !Acquires(s.ops[r.entry.writer])
    requires s.log != [] && s.ops[r.entry.writer].claim.generation < s.log[|s.log| - 1].claim.generation
    ensures After(s, Land(r)) == s
  {
    hide Owned;
    ReachableInv(s);
    assert RequestOk(s, r);
  }

  /** What a write by a session's own bind, renewal or release may change. */
  lemma OwnWritesKeepIdentity(s: State, r: Request)
    requires Reachable(s) && r in s.wire && r.entry.writer in s.ops && !Acquires(s.ops[r.entry.writer])
    requires After(s, Land(r)) != s
    ensures s.log != [] && After(s, Land(r)).log == s.log + [r.entry]
    ensures r.entry.session == s.log[|s.log| - 1].session
    ensures var a, b := s.log[|s.log| - 1].claim, r.entry.claim;
            b.generation == a.generation && b.owner == a.owner && b.purpose == a.purpose && b.reserved == a.reserved
  {
    hide Owned;
    ReachableInv(s);
    assert RequestOk(s, r);
  }

  /** The object is never one the reader would refuse. */
  lemma StoredClaimsAreReadable(s: State, i: nat)
    requires Reachable(s) && i < |s.log|
    ensures Readable(s.log[i].claim)
  {
    ReachableInv(s);
    assert Owned(s.ops, s.now, s.log[i]);
  }

  /**
   * A publisher reserves the least index above the one it was told and everything its immediate predecessor reserved
   * or bound.
   */
  lemma PublisherReservesAbovePredecessor(s: State, i: nat)
    requires Reachable(s) && 0 < i < |s.log| && s.log[i].claim.purpose == Publisher
    requires s.log[i].claim.generation != s.log[i - 1].claim.generation
    ensures s.log[i].writer in s.ops && s.ops[s.log[i].writer].Acquire?
    ensures var a, n := s.log[i - 1].claim, s.log[i].claim.reserved;
            && a.reserved < n && a.bound < n && s.ops[s.log[i].writer].minExclusive < n
            && (n == a.reserved + 1 || n == a.bound + 1 || n == s.ops[s.log[i].writer].minExclusive + 1)
  {
    ReachableInv(s);
    assert Follows(s.ops, s.log[i - 1], s.log[i]);
  }

  /** The lease of one generation is over, by the clock its successor read, before the next generation is decided. */
  lemma LeasesDoNotOverlap(s: State, i: nat, j: nat)
    requires Reachable(s) && i < j < |s.log| && s.log[i].claim.generation < s.log[j].claim.generation
    requires !ReleaseInvoked(s, s.log[i].session, s.log[i].claim.generation)
    ensures s.log[i].claim.until <= Ms(s.log[j].decided)
  {
    ReachableInv(s);
    LeaseEndsFirst(s, i, j);
  }

  /** In every run, a lease runs its full length from the decision that wrote it; only a release cuts it short. */
  lemma LeasesRunInFull(s: State, i: nat)
    requires Reachable(s) && i < |s.log|
    ensures s.log[i].writer in s.ops && s.log[i].session in s.ops && Acquires(s.ops[s.log[i].session])
    ensures var e := s.log[i];
            e.claim.until == if s.ops[e.writer].Release? then Ms(e.decided)
                             else Ms(e.decided + s.ops[e.session].length)
  {
    ReachableInv(s);
    assert Owned(s.ops, s.now, s.log[i]);
  }

  /** What the object holds after a write is what its call asked for, and otherwise what was there before. */
  lemma WritesAreAsAsked(s: State, i: nat)
    requires Reachable(s) && i < |s.log|
    ensures s.log[i].writer in s.ops
    ensures var op, c := s.ops[s.log[i].writer], s.log[i].claim;
            match op
            case Acquire(owner, minExclusive, _, purpose) =>
              && c.owner == owner && c.purpose == purpose && c.bound == 0 && c.root == ""
              && c.generation == (if i == 0 then 1 else s.log[i - 1].claim.generation + 1)
            case AcquireGeneration(owner, index, _, _) =>
              && c.owner == owner && c.purpose == Generation && c.reserved == index && c.bound == 0 && c.root == ""
              && c.generation == (if i == 0 then 1 else s.log[i - 1].claim.generation + 1)
            case Bind(_, _, index, root) =>
              && i > 0 && c == s.log[i - 1].claim.(bound := index, root := root, until := c.until)
              && !c.purpose.Maintenance? && c.reserved <= index && (c.purpose.Generation? ==> index == c.reserved)
            case Renew(_, _) => i > 0 && c == s.log[i - 1].claim.(until := c.until)
            case Release(_, _) => i > 0 && c == s.log[i - 1].claim.(until := c.until)
  {
    ReachableInv(s);
    assert Owned(s.ops, s.now, s.log[i]);
    if i > 0 { assert Follows(s.ops, s.log[i - 1], s.log[i]); }
  }

  /**
   * An acquire, a bind or a renewal that is confirmed leaves its session holding a lease that runs its full length from
   * the instant the call decided it.
   */
  lemma ConfirmedLeaseIsFull(s: State, h: Held) returns (at: nat)
    requires Reachable(s) && h in s.held
    ensures at < |s.log| && s.log[at].claim == h.claim && s.log[at].session == h.session
    ensures s.log[at].writer in s.ops && !s.ops[s.log[at].writer].Release?
    ensures h.session in s.ops && Acquires(s.ops[h.session])
    ensures h.claim.until == Ms(s.log[at].decided + s.ops[h.session].length)
  {
    hide Inv, Ms;
    ReachableInv(s);
    at := ConfirmedWrite(s, h);
    LeasesRunInFull(s, at);
  }

  lemma ConfirmedWrite(s: State, h: Held) returns (at: nat)
    requires Inv(s) && h in s.held
    ensures Confirms(s, h, at)
  {
    hide LogOk, WireOk, CallsOk;
    at :| Confirms(s, h, at);
  }

  lemma {:induction false} GenerationHistory(s: State, i: nat, j: nat)
    requires LogOk(s) && i <= j < |s.log| && s.log[j].claim.purpose == Generation
    ensures s.log[i].claim.purpose == Generation && s.log[i].claim.owner == s.log[j].claim.owner
    ensures s.log[i].claim.reserved == s.log[j].claim.reserved
    decreases j - i
  {
    if i < j {
      assert Follows(s.ops, s.log[j - 1], s.log[j]);
      GenerationHistory(s, i, j - 1);
    }
  }

  /** A generation claim never advances its index and follows no other operation: all before it is its own. */
  lemma GenerationClaimNeverAdvances(s: State, i: nat, j: nat)
    requires Reachable(s) && i <= j < |s.log| && s.log[j].claim.purpose == Generation
    ensures s.log[i].claim.purpose == Generation && s.log[i].claim.owner == s.log[j].claim.owner
    ensures s.log[i].claim.reserved == s.log[j].claim.reserved
    ensures s.log[i].claim.bound == 0 || s.log[i].claim.bound == s.log[i].claim.reserved
  {
    ReachableInv(s);
    assert Owned(s.ops, s.now, s.log[i]);
    GenerationHistory(s, i, j);
  }
}
