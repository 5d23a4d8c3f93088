/**
 * The Local maintenance gate (pkg/checkpoint/local_gc.go and pkg/checkpoint/local_gc_bucket.go): a stored
 * token that one session at a time holds while it mutates storage. Uploads of the token and mutations of the
 * storage may be reported lost and still take effect later. A session is one attempt, with its own fresh token;
 * the control object is the sequence of values written to it, `None` being free.
 *
 * Two duties are the callers'. A session's callback awaits every storage call it made: a call it stops waiting for
 * (`Desert`) is remembered in `dropped`, and `LateIff` says exactly when such a call can come too late. An operator
 * recovers the gate only after verifying that the holder has terminated with no operation outstanding: this is the
 * guard of `Recover`.
 */
module LocalGate {
  import opened Options

  type Id = nat

  datatype Mutation = Mutation(session: Id, n: nat)

  datatype Sender = ForAcquire | ForRelease | ForRecovery

  /** `ifMatch` is the version the upload is conditional on, 0 for "must not exist". */
  datatype Request = Request(ifMatch: nat, token: Option<Id>, sender: Sender, session: Id)

  /**
   * Read the control, upload the token, read it back, work, upload free, and on an error read once more.
   * `held` is the version under which the session's own token was read back.
   */
  datatype Phase =
    | Reading
    | Seen(version: nat)
    | Acquiring(request: Request)
    | Confirming
    | Confirmed(held: nat)
    | Working(held: nat)
    | Releasing(held: nat)
    | Verifying(held: nat)
    | Returned(ok: bool, asked: Option<nat>)

  /** `pending` are the mutations whose calls have not returned, `uncertain` the session's sticky flag. */
  datatype Session = Session(phase: Phase, pending: set<nat>, uncertain: bool)

  /**
   * `outstanding` mutations may still take effect; `begun` lists the sessions in the order work began; `dropped` are
   * the calls that a callback made and did not wait for. Every call has its own number.
   */
  datatype State = State(
    log: seq<Option<Id>>, sessions: map<Id, Session>, wire: set<Request>, outstanding: set<Mutation>,
    effects: seq<Mutation>, begun: seq<Id>, dropped: set<Mutation>)

  datatype Event =
    | Start(id: Id)
    | Read(id: Id)
    | Acquire(id: Id)
    | Land(request: Request)
    | AcquireDone(id: Id)
    | Confirm(id: Id)
    | Begin(id: Id)
    | Dispatch(id: Id, n: nat)
    | TakeEffect(m: Mutation)
    | Settle(id: Id, n: nat)
    | Doubt(id: Id, n: nat)
    | Desert(id: Id, n: nat)
    | Dissolve(m: Mutation)
    | Release(id: Id)
    | ReleaseDone(id: Id)
    | ReleaseFailed(id: Id)
    | Verify(id: Id)
    | Stop(id: Id)
    | Recover(id: Id)

  ghost predicate Init(s: State) {
    && s.log == [] && s.sessions == map[] && s.wire == {} && s.outstanding == {} && s.effects == [] && s.begun == []
    && s.dropped == {}
  }

  predicate Free(log: seq<Option<Id>>) { log == [] || log[|log| - 1].None? }

  predicate HeldBy(log: seq<Option<Id>>, id: Id) { log != [] && log[|log| - 1] == Some(id) }

  predicate In(s: State, id: Id) { id in s.sessions }

  ghost predicate NothingOutstanding(s: State, id: Id) { forall m | m in s.outstanding :: m.session != id }

  /** Nothing in flight but what the session did not wait for. */
  ghost predicate Settled(s: State, id: Id) { forall m | m in s.outstanding && m.session == id :: m in s.dropped }

  // ------------------------------------------------------------------------------ the step system

  ghost predicate Enabled(s: State, e: Event) {
    match e
    case Start(id) => id !in s.sessions
    case Read(id) => In(s, id) && s.sessions[id].phase.Reading?
    case Acquire(id) => In(s, id) && s.sessions[id].phase.Seen?
    case Land(request) => request in s.wire
    case AcquireDone(id) =>
      && In(s, id) && s.sessions[id].phase.Acquiring?
      && s.sessions[id].phase.request.ifMatch < |s.log| && s.log[s.sessions[id].phase.request.ifMatch] == Some(id)
    case Confirm(id) => In(s, id) && s.sessions[id].phase.Confirming?
    case Begin(id) => In(s, id) && s.sessions[id].phase.Confirmed?
    case Dispatch(id, n) =>
      && In(s, id) && s.sessions[id].phase.Working?
      && Mutation(id, n) !in s.outstanding && Mutation(id, n) !in s.dropped
    case TakeEffect(m) => m in s.outstanding
    case Settle(id, n) => In(s, id) && s.sessions[id].phase.Working? && n in s.sessions[id].pending
    case Doubt(id, n) => In(s, id) && s.sessions[id].phase.Working? && n in s.sessions[id].pending
    case Desert(id, n) => In(s, id) && s.sessions[id].phase.Working? && n in s.sessions[id].pending
    case Dissolve(m) => m in s.outstanding && (In(s, m.session) ==> m.n !in s.sessions[m.session].pending)
    case Release(id) =>
      && In(s, id) && !s.sessions[id].uncertain && s.sessions[id].pending == {}
      && (s.sessions[id].phase.Confirmed? || s.sessions[id].phase.Working?)
    case ReleaseDone(id) =>
      && In(s, id) && s.sessions[id].phase.Releasing?
      && s.sessions[id].phase.held < |s.log| && s.log[s.sessions[id].phase.held].None?
    case ReleaseFailed(id) => In(s, id) && s.sessions[id].phase.Releasing?
    case Verify(id) => In(s, id) && s.sessions[id].phase.Verifying?
    case Stop(id) => In(s, id) && !s.sessions[id].phase.Returned?
    case Recover(id) =>
      HeldBy(s.log, id) && In(s, id) && s.sessions[id].phase.Returned? && NothingOutstanding(s, id)
  }

  ghost function Move(s: State, id: Id, phase: Phase): State
    requires In(s, id)
  {
    s.(sessions := s.sessions[id := s.sessions[id].(phase := phase)])
  }

  /** Whether a session that returns now has already asked for the release of version `held`. */
  function Asked(p: Phase): Option<nat> { if p.Releasing? || p.Verifying? then Some(p.held) else None }

  ghost function TokenStep(s: State, e: Event): State
    requires Enabled(s, e)
  {
    match e
    case Start(id) => s.(sessions := s.sessions[id := Session(Reading, {}, false)])
    case Read(id) => Move(s, id, if Free(s.log) then Seen(|s.log|) else Returned(false, None))
    case Acquire(id) =>
      var request := Request(s.sessions[id].phase.version, Some(id), ForAcquire, id);
      Move(s, id, Acquiring(request)).(wire := s.wire + {request})
    case Land(request) => if request.ifMatch == |s.log| then s.(log := s.log + [request.token]) else s
    case AcquireDone(id) => Move(s, id, Confirming)
    case Confirm(id) => Move(s, id, if HeldBy(s.log, id) then Confirmed(|s.log|) else Returned(false, None))
    case Release(id) =>
      var held := s.sessions[id].phase.held;
      Move(s, id, Releasing(held)).(wire := s.wire + {Request(held, None, ForRelease, id)})
    case ReleaseDone(id) => Move(s, id, Returned(true, Some(s.sessions[id].phase.held)))
    case ReleaseFailed(id) => Move(s, id, Verifying(s.sessions[id].phase.held))
    case Verify(id) =>
      var held := s.sessions[id].phase.held;
      Move(s, id, Returned(|s.log| != held && Free(s.log), Some(held)))
    case Stop(id) =>
      var x := s.sessions[id];
      s.(sessions := s.sessions[id := x.(phase := Returned(false, Asked(x.phase)), pending := {})])
    case Recover(id) => s.(wire := s.wire + {Request(|s.log|, None, ForRecovery, id)})
    case _ => s
  }

  ghost function WorkStep(s: State, e: Event): State
    requires Enabled(s, e)
  {
    match e
    case Begin(id) => Move(s, id, Working(s.sessions[id].phase.held)).(begun := s.begun + [id])
    case Dispatch(id, n) =>
      s.(sessions := s.sessions[id := s.sessions[id].(pending := s.sessions[id].pending + {n})],
         outstanding := s.outstanding + {Mutation(id, n)})
    case TakeEffect(m) => s.(effects := s.effects + [m])
    case Settle(id, n) =>
      s.(sessions := s.sessions[id := s.sessions[id].(pending := s.sessions[id].pending - {n})],
         outstanding := s.outstanding - {Mutation(id, n)})
    case Doubt(id, n) =>
      s.(sessions := s.sessions[id := s.sessions[id].(pending := s.sessions[id].pending - {n}, uncertain := true)])
    case Desert(id, n) =>
      s.(sessions := s.sessions[id := s.sessions[id].(pending := s.sessions[id].pending - {n})],
         dropped := s.dropped + {Mutation(id, n)})
    case Dissolve(m) => s.(outstanding := s.outstanding - {m})
    case _ => s
  }

  predicate IsWork(e: Event) {
    e.Begin? || e.Dispatch? || e.TakeEffect? || e.Settle? || e.Doubt? || e.Desert? || e.Dissolve?
  }

  ghost function After(s: State, e: Event): State {
    if !Enabled(s, e) then s else if IsWork(e) then WorkStep(s, e) else TokenStep(s, e)
  }

  ghost function Trace(s: State, es: seq<Event>): State
    decreases |es|
  {
    if es == [] then s else Trace(After(s, es[0]), es[1..])
  }

  // -------------------------------------------------------------------------------- the invariant

  /** A session past its read-back owns the stored version; one that asked for release owned it until that. */
  ghost predicate PhaseOk(s: State, id: Id, p: Phase) {
    match p
    case Confirmed(held) => held == |s.log| && HeldBy(s.log, id)
    case Working(held) => held == |s.log| && HeldBy(s.log, id)
    case Releasing(held) => AskedOk(s, id, held)
    case Verifying(held) => AskedOk(s, id, held)
    case Returned(ok, asked) =>
      && (asked.Some? ==> AskedOk(s, id, asked.value))
      && (ok ==> asked.Some? && asked.value < |s.log|)
    case _ => true
  }

  ghost predicate AskedOk(s: State, id: Id, held: nat) {
    && 0 < held <= |s.log| && s.log[held - 1] == Some(id) && Request(held, None, ForRelease, id) in s.wire
    && (held < |s.log| ==> s.log[held].None?)
  }

  ghost predicate SessionOk(s: State, id: Id, x: Session) {
    && PhaseOk(s, id, x.phase)
    && (forall n | n in x.pending :: Mutation(id, n) in s.outstanding)
    && (x.uncertain ==> x.phase.Working? || x.phase == Returned(false, None))
  }

  /** A session that has asked for the release of version `held`. */
  predicate HasAsked(p: Phase, held: nat) { Asked(p) == Some(held) || (p.Returned? && p.asked == Some(held)) }

  /** Begun, and no release asked for. */
  predicate Unasked(p: Phase) { p.Working? || (p.Returned? && p.asked.None?) }

  ghost predicate RequestOk(s: State, r: Request) {
    && r.ifMatch <= |s.log| && In(s, r.session)
    && (r.sender.ForAcquire? <==> r.token.Some?)
    && (r.sender.ForAcquire? ==> r.token == Some(r.session))
    && (r.sender.ForRelease? ==> HasAsked(s.sessions[r.session].phase, r.ifMatch))
    && (r.sender.ForRecovery? && r.ifMatch == |s.log| ==>
          s.sessions[r.session].phase.Returned? && NothingOutstanding(s, r.session))
    && (r.ifMatch == |s.log| ==> if r.sender.ForAcquire? then Free(s.log) else HeldBy(s.log, r.session))
  }

  /**
   * What can still take effect belongs to a session that has begun, and as long as that has not asked for release, to
   * the token's holder, the last to begin. A session asks for release only with nothing in flight but dropped calls.
   */
  ghost predicate MutationOk(s: State, m: Mutation) {
    && In(s, m.session) && m.session in s.begun
    && var x := s.sessions[m.session];
       && (Unasked(x.phase) ==> HeldBy(s.log, m.session) && s.begun[|s.begun| - 1] == m.session)
       && (m !in s.dropped ==> Unasked(x.phase) && (x.phase.Working? ==> x.uncertain || m.n in x.pending))
       && (m in s.dropped ==> m.n !in x.pending)
  }

  ghost predicate SeenOk(s: State, x: Session) {
    x.phase.Seen? ==> x.phase.version <= |s.log| && (x.phase.version == |s.log| ==> Free(s.log))
  }

  ghost predicate WorkOk(s: State, id: Id, x: Session) {
    x.phase.Working? ==> s.begun != [] && s.begun[|s.begun| - 1] == id
  }

  predicate HasBegun(p: Phase) { p.Working? || p.Releasing? || p.Verifying? || p.Returned? }

  ghost predicate Inv(s: State) {
    && (forall id | id in s.sessions ::
          SessionOk(s, id, s.sessions[id]) && SeenOk(s, s.sessions[id]) && WorkOk(s, id, s.sessions[id]))
    && (forall r | r in s.wire :: RequestOk(s, r))
    && (forall m | m in s.outstanding :: MutationOk(s, m))
    && (forall id | id in s.begun :: In(s, id) && HasBegun(s.sessions[id].phase))
  }

  // ------------------------------------------------------------------------ keeping the invariant

  /** The whole invariant about one session. */
  ghost predicate Fine(s: State, id: Id) {
    In(s, id) && SessionOk(s, id, s.sessions[id]) && SeenOk(s, s.sessions[id]) && WorkOk(s, id, s.sessions[id])
  }

  /** One session moves on; the object, the mutations and everybody else stay as they are. */
  lemma MoveKeepsInv(s: State, s': State, id: Id)
    requires Inv(s) && In(s', id) && s'.sessions == s.sessions[id := s'.sessions[id]]
    requires s'.log == s.log && s'.outstanding == s.outstanding && s'.begun == s.begun && s.wire <= s'.wire
    requires s'.dropped == s.dropped
    requires Fine(s', id)
    requires In(s, id) ==>
               && (HasBegun(s.sessions[id].phase) ==> HasBegun(s'.sessions[id].phase))
               && (s.sessions[id].phase.Returned? ==> s'.sessions[id].phase.Returned?)
               && (forall held | HasAsked(s.sessions[id].phase, held) :: HasAsked(s'.sessions[id].phase, held))
    requires forall m | m in s'.outstanding && m.session == id :: MutationOk(s', m)
    requires forall r | r in s'.wire - s.wire :: RequestOk(s', r)
    ensures Inv(s')
  {
    forall i | i in s'.sessions ensures Fine(s', i) {
      if i != id { assert Fine(s, i); }
    }
    forall r | r in s'.wire ensures RequestOk(s', r) {
      if r in s.wire { assert RequestOk(s, r); }
    }
    forall m | m in s'.outstanding ensures MutationOk(s', m) {
      if m.session != id { assert MutationOk(s, m); }
    }
  }

  /** A token that is free, or whose holder has not begun or has asked for release, covers no mutation. */
  lemma LandingFindsNothing(s: State, r: Request, m: Mutation)
    requires Inv(s) && r in s.wire && r.ifMatch == |s.log| && m in s.outstanding
    ensures In(s, m.session) && !Unasked(s.sessions[m.session].phase)
  {
    assert RequestOk(s, r) && MutationOk(s, m);
  }

  lemma LandMovesSession(s: State, r: Request, i: Id)
    requires Inv(s) && r in s.wire && r.ifMatch == |s.log| && i in s.sessions
    ensures Fine(s.(log := s.log + [r.token]), i)
  {
    hide MutationOk;
    assert RequestOk(s, r);
    assert Fine(s, i);
  }

  lemma LandKeepsInv(s: State, r: Request)
    requires Inv(s) && r in s.wire && r.ifMatch == |s.log|
    ensures Inv(s.(log := s.log + [r.token]))
  {
    hide SessionOk, SeenOk, WorkOk;
    var s' := s.(log := s.log + [r.token]);
    forall i | i in s'.sessions ensures SessionOk(s', i, s'.sessions[i]) && SeenOk(s', s'.sessions[i])
                                        && WorkOk(s', i, s'.sessions[i]) {
      LandMovesSession(s, r, i);
    }
    forall q | q in s'.wire ensures RequestOk(s', q) { assert RequestOk(s, q); }
    forall m | m in s'.outstanding ensures MutationOk(s', m) {
      assert MutationOk(s, m);
      LandingFindsNothing(s, r, m);
    }
  }

  lemma TokenStepKeepsInv(s: State, e: Event)
    requires Inv(s) && Enabled(s, e) && !IsWork(e)
    ensures Inv(TokenStep(s, e))
  {
    hide Inv, RequestOk, MutationOk, Fine;
    var s' := TokenStep(s, e);
    if e.Land? {
      if e.request.ifMatch == |s.log| { LandKeepsInv(s, e.request); }
    } else {
      SendsAreOk(s, e);
      TokenKeepsMutations(s, e);
      TokenMovesOn(s, e);
      TokenFrame(s, e);
      MoveKeepsInv(s, s', e.id);
    }
  }

  lemma TokenKeepsMutations(s: State, e: Event)
    requires Inv(s) && Enabled(s, e) && !IsWork(e) && !e.Land?
    ensures forall m | m in TokenStep(s, e).outstanding && m.session == e.id :: MutationOk(TokenStep(s, e), m)
  {
    hide RequestOk, SessionOk, SeenOk, WorkOk;
    var s' := TokenStep(s, e);
    if e.Release? { NoneOutstandingAtRelease(s, e.id); }
    forall m | m in s'.outstanding && m.session == e.id ensures MutationOk(s', m) { assert MutationOk(s, m); }
  }

  /** What a step on the token leaves alone. */
  lemma TokenFrame(s: State, e: Event)
    requires Inv(s) && Enabled(s, e) && !IsWork(e) && !e.Land?
    ensures var s' := TokenStep(s, e);
            && In(s', e.id) && s'.sessions == s.sessions[e.id := s'.sessions[e.id]]
            && s'.log == s.log && s'.outstanding == s.outstanding && s'.begun == s.begun && s.wire <= s'.wire
            && s'.dropped == s.dropped
    ensures In(s, e.id) ==>
              var p, q := s.sessions[e.id].phase, TokenStep(s, e).sessions[e.id].phase;
              && (HasBegun(p) ==> HasBegun(q)) && (p.Returned? ==> q.Returned?)
              && forall held | HasAsked(p, held) :: HasAsked(q, held)
  {
    hide Inv;
  }

  predicate IsAcquiring(e: Event) { e.Start? || e.Read? || e.Acquire? || e.AcquireDone? || e.Confirm? }

  lemma AcquiringMovesOn(s: State, e: Event)
    requires Inv(s) && Enabled(s, e) && IsAcquiring(e)
    ensures Fine(TokenStep(s, e), e.id)
  {
    hide RequestOk, MutationOk, HasBegun;
    if In(s, e.id) { assert Fine(s, e.id); }
  }

  lemma ReleasingMovesOn(s: State, e: Event)
    requires Inv(s) && Enabled(s, e) && !IsWork(e) && !e.Land? && !IsAcquiring(e)
    ensures Fine(TokenStep(s, e), e.id)
  {
    hide RequestOk, MutationOk, HasBegun;
    assert Fine(s, e.id);
    if e.Release? { NoneOutstandingAtRelease(s, e.id); }
  }

  /** The acting session's own facts after a step on the token. */
  lemma TokenMovesOn(s: State, e: Event)
    requires Inv(s) && Enabled(s, e) && !IsWork(e) && !e.Land?
    ensures Fine(TokenStep(s, e), e.id)
  {
    hide Inv, Fine, TokenStep;
    if IsAcquiring(e) { AcquiringMovesOn(s, e); } else { ReleasingMovesOn(s, e); }
  }

  lemma SendsAreOk(s: State, e: Event)
    requires Inv(s) && Enabled(s, e) && !IsWork(e) && !e.Land?
    ensures forall r | r in TokenStep(s, e).wire - s.wire :: RequestOk(TokenStep(s, e), r)
  {
    hide MutationOk;
    if In(s, e.id) { assert Fine(s, e.id); }
    if e.Release? { NoneOutstandingAtRelease(s, e.id); }
  }

  /** A session with no call pending and no doubt has nothing in flight but dropped calls. */
  lemma NoneOutstandingAtRelease(s: State, id: Id)
    requires Inv(s) && Enabled(s, Release(id))
    ensures Settled(s, id)
  {
    forall m | m in s.outstanding && m.session == id ensures m in s.dropped { assert MutationOk(s, m); }
  }

  lemma BeginFindsNothing(s: State, id: Id, m: Mutation)
    requires Inv(s) && Enabled(s, Begin(id)) && m in s.outstanding
    ensures m.session != id && In(s, m.session) && !Unasked(s.sessions[m.session].phase)
  {
    assert MutationOk(s, m) && Fine(s, id);
  }

  lemma BeginKeepsInv(s: State, id: Id)
    requires Inv(s) && Enabled(s, Begin(id))
    ensures Inv(WorkStep(s, Begin(id)))
  {
    var s' := WorkStep(s, Begin(id));
    assert Fine(s, id);
    forall i | i in s'.sessions ensures Fine(s', i) { assert Fine(s, i); }
    forall r | r in s'.wire ensures RequestOk(s', r) { assert RequestOk(s, r); }
    forall m | m in s'.outstanding ensures MutationOk(s', m) {
      assert MutationOk(s, m);
      BeginFindsNothing(s, id, m);
    }
  }

  /** Dispatching, settling, doubting or dropping a mutation is the working session's own affair. */
  lemma MutationKeepsOthers(s: State, e: Event)
    requires Inv(s) && Enabled(s, e) && (e.Dispatch? || e.Settle? || e.Doubt? || e.Desert?)
    ensures forall i | i in WorkStep(s, e).sessions :: Fine(WorkStep(s, e), i)
  {
    hide RequestOk, MutationOk;
    var s' := WorkStep(s, e);
    assert Fine(s, e.id);
    forall i | i in s'.sessions ensures Fine(s', i) { assert Fine(s, i); }
  }

  lemma MutationKeepsRequests(s: State, e: Event)
    requires Inv(s) && Enabled(s, e) && (e.Dispatch? || e.Settle? || e.Doubt? || e.Desert?)
    ensures forall r | r in WorkStep(s, e).wire :: RequestOk(WorkStep(s, e), r)
  {
    hide MutationOk, SessionOk, SeenOk, WorkOk;
    var s' := WorkStep(s, e);
    forall r | r in s'.wire ensures RequestOk(s', r) { assert RequestOk(s, r); }
  }

  lemma MutationKeepsMutations(s: State, e: Event)
    requires Inv(s) && Enabled(s, e) && (e.Dispatch? || e.Settle? || e.Doubt? || e.Desert?)
    ensures forall m | m in WorkStep(s, e).outstanding :: MutationOk(WorkStep(s, e), m)
  {
    hide RequestOk, SeenOk;
    var s' := WorkStep(s, e);
    assert Fine(s, e.id);
    forall m | m in s'.outstanding ensures MutationOk(s', m) {
      if m in s.outstanding { assert MutationOk(s, m); }
    }
  }

  lemma MutationKeepsInv(s: State, e: Event)
    requires Inv(s) && Enabled(s, e) && (e.Dispatch? || e.Settle? || e.Doubt? || e.Desert?)
    ensures Inv(WorkStep(s, e))
  {
    hide SeenOk, SessionOk, WorkOk, RequestOk, MutationOk;
    var s' := WorkStep(s, e);
    MutationKeepsOthers(s, e);
    MutationKeepsRequests(s, e);
    MutationKeepsMutations(s, e);
    forall i | i in s'.sessions
      ensures SessionOk(s', i, s'.sessions[i]) && SeenOk(s', s'.sessions[i]) && WorkOk(s', i, s'.sessions[i])
    {
      assert Fine(s', i);
    }
  }

  lemma WorkStepKeepsInv(s: State, e: Event)
    requires Inv(s) && Enabled(s, e) && IsWork(e)
    ensures Inv(WorkStep(s, e))
  {
    if e.Begin? {
      BeginKeepsInv(s, e.id);
    } else if e.TakeEffect? || e.Dissolve? {
      var s' := WorkStep(s, e);
      forall i | i in s'.sessions ensures Fine(s', i) { assert Fine(s, i); }
      forall r | r in s'.wire ensures RequestOk(s', r) { assert RequestOk(s, r); }
      forall m | m in s'.outstanding ensures MutationOk(s', m) { assert MutationOk(s, m); }
    } else {
      MutationKeepsInv(s, e);
    }
  }

  lemma StepKeepsInv(s: State, e: Event)
    requires Inv(s)
    ensures Inv(After(s, e))
  {
    hide Inv, TokenStep, WorkStep, Enabled;
    if Enabled(s, e) {
      if IsWork(e) { WorkStepKeepsInv(s, e); } else { TokenStepKeepsInv(s, e); }
    }
  }

  lemma {:induction false} TraceKeepsInv(s: State, es: seq<Event>)
    requires Inv(s)
    ensures Inv(Trace(s, es))
    decreases |es|
  {
    hide Inv, After;
    if es != [] {
      StepKeepsInv(s, es[0]);
      TraceKeepsInv(After(s, es[0]), es[1..]);
    }
  }

  // --------------------------------------------------------------------------------- the theorems

  ghost predicate Reachable(s: State) { exists s0, es :: Init(s0) && Trace(s0, es) == s }

  lemma ReachableInv(s: State)
    requires Reachable(s)
    ensures Inv(s)
  {
    var s0, es :| Init(s0) && Trace(s0, es) == s;
    TraceKeepsInv(s0, es);
  }

  /** Its session is done with its work, and it is not in flight. */
  ghost predicate Past(s: State, m: Mutation) {
    && In(s, m.session) && HasBegun(s.sessions[m.session].phase) && !s.sessions[m.session].phase.Working?
    && m !in s.outstanding
  }

  lemma PastStays(s: State, e: Event, m: Mutation)
    requires Past(s, m)
    ensures Past(After(s, e), m)
  {
  }

  lemma {:induction false} PastForever(s: State, es: seq<Event>, m: Mutation)
    requires Past(s, m)
    ensures Past(Trace(s, es), m)
    decreases |es|
  {
    hide After, Past;
    if es != [] {
      PastStays(s, es[0], m);
      PastForever(After(s, es[0]), es[1..], m);
    }
  }

  /** Once another session's work has begun, no mutation that was waited for takes effect, in any continuation. */
  lemma NoLateEffects(s: State, es: seq<Event>, m: Mutation)
    requires Reachable(s) && m.session in s.begun && s.begun[|s.begun| - 1] != m.session && m !in s.dropped
    ensures !Enabled(Trace(s, es), TakeEffect(m))
  {
    ReachableInv(s);
    assert Fine(s, m.session);
    WaitedForIsLast(s, m);
    PastForever(s, es, m);
  }

  lemma WaitedForIsLast(s: State, m: Mutation)
    requires Inv(s)
    ensures m in s.outstanding && m !in s.dropped ==>
              m.session in s.begun && s.begun[|s.begun| - 1] == m.session
  {
    if m in s.outstanding { assert MutationOk(s, m); }
  }

  /** The token is stored and its session can no longer ask for its release; no recovery is on its way. */
  ghost predicate Stuck(s: State, id: Id) {
    && HeldBy(s.log, id) && In(s, id)
    && (s.sessions[id].phase == Returned(false, None) || (s.sessions[id].phase.Working? && s.sessions[id].uncertain))
    && forall r | r in s.wire && r.ifMatch == |s.log| :: !r.sender.ForRecovery?
  }

  lemma StuckStays(s: State, e: Event, id: Id)
    requires Inv(s) && Stuck(s, id) && !e.Recover?
    ensures Stuck(After(s, e), id)
  {
    hide Inv, Stuck, TokenStep, WorkStep, Enabled;
    if Enabled(s, e) {
      if IsWork(e) {
        WorkLeavesStuck(s, e, id);
      } else if e.Land? {
        LandLeavesStuck(s, e.request, id);
      } else {
        TokenLeavesStuck(s, e, id);
      }
    }
  }

  lemma WorkLeavesStuck(s: State, e: Event, id: Id)
    requires Stuck(s, id) && Enabled(s, e) && IsWork(e)
    ensures Stuck(WorkStep(s, e), id)
  {
  }

  lemma LandLeavesStuck(s: State, r: Request, id: Id)
    requires Inv(s) && Stuck(s, id) && Enabled(s, Land(r))
    ensures Stuck(TokenStep(s, Land(r)), id)
  {
    hide MutationOk, SessionOk, NothingOutstanding;
    assert RequestOk(s, r);
  }

  lemma TokenLeavesStuck(s: State, e: Event, id: Id)
    requires Inv(s) && Stuck(s, id) && Enabled(s, e) && !IsWork(e) && !e.Land? && !e.Recover?
    ensures Stuck(TokenStep(s, e), id)
  {
    hide MutationOk, RequestOk, NothingOutstanding;
    assert Fine(s, id);
  }

  ghost predicate NoRecovery(es: seq<Event>) { forall i | 0 <= i < |es| :: !es[i].Recover? }

  lemma {:induction false} StuckForever(s: State, es: seq<Event>, id: Id)
    requires Inv(s) && Stuck(s, id) && NoRecovery(es)
    ensures Stuck(Trace(s, es), id)
    decreases |es|
  {
    hide Inv, After, Stuck;
    if es != [] {
      StepKeepsInv(s, es[0]);
      StuckStays(s, es[0], id);
      StuckForever(After(s, es[0]), es[1..], id);
    }
  }

  /**
   * A session with a doubtful mutation, or one that stopped before asking for release (a lost acquire
   * acknowledgement included), leaves the gate held, and nobody else working, until an explicit recovery.
   */
  lemma HeldUntilRecovery(s: State, es: seq<Event>, id: Id)
    requires Reachable(s) && Stuck(s, id) && NoRecovery(es)
    ensures HeldBy(Trace(s, es).log, id)
    ensures forall other | In(Trace(s, es), other) && Trace(s, es).sessions[other].phase.Working? :: other == id
  {
    ReachableInv(s);
    StuckForever(s, es, id);
    TraceKeepsInv(s, es);
    forall other | In(Trace(s, es), other) && Trace(s, es).sessions[other].phase.Working? ensures other == id {
      assert Fine(Trace(s, es), other);
    }
  }

  /** Every mutation that can still take effect keeps the gate held by its session, which cannot release it. */
  lemma UnsettledMutationHoldsTheGate(s: State, m: Mutation)
    requires Reachable(s) && m in s.outstanding && m !in s.dropped
    ensures HeldBy(s.log, m.session) && !Enabled(s, Release(m.session)) && !Enabled(s, Recover(m.session))
    ensures forall r | r in s.wire :: r.ifMatch != |s.log| && After(s, Land(r)) == s
  {
    ReachableInv(s);
    assert MutationOk(s, m) && Fine(s, m.session);
    forall r | r in s.wire ensures r.ifMatch != |s.log| { assert RequestOk(s, r); }
  }

  /** Reporting success means the release really took effect, directly or by the read-back after a lost reply. */
  lemma SuccessMeansReleased(s: State, id: Id)
    requires Reachable(s) && In(s, id) && s.sessions[id].phase.Returned? && s.sessions[id].phase.ok
    ensures s.sessions[id].phase.asked.Some?
    ensures var held := s.sessions[id].phase.asked.value;
            0 < held < |s.log| && s.log[held - 1] == Some(id) && s.log[held] == None && Settled(s, id)
  {
    ReachableInv(s);
    assert Fine(s, id);
    forall m | m in s.outstanding && m.session == id ensures m in s.dropped { assert MutationOk(s, m); }
  }

  // ------------------------------------------------------------------ a session holds the token once

  /** An acquire upload that can still land is that of a session which has not confirmed it. */
  ghost predicate AcquireOk(s: State, r: Request) {
    && In(s, r.session)
    && var p := s.sessions[r.session].phase;
       && !p.Reading? && !p.Seen? && (p.Acquiring? ==> p.request == r)
       && (r.ifMatch >= |s.log| ==> (p.Acquiring? || (p.Returned? && p.asked.None?)) && r.session !in s.begun)
  }

  ghost predicate AcquiresOk(s: State) { forall r | r in s.wire && r.sender.ForAcquire? :: AcquireOk(s, r) }

  ghost predicate HolderIsLast(s: State) {
    forall id | id in s.begun && HeldBy(s.log, id) :: s.begun[|s.begun| - 1] == id
  }

  ghost predicate ReleasedIsGone(s: State) {
    forall id: Id, held: nat | id in s.sessions && HasAsked(s.sessions[id].phase, held) && held < |s.log| ::
      !HeldBy(s.log, id)
  }

  ghost predicate TokensKnown(s: State) { forall i | 0 <= i < |s.log| && s.log[i].Some? :: In(s, s.log[i].value) }

  ghost predicate DroppedKnown(s: State) { forall m | m in s.dropped :: In(s, m.session) }

  /** After its own token is gone a session never gets it back. */
  ghost predicate Order(s: State) {
    AcquiresOk(s) && HolderIsLast(s) && ReleasedIsGone(s) && TokensKnown(s) && DroppedKnown(s)
  }

  lemma StepKeepsAcquires(s: State, e: Event)
    requires Inv(s) && AcquiresOk(s) && Enabled(s, e)
    ensures AcquiresOk(After(s, e))
  {
    hide Inv, AcquireOk, Enabled;
    var t := After(s, e);
    forall r | r in t.wire && r.sender.ForAcquire? ensures AcquireOk(t, r) {
      if r in s.wire {
        assert AcquireOk(s, r);
        AcquireStaysOk(s, e, r);
      } else {
        NewAcquireIsOk(s, e, r);
      }
    }
  }

  lemma AcquireStaysOk(s: State, e: Event, r: Request)
    requires AcquireOk(s, r) && Enabled(s, e) && r.sender.ForAcquire?
    ensures AcquireOk(After(s, e), r)
  {
  }

  lemma NewAcquireIsOk(s: State, e: Event, r: Request)
    requires Inv(s) && Enabled(s, e) && r in After(s, e).wire && r !in s.wire && r.sender.ForAcquire?
    ensures AcquireOk(After(s, e), r)
  {
    hide SessionOk, RequestOk, MutationOk, SeenOk, WorkOk;
  }

  lemma LandKeepsOrder(s: State, r: Request)
    requires Inv(s) && Order(s) && r in s.wire && r.ifMatch == |s.log|
    ensures HolderIsLast(s.(log := s.log + [r.token])) && ReleasedIsGone(s.(log := s.log + [r.token]))
    ensures TokensKnown(s.(log := s.log + [r.token]))
  {
    hide MutationOk, SessionOk;
    assert RequestOk(s, r);
    if r.sender.ForAcquire? { assert AcquireOk(s, r); }
  }

  lemma TokenKeepsOrder(s: State, e: Event)
    requires Inv(s) && Order(s) && Enabled(s, e) && !e.Land?
    ensures HolderIsLast(After(s, e)) && ReleasedIsGone(After(s, e)) && TokensKnown(After(s, e))
  {
    hide Inv, Order, HolderIsLast, ReleasedIsGone, TokensKnown, After;
    OrderParts(s);
    SameLog(s, e);
    KeepsHolderLast(s, e);
    KeepsReleasedGone(s, e);
    KeepsTokensKnown(s, e);
  }

  lemma OrderParts(s: State)
    requires Order(s)
    ensures AcquiresOk(s) && HolderIsLast(s) && ReleasedIsGone(s) && TokensKnown(s)
  {
  }

  lemma SameLog(s: State, e: Event)
    requires !e.Land?
    ensures After(s, e).log == s.log && s.sessions.Keys <= After(s, e).sessions.Keys
  {
  }

  lemma BeginnerHolds(s: State, id: Id)
    requires Inv(s) && Enabled(s, Begin(id))
    ensures HeldBy(s.log, id)
  {
    assert Fine(s, id);
  }

  lemma BegunGrows(s: State, e: Event)
    requires Enabled(s, e)
    ensures After(s, e).begun == if e.Begin? then s.begun + [e.id] else s.begun
  {
  }

  lemma KeepsHolderLast(s: State, e: Event)
    requires Inv(s) && HolderIsLast(s) && Enabled(s, e) && !e.Land?
    ensures HolderIsLast(After(s, e))
  {
    hide Inv, After, Enabled;
    SameLog(s, e);
    BegunGrows(s, e);
    if e.Begin? { BeginnerHolds(s, e.id); }
  }

  /** A release is asked for under the version last written. */
  lemma AskedEarlier(s: State, e: Event, id: Id, held: nat)
    requires Inv(s) && Enabled(s, e) && !e.Land?
    requires In(After(s, e), id) && HasAsked(After(s, e).sessions[id].phase, held) && held < |s.log|
    ensures In(s, id) && HasAsked(s.sessions[id].phase, held)
  {
    hide MutationOk, RequestOk;
    if In(s, id) { assert Fine(s, id); }
  }

  lemma KeepsReleasedGone(s: State, e: Event)
    requires Inv(s) && ReleasedIsGone(s) && Enabled(s, e) && !e.Land?
    ensures ReleasedIsGone(After(s, e))
  {
    hide Inv, After, Enabled, HasAsked;
    SameLog(s, e);
    var t := After(s, e);
    forall id: Id, held: nat | id in t.sessions && HasAsked(t.sessions[id].phase, held) && held < |t.log|
      ensures !HeldBy(t.log, id)
    {
      AskedEarlier(s, e, id, held);
    }
  }

  lemma KeepsDroppedKnown(s: State, e: Event)
    requires DroppedKnown(s)
    ensures DroppedKnown(After(s, e))
  {
  }

  lemma KeepsTokensKnown(s: State, e: Event)
    requires TokensKnown(s) && !e.Land?
    ensures TokensKnown(After(s, e))
  {
    hide After;
    SameLog(s, e);
  }

  lemma StepKeepsOrder(s: State, e: Event)
    requires Inv(s) && Order(s)
    ensures Order(After(s, e))
  {
    hide Inv, AcquiresOk, HolderIsLast, ReleasedIsGone, TokensKnown, DroppedKnown;
    if Enabled(s, e) {
      StepKeepsAcquires(s, e);
      KeepsDroppedKnown(s, e);
      if !e.Land? {
        TokenKeepsOrder(s, e);
      } else if e.request.ifMatch == |s.log| {
        LandKeepsOrder(s, e.request);
      }
    }
  }

  // ---------------------------------------------------------------------- the callback's duty, exactly

  /** A mutation takes effect although another session's work has begun since. */
  ghost predicate LateEffect(s: State, m: Mutation) {
    m.session in s.begun && s.begun[|s.begun| - 1] != m.session && Enabled(s, TakeEffect(m))
  }

  /** The session will not ask for release: it stopped before, or is in doubt about a mutation. */
  ghost predicate KeepsGate(s: State, id: Id) {
    && In(s, id)
    && var x := s.sessions[id];
       (x.phase.Returned? && x.phase.asked.None?) || (x.phase.Working? && x.uncertain)
  }

  ghost predicate NotDropped(es: seq<Event>, m: Mutation) {
    forall i | 0 <= i < |es| :: es[i] != Desert(m.session, m.n)
  }

  /** Some run that does not drop `m` leads from `s` to `t`. */
  ghost predicate Leads(s: State, t: State, m: Mutation) { exists es :: NotDropped(es, m) && Trace(s, es) == t }

  lemma {:induction false} TraceLast(s: State, es: seq<Event>, e: Event)
    ensures Trace(s, es + [e]) == After(Trace(s, es), e)
    decreases |es|
  {
    hide After;
    if es == [] {
      assert (es + [e])[1..] == [];
    } else {
      assert (es + [e])[1..] == es[1..] + [e];
      TraceLast(After(s, es[0]), es[1..], e);
    }
  }

  lemma LeadsNowhere(s: State, m: Mutation)
    ensures Leads(s, s, m)
  {
    assert Trace(s, []) == s;
    assert NotDropped([], m);
  }

  lemma LeadsOn(s: State, t: State, m: Mutation, e: Event)
    requires Leads(s, t, m) && e != Desert(m.session, m.n)
    ensures Leads(s, After(t, e), m)
  {
    hide After;
    var es :| NotDropped(es, m) && Trace(s, es) == t;
    TraceLast(s, es, e);
    assert NotDropped(es + [e], m);
  }

  lemma {:induction false} TraceKeepsOrder(s: State, es: seq<Event>)
    requires Inv(s) && Order(s)
    ensures Inv(Trace(s, es)) && Order(Trace(s, es))
    decreases |es|
  {
    hide Inv, Order, After;
    if es != [] {
      StepKeepsInv(s, es[0]);
      StepKeepsOrder(s, es[0]);
      TraceKeepsOrder(After(s, es[0]), es[1..]);
    }
  }

  lemma ReachableOrder(s: State)
    requires Reachable(s)
    ensures Inv(s) && Order(s)
  {
    var s0, es :| Init(s0) && Trace(s0, es) == s;
    TraceKeepsOrder(s0, es);
  }

  lemma LeadsKeepsOrder(s: State, t: State, m: Mutation)
    requires Inv(s) && Order(s) && Leads(s, t, m)
    ensures Inv(t) && Order(t)
  {
    hide Inv, Order;
    var es :| NotDropped(es, m) && Trace(s, es) == t;
    TraceKeepsOrder(s, es);
  }

  /** Any new session can get a free gate and begin to work. */
  lemma GetGate(s: State, t: State, m: Mutation, id: Id) returns (u: State)
    requires Leads(s, t, m) && Free(t.log) && id !in t.sessions
    ensures Leads(s, u, m) && u.log == t.log + [Some(id)]
    ensures u.sessions == t.sessions[id := Session(Working(|t.log| + 1), {}, false)]
    ensures u.begun == t.begun + [id] && u.outstanding == t.outstanding && u.dropped == t.dropped
    ensures u.effects == t.effects
  {
    hide Leads;
    var t1 := After(t, Start(id));
    LeadsOn(s, t, m, Start(id));
    var t2 := After(t1, Read(id));
    LeadsOn(s, t1, m, Read(id));
    var request := Request(|t.log|, Some(id), ForAcquire, id);
    var t3 := After(t2, Acquire(id));
    LeadsOn(s, t2, m, Acquire(id));
    assert request in t3.wire && t3.sessions[id].phase == Acquiring(request);
    var t4 := After(t3, Land(request));
    LeadsOn(s, t3, m, Land(request));
    u := GateConfirmed(s, t4, m, id, |t.log|);
    assert u.sessions == t.sessions[id := Session(Working(|t.log| + 1), {}, false)];
  }

  lemma GateConfirmed(s: State, t: State, m: Mutation, id: Id, at: nat) returns (u: State)
    requires Leads(s, t, m) && |t.log| == at + 1 && t.log[at] == Some(id) && In(t, id)
    requires t.sessions[id].phase.Acquiring? && t.sessions[id].phase.request.ifMatch == at
    ensures Leads(s, u, m) && u.log == t.log && u.outstanding == t.outstanding && u.dropped == t.dropped
    ensures u.begun == t.begun + [id] && u.effects == t.effects
    ensures u.sessions == t.sessions[id := t.sessions[id].(phase := Working(at + 1))]
  {
    hide Leads;
    var t1 := After(t, AcquireDone(id));
    LeadsOn(s, t, m, AcquireDone(id));
    var t2 := After(t1, Confirm(id));
    LeadsOn(s, t1, m, Confirm(id));
    u := After(t2, Begin(id));
    LeadsOn(s, t2, m, Begin(id));
    assert u.sessions == t.sessions[id := t.sessions[id].(phase := Working(at + 1))];
  }

  lemma {:induction false} Fresh(ids: set<Id>) returns (id: Id)
    ensures forall i | i in ids :: i < id
  {
    if ids == {} {
      id := 0;
    } else {
      var i :| i in ids;
      var j := Fresh(ids - {i});
      id := if i < j then j else i + 1;
      forall k | k in ids ensures k < id { if k != i { assert k in ids - {i}; } }
    }
  }

  /** With the gate free, somebody else can begin while the mutation is still in flight. */
  lemma LateOnceFree(s: State, t: State, m: Mutation) returns (u: State)
    requires Leads(s, t, m) && Free(t.log) && m in t.outstanding && m.session in t.begun && In(t, m.session)
    ensures Leads(s, u, m) && LateEffect(u, m)
  {
    hide Leads;
    var id := Fresh(t.sessions.Keys);
    u := GetGate(s, t, m, id);
    assert u.begun[|u.begun| - 1] == id;
  }

  /** A holder that has not begun can be stopped and its token recovered. */
  lemma FreedByRecovery(s: State, t: State, m: Mutation, id: Id) returns (u: State)
    requires Leads(s, t, m) && Inv(t) && In(t, id) && HeldBy(t.log, id) && id !in t.begun
    ensures Leads(s, u, m) && Free(u.log) && u.outstanding == t.outstanding && u.begun == t.begun
    ensures u.sessions.Keys == t.sessions.Keys
  {
    hide Leads, RequestOk, SessionOk;
    var t1 := After(t, Stop(id));
    LeadsOn(s, t, m, Stop(id));
    assert t1.sessions[id].phase.Returned? && t1.log == t.log;
    forall k | k in t1.outstanding ensures k.session != id { assert MutationOk(t, k); }
    var t2 := After(t1, Recover(id));
    LeadsOn(s, t1, m, Recover(id));
    var request := Request(|t.log|, None, ForRecovery, id);
    assert request in t2.wire;
    u := After(t2, Land(request));
    LeadsOn(s, t2, m, Land(request));
  }

  /** A session that has asked for release lets somebody else begin, whatever became of its upload. */
  lemma LateOnceAsked(s: State, t: State, m: Mutation, held: nat) returns (u: State)
    requires Leads(s, t, m) && Inv(t) && Order(t) && m in t.outstanding && In(t, m.session)
    requires HasAsked(t.sessions[m.session].phase, held)
    ensures Leads(s, u, m) && LateEffect(u, m)
  {
    hide Leads, RequestOk, AcquiresOk;
    assert MutationOk(t, m) && Fine(t, m.session);
    if held == |t.log| {
      var request := Request(held, None, ForRelease, m.session);
      u := After(t, Land(request));
      LeadsOn(s, t, m, Land(request));
      u := LateOnceFree(s, u, m);
    } else if Free(t.log) {
      u := LateOnceFree(s, t, m);
    } else {
      var id := t.log[|t.log| - 1].value;
      assert HeldBy(t.log, id) && id != m.session;
      if id in t.begun {
        u := t;
      } else {
        u := FreedByRecovery(s, t, m, id);
        u := LateOnceFree(s, u, m);
      }
    }
  }

  /** The other calls of a working session can all return. */
  lemma {:induction false} SettleAll(s: State, t: State, m: Mutation) returns (u: State)
    requires Leads(s, t, m) && m in t.outstanding && In(t, m.session) && t.sessions[m.session].phase.Working?
    requires m.n !in t.sessions[m.session].pending
    ensures Leads(s, u, m) && m in u.outstanding && u.log == t.log && u.begun == t.begun
    ensures In(u, m.session) && u.sessions[m.session] == t.sessions[m.session].(pending := {})
    decreases |t.sessions[m.session].pending|
  {
    hide Leads;
    var x := t.sessions[m.session];
    if x.pending == {} {
      u := t;
    } else {
      var n :| n in x.pending;
      var e := Settle(m.session, n);
      LeadsOn(s, t, m, e);
      assert After(t, e).sessions[m.session].pending == x.pending - {n};
      u := SettleAll(s, After(t, e), m);
    }
  }

  lemma LateWhileWorking(s: State, m: Mutation) returns (u: State)
    requires Inv(s) && Order(s) && m in s.outstanding && m in s.dropped && In(s, m.session)
    requires s.sessions[m.session].phase.Working? && !s.sessions[m.session].uncertain
    ensures Leads(s, u, m) && LateEffect(u, m)
  {
    hide Leads, Inv, Order;
    LeadsNowhere(s, m);
    DroppedIsNotPending(s, m);
    var t := SettleAll(s, s, m);
    var held := t.sessions[m.session].phase.held;
    LeadsOn(s, t, m, Release(m.session));
    var t' := After(t, Release(m.session));
    LeadsKeepsOrder(s, t', m);
    u := LateOnceAsked(s, t', m, held);
  }

  lemma DroppedIsNotPending(s: State, m: Mutation)
    requires Inv(s) && m in s.outstanding && m in s.dropped
    ensures In(s, m.session) && m.n !in s.sessions[m.session].pending
  {
    assert MutationOk(s, m);
  }

  /** The session has begun, so it works, or has asked for release, or has returned without asking. */
  lemma PhaseOfOutstanding(s: State, m: Mutation)
    requires Inv(s) && m in s.outstanding
    ensures In(s, m.session) && m.session in s.begun
    ensures var p := s.sessions[m.session].phase; Unasked(p) || exists held: nat :: HasAsked(p, held)
    ensures m !in s.dropped || KeepsGate(s, m.session) ==> s.begun[|s.begun| - 1] == m.session
  {
    assert MutationOk(s, m);
    var p := s.sessions[m.session].phase;
    assert HasBegun(p);
    if !Unasked(p) { assert HasAsked(p, if p.Returned? then p.asked.value else p.held); }
  }

  lemma DroppedCanBeLate(s: State, m: Mutation) returns (u: State)
    requires Inv(s) && Order(s) && m in s.outstanding && m in s.dropped && !KeepsGate(s, m.session)
    ensures Leads(s, u, m) && LateEffect(u, m)
  {
    hide Leads, Inv, Order, LateEffect, HasAsked;
    PhaseOfOutstanding(s, m);
    if s.sessions[m.session].phase.Working? {
      u := LateWhileWorking(s, m);
    } else {
      LeadsNowhere(s, m);
      var held: nat :| HasAsked(s.sessions[m.session].phase, held);
      u := LateOnceAsked(s, s, m, held);
    }
  }

  lemma {:induction false} StillWaitedFor(s: State, es: seq<Event>, m: Mutation)
    requires m !in s.dropped && NotDropped(es, m)
    ensures m !in Trace(s, es).dropped
    decreases |es|
  {
    if es != [] {
      assert es[0] != Desert(m.session, m.n);
      StillWaitedFor(After(s, es[0]), es[1..], m);
    }
  }

  /** Gone for good, or its session keeps the gate. */
  ghost predicate Contained(s: State, m: Mutation) {
    m in s.dropped && In(s, m.session) && (m !in s.outstanding || KeepsGate(s, m.session))
  }

  lemma ContainedStays(s: State, e: Event, m: Mutation)
    requires Contained(s, m)
    ensures Contained(After(s, e), m)
  {
  }

  lemma {:induction false} ContainedForever(s: State, es: seq<Event>, m: Mutation)
    requires Contained(s, m)
    ensures Contained(Trace(s, es), m)
    decreases |es|
  {
    hide After, Contained;
    if es != [] {
      ContainedStays(s, es[0], m);
      ContainedForever(After(s, es[0]), es[1..], m);
    }
  }

  lemma LateMeansDropped(s: State, es: seq<Event>, m: Mutation)
    requires Inv(s) && m in s.outstanding && NotDropped(es, m) && LateEffect(Trace(s, es), m)
    ensures m in s.dropped && !KeepsGate(s, m.session)
  {
    hide Inv;
    TraceKeepsInv(s, es);
    PhaseOfOutstanding(Trace(s, es), m);
    PhaseOfOutstanding(s, m);
    if m !in s.dropped {
      StillWaitedFor(s, es, m);
    } else if KeepsGate(s, m.session) {
      ContainedForever(s, es, m);
    }
  }

  /**
   * In any run, for a mutation in flight: it can come to take effect after another session began, without being
   * dropped from here on, exactly if it has been dropped and its session still lets the gate go.
   */
  lemma LateIff(s: State, m: Mutation)
    requires Reachable(s) && m in s.outstanding
    ensures (exists t :: Leads(s, t, m) && LateEffect(t, m)) <==> m in s.dropped && !KeepsGate(s, m.session)
  {
    hide Reachable, Inv, Order, LateEffect, KeepsGate;
    ReachableOrder(s);
    if m in s.dropped && !KeepsGate(s, m.session) {
      var t := DroppedCanBeLate(s, m);
    }
    forall t | Leads(s, t, m) && LateEffect(t, m) ensures m in s.dropped && !KeepsGate(s, m.session) {
      var es :| NotDropped(es, m) && Trace(s, es) == t;
      LateMeansDropped(s, es, m);
    }
  }

  /** A callback that drops a call lets the gate go while its mutation is in flight. */
  lemma DroppedCallIsLate() returns (s: State)
    ensures Reachable(s) && Mutation(1, 0) in s.dropped && LateEffect(s, Mutation(1, 0))
  {
    hide Leads, Reachable;
    var s0, other := State([], map[], {}, {}, [], [], {}), Mutation(9, 0);
    LeadsNowhere(s0, other);
    var a := GetGate(s0, s0, other, 1);
    var b := DropAndRelease(s0, a, other);
    s := GetGate(s0, b, other, 2);
    assert s.begun[0] == 1;
    LeadsIsReachable(s0, s, other);
  }

  lemma LeadsIsReachable(s: State, t: State, m: Mutation)
    requires Init(s) && Leads(s, t, m)
    ensures Reachable(t)
  {
  }

  lemma DropAndRelease(s: State, t: State, other: Mutation) returns (u: State)
    requires Leads(s, t, other) && other.session != 1
    requires t.log == [Some(1)] && t.begun == [1] && t.outstanding == {} && t.dropped == {}
    requires t.sessions == map[1 := Session(Working(1), {}, false)]
    ensures Leads(s, u, other) && Free(u.log) && u.begun == [1] && u.sessions.Keys == {1}
    ensures Mutation(1, 0) in u.outstanding && Mutation(1, 0) in u.dropped
  {
    hide Leads;
    var t1 := After(t, Dispatch(1, 0));
    LeadsOn(s, t, other, Dispatch(1, 0));
    var t2 := After(t1, Desert(1, 0));
    LeadsOn(s, t1, other, Desert(1, 0));
    assert t2.sessions[1] == Session(Working(1), {}, false);
    var t3 := After(t2, Release(1));
    LeadsOn(s, t2, other, Release(1));
    var request := Request(1, None, ForRelease, 1);
    assert request in t3.wire;
    u := After(t3, Land(request));
    LeadsOn(s, t3, other, Land(request));
  }

  ghost predicate AlwaysTimely(dropped: bool) {
    forall s: State, m: Mutation | Reachable(s) && (m in s.dropped) == dropped :: !LateEffect(s, m)
  }

  /** Over all runs: exactly the calls that are waited for are never late. */
  lemma AwaitingIsExact(dropped: bool)
    ensures AlwaysTimely(dropped) <==> !dropped
  {
    hide Reachable;
    if dropped {
      var s := DroppedCallIsLate();
      assert Reachable(s) && (Mutation(1, 0) in s.dropped) == dropped && LateEffect(s, Mutation(1, 0));
    } else {
      forall s: State, m: Mutation | Reachable(s) && (m in s.dropped) == dropped ensures !LateEffect(s, m) {
        if m.session in s.begun && s.begun[|s.begun| - 1] != m.session { NoLateEffects(s, [], m); }
      }
    }
  }

  // ------------------------------------------------------------------------ a session left alone

  /** One awaited storage call: dispatched, effective, settled. */
  lemma CallSettles(s: State, t: State, m: Mutation, id: Id, n: nat) returns (u: State)
    requires Leads(s, t, m) && In(t, id) && t.sessions[id].phase.Working? && Mutation(id, n) !in t.outstanding
    requires Mutation(id, n) !in t.dropped && t.sessions[id].pending == {}
    ensures Leads(s, u, m) && u == t.(effects := t.effects + [Mutation(id, n)])
  {
    hide Leads;
    LeadsOn(s, t, m, Dispatch(id, n));
    var t1 := After(t, Dispatch(id, n));
    LeadsOn(s, t1, m, TakeEffect(Mutation(id, n)));
    var t2 := After(t1, TakeEffect(Mutation(id, n)));
    LeadsOn(s, t2, m, Settle(id, n));
    u := After(t2, Settle(id, n));
    assert u.outstanding == t.outstanding;
    assert u.sessions[id].pending == {};
    assert u.sessions == t.sessions;
  }

  /** A release nobody precedes lands, and is reported as success whether or not its reply arrives. */
  lemma ReleaseSucceeds(s: State, t: State, m: Mutation, id: Id, held: nat, lost: bool) returns (u: State)
    requires Leads(s, t, m) && In(t, id) && t.sessions[id] == Session(Working(held), {}, false) && held == |t.log|
    ensures Leads(s, u, m) && u.log == t.log + [None] && u.effects == t.effects && u.outstanding == t.outstanding
    ensures u.sessions == t.sessions[id := Session(Returned(true, Some(held)), {}, false)]
  {
    hide Leads;
    var request := Request(held, None, ForRelease, id);
    LeadsOn(s, t, m, Release(id));
    var t1 := After(t, Release(id));
    assert request in t1.wire && t1.log == t.log;
    LeadsOn(s, t1, m, Land(request));
    var t2 := After(t1, Land(request));
    u := ReleaseReported(s, t2, m, id, held, lost);
    assert u.sessions == t.sessions[id := Session(Returned(true, Some(held)), {}, false)];
  }

  lemma ReleaseReported(s: State, t: State, m: Mutation, id: Id, held: nat, lost: bool) returns (u: State)
    requires Leads(s, t, m) && In(t, id) && t.sessions[id].phase == Releasing(held)
    requires |t.log| == held + 1 && t.log[held].None?
    ensures Leads(s, u, m)
    ensures u == t.(sessions := t.sessions[id := t.sessions[id].(phase := Returned(true, Some(held)))])
  {
    hide Leads;
    if lost {
      LeadsOn(s, t, m, ReleaseFailed(id));
      var t1 := After(t, ReleaseFailed(id));
      LeadsOn(s, t1, m, Verify(id));
      u := After(t1, Verify(id));
    } else {
      LeadsOn(s, t, m, ReleaseDone(id));
      u := After(t, ReleaseDone(id));
    }
    assert u.sessions == t.sessions[id := t.sessions[id].(phase := Returned(true, Some(held)))];
  }

  lemma NothingOfNew(s: State, id: Id)
    requires Inv(s) && Order(s) && id !in s.sessions
    ensures forall m | m in s.outstanding || m in s.dropped :: m.session != id
  {
    hide AcquiresOk, HolderIsLast, ReleasedIsGone;
    forall m | m in s.outstanding ensures m.session != id { assert MutationOk(s, m); }
  }

  lemma {:induction false} TraceConcat(s: State, es: seq<Event>, fs: seq<Event>)
    ensures Trace(s, es + fs) == Trace(Trace(s, es), fs)
    decreases |es|
  {
    hide After;
    if es == [] {
      assert es + fs == fs;
    } else {
      assert (es + fs)[1..] == es[1..] + fs;
      TraceConcat(After(s, es[0]), es[1..], fs);
    }
  }

  lemma LeadsFromReachable(s: State, t: State, m: Mutation)
    requires Reachable(s) && Leads(s, t, m)
    ensures Reachable(t)
  {
    var s0, es :| Init(s0) && Trace(s0, es) == s;
    var fs :| NotDropped(fs, m) && Trace(s, fs) == t;
    TraceConcat(s0, es, fs);
  }

  /** A session that returned without letting the gate go is recovered once nothing of it is outstanding. */
  lemma RecoveryFrees(s: State, id: Id) returns (t: State)
    requires Reachable(s) && HeldBy(s.log, id) && In(s, id) && s.sessions[id].phase.Returned?
    requires forall m | m in s.outstanding :: m.session != id
    ensures Reachable(t) && t.log == s.log + [None] && t.sessions == s.sessions && t.outstanding == s.outstanding
  {
    hide Leads, Reachable;
    var m := Mutation(id, 0);
    LeadsNowhere(s, m);
    LeadsOn(s, s, m, Recover(id));
    var t1 := After(s, Recover(id));
    var request := Request(|s.log|, None, ForRecovery, id);
    LeadsOn(s, t1, m, Land(request));
    t := After(t1, Land(request));
    LeadsFromReachable(s, t, m);
  }

  /** The read-back after a lost reply answers success exactly if the release took effect and nobody came since. */
  lemma ReadBackIff(s: State, id: Id, held: nat)
    requires Reachable(s) && In(s, id) && s.sessions[id].phase == Verifying(held)
    ensures var t := After(s, Verify(id));
            && In(t, id) && t.sessions[id].phase.Returned?
            && (t.sessions[id].phase.ok <==> |s.log| > held && s.log[held] == None && s.log[|s.log| - 1] == None)
  {
    ReachableInv(s);
    assert Fine(s, id);
  }

  /** A session is turned away exactly if the gate is held. */
  lemma BusyIff(s: State, id: Id)
    requires In(s, id) && s.sessions[id].phase.Reading?
    ensures After(s, Read(id)).sessions[id].phase.Returned? <==> s.log != [] && s.log[|s.log| - 1].Some?
  {
  }

  /**
   * Left alone at a free gate, a new session gets the token, does its work, lets the gate go and reports success, even
   * if the reply to its release is lost: the gate is free again and nothing is left behind but the effect.
   */
  lemma SessionAlone(s: State, id: Id, n: nat, lost: bool) returns (t: State)
    requires Reachable(s) && Free(s.log) && id !in s.sessions
    ensures Reachable(t) && t.log == s.log + [Some(id), None] && Free(t.log)
    ensures t.effects == s.effects + [Mutation(id, n)] && t.outstanding == s.outstanding
    ensures In(t, id) && t.sessions[id] == Session(Returned(true, Some(|s.log| + 1)), {}, false)
  {
    hide Leads, Reachable, Inv, Order;
    ReachableOrder(s);
    NothingOfNew(s, id);
    var m := Mutation(id, n);
    LeadsNowhere(s, m);
    var t1 := GetGate(s, s, m, id);
    var t2 := CallSettles(s, t1, m, id, n);
    t := ReleaseSucceeds(s, t2, m, id, |s.log| + 1, lost);
    LeadsFromReachable(s, t, m);
    assert s.log + [Some(id)] + [None] == s.log + [Some(id), None];
  }
}
