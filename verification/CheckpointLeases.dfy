/**
 * Claims and garbage collection together: `PublisherClaims` decides whose lease runs, `CheckpointGc` what its
 * sessions do to the bucket. Each generation the claim object takes starts one session. The only timing assumption
 * is about leases: a guarded write lands while some claim value of its session's generation, which nobody has asked
 * to release, is still unexpired. That the session's generation is then the stored one is a theorem.
 */
module CheckpointLeases {
  import opened Options
  import C = PublisherClaims
  import G = CheckpointGc
  import T = CheckpointGcTheorems

  datatype State = State(claims: C.State, gc: G.State)

  /** What a session under a maintenance claim is for. */
  datatype Duty = Pin | Collect(policy: G.Policy)

  datatype Event = Lease(e: C.Event, duty: Duty) | Work(g: G.Event)

  ghost predicate Init(s: State) { C.Init(s.claims) && G.Init(s.gc) && s.gc.now == C.Ms(s.claims.now) }

  /** A claim value of this generation has not run out and nobody has asked to release it. */
  ghost predicate Unexpired(claims: C.State, generation: nat, i: nat) {
    && i < |claims.log| && claims.log[i].claim.generation == generation
    && claims.log[i].claim.until > C.Ms(claims.now) && !C.ReleaseInvoked(claims, claims.log[i].session, generation)
  }

  ghost predicate LeaseRuns(claims: C.State, generation: nat) { exists i: nat :: Unexpired(claims, generation, i) }

  /** What the bucket's sessions notice of a step on the claim: a new session, or time. */
  ghost function Notice(before: C.State, after: C.State, duty: Duty): G.Event {
    var g := C.StoredGeneration(after);
    if g == C.StoredGeneration(before) then G.Tick(C.Ms(after.now))
    else if after.log == [] || !after.log[|after.log| - 1].claim.purpose.Maintenance? then G.BeginPublisher(g)
    else if duty.Collect? && duty.policy.floor > 0 && duty.policy.keep > 0 then G.BeginCollector(g, duty.policy)
    else G.BeginPinner(g)
  }

  ghost predicate Enabled(s: State, e: Event) {
    e.Work? ==>
      && G.Ready(s.gc, e.g)
      && (G.Guarded(e.g) ==> e.g.id in s.gc.sessions && LeaseRuns(s.claims, s.gc.sessions[e.g.id].generation))
  }

  ghost function After(s: State, e: Event): State {
    if !Enabled(s, e) then s
    else
      match e
      case Lease(c, duty) =>
        var claims := C.After(s.claims, c);
        State(claims, G.After(s.gc, Notice(s.claims, claims, duty)))
      case Work(g) => s.(gc := G.Effect(s.gc, g))
  }

  ghost function Trace(s: State, es: seq<Event>): State
    decreases |es|
  {
    if es == [] then s else Trace(After(s, es[0]), es[1..])
  }

  /** Both parts are runs of their own systems, in step about the generation and the time. */
  ghost predicate Inv(s: State) {
    && C.Reachable(s.claims) && T.Reachable(s.gc)
    && s.gc.generation == C.StoredGeneration(s.claims) && s.gc.now == C.Ms(s.claims.now)
    && forall g | g in s.gc.sessions :: g <= s.gc.generation && s.gc.sessions[g].generation == g
  }

  /** A guarded write that lands before its lease runs out lands under the stored generation. */
  lemma LeaseHolds(s: State, id: G.Id)
    requires Inv(s) && id in s.gc.sessions && LeaseRuns(s.claims, s.gc.sessions[id].generation)
    ensures G.Holds(s.gc, id)
  {
    var i: nat :| Unexpired(s.claims, s.gc.sessions[id].generation, i);
    C.UnexpiredIsStored(s.claims, i);
  }

  /** With the claim held, what a session does is a step of `CheckpointGc`. */
  lemma EffectIsStep(s: G.State, e: G.Event)
    requires G.Ready(s, e) && (G.Guarded(e) ==> G.Holds(s, e.id))
    ensures G.Effect(s, e) == G.After(s, e)
  {
  }

  lemma WorkKeepsSessions(s: G.State, e: G.Event)
    requires G.Ready(s, e)
    ensures SameSessions(s, G.Effect(s, e))
  {
    hide G.PublishReady, G.PinReady, G.CollectReady, G.PublishStep, G.PinStep, G.CollectStep;
    if G.PublishReady(s, e) {
      PublishKeepsSessions(s, e);
    } else if G.PinReady(s, e) {
      PinKeepsSessions(s, e);
    } else {
      CollectKeepsSessions(s, e);
    }
  }

  ghost predicate SameSessions(s: G.State, t: G.State) {
    && t.generation == s.generation && t.now == s.now && t.sessions.Keys == s.sessions.Keys
    && forall g | g in s.sessions :: t.sessions[g].generation == s.sessions[g].generation
  }

  lemma PublishKeepsSessions(s: G.State, e: G.Event)
    requires G.PublishReady(s, e)
    ensures SameSessions(s, G.PublishStep(s, e))
  {
    hide G.Chooses, G.BlocksOf, G.CurrentSet;
  }

  lemma PinKeepsSessions(s: G.State, e: G.Event)
    requires G.PinReady(s, e)
    ensures SameSessions(s, G.PinStep(s, e))
  {
  }

  lemma CollectKeepsSessions(s: G.State, e: G.Event)
    requires G.CollectReady(s, e)
    ensures SameSessions(s, G.CollectStep(s, e))
  {
    hide G.IsNewest, G.BlocksOf, G.LiveBlocks, G.Examine, G.CurrentSet;
  }

  lemma WorkKeepsInv(s: State, g: G.Event)
    requires Inv(s) && Enabled(s, Work(g))
    ensures Inv(After(s, Work(g)))
  {
    hide G.Ready, G.Effect, G.After, C.Reachable, T.Reachable;
    if G.Guarded(g) { LeaseHolds(s, g.id); }
    EffectIsStep(s.gc, g);
    WorkKeepsSessions(s.gc, g);
    T.ReachableStep(s.gc, g);
  }

  lemma LeaseKeepsInv(s: State, c: C.Event, duty: Duty)
    requires Inv(s)
    ensures Inv(After(s, Lease(c, duty)))
  {
    hide C.After, C.Reachable, T.Reachable, C.StoredGeneration;
    var claims := C.After(s.claims, c);
    C.ReachableStep(s.claims, c);
    C.StoredStep(s.claims, c);
    C.MsMonotone(s.claims.now, claims.now);
    T.ReachableStep(s.gc, Notice(s.claims, claims, duty));
  }

  lemma {:induction false} TraceKeepsInv(s: State, es: seq<Event>)
    requires Inv(s)
    ensures Inv(Trace(s, es))
    decreases |es|
  {
    hide Inv;
    if es != [] {
      if !Enabled(s, es[0]) {
      } else if es[0].Lease? {
        LeaseKeepsInv(s, es[0].e, es[0].duty);
      } else {
        WorkKeepsInv(s, es[0].g);
      }
      TraceKeepsInv(After(s, es[0]), es[1..]);
    }
  }

  ghost predicate Reachable(s: State) { exists s0, es :: Init(s0) && Trace(s0, es) == s }

  lemma ReachableInv(s: State)
    requires Reachable(s)
    ensures Inv(s)
  {
    hide C.Reachable, T.Reachable;
    var s0, es :| Init(s0) && Trace(s0, es) == s;
    C.ReachableStart(s0.claims);
    T.ReachableStart(s0.gc);
    TraceKeepsInv(s0, es);
  }

  /** In every run, a guarded write that is enabled by its lease lands under the stored generation. */
  lemma GuardedWritesLandUnderTheirClaim(s: State, g: G.Event)
    requires Reachable(s) && Enabled(s, Work(g)) && G.Guarded(g)
    ensures G.Holds(s.gc, g.id) && After(s, Work(g)).gc == G.After(s.gc, g)
  {
    hide C.Reachable, T.Reachable, G.Effect, G.After;
    ReachableInv(s);
    LeaseHolds(s, g.id);
    EffectIsStep(s.gc, g);
  }

  /** Restorability over every run of claims and bucket together. */
  lemma GcSafetyUnderLeases(s: State)
    requires Reachable(s)
    ensures T.Reachable(s.gc)
    ensures forall r | r in s.gc.roots :: r.blocks <= s.gc.blocks
    ensures forall owner | owner in s.gc.pins && s.gc.pins[owner].record.until > C.Ms(s.claims.now) ::
              s.gc.pins[owner].record.root.blocks <= s.gc.blocks
    ensures s.gc.current.Some? ==> s.gc.current.value in s.gc.roots
  {
    hide C.Reachable, T.Reachable;
    ReachableInv(s);
    T.GcSafety(s.gc);
  }

  // ------------------------------------------------------------------------------ what leases allow

  /** A claim that is held, unexpired and not being released lets its session's writes land. */
  lemma LiveClaimRuns(s: State, h: C.Held)
    requires Reachable(s) && C.Live(s.claims, h)
    ensures LeaseRuns(s.claims, h.claim.generation)
  {
    hide C.Reachable, T.Reachable, C.Inv;
    ReachableInv(s);
    C.ReachableInv(s.claims);
    HeldIsUnexpired(s.claims, h);
  }

  lemma HeldIsUnexpired(c: C.State, h: C.Held)
    requires C.Inv(c) && C.Live(c, h)
    ensures LeaseRuns(c, h.claim.generation)
  {
    hide C.LogOk, C.WireOk, C.CallsOk;
    assert C.HeldIsLogged(c, h);
    assert Unexpired(c, h.claim.generation, h.seen - 1);
  }

  /** A new generation of the claim begins a session of its kind: a publisher, a collector or a pinner. */
  lemma NewGenerationBeginsSession(s: State, c: C.Event, duty: Duty)
    requires Reachable(s) && C.StoredGeneration(C.After(s.claims, c)) != C.StoredGeneration(s.claims)
    ensures var t := After(s, Lease(c, duty));
            var g := C.StoredGeneration(t.claims);
            && g == C.StoredGeneration(s.claims) + 1 && t.gc.generation == g && g in t.gc.sessions
            && t.gc.sessions[g].generation == g && t.claims.log != []
            && var purpose := t.claims.log[|t.claims.log| - 1].claim.purpose;
               if !purpose.Maintenance? then t.gc.sessions[g] == G.Publisher(g, None, {}, {})
               else if duty.Collect? && duty.policy.floor > 0 && duty.policy.keep > 0
               then t.gc.sessions[g] == G.Collector(g, duty.policy, G.Starting)
               else t.gc.sessions[g] == G.Pinner(g, None, "", None)
  {
    hide C.After, C.Reachable, T.Reachable;
    ReachableInv(s);
    C.StoredStep(s.claims, c);
    var g := C.StoredGeneration(s.claims) + 1;
    assert g !in s.gc.sessions;
  }

}
