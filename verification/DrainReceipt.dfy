/**
 * Every run of the mutation drain: uploads, deletes and their nested HTTP attempts
 * (internal/objstore/metrics.go), response bodies, and `DrainMutations` itself.
 */
module DrainReceipt {
  import opened ByteStrings
  import opened MutationDrain
  import opened Options

  type Id = nat

  /** An admitted attempt: running, reading its response body, or ended without one. */
  datatype Attempt = Running | Answered(body: Body) | Over(known: bool)

  predicate Live(a: Attempt) { a.Running? || (a.Answered? && a.body.ended.None?) }

  /** How an attempt ended, if it has. */
  function Verdict(a: Attempt): Option<bool> {
    match a
    case Running => None
    case Answered(body) => body.ended
    case Over(known) => Some(known)
  }

  datatype State = State(counters: Counters, attempts: map<Id, Attempt>)

  /**
   * `Admit` is a call of begin by an upload, a delete or the HTTP transport; `Finish` an end without a body to
   * read; `Stop` the first step of `DrainMutations`.
   */
  datatype Event =
    | Admit(id: Id)
    | Finish(id: Id, known: bool)
    | Answer(id: Id, known: bool, expected: int)
    | BodyStep(id: Id, op: BodyOp)
    | Stop

  ghost predicate Init(s: State) { s == State(Counters(0, false, false), map[]) }

  ghost predicate Enabled(s: State, e: Event) {
    match e
    case Admit(id) => id !in s.attempts && !s.counters.stopped
    case Finish(id, _) => id in s.attempts && s.attempts[id].Running?
    case Answer(id, _, _) => id in s.attempts && s.attempts[id].Running?
    case BodyStep(id, _) => id in s.attempts && s.attempts[id].Answered?
    case Stop => true
  }

  ghost function Step(s: State, e: Event): State
    requires Enabled(s, e)
  {
    match e
    case Admit(id) => State(s.counters.(active := s.counters.active + 1), s.attempts[id := Running])
    case Finish(id, known) => State(Ending(s.counters, known), s.attempts[id := Over(known)])
    case Answer(id, known, expected) =>
      s.(attempts := s.attempts[id := Answered(Body(known, [], expected, 0, None))])
    case BodyStep(id, op) =>
      var x := Apply(Both(s.counters, s.attempts[id].body), op);
      State(x.d, s.attempts[id := Answered(x.b)])
    case Stop => s.(counters := s.counters.(stopped := true))
  }

  ghost function After(s: State, e: Event): State { if Enabled(s, e) then Step(s, e) else s }

  ghost function Trace(s: State, es: seq<Event>): State
    decreases |es|
  {
    if es == [] then s else Trace(After(s, es[0]), es[1..])
  }

  datatype Answer = Waiting | ContextError | UnknownOutcome | Nil

  /** What `DrainMutations` does next, once it has stopped admission; `done` is whether its context is done. */
  function DrainAnswer(c: Counters, done: bool): Answer {
    if c.active != 0 then (if done then ContextError else Waiting)
    else if c.unknown then UnknownOutcome
    else if done then ContextError
    else Nil
  }

  predicate ReturnsNil(s: State, done: bool) { s.counters.stopped && DrainAnswer(s.counters, done).Nil? }

  // -------------------------------------------------------------------------------- the invariant

  ghost function LiveOnes(s: State): set<Id> { set id | id in s.attempts && Live(s.attempts[id]) }

  ghost predicate Noted(s: State, id: Id)
    requires id in s.attempts
  {
    Verdict(s.attempts[id]) == Some(false) ==> s.counters.unknown
  }

  ghost predicate Inv(s: State) {
    s.counters.active == |LiveOnes(s)| && forall id | id in s.attempts :: Noted(s, id)
  }

  /** What one operation on a body does to the counters. */
  lemma BodyEffect(d: Counters, b: Body, op: BodyOp)
    ensures var x := Apply(Both(d, b), op);
            && x.d.stopped == d.stopped && (d.unknown ==> x.d.unknown)
            && (b.ended.Some? ==> x.b.ended == b.ended)
            && x.d.active == d.active - (if b.ended.None? && x.b.ended.Some? then 1 else 0)
            && (b.ended.None? && x.b.ended == Some(false) ==> x.d.unknown)
  {
    hide Marked;
  }

  lemma LiveSame(s: State, s': State)
    requires s'.attempts == s.attempts
    ensures LiveOnes(s') == LiveOnes(s)
  {
  }

  lemma LiveChanges(s: State, s': State, id: Id)
    requires id in s'.attempts && s'.attempts == s.attempts[id := s'.attempts[id]]
    ensures var was, now := id in s.attempts && Live(s.attempts[id]), Live(s'.attempts[id]);
            |LiveOnes(s')| == |LiveOnes(s)| + (if now then 1 else 0) - (if was then 1 else 0)
  {
    hide Live, LiveOnes;
    OthersStayLive(s, s', id);
    CountWithout(LiveOnes(s), id);
    CountWithout(LiveOnes(s'), id);
  }

  lemma OthersStayLive(s: State, s': State, id: Id)
    requires id in s'.attempts && s'.attempts == s.attempts[id := s'.attempts[id]]
    ensures LiveOnes(s') - {id} == LiveOnes(s) - {id}
    ensures id in LiveOnes(s) <==> id in s.attempts && Live(s.attempts[id])
    ensures id in LiveOnes(s') <==> Live(s'.attempts[id])
  {
    hide Live;
  }

  lemma CountWithout(ids: set<Id>, id: Id)
    ensures |ids| == |ids - {id}| + (if id in ids then 1 else 0)
  {
    if id in ids { assert ids == (ids - {id}) + {id}; } else { assert ids == ids - {id}; }
  }

  lemma StepKeepsInv(s: State, e: Event)
    requires Inv(s)
    ensures Inv(After(s, e))
  {
    hide Apply, LiveOnes;
    var s' := After(s, e);
    if Enabled(s, e) {
      if e.BodyStep? { BodyEffect(s.counters, s.attempts[e.id].body, e.op); }
      forall id | id in s'.attempts ensures Noted(s', id) {
        if id in s.attempts { assert Noted(s, id); }
      }
      if e.Stop? { LiveSame(s, s'); } else { LiveChanges(s, s', e.id); }
    }
  }

  lemma {:induction false} TraceKeepsInv(s: State, es: seq<Event>)
    requires Inv(s)
    ensures Inv(Trace(s, es))
    decreases |es|
  {
    hide Inv, After;
    if es != [] {
      StepKeepsInv(s, es[0]);
      TraceKeepsInv(After(s, es[0]), es[1..]);
    }
  }

  // --------------------------------------------------------------------------------- the theorems

  ghost predicate Reachable(s: State) { exists s0, es :: Init(s0) && Trace(s0, es) == s }

  lemma ReachableInv(s: State)
    requires Reachable(s)
    ensures Inv(s)
  {
    var s0, es :| Init(s0) && Trace(s0, es) == s;
    assert LiveOnes(s0) == {};
    TraceKeepsInv(s0, es);
  }

  /** What no step undoes. */
  ghost predicate Continues(s: State, t: State) {
    && s.attempts.Keys <= t.attempts.Keys
    && (s.counters.unknown ==> t.counters.unknown) && (s.counters.stopped ==> t.counters.stopped)
    && (s.counters.stopped ==> t.attempts.Keys == s.attempts.Keys)
    && forall id | id in s.attempts && Verdict(s.attempts[id]).Some?
         :: Verdict(t.attempts[id]) == Verdict(s.attempts[id])
  }

  lemma StepContinues(s: State, e: Event)
    ensures Continues(s, After(s, e))
  {
    hide Apply;
    if e.BodyStep? && Enabled(s, e) { BodyEffect(s.counters, s.attempts[e.id].body, e.op); }
  }

  /**
   * In every continuation: unknown stays unknown, nothing is admitted after the stop, and an attempt that
   * has ended never ends again or otherwise.
   */
  lemma {:induction false} UnknownIsSticky(s: State, es: seq<Event>)
    ensures Continues(s, Trace(s, es))
    decreases |es|
  {
    hide After;
    if es != [] {
      StepContinues(s, es[0]);
      UnknownIsSticky(After(s, es[0]), es[1..]);
    }
  }

  lemma EndedKnown(a: Attempt)
    requires !Live(a) && Verdict(a) != Some(false)
    ensures Verdict(a) == Some(true)
  {
    var v := Verdict(a).value;
    assert Verdict(a) == Some(v);
  }

  /** A nil receipt means every attempt ever admitted has ended, and ended known; none will be admitted any more. */
  lemma ReceiptIsSound(s: State, done: bool, es: seq<Event>)
    requires Reachable(s) && ReturnsNil(s, done)
    ensures forall id | id in s.attempts :: Verdict(s.attempts[id]) == Some(true)
    ensures Trace(s, es).attempts.Keys == s.attempts.Keys
    ensures forall id | id in s.attempts :: Verdict(Trace(s, es).attempts[id]) == Some(true)
  {
    ReachableInv(s);
    UnknownIsSticky(s, es);
    assert LiveOnes(s) == {};
    forall id | id in s.attempts ensures Verdict(s.attempts[id]) == Some(true) {
      assert Noted(s, id);
      assert id !in LiveOnes(s);
      EndedKnown(s.attempts[id]);
    }
  }

  /** Nil exactly when admission has stopped, the context is not done, everything has ended and nothing is unknown. */
  lemma ReceiptIff(s: State, done: bool)
    requires Reachable(s)
    ensures ReturnsNil(s, done) <==>
              && s.counters.stopped && !done && !s.counters.unknown
              && forall id | id in s.attempts :: Verdict(s.attempts[id]).Some?
  {
    ReachableInv(s);
    if ReturnsNil(s, done) { ReceiptIsSound(s, done, []); }
    if forall id | id in s.attempts :: Verdict(s.attempts[id]).Some? { assert LiveOnes(s) == {}; }
  }

  /** An attempt that ended unknown rules a nil receipt out for good, whatever later attempts report. */
  lemma UnknownAttemptRulesNilOut(s: State, es: seq<Event>, id: Id)
    requires Reachable(s) && id in s.attempts && Verdict(s.attempts[id]) == Some(false)
    ensures forall done :: !ReturnsNil(Trace(s, es), done)
  {
    ReachableInv(s);
    assert Noted(s, id);
    UnknownIsSticky(s, es);
  }

  /**
   * A nil receipt is not a promise about the next one: a body whose last promised byte has arrived may
   * still fail to close, and that is noted after the receipt was given.
   */
  lemma NilCanBeFollowedByUnknown()
    ensures exists s, e :: Reachable(s) && ReturnsNil(s, false) && !ReturnsNil(After(s, e), false)
  {
    hide Marked;
    OneByteIsUnmarked();
    var s0 := State(Counters(0, false, false), map[]);
    var s1 := After(s0, Admit(0));
    var s2 := After(s1, Answer(0, true, 1));
    var s3 := After(s2, BodyStep(0, ReadOp([7], More)));
    var s4 := After(s3, Stop);
    assert Trace(s0, []) == s0;
    TraceLast(s0, [], Admit(0));
    TraceLast(s0, [Admit(0)], Answer(0, true, 1));
    TraceLast(s0, [Admit(0)] + [Answer(0, true, 1)], BodyStep(0, ReadOp([7], More)));
    TraceLast(s0, [Admit(0)] + [Answer(0, true, 1)] + [BodyStep(0, ReadOp([7], More))], Stop);
    assert Reachable(s4);
    OneByteAnswer();
    assert ReturnsNil(s4, false) && !ReturnsNil(After(s4, BodyStep(0, CloseOp(true))), false);
  }

  lemma OneByteIsUnmarked()
    ensures !Marked([7])
  {
    assert [7][1..] == [];
  }

  lemma OneByteAnswer()
    ensures Apply(Both(Counters(1, false, false), Body(true, [], 1, 0, None)), ReadOp([7], More))
            == Both(Counters(0, false, false), Body(true, [7], 1, 1, Some(true)))
  {
    hide Marked;
    OneByteIsUnmarked();
    assert [] + [7] == [7];
  }

  lemma {:induction false} TraceLast(s: State, es: seq<Event>, e: Event)
    ensures Trace(s, es + [e]) == After(Trace(s, es), e)
    decreases |es|
  {
    hide After;
    if es == [] {
      assert (es + [e])[1..] == [];
    } else {
      assert (es + [e])[1..] == es[1..] + [e];
      TraceLast(After(s, es[0]), es[1..], e);
    }
  }

  /** A late operation on an answered body that fails, or that completes it badly. */
  predicate LateTrouble(s: State, e: Event) {
    && e.BodyStep? && e.id in s.attempts && s.attempts[e.id].Answered?
    && var b := s.attempts[e.id].body;
       match e.op
       case CloseOp(failed) => failed
       case ReadOp(chunk, status) =>
         var got := Received(b, chunk);
         status.Broken? || (Complete(got, status) && !Judged(got).known)
  }

  /** After a nil receipt the next one is nil too exactly if its context is not done and no such operation came. */
  lemma NilIsKeptIff(s: State, e: Event, done: bool)
    requires Reachable(s) && ReturnsNil(s, false)
    ensures ReturnsNil(After(s, e), done) <==> !done && !LateTrouble(s, e)
  {
    hide Marked;
    ReceiptIsSound(s, false, []);
    if e.BodyStep? || e.Finish? {
      if e.id in s.attempts { assert Verdict(s.attempts[e.id]) == Some(true); }
    }
  }

  /** The answer, told by the attempts: it waits for those still running, then reports an unknown one. */
  lemma AnswerIff(s: State, done: bool)
    requires Reachable(s)
    ensures var answer := DrainAnswer(s.counters, done);
            var running := exists id :: id in s.attempts && Verdict(s.attempts[id]).None?;
            && (answer.Waiting? <==> running && !done)
            && (answer.UnknownOutcome? <==> !running && s.counters.unknown)
            && (answer.ContextError? <==> done && (running || !s.counters.unknown))
            && (answer.Nil? <==> !running && !s.counters.unknown && !done)
  {
    ReachableInv(s);
    if id :| id in s.attempts && Verdict(s.attempts[id]).None? {
      assert id in LiveOnes(s);
    } else {
      assert LiveOnes(s) == {};
    }
  }

  /**
   * The unknown mark has a cause: it is set exactly by an attempt that ends unknown, a body closed before its end, or
   * an operation on a body that fails or completes it badly.
   */
  lemma UnknownArisesIff(s: State, e: Event)
    requires !s.counters.unknown
    ensures After(s, e).counters.unknown <==>
              || (e.Finish? && e.id in s.attempts && s.attempts[e.id].Running? && !e.known)
              || LateTrouble(s, e)
              || (e.BodyStep? && e.op.CloseOp? && e.id in s.attempts && s.attempts[e.id].Answered?
                  && s.attempts[e.id].body.ended.None?)
  {
    hide Marked;
  }

}
