/**
 * Calls on the publisher claim that nobody disturbs: when each is answered with success, and what the object then
 * holds. `PublisherClaims` says what no run may do; this is what every call can count on.
 */
module ClaimsAlone {
  import opened Options
  import opened PublisherClaims

  ghost predicate Leads(s: State, t: State) { exists es :: Trace(s, es) == t }

  lemma LeadsNowhere(s: State)
    ensures Leads(s, s)
  {
    assert Trace(s, []) == s;
  }

  lemma LeadsOn(s: State, t: State, e: Event)
    requires Leads(s, t)
    ensures Leads(s, After(t, e))
  {
    hide After;
    var es :| Trace(s, es) == t;
    TraceLast(s, es, e);
  }

  function Last(log: seq<Entry>): Option<Claim> { if log == [] then None else Some(log[|log| - 1].claim) }

  /** The call has come this far. */
  ghost predicate At(s: State, id: Id, op: Op, phase: Phase) {
    id in s.ops && id in s.phases && s.ops[id] == op && s.phases[id] == phase
  }

  /** A stable read of an object nobody writes returns what it holds. */
  lemma ReadsStored(s: State, t: State, id: Id, op: Op, back: Option<Written>) returns (u: State)
    requires Leads(s, t) && At(t, id, op, Looking(back)) && (t.log == [] ==> back.None?)
    ensures Leads(s, u) && At(u, id, op, Deciding(back, |t.log|, Last(t.log), t.now))
    ensures u == t.(phases := u.phases)
  {
    hide Leads, Decide;
    LeadsOn(s, t, Look(id));
    u := After(t, Look(id));
    if t.log != [] {
      LeadsOn(s, u, Fetch(id));
      u := After(u, Fetch(id));
      LeadsOn(s, u, Check(id));
      u := After(u, Check(id));
    }
  }

  /** A write decided on the stored value lands on it and is acknowledged. */
  lemma WritesDecision(s: State, t: State, id: Id, op: Op, claim: Claim) returns (u: State)
    requires Leads(s, t) && At(t, id, op, Deciding(None, |t.log|, Last(t.log), t.now))
    requires Decide(op, LengthOf(t.ops, SessionOf(id, op)), Last(t.log), t.now, t.now) == Write(claim)
    ensures var e := Entry(claim, SessionOf(id, op), id, t.now, t.now);
            && Leads(s, u) && u.log == t.log + [e] && u.now == t.now && u.ops == t.ops && u.held == t.held
            && At(u, id, op, if op.Release? then Done(None) else Looking(Some(Written(claim, |t.log|))))
  {
    hide Leads, Decide;
    var e := Entry(claim, SessionOf(id, op), id, t.now, t.now);
    var r := Request(|t.log|, e);
    LeadsOn(s, t, Conclude(id, t.now));
    var t1 := After(t, Conclude(id, t.now));
    assert r in t1.wire && t1.phases[id] == Sent(r) && t1.log == t.log;
    LeadsOn(s, t1, Land(r));
    var t2 := After(t1, Land(r));
    assert t2.log == t.log + [e] && t2.phases[id] == Sent(r);
    LeadsOn(s, t2, Acknowledge(id));
    u := After(t2, Acknowledge(id));
  }

  /** Reading the write back confirms it if the lease has not already run out. */
  lemma ConfirmsWrite(s: State, t: State, id: Id, op: Op, claim: Claim, at: nat) returns (u: State)
    requires Leads(s, t) && At(t, id, op, Looking(Some(Written(claim, at)))) && Last(t.log) == Some(claim)
    requires claim.until > Ms(t.now)
    ensures Leads(s, u) && u.log == t.log && u.now == t.now && u.ops == t.ops
    ensures At(u, id, op, Done(None)) && Held(SessionOf(id, op), claim, |t.log|) in u.held
  {
    hide Leads, Decide, Ms;
    var v := ReadsStored(s, t, id, op, Some(Written(claim, at)));
    LeadsOn(s, v, Conclude(id, v.now));
    u := After(v, Conclude(id, v.now));
  }

  lemma Begins(s: State, id: Id, op: Op) returns (t: State)
    requires id !in s.ops && id !in s.phases && Presentable(s, op)
    ensures Leads(s, t) && At(t, id, op, Deciding(None, |s.log|, Last(s.log), s.now))
    ensures t.log == s.log && t.now == s.now && t.ops == s.ops[id := op] && t.held == s.held
  {
    hide Leads, Decide;
    LeadsNowhere(s);
    LeadsOn(s, s, Invoke(id, op));
    t := ReadsStored(s, After(s, Invoke(id, op)), id, op, None);
  }

  /** A call left alone whose decision is a lasting claim returns it, stored. */
  lemma Succeeds(s: State, id: Id, op: Op, claim: Claim) returns (t: State)
    requires id !in s.ops && id !in s.phases && Presentable(s, op) && !op.Release?
    requires Decide(op, LengthOf(s.ops[id := op], SessionOf(id, op)), Last(s.log), s.now, s.now) == Write(claim)
    requires claim.until > Ms(s.now)
    ensures Leads(s, t) && Last(t.log) == Some(claim) && |t.log| == |s.log| + 1 && t.now == s.now
    ensures At(t, id, op, Done(None)) && Held(SessionOf(id, op), claim, |t.log|) in t.held
  {
    hide Leads, Decide, Ms;
    var t1 := Begins(s, id, op);
    var t2 := WritesDecision(s, t1, id, op, claim);
    t := ConfirmsWrite(s, t2, id, op, claim, |t1.log|);
  }

  // ------------------------------------------------------------------------------------- the calls

  /** The stored lease, if any, has run out, and its generation is not the last one there is. */
  ghost predicate Vacant(s: State) {
    s.log != [] ==> s.log[|s.log| - 1].claim.until <= Ms(s.now) && s.log[|s.log| - 1].claim.generation < MAX_U64
  }

  /**
   * Left alone, an acquire of a publisher or maintenance claim with a lease that outlasts the current millisecond
   * succeeds over any expired claim: it holds the next generation for the full length from now, and a publisher
   * the least index above the one it named and those the last claim reserved or bound.
   */
  lemma AcquireSucceeds(s: State, id: Id, op: Op) returns (t: State, claim: Claim)
    requires id !in s.ops && id !in s.phases && Vacant(s)
    requires op.Acquire? && op.owner != "" && Ms(s.now + op.length) > Ms(s.now) && !op.purpose.Generation?
    requires var c := Last(s.log);
             op.purpose.Publisher? ==>
               op.minExclusive < MAX_U64 && (c.Some? ==> c.value.reserved < MAX_U64 && c.value.bound < MAX_U64)
    ensures Leads(s, t) && t.now == s.now && At(t, id, op, Done(None)) && Held(id, claim, |t.log|) in t.held
    ensures |t.log| == |s.log| + 1 && t.log[|s.log|].claim == claim
    ensures claim.generation == (if s.log == [] then 1 else s.log[|s.log| - 1].claim.generation + 1)
    ensures claim.owner == op.owner && claim.purpose == op.purpose && claim.until == Ms(s.now + op.length)
    ensures claim.bound == 0 && claim.root == ""
    ensures op.purpose.Maintenance? ==> claim.reserved == 0
    ensures op.purpose.Publisher? ==>
              var c := Last(s.log);
              JustAbove(claim.reserved, op.minExclusive, if c.Some? then c.value.reserved else 0,
                        if c.Some? then c.value.bound else 0)
  {
    hide Leads, At;
    var d := Decide(op, op.length, Last(s.log), s.now, s.now);
    assert d.Write?;
    claim := d.claim;
    t := Succeeds(s, id, op, claim);
  }

  /** A generation claim: the namespace is empty, or the stored claim is this operation's own and has run out. */
  lemma AcquireGenerationSucceeds(s: State, id: Id, op: Op) returns (t: State, claim: Claim)
    requires id !in s.ops && id !in s.phases && Vacant(s)
    requires op.AcquireGeneration? && op.owner != "" && Ms(s.now + op.length) > Ms(s.now) && op.index > 0
    requires if s.log == [] then op.certified.None?
             else var c := s.log[|s.log| - 1].claim;
                  && c.purpose.Generation? && c.owner == op.owner && c.reserved == op.index && c.bound <= op.index
                  && (op.certified.Some? ==> op.certified.value == op.index == c.bound)
    ensures Leads(s, t) && t.now == s.now && At(t, id, op, Done(None)) && Held(id, claim, |t.log|) in t.held
    ensures claim.generation == (if s.log == [] then 1 else s.log[|s.log| - 1].claim.generation + 1)
    ensures claim.owner == op.owner && claim.purpose.Generation? && claim.reserved == op.index && claim.bound == 0
    ensures claim.until == Ms(s.now + op.length)
  {
    hide Leads, At;
    var d := Decide(op, op.length, Last(s.log), s.now, s.now);
    assert d.Write?;
    claim := d.claim;
    t := Succeeds(s, id, op, claim);
  }

  /** The claim a session presents is the stored one, its session's lease is of this length, and it has not run out. */
  ghost predicate Holding(s: State, h: Held, length: nat) {
    && h in s.held && Last(s.log) == Some(h.claim) && h.claim.until > Ms(s.now)
    && h.session in s.ops && Acquires(s.ops[h.session]) && s.ops[h.session].length == length
  }

  /** Left alone, a session that holds the stored claim renews it for its full length from now. */
  lemma RenewSucceeds(s: State, id: Id, h: Held, length: nat) returns (t: State)
    requires id !in s.ops && id !in s.phases && Holding(s, h, length) && Ms(s.now + length) > Ms(s.now)
    ensures var claim := h.claim.(until := Ms(s.now + length));
            && Leads(s, t) && t.now == s.now && Last(t.log) == Some(claim) && |t.log| == |s.log| + 1
            && At(t, id, Renew(h.session, h.claim), Done(None)) && Held(h.session, claim, |t.log|) in t.held
  {
    hide Leads, At, Ms;
    var op, claim := Renew(h.session, h.claim), h.claim.(until := Ms(s.now + length));
    assert Held(op.session, op.claim, h.seen) in s.held;
    assert Decide(op, length, Last(s.log), s.now, s.now) == Write(claim);
    t := Succeeds(s, id, op, claim);
  }

  /** It binds any index from the reserved one on, a generation claim exactly that one, with the same lease. */
  lemma BindSucceeds(s: State, id: Id, h: Held, length: nat, index: nat, root: string) returns (t: State)
    requires id !in s.ops && id !in s.phases && Holding(s, h, length) && Ms(s.now + length) > Ms(s.now)
    requires !h.claim.purpose.Maintenance? && h.claim.reserved <= index
    requires h.claim.purpose.Generation? ==> index == h.claim.reserved
    ensures var claim := h.claim.(bound := index, root := root, until := Ms(s.now + length));
            && Leads(s, t) && t.now == s.now && Last(t.log) == Some(claim) && |t.log| == |s.log| + 1
            && At(t, id, Bind(h.session, h.claim, index, root), Done(None)) && Held(h.session, claim, |t.log|) in t.held
  {
    hide Leads, At, Ms;
    var op := Bind(h.session, h.claim, index, root);
    var claim := h.claim.(bound := index, root := root, until := Ms(s.now + length));
    assert Held(op.session, op.claim, h.seen) in s.held;
    assert Decide(op, length, Last(s.log), s.now, s.now) == Write(claim);
    t := Succeeds(s, id, op, claim);
  }

  /** And a release, by the holder of the stored generation, vacates the object at once. */
  lemma ReleaseSucceeds(s: State, id: Id, h: Held) returns (t: State)
    requires id !in s.ops && id !in s.phases && h in s.held && Last(s.log).Some?
    requires var c := Last(s.log).value;
             c.generation == h.claim.generation && c.owner == h.claim.owner && c.purpose == h.claim.purpose
    ensures Leads(s, t) && t.now == s.now && |t.log| == |s.log| + 1
    ensures Last(t.log) == Some(Last(s.log).value.(until := Ms(s.now)))
    ensures At(t, id, Release(h.session, h.claim), Done(None))
    ensures h.claim.generation < MAX_U64 ==> Vacant(t)
  {
    hide Leads, At, Ms;
    var op := Release(h.session, h.claim);
    assert Held(op.session, op.claim, h.seen) in s.held;
    var claim := Last(s.log).value.(until := Ms(s.now));
    var t1 := Begins(s, id, op);
    assert Decide(op, LengthOf(t1.ops, SessionOf(id, op)), Last(t1.log), t1.now, t1.now) == Write(claim);
    t := WritesDecision(s, t1, id, op, claim);
  }

  // ------------------------------------------------------------------------------------- refusals

  /** A lease that has not run out keeps everybody else out, whoever asks and for what. */
  lemma BusyIff(op: Op, current: Option<Claim>, tested: nat, now: nat)
    requires Acquires(op) && op.owner != "" && op.length > 0
    requires op.Acquire? ==> !op.purpose.Generation?
    requires op.AcquireGeneration? ==>
               && op.index > 0 && current.Some? && current.value.purpose.Generation? && current.value.owner == op.owner
               && current.value.reserved == op.index && current.value.bound <= op.index
               && (op.certified.Some? ==> op.certified.value == op.index == current.value.bound)
    ensures Decide(op, op.length, current, tested, now) == Refuse(Busy) <==>
              current.Some? && current.value.until > Ms(now)
  {
  }

  /** A session is fenced exactly if the stored claim is no longer the one it presents, or has run out. */
  lemma RenewFencedIff(session: Id, claim: Claim, length: nat, current: Claim, tested: nat, now: nat)
    ensures Decide(Renew(session, claim), length, Some(current), tested, now) == Refuse(Fenced) <==>
              current.(until := 0) != claim.(until := 0) || current.until <= Ms(tested)
  {
  }

  // ------------------------------------------------------------------------------------ lost races

  /** An acquire whose upload lost a race tries again, and succeeds if what it then finds has run out. */
  lemma AcquireTriesAgain(s: State, id: Id, op: Op, r: Request, claim: Claim) returns (t: State)
    requires At(s, id, op, Sent(r)) && r.ifMatch != |s.log| && Acquires(op)
    requires Decide(op, op.length, Last(s.log), s.now, s.now) == Write(claim) && claim.until > Ms(s.now)
    ensures Leads(s, t) && t.now == s.now && Last(t.log) == Some(claim) && |t.log| == |s.log| + 1
    ensures At(t, id, op, Done(None)) && Held(id, claim, |t.log|) in t.held
  {
    hide Leads, Decide, Ms;
    LeadsNowhere(s);
    LeadsOn(s, s, Reject(id));
    var t1 := ReadsStored(s, After(s, Reject(id)), id, op, None);
    var t2 := WritesDecision(s, t1, id, op, claim);
    t := ConfirmsWrite(s, t2, id, op, claim, |t1.log|);
  }

  /** A bind, renewal or release that lost one is told that it is fenced. */
  lemma SessionIsFenced(s: State, id: Id, op: Op, r: Request)
    requires At(s, id, op, Sent(r)) && r.ifMatch != |s.log| && !Acquires(op)
    ensures At(After(s, Reject(id)), id, op, Done(Some(Fenced))) && After(s, Reject(id)).log == s.log
  {
  }

  /** A claim is only handed out while its lease runs. */
  lemma HandedOutUnexpired(s: State, e: Event, h: Held)
    requires h !in s.held && h in After(s, e).held
    ensures h.claim.until > Ms(After(s, e).now)
  {
    hide Decide, Ms;
  }

}
