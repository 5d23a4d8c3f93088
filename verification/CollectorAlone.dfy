/**
 * What a collection pass that nobody disturbs leaves behind, exactly: which roots, and which blocks. The pass takes
 * every step it may, so this is also what keeps the rules of `CheckpointGc` from being stricter than the code.
 */
module CollectorAlone {
  import opened CheckpointGc
  import opened CheckpointGcTheorems
  import opened Options

  ghost predicate Leads(s: State, t: State) { exists es :: Trace(s, es) == t }

  lemma LeadsNowhere(s: State)
    ensures Leads(s, s)
  {
    assert Trace(s, []) == s;
  }

  lemma LeadsOn(s: State, t: State, e: Event)
    requires Leads(s, t)
    ensures Leads(s, After(t, e))
  {
    hide After;
    var es :| Trace(s, es) == t;
    TraceLast(s, es, e);
  }

  /** The pass `id` of this policy, under the stored claim, has come this far. */
  ghost predicate At(s: State, id: Id, policy: Policy, pass: Pass) {
    id in s.sessions && s.sessions[id] == Collector(s.generation, policy, pass)
  }

  ghost predicate SameBucket(s: State, t: State) {
    && t.now == s.now && t.generation == s.generation && t.roots == s.roots && t.blocks == s.blocks
    && t.current == s.current
  }

  /** One step of the pass that changes at most the pins. */
  lemma OwnStep(s: State, t: State, id: Id, policy: Policy, p: Pass, e: Event, q: Pass)
    requires Leads(s, t) && At(t, id, policy, p) && CollectReady(t, e) && !Guarded(e)
    requires SameBucket(t, CollectStep(t, e)) && At(CollectStep(t, e), id, policy, q)
    ensures After(t, e) == CollectStep(t, e) && Leads(s, After(t, e))
  {
    hide Leads, CollectStep, IsNewest;
    LeadsOn(s, t, e);
  }

  // ------------------------------------------------------------------------------- scanning the pins

  /** The roots of those pins that have not run out. */
  function PinnedRoots(pins: map<string, Pin>, owners: set<string>, now: nat): set<Root> {
    set o | o in owners && o in pins && pins[o].record.until > now :: pins[o].record.root
  }

  lemma ScanOne(s: State, t: State, id: Id, policy: Policy, p: Pass, owner: string) returns (u: State)
    requires Leads(s, t) && At(t, id, policy, p) && p.Scanning? && p.start == t.now
    requires owner in p.owners && owner in t.pins
    ensures Leads(s, u) && SameBucket(t, u) && u.pins.Keys == t.pins.Keys
    ensures forall o | o in t.pins && o != owner :: u.pins[o] == t.pins[o]
    ensures var record := t.pins[owner].record;
            var pinned := if record.until > t.now then p.pinned + {record.root} else p.pinned;
            At(u, id, policy, Scanning(p.start, p.owners - {owner}, pinned))
  {
    hide Leads, IsNewest, LiveBlocks;
    var q := Examine(p.start, p.owners, p.pinned, owner, t.pins[owner]);
    OwnStep(s, t, id, policy, p, ScanPin(id, owner), q);
    u := After(t, ScanPin(id, owner));
    if q.Expiring? {
      var v := u;
      OwnStep(s, v, id, policy, q, MarkExpired(id), Scanning(p.start, p.owners - {owner}, p.pinned));
      u := After(v, MarkExpired(id));
    }
  }

  lemma {:induction false} ScanAll(s: State, t: State, id: Id, policy: Policy, p: Pass) returns (u: State)
    requires Leads(s, t) && At(t, id, policy, p) && p.Scanning? && p.start == t.now && p.owners <= t.pins.Keys
    ensures Leads(s, u) && SameBucket(t, u)
    ensures At(u, id, policy, Scanning(p.start, {}, p.pinned + PinnedRoots(t.pins, p.owners, t.now)))
    decreases |p.owners|
  {
    hide Leads, At, SameBucket;
    if p.owners == {} {
      u := t;
      SameAsBefore(t);
      assert p.pinned + PinnedRoots(t.pins, {}, t.now) == p.pinned;
    } else {
      var owner :| owner in p.owners;
      var v := ScanOne(s, t, id, policy, p, owner);
      var pinned := if t.pins[owner].record.until > t.now then p.pinned + {t.pins[owner].record.root} else p.pinned;
      var q := Scanning(p.start, p.owners - {owner}, pinned);
      SameBucketThen(t, v, v);
      u := ScanAll(s, v, id, policy, q);
      SameBucketThen(t, v, u);
      PinnedSplit(t.pins, v.pins, p.owners, owner, t.now);
      assert p.pinned + PinnedRoots(t.pins, p.owners, t.now)
             == pinned + PinnedRoots(v.pins, p.owners - {owner}, v.now);
    }
  }

  lemma SameAsBefore(s: State)
    ensures SameBucket(s, s)
  {
  }

  lemma SameBucketThen(s: State, t: State, u: State)
    requires SameBucket(s, t) && (t == u || SameBucket(t, u))
    ensures SameBucket(s, u) && t.now == s.now
  {
  }

  lemma PinnedSplit(pins: map<string, Pin>, pins': map<string, Pin>, owners: set<string>, owner: string, now: nat)
    requires owner in owners && owner in pins && pins'.Keys == pins.Keys
    requires forall o | o in pins && o != owner :: pins'[o] == pins[o]
    ensures PinnedRoots(pins, owners, now)
            == PinnedRoots(pins', owners - {owner}, now)
               + (if pins[owner].record.until > now then {pins[owner].record.root} else {})
  {
    var a, b := PinnedRoots(pins, owners, now), PinnedRoots(pins', owners - {owner}, now);
    forall r | r in a ensures r in b || (pins[owner].record.until > now && r == pins[owner].record.root) {
      var o :| o in owners && o in pins && pins[o].record.until > now && pins[o].record.root == r;
      if o != owner { assert o in owners - {owner} && o in pins'; }
    }
    forall r | r in b ensures r in a {
      var o :| o in owners - {owner} && o in pins' && pins'[o].record.until > now && pins'[o].record.root == r;
      assert o in owners && o in pins;
    }
  }

  // ---------------------------------------------------------------------------- deciding about roots

  lemma {:induction false} Topmost(roots: set<Root>) returns (r: Root)
    requires roots != {}
    ensures r in roots && forall q | q in roots :: q.index <= r.index
  {
    r :| r in roots;
    if roots != {r} {
      var rest := roots - {r};
      assert roots == rest + {r};
      var q := Topmost(rest);
      if q.index > r.index { r := q; }
    }
  }

  lemma {:induction false} SomeNewest(listed: set<Root>, keep: nat) returns (newest: set<Root>)
    ensures IsNewest(newest, listed, keep)
    decreases keep
  {
    if keep == 0 || listed == {} {
      newest := {};
    } else {
      var r := Topmost(listed);
      var rest := SomeNewest(listed - {r}, keep - 1);
      newest := rest + {r};
      assert listed - newest == (listed - {r}) - rest;
    }
  }

  /** The roots a pass removes of those it listed. */
  function Unneeded(listed: set<Root>, guarded: set<Root>, floor: nat): set<Root> {
    set r | r in listed && r !in guarded && r.index < floor
  }

  ghost predicate BucketLess(s: State, t: State, gone: set<Root>) {
    && t.now == s.now && t.generation == s.generation && t.blocks == s.blocks && t.current == s.current
    && t.roots == s.roots - gone
  }

  /** One root decided about: kept if it is guarded or at the floor, else removed. */
  lemma DecideOne(s: State, t: State, id: Id, policy: Policy, p: Pass, r: Root) returns (u: State)
    requires Leads(s, t) && At(t, id, policy, p) && p.Removing? && r in p.todo
    ensures var gone := r !in p.guarded && r.index < policy.floor;
            && Leads(s, u) && BucketLess(t, u, if gone then {r} else {})
            && At(u, id, policy, Next(p, r, policy.floor))
  {
    hide Leads, IsNewest, LiveBlocks, BlocksOf;
    var e := if r !in p.guarded && r.index < policy.floor then RemoveRoot(id, r) else KeepRoot(id, r);
    LeadsOn(s, t, e);
    u := After(t, e);
    assert CollectEnabled(t, e);
    assert u == CollectStep(t, e);
  }

  lemma {:induction false} DecideAll(s: State, t: State, id: Id, policy: Policy, p: Pass) returns (u: State)
    requires Leads(s, t) && At(t, id, policy, p) && p.Removing?
    ensures var gone := Unneeded(p.todo, p.guarded, policy.floor);
            && Leads(s, u) && BucketLess(t, u, gone)
            && At(u, id, policy, p.(todo := {}, kept := p.kept + (p.todo - gone), removed := p.removed + gone))
    decreases |p.todo|
  {
    hide Leads, At, BucketLess, Unneeded;
    var gone := Unneeded(p.todo, p.guarded, policy.floor);
    if p.todo == {} {
      u := t;
      NothingUnneeded(t, p.guarded, policy.floor);
      assert p.kept + ({} - {}) == p.kept && p.removed + {} == p.removed;
    } else {
      var r :| r in p.todo;
      var v := DecideOne(s, t, id, policy, p, r);
      var q := Next(p, r, policy.floor);
      u := DecideAll(s, v, id, policy, q);
      NextDecides(p, r, policy.floor);
      var now := if r !in p.guarded && r.index < policy.floor then {r} else {};
      LessAgain(t, v, u, now, Unneeded(q.todo, q.guarded, policy.floor));
    }
  }

  lemma NothingUnneeded(s: State, guarded: set<Root>, floor: nat)
    ensures Unneeded({}, guarded, floor) == {} && BucketLess(s, s, {})
  {
  }

  /** The pass after a decision about one root. */
  function Next(p: Pass, r: Root, floor: nat): Pass
    requires p.Removing?
  {
    var out := r !in p.guarded && r.index < floor;
    p.(todo := p.todo - {r}, kept := if out then p.kept else p.kept + {r},
       removed := if out then p.removed + {r} else p.removed)
  }

  lemma NextDecides(p: Pass, r: Root, floor: nat)
    requires p.Removing? && r in p.todo
    ensures var q, gone := Next(p, r, floor), Unneeded(p.todo, p.guarded, floor);
            var later := Unneeded(q.todo, q.guarded, floor);
            && gone == later + (if r !in p.guarded && r.index < floor then {r} else {})
            && q.kept + (q.todo - later) == p.kept + (p.todo - gone) && q.removed + later == p.removed + gone
  {
  }

  lemma LessAgain(s: State, t: State, u: State, a: set<Root>, b: set<Root>)
    requires BucketLess(s, t, a) && BucketLess(t, u, b)
    ensures BucketLess(s, u, b + a)
  {
  }

  // --------------------------------------------------------------------------------- sweeping blocks

  lemma {:induction false} SweepAll(s: State, t: State, id: Id, policy: Policy, p: Pass, todo: set<Block>)
    returns (u: State)
    requires Leads(s, t) && At(t, id, policy, p) && p.Sweeping? && todo !! p.live
    ensures Leads(s, u) && At(u, id, policy, p) && u == t.(blocks := t.blocks - todo)
    decreases |todo|
  {
    hide Leads;
    if todo == {} {
      u := t;
      assert t.blocks - todo == t.blocks;
    } else {
      var b :| b in todo;
      LeadsOn(s, t, SweepBlock(id, b));
      UnsparedBlockMayLeave(t, id, b);
      var v := After(t, SweepBlock(id, b));
      SweepChangesBlocks(t, id, b);
      u := SweepAll(s, v, id, policy, p, todo - {b});
      assert v.blocks - (todo - {b}) == t.blocks - todo;
    }
  }

  lemma SweepChangesBlocks(s: State, id: Id, b: Block)
    requires IsCollector(s, id) && Holds(s, id) && s.sessions[id].pass.Sweeping? && b !in s.sessions[id].pass.live
    ensures After(s, SweepBlock(id, b)) == s.(blocks := s.blocks - {b})
  {
  }

  // ------------------------------------------------------------------------------------ the whole pass

  /** From the start of the pass to its listing. */
  lemma Listed(s: State, id: Id, policy: Policy, newest: set<Root>) returns (t: State)
    requires At(s, id, policy, Starting) && IsNewest(newest, s.roots, policy.keep)
    ensures var pinned := PinnedRoots(s.pins, s.pins.Keys, s.now);
            var guarded := policy.retain + pinned + CurrentSet(s.current) + newest;
            && Leads(s, t) && SameBucket(s, t)
            && At(t, id, policy, Removing(pinned, guarded, s.roots, s.roots, {}, {}, s.roots))
  {
    hide Leads, IsNewest, LiveBlocks, CurrentSet, PinnedRoots;
    LeadsNowhere(s);
    var p1 := Scanning(s.now, s.pins.Keys, {});
    OwnStep(s, s, id, policy, Starting, StartScan(id), p1);
    var s1 := After(s, StartScan(id));
    var s2 := ScanAll(s, s1, id, policy, p1);
    var pinned := PinnedRoots(s.pins, s.pins.Keys, s.now);
    assert {} + PinnedRoots(s1.pins, p1.owners, s1.now) == pinned;
    OwnStep(s, s2, id, policy, Scanning(s.now, {}, pinned), EndScan(id), Loading(pinned));
    var s3 := After(s2, EndScan(id));
    t := LoadedAndListed(s, s3, id, policy, pinned, newest);
  }

  lemma LoadedAndListed(s: State, t: State, id: Id, policy: Policy, pinned: set<Root>, newest: set<Root>)
    returns (u: State)
    requires Leads(s, t) && At(t, id, policy, Loading(pinned)) && IsNewest(newest, t.roots, policy.keep)
    ensures var guarded := policy.retain + pinned + CurrentSet(t.current) + newest;
            && Leads(s, u) && SameBucket(t, u)
            && At(u, id, policy, Removing(pinned, guarded, t.roots, t.roots, {}, {}, t.roots))
  {
    hide Leads, IsNewest, LiveBlocks, CurrentSet;
    OwnStep(s, t, id, policy, Loading(pinned), LoadCurrent(id), Listing(pinned, t.current));
    var v := After(t, LoadCurrent(id));
    var guarded := policy.retain + pinned + CurrentSet(t.current) + newest;
    OwnStep(s, v, id, policy, Listing(pinned, t.current), ListRoots(id, newest),
            Removing(pinned, guarded, t.roots, t.roots, {}, {}, t.roots));
    u := After(v, ListRoots(id, newest));
  }

  /** Whether a root is needed: at the floor, retained, pinned, CURRENT or among the newest. */
  ghost predicate Needed(s: State, policy: Policy, newest: set<Root>, r: Root) {
    || r.index >= policy.floor || r in policy.retain || s.current == Some(r) || r in newest
    || exists o :: o in s.pins && s.pins[o].record.until > s.now && s.pins[o].record.root == r
  }

  ghost predicate Spared(s: State, b: Block) {
    || (exists r :: r in s.roots && b in r.blocks)
    || exists o :: o in s.pins && s.pins[o].record.until > s.now && b in s.pins[o].record.root.blocks
  }

  lemma UnneededIs(s: State, policy: Policy, newest: set<Root>, r: Root)
    requires r in s.roots
    ensures var guarded := policy.retain + PinnedRoots(s.pins, s.pins.Keys, s.now) + CurrentSet(s.current) + newest;
            r in Unneeded(s.roots, guarded, policy.floor) <==> !Needed(s, policy, newest, r)
  {
    var pinned := PinnedRoots(s.pins, s.pins.Keys, s.now);
    if o :| o in s.pins && s.pins[o].record.until > s.now && s.pins[o].record.root == r { assert r in pinned; }
  }

  lemma SparedIs(s: State, b: Block)
    ensures b in BlocksOf(s.roots + PinnedRoots(s.pins, s.pins.Keys, s.now)) <==> Spared(s, b)
  {
    var pinned := PinnedRoots(s.pins, s.pins.Keys, s.now);
    if b in BlocksOf(s.roots + pinned) {
      var r :| r in s.roots + pinned && b in r.blocks;
      if r !in s.roots {
        var o :| o in s.pins && s.pins[o].record.until > s.now && s.pins[o].record.root == r;
      }
    }
    if o :| o in s.pins && s.pins[o].record.until > s.now && b in s.pins[o].record.root.blocks {
      assert s.pins[o].record.root in pinned;
    }
  }

  /** From the listing to the sweep. */
  lemma Decided(s: State, t: State, id: Id, policy: Policy, p: Pass) returns (u: State)
    requires Leads(s, t) && At(t, id, policy, p) && p.Removing? && p.todo == p.listed == p.memory
    requires p.kept == {} && p.removed == {}
    ensures Leads(s, u) && BucketLess(t, u, Unneeded(p.listed, p.guarded, policy.floor))
    ensures At(u, id, policy, Sweeping(p.listed, p.pinned, BlocksOf(p.listed + p.pinned)))
  {
    hide Leads, IsNewest, BlocksOf;
    var gone := Unneeded(p.listed, p.guarded, policy.floor);
    var v := DecideAll(s, t, id, policy, p);
    var q := p.(todo := {}, kept := p.listed - gone, removed := gone);
    assert {} + (p.todo - gone) == p.listed - gone && {} + gone == gone;
    assert Surviving(q.memory, q.listed, q.kept) + q.removed + q.pinned == p.listed + p.pinned;
    OwnStep(s, v, id, policy, q, EndRoots(id), Sweeping(p.listed, p.pinned, BlocksOf(p.listed + p.pinned)));
    u := After(v, EndRoots(id));
  }

  /**
   * A pass that starts under its claim and is left alone can end with exactly the needed roots and the spared blocks:
   * the roots at or above the floor, retained, pinned, CURRENT or among the newest, and the blocks of any root that
   * was stored or pinned.
   */
  lemma UndisturbedPass(s: State, id: Id, policy: Policy) returns (t: State, newest: set<Root>)
    requires At(s, id, policy, Starting)
    ensures Leads(s, t) && t.current == s.current && t.generation == s.generation && t.now == s.now
    ensures IsNewest(newest, s.roots, policy.keep)
    ensures forall r :: r in t.roots <==> r in s.roots && Needed(s, policy, newest, r)
    ensures forall b :: b in t.blocks <==> b in s.blocks && Spared(s, b)
  {
    hide Leads, At, IsNewest, BlocksOf, CurrentSet, PinnedRoots, Unneeded, Needed, Spared;
    newest := SomeNewest(s.roots, policy.keep);
    var pinned := PinnedRoots(s.pins, s.pins.Keys, s.now);
    var guarded := policy.retain + pinned + CurrentSet(s.current) + newest;
    var p := Removing(pinned, guarded, s.roots, s.roots, {}, {}, s.roots);
    var s1 := Listed(s, id, policy, newest);
    var s2 := Decided(s, s1, id, policy, p);
    var live := BlocksOf(s.roots + pinned);
    t := SweepAll(s, s2, id, policy, Sweeping(s.roots, pinned, live), s2.blocks - live);
    forall r ensures r in t.roots <==> r in s.roots && Needed(s, policy, newest, r) {
      if r in s.roots { UnneededIs(s, policy, newest, r); }
    }
    forall b ensures b in t.blocks <==> b in s.blocks && Spared(s, b) { SparedIs(s, b); }
  }
}
