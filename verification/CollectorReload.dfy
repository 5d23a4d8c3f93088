/**
 * What `CheckpointGc` leaves out: another goroutine calling Load on a collecting manager. Load replaces the
 * manager's list of roots by the root of CURRENT alone, or leaves it if there is no CURRENT
 * (pkg/checkpoint/checkpoint.go). Between the pass's listing and its merge that list decides which blocks are spared.
 */
module CollectorReload {
  import opened CheckpointGc
  import opened CheckpointGcTheorems
  import opened Options

  /** `reloaded` are the passes whose list was replaced while they decided root by root. */
  datatype Run = Run(gc: State, reloaded: set<Id>)

  datatype Move = Step(e: Event) | Reload(id: Id)

  ghost predicate Start(x: Run) { CheckpointGc.Init(x.gc) && x.reloaded == {} }

  ghost predicate Deciding(s: State, id: Id) { IsCollector(s, id) && s.sessions[id].pass.Removing? }

  ghost function ReloadStep(s: State, id: Id): State
    requires Deciding(s, id) && s.current.Some?
  {
    var c := s.sessions[id];
    With(s, id, c.(pass := c.pass.(memory := {s.current.value})))
  }

  ghost function Moved(x: Run, m: Move): Run {
    match m
    case Step(e) => x.(gc := CheckpointGc.After(x.gc, e))
    case Reload(id) =>
      if Deciding(x.gc, id) && x.gc.current.Some? then Run(ReloadStep(x.gc, id), x.reloaded + {id}) else x
  }

  ghost function Moves(x: Run, ms: seq<Move>): Run
    decreases |ms|
  {
    if ms == [] then x else Moves(Moved(x, ms[0]), ms[1..])
  }

  ghost predicate Occurs(x: Run) { exists x0, ms :: Start(x0) && Moves(x0, ms) == x }

  // ------------------------------------------------------------ a pass that is not reloaded spares

  /** A pass's own bookkeeping, which holds whatever other passes do. */
  ghost predicate Book(p: Pass, reloaded: bool) {
    match p
    case Removing(pinned, guarded, listed, todo, kept, removed, memory) =>
      && todo <= listed && kept <= listed && removed <= listed && listed <= todo + kept + removed
      && (!reloaded ==> listed <= memory)
    case Sweeping(listed, pinned, live) => !reloaded ==> BlocksOf(listed) <= live
    case _ => true
  }

  ghost predicate BookOf(s: State, id: Id, reloaded: bool) {
    IsCollector(s, id) ==> Book(s.sessions[id].pass, reloaded) }

  lemma OwnStepKeepsBook(s: State, e: Event, reloaded: bool)
    requires CollectEnabled(s, e) && BookOf(s, e.id, reloaded)
    ensures BookOf(CollectStep(s, e), e.id, reloaded)
  {
    hide IsNewest, BlocksOf, LiveBlocks, CurrentSet;
    if e.EndRoots? && !reloaded {
      var p := s.sessions[e.id].pass;
      LiveCoversListed(p.memory, p.listed, p.kept, p.removed, p.pinned);
    }
  }

  lemma BookStays(s: State, e: Event, id: Id, reloaded: bool)
    requires BookOf(s, id, reloaded)
    ensures BookOf(CheckpointGc.After(s, e), id, reloaded)
  {
    hide CheckpointGc.After, CollectStep, CollectEnabled, Book;
    if IsCollector(s, id) {
      OnlyOwnSteps(s, e, id);
      if CollectEnabled(s, e) { HasId(s, e); }
      if CollectEnabled(s, e) && e.id == id { OwnStepKeepsBook(s, e, reloaded); }
    } else {
      NewPassIsBlank(s, e, id, reloaded);
    }
  }

  lemma NewPassIsBlank(s: State, e: Event, id: Id, reloaded: bool)
    requires !IsCollector(s, id)
    ensures BookOf(CheckpointGc.After(s, e), id, reloaded)
  {
    hide BeginEnabled, PublishEnabled, PinEnabled, CollectEnabled, BeginStep, PublishStep, PinStep, CollectStep;
    if BeginEnabled(s, e) {
      BegunIsBlank(s, e, id, reloaded);
    } else if PublishEnabled(s, e) {
      PublishStartsNoPass(s, e, id);
    } else if PinEnabled(s, e) {
      PinStartsNoPass(s, e, id);
    } else if CollectEnabled(s, e) {
      CollectStartsNoPass(s, e, id);
    }
  }

  lemma BegunIsBlank(s: State, e: Event, id: Id, reloaded: bool)
    requires !IsCollector(s, id) && BeginEnabled(s, e)
    ensures BookOf(BeginStep(s, e), id, reloaded)
  {
  }

  lemma PublishStartsNoPass(s: State, e: Event, id: Id)
    requires !IsCollector(s, id) && PublishEnabled(s, e)
    ensures !IsCollector(PublishStep(s, e), id)
  {
    hide Chooses, BlocksOf, CurrentSet;
  }

  lemma PinStartsNoPass(s: State, e: Event, id: Id)
    requires !IsCollector(s, id) && PinEnabled(s, e)
    ensures !IsCollector(PinStep(s, e), id)
  {
  }

  lemma CollectStartsNoPass(s: State, e: Event, id: Id)
    requires !IsCollector(s, id) && CollectEnabled(s, e)
    ensures !IsCollector(CollectStep(s, e), id)
  {
    hide IsNewest, BlocksOf, LiveBlocks, Examine, CurrentSet;
  }

  ghost predicate Books(x: Run) { forall id :: BookOf(x.gc, id, id in x.reloaded) }

  lemma {:induction false} BooksStay(x: Run, ms: seq<Move>)
    requires Books(x)
    ensures Books(Moves(x, ms))
    decreases |ms|
  {
    hide After;
    if ms != [] {
      var y := Moved(x, ms[0]);
      forall id ensures BookOf(y.gc, id, id in y.reloaded) {
        assert BookOf(x.gc, id, id in x.reloaded);
        if ms[0].Step? { BookStays(x.gc, ms[0].e, id, id in x.reloaded); }
      }
      BooksStay(y, ms[1..]);
    }
  }

  /** Without a reload nothing is added: the run is one of `CheckpointGc`. */
  lemma {:induction false} UnreloadedIsPlain(x: Run, ms: seq<Move>)
    requires CheckpointGcTheorems.Reachable(x.gc) && x.reloaded == {} && Moves(x, ms).reloaded == {}
    ensures CheckpointGcTheorems.Reachable(Moves(x, ms).gc)
    decreases |ms|
  {
    hide After, CheckpointGcTheorems.Reachable;
    if ms != [] {
      ReloadedGrows(Moved(x, ms[0]), ms[1..]);
      if ms[0].Step? { ReachableStep(x.gc, ms[0].e); }
      UnreloadedIsPlain(Moved(x, ms[0]), ms[1..]);
    }
  }

  lemma {:induction false} ReloadedGrows(x: Run, ms: seq<Move>)
    ensures x.reloaded <= Moves(x, ms).reloaded
    decreases |ms|
  {
    hide After;
    if ms != [] { ReloadedGrows(Moved(x, ms[0]), ms[1..]); }
  }

  /** The pass is about to delete a block of a root it listed. */
  ghost predicate Harms(x: Run, id: Id, b: Block, r: Root) {
    CollectEnabled(x.gc, SweepBlock(id, b)) && r in x.gc.sessions[id].pass.listed && b in r.blocks
  }

  lemma OccursBooks(x: Run)
    requires Occurs(x)
    ensures Books(x)
  {
    var x0, ms :| Start(x0) && Moves(x0, ms) == x;
    BooksStay(x0, ms);
  }

  lemma UnreloadedIsCovered(s: State, id: Id)
    requires BookOf(s, id, false) && IsCollector(s, id) && s.sessions[id].pass.Sweeping?
    ensures BlocksOf(s.sessions[id].pass.listed) <= s.sessions[id].pass.live
  {
  }

  lemma UnreloadedSpares(x: Run, id: Id, b: Block, r: Root)
    requires Occurs(x) && id !in x.reloaded
    ensures !Harms(x, id, b, r)
  {
    hide Occurs, Book;
    OccursBooks(x);
    assert BookOf(x.gc, id, false);
    if Harms(x, id, b, r) {
      UnreloadedIsCovered(x.gc, id);
      BlocksOfMember(x.gc.sessions[id].pass.listed, r);
    }
  }

  // --------------------------------------------------------------------- a reloaded pass may not

  lemma {:induction false} MovesLast(x: Run, ms: seq<Move>, m: Move)
    ensures Moves(x, ms + [m]) == Moved(Moves(x, ms), m)
    decreases |ms|
  {
    hide Moved;
    if ms == [] {
      assert (ms + [m])[1..] == [];
    } else {
      assert (ms + [m])[1..] == ms[1..] + [m];
      MovesLast(Moved(x, ms[0]), ms[1..], m);
    }
  }

  lemma OccursNext(x: Run, m: Move)
    requires Occurs(x)
    ensures Occurs(Moved(x, m))
  {
    hide Moved;
    var x0, ms :| Start(x0) && Moves(x0, ms) == x;
    MovesLast(x0, ms, m);
  }

  lemma OccursStart(x: Run)
    requires Start(x)
    ensures Occurs(x)
  {
    assert Moves(x, []) == x;
  }

  const OLD_BLOCK := Block(7, 0)
  const NEW_BLOCK := Block(8, 0)
  const OLD_ROOT := Root(1, 1, {OLD_BLOCK})
  const NEW_ROOT := Root(2, 2, {NEW_BLOCK})

  /** A bucket with an older root, CURRENT's root, and whatever sessions ran so far. */
  ghost function Bucket(generation: nat, sessions: map<Id, Session>): State {
    State(0, generation, sessions, {OLD_ROOT, NEW_ROOT}, {OLD_BLOCK, NEW_BLOCK}, Some(NEW_ROOT), map[], {}, {}, {})
  }

  lemma PublishOne(s: State, id: Id, b: Block, index: nat) returns (t: State)
    requires Occurs(Run(s, {})) && id == s.generation + 1 && id !in s.sessions && b.generation == 0 && b !in s.blocks
    requires s.current.None?
    ensures Occurs(Run(t, {}))
    ensures var r := Root(index, id, {b});
            t == s.(generation := id, sessions := s.sessions[id := Publisher(id, Some({}), {b}, {r})],
                    roots := s.roots + {r}, blocks := s.blocks + {b})
  {
    hide Occurs, Moves;
    var s1 := CheckpointGc.After(s, BeginPublisher(id));
    OccursNext(Run(s, {}), Step(BeginPublisher(id)));
    var s2 := CheckpointGc.After(s1, Refresh(id));
    OccursNext(Run(s1, {}), Step(Refresh(id)));
    assert s2.sessions[id] == Publisher(id, Some({}), {}, {}) by { assert BlocksOf(CurrentSet(None)) == {}; }
    var s3 := CheckpointGc.After(s2, PutBlock(id, b));
    OccursNext(Run(s2, {}), Step(PutBlock(id, b)));
    assert s3.sessions[id] == Publisher(id, Some({}), {b}, {});
    t := CheckpointGc.After(s3, PutRoot(id, index, {b}));
    OccursNext(Run(s3, {}), Step(PutRoot(id, index, {b})));
    assert t.sessions[id] == Publisher(id, Some({}), {b}, {Root(index, id, {b})});
    assert t.sessions == s.sessions[id := t.sessions[id]];
  }

  lemma BothPublished() returns (s: State)
    ensures Occurs(Run(s, {})) && s == Bucket(2, s.sessions) && s.sessions.Keys == {1, 2}
  {
    hide Occurs, Moves, BlocksOf;
    var s0 := State(0, 0, map[], {}, {}, None, map[], {}, {}, {});
    OccursStart(Run(s0, {}));
    var s1 := PublishOne(s0, 1, OLD_BLOCK, 1);
    var s2 := PublishOne(s1, 2, NEW_BLOCK, 2);
    OccursNext(Run(s2, {}), Step(Promote(2, NEW_ROOT)));
    s := s2.(current := Some(NEW_ROOT));
  }

  ghost function Pass3(sessions: map<Id, Session>, pass: Pass): State {
    Bucket(3, sessions[3 := Collector(3, Policy({}, 1, 1), pass)])
  }

  /** A step of the pass that changes nothing but the pass. */
  lemma PassNext(sessions: map<Id, Session>, p: Pass, e: Event, q: Pass)
    requires Occurs(Run(Pass3(sessions, p), {})) && CollectEnabled(Pass3(sessions, p), e)
    requires CollectStep(Pass3(sessions, p), e) == With(Pass3(sessions, p), 3, Collector(3, Policy({}, 1, 1), q))
    ensures Occurs(Run(Pass3(sessions, q), {}))
  {
    hide Occurs, Moves, CollectStep;
    var s, t := Pass3(sessions, p), Pass3(sessions, q);
    OccursNext(Run(s, {}), Step(e));
    assert With(s, 3, Collector(3, Policy({}, 1, 1), q)).sessions == t.sessions;
    assert CheckpointGc.After(s, e) == t;
  }

  lemma Begun() returns (sessions: map<Id, Session>)
    ensures Occurs(Run(Pass3(sessions, Starting), {}))
  {
    hide Occurs, Moves, BlocksOf, IsNewest;
    var s := BothPublished();
    sessions := s.sessions;
    OccursNext(Run(s, {}), Step(BeginCollector(3, Policy({}, 1, 1))));
    assert CheckpointGc.After(s, BeginCollector(3, Policy({}, 1, 1))) == Pass3(sessions, Starting);
  }

  lemma Scanned() returns (sessions: map<Id, Session>)
    ensures Occurs(Run(Pass3(sessions, Loading({})), {}))
  {
    hide Occurs, Moves, BlocksOf, IsNewest, BeginStep, PublishStep, PinStep;
    sessions := Begun();
    assert Pass3(sessions, Starting).pins.Keys == {};
    PassNext(sessions, Starting, StartScan(3), Scanning(0, {}, {}));
    PassNext(sessions, Scanning(0, {}, {}), EndScan(3), Loading({}));
  }

  lemma Loaded() returns (sessions: map<Id, Session>)
    ensures Occurs(Run(Pass3(sessions, Listing({}, Some(NEW_ROOT))), {}))
  {
    hide Occurs, Moves, BlocksOf, IsNewest, BeginStep, PublishStep, PinStep;
    sessions := Scanned();
    PassNext(sessions, Loading({}), LoadCurrent(3), Listing({}, Some(NEW_ROOT)));
  }

  ghost function Decided(todo: set<Root>, kept: set<Root>, memory: set<Root>): Pass {
    Removing({}, {NEW_ROOT}, {OLD_ROOT, NEW_ROOT}, todo, kept, {}, memory)
  }

  lemma Listed() returns (sessions: map<Id, Session>)
    ensures Occurs(Run(Pass3(sessions, Decided({OLD_ROOT, NEW_ROOT}, {}, {OLD_ROOT, NEW_ROOT})), {}))
  {
    hide Occurs, Moves, BlocksOf;
    var both := {OLD_ROOT, NEW_ROOT};
    sessions := Loaded();
    assert IsNewest({NEW_ROOT}, both, 1);
    var p := Listing({}, Some(NEW_ROOT));
    assert Policy({}, 1, 1).retain + p.pinned + CurrentSet(p.current) + {NEW_ROOT} == {NEW_ROOT};
    PassNext(sessions, p, ListRoots(3, {NEW_ROOT}), Decided(both, {}, both));
  }

  lemma BothKept() returns (sessions: map<Id, Session>)
    ensures Occurs(Run(Pass3(sessions, Decided({}, {OLD_ROOT, NEW_ROOT}, {OLD_ROOT, NEW_ROOT})), {}))
  {
    hide Occurs, Moves, BlocksOf, IsNewest;
    var both := {OLD_ROOT, NEW_ROOT};
    sessions := Listed();
    var p := Decided(both, {}, both);
    assert both - {OLD_ROOT} == {NEW_ROOT} && p.kept + {OLD_ROOT} == {OLD_ROOT};
    PassNext(sessions, p, KeepRoot(3, OLD_ROOT), Decided({NEW_ROOT}, {OLD_ROOT}, both));
    var q := Decided({NEW_ROOT}, {OLD_ROOT}, both);
    assert q.todo - {NEW_ROOT} == {} && {OLD_ROOT} + {NEW_ROOT} == both;
    PassNext(sessions, q, KeepRoot(3, NEW_ROOT), Decided({}, both, both));
  }

  /** A run in which a reloaded pass is about to delete a block of a root it listed and kept, and that stays stored. */
  lemma ReloadedPassHarms() returns (x: Run)
    ensures Occurs(x) && 3 in x.reloaded && Harms(x, 3, OLD_BLOCK, OLD_ROOT) && OLD_ROOT in x.gc.roots
  {
    hide Occurs, Moves, LiveBlocks, BlocksOf, BeginStep, PublishStep, PinStep;
    var t := ReloadedPass();
    OccursNext(Run(t, {3}), Step(EndRoots(3)));
    x := Run(CheckpointGc.After(t, EndRoots(3)), {3});
    OldBlockIsLost();
  }

  lemma ReloadedPass() returns (t: State)
    ensures Occurs(Run(t, {3})) && IsCollector(t, 3) && Holds(t, 3) && OLD_ROOT in t.roots
    ensures t.sessions[3].pass == Decided({}, {OLD_ROOT, NEW_ROOT}, {NEW_ROOT})
  {
    hide Occurs, Moves, CheckpointGc.After;
    var both := {OLD_ROOT, NEW_ROOT};
    var sessions := BothKept();
    var s := Pass3(sessions, Decided({}, both, both));
    OccursNext(Run(s, {}), Reload(3));
    t := ReloadStep(s, 3);
    assert Moved(Run(s, {}), Reload(3)) == Run(t, {3}) by { assert {} + {3} == {3}; }
  }

  lemma OldBlockIsLost()
    ensures var both := {OLD_ROOT, NEW_ROOT}; OLD_BLOCK !in LiveBlocks({NEW_ROOT}, both, both, {}, {})
  {
  }

  ghost predicate AlwaysSpares(reloaded: bool) {
    forall x, id, b, r | Occurs(x) && (id in x.reloaded) == reloaded :: !Harms(x, id, b, r)
  }

  /** A pass spares what it listed, in all runs, exactly if its list was not reloaded between listing and merge. */
  lemma SparesIffNotReloaded(reloaded: bool)
    ensures AlwaysSpares(reloaded) <==> !reloaded
  {
    hide Occurs, Harms;
    if reloaded {
      var x := ReloadedPassHarms();
      assert Occurs(x) && (3 in x.reloaded) == reloaded && Harms(x, 3, OLD_BLOCK, OLD_ROOT);
    } else {
      forall x, id, b, r | Occurs(x) && (id in x.reloaded) == reloaded ensures !Harms(x, id, b, r) {
        UnreloadedSpares(x, id, b, r);
      }
    }
  }

  // ---------------------------------------------------------------------------- pass by pass, exactly

  /** The pass has decided about every root and merges next, under its claim. */
  ghost predicate AtMerge(s: State, id: Id) { Deciding(s, id) && s.sessions[id].pass.todo == {} && Holds(s, id) }

  ghost predicate Loses(p: Pass, r: Root, b: Block)
    requires p.Removing?
  {
    Lost(p.memory, p.listed, p.kept, p.removed, p.pinned, r, b)
  }

  lemma MergedPass(s: State, id: Id)
    requires AtMerge(s, id)
    ensures var t, p := CheckpointGc.After(s, EndRoots(id)), s.sessions[id].pass;
            && IsCollector(t, id) && Holds(t, id)
            && t.sessions[id].pass
               == Sweeping(p.listed, p.pinned, LiveBlocks(p.memory, p.listed, p.kept, p.removed, p.pinned))
  {
    hide LiveBlocks, IsNewest;
  }

  lemma OwnSweep(s: State, e: Event, id: Id)
    requires CollectEnabled(s, e) && e.id == id && s.sessions[id].pass.Sweeping?
    ensures IsCollector(CollectStep(s, e), id) && CollectStep(s, e).sessions[id] == s.sessions[id]
  {
    hide LiveBlocks, IsNewest;
  }

  lemma SweepMoves(x: Run, m: Move, id: Id)
    requires IsCollector(x.gc, id) && x.gc.sessions[id].pass.Sweeping?
    ensures IsCollector(Moved(x, m).gc, id) && Moved(x, m).gc.sessions[id] == x.gc.sessions[id]
  {
    hide CheckpointGc.After, CollectStep, CollectEnabled;
    if m.Step? {
      OnlyOwnSteps(x.gc, m.e, id);
      if CollectEnabled(x.gc, m.e) { HasId(x.gc, m.e); }
      if CollectEnabled(x.gc, m.e) && m.e.id == id { OwnSweep(x.gc, m.e, id); }
    }
  }

  /** What a sweep spares is settled when it starts. */
  lemma {:induction false} SweepIsSettled(x: Run, ms: seq<Move>, id: Id)
    requires IsCollector(x.gc, id) && x.gc.sessions[id].pass.Sweeping?
    ensures IsCollector(Moves(x, ms).gc, id) && Moves(x, ms).gc.sessions[id] == x.gc.sessions[id]
    decreases |ms|
  {
    hide Moved, IsCollector;
    if ms != [] {
      SweepMoves(x, ms[0], id);
      SweepIsSettled(Moved(x, ms[0]), ms[1..], id);
    }
  }

  /**
   * In any run, reloaded or not, a pass that merges now comes to delete a block of a root it listed, in some
   * continuation, exactly if a kept root is missing from its list and has a block that nothing spared shares.
   */
  lemma MergeHarmsIff(x: Run, id: Id)
    requires Occurs(x) && AtMerge(x.gc, id)
    ensures (exists ms, b, r :: Harms(Moves(Moved(x, Step(EndRoots(id))), ms), id, b, r))
            <==> exists r, b :: Loses(x.gc.sessions[id].pass, r, b)
  {
    hide Occurs, Moves, Moved, CheckpointGc.After, LiveBlocks, Lost;
    var p := x.gc.sessions[id].pass;
    var y := Moved(x, Step(EndRoots(id)));
    MergeStep(x, id);
    DecidedAll(x, id);
    if r, b :| Loses(p, r, b) {
      LosesBlock(p.memory, p.listed, p.kept, p.removed, p.pinned, r, b);
      LostIsKept(p, r, b);
      MovesNothing(y);
      assert Harms(Moves(y, []), id, b, r);
    }
    forall ms, b, r | Harms(Moves(y, ms), id, b, r) ensures exists q, c :: Loses(p, q, c) {
      SweepIsSettled(y, ms, id);
      BlocksOfMember(p.listed, r);
      SparesListedIff(p.memory, p.listed, p.kept, p.removed, p.pinned);
      var q, c :| Lost(p.memory, p.listed, p.kept, p.removed, p.pinned, q, c);
      assert Loses(p, q, c);
    }
  }

  lemma MergeStep(x: Run, id: Id)
    requires AtMerge(x.gc, id)
    ensures var y, p := Moved(x, Step(EndRoots(id))), x.gc.sessions[id].pass;
            && IsCollector(y.gc, id) && Holds(y.gc, id)
            && y.gc.sessions[id].pass
               == Sweeping(p.listed, p.pinned, LiveBlocks(p.memory, p.listed, p.kept, p.removed, p.pinned))
  {
    hide CheckpointGc.After, LiveBlocks;
    MergedPass(x.gc, id);
  }

  lemma DecidedAll(x: Run, id: Id)
    requires Occurs(x) && AtMerge(x.gc, id)
    ensures x.gc.sessions[id].pass.listed == x.gc.sessions[id].pass.kept + x.gc.sessions[id].pass.removed
  {
    hide Occurs;
    OccursBooks(x);
    assert BookOf(x.gc, id, id in x.reloaded);
  }

  lemma LostIsKept(p: Pass, r: Root, b: Block)
    requires p.Removing? && Loses(p, r, b)
    ensures r in p.kept && r !in p.memory && b in r.blocks
  {
  }

  lemma MovesNothing(x: Run)
    ensures Moves(x, []) == x
  {
  }

  /** So a pass whose list was not replaced loses nothing. */
  lemma UnreloadedLosesNothing(x: Run, id: Id, r: Root, b: Block)
    requires Occurs(x) && AtMerge(x.gc, id) && id !in x.reloaded
    ensures !Loses(x.gc.sessions[id].pass, r, b)
  {
    hide Occurs;
    OccursBooks(x);
    assert BookOf(x.gc, id, false);
  }

  /** With no reload at all the whole of `CheckpointGc` applies. */
  lemma UnreloadedRunsAreSafe(x: Run)
    requires Occurs(x) && x.reloaded == {}
    ensures CheckpointGcTheorems.Reachable(x.gc) && forall r | r in x.gc.roots :: r.blocks <= x.gc.blocks
  {
    hide After, CheckpointGcTheorems.Reachable;
    var x0, ms :| Start(x0) && Moves(x0, ms) == x;
    ReachableStart(x0.gc);
    UnreloadedIsPlain(x0, ms);
    GcSafety(x.gc);
  }
}
