/** Garbage collection safety over every run of `CheckpointGc`. */
module CheckpointGcTheorems {
  import opened CheckpointGc
  import opened Options

  // -------------------------------------------------------------------- the stored claim's holder

  /** A step of the claim's holder may change what is stored; every other session has lost its claim. */
  lemma HolderStep(s: State, s': State, id: Id)
    requires Inv(s) && Holds(s, id) && id in s'.sessions
    requires s'.sessions == s.sessions[id := s'.sessions[id]] && s'.sessions[id].generation == s.generation
    requires s'.now == s.now && s'.generation == s.generation && s'.pins == s.pins && s'.wire == s.wire
    requires RootsOk(s') && CurrentOk(s') && PinsOk(s') && SessionOk(s', s'.sessions[id])
    ensures Inv(s')
  {
    forall i | i in s'.sessions ensures SessionOk(s', s'.sessions[i]) {
      if i != id {
        assert SessionOk(s, s.sessions[i]);
        assert s.sessions[i].generation != s.generation;
      }
    }
    forall w | w in s'.wire ensures WriteOk(s', w) { assert WriteOk(s, w); }
  }

  /** Pins only care about blocks disappearing. */
  lemma PinsSurvive(s: State, s': State)
    requires PinsOk(s) && s'.pins == s.pins && s'.wire == s.wire && s'.now == s.now
    requires s'.tokens == s.tokens && s'.retired == s.retired
    requires forall owner | owner in s.pins && !Dead(s, owner) :: s.pins[owner].record.root.blocks <= s'.blocks
    ensures PinsOk(s')
  {
    forall owner | owner in s'.pins ensures PinOk(s', owner) {
      assert PinOk(s, owner);
      if Dead(s, owner) {
        forall w ensures !RenewalMatches(s', w, owner, s'.pins[owner].version) {
          assert !RenewalMatches(s, w, owner, s.pins[owner].version);
        }
      } else {
        if s'.pins[owner].record.until <= s'.now {
          var w :| RenewalMatches(s, w, owner, s.pins[owner].version);
          assert RenewalMatches(s', w, owner, s'.pins[owner].version);
        }
      }
    }
  }

  lemma PinsKeepBlocks(s: State, s': State)
    requires PinsOk(s) && s'.pins == s.pins && s'.wire == s.wire && s'.now == s.now && s.blocks <= s'.blocks
    requires s'.tokens == s.tokens && s'.retired == s.retired
    ensures PinsOk(s')
  {
    forall owner | owner in s.pins && !Dead(s, owner) ensures s.pins[owner].record.root.blocks <= s'.blocks {
      assert PinOk(s, owner);
    }
    PinsSurvive(s, s');
  }

  lemma PublishKeepsInv(s: State, e: Event)
    requires Inv(s) && PublishEnabled(s, e)
    ensures Inv(PublishStep(s, e))
  {
    hide PinsOk, PassOk, PassShape, WriteOk;
    var id := e.id;
    var s' := PublishStep(s, e);
    assert SessionOk(s, s.sessions[id]);
    PinsKeepBlocks(s, s');
    if e.Refresh? { SameStore(s, s', id); } else { HolderStep(s, s', id); }
  }

  lemma PinnerKeepsInv(s: State, e: Event)
    requires Inv(s) && PinEnabled(s, e) && (e.CheckRoot? || e.ReadSlot?)
    ensures Inv(PinStep(s, e))
  {
    hide PinsOk, PassOk, PassShape, WriteOk;
    var s' := PinStep(s, e);
    assert SessionOk(s, s.sessions[e.id]);
    PinsKeepBlocks(s, s');
    SameStore(s, s', e.id);
  }

  // ------------------------------------------------------------------- steps that store nothing

  lemma CoveredSame(s: State, s': State, owner: string, pinned: set<Root>)
    requires s'.now == s.now && s'.pins == s.pins && s'.wire == s.wire && owner in s.pins && Covered(s, owner, pinned)
    ensures Covered(s', owner, pinned)
  {
    if Dead(s, owner) {
      forall w ensures !RenewalMatches(s', w, owner, s'.pins[owner].version) {
        assert !RenewalMatches(s, w, owner, s.pins[owner].version);
      }
    }
  }

  lemma FactsSame(s: State, s': State, x: Session)
    requires SessionOk(s, x) && s'.now == s.now && s'.generation == s.generation && s'.pins == s.pins
    requires s'.wire == s.wire && s'.roots == s.roots && s'.blocks == s.blocks && s'.current == s.current
    ensures SessionOk(s', x)
  {
    if x.Collector? && x.generation == s.generation {
      forall owner, pinned | owner in s.pins && Covered(s, owner, pinned) ensures Covered(s', owner, pinned) {
        CoveredSame(s, s', owner, pinned);
      }
    }
  }

  /** Only the acting session's own notes change. */
  lemma SameStore(s: State, s': State, id: Id)
    requires Inv(s) && id in s.sessions && id in s'.sessions
    requires s'.sessions == s.sessions[id := s'.sessions[id]]
    requires s'.sessions[id].generation == s.sessions[id].generation
    requires s'.now == s.now && s'.generation == s.generation && s'.pins == s.pins && s'.wire == s.wire
    requires s'.roots == s.roots && s'.blocks == s.blocks && s'.current == s.current && PinsOk(s')
    requires SessionOk(s', s'.sessions[id])
    ensures Inv(s')
  {
    hide PinsOk, PassOk, PassShape;
    forall i | i in s'.sessions ensures SessionOk(s', s'.sessions[i]) {
      if i != id {
        assert SessionOk(s, s.sessions[i]);
        FactsSame(s, s', s.sessions[i]);
      }
    }
    forall w | w in s'.wire ensures WriteOk(s', w) { assert WriteOk(s, w); }
  }

  // --------------------------------------------------------------------------- pins changing

  /** What renewals, closes, expiry marks and time do to the pins, seen by everybody else. */
  ghost predicate PinMoves(s: State, s': State, owner: string)
    requires owner in s.pins && owner in s'.pins
  {
    && s'.pins[owner].record.root == s.pins[owner].record.root
    && s'.pins[owner].record.token == s.pins[owner].record.token
    && s.pins[owner].version <= s'.pins[owner].version
    && (s'.pins[owner].version == s.pins[owner].version ==> s'.pins[owner] == s.pins[owner])
    && (Dead(s, owner) ==> Dead(s', owner))
  }

  ghost predicate PinsMove(s: State, s': State) {
    && s'.pins.Keys == s.pins.Keys && s.now <= s'.now && s'.generation == s.generation
    && s'.roots == s.roots && s'.blocks == s.blocks && s'.current == s.current && s'.tokens == s.tokens
    && forall owner | owner in s.pins :: PinMoves(s, s', owner)
  }

  lemma CoverageMoves(s: State, s': State, owner: string, pinned: set<Root>)
    requires PinsMove(s, s') && owner in s.pins && Covered(s, owner, pinned)
    ensures Covered(s', owner, pinned)
  {
    assert PinMoves(s, s', owner);
  }

  lemma PassMoves(s: State, s': State, p: Pass)
    requires PinsMove(s, s') && PassShape(s, p)
    ensures PassShape(s', p)
    ensures PassOk(s, p) ==> PassOk(s', p)
  {
    hide Dead;
    if p.Expiring? { assert PinMoves(s, s', p.owner); }
    forall owner, pinned | owner in s.pins && Covered(s, owner, pinned) ensures Covered(s', owner, pinned) {
      CoverageMoves(s, s', owner, pinned);
    }
  }

  lemma SessionMoves(s: State, s': State, x: Session)
    requires PinsMove(s, s') && SessionOk(s, x)
    ensures SessionOk(s', x)
  {
    hide PassOk, PassShape, PinMoves;
    if x.Collector? { PassMoves(s, s', x.pass); }
  }

  /** Every step on pins: all that is left to show is the pins and the wire themselves. */
  lemma MovedInv(s: State, s': State)
    requires Inv(s) && PinsMove(s, s') && PinsOk(s') && WireOk(s') && s'.sessions == s.sessions
    ensures Inv(s')
  {
    hide PinsOk, PassOk, PassShape, PinMoves, WriteOk;
    forall id | id in s'.sessions ensures SessionOk(s', s'.sessions[id]) { SessionMoves(s, s', s.sessions[id]); }
  }

  lemma PinOkMoves(s: State, s': State, owner: string)
    requires PinsMove(s, s') && owner in s.pins && PinOk(s, owner)
    requires var p := (owner, s.pins[owner].record.token); p in s'.retired ==> p in s.retired || Dead(s', owner)
    ensures PinOk(s', owner)
  {
    hide Dead;
    assert PinMoves(s, s', owner);
  }

  /** The same object with the same or fewer matching renewals, at the same or a later time. */
  lemma StillDead(s: State, s': State, owner: string)
    requires owner in s.pins && owner in s'.pins && s'.pins[owner] == s.pins[owner] && s.now <= s'.now
    requires forall w | w in s'.wire && w.owner == owner && w.renews && w.ifMatch == s.pins[owner].version
               :: w in s.wire
    ensures Dead(s, owner) ==> Dead(s', owner)
  {
    if Dead(s, owner) {
      forall w ensures !RenewalMatches(s', w, owner, s'.pins[owner].version) {
        assert !RenewalMatches(s, w, owner, s.pins[owner].version);
      }
    }
  }

  /** A write of a newer version that is already expired leaves nothing to renew. */
  lemma NowDead(s: State, s': State, owner: string)
    requires WireOk(s) && owner in s.pins && owner in s'.pins && s'.wire == s.wire
    requires s.pins[owner].version < s'.pins[owner].version && s'.pins[owner].record.until <= s'.now
    ensures Dead(s', owner)
  {
    forall w ensures !RenewalMatches(s', w, owner, s'.pins[owner].version) {
      if w in s.wire && w.owner == owner { assert WriteOk(s, w); }
    }
  }

  lemma TickKeepsInv(s: State, t: nat)
    requires Inv(s) && s.now <= t
    ensures Inv(s.(now := t))
  {
    var s' := s.(now := t);
    forall owner | owner in s.pins ensures PinMoves(s, s', owner) { StillDead(s, s', owner); }
    forall owner | owner in s.pins ensures PinOk(s', owner) {
      assert PinOk(s, owner);
      PinOkMoves(s, s', owner);
    }
    forall w | w in s'.wire ensures WriteOk(s', w) { assert WriteOk(s, w); }
    MovedInv(s, s');
  }

  /** Sending a renewal of an unexpired pin, or a close, changes no pin's fate. */
  lemma SendKeepsInv(s: State, w: PinWrite)
    requires Inv(s) && w.owner in s.pins && w.ifMatch == s.pins[w.owner].version
    requires w.record == s.pins[w.owner].record.(until := w.record.until)
    requires if w.renews then s.pins[w.owner].record.until > s.now else w.record.until <= s.now
    ensures Inv(s.(wire := s.wire + {w}))
  {
    var s' := s.(wire := s.wire + {w});
    forall owner | owner in s.pins ensures PinMoves(s, s', owner) {
      if !(w.renews && owner == w.owner) { StillDead(s, s', owner); }
    }
    forall owner | owner in s.pins ensures PinOk(s', owner) {
      assert PinOk(s, owner);
      PinOkMoves(s, s', owner);
    }
    forall v | v in s'.wire ensures WriteOk(s', v) {
      if v in s.wire { assert WriteOk(s, v); }
    }
    MovedInv(s, s');
  }

  /** One pin object takes a write: a live one by a renewal, or any by something already expired. */
  ghost predicate PinTakes(s: State, s': State, owner: string) {
    && owner in s.pins && owner in s'.pins && s'.pins == s.pins[owner := s'.pins[owner]]
    && s'.pins[owner].version == s.pins[owner].version + 1
    && s'.pins[owner].record.root == s.pins[owner].record.root
    && s'.pins[owner].record.token == s.pins[owner].record.token
    && (!Dead(s, owner) || s'.pins[owner].record.until <= s.now)
    && s'.wire == s.wire && s'.now == s.now && s'.generation == s.generation && s'.roots == s.roots
    && s'.blocks == s.blocks && s'.current == s.current && s'.tokens == s.tokens
  }

  lemma TakingMoves(s: State, s': State, owner: string)
    requires Inv(s) && PinTakes(s, s', owner)
    ensures PinsMove(s, s')
  {
    forall o | o in s.pins ensures PinMoves(s, s', o) {
      if o != owner {
        StillDead(s, s', o);
      } else if Dead(s, owner) {
        NowDead(s, s', owner);
      }
    }
  }

  lemma TakingKeepsWire(s: State, s': State, owner: string)
    requires Inv(s) && PinTakes(s, s', owner)
    ensures WireOk(s')
  {
    forall w | w in s'.wire ensures WriteOk(s', w) { assert WriteOk(s, w); }
  }

  lemma LandKeepsInv(s: State, w: PinWrite)
    requires Inv(s) && w in s.wire
    ensures Inv(PinStep(s, LandPin(w)))
  {
    hide PassOk, PassShape;
    var s' := PinStep(s, LandPin(w));
    assert WriteOk(s, w);
    if s.pins[w.owner].version == w.ifMatch {
      if w.renews && Dead(s, w.owner) {
        assert RenewalMatches(s, w, w.owner, w.ifMatch);
      }
      TakingMoves(s, s', w.owner);
      TakingKeepsWire(s, s', w.owner);
      forall owner | owner in s.pins ensures PinOk(s', owner) {
        assert PinOk(s, owner);
        PinOkMoves(s, s', owner);
      }
      MovedInv(s, s');
    }
  }

  /** Marking the pin this pass read as expired, if nothing wrote it since. */
  lemma MarkKeepsPins(s: State, id: Id)
    requires Inv(s) && CollectEnabled(s, MarkExpired(id))
    requires s.pins[s.sessions[id].pass.owner].version == s.sessions[id].pass.seen.version
    ensures var s' := CollectStep(s, MarkExpired(id));
            PinsMove(s, s') && PinsOk(s') && WireOk(s') && Dead(s', s.sessions[id].pass.owner)
  {
    hide PassOk;
    var s', p := CollectStep(s, MarkExpired(id)), s.sessions[id].pass;
    assert SessionOk(s, s.sessions[id]);
    assert s.pins[p.owner] == p.seen;
    TakingMoves(s, s', p.owner);
    TakingKeepsWire(s, s', p.owner);
    NowDead(s, s', p.owner);
    forall owner | owner in s.pins ensures PinOk(s', owner) {
      assert PinOk(s, owner);
      PinOkMoves(s, s', owner);
    }
  }

  lemma MarkedIsScanned(s: State, s': State, p: Pass)
    requires PinsMove(s, s') && p.Expiring? && p.owner in s'.pins && PassOk(s, p) && Dead(s', p.owner)
    ensures ScanOk(s', p.start, p.owners, p.pinned)
  {
    hide Dead;
    forall owner | owner in s'.pins ensures owner in p.owners || Covered(s', owner, p.pinned) {
      if owner !in p.owners && owner != p.owner { CoverageMoves(s, s', owner, p.pinned); }
    }
  }

  lemma MarkKeepsInv(s: State, id: Id)
    requires Inv(s) && CollectEnabled(s, MarkExpired(id))
    ensures Inv(CollectStep(s, MarkExpired(id)))
  {
    hide PinsOk, WireOk, PinsMove, ScanOk, AllCovered;
    var s', c := CollectStep(s, MarkExpired(id)), s.sessions[id];
    assert SessionOk(s, c);
    if s.pins[c.pass.owner].version == c.pass.seen.version {
      MarkKeepsPins(s, id);
      SameClaims(s, s');
      if c.generation == s.generation { MarkedIsScanned(s, s', c.pass); }
      MarkedStarted(s, s', c.pass);
      forall i | i in s'.sessions ensures SessionOk(s', s'.sessions[i]) {
        if i != id { SessionMoves(s, s', s.sessions[i]); }
      }
    } else {
      PinsKeepBlocks(s, s');
      SameStore(s, s', id);
    }
  }

  lemma SameClaims(s: State, s': State)
    requires PinsMove(s, s')
    ensures s'.generation == s.generation && s'.roots == s.roots && s'.blocks == s.blocks && s'.current == s.current
  {
  }

  lemma MarkedStarted(s: State, s': State, p: Pass)
    requires PinsMove(s, s') && p.Expiring? && PassShape(s, p)
    ensures p.start <= s'.now
  {
  }

  /** A pin is written over an absent or expired one, under the claim, for a root found present. */
  lemma WritePinKeepsInv(s: State, e: Event)
    requires Inv(s) && PinEnabled(s, e) && e.WritePin?
    ensures Inv(PinStep(s, e))
  {
    hide PassOk;
    var s', p := PinStep(s, e), s.sessions[e.id];
    assert SessionOk(s, p);
    forall w | w in s'.wire ensures WriteOk(s', w) { assert WriteOk(s, w); }
    forall owner | owner in s'.pins ensures PinOk(s', owner) {
      if owner == p.owner {
        assert (owner, e.token) !in s.retired;
      } else {
        assert PinOk(s, owner);
        OtherFate(s, s', owner);
      }
    }
    forall i | i in s'.sessions ensures SessionOk(s', s'.sessions[i]) {
      assert SessionOk(s, s.sessions[i]);
    }
  }

  lemma OtherFate(s: State, s': State, owner: string)
    requires owner in s.pins && owner in s'.pins && s'.pins[owner] == s.pins[owner]
             && s'.wire == s.wire && s'.now == s.now
    ensures Dead(s, owner) <==> Dead(s', owner)
  {
    StillDead(s, s', owner);
    StillDead(s', s, owner);
  }

  // ------------------------------------------------------------------------------ claims passing on

  lemma BeginKeepsInv(s: State, id: Id, x: Session)
    requires Inv(s) && id !in s.sessions && x.generation == s.generation + 1
    requires SessionFacts(Begin(s, id, x), x) && (x.Collector? ==> x.pass.Starting? && x.policy.keep > 0)
    ensures Inv(Begin(s, id, x))
  {
    hide PassOk;
    var s' := Begin(s, id, x);
    PinsKeepBlocks(s, s');
    forall w | w in s'.wire ensures WriteOk(s', w) { assert WriteOk(s, w); }
    forall i | i in s'.sessions ensures SessionOk(s', s'.sessions[i]) {
      if i != id { assert SessionOk(s, s.sessions[i]); }
    }
  }

  lemma BeginStepKeepsInv(s: State, e: Event)
    requires Inv(s) && BeginEnabled(s, e)
    ensures Inv(BeginStep(s, e))
  {
    hide Inv;
    if e.Tick? {
      TickKeepsInv(s, e.t);
    } else {
      BeginKeepsInv(s, e.id, BeginStep(s, e).sessions[e.id]);
    }
  }

  // ------------------------------------------------------------------------------------ the pass

  lemma BlocksOfMember(roots: set<Root>, r: Root)
    requires r in roots
    ensures r.blocks <= BlocksOf(roots)
  {
  }

  /** The blocks a pass spares include those of every root it listed, kept or removed, and every pinned one. */
  lemma LiveCoversListed(memory: set<Root>, listed: set<Root>, kept: set<Root>, removed: set<Root>, pinned: set<Root>)
    requires kept <= memory && listed <= kept + removed
    ensures var live := LiveBlocks(memory, listed, kept, removed, pinned);
            BlocksOf(listed) <= live && BlocksOf(pinned) <= live
  {
    var all := Surviving(memory, listed, kept) + removed + pinned;
    forall r | r in listed || r in pinned ensures r.blocks <= BlocksOf(all) {
      BlocksOfMember(all, r);
    }
  }

  /** Reading a pin: already marked, expired, or alive. */
  lemma ScanKeepsFacts(s: State, p: Pass, owner: string)
    requires Inv(s) && p.Scanning? && owner in p.owners && owner in s.pins && PassShape(s, p)
    ensures var q := Examine(p.start, p.owners, p.pinned, owner, s.pins[owner]);
            PassShape(s, q) && (PassOk(s, p) ==> PassOk(s, q))
  {
    var q := Examine(p.start, p.owners, p.pinned, owner, s.pins[owner]);
    if s.pins[owner].record.until == 0 {
      forall w ensures !RenewalMatches(s, w, owner, s.pins[owner].version) {
        if w in s.wire { assert WriteOk(s, w); }
      }
      assert Dead(s, owner);
    }
    if PassOk(s, p) {
      forall o | o in s.pins
        ensures o in (if q.Scanning? then q.owners else q.owners + {owner}) || Covered(s, o, q.pinned) {
      }
    }
  }

  lemma {:induction false} SubsetCard(a: set<Root>, b: set<Root>)
    requires a <= b
    ensures |a| <= |b| && (|a| == |b| ==> a == b)
  {
    if a != {} {
      var r :| r in a;
      SubsetCard(a - {r}, b - {r});
    } else if b != {} {
      var r :| r in b;
    }
  }

  /** Whatever is not among the newest has enough roots at or above it, and the newest have few above them. */
  lemma NewestRank(newest: set<Root>, listed: set<Root>, keep: nat, r: Root)
    requires IsNewest(newest, listed, keep) && r in listed && keep > 0
    ensures r !in newest ==> |AtOrAbove(listed, r)| >= keep
    ensures r in newest ==> |Above(listed, r)| < keep
  {
    SubsetCard(newest, listed);
    if r !in newest {
      SubsetCard(newest, AtOrAbove(listed, r));
    } else {
      SubsetCard(Above(listed, r), newest - {r});
    }
  }

  lemma ListingGuards(s: State, e: Event)
    requires Inv(s) && CollectEnabled(s, e) && e.ListRoots? && s.sessions[e.id].policy.keep > 0
    ensures GuardOk(s, CollectStep(s, e).sessions[e.id])
  {
    hide RootsOk, PinsOk, WireOk, SessionFacts, PassShape, AtOrAbove, Above;
    var c, x := s.sessions[e.id], CollectStep(s, e).sessions[e.id];
    var p := x.pass;
    SubsetCard(e.newest, p.listed * p.guarded);
    forall r | r in p.listed ensures r !in e.newest ==> |AtOrAbove(p.listed, r)| >= c.policy.keep
                             ensures r in e.newest ==> |Above(p.listed, r)| < c.policy.keep {
      NewestRank(e.newest, p.listed, c.policy.keep, r);
    }
    assert SessionOk(s, c);
    if x.generation == s.generation { ListingSeesCurrent(s, c); }
  }

  lemma ListingSeesCurrent(s: State, c: Session)
    requires SessionOk(s, c) && c.generation == s.generation && c.Collector? && c.pass.Listing?
    ensures c.pass.current == s.current
  {
  }

  predicate ReadsPins(e: Event) { e.StartScan? || e.ScanPin? || e.EndScan? || e.LoadCurrent? }

  predicate SortsRoots(e: Event) { e.ListRoots? || e.KeepRoot? || e.Remember? || e.EndRoots? }

  lemma ReadingKeepsFacts(s: State, e: Event)
    requires Inv(s) && CollectEnabled(s, e) && ReadsPins(e)
    ensures SessionOk(s, CollectStep(s, e).sessions[e.id])
  {
    hide Dead, WriteOk, Covered, LiveBlocks, BlocksOf;
    assert SessionOk(s, s.sessions[e.id]);
    if e.ScanPin? { ScanKeepsFacts(s, s.sessions[e.id].pass, e.owner); }
  }

  lemma SortingKeepsFacts(s: State, e: Event)
    requires Inv(s) && CollectEnabled(s, e) && SortsRoots(e)
    ensures SessionOk(s, CollectStep(s, e).sessions[e.id])
  {
    hide GuardOk, PassOk, PassShape, RootsOk, PinsOk, IsNewest, LiveBlocks;
    var c := s.sessions[e.id];
    assert SessionOk(s, c);
    SortingKeepsPass(s, e);
    if e.ListRoots? { ListingGuards(s, e); }
    if e.KeepRoot? || e.Remember? { SameGuard(s, c, CollectStep(s, e).sessions[e.id]); }
  }

  lemma SameGuard(s: State, c: Session, x: Session)
    requires c.Collector? && c.pass.Removing? && GuardOk(s, c)
    requires x.Collector? && x.pass.Removing? && x == c.(pass := x.pass)
    requires x.pass == c.pass.(todo := x.pass.todo, kept := x.pass.kept, memory := x.pass.memory)
    ensures GuardOk(s, x)
  {
  }

  lemma SortingKeepsPass(s: State, e: Event)
    requires Inv(s) && CollectEnabled(s, e) && SortsRoots(e)
    ensures var c, p := s.sessions[e.id], CollectStep(s, e).sessions[e.id].pass;
            PassShape(s, p) && (c.generation == s.generation ==> PassOk(s, p))
  {
    hide Dead, WriteOk, Covered, LiveBlocks, BlocksOf, RootsOk, PinsOk, IsNewest, ScanOk, GuardOk;
    var c := s.sessions[e.id];
    assert SessionOk(s, c);
    if e.EndRoots? {
      LiveCoversListed(c.pass.memory, c.pass.listed, c.pass.kept, c.pass.removed, c.pass.pinned);
    }
  }

  lemma NotesKeepInv(s: State, e: Event)
    requires Inv(s) && CollectEnabled(s, e)
    requires ReadsPins(e) || SortsRoots(e)
    ensures Inv(CollectStep(s, e))
  {
    hide PassOk, PassShape, PinsOk, WriteOk, LiveBlocks, Examine;
    var s' := CollectStep(s, e);
    if ReadsPins(e) { ReadingKeepsFacts(s, e); } else { SortingKeepsFacts(s, e); }
    PinsKeepBlocks(s, s');
    FactsSame(s, s', s'.sessions[e.id]);
    SameStore(s, s', e.id);
  }

  lemma RemoveKeepsInv(s: State, e: Event)
    requires Inv(s) && CollectEnabled(s, e) && e.RemoveRoot?
    ensures Inv(CollectStep(s, e))
  {
    hide PinsOk, WriteOk, Dead;
    var s' := CollectStep(s, e);
    assert SessionOk(s, s.sessions[e.id]);
    PinsKeepBlocks(s, s');
    forall owner, pinned | owner in s.pins && Covered(s, owner, pinned) ensures Covered(s', owner, pinned) {
      CoveredSame(s, s', owner, pinned);
    }
    HolderStep(s, s', e.id);
  }

  /** A block that is neither listed nor pinned: no root and no living pin needs it. */
  lemma SweepKeepsInv(s: State, e: Event)
    requires Inv(s) && CollectEnabled(s, e) && e.SweepBlock?
    ensures Inv(CollectStep(s, e))
  {
    hide WriteOk, Dead, PinsOk;
    var s', p := CollectStep(s, e), s.sessions[e.id].pass;
    assert SessionOk(s, s.sessions[e.id]);
    forall r | r in s.roots ensures r.blocks <= s'.blocks { BlocksOfMember(p.listed, r); }
    forall owner | owner in s.pins && !Dead(s, owner) ensures s.pins[owner].record.root.blocks <= s'.blocks {
      assert Covered(s, owner, p.pinned);
      BlocksOfMember(p.pinned, s.pins[owner].record.root);
      LivePinHasBlocks(s, owner);
    }
    PinsSurvive(s, s');
    forall owner, pinned | owner in s.pins && Covered(s, owner, pinned) ensures Covered(s', owner, pinned) {
      CoveredSame(s, s', owner, pinned);
    }
    HolderStep(s, s', e.id);
  }

  lemma LivePinHasBlocks(s: State, owner: string)
    requires PinsOk(s) && owner in s.pins && !Dead(s, owner)
    ensures s.pins[owner].record.root.blocks <= s.blocks
  {
    assert PinOk(s, owner);
  }

  lemma PinStepKeepsInv(s: State, e: Event)
    requires Inv(s) && PinEnabled(s, e)
    ensures Inv(PinStep(s, e))
  {
    hide Inv;
    match e
    case CheckRoot(_, _) => PinnerKeepsInv(s, e);
    case ReadSlot(_, _) => PinnerKeepsInv(s, e);
    case WritePin(_, _, _) => WritePinKeepsInv(s, e);
    case RenewPin(owner, until) =>
      SendKeepsInv(s, PinWrite(owner, s.pins[owner].version, s.pins[owner].record.(until := until), true));
    case ClosePin(owner) =>
      SendKeepsInv(s, PinWrite(owner, s.pins[owner].version, s.pins[owner].record.(until := s.now), false));
    case LandPin(w) => LandKeepsInv(s, w);
    case _ =>
  }

  lemma StepKeepsInv(s: State, e: Event)
    requires Inv(s)
    ensures Inv(After(s, e))
  {
    hide Inv, BeginStep, PublishStep, PinStep, CollectStep;
    if BeginEnabled(s, e) {
      BeginStepKeepsInv(s, e);
    } else if PublishEnabled(s, e) {
      PublishKeepsInv(s, e);
    } else if PinEnabled(s, e) {
      PinStepKeepsInv(s, e);
    } else if CollectEnabled(s, e) {
      if e.MarkExpired? {
        MarkKeepsInv(s, e.id);
      } else if e.RemoveRoot? {
        RemoveKeepsInv(s, e);
      } else if e.SweepBlock? {
        SweepKeepsInv(s, e);
      } else {
        NotesKeepInv(s, e);
      }
    }
  }

  lemma {:induction false} TraceKeepsInv(s: State, es: seq<Event>)
    requires Inv(s)
    ensures Inv(Trace(s, es))
    decreases |es|
  {
    hide Inv, After;
    if es != [] {
      StepKeepsInv(s, es[0]);
      TraceKeepsInv(After(s, es[0]), es[1..]);
    }
  }

  // --------------------------------------------------------------------------------- the theorems

  ghost predicate Reachable(s: State) { exists s0, es :: Init(s0) && Trace(s0, es) == s }

  lemma ReachableInv(s: State)
    requires Reachable(s)
    ensures Inv(s)
  {
    var s0, es :| Init(s0) && Trace(s0, es) == s;
    assert Inv(s0);
    TraceKeepsInv(s0, es);
  }

  lemma {:induction false} TraceLast(s: State, es: seq<Event>, e: Event)
    ensures Trace(s, es + [e]) == After(Trace(s, es), e)
    decreases |es|
  {
    hide After;
    if es == [] {
      assert (es + [e])[1..] == [];
    } else {
      assert (es + [e])[1..] == es[1..] + [e];
      TraceLast(After(s, es[0]), es[1..], e);
    }
  }

  lemma ReachableStep(s: State, e: Event)
    requires Reachable(s)
    ensures Reachable(After(s, e))
  {
    hide After;
    var s0, es :| Init(s0) && Trace(s0, es) == s;
    TraceLast(s0, es, e);
  }

  lemma ReachableStart(s: State)
    requires Init(s)
    ensures Reachable(s)
  {
    assert Trace(s, []) == s;
  }

  /** Every stored root, the root of every unexpired pin and the root of CURRENT can be restored. */
  lemma GcSafety(s: State)
    requires Reachable(s)
    ensures forall r | r in s.roots :: r.blocks <= s.blocks
    ensures forall owner | owner in s.pins && s.pins[owner].record.until > s.now ::
              s.pins[owner].record.root.blocks <= s.blocks
    ensures s.current.Some? ==> s.current.value in s.roots && s.current.value.blocks <= s.blocks
  {
    ReachableInv(s);
    forall owner | owner in s.pins && s.pins[owner].record.until > s.now
      ensures s.pins[owner].record.root.blocks <= s.blocks
    {
      assert PinOk(s, owner);
    }
  }

  /** A pass deletes no block of a root it listed, whether it then kept or removed it, nor of a pinned root. */
  lemma PassSparesListedBlocks(s: State, id: Id, b: Block, r: Root)
    requires Reachable(s) && CollectEnabled(s, SweepBlock(id, b))
    requires r in s.sessions[id].pass.listed || r in s.sessions[id].pass.pinned
    ensures b !in r.blocks
  {
    ReachableInv(s);
    assert SessionOk(s, s.sessions[id]);
    var p := s.sessions[id].pass;
    if r in p.listed { BlocksOfMember(p.listed, r); } else { BlocksOfMember(p.pinned, r); }
  }

  /** Pin objects stay and their versions never fall. */
  ghost predicate PinsGrow(s: State, s': State) {
    forall owner | owner in s.pins :: owner in s'.pins && s.pins[owner].version <= s'.pins[owner].version
  }

  lemma BeginFrame(s: State, e: Event)
    requires BeginEnabled(s, e)
    ensures var t := BeginStep(s, e); t.pins == s.pins && t.retired == s.retired && t.roots == s.roots
  {
  }

  lemma PublishFrame(s: State, e: Event)
    requires PublishEnabled(s, e)
    ensures var t := PublishStep(s, e); t.pins == s.pins && t.retired == s.retired && s.roots <= t.roots
  {
    hide Chooses, BlocksOf, CurrentSet;
  }

  lemma PinFrame(s: State, e: Event)
    requires PinEnabled(s, e)
    ensures var t := PinStep(s, e); PinsGrow(s, t) && t.retired == s.retired && t.roots == s.roots
  {
  }

  lemma CollectFrame(s: State, e: Event)
    requires CollectEnabled(s, e)
    ensures var t := CollectStep(s, e);
            && PinsGrow(s, t) && s.retired <= t.retired
            && t.roots == if e.RemoveRoot? then s.roots - {e.root} else s.roots
  {
    hide IsNewest, BlocksOf, LiveBlocks, Examine, CurrentSet;
  }

  /** What no step undoes. */
  lemma StepFrame(s: State, e: Event)
    ensures PinsGrow(s, After(s, e)) && s.retired <= After(s, e).retired
    ensures s.roots <= After(s, e).roots
            || (CollectEnabled(s, e) && e.RemoveRoot? && After(s, e).roots == s.roots - {e.root})
  {
    hide BeginEnabled, PublishEnabled, PinEnabled, CollectEnabled, BeginStep, PublishStep, PinStep, CollectStep;
    if BeginEnabled(s, e) {
      BeginFrame(s, e);
    } else if PublishEnabled(s, e) {
      PublishFrame(s, e);
    } else if PinEnabled(s, e) {
      PinFrame(s, e);
    } else if CollectEnabled(s, e) {
      CollectFrame(s, e);
    }
  }

  lemma RootLeaves(s: State, e: Event, r: Root)
    requires r in s.roots && r !in After(s, e).roots
    ensures CollectEnabled(s, e) && e == RemoveRoot(e.id, r)
  {
    hide After, CollectEnabled;
    StepFrame(s, e);
  }

  /**
   * A root leaves only below the floor, never while it is CURRENT or a living pin names it, and only if the pass has
   * listed as many other roots, at or above its index, as it is to keep.
   */
  lemma OnlyUnneededRootsLeave(s: State, e: Event, r: Root)
    requires Reachable(s) && r in s.roots && r !in After(s, e).roots
    ensures s.current != Some(r)
    ensures forall owner | owner in s.pins && s.pins[owner].record.until > s.now :: s.pins[owner].record.root != r
    ensures CollectEnabled(s, e) && e == RemoveRoot(e.id, r) && r !in s.sessions[e.id].policy.retain
    ensures r.index < s.sessions[e.id].policy.floor
    ensures var p := s.sessions[e.id].pass;
            && p.Removing? && r in p.listed
            && |set q | q in p.listed && q != r && q.index >= r.index| >= s.sessions[e.id].policy.keep
  {
    hide Chooses, IsNewest, BlocksOf, LiveBlocks, Examine;
    RootLeaves(s, e, r);
    ReachableInv(s);
    assert SessionOk(s, s.sessions[e.id]);
    var p := s.sessions[e.id].pass;
    forall owner | owner in s.pins && s.pins[owner].record.until > s.now ensures s.pins[owner].record.root != r {
      assert Covered(s, owner, p.pinned);
    }
    assert AtOrAbove(p.listed, r) == set q | q in p.listed && q != r && q.index >= r.index;
  }

  /** However far it has got, a pass leaves as many of the roots it listed as it is to keep, if there were as many. */
  lemma PassKeepsEnough(s: State, id: Id)
    requires Reachable(s) && IsCollector(s, id) && s.sessions[id].pass.Removing?
    ensures var p, keep := s.sessions[id].pass, s.sessions[id].policy.keep;
            |p.listed - p.removed| >= if |p.listed| < keep then |p.listed| else keep
  {
    hide PassOk, PassShape, RootsOk, PinsOk, WireOk, CurrentOk, AtOrAbove, Above;
    ReachableInv(s);
    assert SessionOk(s, s.sessions[id]);
    var p := s.sessions[id].pass;
    SubsetCard(p.listed * p.guarded, p.listed - p.removed);
  }

  /**
   * And nothing else is held back: under its claim a pass may remove any root it has yet to decide about that lies
   * below the floor, is not retained, pinned or CURRENT, and has as many roots above its index as are to be kept.
   */
  lemma UnneededRootMayLeave(s: State, id: Id, r: Root)
    requires Reachable(s) && IsCollector(s, id) && Holds(s, id) && s.sessions[id].pass.Removing?
    requires r in s.sessions[id].pass.todo && r.index < s.sessions[id].policy.floor
    requires r !in s.sessions[id].policy.retain && r !in s.sessions[id].pass.pinned && s.current != Some(r)
    requires |set q | q in s.sessions[id].pass.listed && q.index > r.index| >= s.sessions[id].policy.keep
    ensures var t := After(s, RemoveRoot(id, r)); t.roots == s.roots - {r} && t.blocks == s.blocks
  {
    hide RootsOk, PinsOk, WireOk, CurrentOk, AtOrAbove;
    ReachableInv(s);
    assert SessionOk(s, s.sessions[id]);
    var p := s.sessions[id].pass;
    assert Above(p.listed, r) == set q | q in p.listed && q.index > r.index;
  }

  /** Between its listing and its merge a pass spares exactly the blocks of its manager's and the pinned roots. */
  lemma LiveIsExact(s: State, id: Id)
    requires Reachable(s) && IsCollector(s, id) && s.sessions[id].pass.Removing? && s.sessions[id].pass.todo == {}
    ensures var p, t := s.sessions[id].pass, After(s, EndRoots(id));
            && p.listed <= p.memory && IsCollector(t, id)
            && t.sessions[id].pass.Sweeping?
            && forall b :: b in t.sessions[id].pass.live <==> exists r :: r in p.memory + p.pinned && b in r.blocks
  {
    hide RootsOk, PinsOk, WireOk, CurrentOk, PassOk, GuardOk;
    ReachableInv(s);
    assert SessionOk(s, s.sessions[id]);
    var p := s.sessions[id].pass;
    assert Surviving(p.memory, p.listed, p.kept) + p.removed + p.pinned == p.memory + p.pinned;
  }

  /** And a sweep may delete any block that is not spared. */
  lemma UnsparedBlockMayLeave(s: State, id: Id, b: Block)
    requires IsCollector(s, id) && Holds(s, id) && s.sessions[id].pass.Sweeping? && b !in s.sessions[id].pass.live
    ensures After(s, SweepBlock(id, b)).blocks == s.blocks - {b}
  {
  }

  /** Whatever the contents, a publisher that has read CURRENT finds a key to store them under. */
  lemma EveryContentHasAKey(s: State, id: Id, hash: nat) returns (b: Block)
    requires Reachable(s) && IsPublisher(s, id) && Holds(s, id) && s.sessions[id].known.Some?
    ensures b.hash == hash
    ensures b in After(s, PutBlock(id, b)).blocks && b in After(s, PutBlock(id, b)).sessions[id].chosen
    ensures b !in s.blocks || b in s.sessions[id].known.value || b.generation == s.sessions[id].generation
  {
    var p := s.sessions[id];
    if k :| k in p.known.value && k.hash == hash {
      b := k;
    } else if Block(hash, 0) !in s.blocks {
      b := Block(hash, 0);
    } else {
      b := Block(hash, p.generation);
    }
    assert Chooses(s, p, b);
  }

  /** A renewal that finds the pin as it read it moves the expiry to what was asked for, and nothing else. */
  lemma RenewalTakesEffect(s: State, owner: string, until: nat)
    requires owner in s.pins && s.pins[owner].record.until > s.now && until >= s.now
    ensures var w := PinWrite(owner, s.pins[owner].version, s.pins[owner].record.(until := until), true);
            var t := After(After(s, RenewPin(owner, until)), LandPin(w));
            && owner in t.pins && t.pins[owner].record.until == until
            && t.pins[owner].record.root == s.pins[owner].record.root
            && t.pins[owner].record.token == s.pins[owner].record.token
  {
    hide Chooses, IsNewest, BlocksOf, LiveBlocks, Examine, CurrentSet;
    var w := PinWrite(owner, s.pins[owner].version, s.pins[owner].record.(until := until), true);
    var m := After(s, RenewPin(owner, until));
    assert m == s.(wire := s.wire + {w});
  }

  /** A close that does ends it at once. */
  lemma CloseTakesEffect(s: State, owner: string)
    requires owner in s.pins
    ensures var w := PinWrite(owner, s.pins[owner].version, s.pins[owner].record.(until := s.now), false);
            var t := After(After(s, ClosePin(owner)), LandPin(w));
            && owner in t.pins && t.pins[owner].record.until == t.now
            && t.pins[owner].record.root == s.pins[owner].record.root
  {
    hide Chooses, IsNewest, BlocksOf, LiveBlocks, Examine, CurrentSet;
    var w := PinWrite(owner, s.pins[owner].version, s.pins[owner].record.(until := s.now), false);
    assert After(s, ClosePin(owner)) == s.(wire := s.wire + {w});
  }

  /** A pin taken for a root found stored names that root, under a fresh token, until the time asked for. */
  lemma PinIsTaken(s: State, id: Id, token: nat, until: nat)
    requires Reachable(s) && IsPinner(s, id) && Holds(s, id) && s.sessions[id].root.Some? && token !in s.tokens
    requires var owner := s.sessions[id].owner;
             s.sessions[id].seen == Some(if owner in s.pins then s.pins[owner].version else 0)
    ensures var owner, t := s.sessions[id].owner, After(s, WritePin(id, token, until));
            && owner in t.pins && t.pins[owner].record == PinRecord(token, s.sessions[id].root.value, until)
            && t.pins[owner].record.root in t.roots && t.pins[owner].record.root.blocks <= t.blocks
  {
    hide PassOk, PassShape, PinsOk, WireOk;
    ReachableInv(s);
    assert SessionOk(s, s.sessions[id]);
  }

  lemma {:induction false} RetiredStays(s: State, es: seq<Event>)
    ensures s.retired <= Trace(s, es).retired
    decreases |es|
  {
    hide After;
    if es != [] {
      StepFrame(s, es[0]);
      RetiredStays(After(s, es[0]), es[1..]);
    }
  }

  /** A pin some pass marked expired is expired for good: nothing on the wire or sent later renews it. */
  lemma MarkedPinsAreNeverRenewed(s: State, es: seq<Event>, owner: string, token: nat)
    requires Reachable(s) && (owner, token) in s.retired
    ensures var t := Trace(s, es);
            owner in t.pins && t.pins[owner].record.token == token ==>
              && t.pins[owner].record.until <= t.now
              && forall w | w in t.wire && w.renews && w.owner == owner :: PinStep(t, LandPin(w)) == t
  {
    hide After;
    ReachableInv(s);
    TraceKeepsInv(s, es);
    RetiredStays(s, es);
    var t := Trace(s, es);
    if owner in t.pins && t.pins[owner].record.token == token {
      assert PinOk(t, owner);
      forall w | w in t.wire && w.renews && w.owner == owner ensures PinStep(t, LandPin(w)) == t {
        assert !RenewalMatches(t, w, owner, t.pins[owner].version);
      }
    }
  }

  lemma BeginLeavesPasses(s: State, e: Event, id: Id)
    requires IsCollector(s, id) && BeginEnabled(s, e)
    ensures IsCollector(BeginStep(s, e), id) && BeginStep(s, e).sessions[id] == s.sessions[id]
  {
  }

  lemma PublishLeavesPasses(s: State, e: Event, id: Id)
    requires IsCollector(s, id) && PublishEnabled(s, e)
    ensures IsCollector(PublishStep(s, e), id) && PublishStep(s, e).sessions[id] == s.sessions[id]
  {
    hide Chooses, BlocksOf, CurrentSet;
  }

  lemma PinLeavesPasses(s: State, e: Event, id: Id)
    requires IsCollector(s, id) && PinEnabled(s, e)
    ensures IsCollector(PinStep(s, e), id) && PinStep(s, e).sessions[id] == s.sessions[id]
  {
  }

  lemma CollectLeavesPasses(s: State, e: Event, id: Id)
    requires IsCollector(s, id) && CollectEnabled(s, e)
    ensures IsCollector(CollectStep(s, e), id) && CollectStep(s, e).sessions[id].policy == s.sessions[id].policy
    ensures e.id != id ==> CollectStep(s, e).sessions[id] == s.sessions[id]
  {
    hide IsNewest, BlocksOf, LiveBlocks, Examine, CurrentSet;
  }

  /** A pass moves only by its own steps. */
  lemma OnlyOwnSteps(s: State, e: Event, id: Id)
    requires IsCollector(s, id)
    ensures IsCollector(After(s, e), id)
    ensures After(s, e).sessions[id] == s.sessions[id]
            || (CollectEnabled(s, e) && e.id == id && After(s, e) == CollectStep(s, e))
  {
    hide BeginEnabled, PublishEnabled, PinEnabled, CollectEnabled, BeginStep, PublishStep, PinStep, CollectStep;
    if BeginEnabled(s, e) {
      BeginLeavesPasses(s, e, id);
    } else if PublishEnabled(s, e) {
      PublishLeavesPasses(s, e, id);
    } else if PinEnabled(s, e) {
      PinLeavesPasses(s, e, id);
    } else if CollectEnabled(s, e) {
      CollectLeavesPasses(s, e, id);
      HasId(s, e);
    }
  }

  lemma HasId(s: State, e: Event)
    requires CollectEnabled(s, e)
    ensures !e.Tick? && !e.RenewPin? && !e.ClosePin? && !e.LandPin?
  {
  }

  /** A pass about to mark a pin keeps waiting until it does. */
  lemma WaitingPass(s: State, e: Event, id: Id)
    requires IsCollector(s, id) && s.sessions[id].pass.Expiring?
    ensures var t := After(s, e);
            id in t.sessions && (t.sessions[id] == s.sessions[id] || e == MarkExpired(id))
  {
    hide After, CollectStep;
    OnlyOwnSteps(s, e, id);
  }

  lemma AbortedIsFinal(s: State, e: Event, id: Id)
    requires IsCollector(s, id) && s.sessions[id].pass.Aborted?
    ensures id in After(s, e).sessions && After(s, e).sessions[id] == s.sessions[id]
  {
    hide After, CollectStep;
    OnlyOwnSteps(s, e, id);
  }

  lemma {:induction false} AbortedForever(s: State, es: seq<Event>, id: Id)
    requires IsCollector(s, id) && s.sessions[id].pass.Aborted?
    ensures id in Trace(s, es).sessions && Trace(s, es).sessions[id] == s.sessions[id]
    decreases |es|
  {
    hide After;
    if es != [] {
      AbortedIsFinal(s, es[0], id);
      AbortedForever(After(s, es[0]), es[1..], id);
    }
  }

  /** Once the pin has moved past the version the pass read, the pass can only abort. */
  lemma {:induction false} LosingPassAborts(s: State, es: seq<Event>, id: Id)
    requires Inv(s) && IsCollector(s, id) && s.sessions[id].pass.Expiring?
    requires s.sessions[id].pass.owner in s.pins
    requires s.pins[s.sessions[id].pass.owner].version > s.sessions[id].pass.seen.version
    ensures IsCollector(Trace(s, es), id)
    ensures var pass := Trace(s, es).sessions[id].pass; pass == s.sessions[id].pass || pass.Aborted?
    decreases |es|
  {
    hide Inv, After;
    if es != [] {
      var t := After(s, es[0]);
      StepKeepsInv(s, es[0]);
      StepFrame(s, es[0]);
      WaitingPass(s, es[0], id);
      if t.sessions[id] == s.sessions[id] {
        LosingPassAborts(t, es[1..], id);
      } else {
        LosingMark(s, id);
        AbortedForever(t, es[1..], id);
      }
    }
  }

  lemma LosingMark(s: State, id: Id)
    requires IsCollector(s, id) && s.sessions[id].pass.Expiring? && s.sessions[id].pass.owner in s.pins
    requires s.pins[s.sessions[id].pass.owner].version != s.sessions[id].pass.seen.version
    ensures var t := After(s, MarkExpired(id));
            IsCollector(t, id) && t.sessions[id].pass.Aborted? && t.pins == s.pins && t.retired == s.retired
  {
  }

  /** A renewal that wins the race makes the pass that read the pin as expired abort without deleting anything. */
  lemma WinningRenewalAbortsThePass(s: State, id: Id, w: PinWrite, es: seq<Event>)
    requires Reachable(s) && IsCollector(s, id) && s.sessions[id].pass.Expiring?
    requires w in s.wire && w.owner == s.sessions[id].pass.owner && After(s, LandPin(w)) != s
    ensures var t := Trace(After(s, LandPin(w)), es);
            IsCollector(t, id) && (t.sessions[id].pass == s.sessions[id].pass || t.sessions[id].pass.Aborted?)
    ensures var t := Trace(After(s, LandPin(w)), es);
            forall e | CollectEnabled(t, e) && e.id == id :: e == MarkExpired(id)
  {
    hide Reachable, Inv, After, IsNewest;
    ReachableInv(s);
    var t := After(s, LandPin(w));
    StepKeepsInv(s, LandPin(w));
    LandedPast(s, id, w);
    LosingPassAborts(t, es, id);
    forall e | CollectEnabled(Trace(t, es), e) && e.id == id ensures e == MarkExpired(id) {
      OnlyMarking(Trace(t, es), e, id);
    }
  }

  /** A pin write that takes effect moves the pin past whatever version a pass has read. */
  lemma LandedPast(s: State, id: Id, w: PinWrite)
    requires Inv(s) && IsCollector(s, id) && s.sessions[id].pass.Expiring?
    requires w in s.wire && w.owner == s.sessions[id].pass.owner && After(s, LandPin(w)) != s
    ensures var t := After(s, LandPin(w));
            t.sessions == s.sessions && w.owner in t.pins
            && t.pins[w.owner].version > s.sessions[id].pass.seen.version
  {
    hide RootsOk, PinsOk, WriteOk, PassOk;
    assert SessionOk(s, s.sessions[id]);
  }

  lemma OnlyMarking(s: State, e: Event, id: Id)
    requires IsCollector(s, id) && (s.sessions[id].pass.Expiring? || s.sessions[id].pass.Aborted?)
    requires CollectEnabled(s, e) && e.id == id
    ensures e == MarkExpired(id)
  {
    hide IsNewest;
  }

  /** A block of a kept root the manager no longer lists, which nothing that the pass goes on with shares. */
  ghost predicate Lost(memory: set<Root>, listed: set<Root>, kept: set<Root>, removed: set<Root>, pinned: set<Root>,
                       r: Root, b: Block)
  {
    && r in kept && r !in memory && b in r.blocks
    && forall q | q in Surviving(memory, listed, kept) + removed + pinned :: b !in q.blocks
  }

  /** A pass spares what it listed exactly when no block is lost with a root its manager's own list dropped. */
  lemma SparesListedIff(memory: set<Root>, listed: set<Root>, kept: set<Root>, removed: set<Root>, pinned: set<Root>)
    requires listed == kept + removed
    ensures BlocksOf(listed) <= LiveBlocks(memory, listed, kept, removed, pinned)
            <==> !exists r, b :: Lost(memory, listed, kept, removed, pinned, r, b)
  {
    var live := LiveBlocks(memory, listed, kept, removed, pinned);
    forall r, b | Lost(memory, listed, kept, removed, pinned, r, b) ensures b in BlocksOf(listed) && b !in live {
      BlocksOfMember(listed, r);
    }
    forall b | b in BlocksOf(listed) && b !in live
      ensures exists r :: Lost(memory, listed, kept, removed, pinned, r, b)
    {
      var r :| r in listed && b in r.blocks;
      assert Lost(memory, listed, kept, removed, pinned, r, b);
    }
  }

  lemma LosesBlock(memory: set<Root>, listed: set<Root>, kept: set<Root>, removed: set<Root>, pinned: set<Root>,
                   r: Root, b: Block)
    requires Lost(memory, listed, kept, removed, pinned, r, b)
    ensures b !in LiveBlocks(memory, listed, kept, removed, pinned)
  {
  }
}
