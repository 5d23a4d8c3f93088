/**
 * Checkpoint publication, recovery pins and garbage collection on one shared bucket
 * (pkg/checkpoint/checkpoint.go). Publishers, pinners and collectors are sessions, each under its own
 * claim generation; at any moment the stored generation may pass to a new session, which leaves the old
 * one running. Pin renewals and closes need no claim and travel over a wire that may deliver them late.
 *
 * A `Guarded` event, that is a block, root, CURRENT or pin write or a root or block delete, lands while its
 * session's generation is the stored one (`Holds`). `CheckpointLeases` derives this from the leases themselves.
 * Reads, and the expiry of pins, may happen at any time.
 */
module CheckpointGc {
  import opened Options

  type Id = nat

  /** A stored block: content hash, and 0 for the canonical key or the generation that wrote its own copy. */
  datatype Block = Block(hash: nat, generation: nat)

  /** A root descriptor. Its hash covers all of it, so a descriptor stands for its own hash. */
  datatype Root = Root(index: nat, generation: nat, blocks: set<Block>)

  datatype PinRecord = PinRecord(token: nat, root: Root, until: nat)

  /** `version` counts the writes a pin object has taken. */
  datatype Pin = Pin(record: PinRecord, version: nat)

  datatype PinWrite = PinWrite(owner: string, ifMatch: nat, record: PinRecord, renews: bool)

  datatype Policy = Policy(retain: set<Root>, keep: nat, floor: nat)

  /**
   * A collector's progress: reading pins, about to mark one expired pin, about to read CURRENT, about to
   * list roots, deciding root by root, deleting blocks. `memory` is its manager's own list of roots.
   */
  datatype Pass =
    | Starting
    | Scanning(start: nat, owners: set<string>, pinned: set<Root>)
    | Expiring(start: nat, owners: set<string>, pinned: set<Root>, owner: string, seen: Pin)
    | Loading(pinned: set<Root>)
    | Listing(pinned: set<Root>, current: Option<Root>)
    | Removing(pinned: set<Root>, guarded: set<Root>, listed: set<Root>, todo: set<Root>, kept: set<Root>,
               removed: set<Root>, memory: set<Root>)
    | Sweeping(listed: set<Root>, pinned: set<Root>, live: set<Block>)
    | Aborted

  datatype Session =
    | Publisher(generation: nat, known: Option<set<Block>>, chosen: set<Block>, built: set<Root>)
    | Pinner(generation: nat, root: Option<Root>, owner: string, seen: Option<nat>)
    | Collector(generation: nat, policy: Policy, pass: Pass)

  /** `tokens` are all pin tokens drawn so far, `retired` the pins (owner, token) some pass has marked expired. */
  datatype State = State(
    now: nat, generation: nat, sessions: map<Id, Session>, roots: set<Root>, blocks: set<Block>,
    current: Option<Root>, pins: map<string, Pin>, wire: set<PinWrite>, tokens: set<nat>, retired: set<(string, nat)>)

  datatype Event =
    | Tick(t: nat)
    | BeginPublisher(id: Id)
    | BeginPinner(id: Id)
    | BeginCollector(id: Id, policy: Policy)
    | Refresh(id: Id)
    | PutBlock(id: Id, block: Block)
    | PutRoot(id: Id, index: nat, part: set<Block>)
    | Promote(id: Id, root: Root)
    | CheckRoot(id: Id, root: Root)
    | ReadSlot(id: Id, owner: string)
    | WritePin(id: Id, token: nat, until: nat)
    | RenewPin(owner: string, until: nat)
    | ClosePin(owner: string)
    | LandPin(write: PinWrite)
    | StartScan(id: Id)
    | ScanPin(id: Id, owner: string)
    | MarkExpired(id: Id)
    | EndScan(id: Id)
    | LoadCurrent(id: Id)
    | ListRoots(id: Id, newest: set<Root>)
    | KeepRoot(id: Id, root: Root)
    | RemoveRoot(id: Id, root: Root)
    | Remember(id: Id, root: Root)
    | EndRoots(id: Id)
    | SweepBlock(id: Id, block: Block)

  ghost predicate Init(s: State) {
    && s.generation == 0 && s.sessions == map[] && s.roots == {} && s.blocks == {} && s.current == None
    && s.pins == map[] && s.wire == {} && s.tokens == {} && s.retired == {}
  }

  // ------------------------------------------------------------------------------ the step system

  predicate Holds(s: State, id: Id) { id in s.sessions && s.sessions[id].generation == s.generation }

  predicate IsPublisher(s: State, id: Id) { id in s.sessions && s.sessions[id].Publisher? }

  predicate IsPinner(s: State, id: Id) { id in s.sessions && s.sessions[id].Pinner? }

  predicate IsCollector(s: State, id: Id) { id in s.sessions && s.sessions[id].Collector? }

  ghost predicate NoKnown(known: set<Block>, hash: nat) { forall b | b in known :: b.hash != hash }

  /** Reuse a block of CURRENT; else the canonical key if it is free; else this generation's own key. */
  ghost predicate Chooses(s: State, p: Session, b: Block)
    requires p.Publisher? && p.known.Some?
  {
    || b in p.known.value
    || (NoKnown(p.known.value, b.hash) && b.generation == 0 && b !in s.blocks)
    || (NoKnown(p.known.value, b.hash) && b.generation == p.generation && Block(b.hash, 0) in s.blocks)
  }

  function BlocksOf(roots: set<Root>): set<Block> { set r, b | r in roots && b in r.blocks :: b }

  /** The newest `keep` of the listed roots. */
  ghost predicate IsNewest(newest: set<Root>, listed: set<Root>, keep: nat) {
    && newest <= listed && |newest| == (if |listed| < keep then |listed| else keep)
    && forall a, b | a in newest && b in listed - newest :: b.index <= a.index
  }

  /** The other roots at or above a root's index, and those strictly above it. */
  function AtOrAbove(listed: set<Root>, r: Root): set<Root> { set q | q in listed && q != r && q.index >= r.index }

  function Above(listed: set<Root>, r: Root): set<Root> { set q | q in listed && q.index > r.index }

  /** The roots a pass goes on with: its manager's list, less those it examined and did not keep. */
  function Surviving(memory: set<Root>, listed: set<Root>, kept: set<Root>): set<Root> {
    set r | r in memory && (r !in listed || r in kept)
  }

  function LiveBlocks(memory: set<Root>, listed: set<Root>, kept: set<Root>, removed: set<Root>, pinned: set<Root>)
    : set<Block>
  {
    BlocksOf(Surviving(memory, listed, kept) + removed + pinned)
  }

  function CurrentSet(current: Option<Root>): set<Root> { if current.Some? then {current.value} else {} }

  /** The writes and deletes a session makes under its claim. */
  predicate Guarded(e: Event) {
    e.PutBlock? || e.PutRoot? || e.Promote? || e.WritePin? || e.RemoveRoot? || e.SweepBlock?
  }

  ghost predicate PublishReady(s: State, e: Event) {
    match e
    case Refresh(id) => IsPublisher(s, id)
    case PutBlock(id, b) => IsPublisher(s, id) && s.sessions[id].known.Some? && Chooses(s, s.sessions[id], b)
    case PutRoot(id, index, part) => IsPublisher(s, id) && part <= s.sessions[id].chosen
    case Promote(id, root) =>
      && IsPublisher(s, id) && root in s.sessions[id].built && root in s.roots
      && (s.current.Some? ==> s.current.value.index < root.index)
    case _ => false
  }

  ghost predicate PinReady(s: State, e: Event) {
    match e
    case CheckRoot(id, root) => IsPinner(s, id) && root in s.roots
    case ReadSlot(id, owner) =>
      IsPinner(s, id) && (owner in s.pins ==> s.pins[owner].record.until <= s.now)
    case WritePin(id, token, until) =>
      && IsPinner(s, id) && s.sessions[id].root.Some? && s.sessions[id].seen.Some?
      && token !in s.tokens
      && var owner := s.sessions[id].owner;
         s.sessions[id].seen.value == (if owner in s.pins then s.pins[owner].version else 0)
    case RenewPin(owner, until) => owner in s.pins && s.pins[owner].record.until > s.now && until >= s.now
    case ClosePin(owner) => owner in s.pins
    case LandPin(write) => write in s.wire
    case _ => false
  }

  ghost predicate CollectReady(s: State, e: Event) {
    match e
    case StartScan(id) => IsCollector(s, id) && s.sessions[id].pass.Starting?
    case ScanPin(id, owner) =>
      && IsCollector(s, id) && s.sessions[id].pass.Scanning? && owner in s.sessions[id].pass.owners
      && owner in s.pins
    case MarkExpired(id) =>
      IsCollector(s, id) && s.sessions[id].pass.Expiring? && s.sessions[id].pass.owner in s.pins
    case EndScan(id) => IsCollector(s, id) && s.sessions[id].pass.Scanning? && s.sessions[id].pass.owners == {}
    case LoadCurrent(id) => IsCollector(s, id) && s.sessions[id].pass.Loading?
    case ListRoots(id, newest) =>
      && IsCollector(s, id) && s.sessions[id].pass.Listing?
      && IsNewest(newest, s.roots, s.sessions[id].policy.keep)
    case KeepRoot(id, root) =>
      IsCollector(s, id) && s.sessions[id].pass.Removing? && root in s.sessions[id].pass.todo
    case RemoveRoot(id, root) =>
      && IsCollector(s, id) && s.sessions[id].pass.Removing? && root in s.sessions[id].pass.todo
      && root !in s.sessions[id].pass.guarded && root.index < s.sessions[id].policy.floor
    case Remember(id, root) => IsCollector(s, id) && s.sessions[id].pass.Removing?
    case EndRoots(id) => IsCollector(s, id) && s.sessions[id].pass.Removing? && s.sessions[id].pass.todo == {}
    case SweepBlock(id, b) =>
      IsCollector(s, id) && s.sessions[id].pass.Sweeping? && b !in s.sessions[id].pass.live
    case _ => false
  }

  ghost predicate PublishEnabled(s: State, e: Event) { PublishReady(s, e) && (Guarded(e) ==> Holds(s, e.id)) }

  ghost predicate PinEnabled(s: State, e: Event) { PinReady(s, e) && (Guarded(e) ==> Holds(s, e.id)) }

  ghost predicate CollectEnabled(s: State, e: Event) { CollectReady(s, e) && (Guarded(e) ==> Holds(s, e.id)) }

  ghost predicate BeginEnabled(s: State, e: Event) {
    match e
    case Tick(t) => s.now <= t
    case BeginPublisher(id) => id !in s.sessions
    case BeginPinner(id) => id !in s.sessions
    case BeginCollector(id, policy) => id !in s.sessions && policy.floor > 0 && policy.keep > 0
    case _ => false
  }

  ghost function Begin(s: State, id: Id, x: Session): State {
    s.(generation := s.generation + 1, sessions := s.sessions[id := x])
  }

  ghost function BeginStep(s: State, e: Event): State
    requires BeginEnabled(s, e)
  {
    match e
    case Tick(t) => s.(now := t)
    case BeginPublisher(id) => Begin(s, id, Publisher(s.generation + 1, None, {}, {}))
    case BeginPinner(id) => Begin(s, id, Pinner(s.generation + 1, None, "", None))
    case BeginCollector(id, policy) => Begin(s, id, Collector(s.generation + 1, policy, Starting))
  }

  ghost function With(s: State, id: Id, x: Session): State { s.(sessions := s.sessions[id := x]) }

  ghost function PublishStep(s: State, e: Event): State
    requires PublishReady(s, e)
  {
    match e
    case Refresh(id) =>
      With(s, id, s.sessions[id].(known := Some(BlocksOf(CurrentSet(s.current)))))
    case PutBlock(id, b) =>
      With(s, id, s.sessions[id].(chosen := s.sessions[id].chosen + {b})).(blocks := s.blocks + {b})
    case PutRoot(id, index, part) =>
      var p := s.sessions[id];
      var root := Root(index, p.generation, part);
      With(s, id, p.(built := p.built + {root})).(roots := s.roots + {root})
    case Promote(id, root) => s.(current := Some(root))
  }

  ghost function PinStep(s: State, e: Event): State
    requires PinReady(s, e)
  {
    match e
    case CheckRoot(id, root) => With(s, id, s.sessions[id].(root := Some(root)))
    case ReadSlot(id, owner) =>
      With(s, id, s.sessions[id].(owner := owner, seen := Some(if owner in s.pins then s.pins[owner].version else 0)))
    case WritePin(id, token, until) =>
      var p := s.sessions[id];
      s.(pins := s.pins[p.owner := Pin(PinRecord(token, p.root.value, until), p.seen.value + 1)],
         tokens := s.tokens + {token})
    case RenewPin(owner, until) =>
      var pin := s.pins[owner];
      s.(wire := s.wire + {PinWrite(owner, pin.version, pin.record.(until := until), true)})
    case ClosePin(owner) =>
      var pin := s.pins[owner];
      s.(wire := s.wire + {PinWrite(owner, pin.version, pin.record.(until := s.now), false)})
    case LandPin(w) =>
      if w.owner in s.pins && s.pins[w.owner].version == w.ifMatch
      then s.(pins := s.pins[w.owner := Pin(w.record, w.ifMatch + 1)])
      else s
  }

  /** One pin of the scan: skip it if already marked, go on to mark it if expired, else protect its root. */
  function Examine(start: nat, owners: set<string>, pinned: set<Root>, owner: string, pin: Pin): Pass {
    if pin.record.until == 0 then Scanning(start, owners - {owner}, pinned)
    else if pin.record.until <= start then Expiring(start, owners - {owner}, pinned, owner, pin)
    else Scanning(start, owners - {owner}, pinned + {pin.record.root})
  }

  ghost function CollectStep(s: State, e: Event): State
    requires CollectReady(s, e)
  {
    var c := s.sessions[e.id];
    match e
    case StartScan(id) => With(s, id, c.(pass := Scanning(s.now, s.pins.Keys, {})))
    case ScanPin(id, owner) =>
      With(s, id, c.(pass := Examine(c.pass.start, c.pass.owners, c.pass.pinned, owner, s.pins[owner])))
    case MarkExpired(id) =>
      var p := c.pass;
      if s.pins[p.owner].version == p.seen.version then
        With(s, id, c.(pass := Scanning(p.start, p.owners, p.pinned)))
          .(pins := s.pins[p.owner := Pin(p.seen.record.(until := 0), p.seen.version + 1)],
            retired := s.retired + {(p.owner, p.seen.record.token)})
      else With(s, id, c.(pass := Aborted))
    case EndScan(id) => With(s, id, c.(pass := Loading(c.pass.pinned)))
    case LoadCurrent(id) => With(s, id, c.(pass := Listing(c.pass.pinned, s.current)))
    case ListRoots(id, newest) =>
      var guarded := c.policy.retain + c.pass.pinned + CurrentSet(c.pass.current) + newest;
      With(s, id, c.(pass := Removing(c.pass.pinned, guarded, s.roots, s.roots, {}, {}, s.roots)))
    case KeepRoot(id, root) =>
      With(s, id, c.(pass := c.pass.(todo := c.pass.todo - {root}, kept := c.pass.kept + {root})))
    case RemoveRoot(id, root) =>
      With(s, id, c.(pass := c.pass.(todo := c.pass.todo - {root}, removed := c.pass.removed + {root})))
        .(roots := s.roots - {root})
    case Remember(id, root) => With(s, id, c.(pass := c.pass.(memory := c.pass.memory + {root})))
    case EndRoots(id) =>
      var p := c.pass;
      With(s, id, c.(pass := Sweeping(p.listed, p.pinned, LiveBlocks(p.memory, p.listed, p.kept, p.removed, p.pinned))))
    case SweepBlock(id, b) => s.(blocks := s.blocks - {b})
  }

  /** A session's or a pin holder's next move, claims aside. */
  ghost predicate Ready(s: State, e: Event) { PublishReady(s, e) || PinReady(s, e) || CollectReady(s, e) }

  ghost function Effect(s: State, e: Event): State
    requires Ready(s, e)
  {
    if PublishReady(s, e) then PublishStep(s, e)
    else if PinReady(s, e) then PinStep(s, e)
    else CollectStep(s, e)
  }

  ghost function After(s: State, e: Event): State {
    if BeginEnabled(s, e) then BeginStep(s, e)
    else if PublishEnabled(s, e) then PublishStep(s, e)
    else if PinEnabled(s, e) then PinStep(s, e)
    else if CollectEnabled(s, e) then CollectStep(s, e)
    else s
  }

  ghost function Trace(s: State, es: seq<Event>): State
    decreases |es|
  {
    if es == [] then s else Trace(After(s, es[0]), es[1..])
  }

  // -------------------------------------------------------------------------------- the invariant

  ghost predicate RenewalMatches(s: State, w: PinWrite, owner: string, version: nat) {
    w in s.wire && w.renews && w.owner == owner && w.ifMatch == version
  }

  /** Expired, and no renewal on the wire can still take effect. */
  ghost predicate Dead(s: State, owner: string)
    requires owner in s.pins
  {
    s.pins[owner].record.until <= s.now && forall w :: !RenewalMatches(s, w, owner, s.pins[owner].version)
  }

  ghost predicate RootsOk(s: State) { forall r | r in s.roots :: r.blocks <= s.blocks }

  ghost predicate CurrentOk(s: State) { CurrentSet(s.current) <= s.roots }

  ghost predicate PinOk(s: State, owner: string)
    requires owner in s.pins
  {
    && (!Dead(s, owner) ==> s.pins[owner].record.root.blocks <= s.blocks)
    && s.pins[owner].version > 0
    && s.pins[owner].record.token in s.tokens
    && ((owner, s.pins[owner].record.token) in s.retired ==> Dead(s, owner))
  }

  ghost predicate PinsOk(s: State) {
    (forall p | p in s.retired :: p.1 in s.tokens) && forall owner | owner in s.pins :: PinOk(s, owner)
  }

  /** A pin write in flight is about the version it read, and a renewal was read from an unexpired record. */
  ghost predicate WriteOk(s: State, w: PinWrite) {
    && w.owner in s.pins && w.ifMatch <= s.pins[w.owner].version
    && (w.ifMatch == s.pins[w.owner].version ==>
          && w.record == s.pins[w.owner].record.(until := w.record.until)
          && (w.renews ==> s.pins[w.owner].record.until > 0))
    && (!w.renews ==> w.record.until <= s.now)
  }

  ghost predicate WireOk(s: State) { forall w | w in s.wire :: WriteOk(s, w) }

  ghost predicate Covered(s: State, owner: string, pinned: set<Root>)
    requires owner in s.pins
  {
    Dead(s, owner) || s.pins[owner].record.root in pinned
  }

  ghost predicate AllCovered(s: State, pinned: set<Root>) {
    forall owner | owner in s.pins :: Covered(s, owner, pinned) }

  ghost predicate ScanOk(s: State, start: nat, owners: set<string>, pinned: set<Root>) {
    start <= s.now && forall owner | owner in s.pins :: owner in owners || Covered(s, owner, pinned)
  }

  ghost predicate ExpiringOk(s: State, p: Pass)
    requires p.Expiring?
  {
    && p.start <= s.now && p.owner in s.pins
    && p.seen.version <= s.pins[p.owner].version && p.seen.record.until <= s.now
    && (p.seen.version == s.pins[p.owner].version ==> p.seen == s.pins[p.owner])
  }

  /** What a pass knows as long as its claim is the stored one. */
  ghost predicate PassOk(s: State, p: Pass) {
    match p
    case Starting => true
    case Scanning(start, owners, pinned) => ScanOk(s, start, owners, pinned)
    case Expiring(start, owners, pinned, owner, _) => ScanOk(s, start, owners + {owner}, pinned)
    case Loading(pinned) => AllCovered(s, pinned)
    case Listing(pinned, current) => AllCovered(s, pinned) && current == s.current
    case Removing(pinned, guarded, listed, todo, kept, removed, memory) =>
      && AllCovered(s, pinned) && pinned <= guarded && CurrentSet(s.current) <= guarded
      && s.roots <= listed
    case Sweeping(listed, pinned, live) =>
      AllCovered(s, pinned) && s.roots <= listed
    case Aborted => true
  }

  /** What a pass knows about its own bookkeeping, claim or no claim. */
  ghost predicate PassShape(s: State, p: Pass) {
    match p
    case Expiring(start, owners, pinned, owner, seen) => ExpiringOk(s, p)
    case Scanning(start, owners, pinned) => start <= s.now
    case Removing(pinned, guarded, listed, todo, kept, removed, memory) =>
      && pinned <= guarded && todo <= listed && kept <= listed && removed <= listed
      && listed <= todo + kept + removed && listed <= memory
    case Sweeping(listed, pinned, live) => BlocksOf(listed) <= live && BlocksOf(pinned) <= live
    case _ => true
  }

  /** What a pass holds back: enough of the newest, and nothing but what is needed. */
  ghost predicate GuardOk(s: State, x: Session)
    requires x.Collector? && x.pass.Removing?
  {
    var p, keep := x.pass, x.policy.keep;
    && x.policy.retain <= p.guarded && p.removed !! p.guarded
    && |p.listed * p.guarded| >= (if |p.listed| < keep then |p.listed| else keep)
    && (forall r | r in p.listed && r !in p.guarded :: |AtOrAbove(p.listed, r)| >= keep)
    && (x.generation == s.generation ==>
          forall r | r in p.listed && r in p.guarded ::
            r in x.policy.retain || r in p.pinned || s.current == Some(r) || |Above(p.listed, r)| < keep)
  }

  ghost predicate SessionFacts(s: State, x: Session) {
    match x
    case Publisher(_, known, chosen, built) =>
      (known.Some? ==> known.value <= s.blocks) && chosen <= s.blocks && built <= s.roots
    case Pinner(_, root, _, _) => root.Some? ==> root.value in s.roots
    case Collector(_, _, pass) => PassOk(s, pass)
  }

  ghost predicate SessionOk(s: State, x: Session) {
    && x.generation <= s.generation
    && (x.generation == s.generation ==> SessionFacts(s, x))
    && (x.Collector? ==> x.policy.keep > 0 && PassShape(s, x.pass) && (x.pass.Removing? ==> GuardOk(s, x)))
  }

  ghost predicate SessionsOk(s: State) {
    && (forall id | id in s.sessions :: SessionOk(s, s.sessions[id]))
    && (forall i, j | i in s.sessions && j in s.sessions && s.sessions[i].generation == s.sessions[j].generation
        :: i == j)
  }

  ghost predicate Inv(s: State) {
    RootsOk(s) && CurrentOk(s) && PinsOk(s) && WireOk(s) && SessionsOk(s)
  }
}
