/**
 * Publication, collection and download together: `CheckpointGc` says which block objects the bucket holds, here
 * they have contents. A block object is named by the digest of its bytes, a root is written for sources all of whose
 * blocks its session has put in place, and a download fetches each block at a moment of its own.
 */
module CheckpointRecovery {
  import opened ByteStrings
  import opened Options
  import G = CheckpointGc
  import S = Snapshot
  import T = CheckpointGcTheorems

  /** A root object: what it was made from, and where the blocks were placed. */
  datatype Published = Published(
    root: G.Root, descriptor: S.Root, manager: S.Manager, sources: seq<S.Source>, placed: nat -> nat -> nat)

  /** `store` holds the bytes of every block object, `catalog` the roots written so far. */
  datatype State = State(gc: G.State, store: map<G.Block, Bytes>, catalog: seq<Published>)

  /** `Step` is any step of the bucket's sessions but the writing of a block or a root. */
  datatype Event =
    | Step(e: G.Event)
    | StoreBlock(id: G.Id, content: Bytes, generation: nat)
    | Publish(id: G.Id, p: Published)

  /** How digests are spelled in object names. */
  ghost predicate Injective(name: S.Digest -> nat) { forall a, b | name(a) == name(b) :: a == b }

  function Key(name: S.Digest -> nat, b: S.Block): G.Block { G.Block(name(b.hash), b.generation) }

  function Keys(name: S.Digest -> nat, r: S.Root): set<G.Block> {
    set i, j | 0 <= i < |r.files| && 0 <= j < |r.files[i].blocks| :: Key(name, r.files[i].blocks[j])
  }

  /** The descriptor is the one the uploader makes of these sources. */
  ghost predicate Describes(name: S.Digest -> nat, p: Published) {
    && S.SourcesOk(p.manager, p.sources) && S.WithinLimits(p.sources)
    && p.descriptor == S.CandidateRoot(p.manager, p.sources, p.root.index, p.root.generation, p.placed)
    && p.root.blocks == Keys(name, p.descriptor)
  }

  ghost predicate Init(s: State) { G.Init(s.gc) && s.store == map[] && s.catalog == [] }

  ghost predicate Enabled(name: S.Digest -> nat, s: State, e: Event) {
    match e
    case Step(g) => !g.PutBlock? && !g.PutRoot?
    case StoreBlock(id, content, generation) =>
      G.PublishEnabled(s.gc, G.PutBlock(id, G.Block(name(S.ContentDigest(content)), generation)))
    case Publish(id, p) =>
      && G.PublishEnabled(s.gc, G.PutRoot(id, p.root.index, p.root.blocks)) && Describes(name, p)
      && p.root.generation == s.gc.sessions[id].generation
  }

  ghost function Remaining(store: map<G.Block, Bytes>, blocks: set<G.Block>): map<G.Block, Bytes> {
    map b | b in store && b in blocks :: store[b]
  }

  ghost function After(name: S.Digest -> nat, s: State, e: Event): State {
    if !Enabled(name, s, e) then s
    else
      match e
      case Step(g) =>
        var gc := G.After(s.gc, g);
        s.(gc := gc, store := Remaining(s.store, gc.blocks))
      case StoreBlock(id, content, generation) =>
        var b := G.Block(name(S.ContentDigest(content)), generation);
        s.(gc := G.After(s.gc, G.PutBlock(id, b)), store := if b in s.store then s.store else s.store[b := content])
      case Publish(id, p) =>
        s.(gc := G.After(s.gc, G.PutRoot(id, p.root.index, p.root.blocks)), catalog := s.catalog + [p])
  }

  ghost function Trace(name: S.Digest -> nat, s: State, es: seq<Event>): State
    decreases |es|
  {
    if es == [] then s else Trace(name, After(name, s, es[0]), es[1..])
  }

  ghost predicate Reachable(name: S.Digest -> nat, s: State) { exists s0, es :: Init(s0) && Trace(name, s0, es) == s }

  // -------------------------------------------------------------------------------- the invariant

  ghost predicate StoreOk(name: S.Digest -> nat, s: State) {
    s.store.Keys == s.gc.blocks && forall b | b in s.store :: b.hash == name(S.ContentDigest(s.store[b]))
  }

  ghost predicate Inv(name: S.Digest -> nat, s: State) {
    T.Reachable(s.gc) && StoreOk(name, s) && forall p | p in s.catalog :: Describes(name, p)
  }

  lemma CollectBlocks(s: G.State, e: G.Event)
    requires G.CollectEnabled(s, e)
    ensures G.CollectStep(s, e).blocks <= s.blocks
  {
    hide G.IsNewest, G.BlocksOf, G.LiveBlocks, G.Examine, G.CurrentSet;
  }

  lemma OtherBlocks(s: G.State, e: G.Event)
    requires !e.PutBlock?
    ensures G.BeginEnabled(s, e) ==> G.BeginStep(s, e).blocks == s.blocks
    ensures G.PublishEnabled(s, e) ==> G.PublishStep(s, e).blocks == s.blocks
    ensures G.PinEnabled(s, e) ==> G.PinStep(s, e).blocks == s.blocks
  {
    hide G.Chooses, G.BlocksOf, G.CurrentSet;
  }

  /** Nothing but the writing of a block adds one. */
  lemma BlocksOnlyLeave(s: G.State, e: G.Event)
    requires !e.PutBlock?
    ensures G.After(s, e).blocks <= s.blocks
  {
    hide G.BeginEnabled, G.PublishEnabled, G.PinEnabled, G.CollectEnabled, G.BeginStep, G.PublishStep, G.PinStep,
         G.CollectStep;
    OtherBlocks(s, e);
    if G.CollectEnabled(s, e) { CollectBlocks(s, e); }
  }

  lemma PutBlockAdds(s: G.State, id: G.Id, b: G.Block)
    requires G.PublishEnabled(s, G.PutBlock(id, b))
    ensures G.After(s, G.PutBlock(id, b)).blocks == s.blocks + {b}
  {
    hide G.Chooses;
  }

  lemma PutRootAdds(s: G.State, id: G.Id, index: nat, part: set<G.Block>)
    requires G.PublishEnabled(s, G.PutRoot(id, index, part))
    ensures G.After(s, G.PutRoot(id, index, part)).blocks == s.blocks
  {
  }

  lemma StepKeepsInv(name: S.Digest -> nat, s: State, e: Event)
    requires Inv(name, s)
    ensures Inv(name, After(name, s, e))
  {
    hide G.After, G.PublishEnabled, T.Reachable, Describes;
    if Enabled(name, s, e) {
      match e
      case Step(g) =>
        T.ReachableStep(s.gc, g);
        BlocksOnlyLeave(s.gc, g);
      case StoreBlock(id, content, generation) =>
        var b := G.Block(name(S.ContentDigest(content)), generation);
        T.ReachableStep(s.gc, G.PutBlock(id, b));
        PutBlockAdds(s.gc, id, b);
      case Publish(id, p) =>
        T.ReachableStep(s.gc, G.PutRoot(id, p.root.index, p.root.blocks));
        PutRootAdds(s.gc, id, p.root.index, p.root.blocks);
    }
  }

  lemma {:induction false} TraceKeepsInv(name: S.Digest -> nat, s: State, es: seq<Event>)
    requires Inv(name, s)
    ensures Inv(name, Trace(name, s, es))
    decreases |es|
  {
    hide Inv, After;
    if es != [] {
      StepKeepsInv(name, s, es[0]);
      TraceKeepsInv(name, After(name, s, es[0]), es[1..]);
    }
  }

  lemma ReachableInv(name: S.Digest -> nat, s: State)
    requires Reachable(name, s)
    ensures Inv(name, s)
  {
    hide T.Reachable;
    var s0, es :| Init(s0) && Trace(name, s0, es) == s;
    T.ReachableStart(s0.gc);
    TraceKeepsInv(name, s0, es);
  }

  // -------------------------------------------------------------------------- retained checkpoints

  ghost predicate Pinned(s: G.State, owner: string, root: G.Root) {
    owner in s.pins && s.pins[owner].record.until > s.now && s.pins[owner].record.root == root
  }

  /** Stored, or CURRENT, or under an unexpired pin. */
  ghost predicate Retained(s: G.State, root: G.Root) {
    root in s.roots || s.current == Some(root) || exists owner :: Pinned(s, owner, root)
  }

  lemma RetainedHasBlocks(s: G.State, root: G.Root)
    requires T.Reachable(s) && Retained(s, root)
    ensures root.blocks <= s.blocks
  {
    hide T.Reachable;
    T.GcSafety(s);
    if owner :| Pinned(s, owner, root) {}
  }

  lemma FilesDescribe(name: S.Digest -> nat, p: Published, i: nat)
    requires Describes(name, p) && i < |p.sources|
    ensures |p.descriptor.files| == |p.sources| && p.sources[i].role != S.UnknownRole
    ensures S.Uploaded(p.sources[i], p.placed(i), p.descriptor.files[i])
  {
    hide S.ChunkCount, S.BlockAt, S.SourceBlocks, S.SourceBytes, S.ProfileOk, Keys;
    assert p.descriptor.files[i] == S.FileOf(p.sources[i], p.placed(i));
    assert S.SourceRoles(p.sources)[i] == p.sources[i].role;
    S.FileOfIsUploaded(p.sources[i], p.placed(i));
  }

  lemma KeyIsCovered(name: S.Digest -> nat, r: S.Root, i: nat, j: nat)
    requires i < |r.files| && j < |r.files[i].blocks|
    ensures Key(name, r.files[i].blocks[j]) in Keys(name, r)
  {
  }

  /** Every block of a retained checkpoint is there, and its object holds the block's own part of the source. */
  lemma RetainedBlockIsIntact(name: S.Digest -> nat, s: State, p: Published, i: nat, j: nat)
    requires Injective(name) && Reachable(name, s) && p in s.catalog && Retained(s.gc, p.root) && i < |p.sources|
    requires i < |p.descriptor.files| && j < |p.descriptor.files[i].blocks|
    ensures var b := p.descriptor.files[i].blocks[j];
            && Key(name, b) in s.store && S.ContentDigest(s.store[Key(name, b)]) == b.hash
            && |s.store[Key(name, b)]| == b.size
  {
    hide T.Reachable, Retained, Reachable, Keys, S.ChunkCount, S.SourcesOk, S.WithinLimits, S.CandidateRoot;
    ReachableInv(name, s);
    RetainedHasBlocks(s.gc, p.root);
    KeyIsCovered(name, p.descriptor, i, j);
    FilesDescribe(name, p, i);
    var f := p.descriptor.files[i];
    assert f.blocks[j] == S.BlockAt(p.sources[i].content, p.placed(i), j);
    assert name(S.ContentDigest(s.store[Key(name, f.blocks[j])])) == name(f.blocks[j].hash);
  }

  /** What fetching a block at this moment may give: its object's bytes, or a transfer that fails. */
  ghost predicate Fetches(name: S.Digest -> nat, s: State, b: S.Block, stream: S.Stream) {
    stream.failed || (Key(name, b) in s.store && stream.bytes == s.store[Key(name, b)])
  }

  ghost predicate NoneFailed(streams: seq<S.Stream>) { forall j | 0 <= j < |streams| :: !streams[j].failed }

  /** The moment of each fetch, at each of which the checkpoint is retained. */
  ghost predicate FetchedWhileRetained(
    name: S.Digest -> nat, p: Published, f: S.File, at: seq<State>, streams: seq<S.Stream>)
  {
    && |at| == |streams| == |f.blocks|
    && forall j | 0 <= j < |at| ::
         Reachable(name, at[j]) && p in at[j].catalog && Retained(at[j].gc, p.root)
         && Fetches(name, at[j], f.blocks[j], streams[j])
  }

  /**
   * A checkpoint that stays stored, CURRENT or pinned while its blocks are fetched downloads to its sources: the
   * block checks pass exactly if no transfer failed, and what is put together is then the source, byte for byte.
   */
  lemma RetainedCheckpointDownloads(
      name: S.Digest -> nat, p: Published, i: nat, at: seq<State>, streams: seq<S.Stream>)
    requires Injective(name) && Describes(name, p) && i < |p.sources| && i < |p.descriptor.files|
    requires FetchedWhileRetained(name, p, p.descriptor.files[i], at, streams)
    ensures S.Intact(p.descriptor.files[i], streams) <==> NoneFailed(streams)
    ensures NoneFailed(streams) ==> S.Flat(S.AllCopied(p.descriptor.files[i], streams)) == p.sources[i].content
  {
    hide Reachable, Retained, Describes, S.Uploaded, S.Flat, S.AllCopied, Injective;
    var f := p.descriptor.files[i];
    FilesDescribe(name, p, i);
    forall j | 0 <= j < |at|
      ensures !streams[j].failed ==>
                |streams[j].bytes| == f.blocks[j].size && S.ContentDigest(streams[j].bytes) == f.blocks[j].hash
    {
      RetainedBlockIsIntact(name, at[j], p, i, j);
    }
    if NoneFailed(streams) { S.DownloadReturnsUpload(p.sources[i], p.placed(i), f, streams); }
  }

  /** The download itself, with its writes in any order. */
  method DownloadRetained(ghost name: S.Digest -> nat, ghost p: Published, ghost i: nat, ghost at: seq<State>,
                          f: S.File, streams: seq<S.Stream>, schedule: seq<S.Piece>)
    returns (r: Option<Bytes>)
    requires Injective(name) && Describes(name, p) && i < |p.sources| && i < |p.descriptor.files|
    requires f == p.descriptor.files[i] && FetchedWhileRetained(name, p, f, at, streams)
    requires S.AllFit(S.AllCopied(f, streams), schedule)
    requires NoneFailed(streams) ==> S.Complete(S.AllCopied(f, streams), schedule)
    ensures r == if NoneFailed(streams) then Some(p.sources[i].content) else None
  {
    hide S.Flat, S.AllCopied, S.AllFit, S.Complete, S.Intact, S.FileOk, S.Uploaded, Describes, Injective, Reachable;
    RetainedCheckpointDownloads(name, p, i, at, streams);
    FilesDescribe(name, p, i);
    S.SourceIsAccepted(p.sources[i], p.placed(i), f);
    r := S.DownloadFile(f, streams, schedule);
  }

  // ------------------------------------------------------------------------ publishing, left alone

  ghost predicate Leads(name: S.Digest -> nat, s: State, t: State) { exists es :: Trace(name, s, es) == t }

  lemma {:induction false} TraceLast(name: S.Digest -> nat, s: State, es: seq<Event>, e: Event)
    ensures Trace(name, s, es + [e]) == After(name, Trace(name, s, es), e)
    decreases |es|
  {
    hide After;
    if es == [] {
      assert (es + [e])[1..] == [];
    } else {
      assert (es + [e])[1..] == es[1..] + [e];
      TraceLast(name, After(name, s, es[0]), es[1..], e);
    }
  }

  lemma LeadsOn(name: S.Digest -> nat, s: State, t: State, e: Event)
    requires Leads(name, s, t)
    ensures Leads(name, s, After(name, t, e))
  {
    hide After;
    var es :| Trace(name, s, es) == t;
    TraceLast(name, s, es, e);
  }

  /** A publisher under the stored claim that has read CURRENT. */
  ghost predicate Publishing(s: State, id: G.Id) {
    T.Reachable(s.gc) && G.IsPublisher(s.gc, id) && G.Holds(s.gc, id) && s.gc.sessions[id].known.Some?
  }

  /** Nothing but this publisher's own notes and the blocks has moved. */
  ghost predicate OnlyStored(s: State, t: State, id: G.Id)
    requires G.IsPublisher(s.gc, id) && G.IsPublisher(t.gc, id)
  {
    && t.gc.generation == s.gc.generation && t.gc.roots == s.gc.roots && t.gc.current == s.gc.current
    && t.catalog == s.catalog && s.gc.sessions[id].chosen <= t.gc.sessions[id].chosen
  }

  function KeyOf(name: S.Digest -> nat, content: Bytes, generation: nat): G.Block {
    G.Block(name(S.ContentDigest(content)), generation)
  }

  /** One block's contents find a place. */
  lemma StoreOne(name: S.Digest -> nat, s: State, t: State, id: G.Id, content: Bytes) returns (u: State, g: nat)
    requires Leads(name, s, t) && Publishing(t, id)
    ensures Leads(name, s, u) && Publishing(u, id) && OnlyStored(t, u, id)
    ensures KeyOf(name, content, g) in u.gc.sessions[id].chosen
  {
    hide Leads, T.Reachable;
    var b := T.EveryContentHasAKey(t.gc, id, name(S.ContentDigest(content)));
    g := b.generation;
    assert b == KeyOf(name, content, g);
    BlockIsPut(t.gc, id, b);
    LeadsOn(name, s, t, StoreBlock(id, content, g));
    u := After(name, t, StoreBlock(id, content, g));
    T.ReachableStep(t.gc, G.PutBlock(id, b));
  }

  lemma BlockIsPut(s: G.State, id: G.Id, b: G.Block)
    requires G.IsPublisher(s, id) && G.Holds(s, id) && s.sessions[id].known.Some?
    requires b in G.After(s, G.PutBlock(id, b)).blocks
    requires b in G.After(s, G.PutBlock(id, b)).sessions[id].chosen
    ensures G.PublishEnabled(s, G.PutBlock(id, b)) || (b in s.blocks && b in s.sessions[id].chosen)
  {
  }

  lemma {:induction false} StoreAll(name: S.Digest -> nat, s: State, t: State, id: G.Id, contents: set<Bytes>)
    returns (u: State, places: map<Bytes, nat>)
    requires Leads(name, s, t) && Publishing(t, id)
    ensures Leads(name, s, u) && Publishing(u, id) && OnlyStored(t, u, id) && places.Keys == contents
    ensures forall c | c in contents :: KeyOf(name, c, places[c]) in u.gc.sessions[id].chosen
    decreases |contents|
  {
    hide Leads, T.Reachable, KeyOf;
    if contents == {} {
      u, places := t, map[];
    } else {
      var c :| c in contents;
      var v, g := StoreOne(name, s, t, id, c);
      var more: map<Bytes, nat>;
      u, more := StoreAll(name, s, v, id, contents - {c});
      places := more[c := g];
    }
  }

  /** Every chunk of every source. */
  ghost function Chunks(sources: seq<S.Source>): set<Bytes> {
    set i, j | 0 <= i < |sources| && 0 <= j < S.ChunkCount(sources[i].content)
               && j * S.BLOCK_SIZE <= |sources[i].content|
      :: S.Chunk(sources[i].content, j)
  }

  /** Where each chunk was placed. */
  function PlacedAt(sources: seq<S.Source>, places: map<Bytes, nat>, i: nat, j: nat): nat {
    if i < |sources| && j * S.BLOCK_SIZE <= |sources[i].content| && S.Chunk(sources[i].content, j) in places
    then places[S.Chunk(sources[i].content, j)] else 0
  }

  function Placing(sources: seq<S.Source>, places: map<Bytes, nat>): nat -> nat -> nat {
    (i: nat) => (j: nat) => PlacedAt(sources, places, i, j)
  }

  ghost function Publication(name: S.Digest -> nat, m: S.Manager, sources: seq<S.Source>, index: nat, generation: nat,
                             places: map<Bytes, nat>): Published
  {
    var placed := Placing(sources, places);
    var d := S.CandidateRoot(m, sources, index, generation, placed);
    Published(G.Root(index, generation, Keys(name, d)), d, m, sources, placed)
  }

  /** The keys of a publication are those its chunks were stored under. */
  lemma KeysAreStored(name: S.Digest -> nat, p: Published, places: map<Bytes, nat>, chosen: set<G.Block>)
    requires places.Keys == Chunks(p.sources) && forall c | c in places :: KeyOf(name, c, places[c]) in chosen
    requires p == Publication(name, p.manager, p.sources, p.root.index, p.root.generation, places)
    ensures p.root.blocks <= chosen
  {
    hide S.ChunkCount, S.SourceBytes, S.StateHash, Chunks;
    var d := p.descriptor;
    forall i, j | 0 <= i < |d.files| && 0 <= j < |d.files[i].blocks|
      ensures Key(name, d.files[i].blocks[j]) in chosen
    {
      assert d.files[i] == S.FileOf(p.sources[i], p.placed(i));
      ChunkIsPlaced(p.sources, places, i, j);
      assert d.files[i].blocks[j] == S.BlockAt(p.sources[i].content, p.placed(i), j);
      var c := S.Chunk(p.sources[i].content, j);
      assert Key(name, d.files[i].blocks[j]) == KeyOf(name, c, places[c]);
    }
  }

  lemma ChunkIsPlaced(sources: seq<S.Source>, places: map<Bytes, nat>, i: nat, j: nat)
    requires i < |sources| && j < S.ChunkCount(sources[i].content) && places.Keys == Chunks(sources)
    ensures j * S.BLOCK_SIZE <= |sources[i].content| && S.Chunk(sources[i].content, j) in places
    ensures Placing(sources, places)(i)(j) == places[S.Chunk(sources[i].content, j)]
  {
    S.ChunksFit(sources[i].content, j);
  }

  /**
   * Left alone, a publisher under its claim gets any acceptable sources stored: every chunk finds a key that takes no
   * other block's place, and the root that describes them is there; what is retained of it then downloads to them.
   */
  lemma SourcesCanBePublished(
      name: S.Digest -> nat, s: State, id: G.Id, m: S.Manager, sources: seq<S.Source>, index: nat)
    returns (t: State, p: Published)
    requires Publishing(s, id) && S.SourcesOk(m, sources) && S.WithinLimits(sources)
    ensures Leads(name, s, t) && p in t.catalog && Describes(name, p) && p.sources == sources && p.manager == m
    ensures p.root.index == index && p.root.generation == s.gc.sessions[id].generation && p.root in t.gc.roots
    ensures t.gc.roots == s.gc.roots + {p.root} && t.gc.current == s.gc.current && t.gc.generation == s.gc.generation
    ensures G.IsPublisher(t.gc, id) && p.root in t.gc.sessions[id].built
  {
    hide Leads, T.Reachable, Chunks, Publication, Keys, KeyOf, S.SourcesOk, S.WithinLimits;
    LeadsNowhere(name, s);
    var u, places := StoreAll(name, s, s, id, Chunks(sources));
    var generation := s.gc.sessions[id].generation;
    p := Publication(name, m, sources, index, generation, places);
    PublicationIs(name, m, sources, index, generation, places);
    KeysAreStored(name, p, places, u.gc.sessions[id].chosen);
    LeadsOn(name, s, u, Publish(id, p));
    t := After(name, u, Publish(id, p));
    RootIsPut(u.gc, id, p.root);
  }

  lemma LeadsNowhere(name: S.Digest -> nat, s: State)
    ensures Leads(name, s, s)
  {
    assert Trace(name, s, []) == s;
  }

  lemma PublicationIs(name: S.Digest -> nat, m: S.Manager, sources: seq<S.Source>, index: nat, generation: nat,
                      places: map<Bytes, nat>)
    ensures var p := Publication(name, m, sources, index, generation, places);
            && p.root.index == index && p.root.generation == generation && p.sources == sources && p.manager == m
            && (S.SourcesOk(m, sources) && S.WithinLimits(sources) ==> Describes(name, p))
  {
    hide S.CandidateRoot, Keys, S.SourcesOk, S.WithinLimits;
  }

  lemma RootIsPut(s: G.State, id: G.Id, root: G.Root)
    requires G.IsPublisher(s, id) && G.Holds(s, id) && root.generation == s.sessions[id].generation
    requires root.blocks <= s.sessions[id].chosen
    ensures G.PublishEnabled(s, G.PutRoot(id, root.index, root.blocks))
    ensures var t := G.After(s, G.PutRoot(id, root.index, root.blocks));
            && t.roots == s.roots + {root} && t.current == s.current && t.generation == s.generation
            && G.IsPublisher(t, id) && root in t.sessions[id].built
  {
  }

  /** And a root of a higher index becomes CURRENT. */
  lemma PublishedBecomesCurrent(name: S.Digest -> nat, s: State, id: G.Id, root: G.Root)
    requires G.IsPublisher(s.gc, id) && G.Holds(s.gc, id) && root in s.gc.sessions[id].built && root in s.gc.roots
    requires s.gc.current.Some? ==> s.gc.current.value.index < root.index
    ensures After(name, s, Step(G.Promote(id, root))).gc == s.gc.(current := Some(root))
  {
  }
}
