/**
 * Checkpoint files in the bucket (pkg/checkpoint/checkpoint.go): how a file is cut into blocks, which
 * root descriptors are accepted, and how parallel block writes put a file together again.
 */
module Snapshot {
  import opened ByteStrings
  import opened Options

  const BLOCK_SIZE: nat := 64 * 1024 * 1024
  const MAX_SIZE: nat := 32 * 1024 * 1024 * 1024
  const MAX_BLOCKS: nat := 512
  const MAX_ROOT_SIZE: nat := 64 * 1024

  datatype Role = Sqlite | GraphData | UnknownRole

  /** SHA-256 of what it digests, taken as injective; `Malformed` is any text that is not a digest. */
  datatype Digest =
    | ContentDigest(content: Bytes)
    | BlocksDigest(blocks: seq<Block>)
    | StateDigest(lines: seq<Line>)
    | Malformed

  datatype Block = Block(hash: Digest, generation: nat, size: int)

  datatype Line = Line(role: Role, hash: Digest, size: int)

  datatype File = File(role: Role, size: int, hash: Digest, blocks: seq<Block>)

  datatype Root = Root(
    policy: nat, config: nat, generation: nat, index: nat, size: int, files: seq<File>, hash: Digest)

  /** Which files a materialization policy calls for. */
  datatype Profile = OneOrTwo | SqliteOnly | SqliteAndGraph

  datatype Manager = Manager(policy: nat, profile: Profile, config: nat)

  // ------------------------------------------------------------------------------- descriptors

  function Total(blocks: seq<Block>): int {
    if blocks == [] then 0 else Total(blocks[..|blocks| - 1]) + blocks[|blocks| - 1].size
  }

  predicate BlockOk(blocks: seq<Block>, i: nat)
    requires i < |blocks|
  {
    && !blocks[i].hash.Malformed? && 0 < blocks[i].size <= BLOCK_SIZE
    && (i + 1 < |blocks| ==> blocks[i].size == BLOCK_SIZE)
  }

  predicate FileOk(f: File) {
    && !f.role.UnknownRole? && f.size > 0 && f.blocks != []
    && (forall i | 0 <= i < |f.blocks| :: BlockOk(f.blocks, i))
    && Total(f.blocks) == f.size && f.hash == BlocksDigest(f.blocks)
  }

  function LineOf(f: File): Line { Line(f.role, f.hash, f.size) }

  function StateHash(files: seq<File>): Digest {
    StateDigest(seq(|files|, i requires 0 <= i < |files| => LineOf(files[i]))) }

  predicate ProfileOk(profile: Profile, roles: seq<Role>) {
    match profile
    case OneOrTwo => true
    case SqliteOnly => roles == [Sqlite]
    case SqliteAndGraph => roles == [Sqlite, GraphData]
  }

  function Roles(files: seq<File>): seq<Role> { seq(|files|, i requires 0 <= i < |files| => files[i].role) }

  function Sizes(files: seq<File>): int {
    if files == [] then 0 else Sizes(files[..|files| - 1]) + files[|files| - 1].size
  }

  function BlockCount(files: seq<File>): nat {
    if files == [] then 0 else BlockCount(files[..|files| - 1]) + |files[|files| - 1].blocks|
  }

  /** What the reader accepts, said of the descriptor as a whole. */
  predicate RootOk(m: Manager, r: Root) {
    && r.policy == m.policy && ProfileOk(m.profile, Roles(r.files)) && r.config == m.config
    && r.generation > 0 && r.index > 0 && 0 < r.size <= MAX_SIZE && 1 <= |r.files| <= 2
    && (forall i | 0 <= i < |r.files| :: FileOk(r.files[i]))
    && (|r.files| == 2 ==> r.files[0].role != r.files[1].role)
    && Sqlite in Roles(r.files)
    && BlockCount(r.files) <= MAX_BLOCKS && Sizes(r.files) == r.size && r.hash == StateHash(r.files)
  }

  method ValidateFile(f: File, seen: set<Role>) returns (ok: bool)
    ensures ok == (f.role !in seen && FileOk(f))
  {
    if f.role in seen || f.role == UnknownRole || f.size <= 0 || |f.blocks| == 0 { return false; }
    var size := 0;
    for i := 0 to |f.blocks|
      invariant size == Total(f.blocks[..i])
      invariant forall k | 0 <= k < i :: BlockOk(f.blocks, k)
    {
      var block := f.blocks[i];
      if block.hash.Malformed? || block.size <= 0 || block.size > BLOCK_SIZE
         || (i + 1 < |f.blocks| && block.size != BLOCK_SIZE)
      {
        assert !BlockOk(f.blocks, i);
        return false;
      }
      assert f.blocks[..i + 1][..i] == f.blocks[..i];
      size := size + block.size;
    }
    assert f.blocks[..|f.blocks|] == f.blocks;
    return size == f.size && f.hash == BlocksDigest(f.blocks);
  }

  method ValidateRoot(m: Manager, r: Root) returns (ok: bool)
    ensures ok == RootOk(m, r)
  {
    if r.policy != m.policy || !ProfileOk(m.profile, Roles(r.files)) { return false; }
    if r.config != m.config || r.generation == 0 || r.index == 0 || r.size <= 0 || r.size > MAX_SIZE
       || |r.files| < 1 || |r.files| > 2
    {
      return false;
    }
    var seen: set<Role>, size, blocks := {}, 0, 0;
    for i := 0 to |r.files|
      invariant size == Sizes(r.files[..i]) && blocks == BlockCount(r.files[..i])
      invariant forall role :: role in seen <==> role in Roles(r.files[..i])
      invariant forall k | 0 <= k < i :: FileOk(r.files[k])
      invariant i == 2 ==> r.files[0].role != r.files[1].role
    {
      var file := r.files[i];
      var valid := ValidateFile(file, seen);
      RolesSnoc(r.files, i);
      if !valid {
        if file.role in seen { SeenTwice(r.files, i, seen); }
        return false;
      }
      assert r.files[..i + 1][..i] == r.files[..i];
      if i == 1 { assert Roles(r.files[..1])[0] == r.files[0].role; }
      seen, size, blocks := seen + {file.role}, size + file.size, blocks + |file.blocks|;
    }
    assert r.files[..|r.files|] == r.files;
    return Sqlite in seen && blocks <= MAX_BLOCKS && size == r.size && r.hash == StateHash(r.files);
  }

  lemma RolesSnoc(files: seq<File>, i: nat)
    requires i < |files|
    ensures Roles(files[..i + 1]) == Roles(files[..i]) + [files[i].role]
  {
  }

  lemma SeenTwice(files: seq<File>, i: nat, seen: set<Role>)
    requires i < |files| <= 2 && forall role :: role in seen <==> role in Roles(files[..i])
    requires files[i].role in seen
    ensures |files| == 2 && files[0].role == files[1].role
  {
  }

  /** How many blocks a size takes, and how long each is: full ones, and the rest. */
  function BlocksFor(size: nat): nat { (size + BLOCK_SIZE - 1) / BLOCK_SIZE }

  function SizeAt(size: nat, i: nat): int {
    if (i + 1) * BLOCK_SIZE <= size then BLOCK_SIZE else size - i * BLOCK_SIZE
  }

  /** A file is accepted exactly if its blocks are the one way to cut its size, each with a proper digest. */
  lemma FileOkIff(f: File)
    ensures FileOk(f) <==>
              && !f.role.UnknownRole? && f.size > 0 && |f.blocks| == BlocksFor(f.size)
              && (forall i | 0 <= i < |f.blocks| ::
                    f.blocks[i].size == SizeAt(f.size, i) && !f.blocks[i].hash.Malformed?)
              && f.hash == BlocksDigest(f.blocks)
  {
    hide Total;
    if FileOk(f) {
      AcceptedIsCut(f);
    }
    if f.size > 0 && |f.blocks| == BlocksFor(f.size)
       && (forall i | 0 <= i < |f.blocks| :: f.blocks[i].size == SizeAt(f.size, i) && !f.blocks[i].hash.Malformed?)
    {
      CutIsAccepted(f);
    }
  }

  lemma {:induction false} FullTotal(blocks: seq<Block>)
    requires forall i | 0 <= i < |blocks| :: blocks[i].size == BLOCK_SIZE
    ensures Total(blocks) == |blocks| * BLOCK_SIZE
    decreases |blocks|
  {
    if blocks != [] { FullTotal(blocks[..|blocks| - 1]); }
  }

  lemma AcceptedIsCut(f: File)
    requires FileOk(f)
    ensures |f.blocks| == BlocksFor(f.size)
    ensures forall i | 0 <= i < |f.blocks| :: f.blocks[i].size == SizeAt(f.size, i) && !f.blocks[i].hash.Malformed?
  {
    var n := |f.blocks| - 1;
    forall i | 0 <= i < n ensures f.blocks[..n][i].size == BLOCK_SIZE { assert BlockOk(f.blocks, i); }
    FullTotal(f.blocks[..n]);
    assert BlockOk(f.blocks, n);
    assert f.size == n * BLOCK_SIZE + f.blocks[n].size;
    forall i | 0 <= i < |f.blocks| ensures f.blocks[i].size == SizeAt(f.size, i) && !f.blocks[i].hash.Malformed? {
      assert BlockOk(f.blocks, i);
      if i < n { assert (i + 1) * BLOCK_SIZE <= n * BLOCK_SIZE; }
    }
  }

  lemma CutIsAccepted(f: File)
    requires f.size > 0 && |f.blocks| == BlocksFor(f.size)
    requires forall i | 0 <= i < |f.blocks| :: f.blocks[i].size == SizeAt(f.size, i) && !f.blocks[i].hash.Malformed?
    ensures f.blocks != [] && Total(f.blocks) == f.size && forall i | 0 <= i < |f.blocks| :: BlockOk(f.blocks, i)
  {
    var n := |f.blocks| - 1;
    assert n * BLOCK_SIZE < f.size <= (n + 1) * BLOCK_SIZE;
    FullTotal(f.blocks[..n]);
  }

  /** The totals of at most two files. */
  lemma TotalsAre(files: seq<File>)
    requires 1 <= |files| <= 2
    ensures Sizes(files) == files[0].size + (if |files| == 2 then files[1].size else 0)
    ensures BlockCount(files) == |files[0].blocks| + (if |files| == 2 then |files[1].blocks| else 0)
  {
    assert files[..1][..0] == [];
    assert Sizes(files[..1]) == files[0].size && BlockCount(files[..1]) == |files[0].blocks|;
    if |files| == 1 { assert files[..1] == files; }
  }

  /** What is accepted, in numbers: 32 GiB in all, 512 blocks of 64 MiB, an SQLite file and perhaps a graph. */
  lemma RootOkIff(m: Manager, r: Root)
    ensures RootOk(m, r) <==>
              && r.policy == m.policy && r.config == m.config && r.generation > 0 && r.index > 0
              && (Roles(r.files) == [Sqlite] || Roles(r.files) == [Sqlite, GraphData]
                  || Roles(r.files) == [GraphData, Sqlite])
              && (m.profile.SqliteOnly? ==> Roles(r.files) == [Sqlite])
              && (m.profile.SqliteAndGraph? ==> Roles(r.files) == [Sqlite, GraphData])
              && 1 <= |r.files| <= 2 && (forall i | 0 <= i < |r.files| :: FileOk(r.files[i]))
              && r.size == r.files[0].size + (if |r.files| == 2 then r.files[1].size else 0)
              && 0 < r.size <= 34_359_738_368
              && |r.files[0].blocks| + (if |r.files| == 2 then |r.files[1].blocks| else 0) <= 512
              && r.hash == StateDigest(seq(|r.files|, i requires 0 <= i < |r.files| =>
                                         Line(r.files[i].role, r.files[i].hash, r.files[i].size)))
  {
    hide Sizes, BlockCount, FileOk;
    if 1 <= |r.files| <= 2 { TotalsAre(r.files); }
    if RootOk(m, r) { RolesOkIff(m, r); }
    LinesAre(r.files);
    if Roles(r.files) == [Sqlite, GraphData] || Roles(r.files) == [GraphData, Sqlite] {
      assert Roles(r.files)[0] == r.files[0].role && Roles(r.files)[1] == r.files[1].role;
    }
    if Roles(r.files) == [Sqlite] { assert Roles(r.files)[0] == r.files[0].role; }
  }

  lemma LinesAre(files: seq<File>)
    ensures StateHash(files)
            == StateDigest(seq(|files|, i requires 0 <= i < |files| =>
                             Line(files[i].role, files[i].hash, files[i].size)))
  {
    var a := seq(|files|, i requires 0 <= i < |files| => LineOf(files[i]));
    var b := seq(|files|, i requires 0 <= i < |files| => Line(files[i].role, files[i].hash, files[i].size));
    assert a == b;
  }

  /** The roles an accepted root can have. */
  lemma RolesOkIff(m: Manager, r: Root)
    requires RootOk(m, r)
    ensures Roles(r.files) == [Sqlite] || Roles(r.files) == [Sqlite, GraphData] || Roles(r.files) == [GraphData, Sqlite]
    ensures m.profile.SqliteOnly? ==> Roles(r.files) == [Sqlite]
    ensures m.profile.SqliteAndGraph? ==> Roles(r.files) == [Sqlite, GraphData]
  {
    hide Sizes, BlockCount, StateHash;
    var roles := Roles(r.files);
    forall i | 0 <= i < |roles| ensures !roles[i].UnknownRole? { assert FileOk(r.files[i]); }
    if |roles| == 1 { assert roles == [roles[0]]; } else { assert roles == [roles[0], roles[1]]; }
  }

  // --------------------------------------------------------------------------------- the uploader

  function ChunkEnd(content: Bytes, i: nat): nat {
    if (i + 1) * BLOCK_SIZE < |content| then (i + 1) * BLOCK_SIZE else |content|
  }

  function Chunk(content: Bytes, i: nat): Bytes
    requires i * BLOCK_SIZE <= |content|
  {
    content[i * BLOCK_SIZE..ChunkEnd(content, i)]
  }

  function ChunkCount(content: Bytes): nat { (|content| + BLOCK_SIZE - 1) / BLOCK_SIZE }

  /** The `i`-th block; `placed` says under which key (canonical, reused or own generation) each block ended up. */
  function BlockAt(content: Bytes, placed: nat -> nat, i: nat): Block
    requires i * BLOCK_SIZE <= |content|
  {
    Block(ContentDigest(Chunk(content, i)), placed(i), |Chunk(content, i)|)
  }

  lemma ChunksFit(content: Bytes, i: nat)
    requires i < ChunkCount(content)
    ensures i * BLOCK_SIZE < |content|
    ensures i + 1 < ChunkCount(content) <==> (i + 1) * BLOCK_SIZE < |content|
  {
  }

  /** The blocks of a file are its chunks, in order. */
  predicate Cut(content: Bytes, placed: nat -> nat, blocks: seq<Block>) {
    forall i | 0 <= i < |blocks| :: i * BLOCK_SIZE <= |content| && blocks[i] == BlockAt(content, placed, i)
  }

  lemma CutNothing(content: Bytes, placed: nat -> nat)
    ensures Cut(content, placed, [])
  {
  }

  lemma CutSnoc(content: Bytes, placed: nat -> nat, blocks: seq<Block>)
    requires Cut(content, placed, blocks) && |blocks| * BLOCK_SIZE < |content|
    ensures |blocks| < ChunkCount(content)
    ensures (|blocks| + 1) * BLOCK_SIZE >= |content| ==> |blocks| + 1 == ChunkCount(content)
    ensures Cut(content, placed, blocks + [BlockAt(content, placed, |blocks|)])
  {
    hide BlockAt, ChunkCount;
    CountOf(content, |blocks|);
    var n := |blocks|;
    var more := blocks + [BlockAt(content, placed, n)];
    forall i | 0 <= i < |more| ensures i * BLOCK_SIZE <= |content| && more[i] == BlockAt(content, placed, i) {
      if i < n { assert blocks[i] == BlockAt(content, placed, i); }
    }
  }

  lemma CountOf(content: Bytes, n: nat)
    requires n * BLOCK_SIZE < |content|
    ensures n < ChunkCount(content)
    ensures (n + 1) * BLOCK_SIZE >= |content| ==> n + 1 == ChunkCount(content)
  {
  }

  method UploadFile(role: Role, content: Bytes, placed: nat -> nat) returns (f: Option<File>)
    ensures f.Some? <==> 0 < |content| <= MAX_SIZE
    ensures f.Some? ==>
              && f.value.role == role && f.value.size == |content| && f.value.hash == BlocksDigest(f.value.blocks)
              && |f.value.blocks| == ChunkCount(content) && Cut(content, placed, f.value.blocks)
  {
    hide Cut, ChunkCount;
    ChunksCover(content);
    if |content| == 0 || |content| > MAX_SIZE { return None; }
    var blocks: seq<Block> := [];
    CutNothing(content, placed);
    var offset := 0;
    while offset < |content|
      invariant offset == |blocks| * BLOCK_SIZE && Cut(content, placed, blocks)
      invariant |blocks| <= ChunkCount(content) && (offset >= |content| ==> |blocks| == ChunkCount(content))
      decreases |content| - offset
    {
      var size := if BLOCK_SIZE < |content| - offset then BLOCK_SIZE else |content| - offset;
      CutSnoc(content, placed, blocks);
      blocks := blocks + [Block(ContentDigest(content[offset..offset + size]), placed(|blocks|), size)];
      offset := offset + BLOCK_SIZE;
    }
    return Some(File(role, |content|, BlocksDigest(blocks), blocks));
  }

  lemma {:induction false} CutTotal(content: Bytes, placed: nat -> nat, blocks: seq<Block>)
    requires Cut(content, placed, blocks) && |blocks| <= ChunkCount(content)
    ensures Total(blocks) == if |blocks| * BLOCK_SIZE < |content| then |blocks| * BLOCK_SIZE else |content|
    decreases |blocks|
  {
    if blocks != [] {
      var n := |blocks| - 1;
      forall i | 0 <= i < n ensures i * BLOCK_SIZE <= |content| && blocks[..n][i] == BlockAt(content, placed, i) {
        assert blocks[i] == BlockAt(content, placed, i);
      }
      CutTotal(content, placed, blocks[..n]);
      ChunksFit(content, n);
      assert blocks[n] == BlockAt(content, placed, n);
    }
  }

  /** Whatever the uploader builds from a file, the validator accepts. */
  lemma UploadedFileIsAccepted(role: Role, content: Bytes, placed: nat -> nat, f: File)
    requires 0 < |content| <= MAX_SIZE && role != UnknownRole
    requires f.role == role && f.size == |content| && f.hash == BlocksDigest(f.blocks)
    requires |f.blocks| == ChunkCount(content) && Cut(content, placed, f.blocks)
    ensures FileOk(f)
  {
    hide Cut, Total, ChunkCount;
    CutTotal(content, placed, f.blocks);
    forall i | 0 <= i < |f.blocks| ensures BlockOk(f.blocks, i) { CutBlockOk(content, placed, f.blocks, i); }
    ChunksCover(content);
  }

  lemma ChunksCover(content: Bytes)
    ensures ChunkCount(content) * BLOCK_SIZE >= |content|
    ensures |content| > 0 ==> ChunkCount(content) > 0
  {
  }

  lemma CutBlockOk(content: Bytes, placed: nat -> nat, blocks: seq<Block>, i: nat)
    requires |blocks| == ChunkCount(content) && Cut(content, placed, blocks) && i < |blocks|
    ensures BlockOk(blocks, i)
  {
    hide ChunkCount;
    ChunksFit(content, i);
    assert blocks[i] == BlockAt(content, placed, i);
  }

  datatype Source = Source(role: Role, content: Bytes)

  function SourceRoles(sources: seq<Source>): seq<Role> {
    seq(|sources|, i requires 0 <= i < |sources| => sources[i].role)
  }

  /** validateSourceProfile: the fixed role order, narrowed by the policy. */
  predicate SourcesOk(m: Manager, sources: seq<Source>) {
    var roles := SourceRoles(sources);
    (roles == [Sqlite] || roles == [Sqlite, GraphData]) && ProfileOk(m.profile, roles)
  }

  ghost predicate Uploaded(source: Source, placed: nat -> nat, f: File) {
    && f.role == source.role && 0 < |source.content| <= MAX_SIZE && f.size == |source.content|
    && f.hash == BlocksDigest(f.blocks)
    && |f.blocks| == ChunkCount(source.content) && Cut(source.content, placed, f.blocks)
  }

  function SourceBlocks(sources: seq<Source>): nat {
    if sources == [] then 0 else SourceBlocks(sources[..|sources| - 1]) + ChunkCount(sources[|sources| - 1].content)
  }

  function SourceBytes(sources: seq<Source>): nat {
    if sources == [] then 0 else SourceBytes(sources[..|sources| - 1]) + |sources[|sources| - 1].content|
  }

  /** The limits of a candidate, as a caller sees them before the upload. */
  predicate WithinLimits(sources: seq<Source>) {
    && (forall i | 0 <= i < |sources| :: 0 < |sources[i].content| <= MAX_SIZE)
    && SourceBlocks(sources) <= MAX_BLOCKS && SourceBytes(sources) <= MAX_SIZE
  }

  /** In numbers: 32 GiB and 512 blocks of 64 MiB, for each source and for both together; none is empty. */
  lemma LimitsIff(sources: seq<Source>)
    requires 1 <= |sources| <= 2
    ensures var first, second := |sources[0].content|, if |sources| == 2 then |sources[1].content| else 0;
            WithinLimits(sources) <==>
              && 0 < first && (|sources| == 2 ==> 0 < second) && first + second <= 34_359_738_368
              && (first + 67_108_863) / 67_108_864 + (second + 67_108_863) / 67_108_864 <= 512
  {
    var head := sources[..|sources| - 1];
    assert SourceBlocks(head[..0]) == 0;
    if |sources| == 2 {
      assert head == [sources[0]] && head[..0] == [];
      assert SourceBlocks(head) == ChunkCount(sources[0].content) && SourceBytes(head) == |sources[0].content|;
    }
  }

  lemma {:induction false} BlocksGrow(sources: seq<Source>, i: nat)
    requires i <= |sources|
    ensures SourceBlocks(sources[..i]) <= SourceBlocks(sources)
    decreases |sources| - i
  {
    if i < |sources| {
      assert sources[..i + 1][..i] == sources[..i];
      BlocksGrow(sources, i + 1);
    } else {
      assert sources[..i] == sources;
    }
  }

  ghost function FileOf(source: Source, placed: nat -> nat): File {
    var blocks := seq(ChunkCount(source.content), i requires 0 <= i < ChunkCount(source.content) =>
                                                   BlockAt(source.content, placed, i));
    File(source.role, |source.content|, BlocksDigest(blocks), blocks)
  }

  lemma UploadedIs(source: Source, placed: nat -> nat, f: File)
    requires Uploaded(source, placed, f)
    ensures f == FileOf(source, placed)
  {
    hide ChunkCount;
    forall i | 0 <= i < |f.blocks| ensures f.blocks[i] == FileOf(source, placed).blocks[i] {
      assert f.blocks[i] == BlockAt(source.content, placed, i);
    }
    assert f.blocks == FileOf(source, placed).blocks;
  }

  lemma FileOfIsUploaded(source: Source, placed: nat -> nat)
    requires 0 < |source.content| <= MAX_SIZE
    ensures Uploaded(source, placed, FileOf(source, placed))
  {
    hide BlockAt;
    forall i | 0 <= i < ChunkCount(source.content) ensures i * BLOCK_SIZE <= |source.content| {
      ChunksFit(source.content, i);
    }
  }

  /** The descriptor of these sources. */
  ghost function CandidateRoot(m: Manager, sources: seq<Source>, index: nat, generation: nat, placed: nat -> nat -> nat)
    : Root
  {
    var files := seq(|sources|, i requires 0 <= i < |sources| => FileOf(sources[i], placed(i)));
    Root(m.policy, m.config, generation, index, SourceBytes(sources), files, StateHash(files))
  }

  lemma CandidateIs(m: Manager, sources: seq<Source>, placed: nat -> nat -> nat, r: Root)
    requires r.policy == m.policy && r.config == m.config && r.size == SourceBytes(sources)
    requires |r.files| == |sources| && r.hash == StateHash(r.files)
    requires forall i | 0 <= i < |sources| :: Uploaded(sources[i], placed(i), r.files[i])
    ensures r == CandidateRoot(m, sources, r.index, r.generation, placed)
  {
    hide Uploaded, FileOf, StateHash, SourceBytes;
    var files := CandidateRoot(m, sources, r.index, r.generation, placed).files;
    forall i | 0 <= i < |sources| ensures r.files[i] == files[i] {
      assert Uploaded(sources[i], placed(i), r.files[i]);
      UploadedIs(sources[i], placed(i), r.files[i]);
    }
    assert r.files == files;
  }

  /**
   * The sources' descriptor, or nothing when a limit is exceeded; `placed` decides block keys file by file and
   * `encodedSize` is the length of a descriptor's JSON.
   */
  method UploadCandidate(m: Manager, sources: seq<Source>, index: nat, generation: nat, placed: nat -> nat -> nat,
                         encodedSize: Root -> nat)
    returns (r: Option<Root>)
    requires SourcesOk(m, sources) && index > 0 && generation > 0
    ensures var candidate := CandidateRoot(m, sources, index, generation, placed);
            r == if WithinLimits(sources) && encodedSize(candidate) <= MAX_ROOT_SIZE then Some(candidate) else None
    ensures r.Some? ==> RootOk(m, r.value)
    ensures r.Some? ==> |r.value.files| == |sources|
                        && forall i | 0 <= i < |sources| :: Uploaded(sources[i], placed(i), r.value.files[i])
  {
    hide CandidateRoot, Cut, RootOk, ChunkCount, StateHash, SourcesOk, Sizes, BlockCount, SourceBytes, SourceBlocks;
    var files: seq<File>, size, blocks := [], 0, 0;
    NothingYet(sources);
    for i := 0 to |sources|
      invariant |files| == i && size == Sizes(files) && blocks == BlockCount(files)
      invariant size == SourceBytes(sources[..i]) && blocks == SourceBlocks(sources[..i])
      invariant forall k | 0 <= k < i :: Uploaded(sources[k], placed(k), files[k])
      invariant i > 0 ==> size > 0
      invariant blocks <= MAX_BLOCKS
    {
      var f := UploadFile(sources[i].role, sources[i].content, placed(i));
      if f.None? { return None; }
      OneMore(sources, files, f.value, i);
      BlocksGrow(sources, i + 1);
      blocks := blocks + |f.value.blocks|;
      if blocks > MAX_BLOCKS { return None; }
      size := size + f.value.size;
      files := files + [f.value];
    }
    assert sources[..|sources|] == sources;
    if size > MAX_SIZE { return None; }
    SomeSource(m, sources);
    var root := Root(m.policy, m.config, generation, index, size, files, StateHash(files));
    CandidateIsAccepted(m, sources, placed, root);
    CandidateIs(m, sources, placed, root);
    if encodedSize(root) > MAX_ROOT_SIZE { return None; }
    return Some(root);
  }

  lemma SomeSource(m: Manager, sources: seq<Source>)
    requires SourcesOk(m, sources)
    ensures sources != []
  {
  }

  lemma NothingYet(sources: seq<Source>)
    ensures Sizes([]) == 0 && BlockCount([]) == 0
    ensures SourceBytes(sources[..0]) == 0 && SourceBlocks(sources[..0]) == 0
  {
  }

  lemma OneMore(sources: seq<Source>, files: seq<File>, f: File, i: nat)
    requires i < |sources|
    ensures Sizes(files + [f]) == Sizes(files) + f.size && BlockCount(files + [f]) == BlockCount(files) + |f.blocks|
    ensures SourceBytes(sources[..i + 1]) == SourceBytes(sources[..i]) + |sources[i].content|
    ensures SourceBlocks(sources[..i + 1]) == SourceBlocks(sources[..i]) + ChunkCount(sources[i].content)
  {
    assert (files + [f])[..|files|] == files;
    assert sources[..i + 1][..i] == sources[..i];
  }

  lemma CandidateIsAccepted(m: Manager, sources: seq<Source>, placed: nat -> nat -> nat, r: Root)
    requires SourcesOk(m, sources) && |r.files| == |sources| && r.policy == m.policy && r.config == m.config
    requires r.generation > 0 && r.index > 0 && 0 < r.size <= MAX_SIZE && r.hash == StateHash(r.files)
    requires Sizes(r.files) == r.size && BlockCount(r.files) <= MAX_BLOCKS
    requires forall i | 0 <= i < |sources| :: Uploaded(sources[i], placed(i), r.files[i])
    ensures RootOk(m, r)
  {
    hide FileOk, Cut, Sizes, BlockCount, StateHash, Uploaded;
    var roles := SourceRoles(sources);
    forall i | 0 <= i < |r.files| ensures FileOk(r.files[i]) && r.files[i].role == sources[i].role {
      assert Uploaded(sources[i], placed(i), r.files[i]);
      assert roles[i] != UnknownRole;
      SourceIsAccepted(sources[i], placed(i), r.files[i]);
    }
    assert Roles(r.files) == roles;
    assert roles[0] == Sqlite && Sqlite in roles;
    if |r.files| == 2 { assert roles[0] == r.files[0].role && roles[1] == r.files[1].role; }
  }

  lemma SourceIsAccepted(source: Source, placed: nat -> nat, f: File)
    requires Uploaded(source, placed, f) && source.role != UnknownRole
    ensures FileOk(f) && f.role == source.role
  {
    hide FileOk, Cut;
    UploadedFileIsAccepted(source.role, source.content, placed, f);
  }

  // --------------------------------------------------------------------------------- the reader

  /** Where block `i` starts in its file. */
  function Offset(blocks: seq<Block>, i: nat): int
    requires i <= |blocks|
  {
    Total(blocks[..i])
  }

  lemma {:induction false} OffsetIs(f: File, i: nat)
    requires FileOk(f) && i < |f.blocks|
    ensures Offset(f.blocks, i) == i * BLOCK_SIZE
    ensures Offset(f.blocks, i) + f.blocks[i].size == Offset(f.blocks, i + 1) <= f.size
    decreases i
  {
    assert f.blocks[..i + 1][..i] == f.blocks[..i];
    assert BlockOk(f.blocks, i);
    if i > 0 {
      OffsetIs(f, i - 1);
      assert BlockOk(f.blocks, i - 1);
    }
    EndWithin(f, i + 1);
  }

  lemma {:induction false} EndWithin(f: File, n: nat)
    requires FileOk(f) && n <= |f.blocks|
    ensures Offset(f.blocks, n) <= f.size
    decreases |f.blocks| - n
  {
    if n == |f.blocks| {
      assert f.blocks[..n] == f.blocks;
    } else {
      assert f.blocks[..n + 1][..n] == f.blocks[..n];
      assert BlockOk(f.blocks, n);
      EndWithin(f, n + 1);
    }
  }

  /** In an accepted file the block ranges tile it: every byte lies in exactly one block, at the place given. */
  lemma BlocksTile(f: File, p: nat)
    requires FileOk(f) && p < f.size
    ensures p / BLOCK_SIZE < |f.blocks|
    ensures forall i | 0 <= i < |f.blocks| ::
              Offset(f.blocks, i) <= p < Offset(f.blocks, i) + f.blocks[i].size <==> i == p / BLOCK_SIZE
  {
    hide FileOk, Offset;
    var last := LastBlock(f);
    OffsetIs(f, last);
    EveryBlock(f, last);
    var at := p / BLOCK_SIZE;
    assert at * BLOCK_SIZE <= p < (at + 1) * BLOCK_SIZE;
    forall i | 0 <= i < |f.blocks|
      ensures Offset(f.blocks, i) <= p < Offset(f.blocks, i) + f.blocks[i].size <==> i == at
    {
      OffsetIs(f, i);
      EveryBlock(f, i);
    }
  }

  lemma LastBlock(f: File) returns (last: nat)
    requires FileOk(f)
    ensures last + 1 == |f.blocks| && Offset(f.blocks, last + 1) == f.size
  {
    last := |f.blocks| - 1;
    assert f.blocks[..last + 1] == f.blocks;
  }

  lemma EveryBlock(f: File, i: nat)
    requires FileOk(f) && i < |f.blocks|
    ensures 0 < f.blocks[i].size <= BLOCK_SIZE && (i + 1 < |f.blocks| ==> f.blocks[i].size == BLOCK_SIZE)
  {
    assert BlockOk(f.blocks, i);
  }

  /** What the store returned for each block passes its size and digest check. */
  predicate Verifies(f: File, contents: seq<Bytes>) {
    && |contents| == |f.blocks|
    && forall i | 0 <= i < |contents| ::
         |contents[i]| == f.blocks[i].size && ContentDigest(contents[i]) == f.blocks[i].hash
  }

  function Flat(contents: seq<Bytes>): Bytes {
    if contents == [] then [] else Flat(contents[..|contents| - 1]) + contents[|contents| - 1]
  }

  lemma {:induction false} FlatAt(f: File, contents: seq<Bytes>, n: nat)
    requires FileOk(f) && Verifies(f, contents) && n <= |contents|
    ensures |Flat(contents[..n])| == Offset(f.blocks, n)
    ensures forall i, k | 0 <= i < n && 0 <= k < |contents[i]| ::
              i * BLOCK_SIZE + k < |Flat(contents[..n])| && Flat(contents[..n])[i * BLOCK_SIZE + k] == contents[i][k]
    decreases n
  {
    if n > 0 {
      hide FileOk;
      FlatAt(f, contents, n - 1);
      assert contents[..n][..n - 1] == contents[..n - 1];
      OffsetIs(f, n - 1);
      assert Flat(contents[..n]) == Flat(contents[..n - 1]) + contents[n - 1];
    }
  }

  /** One write of a block's stream: `count` bytes from position `from` of block `block`. */
  datatype Piece = Piece(block: nat, from: nat, count: nat)

  predicate Fits(contents: seq<Bytes>, piece: Piece) {
    piece.block < |contents| && piece.from + piece.count <= |contents[piece.block]|
  }

  predicate Reaches(piece: Piece, i: nat, k: nat) { piece.block == i && piece.from <= k < piece.from + piece.count }

  ghost predicate ReachedBy(schedule: seq<Piece>, i: nat, k: nat) {
    exists j | 0 <= j < |schedule| :: Reaches(schedule[j], i, k)
  }

  /** Any interleaving, at any grain, of parts of the block streams. */
  ghost predicate AllFit(contents: seq<Bytes>, schedule: seq<Piece>) {
    forall j | 0 <= j < |schedule| :: Fits(contents, schedule[j])
  }

  /** Every byte of every block is written by some piece. */
  ghost predicate Complete(contents: seq<Bytes>, schedule: seq<Piece>) {
    forall i, k | 0 <= i < |contents| && 0 <= k < |contents[i]| :: ReachedBy(schedule, i, k)
  }

  method ComputeOffsets(f: File) returns (offsets: seq<int>)
    ensures |offsets| == |f.blocks| && forall i | 0 <= i < |offsets| :: offsets[i] == Offset(f.blocks, i)
  {
    offsets := [];
    var next := 0;
    for i := 0 to |f.blocks|
      invariant |offsets| == i && next == Offset(f.blocks, i)
      invariant forall k | 0 <= k < i :: offsets[k] == Offset(f.blocks, k)
    {
      assert f.blocks[..i + 1][..i] == f.blocks[..i];
      offsets := offsets + [next];
      next := next + f.blocks[i].size;
    }
  }

  /** One piece lands at its block's offset. */
  method WritePiece(output: array<Byte>, offset: nat, content: Bytes, from: nat, count: nat)
    requires from + count <= |content| && offset + |content| <= output.Length
    modifies output
    ensures forall p | 0 <= p < output.Length ::
              output[p] == if offset + from <= p < offset + from + count then content[p - offset] else old(output[p])
  {
    for k := 0 to count
      invariant forall p | 0 <= p < output.Length ::
                  output[p] == if offset + from <= p < offset + from + k then content[p - offset] else old(output[p])
    {
      output[offset + from + k] := content[from + k];
    }
  }

  lemma PieceAgrees(f: File, contents: seq<Bytes>, i: nat, p: nat)
    requires FileOk(f) && Verifies(f, contents) && i < |contents|
    requires Offset(f.blocks, i) <= p < Offset(f.blocks, i) + |contents[i]|
    ensures |Flat(contents)| == f.size && p < f.size
    ensures Flat(contents)[p] == contents[i][p - Offset(f.blocks, i)]
  {
    FlatAt(f, contents, |contents|);
    assert contents[..|contents|] == contents && f.blocks[..|contents|] == f.blocks;
    OffsetIs(f, i);
    var k := p - Offset(f.blocks, i);
    assert Flat(contents)[i * BLOCK_SIZE + k] == contents[i][k];
  }

  /** The first `j` pieces include one that writes byte `p` of the file. */
  ghost predicate Done(schedule: seq<Piece>, j: nat, p: nat)
    requires j <= |schedule|
  {
    ReachedBy(schedule[..j], p / BLOCK_SIZE, p % BLOCK_SIZE)
  }

  lemma PieceRange(f: File, contents: seq<Bytes>, piece: Piece, p: nat)
    requires FileOk(f) && Verifies(f, contents) && Fits(contents, piece)
    ensures Reaches(piece, p / BLOCK_SIZE, p % BLOCK_SIZE) <==>
              Offset(f.blocks, piece.block) + piece.from <= p < Offset(f.blocks, piece.block) + piece.from + piece.count
  {
    OffsetIs(f, piece.block);
    EveryBlock(f, piece.block);
  }

  /** What a block's object delivers: some bytes, and whether the transfer then failed. */
  datatype Stream = Stream(bytes: Bytes, failed: bool)

  /** A download copies at most one byte more than the block should have. */
  function Copied(block: Block, stream: Stream): Bytes {
    if |stream.bytes| <= block.size + 1 then stream.bytes
    else if block.size >= 0 then stream.bytes[..block.size + 1] else []
  }

  function AllCopied(f: File, streams: seq<Stream>): seq<Bytes>
    requires |streams| == |f.blocks|
  {
    seq(|streams|, i requires 0 <= i < |streams| => Copied(f.blocks[i], streams[i]))
  }

  /** No transfer failed, and every object holds exactly its block. */
  predicate Intact(f: File, streams: seq<Stream>) {
    && |streams| == |f.blocks|
    && forall i | 0 <= i < |streams| ::
         !streams[i].failed && |streams[i].bytes| == f.blocks[i].size
         && ContentDigest(streams[i].bytes) == f.blocks[i].hash
  }

  lemma CopiedIs(f: File, streams: seq<Stream>)
    requires FileOk(f) && Intact(f, streams)
    ensures Verifies(f, AllCopied(f, streams))
    ensures forall i | 0 <= i < |streams| :: AllCopied(f, streams)[i] == streams[i].bytes
  {
  }

  lemma CopiedFits(f: File, streams: seq<Stream>, i: nat)
    requires FileOk(f) && |streams| == |f.blocks| && i < |streams|
    ensures 0 <= Offset(f.blocks, i) && Offset(f.blocks, i) + |Copied(f.blocks[i], streams[i])| <= f.size + 1
  {
    OffsetIs(f, i);
    EveryBlock(f, i);
  }

  /** After copying, each block is checked: the length copied, the digest of it, and the transfer's end. */
  method CheckCopies(f: File, streams: seq<Stream>) returns (ok: bool)
    requires |streams| == |f.blocks|
    ensures ok == Intact(f, streams)
  {
    for i := 0 to |streams|
      invariant forall k | 0 <= k < i ::
                  !streams[k].failed && |streams[k].bytes| == f.blocks[k].size
                  && ContentDigest(streams[k].bytes) == f.blocks[k].hash
    {
      var copied := Copied(f.blocks[i], streams[i]);
      if streams[i].failed || |copied| != f.blocks[i].size || ContentDigest(copied) != f.blocks[i].hash {
        return false;
      }
    }
    return true;
  }

  /** Piece `j` of the schedule is written at its block's offset. */
  method WriteNext(f: File, streams: seq<Stream>, schedule: seq<Piece>, j: nat, offsets: seq<int>, output: array<Byte>)
    requires FileOk(f) && |streams| == |f.blocks| && AllFit(AllCopied(f, streams), schedule) && j < |schedule|
    requires 0 < f.size < output.Length && output.Length == f.size + 1
    requires |offsets| == |f.blocks| && forall i | 0 <= i < |offsets| :: offsets[i] == Offset(f.blocks, i)
    requires Intact(f, streams) ==>
               && Verifies(f, AllCopied(f, streams)) && |Flat(AllCopied(f, streams))| == f.size
               && AllDone(f, AllCopied(f, streams), schedule, j, output[..])
    modifies output
    ensures Intact(f, streams) ==> AllDone(f, AllCopied(f, streams), schedule, j + 1, output[..])
  {
    hide FileOk, AllFit, Flat, Offset, Intact, Verifies, Fits, AllDone, Done;
    var contents := AllCopied(f, streams);
    var piece := schedule[j];
    PieceIsCopied(f, streams, contents, schedule, j);
    CopiedFits(f, streams, piece.block);
    ghost var before := output[..];
    WritePiece(output, offsets[piece.block], contents[piece.block], piece.from, piece.count);
    if Intact(f, streams) {
      PieceIsDone(f, contents, schedule, j, offsets[piece.block], before, output[..]);
    }
  }

  /**
   * The file a download leaves. The writes land in any order, before anything is checked, and all of them do unless
   * some block fails; a block that overruns may spill a byte into its neighbour or past the end. If a check fails
   * the file is removed.
   */
  method DownloadFile(f: File, streams: seq<Stream>, schedule: seq<Piece>) returns (r: Option<Bytes>)
    requires FileOk(f) && |streams| == |f.blocks| && AllFit(AllCopied(f, streams), schedule)
    requires Intact(f, streams) ==> Complete(AllCopied(f, streams), schedule)
    ensures r.Some? <==> Intact(f, streams)
    ensures r.Some? ==> r.value == Flat(AllCopied(f, streams)) && |r.value| == f.size
  {
    assert f.size > 0;
    hide FileOk, AllFit, Complete, Flat, Offset, Intact, Verifies, Fits, AllDone, Done;
    var contents := AllCopied(f, streams);
    var output := new Byte[f.size + 1](i => 0);
    var offsets := ComputeOffsets(f);
    if Intact(f, streams) {
      CopiedIs(f, streams);
      FlatLength(f, contents);
      NothingDone(f, contents, schedule, output[..]);
    }
    for j := 0 to |schedule|
      invariant Intact(f, streams) ==> AllDone(f, contents, schedule, j, output[..])
    {
      WriteNext(f, streams, schedule, j, offsets, output);
    }
    var ok := CheckCopies(f, streams);
    if !ok { return None; }
    EverythingDone(f, contents, schedule, output[..]);
    assert output[..f.size] == output[..][..f.size];
    return Some(output[..f.size]);
  }

  /** Whatever the first `j` pieces reached is in place. */
  ghost predicate AllDone(f: File, contents: seq<Bytes>, schedule: seq<Piece>, j: nat, output: Bytes)
    requires j <= |schedule| && 0 < f.size < |output| && f.size == |Flat(contents)|
  {
    forall p | 0 <= p < f.size && Done(schedule, j, p) :: output[p] == Flat(contents)[p]
  }

  lemma NothingDone(f: File, contents: seq<Bytes>, schedule: seq<Piece>, output: Bytes)
    requires 0 < f.size < |output| && f.size == |Flat(contents)|
    ensures AllDone(f, contents, schedule, 0, output)
  {
  }

  lemma PieceIsDone(f: File, contents: seq<Bytes>, schedule: seq<Piece>, j: nat, offset: nat,
                    before: Bytes, after: Bytes)
    requires FileOk(f) && Verifies(f, contents) && AllFit(contents, schedule) && j < |schedule|
    requires 0 < f.size < |before| && |before| == |after| && f.size == |Flat(contents)|
    requires schedule[j].block < |contents| && offset == Offset(f.blocks, schedule[j].block)
    requires schedule[j].from + schedule[j].count <= |contents[schedule[j].block]|
    requires AllDone(f, contents, schedule, j, before)
    requires var piece := schedule[j];
             forall p | 0 <= p < |after| ::
               after[p] == if offset + piece.from <= p < offset + piece.from + piece.count
                           then contents[piece.block][p - offset] else before[p]
    ensures AllDone(f, contents, schedule, j + 1, after)
  {
    hide FileOk, AllFit, Flat, Offset, Verifies, Fits, Reaches;
    var piece := schedule[j];
    PieceFits(contents, schedule, j);
    forall p | 0 <= p < f.size && Done(schedule, j + 1, p) ensures after[p] == Flat(contents)[p] {
      PieceRange(f, contents, piece, p);
      if Reaches(piece, p / BLOCK_SIZE, p % BLOCK_SIZE) {
        PieceLands(f, contents, piece, p);
      } else {
        DoneBefore(schedule, j, p);
        assert before[p] == Flat(contents)[p];
      }
    }
  }

  lemma DoneBefore(schedule: seq<Piece>, j: nat, p: nat)
    requires j < |schedule| && Done(schedule, j + 1, p)
    requires !Reaches(schedule[j], p / BLOCK_SIZE, p % BLOCK_SIZE)
    ensures Done(schedule, j, p)
  {
    hide Reaches;
    var b, r := p / BLOCK_SIZE, p % BLOCK_SIZE;
    var i :| 0 <= i < |schedule[..j + 1]| && Reaches(schedule[..j + 1][i], b, r);
    assert schedule[..j][i] == schedule[..j + 1][i];
  }

  lemma EverythingDone(f: File, contents: seq<Bytes>, schedule: seq<Piece>, output: Bytes)
    requires FileOk(f) && Verifies(f, contents) && Complete(contents, schedule)
    requires 0 < f.size < |output| && f.size == |Flat(contents)|
    requires AllDone(f, contents, schedule, |schedule|, output)
    ensures output[..f.size] == Flat(contents)
  {
    hide FileOk, Complete, Flat, Verifies, ReachedBy;
    assert schedule[..|schedule|] == schedule;
    forall p | 0 <= p < f.size ensures output[p] == Flat(contents)[p] {
      ByteIsReached(f, contents, schedule, p);
      assert Done(schedule, |schedule|, p);
    }
  }

  lemma PieceIsCopied(f: File, streams: seq<Stream>, contents: seq<Bytes>, schedule: seq<Piece>, j: nat)
    requires |streams| == |f.blocks| && contents == AllCopied(f, streams)
             && AllFit(contents, schedule) && j < |schedule|
    ensures schedule[j].block < |streams|
    ensures contents[schedule[j].block] == Copied(f.blocks[schedule[j].block], streams[schedule[j].block])
    ensures schedule[j].from + schedule[j].count <= |contents[schedule[j].block]|
  {
    assert Fits(contents, schedule[j]);
  }

  lemma PieceLands(f: File, contents: seq<Bytes>, piece: Piece, p: nat)
    requires FileOk(f) && Verifies(f, contents) && Fits(contents, piece)
    requires Offset(f.blocks, piece.block) + piece.from <= p < Offset(f.blocks, piece.block) + piece.from + piece.count
    ensures |Flat(contents)| == f.size && p < f.size
    ensures Flat(contents)[p] == contents[piece.block][p - Offset(f.blocks, piece.block)]
  {
    hide FileOk, Flat, Offset;
    PieceAgrees(f, contents, piece.block, p);
  }

  lemma PieceFits(contents: seq<Bytes>, schedule: seq<Piece>, j: nat)
    requires AllFit(contents, schedule) && j < |schedule|
    ensures Fits(contents, schedule[j])
  {
  }

  lemma FlatLength(f: File, contents: seq<Bytes>)
    requires FileOk(f) && Verifies(f, contents)
    ensures |Flat(contents)| == f.size
  {
    FlatAt(f, contents, |contents|);
    assert contents[..|contents|] == contents && f.blocks[..|contents|] == f.blocks;
  }

  lemma ByteIsReached(f: File, contents: seq<Bytes>, schedule: seq<Piece>, p: nat)
    requires FileOk(f) && Verifies(f, contents) && Complete(contents, schedule) && p < f.size
    ensures ReachedBy(schedule, p / BLOCK_SIZE, p % BLOCK_SIZE)
  {
    hide FileOk, Offset;
    var i := p / BLOCK_SIZE;
    BlocksTile(f, p);
    OffsetIs(f, i);
    assert p % BLOCK_SIZE < |contents[i]|;
    assert ReachedBy(schedule, i, p % BLOCK_SIZE);
  }

  /** Uploading a file and downloading what verifies as its blocks gives back the file, byte for byte. */
  lemma RoundTrip(source: Source, placed: nat -> nat, f: File, contents: seq<Bytes>)
    requires Uploaded(source, placed, f) && source.role != UnknownRole && Verifies(f, contents)
    ensures Flat(contents) == source.content
  {
    hide FileOk, Offset, Flat;
    SourceIsAccepted(source, placed, f);
    FlatLength(f, contents);
    forall p | 0 <= p < |source.content| ensures Flat(contents)[p] == source.content[p] {
      var i := p / BLOCK_SIZE;
      BlocksTile(f, p);
      OffsetIs(f, i);
      assert f.blocks[i] == BlockAt(source.content, placed, i);
      assert contents[i] == Chunk(source.content, i);
      PieceAgrees(f, contents, i, p);
    }
  }

  /** So whatever order the writes land in, a download of an uploaded file that succeeds returns that file. */
  lemma DownloadReturnsUpload(source: Source, placed: nat -> nat, f: File, streams: seq<Stream>)
    requires Uploaded(source, placed, f) && source.role != UnknownRole && Intact(f, streams)
    ensures Flat(AllCopied(f, streams)) == source.content
  {
    hide Uploaded, FileOk, Flat, Intact;
    SourceIsAccepted(source, placed, f);
    CopiedIs(f, streams);
    RoundTrip(source, placed, f, AllCopied(f, streams));
  }
}
