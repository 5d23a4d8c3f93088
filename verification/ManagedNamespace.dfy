/**
 * Managed namespaces (internal/objstore/namespace.go): the object prefix derived from an installation root and a
 * cluster's immutable identity, and the check that keeps a bound bucket inside its prefix. Strings are bytes.
 */
module ManagedNamespace {
  import opened ByteStrings
  import opened Options

  const SLASH: Byte := 47
  const CLUSTERS: Bytes := [99, 108, 117, 115, 116, 101, 114, 115]
  const GENERATIONS: Bytes := [103, 101, 110, 101, 114, 97, 116, 105, 111, 110, 115]
  const ASSIGNMENTS: Bytes := [97, 115, 115, 105, 103, 110, 109, 101, 110, 116, 115]
  const DOT: Bytes := [46]
  const DOTS: Bytes := [46, 46]
  const MAX_INT64: nat := 0x7FFF_FFFF_FFFF_FFFF

  // ------------------------------------------------------------------------ strings as the code sees them

  /** strings.Split(s, "/") */
  function Split(s: Bytes): (parts: seq<Bytes>)
    ensures |parts| > 0
  {
    if s == [] then [[]]
    else
      var more := Split(s[1..]);
      if s[0] == SLASH then [[]] + more else [[s[0]] + more[0]] + more[1..]
  }

  function Join(parts: seq<Bytes>): Bytes {
    if parts == [] then [] else if |parts| == 1 then parts[0] else parts[0] + [SLASH] + Join(parts[1..])
  }

  /** The lexical part of path.Clean for a relative path: drop empty and "." elements, resolve "..". */
  function Clean(parts: seq<Bytes>): seq<Bytes> {
    if parts == [] then []
    else
      var before, last := Clean(parts[..|parts| - 1]), parts[|parts| - 1];
      if last == [] || last == DOT then before
      else if last == DOTS && before != [] && before[|before| - 1] != DOTS then before[..|before| - 1]
      else before + [last]
  }

  /** The UTF-8 forms of the runes unicode.IsSpace accepts. */
  predicate IsSpace(p: Bytes) {
    || (|p| == 1 && (9 <= p[0] <= 13 || p[0] == 32))
    || p == [0xC2, 0x85] || p == [0xC2, 0xA0] || p == [0xE1, 0x9A, 0x80]
    || (|p| == 3 && p[..2] == [0xE2, 0x80] && (0x80 <= p[2] <= 0x8A || p[2] == 0xA8 || p[2] == 0xA9 || p[2] == 0xAF))
    || p == [0xE2, 0x81, 0x9F] || p == [0xE3, 0x80, 0x80]
  }

  /** The first, or the last, `n` bytes are a white space character. */
  predicate SpaceFirst(s: Bytes, n: nat) { |s| >= n && IsSpace(s[..n]) }

  predicate SpaceLast(s: Bytes, n: nat) { |s| >= n && IsSpace(s[|s| - n..]) }

  predicate StartsWithSpace(s: Bytes) { SpaceFirst(s, 1) || SpaceFirst(s, 2) || SpaceFirst(s, 3) }

  predicate EndsWithSpace(s: Bytes) { SpaceLast(s, 1) || SpaceLast(s, 2) || SpaceLast(s, 3) }

  /** strings.TrimSpace(s) == s */
  predicate Trimmed(s: Bytes) { !StartsWithSpace(s) && !EndsWithSpace(s) }

  predicate Continues(b: Byte) { 0x80 <= b <= 0xBF }

  /** utf8.ValidString */
  predicate ValidUtf8(s: Bytes) {
    if s == [] then true
    else if s[0] < 0x80 then ValidUtf8(s[1..])
    else if 0xC2 <= s[0] <= 0xDF then |s| >= 2 && Continues(s[1]) && ValidUtf8(s[2..])
    else if 0xE0 <= s[0] <= 0xEF then
      && |s| >= 3 && Continues(s[1]) && Continues(s[2]) && ValidUtf8(s[3..])
      && (s[0] == 0xE0 ==> s[1] >= 0xA0) && (s[0] == 0xED ==> s[1] <= 0x9F)
    else
      && 0xF0 <= s[0] <= 0xF4 && |s| >= 4 && Continues(s[1]) && Continues(s[2]) && Continues(s[3]) && ValidUtf8(s[4..])
      && (s[0] == 0xF0 ==> s[1] >= 0x90) && (s[0] == 0xF4 ==> s[1] <= 0x8F)
  }

  function HexDigit(n: nat): Byte
    requires n < 16
  {
    if n < 10 then (48 + n) as Byte else (87 + n) as Byte
  }

  function Hex(s: Bytes): Bytes {
    if s == [] then [] else [HexDigit(s[0] as nat / 16), HexDigit(s[0] as nat % 16)] + Hex(s[1..])
  }

  function Decimal(n: nat): Bytes {
    if n < 10 then [(48 + n) as Byte] else Decimal(n / 10) + [(48 + n % 10) as Byte]
  }

  // --------------------------------------------------------------------------------- the operations

  predicate Plain(part: Bytes) { part != [] && part != DOT && part != DOTS }

  predicate AllPlain(parts: seq<Bytes>) { forall i | 0 <= i < |parts| :: Plain(parts[i]) }

  predicate Clear(s: Bytes) { 92 !in s && 37 !in s && 0 !in s }

  predicate ValidNamespacePath(name: Bytes, allowEmpty: bool) {
    if name == [] then allowEmpty
    else
      && Clear(name) && Trimmed(name) && name[0] != SLASH && name[|name| - 1] != SLASH
      && AllPlain(Split(name))
  }

  /** What a namespace is derived from. */
  datatype Tuple = Tuple(root: Bytes, uid: Bytes, generation: int, assignment: Bytes, cluster: Bytes)

  predicate ValidIdentity(s: Bytes) { s != [] && |s| <= 256 && ValidUtf8(s) && Trimmed(s) && 0 !in s }

  predicate ValidTuple(t: Tuple) {
    && ValidNamespacePath(t.root, true) && ValidNamespacePath(t.cluster, false) && SLASH !in t.cluster
    && ValidIdentity(t.uid) && ValidIdentity(t.assignment) && 0 <= t.generation <= MAX_INT64
    && CLUSTERS !in Split(t.root)
  }

  function RootParts(root: Bytes): seq<Bytes> { if root == [] then [] else Split(root) }

  function Tail(t: Tuple): seq<Bytes>
    requires t.generation >= 0
  {
    [CLUSTERS, Hex(t.uid), GENERATIONS, Decimal(t.generation), ASSIGNMENTS, Hex(t.assignment)]
  }

  /** ManagedNamespacePrefixes: the final prefix, or nothing for an invalid tuple. */
  function FinalPrefix(t: Tuple): Option<Bytes> {
    if !ValidTuple(t) then None
    else Some(Join(Clean(RootParts(t.root) + Tail(t))) + [SLASH] + t.cluster)
  }

  predicate Within(name: Bytes, prefix: Bytes) { name == prefix || prefix + [SLASH] <= name }

  function TrimSlash(name: Bytes): Bytes {
    if name != [] && name[|name| - 1] == SLASH then name[..|name| - 1] else name
  }

  /** namespaceBucket.check: whether a bucket bound to `prefix` lets a key (or a listing) through. */
  predicate Check(prefix: Bytes, key: Bytes, listing: bool) {
    var name := if listing then TrimSlash(key) else key;
    ValidNamespacePath(name, false) && Within(name, prefix) && (listing || name != prefix)
  }

  // ------------------------------------------------------------------------------------ components

  predicate NoSlash(parts: seq<Bytes>) { forall i | 0 <= i < |parts| :: SLASH !in parts[i] }

  lemma {:induction false} SplitPiece(a: Bytes)
    requires SLASH !in a
    ensures Split(a) == [a]
  {
    if a != [] {
      SplitPiece(a[1..]);
      assert a == [a[0]] + a[1..];
    }
  }

  /** One more byte in front: a new first component, or a longer one. */
  function Prepend(c: Byte, parts: seq<Bytes>): seq<Bytes>
    requires parts != []
  {
    if c == SLASH then [[]] + parts else [[c] + parts[0]] + parts[1..]
  }

  lemma SplitStep(s: Bytes)
    requires s != []
    ensures Split(s) == Prepend(s[0], Split(s[1..]))
  {
  }

  lemma SplitNothing()
    ensures Split([]) == [[]]
  {
  }

  lemma PrependConcat(c: Byte, x: seq<Bytes>, y: seq<Bytes>)
    requires x != []
    ensures Prepend(c, x + y) == Prepend(c, x) + y
  {
    assert (x + y)[1..] == x[1..] + y;
    Regroup([[]], x, y);
    Regroup([[c] + x[0]], x[1..], y);
  }

  lemma Regroup(a: seq<Bytes>, b: seq<Bytes>, c: seq<Bytes>)
    ensures a + (b + c) == (a + b) + c
  {
  }

  /** Splitting at a slash. */
  lemma {:induction false} SplitConcat(a: Bytes, b: Bytes)
    ensures Split(a + [SLASH] + b) == Split(a) + Split(b)
  {
    hide Split, Prepend;
    var s := a + [SLASH] + b;
    SplitStep(s);
    if a == [] {
      assert s[1..] == b;
      SplitNothing();
      assert Prepend(SLASH, Split(b)) == [[]] + Split(b) by { PrependSlash(Split(b)); }
    } else {
      assert s[1..] == a[1..] + [SLASH] + b;
      SplitConcat(a[1..], b);
      SplitStep(a);
      PrependConcat(a[0], Split(a[1..]), Split(b));
    }
  }

  lemma PrependSlash(parts: seq<Bytes>)
    requires parts != []
    ensures Prepend(SLASH, parts) == [[]] + parts
  {
  }

  lemma {:induction false} SplitJoin(parts: seq<Bytes>)
    requires parts != [] && NoSlash(parts)
    ensures Split(Join(parts)) == parts
    decreases |parts|
  {
    SplitPiece(parts[0]);
    if |parts| > 1 {
      SplitJoin(parts[1..]);
      SplitConcat(parts[0], Join(parts[1..]));
    }
  }

  lemma {:induction false} JoinSplit(s: Bytes)
    ensures Join(Split(s)) == s && NoSlash(Split(s))
  {
    if s != [] {
      JoinSplit(s[1..]);
      var more := Split(s[1..]);
      assert s == [s[0]] + s[1..];
      if s[0] == SLASH {
        assert Split(s)[1..] == more;
      } else {
        assert Split(s)[1..] == more[1..];
      }
    }
  }

  /** A key at or below a prefix extends its components. */
  lemma WithinExtends(name: Bytes, prefix: Bytes)
    requires Within(name, prefix)
    ensures Split(prefix) <= Split(name)
  {
    if name != prefix {
      var rest := name[|prefix| + 1..];
      assert name == prefix + [SLASH] + rest;
      SplitConcat(prefix, rest);
    }
  }

  lemma {:induction false} CleanPlain(parts: seq<Bytes>)
    requires AllPlain(parts)
    ensures Clean(parts) == parts
    decreases |parts|
  {
    if parts != [] {
      CleanPlain(parts[..|parts| - 1]);
      assert parts == parts[..|parts| - 1] + [parts[|parts| - 1]];
    }
  }

  // ----------------------------------------------------------------------------- hex and decimal

  lemma {:induction false} HexInjective(a: Bytes, b: Bytes)
    requires Hex(a) == Hex(b)
    ensures a == b
    decreases |a|
  {
    if a != [] && b != [] {
      assert Hex(a)[0] == Hex(b)[0] && Hex(a)[1] == Hex(b)[1];
      assert Hex(a)[2..] == Hex(a[1..]) && Hex(b)[2..] == Hex(b[1..]);
      HexInjective(a[1..], b[1..]);
      assert a == [a[0]] + a[1..] && b == [b[0]] + b[1..];
    }
  }

  predicate HexText(s: Bytes) { forall i | 0 <= i < |s| :: 48 <= s[i] <= 57 || 97 <= s[i] <= 102 }

  lemma {:induction false} HexIsText(s: Bytes)
    ensures HexText(Hex(s)) && |Hex(s)| == 2 * |s|
  {
    if s != [] { HexIsText(s[1..]); }
  }

  lemma {:induction false} DecimalInjective(m: nat, n: nat)
    requires Decimal(m) == Decimal(n)
    ensures m == n
    decreases m
  {
    DecimalLength(m);
    DecimalLength(n);
    if m >= 10 && n >= 10 {
      var x, y := Decimal(m), Decimal(n);
      assert x[..|x| - 1] == Decimal(m / 10) && y[..|y| - 1] == Decimal(n / 10);
      assert x[|x| - 1] == (48 + m % 10) as Byte && y[|y| - 1] == (48 + n % 10) as Byte;
      DecimalInjective(m / 10, n / 10);
    } else if m < 10 && n < 10 {
      assert Decimal(m)[0] == Decimal(n)[0];
    }
  }

  lemma {:induction false} DecimalLength(n: nat)
    ensures |Decimal(n)| >= 1 && (|Decimal(n)| == 1 <==> n < 10) && HexText(Decimal(n))
  {
    if n >= 10 { DecimalLength(n / 10); }
  }

  // ------------------------------------------------------------------------ the derived components

  function Parts(t: Tuple): seq<Bytes>
    requires t.generation >= 0
  {
    RootParts(t.root) + Tail(t) + [t.cluster]
  }

  lemma HexTextIsTidy(s: Bytes)
    requires HexText(s) && s != []
    ensures Tidy(s)
  {
    assert 48 <= s[0] <= 57 || 97 <= s[0] <= 102;
  }

  predicate Tidy(part: Bytes) { Plain(part) && SLASH !in part && Clear(part) }

  lemma NamesAreTidy()
    ensures Tidy(CLUSTERS) && Tidy(GENERATIONS) && Tidy(ASSIGNMENTS)
  {
    LowerCaseIsTidy(CLUSTERS);
    LowerCaseIsTidy(GENERATIONS);
    LowerCaseIsTidy(ASSIGNMENTS);
  }

  lemma LowerCaseIsTidy(s: Bytes)
    requires s != [] && forall i | 0 <= i < |s| :: 97 <= s[i] <= 122
    ensures Tidy(s)
  {
    assert 97 <= s[0] <= 122;
  }

  lemma TailIsTidy(t: Tuple)
    requires ValidTuple(t)
    ensures forall i | 0 <= i < |Tail(t)| :: Tidy(Tail(t)[i])
  {
    hide Tidy, ValidNamespacePath, ValidUtf8, Trimmed, Hex, Decimal;
    HexIsText(t.uid);
    HexIsText(t.assignment);
    DecimalLength(t.generation);
    HexTextIsTidy(Hex(t.uid));
    HexTextIsTidy(Hex(t.assignment));
    HexTextIsTidy(Decimal(t.generation));
    NamesAreTidy();
    AllTidy(CLUSTERS, Hex(t.uid), GENERATIONS, Decimal(t.generation), ASSIGNMENTS, Hex(t.assignment));
  }

  lemma AllTidy(a: Bytes, b: Bytes, c: Bytes, d: Bytes, e: Bytes, f: Bytes)
    requires Tidy(a) && Tidy(b) && Tidy(c) && Tidy(d) && Tidy(e) && Tidy(f)
    ensures forall i | 0 <= i < 6 :: Tidy([a, b, c, d, e, f][i])
  {
    hide Tidy;
  }

  lemma TailIsPlain(t: Tuple)
    requires ValidTuple(t)
    ensures AllPlain(Tail(t)) && NoSlash(Tail(t))
  {
    hide ValidNamespacePath, Hex, Decimal, Tail;
    TailIsTidy(t);
    forall i | 0 <= i < |Tail(t)| ensures Plain(Tail(t)[i]) && SLASH !in Tail(t)[i] { assert Tidy(Tail(t)[i]); }
  }

  lemma RootIsPlain(t: Tuple)
    requires ValidTuple(t)
    ensures AllPlain(RootParts(t.root)) && NoSlash(RootParts(t.root))
    ensures t.root != [] ==> Join(RootParts(t.root)) == t.root
  {
    JoinSplit(t.root);
  }

  /** path.Join leaves the derived path as it is, and its components are the tuple's. */
  lemma FinalParts(t: Tuple)
    requires ValidTuple(t)
    ensures FinalPrefix(t) == Some(Join(RootParts(t.root) + Tail(t)) + [SLASH] + t.cluster)
    ensures Split(FinalPrefix(t).value) == Parts(t)
  {
    hide ValidNamespacePath, ValidIdentity, Tail;
    var config := RootParts(t.root) + Tail(t);
    RootIsPlain(t);
    TailIsPlain(t);
    CleanPlain(config);
    TailLength(t);
    SplitJoin(config);
    SplitPiece(t.cluster);
    SplitConcat(Join(config), t.cluster);
  }

  lemma TailLength(t: Tuple)
    requires t.generation >= 0
    ensures |Tail(t)| == 6 && Tail(t)[0] == CLUSTERS
  {
  }

  /** The reserved component occurs first right after the root. */
  lemma RootsAlign(t: Tuple, u: Tuple)
    requires ValidTuple(t) && ValidTuple(u) && Parts(t) <= Parts(u)
    ensures |RootParts(t.root)| == |RootParts(u.root)|
  {
    hide ValidNamespacePath, ValidIdentity, Split, Tail;
    var r, q := RootParts(t.root), RootParts(u.root);
    TailLength(t);
    TailLength(u);
    assert Parts(t)[|r|] == CLUSTERS && Parts(u)[|q|] == CLUSTERS;
    assert forall i | 0 <= i < |r| :: Parts(t)[i] == r[i];
    assert forall i | 0 <= i < |q| :: Parts(u)[i] == q[i];
  }

  lemma SamePartsSameTuple(t: Tuple, u: Tuple)
    requires ValidTuple(t) && ValidTuple(u) && Parts(t) == Parts(u) && |RootParts(t.root)| == |RootParts(u.root)|
    ensures t == u
  {
    hide ValidNamespacePath, ValidIdentity, Split, Hex, Decimal, Join;
    var n := |RootParts(t.root)|;
    var x, y := Parts(t), Parts(u);
    assert x[..n] == RootParts(t.root) && y[..n] == RootParts(u.root);
    assert x[n + 1] == Hex(t.uid) && y[n + 1] == Hex(u.uid);
    assert x[n + 3] == Decimal(t.generation) && y[n + 3] == Decimal(u.generation);
    assert x[n + 5] == Hex(t.assignment) && y[n + 5] == Hex(u.assignment);
    assert x[n + 6] == t.cluster && y[n + 6] == u.cluster;
    HexInjective(t.uid, u.uid);
    DecimalInjective(t.generation, u.generation);
    HexInjective(t.assignment, u.assignment);
    JoinSplit(t.root);
    JoinSplit(u.root);
  }

  /** One derived prefix at or below another is the same tuple's. */
  lemma NestedPartsSameTuple(t: Tuple, u: Tuple)
    requires ValidTuple(t) && ValidTuple(u) && Parts(t) <= Parts(u)
    ensures t == u
  {
    hide ValidNamespacePath, ValidIdentity, Split, Hex, Decimal, Join;
    RootsAlign(t, u);
    assert |Parts(t)| == |Parts(u)|;
    assert Parts(t) == Parts(u);
    SamePartsSameTuple(t, u);
  }

  // --------------------------------------------------------------------------------- the theorems

  /** Distinct tuples have prefixes of which neither equals or contains the other. */
  lemma PrefixesNeverNest(t: Tuple, u: Tuple)
    requires ValidTuple(t) && ValidTuple(u) && t != u
    ensures FinalPrefix(t).Some? && FinalPrefix(u).Some?
    ensures !Within(FinalPrefix(t).value, FinalPrefix(u).value)
    ensures !Within(FinalPrefix(u).value, FinalPrefix(t).value)
  {
    hide ValidTuple, Within, Parts;
    FinalParts(t);
    FinalParts(u);
    var p, q := FinalPrefix(t).value, FinalPrefix(u).value;
    if Within(p, q) {
      WithinExtends(p, q);
      NestedPartsSameTuple(u, t);
    }
    if Within(q, p) {
      WithinExtends(q, p);
      NestedPartsSameTuple(t, u);
    }
  }

  lemma CheckedName(prefix: Bytes, key: Bytes, listing: bool)
    requires Check(prefix, key, listing)
    ensures Within(TrimSlash(key), prefix)
  {
  }

  /** No key, read as an object or as a listing, passes the checks of two buckets bound to distinct tuples. */
  lemma NoKeyPassesBoth(t: Tuple, u: Tuple, key: Bytes, listing: bool, listing': bool)
    requires ValidTuple(t) && ValidTuple(u) && t != u
    ensures FinalPrefix(t).Some? && FinalPrefix(u).Some?
    ensures !(Check(FinalPrefix(t).value, key, listing) && Check(FinalPrefix(u).value, key, listing'))
  {
    hide ValidTuple, Within, Parts, Check;
    FinalParts(t);
    FinalParts(u);
    var p, q := FinalPrefix(t).value, FinalPrefix(u).value;
    if Check(p, key, listing) && Check(q, key, listing') {
      CheckedName(p, key, listing);
      CheckedName(q, key, listing');
      WithinExtends(TrimSlash(key), p);
      WithinExtends(TrimSlash(key), q);
      if |Split(p)| <= |Split(q)| { NestedPartsSameTuple(t, u); } else { NestedPartsSameTuple(u, t); }
    }
  }

  lemma {:induction false} JoinConcat(a: seq<Bytes>, b: seq<Bytes>)
    requires a != [] && b != []
    ensures Join(a + b) == Join(a) + [SLASH] + Join(b)
    decreases |a|
  {
    assert (a + b)[1..] == a[1..] + b;
    if |a| > 1 { JoinConcat(a[1..], b); } else { assert a[1..] == []; }
  }

  lemma {:induction false} JoinIsClear(parts: seq<Bytes>)
    requires forall i | 0 <= i < |parts| :: Clear(parts[i])
    ensures Clear(Join(parts))
    decreases |parts|
  {
    if |parts| > 1 { JoinIsClear(parts[1..]); }
  }

  lemma SpaceHasNoSlash(p: Bytes)
    requires IsSpace(p)
    ensures SLASH !in p
  {
    if |p| == 3 && p[..2] == [0xE2, 0x80] { assert p == [0xE2, 0x80, p[2]]; }
  }

  lemma LeadPiece(a: Bytes, m: Bytes, n: nat)
    requires 0 < n && !SpaceFirst(a, n)
    ensures !SpaceFirst(a + ([SLASH] + m), n)
  {
    hide IsSpace;
    var s := a + ([SLASH] + m);
    if n <= |a| {
      assert s[..n] == a[..n];
    } else if n <= |s| {
      assert s[..n][|a|] == SLASH;
      if IsSpace(s[..n]) { SpaceHasNoSlash(s[..n]); }
    }
  }

  lemma TrailPiece(m: Bytes, b: Bytes, n: nat)
    requires 0 < n && !SpaceLast(b, n)
    ensures !SpaceLast((m + [SLASH]) + b, n)
  {
    hide IsSpace;
    var s := (m + [SLASH]) + b;
    if n <= |b| {
      assert s[|s| - n..] == b[|b| - n..];
    } else if n <= |s| {
      assert s[|s| - n..][n - |b| - 1] == SLASH;
      if IsSpace(s[|s| - n..]) { SpaceHasNoSlash(s[|s| - n..]); }
    }
  }

  lemma TrimmedStart(a: Bytes, m: Bytes)
    requires !StartsWithSpace(a)
    ensures !StartsWithSpace(a + ([SLASH] + m))
  {
    hide SpaceFirst;
    LeadPiece(a, m, 1);
    LeadPiece(a, m, 2);
    LeadPiece(a, m, 3);
  }

  lemma TrimmedEnd(m: Bytes, b: Bytes)
    requires !EndsWithSpace(b)
    ensures !EndsWithSpace((m + [SLASH]) + b)
  {
    hide SpaceLast;
    TrailPiece(m, b, 1);
    TrailPiece(m, b, 2);
    TrailPiece(m, b, 3);
  }

  /** Text that starts with one trimmed piece and ends with another, cut off by slashes, is trimmed. */
  lemma TrimmedEnds(s: Bytes, a: Bytes, b: Bytes, m: Bytes, k: Bytes)
    requires Trimmed(a) && Trimmed(b) && s == a + ([SLASH] + m) && s == (k + [SLASH]) + b
    ensures Trimmed(s)
  {
    hide StartsWithSpace, EndsWithSpace;
    TrimmedStart(a, m);
    TrimmedEnd(k, b);
  }

  lemma {:induction false} SplitIsClear(s: Bytes)
    requires Clear(s)
    ensures forall i | 0 <= i < |Split(s)| :: Clear(Split(s)[i])
  {
    if s != [] { SplitIsClear(s[1..]); }
  }

  /** The first component of a derived prefix, and the rest. */
  function Head(t: Tuple): Bytes { if t.root == [] then CLUSTERS else t.root }

  lemma HeadThenSlash(t: Tuple) returns (m: Bytes)
    requires ValidTuple(t)
    ensures Join(RootParts(t.root) + Tail(t)) == Head(t) + ([SLASH] + m)
  {
    hide ValidNamespacePath, ValidIdentity, Hex, Decimal;
    RootIsPlain(t);
    if t.root == [] {
      assert RootParts(t.root) + Tail(t) == Tail(t);
      m := Join(Tail(t)[1..]);
      assert Join(Tail(t)) == CLUSTERS + [SLASH] + m;
      Reassociate(CLUSTERS, m);
    } else {
      JoinConcat(RootParts(t.root), Tail(t));
      m := Join(Tail(t));
      Reassociate(t.root, m);
    }
  }

  lemma Reassociate(a: Bytes, m: Bytes)
    ensures a + [SLASH] + m == a + ([SLASH] + m)
  {
  }

  lemma HeadIsTrimmed(t: Tuple)
    requires ValidTuple(t)
    ensures Trimmed(Head(t)) && Head(t) != [] && Head(t)[0] != SLASH
  {
    hide ValidIdentity, Split;
    if t.root == [] { NameIsTrimmed(); }
  }

  lemma NameIsTrimmed()
    ensures Trimmed(CLUSTERS)
  {
    assert |CLUSTERS| == 8 && CLUSTERS[0] == 99 && CLUSTERS[7] == 115 && CLUSTERS[6] == 114 && CLUSTERS[5] == 101;
    LetterStarts(CLUSTERS);
    LetterEnds(CLUSTERS);
  }

  lemma LetterStarts(s: Bytes)
    requires |s| >= 3 && 97 <= s[0] <= 122
    ensures !StartsWithSpace(s)
  {
    assert s[..1][0] == s[0] && s[..2][0] == s[0] && s[..3][0] == s[0];
  }

  lemma LetterEnds(s: Bytes)
    requires |s| >= 3 && 97 <= s[|s| - 1] <= 122
    ensures !EndsWithSpace(s)
  {
    assert s[|s| - 1..][0] == s[|s| - 1] && s[|s| - 2..][1] == s[|s| - 1] && s[|s| - 3..][2] == s[|s| - 1];
  }

  lemma FinalIsClear(t: Tuple)
    requires ValidTuple(t)
    ensures Clear(Join(RootParts(t.root) + Tail(t)))
  {
    hide ValidIdentity, Hex, Decimal, Tail, Trimmed;
    TailIsTidy(t);
    SplitIsClear(t.root);
    var config := RootParts(t.root) + Tail(t);
    forall i | 0 <= i < |config| ensures Clear(config[i]) {
      if i >= |RootParts(t.root)| { assert Tidy(Tail(t)[i - |RootParts(t.root)|]); }
    }
    JoinIsClear(config);
  }

  lemma PartsArePlain(t: Tuple)
    requires ValidTuple(t)
    ensures AllPlain(Parts(t))
  {
    hide ValidIdentity, Hex, Decimal, Tail, Trimmed;
    RootIsPlain(t);
    TailIsPlain(t);
    SplitPiece(t.cluster);
    assert Plain(Split(t.cluster)[0]);
  }

  /** Every derived prefix is one a bucket can be bound to. */
  lemma DerivedPrefixIsBindable(t: Tuple)
    requires ValidTuple(t)
    ensures FinalPrefix(t).Some? && ValidNamespacePath(FinalPrefix(t).value, false)
  {
    hide ValidIdentity, Hex, Decimal, Tail, Trimmed, Parts, Split;
    FinalParts(t);
    var config := Join(RootParts(t.root) + Tail(t));
    var p := config + [SLASH] + t.cluster;
    var m := HeadThenSlash(t);
    HeadIsTrimmed(t);
    FinalIsClear(t);
    PartsArePlain(t);
    assert p == Head(t) + ([SLASH] + (m + [SLASH] + t.cluster));
    TrimmedEnds(p, Head(t), t.cluster, m + [SLASH] + t.cluster, config);
  }
}
