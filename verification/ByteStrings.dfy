/** Big-endian words and bytewise string order, as the graph-original codec uses them. */
module ByteStrings {

  newtype Byte = b: int | 0 <= b < 256
  type Bytes = seq<Byte>
  type U32 = n: int | 0 <= n < 0x1_0000_0000
  type U64 = n: int | 0 <= n < 0x1_0000_0000_0000_0000
  type I64 = n: int | -0x8000_0000_0000_0000 <= n < 0x8000_0000_0000_0000

  /** The bytes of a text in ASCII. */
  function Ascii(text: string): Bytes {
    seq(|text|, i requires 0 <= i < |text| => if text[i] < 128 as char then text[i] as int as Byte else 63)
  }

  // ------------------------------------------------------------------------------------- words

  type U16 = n: int | 0 <= n < 0x1_0000

  function PutU16(n: U16): (b: Bytes)
    ensures |b| == 2
  {
    [(n / 256) as Byte, (n % 256) as Byte]
  }

  function GetU16(b: Bytes): U16
    requires |b| == 2
  {
    (b[0] as int) * 256 + b[1] as int
  }

  function PutU32(n: U32): (b: Bytes)
    ensures |b| == 4
  {
    PutU16(n / 0x1_0000) + PutU16(n % 0x1_0000)
  }

  function GetU32(b: Bytes): U32
    requires |b| == 4
  {
    (GetU16(b[..2]) as int) * 0x1_0000 + GetU16(b[2..]) as int
  }

  function PutU64(n: U64): (b: Bytes)
    ensures |b| == 8
  {
    PutU32(n / 0x1_0000_0000) + PutU32(n % 0x1_0000_0000)
  }

  function GetU64(b: Bytes): U64
    requires |b| == 8
  {
    (GetU32(b[..4]) as int) * 0x1_0000_0000 + GetU32(b[4..]) as int
  }

  lemma GetPutU16(n: U16)
    ensures GetU16(PutU16(n)) == n
  {
  }

  lemma PutGetU16(b: Bytes)
    requires |b| == 2
    ensures PutU16(GetU16(b)) == b
  {
  }

  lemma Halves(hi: nat, lo: nat, n: nat)
    requires lo < 0x1_0000 && n == hi * 0x1_0000 + lo
    ensures n / 0x1_0000 == hi && n % 0x1_0000 == lo
  {
  }

  lemma GetPutU32(n: U32)
    ensures GetU32(PutU32(n)) == n
  {
    hide PutU16, GetU16;
    GetPutU16(n / 0x1_0000);
    GetPutU16(n % 0x1_0000);
    assert PutU32(n)[..2] == PutU16(n / 0x1_0000) && PutU32(n)[2..] == PutU16(n % 0x1_0000);
  }

  lemma PutGetU32(b: Bytes)
    requires |b| == 4
    ensures PutU32(GetU32(b)) == b
  {
    hide PutU16, GetU16;
    PutGetU16(b[..2]);
    PutGetU16(b[2..]);
    Halves(GetU16(b[..2]), GetU16(b[2..]), GetU32(b));
    assert b == b[..2] + b[2..];
  }

  lemma GetPutU64(n: U64)
    ensures GetU64(PutU64(n)) == n
  {
    hide PutU32, GetU32;
    GetPutU32(n / 0x1_0000_0000);
    GetPutU32(n % 0x1_0000_0000);
    assert PutU64(n)[..4] == PutU32(n / 0x1_0000_0000) && PutU64(n)[4..] == PutU32(n % 0x1_0000_0000);
  }

  lemma PutGetU64(b: Bytes)
    requires |b| == 8
    ensures PutU64(GetU64(b)) == b
  {
    hide PutU32, GetU32;
    PutGetU32(b[..4]);
    PutGetU32(b[4..]);
    var hi, lo := GetU32(b[..4]), GetU32(b[4..]);
    assert GetU64(b) / 0x1_0000_0000 == hi && GetU64(b) % 0x1_0000_0000 == lo;
    assert b == b[..4] + b[4..];
  }

  // ------------------------------------------------------------------- which byte goes where

  lemma DivDiv(n: nat, a: nat, b: nat)
    requires a > 0 && b > 0 && a * b > 0
    ensures n / a / b == n / (a * b)
  {
    var q, r := n / a / b, n / a % b;
    var s := n % a;
    assert n == (q * b + r) * a + s;
    assert n == q * (a * b) + (r * a + s) by { Expand(q, b, r, a); }
    assert r * a + s < a * b by { Below(r, b, a, s); }
    QuotientIs(n, a * b, q, r * a + s);
  }

  lemma Expand(q: int, b: int, r: int, a: int)
    ensures (q * b + r) * a == q * (a * b) + r * a
  {
  }

  lemma Below(r: nat, b: nat, a: nat, s: nat)
    requires r < b && s < a
    ensures r * a + s < a * b
  {
    assert r * a + a == (r + 1) * a <= b * a;
  }

  lemma QuotientIs(n: nat, d: nat, q: nat, r: nat)
    requires d > 0 && n == q * d + r && r < d
    ensures n / d == q
  {
    var k := n / d;
    assert n == k * d + n % d;
    assert (k - q) * d == r - n % d;
    BigMultiple(k - q, d);
  }

  lemma BigMultiple(x: int, d: nat)
    requires d > 0
    ensures (x >= 1 ==> x * d >= d) && (x <= -1 ==> x * d + d <= 0)
  {
    if x >= 1 { assert (x - 1) * d >= 0; }
    if x <= -1 { assert (x + 1) * d <= 0; }
  }

  /** Most significant byte first. */
  lemma BigEndian16(n: U16)
    ensures PutU16(n)[0] as int == n / 0x100 && PutU16(n)[1] as int == n % 0x100
  {
  }

  lemma BigEndian32(n: U32)
    ensures var b := PutU32(n);
            && b[0] as int == n / 0x100_0000 && b[1] as int == n / 0x1_0000 % 0x100
            && b[2] as int == n / 0x100 % 0x100 && b[3] as int == n % 0x100
  {
    hide PutU16;
    var hi, lo := n / 0x1_0000, n % 0x1_0000;
    BigEndian16(hi);
    BigEndian16(lo);
    DivDiv(n, 0x1_0000, 0x100);
    assert PutU32(n)[0] == PutU16(hi)[0] && PutU32(n)[1] == PutU16(hi)[1];
    assert PutU32(n)[2] == PutU16(lo)[0] && PutU32(n)[3] == PutU16(lo)[1];
    assert n == hi * 0x1_0000 + lo;
    assert n / 0x100 == hi * 0x100 + lo / 0x100;
  }

  lemma BigEndian64(n: U64)
    ensures var b := PutU64(n);
            && b[0] as int == n / 0x100_0000_0000_0000 && b[1] as int == n / 0x1_0000_0000_0000 % 0x100
            && b[2] as int == n / 0x100_0000_0000 % 0x100 && b[3] as int == n / 0x1_0000_0000 % 0x100
            && b[4] as int == n / 0x100_0000 % 0x100 && b[5] as int == n / 0x1_0000 % 0x100
            && b[6] as int == n / 0x100 % 0x100 && b[7] as int == n % 0x100
  {
    hide PutU32;
    var hi, lo := n / 0x1_0000_0000, n % 0x1_0000_0000;
    BigEndian32(hi);
    BigEndian32(lo);
    DivDiv(n, 0x1_0000_0000, 0x100_0000);
    DivDiv(n, 0x1_0000_0000, 0x1_0000);
    DivDiv(n, 0x1_0000_0000, 0x100);
    var b := PutU64(n);
    assert b[..4] == PutU32(hi) && b[4..] == PutU32(lo);
    assert b[0] == PutU32(hi)[0] && b[1] == PutU32(hi)[1] && b[2] == PutU32(hi)[2] && b[3] == PutU32(hi)[3];
    assert b[4] == PutU32(lo)[0] && b[5] == PutU32(lo)[1] && b[6] == PutU32(lo)[2] && b[7] == PutU32(lo)[3];
    LowWord(hi, lo, n);
  }

  lemma LowWord(hi: nat, lo: nat, n: nat)
    requires lo < 0x1_0000_0000 && n == hi * 0x1_0000_0000 + lo
    ensures n / 0x100_0000 % 0x100 == lo / 0x100_0000 && n / 0x1_0000 % 0x100 == lo / 0x1_0000 % 0x100
    ensures n / 0x100 % 0x100 == lo / 0x100 % 0x100 && n % 0x100 == lo % 0x100
  {
    QuotientIs(n, 0x100_0000, hi * 0x100 + lo / 0x100_0000, lo % 0x100_0000);
    QuotientIs(n, 0x1_0000, hi * 0x1_0000 + lo / 0x1_0000, lo % 0x1_0000);
    QuotientIs(n, 0x100, hi * 0x100_0000 + lo / 0x100, lo % 0x100);
    LastByte(hi, lo / 0x100_0000);
    LastByte(hi * 0x100, lo / 0x1_0000);
    LastByte(hi * 0x1_0000, lo / 0x100);
    LastByte(hi * 0x100_0000, lo);
  }

  lemma LastByte(a: nat, b: nat)
    ensures (a * 0x100 + b) % 0x100 == b % 0x100
  {
  }

  /** Conversion between int64 and uint64 keeps the bits: two's complement. */
  function ToU64(n: I64): U64 {
    if n < 0 then n + 0x1_0000_0000_0000_0000 else n
  }

  function ToI64(n: U64): I64 {
    if n < 0x8000_0000_0000_0000 then n else n - 0x1_0000_0000_0000_0000
  }

  // ------------------------------------------------------------------------------- string order

  /** Go's `<` on strings. */
  predicate Less(a: Bytes, b: Bytes) {
    b != [] && (a == [] || a[0] < b[0] || (a[0] == b[0] && Less(a[1..], b[1..])))
  }

  /** The first place where two strings differ decides; a proper prefix comes first. */
  predicate DecidedAt(a: Bytes, b: Bytes, i: nat) {
    i <= |a| && i < |b| && a[..i] == b[..i] && (i == |a| || a[i] < b[i])
  }

  lemma {:induction false} LessIff(a: Bytes, b: Bytes)
    ensures Less(a, b) <==> exists i: nat :: DecidedAt(a, b, i)
  {
    hide DecidedAt;
    DecidedFirst(a, b);
    if a != [] && b != [] && a[0] == b[0] {
      LessIff(a[1..], b[1..]);
      if i: nat :| DecidedAt(a[1..], b[1..], i) { DecidedLater(a, b, i); }
      if i: nat :| DecidedAt(a, b, i) {
        if i > 0 { DecidedLater(a, b, i - 1); }
      }
    } else if i: nat :| DecidedAt(a, b, i) {
      SameStart(a, b, i);
    }
  }

  lemma DecidedFirst(a: Bytes, b: Bytes)
    ensures DecidedAt(a, b, 0) <==> b != [] && (a == [] || a[0] < b[0])
  {
  }

  lemma DecidedLater(a: Bytes, b: Bytes, i: nat)
    requires a != [] && b != [] && a[0] == b[0]
    ensures DecidedAt(a[1..], b[1..], i) <==> DecidedAt(a, b, i + 1)
  {
    if i + 1 <= |a| && i + 1 < |b| {
      assert a[..i + 1] == [a[0]] + a[1..][..i] && b[..i + 1] == [b[0]] + b[1..][..i];
      assert a[..i + 1][1..] == a[1..][..i] && b[..i + 1][1..] == b[1..][..i];
    }
  }

  lemma SameStart(a: Bytes, b: Bytes, i: nat)
    requires DecidedAt(a, b, i)
    ensures i > 0 ==> a != [] && b != [] && a[0] == b[0]
  {
    if i > 0 { assert a[..i][0] == a[0] && b[..i][0] == b[0]; }
  }

  lemma {:induction false} LessTotal(a: Bytes, b: Bytes)
    ensures a == b || Less(a, b) || Less(b, a)
    ensures !(Less(a, b) && Less(b, a)) && !Less(a, a)
  {
    if a != [] && b != [] && a[0] == b[0] {
      LessTotal(a[1..], b[1..]);
      LessTotal(a[1..], a[1..]);
      assert a == [a[0]] + a[1..] && b == [b[0]] + b[1..];
    } else if a != [] {
      LessTotal(a[1..], a[1..]);
    }
  }

  lemma {:induction false} LessTransitive(a: Bytes, b: Bytes, c: Bytes)
    requires Less(a, b) && Less(b, c)
    ensures Less(a, c)
  {
    if a != [] && a[0] == b[0] == c[0] { LessTransitive(a[1..], b[1..], c[1..]); }
  }

  ghost predicate StrictlySorted(keys: seq<Bytes>) {
    forall i, j | 0 <= i < j < |keys| :: Less(keys[i], keys[j])
  }

  ghost predicate SortedOf(keys: seq<Bytes>, s: set<Bytes>) {
    StrictlySorted(keys) && |keys| == |s| && forall k :: k in keys <==> k in s
  }

  /** A set has one strictly increasing listing. */
  lemma {:induction false} SortedUnique(a: seq<Bytes>, b: seq<Bytes>)
    requires StrictlySorted(a) && StrictlySorted(b) && |a| == |b| && forall k :: k in a <==> k in b
    ensures a == b
    decreases |a|
  {
    if a != [] {
      assert a[0] in b && b[0] in a;
      LessTotal(a[0], b[0]);
      LessTotal(a[0], a[0]);
      LessTotal(b[0], b[0]);
      assert a[0] == b[0];
      assert a[0] !in a[1..] && b[0] !in b[1..];
      assert a == [a[0]] + a[1..] && b == [b[0]] + b[1..];
      forall k ensures k in a[1..] <==> k in b[1..] {
        assert k in a <==> k == a[0] || k in a[1..];
        assert k in b <==> k == b[0] || k in b[1..];
      }
      SortedUnique(a[1..], b[1..]);
    }
  }

  function Insert(keys: seq<Bytes>, k: Bytes): seq<Bytes> {
    if keys == [] || Less(k, keys[0]) then [k] + keys else [keys[0]] + Insert(keys[1..], k)
  }

  lemma {:induction false} InsertSorted(keys: seq<Bytes>, k: Bytes)
    requires StrictlySorted(keys) && k !in keys
    ensures StrictlySorted(Insert(keys, k))
    ensures forall x :: x in Insert(keys, k) <==> x == k || x in keys
    ensures |Insert(keys, k)| == |keys| + 1
  {
    if keys != [] {
      LessTotal(k, keys[0]);
      if Less(k, keys[0]) {
        forall j | 0 < j < |keys| ensures Less(k, keys[j]) { LessTransitive(k, keys[0], keys[j]); }
      } else {
        InsertSorted(keys[1..], k);
        var rest := Insert(keys[1..], k);
        forall j | 0 <= j < |rest| ensures Less(keys[0], rest[j]) {
          assert rest[j] in rest;
          if rest[j] != k { var i :| 0 <= i < |keys[1..]| && keys[1..][i] == rest[j];
                            assert Less(keys[0], keys[i + 1]); }
        }
        assert forall x :: x in keys <==> x == keys[0] || x in keys[1..];
      }
    }
  }

  /** sort.Strings over the keys of a map. */
  method SortKeys(s: set<Bytes>) returns (keys: seq<Bytes>)
    ensures SortedOf(keys, s)
  {
    keys := [];
    var todo := s;
    while todo != {}
      invariant todo <= s && SortedOf(keys, s - todo)
      decreases |todo|
    {
      var k :| k in todo;
      InsertSorted(keys, k);
      keys := Insert(keys, k);
      assert s - (todo - {k}) == (s - todo) + {k};
      todo := todo - {k};
    }
    assert s - todo == s;
  }

  lemma {:induction false} SortedExists(s: set<Bytes>) returns (keys: seq<Bytes>)
    ensures SortedOf(keys, s)
  {
    if s == {} {
      keys := [];
    } else {
      var k :| k in s;
      var rest := SortedExists(s - {k});
      InsertSorted(rest, k);
      keys := Insert(rest, k);
    }
  }

  ghost function SortedKeys(s: set<Bytes>): (keys: seq<Bytes>)
    ensures SortedOf(keys, s)
  {
    assert exists keys :: SortedOf(keys, s) by { var keys := SortedExists(s); }
    var keys :| SortedOf(keys, s);
    keys
  }

  lemma SortedKeysIs(s: set<Bytes>, keys: seq<Bytes>)
    requires SortedOf(keys, s)
    ensures keys == SortedKeys(s)
  {
    SortedUnique(keys, SortedKeys(s));
  }
}
