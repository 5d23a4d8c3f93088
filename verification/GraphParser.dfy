/**
 * The value decoder as a function of the unread bytes, and its two halves of correctness: it accepts
 * only encodings (`ParseSound`) and it accepts every encoding within the budgets (`ParseComplete`).
 */
module GraphParser {
  import opened ByteStrings
  import opened GraphValue
  import opened Options

  datatype Entry = Entry(key: Bytes, item: Value)

  datatype Parsed<+T> = Fail | Ok(value: T, rest: Bytes, nodes: nat)

  // -------------------------------------------------------------------------------- the decoder

  function ParseRaw(b: Bytes, nodes: nat): Parsed<Bytes> {
    if |b| < 4 then Fail
    else
      var n := GetU32(b[..4]);
      if n > |b| - 4 then Fail else Ok(b[4..4 + n], b[4 + n..], nodes)
  }

  function ParseU64(b: Bytes, nodes: nat): Parsed<U64> {
    if |b| < 8 then Fail else Ok(GetU64(b[..8]), b[8..], nodes)
  }

  /** A container count, `None` for nil; a count must leave `minBytes` for each element. */
  function ParseCount(b: Bytes, nodes: nat, minBytes: nat): Parsed<Option<nat>> {
    if |b| < 4 then Fail
    else
      var n := GetU32(b[..4]);
      if n == NIL_COUNT then Ok(None, b[4..], nodes)
      else if n > MAX_NODES || n * minBytes > |b| - 4 then Fail
      else Ok(Some(n), b[4..], nodes)
  }

  function MapOf(pairs: seq<Entry>): map<Bytes, Value> {
    if pairs == [] then map[] else MapOf(pairs[..|pairs| - 1])[pairs[|pairs| - 1].key := pairs[|pairs| - 1].item]
  }

  /** Everything but containers; `b` starts at the tag. */
  function ParseScalar(valid: Bytes -> bool, b: Bytes, nodes: nat): Parsed<Value>
    requires b != []
  {
    var rest := b[1..];
    match b[0]
    case 0 => Ok(Null, rest, nodes)
    case 1 => Ok(Bool(false), rest, nodes)
    case 2 => Ok(Bool(true), rest, nodes)
    case 3 =>
      var n := ParseU64(rest, nodes);
      if n.Fail? then Fail else Ok(Signed(ToI64(n.value)), n.rest, nodes)
    case 4 =>
      if |rest| < 4 || !Finite32(GetU32(rest[..4])) then Fail else Ok(Float32(GetU32(rest[..4])), rest[4..], nodes)
    case 5 =>
      var n := ParseU64(rest, nodes);
      if n.Fail? || !Finite64(n.value) then Fail else Ok(Float64(n.value), n.rest, nodes)
    case 6 =>
      var s := ParseRaw(rest, nodes);
      if s.Fail? || !valid(s.value) then Fail else Ok(Number(s.value), s.rest, nodes)
    case 7 =>
      var s := ParseRaw(rest, nodes);
      if s.Fail? then Fail else Ok(Str(s.value), s.rest, nodes)
    case _ => Fail
  }

  /** One tree node: `nodes` counts the nodes before it. */
  function ParseValue(valid: Bytes -> bool, b: Bytes, nodes: nat, depth: nat): Parsed<Value>
    decreases MAX_DEPTH + 1 - depth, 0, 0
  {
    if depth > MAX_DEPTH || nodes + 1 > MAX_NODES || b == [] then Fail
    else if b[0] == 8 then
      var n := ParseCount(b[1..], nodes + 1, 1);
      if n.Fail? then Fail
      else if n.value.None? then Ok(NilList, n.rest, nodes + 1)
      else if n.value.value > MAX_NODES - (nodes + 1) then Fail
      else
        var items := ParseItems(valid, n.rest, nodes + 1, depth + 1, n.value.value);
        if items.Fail? then Fail else Ok(List(items.value), items.rest, items.nodes)
    else if b[0] == 9 then
      var n := ParseCount(b[1..], nodes + 1, 5);
      if n.Fail? then Fail
      else if n.value.None? then Ok(NilMap, n.rest, nodes + 1)
      else if n.value.value > MAX_NODES - (nodes + 1) then Fail
      else
        var pairs := ParseEntries(valid, n.rest, nodes + 1, depth + 1, n.value.value, None);
        if pairs.Fail? then Fail else Ok(Map(MapOf(pairs.value)), pairs.rest, pairs.nodes)
    else ParseScalar(valid, b, nodes + 1)
  }

  function ParseItems(valid: Bytes -> bool, b: Bytes, nodes: nat, depth: nat, n: nat): Parsed<seq<Value>>
    decreases MAX_DEPTH + 1 - depth, 1, n
  {
    if n == 0 then Ok([], b, nodes)
    else
      var first := ParseValue(valid, b, nodes, depth);
      if first.Fail? then Fail
      else
        var more := ParseItems(valid, first.rest, first.nodes, depth, n - 1);
        if more.Fail? then Fail else Ok([first.value] + more.value, more.rest, more.nodes)
  }

  /** One key, which must follow the previous one, and its value. */
  function ParseEntry(valid: Bytes -> bool, b: Bytes, nodes: nat, depth: nat, previous: Option<Bytes>): Parsed<Entry>
    decreases MAX_DEPTH + 1 - depth, 1, 0
  {
    var key := ParseRaw(b, nodes);
    if key.Fail? || (previous.Some? && !Less(previous.value, key.value)) then Fail
    else
      var first := ParseValue(valid, key.rest, nodes, depth);
      if first.Fail? then Fail else Ok(Entry(key.value, first.value), first.rest, first.nodes)
  }

  function ParseEntries(valid: Bytes -> bool, b: Bytes, nodes: nat, depth: nat, n: nat, previous: Option<Bytes>)
    : Parsed<seq<Entry>>
    decreases MAX_DEPTH + 1 - depth, 2, n
  {
    if n == 0 then Ok([], b, nodes)
    else
      var first := ParseEntry(valid, b, nodes, depth, previous);
      if first.Fail? then Fail
      else
        var more := ParseEntries(valid, first.rest, first.nodes, depth, n - 1, Some(first.value.key));
        if more.Fail? then Fail else Ok([first.value] + more.value, more.rest, more.nodes)
  }

  // ---------------------------------------------------------------------- encodings, one by one

  lemma Assoc(a: Bytes, b: Bytes, c: Bytes)
    ensures (a + b) + c == a + (b + c)
  {
  }

  lemma AfterTag(tag: Byte, a: Bytes, rest: Bytes)
    ensures (([tag] + a) + rest)[0] == tag && (([tag] + a) + rest)[1..] == a + rest
  {
  }

  lemma ItemsCons(valid: Bytes -> bool, x: Value, xs: seq<Value>)
    requires Encodable(valid, x) && forall i | 0 <= i < |xs| :: Encodable(valid, xs[i])
    ensures forall i | 0 <= i < |[x] + xs| :: Encodable(valid, ([x] + xs)[i])
    ensures EncItems(valid, [x] + xs) == Enc(valid, x) + EncItems(valid, xs)
    ensures ItemNodes([x] + xs) == Nodes(x) + ItemNodes(xs)
  {
    assert ([x] + xs)[1..] == xs;
  }

  lemma PairsCons(valid: Bytes -> bool, e: Entry, more: seq<Entry>)
    requires |e.key| < 0x1_0000_0000 && Encodable(valid, e.item) && PairsEncodable(valid, more)
    ensures PairsEncodable(valid, [e] + more)
    ensures EncPairs(valid, [e] + more) == Raw(e.key) + Enc(valid, e.item) + EncPairs(valid, more)
    ensures PairNodes([e] + more) == Nodes(e.item) + PairNodes(more)
  {
    assert ([e] + more)[1..] == more;
  }

  // ------------------------------------------------------------------------- entries as pairs

  ghost predicate PairsEncodable(valid: Bytes -> bool, pairs: seq<Entry>) {
    forall i | 0 <= i < |pairs| :: |pairs[i].key| < 0x1_0000_0000 && Encodable(valid, pairs[i].item)
  }

  ghost function EncPairs(valid: Bytes -> bool, pairs: seq<Entry>): Bytes
    requires PairsEncodable(valid, pairs)
  {
    if pairs == [] then [] else Raw(pairs[0].key) + Enc(valid, pairs[0].item) + EncPairs(valid, pairs[1..])
  }

  ghost function PairNodes(pairs: seq<Entry>): nat {
    if pairs == [] then 0 else Nodes(pairs[0].item) + PairNodes(pairs[1..])
  }

  function KeysOf(pairs: seq<Entry>): seq<Bytes> {
    seq(|pairs|, i requires 0 <= i < |pairs| => pairs[i].key)
  }

  ghost function PairsAt(m: map<Bytes, Value>, keys: seq<Bytes>): seq<Entry>
    requires forall k | k in keys :: k in m
  {
    seq(|keys|, i requires 0 <= i < |keys| => assert keys[i] in keys; Entry(keys[i], m[keys[i]]))
  }

  lemma {:induction false} EntriesArePairs(valid: Bytes -> bool, v: Value, keys: seq<Bytes>)
    requires v.Map? && Encodable(valid, v) && forall k | k in keys :: k in v.entries
    ensures PairsEncodable(valid, PairsAt(v.entries, keys))
    ensures EncEntries(valid, v, keys) == EncPairs(valid, PairsAt(v.entries, keys))
    ensures EntryNodes(v, keys) == PairNodes(PairsAt(v.entries, keys))
    decreases |keys|
  {
    hide Enc, Encodable, Nodes, Raw, PairsEncodable;
    PairsAtEncodable(valid, v, keys);
    var pairs := PairsAt(v.entries, keys);
    if keys != [] {
      EntriesArePairs(valid, v, keys[1..]);
      assert pairs[1..] == PairsAt(v.entries, keys[1..]);
    }
  }

  lemma PairsAtEncodable(valid: Bytes -> bool, v: Value, keys: seq<Bytes>)
    requires v.Map? && Encodable(valid, v) && forall k | k in keys :: k in v.entries
    ensures PairsEncodable(valid, PairsAt(v.entries, keys))
  {
    var pairs := PairsAt(v.entries, keys);
    forall i | 0 <= i < |pairs| ensures |pairs[i].key| < 0x1_0000_0000 && Encodable(valid, pairs[i].item) {
      assert keys[i] in keys;
    }
  }

  ghost predicate SortedPairs(pairs: seq<Entry>) {
    forall i, j | 0 <= i < j < |pairs| :: Less(pairs[i].key, pairs[j].key)
  }

  ghost predicate Covers(pairs: seq<Entry>, m: map<Bytes, Value>) {
    forall k | k in m :: HasKey(pairs, k)
  }

  ghost predicate HasKey(pairs: seq<Entry>, k: Bytes) {
    exists i :: 0 <= i < |pairs| && pairs[i].key == k
  }

  ghost predicate Agrees(pairs: seq<Entry>, m: map<Bytes, Value>) {
    forall i | 0 <= i < |pairs| :: pairs[i].key in m && m[pairs[i].key] == pairs[i].item
  }

  /** The pairs are the entries of the map, each once, in key order. */
  ghost predicate Listing(pairs: seq<Entry>, m: map<Bytes, Value>) {
    SortedPairs(pairs) && |pairs| == |m| && Agrees(pairs, m) && Covers(pairs, m)
  }

  lemma FreshKey(pairs: seq<Entry>, m: map<Bytes, Value>, k: Bytes)
    requires Covers(pairs, m) && forall i | 0 <= i < |pairs| :: Less(pairs[i].key, k)
    ensures k !in m && forall i | 0 <= i < |pairs| :: pairs[i].key != k
  {
    LessTotal(k, k);
    assert !HasKey(pairs, k);
  }

  lemma CoversSnoc(pairs: seq<Entry>, m: map<Bytes, Value>, e: Entry)
    requires Covers(pairs, m)
    ensures Covers(pairs + [e], m[e.key := e.item])
  {
    var pairs' := pairs + [e];
    forall k | k in m[e.key := e.item] ensures HasKey(pairs', k) {
      if k == e.key {
        assert pairs'[|pairs|].key == k;
      } else {
        assert HasKey(pairs, k);
        var i :| 0 <= i < |pairs| && pairs[i].key == k;
        assert pairs'[i].key == k;
      }
    }
  }

  lemma ListingSnoc(pairs: seq<Entry>, m: map<Bytes, Value>, e: Entry)
    requires Listing(pairs, m) && forall i | 0 <= i < |pairs| :: Less(pairs[i].key, e.key)
    ensures Listing(pairs + [e], m[e.key := e.item])
  {
    FreshKey(pairs, m, e.key);
    CoversSnoc(pairs, m, e);
  }

  lemma {:induction false} MapOfLists(pairs: seq<Entry>)
    requires SortedPairs(pairs)
    ensures Listing(pairs, MapOf(pairs))
  {
    if pairs != [] {
      var init, last := pairs[..|pairs| - 1], pairs[|pairs| - 1];
      assert pairs == init + [last];
      MapOfLists(init);
      ListingSnoc(init, MapOf(init), last);
    }
  }

  lemma ListingSorts(pairs: seq<Entry>, m: map<Bytes, Value>)
    requires Listing(pairs, m)
    ensures KeysOf(pairs) == SortedKeys(m.Keys)
  {
    var keys := KeysOf(pairs);
    forall k ensures k in keys <==> k in m.Keys {
      if k in m { assert HasKey(pairs, k); var i :| 0 <= i < |pairs| && pairs[i].key == k; assert keys[i] == k; }
      if k in keys { var i :| 0 <= i < |keys| && keys[i] == k; assert pairs[i].key == k; }
    }
    assert |m.Keys| == |m|;
    SortedKeysIs(m.Keys, keys);
  }

  lemma ListingAt(pairs: seq<Entry>, m: map<Bytes, Value>)
    requires Listing(pairs, m)
    ensures PairsAt(m, SortedKeys(m.Keys)) == pairs
  {
    ListingSorts(pairs, m);
  }

  lemma ListingEncodable(valid: Bytes -> bool, pairs: seq<Entry>, m: map<Bytes, Value>)
    requires Listing(pairs, m) && PairsEncodable(valid, pairs) && |pairs| <= MAX_NODES
    ensures Encodable(valid, Map(m))
  {
    forall k | k in m ensures |k| < 0x1_0000_0000 && Encodable(valid, m[k]) {
      assert HasKey(pairs, k);
      var i :| 0 <= i < |pairs| && pairs[i].key == k;
    }
  }

  /** A listing encodes exactly as the map it lists. */
  lemma ListingEncodes(valid: Bytes -> bool, pairs: seq<Entry>, m: map<Bytes, Value>)
    requires Listing(pairs, m) && PairsEncodable(valid, pairs) && |pairs| <= MAX_NODES
    ensures Encodable(valid, Map(m))
    ensures EncEntries(valid, Map(m), SortedKeys(m.Keys)) == EncPairs(valid, pairs)
    ensures EntryNodes(Map(m), SortedKeys(m.Keys)) == PairNodes(pairs)
  {
    ListingEncodable(valid, pairs, m);
    EntriesArePairs(valid, Map(m), SortedKeys(m.Keys));
    ListingAt(pairs, m);
  }

  // ---------------------------------------------------------------- accepted bytes are encodings

  ghost predicate Normal(v: Value)
    decreases v
  {
    match v
    case Unsigned(_) => false
    case List(items) => forall i | 0 <= i < |items| :: Normal(items[i])
    case Map(entries) => forall k | k in entries :: Normal(entries[k])
    case _ => true
  }

  /** What one accepted value promises. */
  ghost predicate ValueOk(valid: Bytes -> bool, b: Bytes, nodes: nat, depth: nat, v: Value, rest: Bytes, nodes': nat) {
    && Encodable(valid, v) && Normal(v) && WithinDepth(v, depth)
    && b == Enc(valid, v) + rest && nodes' == nodes + Nodes(v) && nodes' <= MAX_NODES
  }

  ghost predicate ItemsOk(valid: Bytes -> bool, b: Bytes, nodes: nat, depth: nat, n: nat, r: Parsed<seq<Value>>) {
    r.Ok? ==>
      && |r.value| == n
      && (forall i | 0 <= i < n :: Encodable(valid, r.value[i]) && Normal(r.value[i]) && WithinDepth(r.value[i], depth))
      && b == EncItems(valid, r.value) + r.rest && r.nodes == nodes + ItemNodes(r.value)
      && (nodes <= MAX_NODES ==> r.nodes <= MAX_NODES)
  }

  ghost predicate EntriesOk(valid: Bytes -> bool, b: Bytes, nodes: nat, depth: nat, n: nat, previous: Option<Bytes>,
                            r: Parsed<seq<Entry>>) {
    r.Ok? ==>
      && |r.value| == n && SortedPairs(r.value) && PairsEncodable(valid, r.value)
      && (previous.Some? ==> forall i | 0 <= i < n :: Less(previous.value, r.value[i].key))
      && (forall i | 0 <= i < n :: Normal(r.value[i].item) && WithinDepth(r.value[i].item, depth))
      && b == EncPairs(valid, r.value) + r.rest && r.nodes == nodes + PairNodes(r.value)
      && (nodes <= MAX_NODES ==> r.nodes <= MAX_NODES)
  }

  lemma RawSound(b: Bytes, nodes: nat)
    ensures var r := ParseRaw(b, nodes);
            r.Ok? ==> |r.value| < 0x1_0000_0000 && b == Raw(r.value) + r.rest && r.nodes == nodes
  {
    if ParseRaw(b, nodes).Ok? { PutGetU32(b[..4]); }
  }

  lemma WordSound(rest: Bytes)
    ensures |rest| >= 4 ==> rest == PutU32(GetU32(rest[..4])) + rest[4..]
    ensures |rest| >= 8 ==> rest == PutU64(GetU64(rest[..8])) + rest[8..]
  {
    if |rest| >= 4 { PutGetU32(rest[..4]); }
    if |rest| >= 8 { PutGetU64(rest[..8]); }
  }

  lemma ScalarSound(valid: Bytes -> bool, b: Bytes, nodes: nat)
    requires b != []
    ensures var r := ParseScalar(valid, b, nodes);
            r.Ok? ==> !r.value.List? && !r.value.Map? && !r.value.Unsigned? && Encodable(valid, r.value)
                      && b == Enc(valid, r.value) + r.rest && r.nodes == nodes
  {
    hide PutU32, PutU64, GetU32, GetU64, Raw, ParseRaw, Finite32, Finite64;
    var rest := b[1..];
    var r := ParseScalar(valid, b, nodes);
    assert b == [b[0]] + rest;
    WordSound(rest);
    RawSound(rest, nodes);
    if r.Ok? {
      if b[0] == 3 {
        Assoc([3], PutU64(GetU64(rest[..8])), r.rest);
      } else if b[0] == 4 {
        Assoc([4], PutU32(GetU32(rest[..4])), r.rest);
      } else if b[0] == 5 {
        Assoc([5], PutU64(GetU64(rest[..8])), r.rest);
      } else if b[0] == 6 {
        Assoc([6], Raw(r.value.lexeme), r.rest);
      } else if b[0] == 7 {
        Assoc([7], Raw(r.value.text), r.rest);
      }
    }
  }

  lemma {:induction false} ParseSound(valid: Bytes -> bool, b: Bytes, nodes: nat, depth: nat)
    ensures var r := ParseValue(valid, b, nodes, depth);
            r.Ok? ==> ValueOk(valid, b, nodes, depth, r.value, r.rest, r.nodes)
    decreases MAX_DEPTH + 1 - depth, 0, 1
  {
    if b != [] {
      if b[0] == 8 {
        ListSound(valid, b, nodes, depth);
      } else if b[0] == 9 {
        MapSound(valid, b, nodes, depth);
      } else {
        ScalarSound(valid, b, nodes + 1);
      }
    }
  }

  lemma {:induction false} ListSound(valid: Bytes -> bool, b: Bytes, nodes: nat, depth: nat)
    requires b != [] && b[0] == 8
    ensures var r := ParseValue(valid, b, nodes, depth);
            r.Ok? ==> ValueOk(valid, b, nodes, depth, r.value, r.rest, r.nodes)
    decreases MAX_DEPTH + 1 - depth, 0, 0
  {
    var r := ParseValue(valid, b, nodes, depth);
    if r.Ok? {
      var rest := b[1..];
      PutGetU32(rest[..4]);
      assert b == [8] + rest[..4] + rest[4..];
      var n := ParseCount(rest, nodes + 1, 1);
      if n.value.Some? {
        ItemsSound(valid, rest[4..], nodes + 1, depth + 1, n.value.value);
        var items := ParseItems(valid, rest[4..], nodes + 1, depth + 1, n.value.value);
        ListBodySound(valid, b, rest[4..], nodes, depth, items);
      }
    }
  }

  lemma ListBodySound(valid: Bytes -> bool, b: Bytes, body: Bytes, nodes: nat, depth: nat, items: Parsed<seq<Value>>)
    requires items.Ok? && depth <= MAX_DEPTH && nodes < MAX_NODES && |items.value| <= MAX_NODES
    requires ItemsOk(valid, body, nodes + 1, depth + 1, |items.value|, items)
    requires b == [8] + PutU32(|items.value|) + body
    ensures ValueOk(valid, b, nodes, depth, List(items.value), items.rest, items.nodes)
  {
    Assoc([8] + PutU32(|items.value|), EncItems(valid, items.value), items.rest);
  }

  lemma {:induction false} MapSound(valid: Bytes -> bool, b: Bytes, nodes: nat, depth: nat)
    requires b != [] && b[0] == 9
    ensures var r := ParseValue(valid, b, nodes, depth);
            r.Ok? ==> ValueOk(valid, b, nodes, depth, r.value, r.rest, r.nodes)
    decreases MAX_DEPTH + 1 - depth, 0, 0
  {
    var r := ParseValue(valid, b, nodes, depth);
    if r.Ok? {
      var rest := b[1..];
      PutGetU32(rest[..4]);
      assert b == [9] + rest[..4] + rest[4..];
      var n := ParseCount(rest, nodes + 1, 5);
      if n.value.Some? {
        EntriesSound(valid, rest[4..], nodes + 1, depth + 1, n.value.value, None);
        var pairs := ParseEntries(valid, rest[4..], nodes + 1, depth + 1, n.value.value, None);
        MapBodySound(valid, b, rest[4..], nodes, depth, pairs);
      }
    }
  }

  lemma MapBodySound(valid: Bytes -> bool, b: Bytes, body: Bytes, nodes: nat, depth: nat, pairs: Parsed<seq<Entry>>)
    requires pairs.Ok? && depth <= MAX_DEPTH && nodes < MAX_NODES && |pairs.value| <= MAX_NODES
    requires EntriesOk(valid, body, nodes + 1, depth + 1, |pairs.value|, None, pairs)
    requires b == [9] + PutU32(|pairs.value|) + body
    ensures ValueOk(valid, b, nodes, depth, Map(MapOf(pairs.value)), pairs.rest, pairs.nodes)
  {
    var m := MapOf(pairs.value);
    MapOfLists(pairs.value);
    ListingEncodes(valid, pairs.value, m);
    ListingNormal(pairs.value, m, depth + 1);
    assert Enc(valid, Map(m)) == [9] + PutU32(|pairs.value|) + EncPairs(valid, pairs.value);
    Assoc([9] + PutU32(|pairs.value|), EncPairs(valid, pairs.value), pairs.rest);
  }

  lemma ListingNormal(pairs: seq<Entry>, m: map<Bytes, Value>, depth: nat)
    requires Listing(pairs, m) && 0 < depth <= MAX_DEPTH + 1
    requires forall i | 0 <= i < |pairs| :: Normal(pairs[i].item) && WithinDepth(pairs[i].item, depth)
    ensures Normal(Map(m)) && WithinDepth(Map(m), depth - 1)
  {
    forall k | k in m ensures Normal(m[k]) && WithinDepth(m[k], depth) {
      assert HasKey(pairs, k);
      var i :| 0 <= i < |pairs| && pairs[i].key == k;
    }
  }

  lemma {:induction false} ItemsSound(valid: Bytes -> bool, b: Bytes, nodes: nat, depth: nat, n: nat)
    ensures ItemsOk(valid, b, nodes, depth, n, ParseItems(valid, b, nodes, depth, n))
    decreases MAX_DEPTH + 1 - depth, 1, n
  {
    hide Enc, Encodable, WithinDepth, Nodes, Normal, ParseValue;
    var r := ParseItems(valid, b, nodes, depth, n);
    if n == 0 {
      assert ItemsOk(valid, b, nodes, depth, n, r);
    } else {
      ParseSound(valid, b, nodes, depth);
      var first := ParseValue(valid, b, nodes, depth);
      if first.Fail? { return; }
      ItemsSound(valid, first.rest, first.nodes, depth, n - 1);
      var more := ParseItems(valid, first.rest, first.nodes, depth, n - 1);
      if more.Fail? { return; }
      ItemSound(valid, b, nodes, depth, n, first, more, r);
    }
  }

  lemma ItemSound(valid: Bytes -> bool, b: Bytes, nodes: nat, depth: nat, n: nat,
                  first: Parsed<Value>, more: Parsed<seq<Value>>, r: Parsed<seq<Value>>)
    requires first.Ok? && ValueOk(valid, b, nodes, depth, first.value, first.rest, first.nodes)
    requires n > 0 && more.Ok? && ItemsOk(valid, first.rest, first.nodes, depth, n - 1, more)
    requires r == Ok([first.value] + more.value, more.rest, more.nodes)
    ensures ItemsOk(valid, b, nodes, depth, n, r)
  {
    ItemsCons(valid, first.value, more.value);
    Assoc(Enc(valid, first.value), EncItems(valid, more.value), more.rest);
  }

  ghost predicate EntryOk(valid: Bytes -> bool, b: Bytes, nodes: nat, depth: nat, previous: Option<Bytes>,
                          e: Entry, rest: Bytes, nodes': nat) {
    && |e.key| < 0x1_0000_0000 && (previous.Some? ==> Less(previous.value, e.key))
    && Encodable(valid, e.item) && Normal(e.item) && WithinDepth(e.item, depth)
    && b == Raw(e.key) + Enc(valid, e.item) + rest && nodes' == nodes + Nodes(e.item) && nodes' <= MAX_NODES
  }

  lemma {:induction false} EntrySound(valid: Bytes -> bool, b: Bytes, nodes: nat, depth: nat, previous: Option<Bytes>)
    ensures var r := ParseEntry(valid, b, nodes, depth, previous);
            r.Ok? ==> EntryOk(valid, b, nodes, depth, previous, r.value, r.rest, r.nodes)
    decreases MAX_DEPTH + 1 - depth, 1, 0
  {
    var key := ParseRaw(b, nodes);
    if key.Ok? {
      RawSound(b, nodes);
      ParseSound(valid, key.rest, nodes, depth);
      var first := ParseValue(valid, key.rest, nodes, depth);
      if first.Ok? { Assoc(Raw(key.value), Enc(valid, first.value), first.rest); }
    }
  }

  lemma {:induction false} EntriesSound(valid: Bytes -> bool, b: Bytes, nodes: nat, depth: nat,
                                        n: nat, previous: Option<Bytes>)
    ensures EntriesOk(valid, b, nodes, depth, n, previous, ParseEntries(valid, b, nodes, depth, n, previous))
    decreases MAX_DEPTH + 1 - depth, 2, n
  {
    hide Enc, Encodable, WithinDepth, Nodes, Normal, ParseEntry;
    var r := ParseEntries(valid, b, nodes, depth, n, previous);
    if n == 0 {
      assert EntriesOk(valid, b, nodes, depth, n, previous, r);
    } else {
      EntrySound(valid, b, nodes, depth, previous);
      var first := ParseEntry(valid, b, nodes, depth, previous);
      if first.Fail? { return; }
      EntriesSound(valid, first.rest, first.nodes, depth, n - 1, Some(first.value.key));
      var more := ParseEntries(valid, first.rest, first.nodes, depth, n - 1, Some(first.value.key));
      if more.Fail? { return; }
      EntriesConsSound(valid, b, nodes, depth, n, previous, first, more, r);
    }
  }

  lemma EntriesConsSound(valid: Bytes -> bool, b: Bytes, nodes: nat, depth: nat, n: nat, previous: Option<Bytes>,
                         first: Parsed<Entry>, more: Parsed<seq<Entry>>, r: Parsed<seq<Entry>>)
    requires first.Ok? && EntryOk(valid, b, nodes, depth, previous, first.value, first.rest, first.nodes)
    requires n > 0 && more.Ok? && EntriesOk(valid, first.rest, first.nodes, depth, n - 1, Some(first.value.key), more)
    requires r == Ok([first.value] + more.value, more.rest, more.nodes)
    ensures EntriesOk(valid, b, nodes, depth, n, previous, r)
  {
    var e := first.value;
    ConsSorted(e, more.value);
    PairsCons(valid, e, more.value);
    Assoc(Raw(e.key) + Enc(valid, e.item), EncPairs(valid, more.value), more.rest);
    if previous.Some? {
      forall i | 0 <= i < n ensures Less(previous.value, r.value[i].key) {
        if i > 0 { LessTransitive(previous.value, e.key, r.value[i].key); }
      }
    }
  }

  lemma ConsSorted(e: Entry, more: seq<Entry>)
    requires SortedPairs(more) && forall i | 0 <= i < |more| :: Less(e.key, more[i].key)
    ensures SortedPairs([e] + more)
  {
  }

  // ------------------------------------------------------- encodings within budget are accepted

  lemma {:induction false} EncNonEmpty(valid: Bytes -> bool, v: Value)
    requires Encodable(valid, v)
    ensures |Enc(valid, v)| >= 1 && Nodes(v) >= 1
  {
  }

  lemma {:induction false} ItemsSize(valid: Bytes -> bool, items: seq<Value>)
    requires forall i | 0 <= i < |items| :: Encodable(valid, items[i])
    ensures |EncItems(valid, items)| >= |items| && ItemNodes(items) >= |items|
  {
    if items != [] {
      EncNonEmpty(valid, items[0]);
      ItemsSize(valid, items[1..]);
    }
  }

  lemma {:induction false} PairsSize(valid: Bytes -> bool, pairs: seq<Entry>)
    requires PairsEncodable(valid, pairs)
    ensures |EncPairs(valid, pairs)| >= 5 * |pairs| && PairNodes(pairs) >= |pairs|
  {
    if pairs != [] {
      EncNonEmpty(valid, pairs[0].item);
      PairsSize(valid, pairs[1..]);
    }
  }

  lemma RawComplete(s: Bytes, rest: Bytes, nodes: nat)
    requires |s| < 0x1_0000_0000
    ensures ParseRaw(Raw(s) + rest, nodes) == Ok(s, rest, nodes)
  {
    GetPutU32(|s|);
    var b := Raw(s) + rest;
    assert b[..4] == PutU32(|s|) && b[4..4 + |s|] == s && b[4 + |s|..] == rest;
  }

  lemma CountComplete(n: nat, rest: Bytes, nodes: nat, minBytes: nat)
    requires n <= MAX_NODES && n * minBytes <= |rest|
    ensures ParseCount(PutU32(n) + rest, nodes, minBytes) == Ok(Some(n), rest, nodes)
  {
    GetPutU32(n);
    assert (PutU32(n) + rest)[..4] == PutU32(n) && (PutU32(n) + rest)[4..] == rest;
  }

  lemma NilComplete(rest: Bytes, nodes: nat, minBytes: nat)
    ensures ParseCount(PutU32(NIL_COUNT) + rest, nodes, minBytes) == Ok(None, rest, nodes)
  {
    GetPutU32(NIL_COUNT);
    assert (PutU32(NIL_COUNT) + rest)[..4] == PutU32(NIL_COUNT) && (PutU32(NIL_COUNT) + rest)[4..] == rest;
  }

  lemma U64Complete(n: U64, rest: Bytes, nodes: nat)
    ensures ParseU64(PutU64(n) + rest, nodes) == Ok(n, rest, nodes)
  {
    GetPutU64(n);
    assert (PutU64(n) + rest)[..8] == PutU64(n) && (PutU64(n) + rest)[8..] == rest;
  }

  lemma ScalarComplete(valid: Bytes -> bool, v: Value, rest: Bytes, nodes: nat)
    requires Encodable(valid, v) && !v.List? && !v.Map? && !v.NilList? && !v.NilMap?
    ensures Enc(valid, v)[0] < 8
    ensures ParseScalar(valid, Enc(valid, v) + rest, nodes) == Ok(Normalize(v), rest, nodes)
  {
    hide PutU32, PutU64, GetU32, GetU64, Raw, ParseRaw, ParseU64, Finite32, Finite64;
    var b := Enc(valid, v) + rest;
    match v
    case Signed(n) =>
      assert b[1..] == PutU64(ToU64(n)) + rest;
      U64Complete(ToU64(n), rest, nodes);
    case Unsigned(u) =>
      assert b[1..] == PutU64(u) + rest;
      U64Complete(u, rest, nodes);
    case Float32(bits) =>
      assert b[1..][..4] == PutU32(bits) && b[1..][4..] == rest;
      GetPutU32(bits);
    case Float64(bits) =>
      assert b[1..] == PutU64(bits) + rest;
      U64Complete(bits, rest, nodes);
    case Number(lexeme) =>
      assert b[1..] == Raw(lexeme) + rest;
      RawComplete(lexeme, rest, nodes);
    case Str(text) =>
      assert b[1..] == Raw(text) + rest;
      RawComplete(text, rest, nodes);
    case Null => assert b[1..] == rest;
    case Bool(_) => assert b[1..] == rest;
    case _ =>
  }

  /** The budgets a value must meet when it starts at this depth after this many nodes. */
  ghost predicate Fits(v: Value, nodes: nat, depth: nat) {
    WithinDepth(v, depth) && nodes + Nodes(v) <= MAX_NODES
  }

  lemma {:induction false} ParseComplete(valid: Bytes -> bool, v: Value, rest: Bytes, nodes: nat, depth: nat)
    requires Encodable(valid, v) && Fits(v, nodes, depth)
    ensures ParseValue(valid, Enc(valid, v) + rest, nodes, depth) == Ok(Normalize(v), rest, nodes + Nodes(v))
    decreases v, 1, 0
  {
    var b := Enc(valid, v) + rest;
    if v.List? {
      ListComplete(valid, v, rest, nodes, depth);
    } else if v.Map? {
      MapComplete(valid, v, rest, nodes, depth);
    } else if v.NilList? || v.NilMap? {
      assert b[1..] == PutU32(NIL_COUNT) + rest;
      NilComplete(rest, nodes + 1, if v.NilList? then 1 else 5);
    } else {
      ScalarComplete(valid, v, rest, nodes + 1);
    }
  }

  ghost function NormalizeAll(items: seq<Value>): seq<Value> {
    seq(|items|, i requires 0 <= i < |items| => Normalize(items[i]))
  }

  lemma {:induction false} ListComplete(valid: Bytes -> bool, v: Value, rest: Bytes, nodes: nat, depth: nat)
    requires v.List? && Encodable(valid, v) && Fits(v, nodes, depth)
    ensures ParseValue(valid, Enc(valid, v) + rest, nodes, depth) == Ok(Normalize(v), rest, nodes + Nodes(v))
    decreases v, 0, 0
  {
    hide Enc, Encodable, WithinDepth, Nodes, Normalize, EncItems, ItemNodes, ParseValue, ParseItems;
    var items := v.items;
    ListAsItems(valid, v, depth);
    ItemsSize(valid, items);
    ItemsComplete(valid, items, rest, nodes + 1, depth + 1);
    Assoc([8] + PutU32(|items|), EncItems(valid, items), rest);
    ListBodyComplete(valid, Enc(valid, v) + rest, EncItems(valid, items) + rest, nodes, depth, |items|,
                     Ok(NormalizeAll(items), rest, nodes + 1 + ItemNodes(items)));
  }

  lemma ListAsItems(valid: Bytes -> bool, v: Value, depth: nat)
    requires v.List? && Encodable(valid, v) && WithinDepth(v, depth)
    ensures |v.items| <= MAX_NODES && depth <= MAX_DEPTH
    ensures forall i | 0 <= i < |v.items| :: Encodable(valid, v.items[i]) && WithinDepth(v.items[i], depth + 1)
    ensures Enc(valid, v) == [8] + PutU32(|v.items|) + EncItems(valid, v.items)
    ensures Nodes(v) == 1 + ItemNodes(v.items) && Normalize(v) == List(NormalizeAll(v.items))
  {
    assert Normalize(v).items == NormalizeAll(v.items);
  }

  lemma ListBodyComplete(valid: Bytes -> bool, b: Bytes, body: Bytes, nodes: nat, depth: nat,
                         n: nat, items: Parsed<seq<Value>>)
    requires depth <= MAX_DEPTH && nodes + 1 + n <= MAX_NODES && n <= |body|
    requires b == [8] + PutU32(n) + body
    requires items.Ok? && ParseItems(valid, body, nodes + 1, depth + 1, n) == items
    ensures ParseValue(valid, b, nodes, depth) == Ok(List(items.value), items.rest, items.nodes)
  {
    hide PutU32, ParseCount, ParseItems, ParseEntries, ParseScalar;
    assert b[1..] == PutU32(n) + body;
    CountComplete(n, body, nodes + 1, 1);
  }

  lemma {:induction false} ItemsComplete(valid: Bytes -> bool, items: seq<Value>, rest: Bytes, nodes: nat, depth: nat)
    requires forall i | 0 <= i < |items| :: Encodable(valid, items[i]) && WithinDepth(items[i], depth)
    requires nodes + ItemNodes(items) <= MAX_NODES
    ensures ParseItems(valid, EncItems(valid, items) + rest, nodes, depth, |items|)
            == Ok(NormalizeAll(items), rest, nodes + ItemNodes(items))
    decreases items, 0, 0
  {
    hide Enc, Encodable, WithinDepth, Nodes, Normalize, NormalizeAll, EncItems, ItemNodes, ParseValue, ParseItems;
    if items == [] {
      ItemsNone(valid, rest, nodes, depth);
    } else {
      var x, xs := items[0], items[1..];
      var tail := EncItems(valid, xs) + rest;
      ItemsUncons(valid, items);
      Assoc(Enc(valid, x), EncItems(valid, xs), rest);
      ParseComplete(valid, x, tail, nodes, depth);
      ItemsComplete(valid, xs, rest, nodes + Nodes(x), depth);
      ItemsStep(valid, EncItems(valid, items) + rest, nodes, depth, |xs|, Ok(Normalize(x), tail, nodes + Nodes(x)),
                Ok(NormalizeAll(xs), rest, nodes + Nodes(x) + ItemNodes(xs)));
      NormalizeCons(items);
    }
  }

  lemma ItemsNone(valid: Bytes -> bool, rest: Bytes, nodes: nat, depth: nat)
    ensures ParseItems(valid, EncItems(valid, []) + rest, nodes, depth, 0)
            == Ok(NormalizeAll([]), rest, nodes + ItemNodes([]))
  {
    assert EncItems(valid, []) + rest == rest;
    assert NormalizeAll([]) == [];
  }

  lemma NormalizeCons(items: seq<Value>)
    requires items != []
    ensures NormalizeAll(items) == [Normalize(items[0])] + NormalizeAll(items[1..])
  {
    hide Normalize;
  }

  lemma ItemsUncons(valid: Bytes -> bool, items: seq<Value>)
    requires items != [] && forall i | 0 <= i < |items| :: Encodable(valid, items[i])
    ensures EncItems(valid, items) == Enc(valid, items[0]) + EncItems(valid, items[1..])
    ensures ItemNodes(items) == Nodes(items[0]) + ItemNodes(items[1..])
  {
    hide Enc, Encodable, Nodes;
  }

  lemma ItemsStep(valid: Bytes -> bool, b: Bytes, nodes: nat, depth: nat, n: nat,
                  first: Parsed<Value>, more: Parsed<seq<Value>>)
    requires ParseValue(valid, b, nodes, depth) == first && first.Ok?
    requires ParseItems(valid, first.rest, first.nodes, depth, n) == more && more.Ok?
    ensures ParseItems(valid, b, nodes, depth, n + 1) == Ok([first.value] + more.value, more.rest, more.nodes)
  {
    hide ParseValue;
  }

  lemma EntriesStep(valid: Bytes -> bool, b: Bytes, nodes: nat, depth: nat, n: nat, previous: Option<Bytes>,
                    first: Parsed<Entry>, more: Parsed<seq<Entry>>)
    requires ParseEntry(valid, b, nodes, depth, previous) == first && first.Ok?
    requires ParseEntries(valid, first.rest, first.nodes, depth, n, Some(first.value.key)) == more && more.Ok?
    ensures ParseEntries(valid, b, nodes, depth, n + 1, previous)
            == Ok([first.value] + more.value, more.rest, more.nodes)
  {
    hide ParseEntry;
  }

  ghost function PairsOf(v: Value): seq<Entry>
    requires v.Map?
  {
    PairsAt(v.entries, SortedKeys(v.entries.Keys))
  }

  /** A map value as the sorted entry list the encoder writes. */
  lemma MapAsPairs(valid: Bytes -> bool, v: Value)
    requires v.Map? && Encodable(valid, v)
    ensures var pairs := PairsOf(v);
            && Listing(pairs, v.entries) && PairsEncodable(valid, pairs) && |pairs| <= MAX_NODES
            && Enc(valid, v) == [9] + PutU32(|pairs|) + EncPairs(valid, pairs)
            && Nodes(v) == 1 + PairNodes(pairs)
            && Normalize(v) == Map(MapOf(NormalPairs(pairs)))
  {
    var keys := SortedKeys(v.entries.Keys);
    EntriesArePairs(valid, v, keys);
    ListingOf(v.entries, keys);
    NormalMapOf(v.entries, keys);
    assert Normalize(v) == Map(NormalMap(v.entries));
  }

  lemma {:induction false} MapComplete(valid: Bytes -> bool, v: Value, rest: Bytes, nodes: nat, depth: nat)
    requires v.Map? && Encodable(valid, v) && Fits(v, nodes, depth)
    ensures ParseValue(valid, Enc(valid, v) + rest, nodes, depth) == Ok(Normalize(v), rest, nodes + Nodes(v))
    decreases v, 0, 1
  {
    hide Enc, Encodable, WithinDepth, Nodes, Normalize, EncPairs, PairNodes, PairsEncodable, ParseValue, ParseEntries;
    var pairs := PairsOf(v);
    MapAsPairs(valid, v);
    PairsBelow(v, SortedKeys(v.entries.Keys), depth);
    PairsSize(valid, pairs);
    EntriesComplete(valid, v, pairs, rest, nodes + 1, depth + 1, None);
    Assoc([9] + PutU32(|pairs|), EncPairs(valid, pairs), rest);
    MapBodyComplete(valid, Enc(valid, v) + rest, EncPairs(valid, pairs) + rest, nodes, depth, |pairs|,
                    Ok(NormalPairs(pairs), rest, nodes + 1 + PairNodes(pairs)));
  }

  lemma PairsBelow(v: Value, keys: seq<Bytes>, depth: nat)
    requires v.Map? && WithinDepth(v, depth) && forall k | k in keys :: k in v.entries
    ensures depth <= MAX_DEPTH
    ensures forall i | 0 <= i < |keys| ::
              WithinDepth(PairsAt(v.entries, keys)[i].item, depth + 1) && PairsAt(v.entries, keys)[i].item < v
  {
    forall i | 0 <= i < |keys|
      ensures WithinDepth(PairsAt(v.entries, keys)[i].item, depth + 1) && PairsAt(v.entries, keys)[i].item < v
    {
      assert keys[i] in keys;
    }
  }

  lemma MapBodyComplete(valid: Bytes -> bool, b: Bytes, body: Bytes, nodes: nat, depth: nat,
                        n: nat, pairs: Parsed<seq<Entry>>)
    requires depth <= MAX_DEPTH && nodes + 1 + n <= MAX_NODES && 5 * n <= |body|
    requires b == [9] + PutU32(n) + body
    requires pairs.Ok? && ParseEntries(valid, body, nodes + 1, depth + 1, n, None) == pairs
    ensures ParseValue(valid, b, nodes, depth) == Ok(Map(MapOf(pairs.value)), pairs.rest, pairs.nodes)
  {
    hide PutU32, ParseCount, ParseItems, ParseEntries, ParseScalar, MapOf;
    assert b[1..] == PutU32(n) + body;
    CountComplete(n, body, nodes + 1, 5);
  }

  ghost function NormalPairs(pairs: seq<Entry>): seq<Entry> {
    seq(|pairs|, i requires 0 <= i < |pairs| => Entry(pairs[i].key, Normalize(pairs[i].item)))
  }

  /** `bound` is any value above every item: it only carries the termination argument. */
  lemma {:induction false} EntriesComplete(valid: Bytes -> bool, bound: Value, pairs: seq<Entry>, rest: Bytes,
                                           nodes: nat, depth: nat, previous: Option<Bytes>)
    requires forall i | 0 <= i < |pairs| :: pairs[i].item < bound
    requires PairsEncodable(valid, pairs) && SortedPairs(pairs)
    requires forall i | 0 <= i < |pairs| :: WithinDepth(pairs[i].item, depth)
    requires previous.Some? && pairs != [] ==> Less(previous.value, pairs[0].key)
    requires nodes + PairNodes(pairs) <= MAX_NODES
    ensures ParseEntries(valid, EncPairs(valid, pairs) + rest, nodes, depth, |pairs|, previous)
            == Ok(NormalPairs(pairs), rest, nodes + PairNodes(pairs))
    decreases bound, 0, 0, |pairs|
  {
    hide Enc, Encodable, WithinDepth, Nodes, Normalize, NormalPairs, EncPairs, ParseEntry, ParseEntries;
    if pairs == [] {
      EntriesNone(valid, rest, nodes, depth, previous);
    } else {
      var e, more := pairs[0], pairs[1..];
      var tail := EncPairs(valid, more) + rest;
      PairsUncons(valid, pairs);
      Assoc(Raw(e.key) + Enc(valid, e.item), EncPairs(valid, more), rest);
      EntryComplete(valid, e, tail, nodes, depth, previous);
      EntriesComplete(valid, bound, more, rest, nodes + Nodes(e.item), depth, Some(e.key));
      EntriesStep(valid, EncPairs(valid, pairs) + rest, nodes, depth, |more|, previous,
                  Ok(Entry(e.key, Normalize(e.item)), tail, nodes + Nodes(e.item)),
                  Ok(NormalPairs(more), rest, nodes + Nodes(e.item) + PairNodes(more)));
      NormalPairsCons(pairs);
    }
  }

  lemma EntriesNone(valid: Bytes -> bool, rest: Bytes, nodes: nat, depth: nat, previous: Option<Bytes>)
    ensures ParseEntries(valid, EncPairs(valid, []) + rest, nodes, depth, 0, previous)
            == Ok(NormalPairs([]), rest, nodes + PairNodes([]))
  {
    assert EncPairs(valid, []) + rest == rest;
    assert NormalPairs([]) == [];
  }

  lemma PairsUncons(valid: Bytes -> bool, pairs: seq<Entry>)
    requires pairs != [] && PairsEncodable(valid, pairs)
    ensures EncPairs(valid, pairs)
            == Raw(pairs[0].key) + Enc(valid, pairs[0].item) + EncPairs(valid, pairs[1..])
    ensures PairNodes(pairs) == Nodes(pairs[0].item) + PairNodes(pairs[1..])
  {
    hide Enc, Encodable, Nodes;
  }

  lemma NormalPairsCons(pairs: seq<Entry>)
    requires pairs != []
    ensures NormalPairs(pairs) == [Entry(pairs[0].key, Normalize(pairs[0].item))] + NormalPairs(pairs[1..])
  {
    hide Normalize;
  }

  lemma {:induction false} EntryComplete(valid: Bytes -> bool, e: Entry, tail: Bytes, nodes: nat,
                                         depth: nat, previous: Option<Bytes>)
    requires |e.key| < 0x1_0000_0000 && Encodable(valid, e.item) && Fits(e.item, nodes, depth)
    requires previous.Some? ==> Less(previous.value, e.key)
    ensures ParseEntry(valid, Raw(e.key) + Enc(valid, e.item) + tail, nodes, depth, previous)
            == Ok(Entry(e.key, Normalize(e.item)), tail, nodes + Nodes(e.item))
    decreases e.item, 2, 0
  {
    Assoc(Raw(e.key), Enc(valid, e.item), tail);
    RawComplete(e.key, Enc(valid, e.item) + tail, nodes);
    ParseComplete(valid, e.item, tail, nodes, depth);
  }

  ghost function NormalMap(m: map<Bytes, Value>): map<Bytes, Value> {
    map k | k in m :: Normalize(m[k])
  }

  lemma ListingUnique(pairs: seq<Entry>, a: map<Bytes, Value>, b: map<Bytes, Value>)
    requires Listing(pairs, a) && Listing(pairs, b)
    ensures a == b
  {
    forall k | k in a ensures k in b && a[k] == b[k] { assert HasKey(pairs, k); }
    forall k | k in b ensures k in a { assert HasKey(pairs, k); }
  }

  lemma ListingOf(m: map<Bytes, Value>, keys: seq<Bytes>)
    requires SortedOf(keys, m.Keys)
    ensures Listing(PairsAt(m, keys), m)
  {
    var pairs := PairsAt(m, keys);
    assert |m.Keys| == |m|;
    forall k | k in m ensures HasKey(pairs, k) {
      assert k in keys;
      var i :| 0 <= i < |keys| && keys[i] == k;
      assert pairs[i].key == k;
    }
    forall i | 0 <= i < |pairs| ensures pairs[i].key in m { assert keys[i] in keys; }
  }

  lemma ListingNormalizes(pairs: seq<Entry>, m: map<Bytes, Value>)
    requires Listing(pairs, m)
    ensures Listing(NormalPairs(pairs), NormalMap(m))
  {
    hide Normalize, Less, Covers, NormalMap, NormalPairs, Agrees, SortedPairs;
    NormalKeys(pairs, m);
    NormalCovers(pairs, m);
    NormalAgrees(pairs, m);
  }

  lemma NormalKeys(pairs: seq<Entry>, m: map<Bytes, Value>)
    ensures |NormalPairs(pairs)| == |pairs| && |NormalMap(m)| == |m| && NormalMap(m).Keys == m.Keys
    ensures SortedPairs(pairs) ==> SortedPairs(NormalPairs(pairs))
  {
    hide Normalize, Less;
    assert NormalMap(m).Keys == m.Keys;
  }

  lemma NormalCovers(pairs: seq<Entry>, m: map<Bytes, Value>)
    requires Covers(pairs, m)
    ensures Covers(NormalPairs(pairs), NormalMap(m))
  {
    hide Normalize;
    var pairs' := NormalPairs(pairs);
    forall k | k in NormalMap(m) ensures HasKey(pairs', k) {
      assert HasKey(pairs, k);
      var i :| 0 <= i < |pairs| && pairs[i].key == k;
      assert pairs'[i].key == k;
    }
  }

  lemma NormalAgrees(pairs: seq<Entry>, m: map<Bytes, Value>)
    requires Agrees(pairs, m)
    ensures Agrees(NormalPairs(pairs), NormalMap(m))
  {
    hide Normalize;
  }

  lemma NormalMapOf(m: map<Bytes, Value>, keys: seq<Bytes>)
    requires SortedOf(keys, m.Keys)
    ensures MapOf(NormalPairs(PairsAt(m, keys))) == NormalMap(m)
  {
    var pairs := NormalPairs(PairsAt(m, keys));
    ListingOf(m, keys);
    ListingNormalizes(PairsAt(m, keys), m);
    MapOfLists(pairs);
    ListingUnique(pairs, MapOf(pairs), NormalMap(m));
  }
}
