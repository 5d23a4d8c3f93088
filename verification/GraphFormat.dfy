/**
 * The graph original on the wire, byte by byte. That encoder and decoder are inverse fixes no byte of the format; this
 * does: tags, big-endian words, two's complement integers, lengths before texts and counts before elements.
 */
module GraphFormat {
  import opened ByteStrings
  import opened GraphCommand
  import opened GraphParser
  import opened GraphValue
  import opened Options

  /** Four bytes, the most significant first. */
  predicate IsWord(b: Bytes, at: nat, n: nat) {
    && at + 4 <= |b|
    && n == b[at] as nat * 0x100_0000 + b[at + 1] as nat * 0x1_0000 + b[at + 2] as nat * 0x100 + b[at + 3] as nat
  }

  /** Eight bytes, the most significant first. */
  predicate IsLong(b: Bytes, at: nat, n: nat) {
    && at + 8 <= |b|
    && n == (b[at] as nat * 0x100_0000 + b[at + 1] as nat * 0x1_0000 + b[at + 2] as nat * 0x100 + b[at + 3] as nat)
            * 0x1_0000_0000
            + b[at + 4] as nat * 0x100_0000 + b[at + 5] as nat * 0x1_0000 + b[at + 6] as nat * 0x100 + b[at + 7] as nat
  }

  lemma WordIs(n: U32)
    ensures IsWord(PutU32(n), 0, n)
  {
    hide PutU16;
    var hi, lo := n / 0x1_0000, n % 0x1_0000;
    BigEndian16(hi);
    BigEndian16(lo);
    assert PutU32(n)[0] == PutU16(hi)[0] && PutU32(n)[1] == PutU16(hi)[1];
    assert PutU32(n)[2] == PutU16(lo)[0] && PutU32(n)[3] == PutU16(lo)[1];
  }

  lemma LongIs(n: U64)
    ensures IsLong(PutU64(n), 0, n)
  {
    hide PutU32;
    var hi, lo := n / 0x1_0000_0000, n % 0x1_0000_0000;
    WordIs(hi);
    WordIs(lo);
    var b := PutU64(n);
    assert b[0] == PutU32(hi)[0] && b[1] == PutU32(hi)[1] && b[2] == PutU32(hi)[2] && b[3] == PutU32(hi)[3];
    assert b[4] == PutU32(lo)[0] && b[5] == PutU32(lo)[1] && b[6] == PutU32(lo)[2] && b[7] == PutU32(lo)[3];
  }

  /** A word that stands inside a byte string. */
  lemma WordWithin(a: Bytes, n: U32, c: Bytes)
    ensures IsWord(a + PutU32(n) + c, |a|, n)
  {
    hide PutU32;
    WordIs(n);
    var w, b := PutU32(n), a + PutU32(n) + c;
    assert b[|a|] == w[0] && b[|a| + 1] == w[1] && b[|a| + 2] == w[2] && b[|a| + 3] == w[3];
  }

  lemma LongWithin(a: Bytes, n: U64, c: Bytes)
    ensures IsLong(a + PutU64(n) + c, |a|, n)
  {
    hide PutU64;
    LongIs(n);
    var w, b := PutU64(n), a + PutU64(n) + c;
    assert b[|a|] == w[0] && b[|a| + 1] == w[1] && b[|a| + 2] == w[2] && b[|a| + 3] == w[3];
    assert b[|a| + 4] == w[4] && b[|a| + 5] == w[5] && b[|a| + 6] == w[6] && b[|a| + 7] == w[7];
  }

  /** The first byte of each kind of value. */
  function Tag(v: Value): nat {
    match v
    case Null => 0
    case Bool(b) => if b then 2 else 1
    case Signed(_) => 3
    case Unsigned(_) => 3
    case Float32(_) => 4
    case Float64(_) => 5
    case Number(_) => 6
    case Str(_) => 7
    case NilList => 8
    case List(_) => 8
    case NilMap => 9
    case Map(_) => 9
    case Unsupported => 255
  }

  /** A text on the wire: its length, then its bytes. */
  predicate IsText(b: Bytes, at: nat, text: Bytes) {
    at + 4 + |text| <= |b| && IsWord(b, at, |text|) && b[at + 4..at + 4 + |text|] == text
  }

  lemma TextWithin(a: Bytes, text: Bytes, c: Bytes)
    requires |text| < 0x1_0000_0000
    ensures IsText(a + Raw(text) + c, |a|, text)
  {
    hide PutU32, IsWord;
    var b := a + Raw(text) + c;
    WordWithin(a, |text|, text + c);
    assert b == a + PutU32(|text|) + (text + c);
    assert b[|a| + 4..|a| + 4 + |text|] == text;
  }

  /** What follows the tag. */
  ghost predicate FormatOk(valid: Bytes -> bool, v: Value, b: Bytes) {
    match v
    case Null => |b| == 1
    case Bool(_) => |b| == 1
    case Signed(n) => |b| == 9 && IsLong(b, 1, if n < 0 then n + 0x1_0000_0000_0000_0000 else n)
    case Unsigned(u) => |b| == 9 && IsLong(b, 1, u)
    case Float32(bits) => |b| == 5 && IsWord(b, 1, bits)
    case Float64(bits) => |b| == 9 && IsLong(b, 1, bits)
    case Number(lexeme) => |b| == 5 + |lexeme| && IsText(b, 1, lexeme)
    case Str(text) => |b| == 5 + |text| && IsText(b, 1, text)
    case NilList => |b| == 5 && IsWord(b, 1, 0xFFFF_FFFF)
    case List(items) => |b| >= 5 && IsWord(b, 1, |items|)
    case NilMap => |b| == 5 && IsWord(b, 1, 0xFFFF_FFFF)
    case Map(entries) => |b| >= 5 && IsWord(b, 1, |entries|)
    case Unsupported => false
  }

  /** Every value starts with its tag, and its integers, floats, texts and counts stand where they should. */
  lemma ValueFormat(valid: Bytes -> bool, v: Value)
    requires Encodable(valid, v)
    ensures var b := Enc(valid, v); b != [] && b[0] as nat == Tag(v) && FormatOk(valid, v, b)
  {
    hide PutU32, PutU64, IsWord, IsLong, IsText, Raw;
    var b := Enc(valid, v);
    match v
    case Null =>
    case Bool(_) =>
    case Signed(n) =>
      LongWithin([3], ToU64(n), []);
      assert b == [3] + PutU64(ToU64(n)) + [];
    case Unsigned(u) =>
      LongWithin([3], u, []);
      assert b == [3] + PutU64(u) + [];
    case Float32(bits) =>
      WordWithin([4], bits, []);
      assert b == [4] + PutU32(bits) + [];
    case Float64(bits) =>
      LongWithin([5], bits, []);
      assert b == [5] + PutU64(bits) + [];
    case Number(lexeme) =>
      TextWithin([6], lexeme, []);
      assert b == [6] + Raw(lexeme) + [];
    case Str(text) =>
      TextWithin([7], text, []);
      assert b == [7] + Raw(text) + [];
    case NilList =>
      WordWithin([8], NIL_COUNT, []);
      assert b == [8] + PutU32(NIL_COUNT) + [];
    case NilMap =>
      WordWithin([9], NIL_COUNT, []);
      assert b == [9] + PutU32(NIL_COUNT) + [];
    case List(items) => WordWithin([8], |items|, EncItems(valid, items));
    case Map(entries) => WordWithin([9], |entries|, EncEntries(valid, v, SortedKeys(entries.Keys)));
  }

  /** One byte string stands inside another at a place. */
  predicate StandsAt(b: Bytes, at: nat, piece: Bytes) { at + |piece| <= |b| && b[at..at + |piece|] == piece }

  /** The items of a list follow its count, one after the other. */
  lemma ListFormat(valid: Bytes -> bool, v: Value, i: nat) returns (at: nat)
    requires v.List? && Encodable(valid, v) && i < |v.items|
    ensures StandsAt(Enc(valid, v), at, Enc(valid, v.items[i])) && at == 5 + |EncItems(valid, v.items[..i])|
  {
    hide PutU32, EncItems;
    var k := ItemAt(valid, v.items, i);
    at := 5 + k;
    Within([8] + PutU32(|v.items|), EncItems(valid, v.items), k, Enc(valid, v.items[i]));
  }

  lemma Within(a: Bytes, b: Bytes, at: nat, piece: Bytes)
    requires StandsAt(b, at, piece)
    ensures StandsAt(a + b, |a| + at, piece)
  {
    assert (a + b)[|a| + at..|a| + at + |piece|] == b[at..at + |piece|];
  }

  lemma First(a: Bytes, b: Bytes)
    ensures StandsAt(a + b, 0, a)
  {
    assert (a + b)[0..0 + |a|] == a;
  }

  /** Where an item starts. */
  lemma {:induction false} ItemAt(valid: Bytes -> bool, items: seq<Value>, i: nat) returns (at: nat)
    requires i < |items| && forall j | 0 <= j < |items| :: Encodable(valid, items[j])
    ensures StandsAt(EncItems(valid, items), at, Enc(valid, items[i])) && at == |EncItems(valid, items[..i])|
    decreases i
  {
    hide Enc, Encodable, StandsAt;
    var first, rest := Enc(valid, items[0]), EncItems(valid, items[1..]);
    if i == 0 {
      at := 0;
      First(first, rest);
    } else {
      var k := ItemAt(valid, items[1..], i - 1);
      at := |first| + k;
      Within(first, rest, k, Enc(valid, items[i]));
      assert items[..i][1..] == items[1..][..i - 1];
    }
  }

  /** The entries of a map follow its count in ascending order of their keys, each key a text, then its value. */
  lemma MapFormat(valid: Bytes -> bool, v: Value, keys: seq<Bytes>, i: nat) returns (at: nat)
    requires v.Map? && Encodable(valid, v) && SortedOf(keys, v.entries.Keys) && i < |keys|
    ensures keys[i] in v.entries && at >= 5
    ensures IsText(Enc(valid, v), at, keys[i])
    ensures StandsAt(Enc(valid, v), at + 4 + |keys[i]|, Enc(valid, v.entries[keys[i]]))
  {
    hide PutU32, EncEntries, IsText, StandsAt, IsWord;
    SortedKeysIs(v.entries.Keys, keys);
    forall k | k in keys ensures k in v.entries {}
    var k := EntryAt(valid, v, keys, i);
    at := 5 + k;
    var head, tail := [9] + PutU32(|v.entries|), EncEntries(valid, v, keys);
    Within(head, tail, k + 4 + |keys[i]|, Enc(valid, v.entries[keys[i]]));
    TextLater(head, tail, k, keys[i]);
  }

  lemma TextLater(a: Bytes, b: Bytes, at: nat, text: Bytes)
    requires IsText(b, at, text)
    ensures IsText(a + b, |a| + at, text)
  {
    assert (a + b)[|a| + at + 4..|a| + at + 4 + |text|] == b[at + 4..at + 4 + |text|];
  }

  lemma {:induction false} EntryAt(valid: Bytes -> bool, v: Value, keys: seq<Bytes>, i: nat) returns (at: nat)
    requires v.Map? && Encodable(valid, v) && i < |keys| && forall k | k in keys :: k in v.entries
    ensures keys[i] in keys
    ensures IsText(EncEntries(valid, v, keys), at, keys[i])
    ensures StandsAt(EncEntries(valid, v, keys), at + 4 + |keys[i]|, Enc(valid, v.entries[keys[i]]))
    decreases i
  {
    hide Enc, StandsAt, IsText, Raw, EncEntries;
    assert keys[0] in keys && keys[i] in keys;
    EntriesUncons(valid, v, keys);
    var key, item, rest := Raw(keys[0]), Enc(valid, v.entries[keys[0]]), EncEntries(valid, v, keys[1..]);
    if i == 0 {
      at := 0;
      EntryFirst(keys[0], item, rest);
    } else {
      var k := EntryAt(valid, v, keys[1..], i - 1);
      at := |key + item| + k;
      Within(key + item, rest, k + 4 + |keys[i]|, Enc(valid, v.entries[keys[i]]));
      TextLater(key + item, rest, k, keys[i]);
    }
  }

  lemma EntriesUncons(valid: Bytes -> bool, v: Value, keys: seq<Bytes>)
    requires v.Map? && Encodable(valid, v) && keys != [] && forall k | k in keys :: k in v.entries
    ensures keys[0] in keys && |keys[0]| < 0x1_0000_0000 && Encodable(valid, v.entries[keys[0]])
    ensures EncEntries(valid, v, keys)
            == Raw(keys[0]) + Enc(valid, v.entries[keys[0]]) + EncEntries(valid, v, keys[1..])
  {
    hide Enc, Raw;
    assert keys[0] in keys;
  }

  lemma EntryFirst(key: Bytes, item: Bytes, rest: Bytes)
    requires |key| < 0x1_0000_0000
    ensures IsText(Raw(key) + item + rest, 0, key) && StandsAt(Raw(key) + item + rest, 4 + |key|, item)
  {
    hide IsText, StandsAt, Raw;
    Assoc(Raw(key), item, rest);
    First(item, rest);
    Within(Raw(key), item + rest, 0, item);
    TextWithin([], key, item + rest);
    assert [] + Raw(key) + (item + rest) == Raw(key) + item + rest;
  }

  /** A command: `M`, `G`, `O`, 1, its request identifier and statement as texts, then what it carries. */
  lemma CommandFormat(valid: Bytes -> bool, c: Command)
    requires CommandEncodable(valid, c)
    ensures var b := EncCommand(valid, c);
            && |b| >= 8 + |c.requestID| && b[..4] == [77, 71, 79, 1]
            && IsText(b, 4, c.requestID) && IsText(b, 8 + |c.requestID|, c.cypher)
            && b[12 + |c.requestID| + |c.cypher|..]
               == Enc(valid, ArgsValue(c.args))
                  + (EncEventList(valid, c.events) + (EncOffset(c.offset) + EncTrim(c.trim)))
  {
    hide Enc, Encodable, EncEventList, EncOffset, EncTrim, Raw, IsText;
    var rest := Enc(valid, ArgsValue(c.args))
                + (EncEventList(valid, c.events) + (EncOffset(c.offset) + EncTrim(c.trim)));
    var b := EncCommand(valid, c);
    TextWithin(MAGIC, c.requestID, Raw(c.cypher) + rest);
    assert b == MAGIC + Raw(c.requestID) + (Raw(c.cypher) + rest) by {
      Assoc(MAGIC, Raw(c.requestID), Raw(c.cypher) + rest);
    }
    TextWithin(MAGIC + Raw(c.requestID), c.cypher, rest);
    assert b == MAGIC + Raw(c.requestID) + Raw(c.cypher) + rest by {
      Assoc(MAGIC + Raw(c.requestID), Raw(c.cypher), rest);
    }
    assert b[..4] == MAGIC;
    assert b[|MAGIC + Raw(c.requestID) + Raw(c.cypher)|..] == rest;
  }

  /** The events of a command follow their count, one after the other. */
  lemma EventsFormat(valid: Bytes -> bool, events: seq<Event>, i: nat) returns (at: nat)
    requires EventListEncodable(valid, Some(events)) && i < |events|
    ensures IsWord(EncEventList(valid, Some(events)), 0, |events|)
    ensures EventsEncodable(valid, events[..i]) && EventEncodable(valid, events[i])
    ensures StandsAt(EncEventList(valid, Some(events)), at, EncEvent(valid, events[i]))
    ensures at == 4 + |EncEvents(valid, events[..i])|
  {
    hide PutU32, EncEvents, EncEvent, EventEncodable, IsWord, StandsAt;
    var k := EventAt(valid, events, i);
    at := 4 + k;
    Within(PutU32(|events|), EncEvents(valid, events), k, EncEvent(valid, events[i]));
    WordIs(|events|);
    WordFirst(PutU32(|events|), EncEvents(valid, events), |events|);
  }

  lemma WordFirst(a: Bytes, b: Bytes, n: nat)
    requires IsWord(a, 0, n)
    ensures IsWord(a + b, 0, n)
  {
  }

  lemma {:induction false} EventAt(valid: Bytes -> bool, events: seq<Event>, i: nat) returns (at: nat)
    requires EventsEncodable(valid, events) && i < |events|
    ensures EventsEncodable(valid, events[..i]) && EventEncodable(valid, events[i])
    ensures StandsAt(EncEvents(valid, events), at, EncEvent(valid, events[i]))
    ensures at == |EncEvents(valid, events[..i])|
    decreases i
  {
    hide EncEvent, EventEncodable, StandsAt;
    var first, rest := EncEvent(valid, events[0]), EncEvents(valid, events[1..]);
    if i == 0 {
      at := 0;
      First(first, rest);
    } else {
      var k := EventAt(valid, events[1..], i - 1);
      at := |first| + k;
      Within(first, rest, k, EncEvent(valid, events[i]));
      assert events[..i][1..] == events[1..][..i - 1];
    }
  }

  /** An event: stream and kind as texts, then the payload. */
  lemma EventFormat(valid: Bytes -> bool, e: Event)
    requires EventEncodable(valid, e)
    ensures var b := EncEvent(valid, e);
            && IsText(b, 0, e.stream) && IsText(b, 4 + |e.stream|, e.kind)
            && StandsAt(b, 8 + |e.stream| + |e.kind|, Enc(valid, e.payload))
            && |b| == 8 + |e.stream| + |e.kind| + |Enc(valid, e.payload)|
  {
    hide Enc, Encodable, Raw, IsText, StandsAt;
    var payload := Enc(valid, e.payload);
    EntryFirst(e.stream, Raw(e.kind) + payload, []);
    assert Raw(e.stream) + (Raw(e.kind) + payload) + [] == EncEvent(valid, e);
    TextWithin(Raw(e.stream), e.kind, payload);
    Assoc(Raw(e.stream), Raw(e.kind), payload);
    First(payload, []);
    assert payload + [] == payload;
    Within(Raw(e.stream) + Raw(e.kind), payload, 0, payload);
  }

  /** An offset: 1, two texts and a number; a trim: 1, a text and a number; a missing one is 0. */
  lemma OffsetFormat(o: Offset)
    requires OffsetEncodable(Some(o))
    ensures var b := EncOffset(Some(o));
            && b[0] == 1 && IsText(b, 1, o.stream) && IsText(b, 5 + |o.stream|, o.consumer)
            && IsLong(b, 9 + |o.stream| + |o.consumer|, o.sequence) && |b| == 17 + |o.stream| + |o.consumer|
    ensures EncOffset(None) == [0]
  {
    hide Raw, PutU64, IsText, IsLong;
    var b, n := EncOffset(Some(o)), PutU64(o.sequence);
    TextWithin([1], o.stream, Raw(o.consumer) + n);
    Assoc([1], Raw(o.stream), Raw(o.consumer) + n);
    TextWithin([1] + Raw(o.stream), o.consumer, n);
    Assoc([1] + Raw(o.stream), Raw(o.consumer), n);
    LongWithin([1] + Raw(o.stream) + Raw(o.consumer), o.sequence, []);
    assert b == [1] + Raw(o.stream) + Raw(o.consumer) + n + [];
  }

  lemma TrimFormat(t: Trim)
    requires TrimEncodable(Some(t))
    ensures var b := EncTrim(Some(t));
            && b[0] == 1 && IsText(b, 1, t.stream) && IsLong(b, 5 + |t.stream|, t.throughSequence)
            && |b| == 13 + |t.stream|
    ensures EncTrim(None) == [0]
  {
    hide Raw, PutU64, IsText, IsLong;
    var b, n := EncTrim(Some(t)), PutU64(t.throughSequence);
    TextWithin([1], t.stream, n);
    Assoc([1], Raw(t.stream), n);
    LongWithin([1] + Raw(t.stream), t.throughSequence, []);
    assert b == [1] + Raw(t.stream) + n + [];
  }

  // --------------------------------------------------------------------------------------- limits

  /** Below infinity in magnitude. */
  lemma FiniteIff(b32: U32, b64: U64)
    ensures Finite32(b32) <==> b32 % 0x8000_0000 < 0x7F80_0000
    ensures Finite64(b64) <==> b64 % 0x8000_0000_0000_0000 < 0x7FF0_0000_0000_0000
  {
  }

  /** Lists in lists, with null inside. */
  function Nested(k: nat): Value { if k == 0 then Null else List([Nested(k - 1)]) }

  /** Nesting is accepted down to depth 32 and no further. */
  lemma {:induction false} NestingLimit(k: nat, depth: nat)
    ensures WithinDepth(Nested(k), depth) <==> depth + k <= 32
    ensures Nodes(Nested(k)) == k + 1
    decreases k
  {
    if k > 0 {
      NestingLimit(k - 1, depth + 1);
      var items := [Nested(k - 1)];
      assert items[1..] == [] && ItemNodes(items) == Nodes(items[0]) + ItemNodes(items[1..]);
      assert items[0] == Nested(k - 1);
    }
  }

  /** A list counts as one node and each of its elements as one more. */
  lemma {:induction false} FlatNodes(items: seq<Value>)
    requires forall i | 0 <= i < |items| :: Nodes(items[i]) == 1
    ensures ItemNodes(items) == |items| && Nodes(List(items)) == |items| + 1
  {
    if items != [] { FlatNodes(items[1..]); }
  }

  function Nulls(k: nat): seq<Value> { seq(k, i => Null) }

  lemma {:induction false} NullsEncoded(valid: Bytes -> bool, items: seq<Value>)
    requires forall i | 0 <= i < |items| :: items[i] == Null
    ensures |EncItems(valid, items)| == |items|
  {
    if items != [] { NullsEncoded(valid, items[1..]); }
  }

  /** A command whose one event carries a list of nulls. */
  function Carrier(k: nat): Command { Command([], [], None, Some([Event([], [], List(Nulls(k)))]), None, None) }

  lemma CarrierEncoded(valid: Bytes -> bool, k: nat)
    requires k <= 65536
    ensures CommandEncodable(valid, Carrier(k)) && |EncCommand(valid, Carrier(k))| == 36 + k
  {
    hide PutU32, Raw, EncItems;
    var e := Event([], [], List(Nulls(k)));
    assert Encodable(valid, e.payload);
    NullsEncoded(valid, Nulls(k));
    assert |Enc(valid, e.payload)| == 5 + k;
    assert |EncEvent(valid, e)| == 13 + k;
    assert [e][1..] == [] && EncEvents(valid, [e]) == EncEvent(valid, e) + EncEvents(valid, [e][1..]);
    assert |EncEventList(valid, Some([e]))| == 17 + k;
    assert |Enc(valid, NilMap)| == 5;
  }

  /** A tree of 65536 nodes, the one of the arguments included, is accepted and no larger one. */
  lemma NodeLimit(valid: Bytes -> bool, k: nat)
    ensures EncodeSpec(valid, Carrier(k)).Some? <==> k <= 65534
  {
    hide Enc, EncCommand, CommandEncodable, CommandWithinDepth;
    var events := [Event([], [], List(Nulls(k)))];
    FlatNodes(Nulls(k));
    assert events[1..] == [] && EventNodes(events) == Nodes(events[0].payload) + EventNodes(events[1..]);
    assert CommandNodes(Carrier(k)) == k + 2;
    if k <= 65534 {
      CarrierEncoded(valid, k);
      CarrierIsShallow(k);
    }
  }

  lemma CarrierIsShallow(k: nat)
    ensures CommandWithinDepth(Carrier(k))
  {
    var items := Nulls(k);
    forall i | 0 <= i < |items| ensures WithinDepth(items[i], 2) { assert items[i] == Null; }
    assert WithinDepth(List(items), 1) && WithinDepth(NilMap, 1);
  }

  /** A body of 192 KiB is accepted and no longer one. */
  lemma BodyLimit(valid: Bytes -> bool, cypher: Bytes)
    ensures EncodeSpec(valid, Command([], cypher, None, None, None, None)).Some? <==> |cypher| + 23 <= 196_608
  {
    hide PutU32, Raw;
    assert |Enc(valid, NilMap)| == 5;
  }

  lemma SmallWords()
    ensures PutU32(0) == [0, 0, 0, 0] && PutU32(NIL_COUNT) == [255, 255, 255, 255] && Raw([]) == [0, 0, 0, 0]
  {
  }

  /** No events, no offset, no trim. */
  lemma SmallestTail(valid: Bytes -> bool)
    ensures EventListEncodable(valid, None)
    ensures EncEventList(valid, None) + (EncOffset(None) + EncTrim(None)) == [255, 255, 255, 255, 0, 0]
  {
    hide PutU32;
    SmallWords();
    assert EncOffset(None) + EncTrim(None) == [0, 0];
  }

  /** The smallest command, in full: no arguments, no events, no offset, no trim. */
  lemma SmallestCommand(valid: Bytes -> bool)
    ensures EncodeSpec(valid, Command([], [], None, None, None, None))
            == Some([77, 71, 79, 1,  0, 0, 0, 0,  0, 0, 0, 0,  9, 255, 255, 255, 255,  255, 255, 255, 255,  0,  0])
  {
    hide PutU32, Raw, EncEventList, EncOffset, EncTrim;
    var c := Command([], [], None, None, None, None);
    SmallWords();
    SmallestTail(valid);
    assert Enc(valid, NilMap) == [9] + PutU32(NIL_COUNT);
    var tail := EncEventList(valid, None) + (EncOffset(None) + EncTrim(None));
    var args := Enc(valid, NilMap) + tail;
    assert args == [9, 255, 255, 255, 255, 255, 255, 255, 255, 0, 0];
    assert EncCommand(valid, c) == MAGIC + (Raw([]) + (Raw([]) + args));
    assert EncCommand(valid, c)
           == [77, 71, 79, 1, 0, 0, 0, 0, 0, 0, 0, 0, 9, 255, 255, 255, 255, 255, 255, 255, 255, 0, 0];
    assert Acceptable(valid, c);
  }
}
