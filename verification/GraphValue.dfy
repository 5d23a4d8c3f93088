/**
 * Graph commands and the bytes they denote (internal/types/managed_graph_original.go): what a value
 * encodes to, how many tree nodes it has, how deep it is, and which values are encodable at all.
 */
module GraphValue {
  import opened ByteStrings
  import opened Options

  const BODY_LIMIT := 192 * 1024
  const MAX_NODES := 65536
  const MAX_DEPTH := 32
  const NIL_COUNT: U32 := 0xFFFF_FFFF
  const MAGIC: Bytes := [77, 71, 79, 1]   // 'M' 'G' 'O' 1

  /** A Go `any`. `Signed` stands for int, int8, ..., int64; `Unsigned` for uint, ..., uint64; floats
      are their bits; `Unsupported` is every other dynamic type. Maps have no order. */
  datatype Value =
    | Null
    | Bool(b: bool)
    | Signed(n: I64)
    | Unsigned(u: U64)
    | Float32(bits32: U32)
    | Float64(bits64: U64)
    | Number(lexeme: Bytes)
    | Str(text: Bytes)
    | NilList
    | List(items: seq<Value>)
    | NilMap
    | Map(entries: map<Bytes, Value>)
    | Unsupported

  datatype Event = Event(stream: Bytes, kind: Bytes, payload: Value)
  datatype Offset = Offset(stream: Bytes, consumer: Bytes, sequence: U64)
  datatype Trim = Trim(stream: Bytes, throughSequence: U64)

  /** `None` is a nil map, slice or pointer. */
  datatype Command = Command(
    requestID: Bytes, cypher: Bytes, args: Option<map<Bytes, Value>>, events: Option<seq<Event>>,
    offset: Option<Offset>, trim: Option<Trim>)

  /** Neither infinite nor NaN: the exponent field is not all ones. */
  predicate Finite32(bits: U32) { bits / 0x80_0000 % 256 != 255 }
  predicate Finite64(bits: U64) { bits / 0x10_0000_0000_0000 % 2048 != 2047 }

  // ------------------------------------------------------------------------------------- values

  function Raw(s: Bytes): (b: Bytes)
    requires |s| < 0x1_0000_0000
    ensures |b| == 4 + |s|
  {
    PutU32(|s|) + s
  }

  /** What the encoder accepts before any budget; `valid` is the number-lexeme check. */
  ghost predicate Encodable(valid: Bytes -> bool, v: Value)
    decreases v
  {
    match v
    case Unsigned(u) => u < 0x8000_0000_0000_0000
    case Float32(bits) => Finite32(bits)
    case Float64(bits) => Finite64(bits)
    case Number(lexeme) => valid(lexeme) && |lexeme| < 0x1_0000_0000
    case Str(text) => |text| < 0x1_0000_0000
    case List(items) => |items| <= MAX_NODES && forall i | 0 <= i < |items| :: Encodable(valid, items[i])
    case Map(entries) =>
      |entries| <= MAX_NODES && forall k | k in entries :: |k| < 0x1_0000_0000 && Encodable(valid, entries[k])
    case Unsupported => false
    case _ => true
  }

  /** All integer types widened to int64. */
  ghost function Normalize(v: Value): Value
    decreases v
  {
    match v
    case Unsigned(u) => if u < 0x8000_0000_0000_0000 then Signed(u) else v
    case List(items) => List(seq(|items|, i requires 0 <= i < |items| => Normalize(items[i])))
    case Map(entries) => Map(map k | k in entries :: Normalize(entries[k]))
    case _ => v
  }

  ghost function Enc(valid: Bytes -> bool, v: Value): Bytes
    requires Encodable(valid, v)
    decreases v, 1, 0
  {
    match v
    case Null => [0]
    case Bool(b) => if b then [2] else [1]
    case Signed(n) => [3] + PutU64(ToU64(n))
    case Unsigned(u) => [3] + PutU64(u)
    case Float32(bits) => [4] + PutU32(bits)
    case Float64(bits) => [5] + PutU64(bits)
    case Number(lexeme) => [6] + Raw(lexeme)
    case Str(text) => [7] + Raw(text)
    case NilList => [8] + PutU32(NIL_COUNT)
    case List(items) => [8] + PutU32(|items|) + EncItems(valid, items)
    case NilMap => [9] + PutU32(NIL_COUNT)
    case Map(entries) => [9] + PutU32(|entries|) + EncEntries(valid, v, SortedKeys(entries.Keys))
  }

  ghost function EncItems(valid: Bytes -> bool, items: seq<Value>): Bytes
    requires forall i | 0 <= i < |items| :: Encodable(valid, items[i])
    decreases items, 0, 0
  {
    if items == [] then [] else Enc(valid, items[0]) + EncItems(valid, items[1..])
  }

  ghost function EncEntries(valid: Bytes -> bool, v: Value, keys: seq<Bytes>): Bytes
    requires v.Map? && Encodable(valid, v) && forall k | k in keys :: k in v.entries
    decreases v, 0, |keys|
  {
    if keys == [] then []
    else
      assert keys[0] in keys;
      Raw(keys[0]) + Enc(valid, v.entries[keys[0]]) + EncEntries(valid, v, keys[1..])
  }

  ghost function Nodes(v: Value): nat
    decreases v, 1, 0
  {
    match v
    case List(items) => 1 + ItemNodes(items)
    case Map(entries) => 1 + EntryNodes(v, SortedKeys(entries.Keys))
    case _ => 1
  }

  ghost function ItemNodes(items: seq<Value>): nat
    decreases items, 0, 0
  {
    if items == [] then 0 else Nodes(items[0]) + ItemNodes(items[1..])
  }

  ghost function EntryNodes(v: Value, keys: seq<Bytes>): nat
    requires v.Map? && forall k | k in keys :: k in v.entries
    decreases v, 0, |keys|
  {
    if keys == [] then 0
    else
      assert keys[0] in keys;
      Nodes(v.entries[keys[0]]) + EntryNodes(v, keys[1..])
  }

  /** The tree rooted at depth `d` stays within the depth limit. */
  ghost predicate WithinDepth(v: Value, d: nat)
    decreases v
  {
    d <= MAX_DEPTH
    && (match v
        case List(items) => forall i | 0 <= i < |items| :: WithinDepth(items[i], d + 1)
        case Map(entries) => forall k | k in entries :: WithinDepth(entries[k], d + 1)
        case _ => true)
  }
}
