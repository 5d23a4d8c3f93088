/** The decoder as the source runs it: a reader that advances a position and latches its errors. */
module GraphReader {
  import opened ByteStrings
  import opened GraphCommand
  import opened GraphParser
  import opened GraphValue
  import opened Options

  /** Items already read, followed by what parsing the rest gives. */
  ghost function Prepend<T>(done: seq<T>, more: Parsed<seq<T>>): Parsed<seq<T>> {
    if more.Fail? then Fail else Ok(done + more.value, more.rest, more.nodes)
  }

  lemma PrependNothing<T>(p: Parsed<seq<T>>)
    ensures Prepend([], p) == p
  {
    if p.Ok? { assert [] + p.value == p.value; }
  }

  /** Moving one item over: `before` is the parse that starts with it, `more` the parse after it. */
  lemma PrependOne<T>(done: seq<T>, first: T, before: Parsed<seq<T>>, more: Parsed<seq<T>>)
    requires before == if more.Fail? then Fail else Ok([first] + more.value, more.rest, more.nodes)
    ensures Prepend(done, before) == Prepend(done + [first], more)
  {
    if more.Ok? { assert done + ([first] + more.value) == (done + [first]) + more.value; }
  }

  lemma MapNothing()
    ensures MapOf([]) == map[]
  {
  }

  lemma MapSnoc(pairs: seq<Entry>, e: Entry)
    ensures MapOf(pairs + [e]) == MapOf(pairs)[e.key := e.item]
  {
    assert (pairs + [e])[..|pairs|] == pairs;
  }

  lemma EntriesUnfold(valid: Bytes -> bool, b: Bytes, nodes: nat, depth: nat, n: nat, previous: Option<Bytes>)
    requires n > 0
    ensures var first := ParseEntry(valid, b, nodes, depth, previous);
            ParseEntries(valid, b, nodes, depth, n, previous) ==
              if first.Fail? then Fail
              else
                var more := ParseEntries(valid, first.rest, first.nodes, depth, n - 1, Some(first.value.key));
                if more.Fail? then Fail else Ok([first.value] + more.value, more.rest, more.nodes)
  {
    hide ParseEntry;
  }

  lemma EntriesEnd(valid: Bytes -> bool, b: Bytes, nodes: nat, depth: nat, previous: Option<Bytes>)
    ensures ParseEntries(valid, b, nodes, depth, 0, previous) == Ok([], b, nodes)
  {
  }

  class Reader {
    const data: Bytes
    const valid: Bytes -> bool
    var pos: nat
    var nodes: nat
    var err: bool

    constructor (valid: Bytes -> bool, data: Bytes)
      requires |data| >= 4
      ensures Valid() && !err && nodes == 0 && this.data == data && this.valid == valid && Unread() == data[4..]
    {
      this.data, this.valid := data, valid;
      pos, nodes, err := 4, 0, false;
    }

    /** Never past the end, and never more than one node past the limit. */
    ghost predicate Valid()
      reads this
    {
      pos <= |data| && nodes <= MAX_NODES + 1 && (!err ==> nodes <= MAX_NODES)
    }

    ghost function Unread(): Bytes
      reads this
      requires Valid()
    {
      data[pos..]
    }

    /** The reader stands where the parse ends, or has latched an error. */
    ghost predicate Shows<T>(p: Parsed<T>, value: T)
      reads this
    {
      Valid() && if p.Fail? then err else !err && value == p.value && Unread() == p.rest && nodes == p.nodes
    }

    method Take(n: nat) returns (b: Bytes)
      requires Valid()
      modifies this`pos, this`err
      ensures Valid() && (old(err) ==> err)
      ensures !old(err) ==> (err <==> n > |old(Unread())|)
      ensures !err ==> b == old(Unread())[..n] && Unread() == old(Unread())[n..]
    {
      if err { return []; }
      if n > |data| - pos {
        err := true;
        return [];
      }
      b := data[pos..pos + n];
      pos := pos + n;
    }

    method ReadByte() returns (x: Byte)
      requires Valid()
      modifies this`pos, this`err
      ensures Valid() && (old(err) ==> err)
      ensures !old(err) ==> (err <==> old(Unread()) == [])
      ensures !err ==> x == old(Unread())[0] && Unread() == old(Unread())[1..]
      ensures err ==> x == 0
    {
      var b := Take(1);
      x := if err then 0 else b[0];
    }

    method ReadU32() returns (n: U32)
      requires Valid()
      modifies this`pos, this`err
      ensures Valid() && (old(err) ==> err)
      ensures !old(err) ==> (err <==> |old(Unread())| < 4)
      ensures !err ==> n == GetU32(old(Unread())[..4]) && Unread() == old(Unread())[4..]
      ensures err ==> n == 0
    {
      var b := Take(4);
      n := if err then 0 else GetU32(b);
    }

    method ReadU64() returns (n: U64)
      requires Valid()
      modifies this`pos, this`err
      ensures Valid() && (old(err) ==> err)
      ensures !old(err) ==> Shows(ParseU64(old(Unread()), nodes), n)
    {
      var b := Take(8);
      n := if err then 0 else GetU64(b);
    }

    method ReadRaw() returns (s: Bytes)
      requires Valid()
      modifies this`pos, this`err
      ensures Valid() && (old(err) ==> err)
      ensures !old(err) ==> Shows(ParseRaw(old(Unread()), nodes), s)
    {
      var n := ReadU32();
      if n > |data| - pos {
        err := true;
        return [];
      }
      s := Take(n);
      if !err { assert s == old(Unread())[4..4 + n] && Unread() == old(Unread())[4 + n..]; }
    }

    /** -1 for a nil container and on error; otherwise the remaining bytes leave room for every element. */
    method ReadCount(minBytes: nat) returns (n: int)
      requires Valid()
      modifies this`pos, this`err
      ensures Valid() && (old(err) ==> err) && -1 <= n <= MAX_NODES
      ensures !old(err) ==> Shows(ParseCount(old(Unread()), nodes, minBytes), if n < 0 then None else Some(n))
      ensures n >= 0 ==> !err && n * minBytes <= |Unread()|
      ensures err ==> n == -1
    {
      var count := ReadU32();
      if err || count == NIL_COUNT { return -1; }
      if count > MAX_NODES || count * minBytes > |data| - pos {
        err := true;
        return -1;
      }
      return count;
    }

    /** Every tag but the two containers. */
    method Scalar(tag: Byte) returns (v: Value)
      requires Valid() && !err && tag != 8 && tag != 9
      modifies this`pos, this`err
      ensures Shows(ParseScalar(valid, [tag] + old(Unread()), nodes), v)
    {
      assert ([tag] + Unread())[1..] == Unread();
      match tag
      case 0 => v := Null;
      case 1 => v := Bool(false);
      case 2 => v := Bool(true);
      case 3 =>
        var n := ReadU64();
        v := Signed(ToI64(n));
      case 4 =>
        var bits := ReadU32();
        if !Finite32(bits) { err := true; }
        v := Float32(bits);
      case 5 =>
        var bits := ReadU64();
        if !Finite64(bits) { err := true; }
        v := Float64(bits);
      case 6 =>
        var s := ReadRaw();
        if !valid(s) { err := true; }
        v := Number(s);
      case 7 =>
        var s := ReadRaw();
        v := Str(s);
      case _ =>
        err := true;
        v := Null;
    }

    method ReadList(depth: nat) returns (v: Value)
      requires Valid() && !err && depth <= MAX_DEPTH
      modifies this`pos, this`nodes, this`err
      ensures Valid()
      ensures var n := ParseCount(old(Unread()), old(nodes), 1);
              Shows(if n.Fail? then Fail
                    else if n.value.None? then Ok(NilList, n.rest, old(nodes))
                    else if n.value.value > MAX_NODES - old(nodes) then Fail
                    else ListOf(ParseItems(valid, n.rest, old(nodes), depth + 1, n.value.value)), v)
      decreases MAX_DEPTH + 1 - depth, 0
    {
      hide ParseValue, ParseItems;
      var n := ReadCount(1);
      if n < 0 { return NilList; }
      if n > MAX_NODES - nodes {
        err := true;
        return Null;
      }
      var items := ReadItems(depth + 1, n);
      return List(items);
    }

    method ReadItems(depth: nat, n: nat) returns (items: seq<Value>)
      requires Valid() && !err && depth <= MAX_DEPTH + 1
      modifies this`pos, this`nodes, this`err
      ensures Shows(ParseItems(valid, old(Unread()), old(nodes), depth, n), items)
      decreases MAX_DEPTH + 1 - depth, 3
    {
      hide ParseValue;
      items := [];
      ghost var total := ParseItems(valid, Unread(), nodes, depth, n);
      PrependNothing(total);
      for i := 0 to n
        invariant Valid() && (err ==> total.Fail?)
        invariant !err ==> total == Prepend(items, ParseItems(valid, Unread(), nodes, depth, n - i))
      {
        ghost var before := if err then Fail else ParseItems(valid, Unread(), nodes, depth, n - i);
        var item := ReadValue(depth);
        if !err {
          ghost var more := ParseItems(valid, Unread(), nodes, depth, n - i - 1);
          PrependOne(items, item, before, more);
        }
        items := items + [item];
      }
      assert items + [] == items;
    }

    method ReadMap(depth: nat) returns (v: Value)
      requires Valid() && !err && depth <= MAX_DEPTH
      modifies this`pos, this`nodes, this`err
      ensures Valid()
      ensures var n := ParseCount(old(Unread()), old(nodes), 5);
              Shows(if n.Fail? then Fail
                    else if n.value.None? then Ok(NilMap, n.rest, old(nodes))
                    else if n.value.value > MAX_NODES - old(nodes) then Fail
                    else MapFrom(ParseEntries(valid, n.rest, old(nodes), depth + 1, n.value.value, None)), v)
      decreases MAX_DEPTH + 1 - depth, 0
    {
      hide ParseValue, ParseEntries;
      var n := ReadCount(5);
      if n < 0 { return NilMap; }
      if n > MAX_NODES - nodes {
        err := true;
        return Null;
      }
      var entries := ReadEntries(depth + 1, n);
      return Map(entries);
    }

    method ReadEntries(depth: nat, n: nat) returns (m: map<Bytes, Value>)
      requires Valid() && !err && depth <= MAX_DEPTH + 1
      modifies this`pos, this`nodes, this`err
      ensures var r := ParseEntries(valid, old(Unread()), old(nodes), depth, n, None);
              Valid() && if r.Fail? then err
                         else !err && m == MapOf(r.value) && Unread() == r.rest && nodes == r.nodes
      decreases MAX_DEPTH + 1 - depth, 3
    {
      hide ParseEntry, ParseEntries, MapOf;
      m := map[];
      assert MapOf([]) == map[] by { MapNothing(); }
      var previous: Bytes := [];
      ghost var pairs: seq<Entry> := [];
      ghost var total := ParseEntries(valid, Unread(), nodes, depth, n, None);
      PrependNothing(total);
      var i := 0;
      while i < n && !err
        invariant 0 <= i <= n && Valid() && (err ==> total.Fail?)
        invariant m == MapOf(pairs)
        invariant !err ==> total == Prepend(pairs, ParseEntries(valid, Unread(), nodes, depth, n - i,
                                                                 if i > 0 then Some(previous) else None))
        decreases n - i
      {
        ghost var last := if i > 0 then Some(previous) else None;
        ghost var before := ParseEntries(valid, Unread(), nodes, depth, n - i, last);
        EntriesUnfold(valid, Unread(), nodes, depth, n - i, last);
        var ok, key, item := ReadEntry(depth, i > 0, previous);
        if !ok { return map[]; }
        if !err {
          ghost var more := ParseEntries(valid, Unread(), nodes, depth, n - i - 1, Some(key));
          PrependOne(pairs, Entry(key, item), before, more);
        }
        MapSnoc(pairs, Entry(key, item));
        pairs := pairs + [Entry(key, item)];
        m := m[key := item];
        previous := key;
        i := i + 1;
      }
      if !err {
        EntriesEnd(valid, Unread(), nodes, depth, if i > 0 then Some(previous) else None);
        assert pairs + [] == pairs;
      }
    }

    /** One key, which must follow the previous one, and its value; `ok` is false on an unsorted key. */
    method ReadEntry(depth: nat, follows: bool, previous: Bytes) returns (ok: bool, key: Bytes, item: Value)
      requires Valid() && !err && depth <= MAX_DEPTH + 1
      modifies this`pos, this`nodes, this`err
      ensures Shows(ParseEntry(valid, old(Unread()), old(nodes), depth, if follows then Some(previous) else None),
                    Entry(key, item))
      ensures !ok ==> err
      decreases MAX_DEPTH + 1 - depth, 2
    {
      hide ParseValue, ParseRaw;
      item := Null;
      key := ReadRaw();
      if follows && !Less(previous, key) {
        err := true;
        return false, key, item;
      }
      item := ReadValue(depth);
      ok := true;
    }

    /** Reads one value exactly as `ParseValue` does, or latches an error. */
    method ReadValue(depth: nat) returns (v: Value)
      requires Valid()
      modifies this`pos, this`nodes, this`err
      ensures Valid() && (old(err) ==> err)
      ensures !old(err) ==> Shows(ParseValue(valid, old(Unread()), old(nodes), depth), v)
      decreases MAX_DEPTH + 1 - depth, 1
    {
      if err { return Null; }
      nodes := nodes + 1;
      if depth > MAX_DEPTH || nodes > MAX_NODES {
        err := true;
        return Null;
      }
      ghost var unread := Unread();
      var tag := ReadByte();
      if err { return Null; }
      assert unread == [tag] + Unread();
      if tag == 8 {
        v := ReadList(depth);
      } else if tag == 9 {
        v := ReadMap(depth);
      } else {
        v := Scalar(tag);
      }
    }
  }

  ghost function ListOf(items: Parsed<seq<Value>>): Parsed<Value> {
    if items.Fail? then Fail else Ok(List(items.value), items.rest, items.nodes)
  }

  ghost function MapFrom(pairs: Parsed<seq<Entry>>): Parsed<Value> {
    if pairs.Fail? then Fail else Ok(Map(MapOf(pairs.value)), pairs.rest, pairs.nodes)
  }

  /** After an unsuccessful call the reader's position no longer matters. */
  method DecodeManagedGraphOriginal(valid: Bytes -> bool, body: Bytes) returns (r: Option<Command>)
    ensures r == DecodeSpec(valid, body)
  {
    hide ParseRaw, ParseArgs, ParseEventList, ParseOffset, ParseTrim;
    if |body| > BODY_LIMIT || |body| < 4 || body[..4] != MAGIC { return None; }
    var reader := new Reader(valid, body);
    var requestID := reader.ReadRaw();
    var cypher := reader.ReadRaw();
    var args := ReadArgs(reader);
    var fits, events := ReadEventList(reader);
    if !fits { return None; }
    var offset := ReadOffset(reader);
    var trim := ReadTrim(reader);
    if reader.err { return None; }
    if reader.pos != |body| { return None; }
    return Some(Command(requestID, cypher, args, events, offset, trim));
  }

  method ReadArgs(reader: Reader) returns (args: Option<map<Bytes, Value>>)
    requires reader.Valid()
    modifies reader`pos, reader`nodes, reader`err
    ensures reader.Valid() && (old(reader.err) ==> reader.err)
    ensures !old(reader.err) ==> reader.Shows(ParseArgs(reader.valid, old(reader.Unread()), old(reader.nodes)), args)
  {
    hide ParseValue;
    var v := reader.ReadValue(1);
    if v.Map? { return Some(v.entries); }
    if !v.NilMap? && !reader.err { reader.err := true; }
    return None;
  }

  /** `fits` is false when the events alone would exceed the node budget. */
  method ReadEventList(reader: Reader) returns (fits: bool, events: Option<seq<Event>>)
    requires reader.Valid()
    modifies reader`pos, reader`nodes, reader`err
    ensures reader.Valid() && (old(reader.err) ==> reader.err)
    ensures fits && !old(reader.err) ==>
              reader.Shows(ParseEventList(reader.valid, old(reader.Unread()), old(reader.nodes)), events)
    ensures !fits ==> !old(reader.err) && ParseEventList(reader.valid, old(reader.Unread()), old(reader.nodes)).Fail?
  {
    hide ParseEvents;
    var n := reader.ReadCount(9);
    if n < 0 { return true, None; }
    if n > MAX_NODES - reader.nodes { return false, None; }
    var list := ReadEvents(reader, n);
    return true, Some(list);
  }

  method ReadEvents(reader: Reader, n: nat) returns (events: seq<Event>)
    requires reader.Valid() && !reader.err
    modifies reader`pos, reader`nodes, reader`err
    ensures reader.Shows(ParseEvents(reader.valid, old(reader.Unread()), old(reader.nodes), n), events)
  {
    hide ParseEvent;
    events := [];
    ghost var total := ParseEvents(reader.valid, reader.Unread(), reader.nodes, n);
    PrependNothing(total);
    for i := 0 to n
      invariant reader.Valid() && (reader.err ==> total.Fail?)
      invariant !reader.err ==>
                  total == Prepend(events, ParseEvents(reader.valid, reader.Unread(), reader.nodes, n - i))
    {
      ghost var before := if reader.err then Fail else ParseEvents(reader.valid, reader.Unread(), reader.nodes, n - i);
      var event := ReadEvent(reader);
      if !reader.err {
        PrependOne(events, event, before, ParseEvents(reader.valid, reader.Unread(), reader.nodes, n - i - 1));
      }
      events := events + [event];
    }
    assert events + [] == events;
  }

  method ReadEvent(reader: Reader) returns (event: Event)
    requires reader.Valid()
    modifies reader`pos, reader`nodes, reader`err
    ensures reader.Valid() && (old(reader.err) ==> reader.err)
    ensures !old(reader.err) ==> reader.Shows(ParseEvent(reader.valid, old(reader.Unread()), old(reader.nodes)), event)
  {
    hide ParseRaw, ParseValue;
    var stream := reader.ReadRaw();
    var kind := reader.ReadRaw();
    var payload := reader.ReadValue(1);
    return Event(stream, kind, payload);
  }

  method ReadOffset(reader: Reader) returns (offset: Option<Offset>)
    requires reader.Valid()
    modifies reader`pos, reader`err
    ensures reader.Valid() && (old(reader.err) ==> reader.err)
    ensures !old(reader.err) ==> reader.Shows(ParseOffset(old(reader.Unread()), reader.nodes), offset)
  {
    hide ParseRaw, ParseU64;
    offset := None;
    var present := reader.ReadByte();
    if present == 1 {
      var stream := reader.ReadRaw();
      var consumer := reader.ReadRaw();
      var sequence := reader.ReadU64();
      offset := Some(Offset(stream, consumer, sequence));
    } else if present != 0 {
      reader.err := true;
    }
  }

  method ReadTrim(reader: Reader) returns (trim: Option<Trim>)
    requires reader.Valid()
    modifies reader`pos, reader`err
    ensures reader.Valid() && (old(reader.err) ==> reader.err)
    ensures !old(reader.err) ==> reader.Shows(ParseTrim(old(reader.Unread()), reader.nodes), trim)
  {
    hide ParseRaw, ParseU64;
    trim := None;
    var present := reader.ReadByte();
    if present == 1 {
      var stream := reader.ReadRaw();
      var through := reader.ReadU64();
      trim := Some(Trim(stream, through));
    } else if present != 0 {
      reader.err := true;
    }
  }
}
