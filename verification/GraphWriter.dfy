/** The encoder as the source runs it: a writer that appends, counts nodes and latches its first error. */
module GraphWriter {
  import opened ByteStrings
  import opened GraphCommand
  import opened GraphParser
  import opened GraphValue
  import opened Options

  // ---------------------------------------------------- when a prefix already breaks a budget

  /** Everything the writer checks for one value, given what is already written. */
  ghost predicate Writable(valid: Bytes -> bool, v: Value, nodes: nat, depth: nat, size: nat) {
    Encodable(valid, v) && Fits(v, nodes, depth) && size + |Enc(valid, v)| <= BODY_LIMIT
  }

  ghost predicate ItemsWritable(valid: Bytes -> bool, items: seq<Value>, nodes: nat, depth: nat, size: nat) {
    && (forall i | 0 <= i < |items| :: Encodable(valid, items[i]) && WithinDepth(items[i], depth))
    && nodes + ItemNodes(items) <= MAX_NODES && size + |EncItems(valid, items)| <= BODY_LIMIT
  }

  ghost predicate PairsWritable(valid: Bytes -> bool, pairs: seq<Entry>, nodes: nat, depth: nat, size: nat) {
    && PairsEncodable(valid, pairs) && (forall i | 0 <= i < |pairs| :: WithinDepth(pairs[i].item, depth))
    && nodes + PairNodes(pairs) <= MAX_NODES && size + |EncPairs(valid, pairs)| <= BODY_LIMIT
  }

  lemma {:induction false} ItemsSplit(valid: Bytes -> bool, items: seq<Value>, i: nat)
    requires i <= |items| && forall j | 0 <= j < |items| :: Encodable(valid, items[j])
    ensures EncItems(valid, items) == EncItems(valid, items[..i]) + EncItems(valid, items[i..])
    ensures ItemNodes(items) == ItemNodes(items[..i]) + ItemNodes(items[i..])
    decreases i
  {
    hide Enc, Encodable, Nodes;
    if i == 0 {
      assert items[..0] == [] && items[0..] == items;
    } else {
      ItemsSplit(valid, items[1..], i - 1);
      assert items[1..][..i - 1] == items[..i][1..] && items[1..][i - 1..] == items[i..];
      Assoc(Enc(valid, items[0]), EncItems(valid, items[..i][1..]), EncItems(valid, items[i..]));
    }
  }

  lemma {:induction false} PairsSplit(valid: Bytes -> bool, pairs: seq<Entry>, i: nat)
    requires i <= |pairs| && PairsEncodable(valid, pairs)
    ensures EncPairs(valid, pairs) == EncPairs(valid, pairs[..i]) + EncPairs(valid, pairs[i..])
    ensures PairNodes(pairs) == PairNodes(pairs[..i]) + PairNodes(pairs[i..])
    decreases i
  {
    hide Enc, Encodable, Nodes;
    if i == 0 {
      assert pairs[..0] == [] && pairs[0..] == pairs;
    } else {
      PairsSplit(valid, pairs[1..], i - 1);
      assert pairs[1..][..i - 1] == pairs[..i][1..] && pairs[1..][i - 1..] == pairs[i..];
      Assoc(Raw(pairs[0].key) + Enc(valid, pairs[0].item), EncPairs(valid, pairs[..i][1..]),
            EncPairs(valid, pairs[i..]));
    }
  }

  lemma ItemsSnoc(valid: Bytes -> bool, items: seq<Value>, i: nat)
    requires i < |items| && forall j | 0 <= j <= i :: Encodable(valid, items[j])
    ensures EncItems(valid, items[..i + 1]) == EncItems(valid, items[..i]) + Enc(valid, items[i])
    ensures ItemNodes(items[..i + 1]) == ItemNodes(items[..i]) + Nodes(items[i])
  {
    hide Enc, Encodable, Nodes;
    ItemsSplit(valid, items[..i + 1], i);
    assert items[..i + 1][..i] == items[..i] && items[..i + 1][i..] == [items[i]];
    assert EncItems(valid, [items[i]]) == Enc(valid, items[i]) + [];
    assert ItemNodes([items[i]]) == Nodes(items[i]) by { assert [items[i]][1..] == []; }
  }

  lemma PairsSnoc(valid: Bytes -> bool, pairs: seq<Entry>, i: nat)
    requires i < |pairs| && PairsEncodable(valid, pairs[..i + 1])
    ensures EncPairs(valid, pairs[..i + 1])
            == EncPairs(valid, pairs[..i]) + (Raw(pairs[i].key) + Enc(valid, pairs[i].item))
    ensures PairNodes(pairs[..i + 1]) == PairNodes(pairs[..i]) + Nodes(pairs[i].item)
  {
    hide Enc, Encodable, Nodes;
    PairsSplit(valid, pairs[..i + 1], i);
    assert pairs[..i + 1][..i] == pairs[..i] && pairs[..i + 1][i..] == [pairs[i]];
    var one := Raw(pairs[i].key) + Enc(valid, pairs[i].item);
    assert EncPairs(valid, [pairs[i]]) == one + [] by { assert [pairs[i]][1..] == []; }
    assert PairNodes([pairs[i]]) == Nodes(pairs[i].item) by { assert [pairs[i]][1..] == []; }
  }

  /** If the next item does not fit, the whole list does not. */
  lemma ItemStops(valid: Bytes -> bool, items: seq<Value>, i: nat, nodes: nat, depth: nat, size: nat)
    requires i < |items| && forall j | 0 <= j < i :: Encodable(valid, items[j])
    requires !Writable(valid, items[i], nodes + ItemNodes(items[..i]), depth, size + |EncItems(valid, items[..i])|)
    ensures !ItemsWritable(valid, items, nodes, depth, size)
  {
    hide Enc, Encodable, Nodes, WithinDepth, EncItems, ItemNodes;
    if forall j | 0 <= j < |items| :: Encodable(valid, items[j]) {
      ItemsSnoc(valid, items, i);
      ItemsSplit(valid, items, i + 1);
    }
  }

  lemma PairStops(valid: Bytes -> bool, pairs: seq<Entry>, i: nat, nodes: nat, depth: nat, size: nat)
    requires i < |pairs| && PairsEncodable(valid, pairs[..i])
    requires var before := size + |EncPairs(valid, pairs[..i])|;
             || before + 4 + |pairs[i].key| > BODY_LIMIT
             || !Writable(valid, pairs[i].item, nodes + PairNodes(pairs[..i]), depth, before + 4 + |pairs[i].key|)
    ensures !PairsWritable(valid, pairs, nodes, depth, size)
  {
    hide Enc, Encodable, Nodes, WithinDepth, EncPairs, PairNodes;
    if PairsEncodable(valid, pairs) {
      assert PairsEncodable(valid, pairs[..i + 1]);
      PairsSnoc(valid, pairs, i);
      PairsSplit(valid, pairs, i + 1);
    }
  }

  /** A list fits exactly when its header and its items do. */
  lemma ListWritable(valid: Bytes -> bool, v: Value, nodes: nat, depth: nat, size: nat)
    requires v.List?
    ensures Writable(valid, v, nodes, depth, size)
            <==> && depth <= MAX_DEPTH && |v.items| <= MAX_NODES
                 && ItemsWritable(valid, v.items, nodes + 1, depth + 1, size + 5)
  {
  }

  lemma MapEncodableIff(valid: Bytes -> bool, v: Value)
    requires v.Map?
    ensures Encodable(valid, v) <==> |v.entries| <= MAX_NODES && PairsEncodable(valid, PairsOf(v))
  {
    ListingOf(v.entries, SortedKeys(v.entries.Keys));
    if Encodable(valid, v) { MapAsPairs(valid, v); }
    if |v.entries| <= MAX_NODES && PairsEncodable(valid, PairsOf(v)) { ListingEncodable(valid, PairsOf(v), v.entries); }
  }

  lemma MapDepthIff(v: Value, depth: nat)
    requires v.Map?
    ensures WithinDepth(v, depth)
            <==> depth <= MAX_DEPTH && forall i | 0 <= i < |PairsOf(v)| :: WithinDepth(PairsOf(v)[i].item, depth + 1)
  {
    var pairs := PairsOf(v);
    ListingOf(v.entries, SortedKeys(v.entries.Keys));
    if WithinDepth(v, depth) { PairsBelow(v, SortedKeys(v.entries.Keys), depth); }
    if depth <= MAX_DEPTH && forall i | 0 <= i < |pairs| :: WithinDepth(pairs[i].item, depth + 1) {
      forall k | k in v.entries ensures WithinDepth(v.entries[k], depth + 1) {
        assert HasKey(pairs, k);
        var i :| 0 <= i < |pairs| && pairs[i].key == k;
      }
    }
  }

  /** A map fits exactly when its header and its entries, listed in key order, do. */
  lemma MapWritable(valid: Bytes -> bool, v: Value, nodes: nat, depth: nat, size: nat)
    requires v.Map?
    ensures Writable(valid, v, nodes, depth, size)
            <==> && depth <= MAX_DEPTH && |v.entries| <= MAX_NODES
                 && PairsWritable(valid, PairsOf(v), nodes + 1, depth + 1, size + 5)
  {
    hide Enc, Nodes, EncPairs, PairNodes, Encodable, WithinDepth, PairsEncodable, Listing;
    MapEncodableIff(valid, v);
    MapDepthIff(v, depth);
    if Encodable(valid, v) { MapAsPairs(valid, v); }
  }

  ghost predicate EventsWritable(valid: Bytes -> bool, events: seq<Event>, nodes: nat, size: nat) {
    && EventsEncodable(valid, events) && (forall i | 0 <= i < |events| :: WithinDepth(events[i].payload, 1))
    && nodes + EventNodes(events) <= MAX_NODES && size + |EncEvents(valid, events)| <= BODY_LIMIT
  }

  ghost predicate EventListWritable(valid: Bytes -> bool, events: Option<seq<Event>>, nodes: nat, size: nat) {
    if events.None? then size + 4 <= BODY_LIMIT
    else |events.value| <= MAX_NODES && EventsWritable(valid, events.value, nodes, size + 4)
  }

  lemma {:induction false} EventsSplit(valid: Bytes -> bool, events: seq<Event>, i: nat)
    requires i <= |events| && EventsEncodable(valid, events)
    ensures EncEvents(valid, events) == EncEvents(valid, events[..i]) + EncEvents(valid, events[i..])
    ensures EventNodes(events) == EventNodes(events[..i]) + EventNodes(events[i..])
    decreases i
  {
    hide EncEvent, EventEncodable, Nodes;
    if i == 0 {
      assert events[..0] == [] && events[0..] == events;
    } else {
      EventsSplit(valid, events[1..], i - 1);
      assert events[1..][..i - 1] == events[..i][1..] && events[1..][i - 1..] == events[i..];
      Assoc(EncEvent(valid, events[0]), EncEvents(valid, events[..i][1..]), EncEvents(valid, events[i..]));
    }
  }

  lemma EventsSnoc(valid: Bytes -> bool, events: seq<Event>, i: nat)
    requires i < |events| && EventsEncodable(valid, events[..i + 1])
    ensures EventEncodable(valid, events[i])
    ensures EncEvents(valid, events[..i + 1]) == EncEvents(valid, events[..i]) + EncEvent(valid, events[i])
    ensures EventNodes(events[..i + 1]) == EventNodes(events[..i]) + Nodes(events[i].payload)
  {
    hide EncEvent, EventEncodable, Nodes;
    EventsSplit(valid, events[..i + 1], i);
    assert events[..i + 1][i] == events[i];
    assert events[..i + 1][..i] == events[..i] && events[..i + 1][i..] == [events[i]];
    assert EncEvents(valid, [events[i]]) == EncEvent(valid, events[i]) + [] by { assert [events[i]][1..] == []; }
    assert EventNodes([events[i]]) == Nodes(events[i].payload) by { assert [events[i]][1..] == []; }
  }

  ghost predicate EventWritable(valid: Bytes -> bool, e: Event, nodes: nat, size: nat) {
    size + 8 + |e.stream| + |e.kind| <= BODY_LIMIT
    && Writable(valid, e.payload, nodes, 1, size + 8 + |e.stream| + |e.kind|)
  }

  lemma EventStops(valid: Bytes -> bool, events: seq<Event>, i: nat, nodes: nat, size: nat)
    requires i < |events| && EventsEncodable(valid, events[..i])
    requires !EventWritable(valid, events[i], nodes + EventNodes(events[..i]), size + |EncEvents(valid, events[..i])|)
    ensures !EventsWritable(valid, events, nodes, size)
  {
    hide Enc, Encodable, Nodes, WithinDepth, EncEvents, EventNodes;
    if EventsEncodable(valid, events) {
      assert EventsEncodable(valid, events[..i + 1]);
      EventsSnoc(valid, events, i);
      EventsSplit(valid, events, i + 1);
    }
  }

  lemma NoEvents(valid: Bytes -> bool, events: seq<Event>, base: Bytes)
    ensures base == base + EncEvents(valid, events[..0]) && EventNodes(events[..0]) == 0
  {
  }

  /** The encoding, grouped as the writer appends it. */
  lemma CommandBytes(valid: Bytes -> bool, c: Command)
    requires CommandEncodable(valid, c)
    ensures EncCommand(valid, c)
            == MAGIC + Raw(c.requestID) + Raw(c.cypher) + Enc(valid, ArgsValue(c.args))
               + EncEventList(valid, c.events) + EncOffset(c.offset) + EncTrim(c.trim)
  {
    hide Enc, Encodable, EncEventList, EncOffset, EncTrim;
    var a, b, d := Raw(c.requestID), Raw(c.cypher), Enc(valid, ArgsValue(c.args));
    var e, f, g := EncEventList(valid, c.events), EncOffset(c.offset), EncTrim(c.trim);
    Assoc(MAGIC, a, b + (d + (e + (f + g))));
    Assoc(MAGIC + a, b, d + (e + (f + g)));
    Assoc(MAGIC + a + b, d, e + (f + g));
    Assoc(MAGIC + a + b + d, e, f + g);
    Assoc(MAGIC + a + b + d + e, f, g);
  }

  // ---------------------------------------------------------------------------------- the writer

  class Writer {
    const valid: Bytes -> bool
    var data: Bytes
    var nodes: nat
    var err: bool

    constructor (valid: Bytes -> bool)
      ensures this.valid == valid && data == MAGIC && nodes == 0 && !err && Valid()
    {
      this.valid := valid;
      data, nodes, err := MAGIC, 0, false;
    }

    ghost predicate Valid()
      reads this
    {
      !err ==> |data| <= BODY_LIMIT && nodes <= MAX_NODES
    }

    method Append(v: Bytes)
      requires Valid()
      modifies this`data, this`err
      ensures Valid() && (err <==> old(err) || |old(data)| + |v| > BODY_LIMIT)
      ensures !err ==> data == old(data) + v
    {
      if err { return; }
      if |v| > BODY_LIMIT - |data| {
        err := true;
        return;
      }
      data := data + v;
    }

    method Count(n: nat)
      requires Valid()
      modifies this`data, this`err
      ensures Valid() && (err <==> old(err) || n > MAX_NODES || |old(data)| + 4 > BODY_LIMIT)
      ensures !err ==> data == old(data) + PutU32(n)
    {
      if n > MAX_NODES {
        err := true;
        return;
      }
      Append(PutU32(n));
    }

    method WriteRaw(v: Bytes)
      requires Valid()
      modifies this`data, this`err
      ensures Valid() && (err <==> old(err) || |old(data)| + 4 + |v| > BODY_LIMIT)
      ensures !err ==> |v| < 0x1_0000_0000 && data == old(data) + Raw(v)
    {
      if |v| > BODY_LIMIT {
        err := true;
        return;
      }
      Append(PutU32(|v|));
      Append(v);
      if !err { Assoc(old(data), PutU32(|v|), v); }
    }

    /** A tag and what follows it. */
    method Tagged(tag: Byte, v: Bytes)
      requires Valid()
      modifies this`data, this`err
      ensures Valid() && (err <==> old(err) || |old(data)| + 1 + |v| > BODY_LIMIT)
      ensures !err ==> data == old(data) + ([tag] + v)
    {
      Append([tag]);
      Append(v);
      if !err { Assoc(old(data), [tag], v); }
    }

    method TaggedRaw(tag: Byte, v: Bytes)
      requires Valid()
      modifies this`data, this`err
      ensures Valid() && (err <==> old(err) || |old(data)| + 5 + |v| > BODY_LIMIT)
      ensures !err ==> |v| < 0x1_0000_0000 && data == old(data) + ([tag] + Raw(v))
    {
      Append([tag]);
      WriteRaw(v);
      if !err { Assoc(old(data), [tag], Raw(v)); }
    }

    method Integer(n: I64)
      requires Valid()
      modifies this`data, this`err
      ensures Valid() && (err <==> old(err) || |old(data)| + 9 > BODY_LIMIT)
      ensures !err ==> data == old(data) + ([3] + PutU64(ToU64(n)))
    {
      Tagged(3, PutU64(ToU64(n)));
    }

    /** Every dynamic type but the two non-nil containers. */
    method Scalar(v: Value)
      requires Valid() && !err && !v.List? && !v.Map?
      modifies this`data, this`err
      ensures Valid()
      ensures err <==> !(Encodable(valid, v) && |old(data)| + |Enc(valid, v)| <= BODY_LIMIT)
      ensures !err ==> data == old(data) + Enc(valid, v)
    {
      hide PutU32, PutU64, Raw, Finite32, Finite64;
      match v
      case Null => Append([0]);
      case Bool(b) => Append([if b then 2 else 1]);
      case Signed(n) => Integer(n);
      case Unsigned(u) =>
        if u > 0x7FFF_FFFF_FFFF_FFFF {
          err := true;
        } else {
          Integer(u);
        }
      case Float32(bits) =>
        if !Finite32(bits) {
          err := true;
        } else {
          Tagged(4, PutU32(bits));
        }
      case Float64(bits) =>
        if !Finite64(bits) {
          err := true;
        } else {
          Tagged(5, PutU64(bits));
        }
      case Number(lexeme) =>
        var remaining := BODY_LIMIT - |data|;
        if remaining < 5 || |lexeme| > remaining - 5 || !valid(lexeme) {
          err := true;
        } else {
          TaggedRaw(6, lexeme);
        }
      case Str(text) => TaggedRaw(7, text);
      case NilList => Tagged(8, PutU32(NIL_COUNT));
      case NilMap => Tagged(9, PutU32(NIL_COUNT));
      case Unsupported => err := true;
    }

    method WriteList(v: Value, depth: nat)
      requires Valid() && !err && v.List? && depth <= MAX_DEPTH
      modifies this
      ensures Valid()
      ensures err <==>
                !(|v.items| <= MAX_NODES
                  && ItemsWritable(valid, v.items, old(nodes), depth + 1, |old(data)| + 5))
      ensures !err ==> data == old(data) + ([8] + PutU32(|v.items|) + EncItems(valid, v.items))
      ensures !err ==> nodes == old(nodes) + ItemNodes(v.items)
      decreases v, 0, 1
    {
      hide Enc, Encodable, Nodes, WithinDepth, EncItems, ItemNodes, Writable;
      Append([8]);
      Count(|v.items|);
      if err { return; }
      ghost var base, size, count := data, |data|, nodes;
      assert base == old(data) + ([8] + PutU32(|v.items|)) by { Assoc(old(data), [8], PutU32(|v.items|)); }
      NoItems(valid, v.items, base);
      for i := 0 to |v.items|
        invariant Valid() && !err
        invariant forall j | 0 <= j < i :: Encodable(valid, v.items[j]) && WithinDepth(v.items[j], depth + 1)
        invariant data == base + EncItems(valid, v.items[..i]) && nodes == count + ItemNodes(v.items[..i])
      {
        WriteValue(v.items[i], depth + 1);
        if err {
          ItemStops(valid, v.items, i, count, depth + 1, size);
          return;
        }
        WritableParts(valid, v.items[i], count + ItemNodes(v.items[..i]), depth + 1,
                      size + |EncItems(valid, v.items[..i])|);
        ItemsSnoc(valid, v.items, i);
        Assoc(base, EncItems(valid, v.items[..i]), Enc(valid, v.items[i]));
      }
      assert v.items[..|v.items|] == v.items;
      Assoc(old(data), [8] + PutU32(|v.items|), EncItems(valid, v.items));
    }

    method WriteMap(v: Value, depth: nat)
      requires Valid() && !err && v.Map? && depth <= MAX_DEPTH
      modifies this
      ensures Valid()
      ensures err <==>
                !(|v.entries| <= MAX_NODES
                  && PairsWritable(valid, PairsOf(v), old(nodes), depth + 1, |old(data)| + 5))
      ensures !err ==> data == old(data) + ([9] + PutU32(|v.entries|) + EncPairs(valid, PairsOf(v)))
      ensures !err ==> nodes == old(nodes) + PairNodes(PairsOf(v))
      decreases v, 0, 2
    {
      hide Enc, Encodable, Nodes, EncPairs, PairNodes, PairsEncodable, SortedOf, SortedKeys, PairsWritable, PairsOf,
           PutU32;
      Append([9]);
      Count(|v.entries|);
      if err {
        if |old(data)| + 5 > BODY_LIMIT { NoRoom(valid, v, old(nodes), depth + 1, |old(data)| + 5); }
        return;
      }
      ghost var base := data;
      assert base == old(data) + ([9] + PutU32(|v.entries|)) by {
        Assoc(old(data), [9], PutU32(|v.entries|));
      }
      var keys := SortKeys(v.entries.Keys);
      SortedKeysIs(v.entries.Keys, keys);
      WriteEntries(v, keys, depth + 1);
      if !err {
        PairsWritableParts(valid, v, old(nodes), depth + 1, |base|);
        Assoc(old(data), [9] + PutU32(|v.entries|), EncPairs(valid, PairsOf(v)));
      }
    }

    /** The entries in the order of their keys. */
    method WriteEntries(v: Value, keys: seq<Bytes>, depth: nat)
      requires Valid() && !err && v.Map? && keys == SortedKeys(v.entries.Keys)
      modifies this
      ensures Valid() && (err <==> !PairsWritable(valid, PairsOf(v), old(nodes), depth, |old(data)|))
      ensures !err ==> data == old(data) + EncPairs(valid, PairsOf(v)) && nodes == old(nodes) + PairNodes(PairsOf(v))
      decreases v, 0, 1
    {
      hide Enc, Encodable, Nodes, WithinDepth, EncPairs, PairNodes, Writable, PairsEncodable, SortedKeys, PairsOf, Raw;
      ghost var base, size, count, pairs := data, |data|, nodes, PairsOf(v);
      PairsLength(v, keys);
      NoPairs(valid, pairs, base);
      for i := 0 to |keys|
        invariant Valid() && !err && PairsEncodable(valid, pairs[..i])
        invariant forall j | 0 <= j < i :: WithinDepth(pairs[j].item, depth)
        invariant data == base + EncPairs(valid, pairs[..i]) && nodes == count + PairNodes(pairs[..i])
      {
        PairAt(v, keys, i);
        WriteEntry(v, keys[i], depth);
        if err {
          PairStops(valid, pairs, i, count, depth, size);
          return;
        }
        PairsEncodableSnoc(valid, pairs, i);
        PairsSnoc(valid, pairs, i);
        Assoc(base, EncPairs(valid, pairs[..i]), Raw(keys[i]) + Enc(valid, pairs[i].item));
      }
      assert pairs[..|pairs|] == pairs;
    }

    /** One key and its value. */
    method WriteEntry(v: Value, key: Bytes, depth: nat)
      requires Valid() && !err && v.Map? && key in v.entries
      modifies this
      ensures Valid()
      ensures err <==> || |old(data)| + 4 + |key| > BODY_LIMIT
                       || !Writable(valid, v.entries[key], old(nodes), depth, |old(data)| + 4 + |key|)
      ensures !err ==> && |key| < 0x1_0000_0000 && Encodable(valid, v.entries[key])
                       && WithinDepth(v.entries[key], depth)
                       && data == old(data) + (Raw(key) + Enc(valid, v.entries[key]))
                       && nodes == old(nodes) + Nodes(v.entries[key])
      decreases v, 0, 0
    {
      hide Enc, Encodable, Nodes, WithinDepth, Writable;
      WriteRaw(key);
      ghost var keyed := data;
      WriteValue(v.entries[key], depth);
      if !err {
        WritableParts(valid, v.entries[key], old(nodes), depth, |keyed|);
        Assoc(old(data), Raw(key), Enc(valid, v.entries[key]));
      }
    }

    /** The writer fails exactly when the value cannot be written within the budgets, and otherwise
        appends exactly its encoding. */
    method WriteValue(v: Value, depth: nat)
      requires Valid()
      modifies this
      ensures Valid() && (old(err) ==> err)
      ensures !old(err) ==> (err <==> !Writable(valid, v, old(nodes), depth, |old(data)|))
      ensures !err ==> data == old(data) + Enc(valid, v) && nodes == old(nodes) + Nodes(v)
      decreases v, 1
    {
      hide Enc, Encodable, Nodes, WithinDepth, EncItems, EncPairs, ItemNodes, PairNodes, Writable, ItemsWritable,
           PairsWritable, PutU32;
      if err { return; }
      nodes := nodes + 1;
      if depth > MAX_DEPTH || nodes > MAX_NODES {
        if Writable(valid, v, old(nodes), depth, |old(data)|) {
          WritableParts(valid, v, old(nodes), depth, |old(data)|);
        }
        err := true;
        return;
      }
      if v.List? {
        ListWritable(valid, v, old(nodes), depth, |old(data)|);
        WriteList(v, depth);
        if !err { ListParts(valid, v, old(nodes), depth, |old(data)|); }
      } else if v.Map? {
        MapWritable(valid, v, old(nodes), depth, |old(data)|);
        WriteMap(v, depth);
        if !err { MapParts(valid, v, old(nodes), depth, |old(data)|); }
      } else {
        ScalarWritable(valid, v, old(nodes), depth, |old(data)|);
        Scalar(v);
      }
    }

    method WriteEvents(events: seq<Event>)
      requires Valid() && !err
      modifies this
      ensures Valid() && (err <==> !EventsWritable(valid, events, old(nodes), |old(data)|))
      ensures !err ==> data == old(data) + EncEvents(valid, events) && nodes == old(nodes) + EventNodes(events)
    {
      hide Enc, Encodable, Nodes, WithinDepth, EncEvents, EventNodes, Writable;
      ghost var base, size, count := data, |data|, nodes;
      NoEvents(valid, events, base);
      for i := 0 to |events|
        invariant Valid() && !err && EventsEncodable(valid, events[..i])
        invariant forall j | 0 <= j < i :: WithinDepth(events[j].payload, 1)
        invariant data == base + EncEvents(valid, events[..i]) && nodes == count + EventNodes(events[..i])
      {
        WriteEvent(events[i]);
        if err {
          EventStops(valid, events, i, count, size);
          return;
        }
        assert EventsEncodable(valid, events[..i + 1]);
        EventsSnoc(valid, events, i);
        Assoc(base, EncEvents(valid, events[..i]), EncEvent(valid, events[i]));
      }
      assert events[..|events|] == events;
    }

    method WriteEventList(events: Option<seq<Event>>)
      requires Valid()
      modifies this
      ensures Valid() && (old(err) ==> err)
      ensures !old(err) ==> (err <==> !EventListWritable(valid, events, old(nodes), |old(data)|))
      ensures !err ==> && EventListEncodable(valid, events) && data == old(data) + EncEventList(valid, events)
                       && nodes == old(nodes) + if events.Some? then EventNodes(events.value) else 0
    {
      hide WithinDepth, EncEvents, EventNodes, EventsEncodable;
      if events.None? {
        Append(PutU32(NIL_COUNT));
        return;
      }
      Count(|events.value|);
      if err { return; }
      WriteEvents(events.value);
      if !err { Assoc(old(data), PutU32(|events.value|), EncEvents(valid, events.value)); }
    }

    method WriteOffset(offset: Option<Offset>)
      requires Valid()
      modifies this`data, this`err
      ensures Valid() && (old(err) ==> err)
      ensures !old(err) ==> (err <==> !(OffsetEncodable(offset) && |old(data)| + |EncOffset(offset)| <= BODY_LIMIT))
      ensures !err ==> data == old(data) + EncOffset(offset)
    {
      if offset.None? {
        Append([0]);
        return;
      }
      var o := offset.value;
      Append([1]);
      WriteRaw(o.stream);
      WriteRaw(o.consumer);
      Append(PutU64(o.sequence));
      if !err {
        var last := PutU64(o.sequence);
        Assoc(old(data) + [1] + Raw(o.stream), Raw(o.consumer), last);
        Assoc(old(data) + [1], Raw(o.stream), Raw(o.consumer) + last);
        Assoc(old(data), [1], Raw(o.stream) + (Raw(o.consumer) + last));
      }
    }

    method WriteTrim(trim: Option<Trim>)
      requires Valid()
      modifies this`data, this`err
      ensures Valid() && (old(err) ==> err)
      ensures !old(err) ==> (err <==> !(TrimEncodable(trim) && |old(data)| + |EncTrim(trim)| <= BODY_LIMIT))
      ensures !err ==> data == old(data) + EncTrim(trim)
    {
      if trim.None? {
        Append([0]);
        return;
      }
      var t := trim.value;
      Append([1]);
      WriteRaw(t.stream);
      Append(PutU64(t.throughSequence));
      if !err {
        Assoc(old(data) + [1], Raw(t.stream), PutU64(t.throughSequence));
        Assoc(old(data), [1], Raw(t.stream) + PutU64(t.throughSequence));
      }
    }

    method WriteEvent(e: Event)
      requires Valid() && !err
      modifies this
      ensures Valid() && (err <==> !EventWritable(valid, e, old(nodes), |old(data)|))
      ensures !err ==> && EventEncodable(valid, e) && WithinDepth(e.payload, 1)
                       && data == old(data) + EncEvent(valid, e) && nodes == old(nodes) + Nodes(e.payload)
    {
      hide Enc, Encodable, Nodes, WithinDepth, Writable;
      WriteRaw(e.stream);
      WriteRaw(e.kind);
      ghost var keyed := data;
      WriteValue(e.payload, 1);
      if !err {
        WritableParts(valid, e.payload, old(nodes), 1, |keyed|);
        Assoc(old(data) + Raw(e.stream), Raw(e.kind), Enc(valid, e.payload));
        Assoc(old(data), Raw(e.stream), Raw(e.kind) + Enc(valid, e.payload));
      }
    }
  }

  lemma NoItems(valid: Bytes -> bool, items: seq<Value>, base: Bytes)
    ensures base == base + EncItems(valid, items[..0]) && ItemNodes(items[..0]) == 0
  {
  }

  lemma NoPairs(valid: Bytes -> bool, pairs: seq<Entry>, base: Bytes)
    ensures PairsEncodable(valid, pairs[..0])
    ensures base == base + EncPairs(valid, pairs[..0]) && PairNodes(pairs[..0]) == 0
  {
  }

  lemma PairsLength(v: Value, keys: seq<Bytes>)
    requires v.Map? && keys == SortedKeys(v.entries.Keys)
    ensures |PairsOf(v)| == |keys|
  {
  }

  /** No room for the header: the entries fit even less. */
  lemma NoRoom(valid: Bytes -> bool, v: Value, nodes: nat, depth: nat, size: nat)
    requires v.Map? && size > BODY_LIMIT
    ensures !PairsWritable(valid, PairsOf(v), nodes, depth, size)
  {
    hide EncPairs, PairNodes, PairsOf;
  }

  lemma PairsWritableParts(valid: Bytes -> bool, v: Value, nodes: nat, depth: nat, size: nat)
    requires v.Map? && PairsWritable(valid, PairsOf(v), nodes, depth, size)
    ensures PairsEncodable(valid, PairsOf(v))
  {
  }

  lemma PairAt(v: Value, keys: seq<Bytes>, i: nat)
    requires v.Map? && keys == SortedKeys(v.entries.Keys) && i < |keys|
    ensures keys[i] in v.entries && |PairsOf(v)| == |keys| && PairsOf(v)[i] == Entry(keys[i], v.entries[keys[i]])
  {
    assert keys[i] in keys;
  }

  lemma PairsEncodableSnoc(valid: Bytes -> bool, pairs: seq<Entry>, i: nat)
    requires i < |pairs| && PairsEncodable(valid, pairs[..i])
    requires |pairs[i].key| < 0x1_0000_0000 && Encodable(valid, pairs[i].item)
    ensures PairsEncodable(valid, pairs[..i + 1])
  {
    hide Encodable;
    assert pairs[..i + 1] == pairs[..i] + [pairs[i]];
  }

  lemma WritableParts(valid: Bytes -> bool, v: Value, nodes: nat, depth: nat, size: nat)
    requires Writable(valid, v, nodes, depth, size)
    ensures Encodable(valid, v) && WithinDepth(v, depth) && depth <= MAX_DEPTH && nodes + 1 <= MAX_NODES
  {
  }

  lemma ListParts(valid: Bytes -> bool, v: Value, nodes: nat, depth: nat, size: nat)
    requires v.List? && Writable(valid, v, nodes, depth, size)
    ensures Encodable(valid, v) && (forall i | 0 <= i < |v.items| :: Encodable(valid, v.items[i]))
    ensures |v.items| <= MAX_NODES && Enc(valid, v) == [8] + PutU32(|v.items|) + EncItems(valid, v.items)
    ensures Nodes(v) == 1 + ItemNodes(v.items)
  {
    hide EncItems, ItemNodes, PutU32;
  }

  lemma MapParts(valid: Bytes -> bool, v: Value, nodes: nat, depth: nat, size: nat)
    requires v.Map? && Writable(valid, v, nodes, depth, size)
    ensures Encodable(valid, v) && PairsEncodable(valid, PairsOf(v))
    ensures |v.entries| <= MAX_NODES && Enc(valid, v) == [9] + PutU32(|v.entries|) + EncPairs(valid, PairsOf(v))
    ensures Nodes(v) == 1 + PairNodes(PairsOf(v))
  {
    hide Enc, Nodes, EncPairs, PairNodes, PutU32, WithinDepth, PairsEncodable;
    MapAsPairs(valid, v);
  }

  lemma ScalarWritable(valid: Bytes -> bool, v: Value, nodes: nat, depth: nat, size: nat)
    requires !v.List? && !v.Map? && depth <= MAX_DEPTH && nodes + 1 <= MAX_NODES
    ensures Nodes(v) == 1
    ensures Writable(valid, v, nodes, depth, size)
            <==> Encodable(valid, v) && size + |Enc(valid, v)| <= BODY_LIMIT
  {
    hide Enc, Encodable;
  }

  /** The sizes add up, and each part of an acceptable command fits where it is written. */
  lemma AcceptableParts(valid: Bytes -> bool, c: Command)
    requires CommandEncodable(valid, c)
    ensures |EncCommand(valid, c)| == 12 + |c.requestID| + |c.cypher| + |Enc(valid, ArgsValue(c.args))|
                                      + |EncEventList(valid, c.events)| + |EncOffset(c.offset)| + |EncTrim(c.trim)|
    ensures CommandWithinDepth(c) <==>
              WithinDepth(ArgsValue(c.args), 1)
              && (c.events.Some? ==> forall i | 0 <= i < |c.events.value| :: WithinDepth(c.events.value[i].payload, 1))
  {
    hide Enc, Encodable, WithinDepth, EncEventList, EncOffset, EncTrim;
  }

  /** EncodeManagedGraphOriginal: succeeds exactly on acceptable commands, with their encoding. */
  method EncodeManagedGraphOriginal(valid: Bytes -> bool, c: Command) returns (body: Option<Bytes>)
    ensures body == EncodeSpec(valid, c)
  {
    hide Enc, Encodable, Nodes, WithinDepth, EncEvents, EventNodes, EventsEncodable, EncOffset, EncTrim, EncCommand;
    var w := new Writer(valid);
    if CommandEncodable(valid, c) {
      CommandBytes(valid, c);
      AcceptableParts(valid, c);
    }
    w.WriteRaw(c.requestID);
    w.WriteRaw(c.cypher);
    w.WriteValue(ArgsValue(c.args), 1);
    assert w.err ==> !Acceptable(valid, c);
    w.WriteEventList(c.events);
    assert w.err ==> !Acceptable(valid, c);
    w.WriteOffset(c.offset);
    w.WriteTrim(c.trim);
    return if w.err then None else Some(w.data);
  }
}
