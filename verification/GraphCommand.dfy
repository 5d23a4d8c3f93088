/**
 * Whole graph commands: what the encoder accepts and emits, what the decoder accepts, and that the
 * two are inverse and canonical (EncodeManagedGraphOriginal, DecodeManagedGraphOriginal).
 */
module GraphCommand {
  import opened ByteStrings
  import opened GraphParser
  import opened GraphValue
  import opened Options

  // ------------------------------------------------------------------------------- the encoder

  function ArgsValue(args: Option<map<Bytes, Value>>): Value {
    if args.None? then NilMap else Map(args.value)
  }

  ghost predicate EventEncodable(valid: Bytes -> bool, e: Event) {
    |e.stream| < 0x1_0000_0000 && |e.kind| < 0x1_0000_0000 && Encodable(valid, e.payload)
  }

  ghost predicate EventsEncodable(valid: Bytes -> bool, events: seq<Event>) {
    forall i | 0 <= i < |events| :: EventEncodable(valid, events[i])
  }

  ghost function EncEvent(valid: Bytes -> bool, e: Event): Bytes
    requires EventEncodable(valid, e)
  {
    Raw(e.stream) + (Raw(e.kind) + Enc(valid, e.payload))
  }

  ghost function EncEvents(valid: Bytes -> bool, events: seq<Event>): Bytes
    requires EventsEncodable(valid, events)
  {
    if events == [] then [] else EncEvent(valid, events[0]) + EncEvents(valid, events[1..])
  }

  ghost function EventNodes(events: seq<Event>): nat {
    if events == [] then 0 else Nodes(events[0].payload) + EventNodes(events[1..])
  }

  ghost predicate EventListEncodable(valid: Bytes -> bool, events: Option<seq<Event>>) {
    events.Some? ==> |events.value| <= MAX_NODES && EventsEncodable(valid, events.value)
  }

  predicate OffsetEncodable(offset: Option<Offset>) {
    offset.Some? ==> |offset.value.stream| < 0x1_0000_0000 && |offset.value.consumer| < 0x1_0000_0000
  }

  predicate TrimEncodable(trim: Option<Trim>) {
    trim.Some? ==> |trim.value.stream| < 0x1_0000_0000
  }

  ghost predicate CommandEncodable(valid: Bytes -> bool, c: Command) {
    && |c.requestID| < 0x1_0000_0000 && |c.cypher| < 0x1_0000_0000 && Encodable(valid, ArgsValue(c.args))
    && EventListEncodable(valid, c.events) && OffsetEncodable(c.offset) && TrimEncodable(c.trim)
  }

  ghost function EncEventList(valid: Bytes -> bool, events: Option<seq<Event>>): Bytes
    requires EventListEncodable(valid, events)
  {
    if events.None? then PutU32(NIL_COUNT) else PutU32(|events.value|) + EncEvents(valid, events.value)
  }

  function EncOffset(offset: Option<Offset>): Bytes
    requires OffsetEncodable(offset)
  {
    if offset.None? then [0]
    else [1] + (Raw(offset.value.stream) + (Raw(offset.value.consumer) + PutU64(offset.value.sequence)))
  }

  function EncTrim(trim: Option<Trim>): Bytes
    requires TrimEncodable(trim)
  {
    if trim.None? then [0] else [1] + (Raw(trim.value.stream) + PutU64(trim.value.throughSequence))
  }

  ghost function EncCommand(valid: Bytes -> bool, c: Command): Bytes
    requires CommandEncodable(valid, c)
  {
    MAGIC + (Raw(c.requestID) + (Raw(c.cypher) + (Enc(valid, ArgsValue(c.args))
      + (EncEventList(valid, c.events) + (EncOffset(c.offset) + EncTrim(c.trim))))))
  }

  ghost function CommandNodes(c: Command): nat {
    Nodes(ArgsValue(c.args)) + if c.events.Some? then EventNodes(c.events.value) else 0
  }

  ghost predicate CommandWithinDepth(c: Command) {
    WithinDepth(ArgsValue(c.args), 1)
    && (c.events.Some? ==> forall i | 0 <= i < |c.events.value| :: WithinDepth(c.events.value[i].payload, 1))
  }

  /** The encoder's exact acceptance condition. */
  ghost predicate Acceptable(valid: Bytes -> bool, c: Command) {
    CommandEncodable(valid, c) && CommandWithinDepth(c) && CommandNodes(c) <= MAX_NODES
    && |EncCommand(valid, c)| <= BODY_LIMIT
  }

  ghost function EncodeSpec(valid: Bytes -> bool, c: Command): Option<Bytes> {
    if Acceptable(valid, c) then Some(EncCommand(valid, c)) else None
  }

  // ------------------------------------------------------------------------------- the decoder

  function ParseEvent(valid: Bytes -> bool, b: Bytes, nodes: nat): Parsed<Event> {
    var stream := ParseRaw(b, nodes);
    if stream.Fail? then Fail
    else
      var kind := ParseRaw(stream.rest, nodes);
      if kind.Fail? then Fail
      else
        var payload := ParseValue(valid, kind.rest, nodes, 1);
        if payload.Fail? then Fail
        else Ok(Event(stream.value, kind.value, payload.value), payload.rest, payload.nodes)
  }

  function ParseEvents(valid: Bytes -> bool, b: Bytes, nodes: nat, n: nat): Parsed<seq<Event>>
    decreases n
  {
    if n == 0 then Ok([], b, nodes)
    else
      var first := ParseEvent(valid, b, nodes);
      if first.Fail? then Fail
      else
        var more := ParseEvents(valid, first.rest, first.nodes, n - 1);
        if more.Fail? then Fail else Ok([first.value] + more.value, more.rest, more.nodes)
  }

  function ParseEventList(valid: Bytes -> bool, b: Bytes, nodes: nat): Parsed<Option<seq<Event>>> {
    var n := ParseCount(b, nodes, 9);
    if n.Fail? then Fail
    else if n.value.None? then Ok(None, n.rest, nodes)
    else if n.value.value > MAX_NODES - nodes then Fail
    else
      var events := ParseEvents(valid, n.rest, nodes, n.value.value);
      if events.Fail? then Fail else Ok(Some(events.value), events.rest, events.nodes)
  }

  function ParseOffset(b: Bytes, nodes: nat): Parsed<Option<Offset>> {
    if b == [] then Fail
    else if b[0] == 0 then Ok(None, b[1..], nodes)
    else if b[0] != 1 then Fail
    else
      var stream := ParseRaw(b[1..], nodes);
      if stream.Fail? then Fail
      else
        var consumer := ParseRaw(stream.rest, nodes);
        if consumer.Fail? then Fail
        else
          var sequence := ParseU64(consumer.rest, nodes);
          if sequence.Fail? then Fail
          else Ok(Some(Offset(stream.value, consumer.value, sequence.value)), sequence.rest, nodes)
  }

  function ParseTrim(b: Bytes, nodes: nat): Parsed<Option<Trim>> {
    if b == [] then Fail
    else if b[0] == 0 then Ok(None, b[1..], nodes)
    else if b[0] != 1 then Fail
    else
      var stream := ParseRaw(b[1..], nodes);
      if stream.Fail? then Fail
      else
        var through := ParseU64(stream.rest, nodes);
        if through.Fail? then Fail else Ok(Some(Trim(stream.value, through.value)), through.rest, nodes)
  }

  /** The top-level value must be a map, possibly nil. */
  function ParseArgs(valid: Bytes -> bool, b: Bytes, nodes: nat): Parsed<Option<map<Bytes, Value>>> {
    var v := ParseValue(valid, b, nodes, 1);
    if v.Fail? then Fail
    else if v.value.NilMap? then Ok(None, v.rest, v.nodes)
    else if v.value.Map? then Ok(Some(v.value.entries), v.rest, v.nodes)
    else Fail
  }

  function ParseCommand(valid: Bytes -> bool, b: Bytes): Parsed<Command> {
    var requestID := ParseRaw(b, 0);
    if requestID.Fail? then Fail
    else
      var cypher := ParseRaw(requestID.rest, 0);
      if cypher.Fail? then Fail
      else
        var args := ParseArgs(valid, cypher.rest, 0);
        if args.Fail? then Fail
        else
          var events := ParseEventList(valid, args.rest, args.nodes);
          if events.Fail? then Fail
          else
            var offset := ParseOffset(events.rest, events.nodes);
            if offset.Fail? then Fail
            else
              var trim := ParseTrim(offset.rest, events.nodes);
              if trim.Fail? then Fail
              else Ok(Command(requestID.value, cypher.value, args.value, events.value, offset.value, trim.value),
                      trim.rest, events.nodes)
  }

  function DecodeSpec(valid: Bytes -> bool, body: Bytes): Option<Command> {
    if |body| > BODY_LIMIT || |body| < 4 || body[..4] != MAGIC then None
    else
      var c := ParseCommand(valid, body[4..]);
      if c.Fail? || c.rest != [] then None else Some(c.value)
  }

  // ------------------------------------------------------------------------ accepted ==> encoded

  ghost predicate NormalCommand(c: Command) {
    Normal(ArgsValue(c.args))
    && (c.events.Some? ==> forall i | 0 <= i < |c.events.value| :: Normal(c.events.value[i].payload))
  }

  lemma EventSound(valid: Bytes -> bool, b: Bytes, nodes: nat)
    ensures var r := ParseEvent(valid, b, nodes);
            r.Ok? ==> && EventEncodable(valid, r.value) && Normal(r.value.payload) && WithinDepth(r.value.payload, 1)
                      && b == EncEvent(valid, r.value) + r.rest
                      && r.nodes == nodes + Nodes(r.value.payload) && r.nodes <= MAX_NODES
  {
    hide Enc, Encodable, WithinDepth, Nodes, Normal, ParseValue;
    var stream := ParseRaw(b, nodes);
    if stream.Fail? { return; }
    RawSound(b, nodes);
    var kind := ParseRaw(stream.rest, nodes);
    if kind.Fail? { return; }
    RawSound(stream.rest, nodes);
    ParseSound(valid, kind.rest, nodes, 1);
    var payload := ParseValue(valid, kind.rest, nodes, 1);
    if payload.Fail? { return; }
    Assoc(Raw(kind.value), Enc(valid, payload.value), payload.rest);
    Assoc(Raw(stream.value), Raw(kind.value) + Enc(valid, payload.value), payload.rest);
  }

  lemma {:induction false} EventsSound(valid: Bytes -> bool, b: Bytes, nodes: nat, n: nat)
    requires nodes <= MAX_NODES
    ensures var r := ParseEvents(valid, b, nodes, n);
            r.Ok? ==> && |r.value| == n && EventsEncodable(valid, r.value)
                      && (forall i | 0 <= i < n :: Normal(r.value[i].payload) && WithinDepth(r.value[i].payload, 1))
                      && b == EncEvents(valid, r.value) + r.rest
                      && r.nodes == nodes + EventNodes(r.value) && r.nodes <= MAX_NODES
    decreases n
  {
    hide Encodable, Enc, WithinDepth, Nodes, Normal, ParseEvent, EncEvent, EventEncodable;
    if n > 0 {
      EventSound(valid, b, nodes);
      var first := ParseEvent(valid, b, nodes);
      if first.Fail? { return; }
      EventsSound(valid, first.rest, first.nodes, n - 1);
      var more := ParseEvents(valid, first.rest, first.nodes, n - 1);
      if more.Fail? { return; }
      assert ([first.value] + more.value)[1..] == more.value;
      Assoc(EncEvent(valid, first.value), EncEvents(valid, more.value), more.rest);
    }
  }

  lemma OffsetSound(b: Bytes, nodes: nat)
    ensures var r := ParseOffset(b, nodes);
            r.Ok? ==> OffsetEncodable(r.value) && b == EncOffset(r.value) + r.rest && r.nodes == nodes
  {
    var r := ParseOffset(b, nodes);
    if r.Ok? {
      assert b == [b[0]] + b[1..];
      if b[0] == 1 {
        var stream := ParseRaw(b[1..], nodes);
        var consumer := ParseRaw(stream.rest, nodes);
        RawSound(b[1..], nodes);
        RawSound(stream.rest, nodes);
        WordSound(consumer.rest);
        var last := PutU64(r.value.value.sequence);
        Assoc(Raw(consumer.value), last, r.rest);
        Assoc(Raw(stream.value), Raw(consumer.value) + last, r.rest);
        Assoc([1], Raw(stream.value) + (Raw(consumer.value) + last), r.rest);
      }
    }
  }

  lemma TrimSound(b: Bytes, nodes: nat)
    ensures var r := ParseTrim(b, nodes);
            r.Ok? ==> TrimEncodable(r.value) && b == EncTrim(r.value) + r.rest && r.nodes == nodes
  {
    var r := ParseTrim(b, nodes);
    if r.Ok? {
      assert b == [b[0]] + b[1..];
      if b[0] == 1 {
        var stream := ParseRaw(b[1..], nodes);
        RawSound(b[1..], nodes);
        WordSound(stream.rest);
        var last := PutU64(r.value.value.throughSequence);
        Assoc(Raw(stream.value), last, r.rest);
        Assoc([1], Raw(stream.value) + last, r.rest);
      }
    }
  }

  lemma ArgsSound(valid: Bytes -> bool, b: Bytes, nodes: nat)
    ensures var r := ParseArgs(valid, b, nodes);
            r.Ok? ==> ValueOk(valid, b, nodes, 1, ArgsValue(r.value), r.rest, r.nodes)
  {
    ParseSound(valid, b, nodes, 1);
  }

  lemma EventListSound(valid: Bytes -> bool, b: Bytes, nodes: nat)
    requires nodes <= MAX_NODES
    ensures var r := ParseEventList(valid, b, nodes);
            r.Ok? ==> && EventListEncodable(valid, r.value) && b == EncEventList(valid, r.value) + r.rest
                      && (r.value.Some? ==> forall i | 0 <= i < |r.value.value| ::
                            Normal(r.value.value[i].payload) && WithinDepth(r.value.value[i].payload, 1))
                      && r.nodes == nodes + (if r.value.Some? then EventNodes(r.value.value) else 0)
                      && r.nodes <= MAX_NODES
  {
    hide Encodable, EventEncodable, EncEvents, EventNodes, ParseEvents, WithinDepth, Normal;
    var r := ParseEventList(valid, b, nodes);
    if r.Ok? {
      WordSound(b);
      if r.value.Some? {
        var n := ParseCount(b, nodes, 9).value.value;
        EventsSound(valid, b[4..], nodes, n);
        Assoc(PutU32(n), EncEvents(valid, r.value.value), r.rest);
      }
    }
  }

  /** Whatever the command parser accepts is exactly an acceptable, normalized command's encoding. */
  lemma CommandSound(valid: Bytes -> bool, b: Bytes)
    ensures var r := ParseCommand(valid, b);
            r.Ok? ==> && CommandEncodable(valid, r.value) && NormalCommand(r.value) && CommandWithinDepth(r.value)
                      && CommandNodes(r.value) <= MAX_NODES
                      && MAGIC + b == EncCommand(valid, r.value) + r.rest
  {
    hide Enc, Encodable, WithinDepth, Nodes, Normal, ParseValue, EventListEncodable, EncEventList, EventNodes,
         ParseEventList, ParseOffset, ParseTrim, ParseArgs, ParseRaw;
    var r := ParseCommand(valid, b);
    if r.Ok? {
      var c := r.value;
      var requestID := ParseRaw(b, 0);
      RawSound(b, 0);
      var cypher := ParseRaw(requestID.rest, 0);
      RawSound(requestID.rest, 0);
      var args := ParseArgs(valid, cypher.rest, 0);
      ArgsSound(valid, cypher.rest, 0);
      var events := ParseEventList(valid, args.rest, args.nodes);
      EventListSound(valid, args.rest, args.nodes);
      var offset := ParseOffset(events.rest, events.nodes);
      OffsetSound(events.rest, events.nodes);
      TrimSound(offset.rest, events.nodes);
      Glue(MAGIC, Raw(c.requestID), Raw(c.cypher), Enc(valid, ArgsValue(c.args)),
           EncEventList(valid, c.events), EncOffset(c.offset), EncTrim(c.trim), r.rest);
    }
  }

  lemma Glue(m: Bytes, a: Bytes, b: Bytes, c: Bytes, d: Bytes, e: Bytes, f: Bytes, rest: Bytes)
    ensures m + (a + (b + (c + (d + (e + (f + rest))))))
            == (m + (a + (b + (c + (d + (e + f)))))) + rest
  {
    Assoc(e, f, rest);
    Assoc(d, e + f, rest);
    Assoc(c, d + (e + f), rest);
    Assoc(b, c + (d + (e + f)), rest);
    Assoc(a, b + (c + (d + (e + f))), rest);
    Assoc(m, a + (b + (c + (d + (e + f)))), rest);
  }

  /** Re-encoding any accepted byte string returns exactly those bytes. */
  lemma DecodeThenEncode(valid: Bytes -> bool, body: Bytes)
    requires DecodeSpec(valid, body).Some?
    ensures EncodeSpec(valid, DecodeSpec(valid, body).value) == Some(body)
    ensures NormalCommand(DecodeSpec(valid, body).value)
  {
    hide ParseCommand, CommandEncodable, EncCommand, CommandWithinDepth, CommandNodes, NormalCommand;
    CommandSound(valid, body[4..]);
    assert body == MAGIC + body[4..];
    var c := DecodeSpec(valid, body).value;
    assert EncCommand(valid, c) + [] == EncCommand(valid, c);
  }

  // ------------------------------------------------------------------------ encoded ==> accepted

  ghost function NormalizeEvents(events: seq<Event>): seq<Event> {
    seq(|events|, i requires 0 <= i < |events| => events[i].(payload := Normalize(events[i].payload)))
  }

  /** The command with every integer argument widened to int64. */
  ghost function NormalizeCommand(c: Command): Command {
    c.(args := if c.args.Some? then Some(NormalMap(c.args.value)) else None,
       events := if c.events.Some? then Some(NormalizeEvents(c.events.value)) else None)
  }

  lemma EventComplete(valid: Bytes -> bool, e: Event, rest: Bytes, nodes: nat)
    requires EventEncodable(valid, e) && Fits(e.payload, nodes, 1)
    ensures ParseEvent(valid, EncEvent(valid, e) + rest, nodes)
            == Ok(e.(payload := Normalize(e.payload)), rest, nodes + Nodes(e.payload))
  {
    hide Enc, Encodable, WithinDepth, Nodes, Normalize, ParseValue, ParseRaw;
    var payload := Enc(valid, e.payload);
    Assoc(Raw(e.stream), Raw(e.kind) + payload, rest);
    Assoc(Raw(e.kind), payload, rest);
    RawComplete(e.stream, Raw(e.kind) + (payload + rest), nodes);
    RawComplete(e.kind, payload + rest, nodes);
    ParseComplete(valid, e.payload, rest, nodes, 1);
  }

  lemma {:induction false} EventsComplete(valid: Bytes -> bool, events: seq<Event>, rest: Bytes, nodes: nat)
    requires EventsEncodable(valid, events)
    requires forall i | 0 <= i < |events| :: WithinDepth(events[i].payload, 1)
    requires nodes + EventNodes(events) <= MAX_NODES
    ensures ParseEvents(valid, EncEvents(valid, events) + rest, nodes, |events|)
            == Ok(NormalizeEvents(events), rest, nodes + EventNodes(events))
    decreases |events|
  {
    hide Enc, Encodable, WithinDepth, Nodes, Normalize, ParseEvent, EncEvent, EventEncodable;
    if events == [] {
      assert EncEvents(valid, events) + rest == rest;
    } else {
      var e, more := events[0], events[1..];
      var tail := EncEvents(valid, more) + rest;
      Assoc(EncEvent(valid, e), EncEvents(valid, more), rest);
      EventComplete(valid, e, tail, nodes);
      EventsComplete(valid, more, rest, nodes + Nodes(e.payload));
      assert NormalizeEvents(events) == [e.(payload := Normalize(e.payload))] + NormalizeEvents(more);
    }
  }

  lemma {:induction false} EventsSize(valid: Bytes -> bool, events: seq<Event>)
    requires EventsEncodable(valid, events)
    ensures |EncEvents(valid, events)| >= 9 * |events| && EventNodes(events) >= |events|
  {
    if events != [] {
      EncNonEmpty(valid, events[0].payload);
      EventsSize(valid, events[1..]);
    }
  }

  lemma EventListComplete(valid: Bytes -> bool, c: Command, rest: Bytes, nodes: nat)
    requires CommandEncodable(valid, c) && CommandWithinDepth(c)
    requires c.events.Some? ==> nodes + EventNodes(c.events.value) <= MAX_NODES
    requires nodes <= MAX_NODES
    ensures ParseEventList(valid, EncEventList(valid, c.events) + rest, nodes)
            == Ok(NormalizeCommand(c).events, rest,
                  nodes + if c.events.Some? then EventNodes(c.events.value) else 0)
  {
    hide Encodable, WithinDepth, EventsEncodable, EncEvents, EventNodes, ParseEvents, NormalizeEvents, ParseCount;
    if c.events.None? {
      NilComplete(rest, nodes, 9);
    } else {
      var events := c.events.value;
      EventsSize(valid, events);
      var body := EncEvents(valid, events) + rest;
      Assoc(PutU32(|events|), EncEvents(valid, events), rest);
      CountComplete(|events|, body, nodes, 9);
      EventsComplete(valid, events, rest, nodes);
    }
  }

  lemma OffsetComplete(offset: Option<Offset>, rest: Bytes, nodes: nat)
    requires OffsetEncodable(offset)
    ensures ParseOffset(EncOffset(offset) + rest, nodes) == Ok(offset, rest, nodes)
  {
    hide ParseRaw, ParseU64, PutU64, Raw;
    var b := EncOffset(offset) + rest;
    if offset.None? {
      assert b[1..] == rest;
    } else {
      var o := offset.value;
      var last := PutU64(o.sequence);
      assert b[0] == 1 && b[1..] == Raw(o.stream) + (Raw(o.consumer) + (last + rest)) by {
        AfterTag(1, Raw(o.stream) + (Raw(o.consumer) + last), rest);
        Assoc(Raw(o.stream), Raw(o.consumer) + last, rest);
        Assoc(Raw(o.consumer), last, rest);
      }
      RawComplete(o.stream, Raw(o.consumer) + (last + rest), nodes);
      RawComplete(o.consumer, last + rest, nodes);
      U64Complete(o.sequence, rest, nodes);
    }
  }

  lemma TrimComplete(trim: Option<Trim>, rest: Bytes, nodes: nat)
    requires TrimEncodable(trim)
    ensures ParseTrim(EncTrim(trim) + rest, nodes) == Ok(trim, rest, nodes)
  {
    hide ParseRaw, ParseU64, PutU64, Raw;
    var b := EncTrim(trim) + rest;
    if trim.None? {
      assert b[1..] == rest;
    } else {
      var t := trim.value;
      var last := PutU64(t.throughSequence);
      assert b[0] == 1 && b[1..] == Raw(t.stream) + (last + rest) by {
        AfterTag(1, Raw(t.stream) + last, rest);
        Assoc(Raw(t.stream), last, rest);
      }
      RawComplete(t.stream, last + rest, nodes);
      U64Complete(t.throughSequence, rest, nodes);
    }
  }

  lemma ArgsComplete(valid: Bytes -> bool, c: Command, rest: Bytes)
    requires CommandEncodable(valid, c) && Fits(ArgsValue(c.args), 0, 1)
    ensures ParseArgs(valid, Enc(valid, ArgsValue(c.args)) + rest, 0)
            == Ok(NormalizeCommand(c).args, rest, Nodes(ArgsValue(c.args)))
  {
    hide Encodable, WithinDepth, Nodes, Enc, ParseValue;
    ParseComplete(valid, ArgsValue(c.args), rest, 0, 1);
    if c.args.Some? { assert Normalize(ArgsValue(c.args)) == Map(NormalMap(c.args.value)); }
  }

  lemma CommandComplete(valid: Bytes -> bool, c: Command)
    requires CommandEncodable(valid, c) && CommandWithinDepth(c) && CommandNodes(c) <= MAX_NODES
    ensures ParseCommand(valid, EncCommand(valid, c)[4..]) == Ok(NormalizeCommand(c), [], CommandNodes(c))
  {
    hide Enc, Encodable, WithinDepth, Nodes, EventListEncodable, EventNodes, ParseEventList, ParseOffset, ParseTrim,
         ParseArgs, ParseRaw, EncEventList, EncOffset, EncTrim, NormalizeEvents, NormalMap;
    var trim := EncTrim(c.trim);
    var offset := EncOffset(c.offset) + trim;
    var events := EncEventList(valid, c.events) + offset;
    var args := Enc(valid, ArgsValue(c.args)) + events;
    var cypher := Raw(c.cypher) + args;
    assert EncCommand(valid, c)[4..] == Raw(c.requestID) + cypher;
    var nodes := Nodes(ArgsValue(c.args));
    RawComplete(c.requestID, cypher, 0);
    RawComplete(c.cypher, args, 0);
    ArgsComplete(valid, c, events);
    EventListComplete(valid, c, offset, nodes);
    OffsetComplete(c.offset, trim, CommandNodes(c));
    TrimComplete(c.trim, [], CommandNodes(c));
    assert trim + [] == trim;
  }

  /** Decoding an encoded command returns it with all integers widened to int64. */
  lemma EncodeThenDecode(valid: Bytes -> bool, c: Command)
    ensures EncodeSpec(valid, c).Some? ==> DecodeSpec(valid, EncodeSpec(valid, c).value) == Some(NormalizeCommand(c))
  {
    hide ParseCommand, CommandEncodable, CommandWithinDepth, CommandNodes, NormalizeCommand;
    if Acceptable(valid, c) {
      CommandComplete(valid, c);
      assert EncCommand(valid, c)[..4] == MAGIC;
    }
  }

  /** The decoder accepts exactly the encoder's outputs. */
  lemma AcceptsExactlyEncodings(valid: Bytes -> bool, body: Bytes)
    ensures DecodeSpec(valid, body).Some? <==> exists c :: EncodeSpec(valid, c) == Some(body)
  {
    if DecodeSpec(valid, body).Some? {
      DecodeThenEncode(valid, body);
    }
    if c :| EncodeSpec(valid, c) == Some(body) {
      EncodeThenDecode(valid, c);
    }
  }

  /** Two commands share an encoding only if they differ in integer types alone. */
  lemma EncodingIsInjective(valid: Bytes -> bool, a: Command, b: Command)
    ensures EncodeSpec(valid, a).Some? && EncodeSpec(valid, a) == EncodeSpec(valid, b)
            ==> NormalizeCommand(a) == NormalizeCommand(b)
  {
    EncodeThenDecode(valid, a);
    EncodeThenDecode(valid, b);
  }
}
