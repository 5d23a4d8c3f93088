/**
 * The object-store mutation drain (internal/objstore/mutation_drain.go): a counter of admitted mutation
 * attempts, a sticky flag for attempts whose outcome is unknown, and the response bodies that decide it.
 */
module MutationDrain {
  import opened ByteStrings
  import opened Options

  const BODY_CAP := 64 * 1024
  const XML_ERROR: Bytes := Ascii("<Error")
  const JSON_ERROR: Bytes := Ascii("\"error\"")

  // ------------------------------------------------------------------------- what the code does

  datatype Counters = Counters(active: int, unknown: bool, stopped: bool)

  /** `ended` is `None` until the attempt has been ended, then how. */
  datatype Body = Body(known: bool, body: Bytes, expected: int, received: int, ended: Option<bool>)

  datatype Both = Both(d: Counters, b: Body)

  datatype ReadStatus = More | Eof | Broken

  predicate Contains(hay: Bytes, needle: Bytes) {
    needle <= hay || (hay != [] && Contains(hay[1..], needle))
  }

  predicate StandsAt(hay: Bytes, needle: Bytes, i: nat) { i + |needle| <= |hay| && hay[i..i + |needle|] == needle }

  /** One byte string stands somewhere in another. */
  ghost predicate Occurs(hay: Bytes, needle: Bytes) { exists i: nat :: StandsAt(hay, needle, i) }

  lemma StandsFirst(hay: Bytes, needle: Bytes)
    ensures StandsAt(hay, needle, 0) <==> needle <= hay
  {
    if |needle| <= |hay| { assert hay[0..0 + |needle|] == hay[..|needle|]; }
  }

  lemma StandsLater(hay: Bytes, needle: Bytes, i: nat)
    requires hay != []
    ensures StandsAt(hay[1..], needle, i) <==> StandsAt(hay, needle, i + 1)
  {
    if i + 1 + |needle| <= |hay| { assert hay[1..][i..i + |needle|] == hay[i + 1..i + 1 + |needle|]; }
  }

  /** bytes.Contains finds exactly what occurs. */
  lemma {:induction false} ContainsIff(hay: Bytes, needle: Bytes)
    ensures Contains(hay, needle) <==> Occurs(hay, needle)
  {
    hide StandsAt;
    StandsFirst(hay, needle);
    if hay != [] {
      ContainsIff(hay[1..], needle);
      if i: nat :| StandsAt(hay[1..], needle, i) { StandsLater(hay, needle, i); }
      if i: nat :| StandsAt(hay, needle, i) {
        if i > 0 { StandsLater(hay, needle, i - 1); }
      }
    } else if i: nat :| StandsAt(hay, needle, i) {
      NothingStands(needle, i);
    }
  }

  lemma NothingStands(needle: Bytes, i: nat)
    requires StandsAt([], needle, i)
    ensures needle == []
  {
  }

  predicate Marked(body: Bytes) { Contains(body, XML_ERROR) || Contains(body, JSON_ERROR) }

  function Ending(d: Counters, known: bool): Counters {
    Counters(d.active - 1, d.unknown || !known, d.stopped)
  }

  /** Ends the attempt the first time; an unknown outcome is noted every time. */
  function Finishing(d: Counters, b: Body, known: bool): Both {
    var noted := if known then d else d.(unknown := true);
    if b.ended.None? then Both(Ending(noted, known), b.(ended := Some(known))) else Both(noted, b)
  }

  function Received(b: Body, chunk: Bytes): Body {
    var received := b.received + |chunk|;
    var fits := |b.body| + |chunk| <= BODY_CAP;
    b.(received := received, known := b.known && !(b.expected > 0 && received > b.expected) && fits,
       body := if fits then b.body + chunk else b.body)
  }

  function Complete(b: Body, status: ReadStatus): bool { status.Eof? || (b.expected > 0 && b.received == b.expected) }

  /** The verdict when a body is complete. */
  function Judged(b: Body): Body {
    b.(known := b.known && !(b.expected > 0 && b.received != b.expected) && !Marked(b.body))
  }

  function Reading(d: Counters, b: Body, chunk: Bytes, status: ReadStatus): Both {
    var got := Received(b, chunk);
    if status.Broken? then Finishing(d, got, false)
    else if Complete(got, status) then Finishing(d, Judged(got), Judged(got).known)
    else Both(d, got)
  }

  function Closing(d: Counters, b: Body, failed: bool): Both {
    var ended := if b.ended.None? then Both(Ending(d, false), b.(ended := Some(false))) else Both(d, b);
    if failed then ended.(d := ended.d.(unknown := true)) else ended
  }

  class Drain {
    var active: int
    var unknown: bool
    var stopped: bool

    constructor ()
      ensures State() == Counters(0, false, false)
    {
      active, unknown, stopped := 0, false, false;
    }

    ghost function State(): Counters
      reads this
    {
      Counters(active, unknown, stopped)
    }

    method Begin() returns (ok: bool)
      modifies this
      ensures ok == !old(stopped)
      ensures State() == if ok then old(State()).(active := old(active) + 1) else old(State())
    {
      if stopped { return false; }
      active := active + 1;
      return true;
    }

    method End(known: bool)
      modifies this
      ensures State() == Ending(old(State()), known)
    {
      active := active - 1;
      unknown := unknown || !known;
    }
  }

  class Response {
    const drain: Drain
    const expected: int
    var ended: Option<bool>
    var known: bool
    var body: Bytes
    var received: int

    constructor (drain: Drain, known: bool, expected: int)
      ensures this.drain == drain && State() == Body(known, [], expected, 0, None)
    {
      this.drain, this.expected, this.known := drain, expected, known;
      ended, body, received := None, [], 0;
    }

    ghost function State(): Body
      reads this
    {
      Body(known, body, expected, received, ended)
    }

    method Finish(known: bool)
      modifies drain, this`ended
      ensures Both(drain.State(), State()) == Finishing(old(drain.State()), old(State()), known)
    {
      if !known { drain.unknown := true; }
      if ended.None? {
        ended := Some(known);
        drain.End(known);
      }
    }

    /** One read of the underlying body returned `chunk` with `status`. */
    method Read(chunk: Bytes, status: ReadStatus)
      modifies drain, this
      ensures Both(drain.State(), State()) == Reading(old(drain.State()), old(State()), chunk, status)
    {
      received := received + |chunk|;
      if expected > 0 && received > expected { known := false; }
      if |body| + |chunk| <= BODY_CAP {
        body := body + chunk;
      } else {
        known := false;
      }
      if status.Broken? {
        Finish(false);
      } else if status.Eof? || (expected > 0 && received == expected) {
        if expected > 0 && received != expected { known := false; }
        if Contains(body, XML_ERROR) || Contains(body, JSON_ERROR) { known := false; }
        Finish(known);
      }
    }

    method Close(failed: bool)
      modifies drain, this`ended
      ensures Both(drain.State(), State()) == Closing(old(drain.State()), old(State()), failed)
    {
      if ended.None? {
        ended := Some(false);
        drain.End(false);
      }
      if failed { drain.unknown := true; }
    }
  }

  // ------------------------------------------------------------- one response, any reads and closes

  datatype BodyOp = ReadOp(chunk: Bytes, status: ReadStatus) | CloseOp(failed: bool)

  function Apply(x: Both, op: BodyOp): Both {
    match op
    case ReadOp(chunk, status) => Reading(x.d, x.b, chunk, status)
    case CloseOp(failed) => Closing(x.d, x.b, failed)
  }

  function Run(x: Both, ops: seq<BodyOp>): Both {
    if ops == [] then x else Apply(Run(x, ops[..|ops| - 1]), ops[|ops| - 1])
  }

  /** Everything the reads of `ops` returned. */
  function Text(ops: seq<BodyOp>): Bytes {
    if ops == [] then []
    else Text(ops[..|ops| - 1]) + (if ops[|ops| - 1].ReadOp? then ops[|ops| - 1].chunk else [])
  }

  /** The last of `ops` settles the attempt, seen from outside: a close, an error, the end, the last promised byte. */
  predicate Settles(expected: int, ops: seq<BodyOp>)
    requires ops != []
  {
    var op := ops[|ops| - 1];
    op.CloseOp? || !op.status.More? || (expected > 0 && |Text(ops)| == expected)
  }

  predicate Unsettled(expected: int, ops: seq<BodyOp>) {
    ops == [] || (Unsettled(expected, ops[..|ops| - 1]) && !Settles(expected, ops))
  }

  /** What makes the settling operation a known outcome: a whole, short enough, unmarked body read to its end. */
  ghost predicate Whole(known: bool, expected: int, ops: seq<BodyOp>)
    requires ops != []
  {
    && known && ops[|ops| - 1].ReadOp? && !ops[|ops| - 1].status.Broken?
    && |Text(ops)| <= 65536 && (expected > 0 ==> |Text(ops)| == expected)
    && !Occurs(Text(ops), Ascii("<Error")) && !Occurs(Text(ops), Ascii("\"error\""))
  }

  lemma MarkedIff(body: Bytes)
    ensures Marked(body) <==> Occurs(body, Ascii("<Error")) || Occurs(body, Ascii("\"error\""))
  {
    hide Contains, Occurs, Ascii;
    ContainsIff(body, XML_ERROR);
    ContainsIff(body, JSON_ERROR);
  }

  /** While unsettled: nothing ended, and nothing lost unless it could no longer be known anyway. */
  ghost predicate Tracks(d: Counters, known: bool, expected: int, ops: seq<BodyOp>, x: Both) {
    && x.d == d && x.b.ended.None? && x.b.expected == expected && x.b.received == |Text(ops)|
    && |x.b.body| <= |Text(ops)|
    && (x.b.known ==> known && x.b.body == Text(ops) && |Text(ops)| <= BODY_CAP)
    && (known && |Text(ops)| <= BODY_CAP && (expected > 0 ==> |Text(ops)| <= expected) ==> x.b.known)
  }

  lemma {:induction false} RunTracks(d: Counters, known: bool, expected: int, ops: seq<BodyOp>)
    requires Unsettled(expected, ops)
    ensures Tracks(d, known, expected, ops, Run(Both(d, Body(known, [], expected, 0, None)), ops))
    decreases |ops|
  {
    hide Marked, Settles;
    if ops != [] {
      RunTracks(d, known, expected, ops[..|ops| - 1]);
      SettlesWhole(expected, ops);
    }
  }

  lemma SettlesWhole(expected: int, ops: seq<BodyOp>)
    requires ops != [] && !Settles(expected, ops)
    ensures ops[|ops| - 1].ReadOp? && ops[|ops| - 1].status.More? && !(expected > 0 && |Text(ops)| == expected)
  {
  }

  /**
   * For any reads and closes: the attempt ends with the first settling operation, exactly then, and its
   * outcome counts as known if and only if the whole body was read, short enough and unmarked.
   */
  lemma ResponseVerdict(d: Counters, known: bool, expected: int, ops: seq<BodyOp>)
    requires ops != [] && Unsettled(expected, ops[..|ops| - 1])
    ensures var x := Run(Both(d, Body(known, [], expected, 0, None)), ops);
            if Settles(expected, ops) then
              x.b.ended == Some(Whole(known, expected, ops)) && x.d == Ending(d, Whole(known, expected, ops))
            else x.b.ended == None && x.d == d
  {
    hide Marked, Run, Occurs, Ascii;
    var x := Run(Both(d, Body(known, [], expected, 0, None)), ops[..|ops| - 1]);
    RunTracks(d, known, expected, ops[..|ops| - 1]);
    RunLast(Both(d, Body(known, [], expected, 0, None)), ops);
    if ops[|ops| - 1].ReadOp? { ReadVerdict(d, known, expected, ops, x); }
  }

  lemma RunLast(x: Both, ops: seq<BodyOp>)
    requires ops != []
    ensures Run(x, ops) == Apply(Run(x, ops[..|ops| - 1]), ops[|ops| - 1])
  {
  }

  lemma ReadVerdict(d: Counters, known: bool, expected: int, ops: seq<BodyOp>, x: Both)
    requires ops != [] && ops[|ops| - 1].ReadOp? && Tracks(d, known, expected, ops[..|ops| - 1], x)
    ensures var y := Apply(x, ops[|ops| - 1]);
            if Settles(expected, ops) then
              y.b.ended == Some(Whole(known, expected, ops)) && y.d == Ending(d, Whole(known, expected, ops))
            else y.b.ended == None && y.d == d
  {
    hide Marked, Run, Occurs, Ascii;
    MarkedIff(Text(ops));
    var op := ops[|ops| - 1];
    var got := Received(x.b, op.chunk);
    assert |Text(ops)| == got.received;
    if !op.status.Broken? && Complete(got, op.status) {
      assert got.known ==> got.body == Text(ops);
      assert Judged(got).known == Whole(known, expected, ops);
    }
  }

  /** Afterwards nothing ends it again: later reads and closes can only add the unknown mark. */
  lemma {:induction false} EndedOnce(x: Both, ops: seq<BodyOp>)
    requires x.b.ended.Some?
    ensures Run(x, ops).b.ended == x.b.ended && Run(x, ops).d.active == x.d.active
    ensures x.d.unknown ==> Run(x, ops).d.unknown
    ensures Run(x, ops).d.stopped == x.d.stopped
    decreases |ops|
  {
    hide Marked;
    if ops != [] { EndedOnce(x, ops[..|ops| - 1]); }
  }
}
