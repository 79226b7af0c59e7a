/** The table of deferred requests: a shared map from request ID to result channel, a 32-bit
    counter of its entries and the in-flight gauge, all changed in place. */
module ResultsStorage {
  import opened OcrTypes

  /** Unsigned 32-bit values, and the two atomic additions (of 1, and of the complement of 0). */
  function Wrap32(a: int): nat { a % 0x1_0000_0000 }
  function Inc32(n: nat): nat { Wrap32(n + 1) }
  function Dec32(n: nat): nat { Wrap32(n + 0xFFFF_FFFF) }

  lemma WrapStep(a: int)
    ensures Inc32(Wrap32(a)) == Wrap32(a + 1)
    ensures Dec32(Wrap32(a)) == Wrap32(a - 1)
  {
    var m := 0x1_0000_0000;
    var q, r := a / m, a % m;
    assert a == m * q + r;
    Remainder32(a + 1, if r == m - 1 then q + 1 else q, if r == m - 1 then 0 else r + 1);
    Remainder32(a - 1, if r == 0 then q - 1 else q, if r == 0 then m - 1 else r - 1);
  }

  lemma Remainder32(a: int, q: int, r: int)
    requires a == 0x1_0000_0000 * q + r && 0 <= r < 0x1_0000_0000
    ensures Wrap32(a) == r
  {
  }

  // ----- the table as a value -----

  datatype Table = Table(track: set<string>, length: nat, gauge: int)

  const EMPTY := Table({}, 0, 0)

  function Added(t: Table, id: string): Table {
    Table(t.track + {id}, Inc32(t.length), t.gauge + 1)
  }

  function Deleted(t: Table, id: string): Table {
    if id in t.track then Table(t.track - {id}, Dec32(t.length), t.gauge - 1) else t
  }

  /** The counter is the number of tracked requests, modulo its width. */
  predicate Agrees(t: Table) {
    t.length == Wrap32(|t.track|)
  }

  /** What a status query answers: not found, processing, or a claimed result. */
  datatype Answer = NotFound | Processing | Claimed(result: OcrResult)

  function StatusOf(t: Table, chan: seq<OcrResult>, id: string): Answer {
    if id !in t.track then NotFound else if chan == [] then Processing else Claimed(chan[0])
  }

  // ----- the mutable storage -----

  /** A buffered Go channel. */
  class Channel {
    const capacity: nat
    var buffer: seq<OcrResult>

    constructor (capacity: nat)
      ensures this.capacity == capacity && buffer == []
    {
      this.capacity := capacity;
      buffer := [];
    }
  }

  class Storage {
    var requestsTrack: map<string, Channel>
    var requestTrackLength: nat
    var inFlightGauge: int

    function Value(): Table
      reads this
    {
      Table(requestsTrack.Keys, requestTrackLength, inFlightGauge)
    }

    constructor ()
      ensures Value() == EMPTY && requestsTrack == map[]
    {
      requestsTrack := map[];
      requestTrackLength := 0;
      inFlightGauge := 0;
    }

    method GetQueueLen() returns (n: nat)
      ensures n == Value().length
    {
      n := requestTrackLength;
    }

    method AddNewOcrResultToQueue(id: string, rpcResponseChan: Channel)
      modifies this
      ensures Value() == Added(old(Value()), id)
      ensures requestsTrack == old(requestsTrack)[id := rpcResponseChan]
    {
      requestTrackLength := Inc32(requestTrackLength);
      inFlightGauge := inFlightGauge + 1;
      requestsTrack := requestsTrack[id := rpcResponseChan];
      assert requestsTrack.Keys == old(requestsTrack).Keys + {id};
    }

    method DeleteRequestFromQueue(id: string)
      modifies this
      ensures Value() == Deleted(old(Value()), id)
      ensures requestsTrack == old(requestsTrack) - {id}
    {
      if id in requestsTrack {
        requestTrackLength := Dec32(requestTrackLength);
        inFlightGauge := inFlightGauge - 1;
        requestsTrack := requestsTrack - {id};
      }
    }

    /** The non-blocking receive takes a result at most once, and taking it removes the entry. */
    method CheckOcrStatusByID(id: string) returns (result: OcrResult, found: bool)
      modifies this, requestsTrack.Values
      ensures found <==> id in old(requestsTrack)
      ensures !found ==> result == OcrResult("", "", "") && Value() == old(Value()) && unchanged(this)
      ensures found ==>
                var c := old(requestsTrack)[id];
                var was := old(c.buffer);
                match StatusOf(old(Value()), was, id)
                case NotFound => false
                case Processing => result == OcrResult("", "processing", id) && c.buffer == [] && unchanged(this)
                case Claimed(r) => result == r && [r] + c.buffer == was && Value() == Deleted(old(Value()), id)
      ensures id in old(requestsTrack) && old(requestsTrack[id].buffer) == [] ==>
                result == OcrResult("", "processing", id) && unchanged(this)
      ensures id in old(requestsTrack) && old(requestsTrack[id].buffer) != [] ==>
                && result == old(requestsTrack[id].buffer)[0]
                && old(requestsTrack)[id].buffer == old(requestsTrack[id].buffer)[1..]
                && requestsTrack == old(requestsTrack) - {id}
      ensures forall c ::
                c in old(requestsTrack).Values && (id in old(requestsTrack) ==> c != old(requestsTrack)[id]) ==>
                  c.buffer == old(c.buffer)
    {
      if id !in requestsTrack {
        return OcrResult("", "", ""), false;
      }
      var tempChannel := requestsTrack[id];
      assert tempChannel in requestsTrack.Values;
      if |tempChannel.buffer| > 0 {
        result := tempChannel.buffer[0];
        tempChannel.buffer := tempChannel.buffer[1..];
        DeleteRequestFromQueue(id);
        found := true;
      } else {
        return OcrResult("", "processing", id), true;
      }
    }
  }

  // ----- laws over sequences of operations -----

  /** `HandlerIn` and `HandlerOut` are the instrumented HTTP handler raising and lowering the same gauge. */
  datatype Op = Add(id: string) | Delete(id: string) | HandlerIn | HandlerOut

  function ApplyOp(t: Table, op: Op): Table {
    match op
    case Add(id) => Added(t, id)
    case Delete(id) => Deleted(t, id)
    case HandlerIn => t.(gauge := t.gauge + 1)
    case HandlerOut => t.(gauge := t.gauge - 1)
  }

  function ApplyOps(t: Table, ops: seq<Op>): Table {
    if ops == [] then t else ApplyOp(ApplyOps(t, ops[..|ops| - 1]), ops[|ops| - 1])
  }

  /** How many additions in `ops` reused an identifier that was still tracked. */
  function Reuses(t: Table, ops: seq<Op>): nat {
    if ops == [] then 0
    else
      var init, last := ops[..|ops| - 1], ops[|ops| - 1];
      Reuses(t, init) + if last.Add? && last.id in ApplyOps(t, init).track then 1 else 0
  }

  /** Handlers that have entered and not left. */
  function ActiveHandlers(ops: seq<Op>): int {
    if ops == [] then 0
    else
      var last := ops[|ops| - 1];
      ActiveHandlers(ops[..|ops| - 1]) + (if last.HandlerIn? then 1 else if last.HandlerOut? then -1 else 0)
  }

  /** Counter and gauge, given the additions that reused a live identifier and the handlers. */
  predicate Law(t: Table, reuses: nat, handlers: int) {
    t.length == Wrap32(|t.track| + reuses) && t.gauge == |t.track| + reuses + handlers
  }

  lemma LawAdd(t: Table, id: string, reuses: nat, handlers: int)
    requires Law(t, reuses, handlers)
    ensures Law(Added(t, id), reuses + if id in t.track then 1 else 0, handlers)
  {
    WrapStep(|t.track| + reuses);
    if id in t.track {
      assert t.track + {id} == t.track;
    }
  }

  lemma LawDelete(t: Table, id: string, reuses: nat, handlers: int)
    requires Law(t, reuses, handlers)
    ensures Law(Deleted(t, id), reuses, handlers)
  {
    WrapStep(|t.track| + reuses);
  }

  /** After every sequence of operations, counter and gauge exceed the table (and the handlers)
      by exactly the additions that reused a live identifier. */
  lemma {:induction false} TableLaw(ops: seq<Op>)
    ensures Law(ApplyOps(EMPTY, ops), Reuses(EMPTY, ops), ActiveHandlers(ops))
  {
    if ops != [] {
      var init, last := ops[..|ops| - 1], ops[|ops| - 1];
      TableLaw(init);
      match last
      case Add(id) => LawAdd(ApplyOps(EMPTY, init), id, Reuses(EMPTY, init), ActiveHandlers(init));
      case Delete(id) => LawDelete(ApplyOps(EMPTY, init), id, Reuses(EMPTY, init), ActiveHandlers(init));
      case HandlerIn =>
      case HandlerOut =>
    }
  }

  lemma WrapCancels(a: nat, b: nat)
    ensures Wrap32(a + b) == Wrap32(a) <==> Wrap32(b) == 0
  {
  }

  /** The counter agrees with the table (so it never falls below zero) if and only if no
      addition reused a live identifier, up to a full turn of the counter. The gauge, which
      does not wrap, agrees with table and handlers if and only if there was none at all. */
  lemma TableAgreesIffFresh(ops: seq<Op>)
    ensures var t := ApplyOps(EMPTY, ops);
            && (Agrees(t) <==> Wrap32(Reuses(EMPTY, ops)) == 0)
            && (t.gauge == |t.track| + ActiveHandlers(ops) <==> Reuses(EMPTY, ops) == 0)
  {
    TableLaw(ops);
    WrapCancels(|ApplyOps(EMPTY, ops).track|, Reuses(EMPTY, ops));
  }
}
