/** The resource manager: broker memory and queue length decide whether requests are accepted. */
module ResManager {
  datatype Node = Node(memLimit: nat, memUsed: nat)

  const MEMORY_THRESHOLD: nat := 95

  function Wrap64(a: int): nat { a % 0x1_0000_0000_0000_0000 }

  function TotalUsed(nodes: seq<Node>): nat {
    if nodes == [] then 0 else TotalUsed(nodes[..|nodes| - 1]) + nodes[|nodes| - 1].memUsed
  }

  function TotalLimit(nodes: seq<Node>): nat {
    if nodes == [] then 0 else TotalLimit(nodes[..|nodes| - 1]) + nodes[|nodes| - 1].memLimit
  }

  /** The gate over 64-bit sums. */
  predicate MemoryGate(nodes: seq<Node>) {
    Wrap64(TotalUsed(nodes)) < Wrap64(Wrap64(TotalLimit(nodes)) * 95) / 100
  }

  // ----- what the gate means -----

  lemma WrapSum(a: nat, b: nat)
    ensures Wrap64(Wrap64(a) + b) == Wrap64(a + b)
  {
    var m := 0x1_0000_0000_0000_0000;
    var q, x := a / m, a % m + b;
    assert a + b == x + m * q;
    assert a + b == m * (q + x / m) + x % m;
    Remainder(a + b, q + x / m, x % m);
  }

  lemma Remainder(a: int, q: int, r: int)
    requires a == 0x1_0000_0000_0000_0000 * q + r && 0 <= r < 0x1_0000_0000_0000_0000
    ensures Wrap64(a) == r
  {
  }

  lemma WrapSmall(a: nat)
    requires a < 0x1_0000_0000_0000_0000
    ensures Wrap64(a) == a
  {
  }

  lemma {:induction false} TotalsSplit(a: seq<Node>, b: seq<Node>)
    ensures TotalUsed(a + b) == TotalUsed(a) + TotalUsed(b) && TotalLimit(a + b) == TotalLimit(a) + TotalLimit(b)
  {
    if b == [] {
      assert a + b == a;
    } else {
      assert (a + b)[..|a + b| - 1] == a + b[..|b| - 1];
      TotalsSplit(a, b[..|b| - 1]);
    }
  }

  lemma TotalsWithout(b: seq<Node>, k: nat)
    requires k < |b|
    ensures TotalUsed(b) == TotalUsed(b[..k] + b[k + 1..]) + b[k].memUsed
    ensures TotalLimit(b) == TotalLimit(b[..k] + b[k + 1..]) + b[k].memLimit
  {
    assert b == b[..k] + ([b[k]] + b[k + 1..]);
    TotalsSplit(b[..k], b[k + 1..]);
    TotalsSplit([b[k]], b[k + 1..]);
    TotalsSplit(b[..k], [b[k]] + b[k + 1..]);
    assert [b[k]][..0] == [];
  }

  lemma SameRest(a: seq<Node>, b: seq<Node>, k: nat)
    requires a != [] && k < |b| && b[k] == a[|a| - 1] && multiset(a) == multiset(b)
    ensures multiset(a[..|a| - 1]) == multiset(b[..k] + b[k + 1..])
  {
    var x := b[k];
    var rest, init := multiset(b[..k] + b[k + 1..]), multiset(a[..|a| - 1]);
    assert a == a[..|a| - 1] + [x];
    assert b == b[..k] + ([x] + b[k + 1..]);
    assert rest + multiset{x} == multiset(b) == init + multiset{x};
    assert rest == (rest + multiset{x}) - multiset{x} == (init + multiset{x}) - multiset{x} == init;
  }

  /** The order in which the broker lists its nodes does not matter, wrapping or not. */
  lemma {:induction false} GateIgnoresOrder(a: seq<Node>, b: seq<Node>)
    requires multiset(a) == multiset(b)
    ensures TotalUsed(a) == TotalUsed(b) && TotalLimit(a) == TotalLimit(b)
    ensures MemoryGate(a) == MemoryGate(b)
    decreases |a|
  {
    if a == [] {
      assert |multiset(b)| == 0;
    } else {
      var x := a[|a| - 1];
      assert x in multiset(b);
      var k :| 0 <= k < |b| && b[k] == x;
      SameRest(a, b, k);
      GateIgnoresOrder(a[..|a| - 1], b[..k] + b[k + 1..]);
      TotalsWithout(b, k);
    }
  }

  lemma {:induction false} TotalsUpdate(nodes: seq<Node>, k: nat, x: Node)
    requires k < |nodes|
    ensures TotalUsed(nodes[k := x]) == TotalUsed(nodes) - nodes[k].memUsed + x.memUsed
    ensures TotalLimit(nodes[k := x]) == TotalLimit(nodes) - nodes[k].memLimit + x.memLimit
  {
    var n := |nodes| - 1;
    if k < n {
      assert nodes[k := x][..n] == nodes[..n][k := x];
      TotalsUpdate(nodes[..n], k, x);
    } else {
      assert nodes[k := x][..n] == nodes[..n];
    }
  }

  lemma WrapProduct(t: nat)
    ensures Wrap64(Wrap64(t) * 95) == Wrap64(95 * t)
  {
    var m := 0x1_0000_0000_0000_0000;
    var q, x := t / m, t % m * 95;
    assert 95 * t == m * (95 * q + x / m) + x % m;
    Remainder(95 * t, 95 * q + x / m, x % m);
  }

  /** The gate in terms of the exact sums, whether they fit 64 bits or not. */
  lemma GateMeaning(nodes: seq<Node>)
    ensures MemoryGate(nodes) <==> 100 * (Wrap64(TotalUsed(nodes)) + 1) <= Wrap64(95 * TotalLimit(nodes))
  {
    WrapProduct(TotalLimit(nodes));
  }

  /** One more byte keeps the use within 95 percent of the limit. */
  predicate HasRoom(nodes: seq<Node>) { 100 * (TotalUsed(nodes) + 1) <= 95 * TotalLimit(nodes) }

  /** As long as nothing wraps, the gate is open exactly while there is room. */
  lemma GateWithoutWrap(nodes: seq<Node>)
    requires TotalUsed(nodes) < 0x1_0000_0000_0000_0000 && 95 * TotalLimit(nodes) < 0x1_0000_0000_0000_0000
    ensures MemoryGate(nodes) <==> 100 * (TotalUsed(nodes) + 1) <= 95 * TotalLimit(nodes)
  {
    GateMeaning(nodes);
    WrapSmall(TotalUsed(nodes));
    WrapSmall(95 * TotalLimit(nodes));
  }

  /** When the use fits 64 bits, the gate never opens without room; and it stays closed in spite
      of room exactly if the use is not below what wrapping leaves of the percentage. */
  lemma GateMisjudgesIff(nodes: seq<Node>)
    requires TotalUsed(nodes) < 0x1_0000_0000_0000_0000
    ensures MemoryGate(nodes) ==> HasRoom(nodes)
    ensures HasRoom(nodes) && !MemoryGate(nodes) <==>
            Wrap64(95 * TotalLimit(nodes)) < 100 * (TotalUsed(nodes) + 1) <= 95 * TotalLimit(nodes)
  {
    GateMeaning(nodes);
    WrapSmall(TotalUsed(nodes));
  }

  /** The same broker under another load. */
  predicate SameLimits(a: seq<Node>, b: seq<Node>) {
    |a| == |b| && forall k :: 0 <= k < |a| ==> a[k].memLimit == b[k].memLimit
  }

  lemma {:induction false} SameLimitsTotal(a: seq<Node>, b: seq<Node>)
    requires SameLimits(a, b)
    ensures TotalLimit(a) == TotalLimit(b)
  {
    if a != [] {
      SameLimitsTotal(a[..|a| - 1], b[..|b| - 1]);
    }
  }

  function Idle(nodes: seq<Node>): seq<Node> { seq(|nodes|, i requires 0 <= i < |nodes| => Node(nodes[i].memLimit, 0)) }

  lemma {:induction false} IdleUsesNothing(nodes: seq<Node>)
    ensures TotalUsed(Idle(nodes)) == 0
  {
    if nodes != [] {
      assert Idle(nodes)[..|nodes| - 1] == Idle(nodes[..|nodes| - 1]);
      IdleUsesNothing(nodes[..|nodes| - 1]);
    }
  }

  /** The same broker using exactly what wrapping leaves of the percentage. */
  lemma WrappedLoad(nodes: seq<Node>) returns (load: seq<Node>)
    requires nodes != []
    ensures SameLimits(load, nodes) && TotalUsed(load) == Wrap64(95 * TotalLimit(nodes)) / 100
  {
    var last, used := |nodes| - 1, Wrap64(95 * TotalLimit(nodes)) / 100;
    IdleUsesNothing(nodes);
    TotalsUpdate(Idle(nodes), last, Node(nodes[last].memLimit, used));
    load := Idle(nodes)[last := Node(nodes[last].memLimit, used)];
  }

  /** A broker is judged correctly under every load if and only if 95 times its total limit fits
      64 bits. */
  lemma GateCorrectIffLimitFits(nodes: seq<Node>)
    ensures (forall load :: SameLimits(load, nodes) && TotalUsed(load) < 0x1_0000_0000_0000_0000 ==>
               (MemoryGate(load) <==> HasRoom(load)))
            <==> 95 * TotalLimit(nodes) < 0x1_0000_0000_0000_0000
  {
    if 95 * TotalLimit(nodes) < 0x1_0000_0000_0000_0000 {
      forall load | SameLimits(load, nodes) && TotalUsed(load) < 0x1_0000_0000_0000_0000
        ensures MemoryGate(load) <==> HasRoom(load)
      {
        SameLimitsTotal(load, nodes);
        GateWithoutWrap(load);
      }
    } else {
      var load := WrappedLoad(nodes);
      SameLimitsTotal(load, nodes);
      GateMisjudgesIff(load);
      assert HasRoom(load) && !MemoryGate(load);
    }
  }

  /** For instance, an idle broker of 2^64 / 95 + 1 bytes is refused. */
  lemma GateWraps()
    ensures var idle := [Node(194176253407468965, 0)];
            100 * (TotalUsed(idle) + 1) <= 95 * TotalLimit(idle) && !MemoryGate(idle)
  {
    var idle := [Node(194176253407468965, 0)];
    assert idle[..0] == [];
    assert TotalLimit(idle) == 194176253407468965 && TotalUsed(idle) == 0;
    GateMisjudgesIff(idle);
  }

  /** Less use or more limit on one node never closes an open gate. */
  lemma GateIsMonotone(nodes: seq<Node>, k: nat, x: Node)
    requires k < |nodes| && x.memUsed <= nodes[k].memUsed && x.memLimit >= nodes[k].memLimit
    requires TotalUsed(nodes) < 0x1_0000_0000_0000_0000 && 95 * TotalLimit(nodes[k := x]) < 0x1_0000_0000_0000_0000
    requires MemoryGate(nodes)
    ensures MemoryGate(nodes[k := x])
  {
    TotalsUpdate(nodes, k, x);
    GateWithoutWrap(nodes);
    GateWithoutWrap(nodes[k := x]);
  }

  // ----- the manager -----

  /** The answer of one URL of the broker's API; a malformed one may have overwritten a part of
      what was remembered before, which leaves `left`. */
  datatype Fetched<T> = Unreachable | Malformed(left: T) | Got(value: T)

  /** What the manager meets at one round: the stop signal, or the two answers of the broker and
      the counter of tracked requests at that moment. */
  datatype Poll = Stop | Check(consumers: Fetched<nat>, nodes: Fetched<seq<Node>>, queueLen: nat)

  /** The verdict of one check. */
  predicate Available(consumers: nat, nodes: seq<Node>, queueLen: nat, factor: nat) {
    consumers != 0 && MemoryGate(nodes) && queueLen < Wrap64(consumers * factor)
  }

  /** What an available broker has, if its use fits 64 bits: room, consumers, and a queue shorter
      than consumers times factor. */
  predicate Ready(consumers: nat, nodes: seq<Node>, queueLen: nat, factor: nat) {
    && consumers > 0
    && queueLen < consumers * factor
    && (TotalUsed(nodes) < 0x1_0000_0000_0000_0000 ==> 100 * (TotalUsed(nodes) + 1) <= 95 * TotalLimit(nodes))
  }

  /** Nothing wraps: neither the use, nor the percentage of the limit, nor the product. */
  predicate Fits(consumers: nat, nodes: seq<Node>, factor: nat) {
    && TotalUsed(nodes) < 0x1_0000_0000_0000_0000 && 95 * TotalLimit(nodes) < 0x1_0000_0000_0000_0000
    && consumers * factor < 0x1_0000_0000_0000_0000
  }

  lemma AvailableIsReady(consumers: nat, nodes: seq<Node>, queueLen: nat, factor: nat)
    ensures Available(consumers, nodes, queueLen, factor) ==> Ready(consumers, nodes, queueLen, factor)
    ensures Fits(consumers, nodes, factor) ==>
              (Available(consumers, nodes, queueLen, factor) <==> Ready(consumers, nodes, queueLen, factor))
  {
    WrapBelow(consumers * factor);
    if TotalUsed(nodes) < 0x1_0000_0000_0000_0000 { GateMisjudgesIff(nodes); }
    if Fits(consumers, nodes, factor) {
      GateWithoutWrap(nodes);
      WrapSmall(consumers * factor);
    }
  }

  lemma WrapBelow(a: nat)
    ensures Wrap64(a) <= a
  {
  }

  predicate Verdict(c: Poll, factor: nat)
    requires c.Check?
  {
    c.consumers.Got? && c.nodes.Got? && Available(c.consumers.value, c.nodes.value, c.queueLen, factor)
  }

  /** The manager's global variables. */
  datatype View = View(
    numConsumers: nat, nodes: seq<Node>, factor: nat, technicalError: bool, canAccept: bool, appStop: bool)

  /** What a round makes of them. */
  function Round(v: View, p: Poll): View {
    match p
    case Stop => v.(canAccept := false, appStop := true)
    case Check(consumers, stats, queueLen) =>
      if consumers.Unreachable? || stats.Unreachable? then v.(technicalError := true, canAccept := false)
      else if consumers.Malformed? then v.(numConsumers := consumers.left, technicalError := true, canAccept := false)
      else
        var u := v.(numConsumers := consumers.value);
        if stats.Malformed? then u.(nodes := stats.left, technicalError := true, canAccept := false)
        else u.(nodes := stats.value, technicalError := consumers.value == 0, canAccept := Verdict(p, v.factor))
  }

  function Rounds(v: View, polls: seq<Poll>): View
    decreases |polls|
  {
    if polls == [] || v.appStop then v else Rounds(Round(v, polls[0]), polls[1..])
  }

  class Manager {
    var numConsumers: nat
    var nodes: seq<Node>
    var factorForMessageAccept: nat
    var technicalError: bool
    var serviceCanAccept: bool
    var appStop: bool

    function Value(): View
      reads this
    {
      View(numConsumers, nodes, factorForMessageAccept, technicalError, serviceCanAccept, appStop)
    }

    constructor (factor: nat)
      ensures Value() == View(0, [], factor, false, false, false)
    {
      numConsumers, nodes, factorForMessageAccept := 0, [], factor;
      technicalError, serviceCanAccept, appStop := false, false, false;
    }

    method SchedulerByMemoryLoad() returns (flag: bool)
      ensures flag == MemoryGate(nodes)
    {
      var inUse, total := 0, 0;
      for k := 0 to |nodes|
        invariant inUse == Wrap64(TotalUsed(nodes[..k]))
        invariant total == Wrap64(TotalLimit(nodes[..k]))
      {
        assert nodes[..k + 1][..k] == nodes[..k];
        WrapSum(TotalUsed(nodes[..k]), nodes[k].memUsed);
        WrapSum(TotalLimit(nodes[..k]), nodes[k].memLimit);
        inUse := Wrap64(inUse + nodes[k].memUsed);
        total := Wrap64(total + nodes[k].memLimit);
      }
      assert nodes[..|nodes|] == nodes;
      flag := inUse < Wrap64(total * MEMORY_THRESHOLD) / 100;
    }

    /** `queueLen` is the counter of tracked requests as it is read here. */
    method SchedulerByWorkerNumber(queueLen: nat) returns (flag: bool)
      ensures flag == (queueLen < Wrap64(numConsumers * factorForMessageAccept))
    {
      flag := queueLen < Wrap64(numConsumers * factorForMessageAccept);
    }

    /** Available exactly if both statistics could be read and all three conditions hold. */
    method CheckForAcceptRequest(consumers: Fetched<nat>, stats: Fetched<seq<Node>>, queueLen: nat)
      returns (isAvailable: bool)
      modifies this`numConsumers, this`nodes, this`technicalError
      ensures isAvailable <==>
                && consumers.Got? && stats.Got?
                && Available(consumers.value, stats.value, queueLen, factorForMessageAccept)
      ensures numConsumers ==
              if consumers.Unreachable? || stats.Unreachable? then old(numConsumers)
              else if consumers.Malformed? then consumers.left else consumers.value
      ensures nodes ==
              if stats.Unreachable? || !consumers.Got? then old(nodes)
              else if stats.Malformed? then stats.left else stats.value
      ensures technicalError <==> !consumers.Got? || !stats.Got? || consumers.value == 0
      ensures isAvailable ==>
                consumers.Got? && stats.Got? && Ready(consumers.value, stats.value, queueLen, factorForMessageAccept)
      ensures consumers.Got? && stats.Got? && Fits(consumers.value, stats.value, factorForMessageAccept) ==>
                (isAvailable <==> Ready(consumers.value, stats.value, queueLen, factorForMessageAccept))
    {
      if consumers.Got? && stats.Got? {
        AvailableIsReady(consumers.value, stats.value, queueLen, factorForMessageAccept);
      }
      isAvailable := false;
      technicalError := false;
      if consumers.Unreachable? || stats.Unreachable? {
        technicalError := true;
        return;
      }
      if consumers.Malformed? {
        numConsumers := consumers.left;
        technicalError := true;
        return;
      }
      numConsumers := consumers.value;
      if stats.Malformed? {
        nodes := stats.left;
        technicalError := true;
        return;
      }
      nodes := stats.value;
      if numConsumers == 0 {
        technicalError := true;
        return;
      }
      var flagForResources := SchedulerByMemoryLoad();
      var flagForQueue := SchedulerByWorkerNumber(queueLen);
      if flagForQueue && flagForResources {
        isAvailable := true;
      }
    }

    /** The polling loop over a script of polls, between which the tracking table may change: it
        ends for good at the first stop, which closes the service; until then the service is
        open as the last check said. */
    method SetResManagerState(polls: seq<Poll>) returns (polled: nat)
      modifies this
      ensures Value() == Rounds(old(Value()), polls)
      ensures polled <= |polls|
      ensures old(appStop) ==> polled == 0 && serviceCanAccept == old(serviceCanAccept)
      ensures !old(appStop) ==> (appStop <==> Stop in polls)
      ensures !old(appStop) && appStop ==>
                !serviceCanAccept && 0 < polled && polls[polled - 1].Stop? && Stop !in polls[..polled - 1]
      ensures !old(appStop) && !appStop && polls != [] ==>
                polls[|polls| - 1].Check? && (serviceCanAccept <==> Verdict(polls[|polls| - 1], factorForMessageAccept))
      ensures !old(appStop) && !appStop && polls != [] && serviceCanAccept ==>
                var c := polls[|polls| - 1];
                c.consumers.Got? && c.nodes.Got?
                && Ready(c.consumers.value, c.nodes.value, c.queueLen, factorForMessageAccept)
      ensures !old(appStop) && !appStop && polls != [] ==>
                var c := polls[|polls| - 1];
                c.consumers.Got? && c.nodes.Got? && Fits(c.consumers.value, c.nodes.value, factorForMessageAccept) ==>
                  (serviceCanAccept <==> Ready(c.consumers.value, c.nodes.value, c.queueLen, factorForMessageAccept))
    {
      polled := 0;
      while polled < |polls|
        invariant polled <= |polls|
        invariant Rounds(Value(), polls[polled..]) == Rounds(old(Value()), polls)
        invariant old(appStop) ==> appStop && polled == 0 && serviceCanAccept == old(serviceCanAccept)
        invariant !old(appStop) && !appStop ==> Stop !in polls[..polled]
        invariant !old(appStop) && appStop ==>
                    !serviceCanAccept && 0 < polled && polls[polled - 1].Stop? && Stop !in polls[..polled - 1]
        invariant !old(appStop) && !appStop && polled > 0 ==>
                    && polls[polled - 1].Check?
                    && (serviceCanAccept <==> Verdict(polls[polled - 1], factorForMessageAccept))
        decreases |polls| - polled
      {
        if appStop {
          break;
        }
        var p := polls[polled];
        assert polls[polled..][1..] == polls[polled + 1..];
        polled := polled + 1;
        assert polls[..polled] == polls[..polled - 1] + [p];
        match p {
          case Stop =>
            serviceCanAccept := false;
            appStop := true;
            break;
          case Check(consumers, stats, queueLen) =>
            var cur := CheckForAcceptRequest(consumers, stats, queueLen);
            serviceCanAccept := cur;
        }
      }
      if !old(appStop) && !appStop {
        assert polls[..polled] == polls;
        if polls != [] && polls[|polls| - 1].consumers.Got? && polls[|polls| - 1].nodes.Got? {
          var c := polls[|polls| - 1];
          AvailableIsReady(c.consumers.value, c.nodes.value, c.queueLen, factorForMessageAccept);
        }
      }
      if !old(appStop) && appStop { assert polls[polled - 1] in polls; }
    }
  }
}
