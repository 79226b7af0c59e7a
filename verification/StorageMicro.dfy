/** The table at the grain of its atomic operations: adding is increment-then-store and
    deleting is load-then-decrement-then-delete, so threads interleave between them. */
module StorageMicro {
  import opened ResultsStorage

  /** Where a thread is: `Storing` has incremented and not stored, `Holding` owns the duty to
      delete (it received the result, or gave up waiting), `Loaded` saw the entry, `Removing`
      has decremented and not deleted. */
  datatype Kind = Storing | Holding | Loaded | Removing | Ended
  datatype Thread = Thread(kind: Kind, id: string)

  /** `count` is the ideal value of the counter, which holds `Wrap32(count)`; `redundant`
      counts deletions that found nothing to delete. */
  datatype Micro = Micro(
    track: set<string>,
    count: int,
    threads: seq<Thread>,
    born: set<string>,     // identifiers given out
    stored: set<string>,   // identifiers whose entry was stored at some time
    arrived: set<string>,  // identifiers whose result reached the channel
    full: set<string>,     // channels holding a result
    redundant: nat)

  const START := Micro({}, 0, [], {}, {}, {}, {}, 0)

  datatype Step =
    | AddBegin(id: string)
    | AddEnd(t: nat)
    | Arrive(id: string)
    | Receive(id: string)   // a poller or the postback goroutine takes the result
    | GiveUp(id: string)    // the decay goroutine, or a postback goroutine after its timeout
    | DeleteLoad(t: nat)
    | DeleteDecrement(t: nat)
    | DeleteEnd(t: nat)

  predicate At(s: Micro, t: nat, k: Kind) {
    t < |s.threads| && s.threads[t].kind == k
  }

  predicate Enabled(s: Micro, step: Step) {
    match step
    case AddBegin(id) => id !in s.born
    case AddEnd(t) => At(s, t, Storing)
    case Arrive(id) => id in s.born && id !in s.arrived
    case Receive(id) => id in s.full && id in s.stored
    case GiveUp(id) => id in s.stored
    case DeleteLoad(t) => At(s, t, Holding)
    case DeleteDecrement(t) => At(s, t, Loaded)
    case DeleteEnd(t) => At(s, t, Removing)
  }

  function Moved(s: Micro, t: nat, k: Kind): seq<Thread>
    requires t < |s.threads|
  {
    s.threads[t := s.threads[t].(kind := k)]
  }

  function Apply(s: Micro, step: Step): Micro
    requires Enabled(s, step)
  {
    match step
    case AddBegin(id) => s.(count := s.count + 1, born := s.born + {id}, threads := s.threads + [Thread(Storing, id)])
    case AddEnd(t) =>
      var id := s.threads[t].id;
      s.(track := s.track + {id}, stored := s.stored + {id}, threads := Moved(s, t, Ended))
    case Arrive(id) => s.(arrived := s.arrived + {id}, full := s.full + {id})
    case Receive(id) => s.(full := s.full - {id}, threads := s.threads + [Thread(Holding, id)])
    case GiveUp(id) => s.(threads := s.threads + [Thread(Holding, id)])
    case DeleteLoad(t) => s.(threads := Moved(s, t, if s.threads[t].id in s.track then Loaded else Ended))
    case DeleteDecrement(t) => s.(count := s.count - 1, threads := Moved(s, t, Removing))
    case DeleteEnd(t) =>
      var id := s.threads[t].id;
      s.(track := s.track - {id}, threads := Moved(s, t, Ended),
         redundant := s.redundant + if id in s.track then 0 else 1)
  }

  predicate Valid(s: Micro, steps: seq<Step>)
    decreases |steps|
  {
    steps == [] || (Enabled(s, steps[0]) && Valid(Apply(s, steps[0]), steps[1..]))
  }

  function Run(s: Micro, steps: seq<Step>): Micro
    requires Valid(s, steps)
    decreases |steps|
  {
    if steps == [] then s else Run(Apply(s, steps[0]), steps[1..])
  }

  // ----- the conservation law -----

  function Count(ts: seq<Thread>, k: Kind): nat {
    if ts == [] then 0 else Count(ts[..|ts| - 1], k) + if ts[|ts| - 1].kind == k then 1 else 0
  }

  lemma {:induction false} CountMoved(ts: seq<Thread>, t: nat, x: Thread, k: Kind)
    requires t < |ts|
    ensures Count(ts[t := x], k) ==
            Count(ts, k) - (if ts[t].kind == k then 1 else 0) + (if x.kind == k then 1 else 0)
  {
    var n := |ts| - 1;
    if t < n {
      assert ts[t := x][..n] == ts[..n][t := x];
      CountMoved(ts[..n], t, x, k);
    } else {
      assert ts[t := x][..n] == ts[..n];
    }
  }

  lemma CountAppended(ts: seq<Thread>, x: Thread, k: Kind)
    ensures Count(ts + [x], k) == Count(ts, k) + if x.kind == k then 1 else 0
  {
    assert (ts + [x])[..|ts|] == ts;
  }

  /** Adders store what was never stored before, so no store finds its key present. */
  predicate FreshStores(s: Micro) {
    && s.track <= s.stored <= s.born
    && (forall t :: 0 <= t < |s.threads| && s.threads[t].kind == Storing ==> s.threads[t].id in s.born - s.stored)
    && (forall t, u :: 0 <= t < u < |s.threads| && s.threads[t].kind == Storing && s.threads[u].kind == Storing ==>
          s.threads[t].id != s.threads[u].id)
  }

  predicate Balanced(s: Micro) {
    s.count == |s.track| + Count(s.threads, Storing) - Count(s.threads, Removing) - s.redundant
  }

  lemma StepKeepsFresh(s: Micro, step: Step)
    requires Enabled(s, step) && FreshStores(s)
    ensures FreshStores(Apply(s, step))
  {
  }

  /** How a step changes the number of adders and of deleters in the middle. */
  lemma StepCounts(s: Micro, step: Step)
    requires Enabled(s, step)
    ensures var s' := Apply(s, step);
            && Count(s'.threads, Storing) - Count(s.threads, Storing)
               == (if step.AddBegin? then 1 else if step.AddEnd? then -1 else 0)
            && Count(s'.threads, Removing) - Count(s.threads, Removing)
               == (if step.DeleteDecrement? then 1 else if step.DeleteEnd? then -1 else 0)
  {
    if step.AddBegin? || step.Receive? || step.GiveUp? {
      var x := Thread(if step.AddBegin? then Storing else Holding, step.id);
      CountAppended(s.threads, x, Storing);
      CountAppended(s.threads, x, Removing);
    } else if !step.Arrive? {
      var x := Apply(s, step).threads[step.t];
      CountMoved(s.threads, step.t, x, Storing);
      CountMoved(s.threads, step.t, x, Removing);
    }
  }

  lemma StepKeepsBalance(s: Micro, step: Step)
    requires Enabled(s, step) && FreshStores(s) && Balanced(s)
    ensures Balanced(Apply(s, step))
  {
    StepCounts(s, step);
    if step.DeleteEnd? && s.threads[step.t].id !in s.track {
      assert Apply(s, step).track == s.track;
    }
  }

  lemma {:induction false} RunKeepsBalance(s: Micro, steps: seq<Step>)
    requires Valid(s, steps) && FreshStores(s) && Balanced(s)
    ensures FreshStores(Run(s, steps)) && Balanced(Run(s, steps))
    decreases |steps|
  {
    if steps != [] {
      StepKeepsFresh(s, steps[0]);
      StepKeepsBalance(s, steps[0]);
      RunKeepsBalance(Apply(s, steps[0]), steps[1..]);
    }
  }

  /** At every micro-step of every interleaving, the counter is the number of entries plus the
      adders between increment and store, minus the deleters between decrement and delete,
      minus the redundant deletions so far. */
  lemma MicroLaw(steps: seq<Step>)
    requires Valid(START, steps)
    ensures var s := Run(START, steps);
            s.count == |s.track| + Count(s.threads, Storing) - Count(s.threads, Removing) - s.redundant
  {
    RunKeepsBalance(START, steps);
  }

  // ----- when deletions are never redundant -----

  predicate PastLoad(s: Micro, t: int) {
    0 <= t < |s.threads| && s.threads[t].kind in {Loaded, Removing}
  }

  /** A deleter may load only if no other deleter of the same identifier is past its load. */
  ghost predicate Exclusive(s: Micro, step: Step) {
    step.DeleteLoad? && At(s, step.t, Holding) ==>
      forall u :: PastLoad(s, u) ==> s.threads[u].id != s.threads[step.t].id
  }

  ghost predicate AllExclusive(s: Micro, steps: seq<Step>)
    requires Valid(s, steps)
    decreases |steps|
  {
    steps == [] || (Exclusive(s, steps[0]) && AllExclusive(Apply(s, steps[0]), steps[1..]))
  }

  ghost predicate SoleDeleters(s: Micro) {
    && (forall t :: PastLoad(s, t) ==> s.threads[t].id in s.track)
    && (forall t, u :: PastLoad(s, t) && PastLoad(s, u) && t != u ==> s.threads[t].id != s.threads[u].id)
  }

  lemma ExclusiveStep(s: Micro, step: Step)
    requires Enabled(s, step) && SoleDeleters(s) && Exclusive(s, step)
    ensures SoleDeleters(Apply(s, step)) && Apply(s, step).redundant == s.redundant
  {
    var s' := Apply(s, step);
    forall t | PastLoad(s', t)
      ensures PastLoad(s, t) || (step.DeleteLoad? && step.t == t)
    {
    }
    if step.DeleteEnd? { assert PastLoad(s, step.t); }
  }

  lemma {:induction false} ExclusiveRun(s: Micro, steps: seq<Step>)
    requires Valid(s, steps) && SoleDeleters(s) && AllExclusive(s, steps)
    ensures Run(s, steps).redundant == s.redundant && SoleDeleters(Run(s, steps))
    decreases |steps|
  {
    if steps != [] {
      ExclusiveStep(s, steps[0]);
      ExclusiveRun(Apply(s, steps[0]), steps[1..]);
    }
  }

  /** The remaining micro-steps of deleter `t`. */
  function Finish(s: Micro, t: nat): seq<Step>
    requires PastLoad(s, t)
  {
    if s.threads[t].kind == Loaded then [DeleteDecrement(t), DeleteEnd(t)] else [DeleteEnd(t)]
  }

  lemma FinishRuns(s: Micro, t: nat)
    requires PastLoad(s, t)
    ensures Valid(s, Finish(s, t))
    ensures var s' := Run(s, Finish(s, t));
            && s'.track == s.track - {s.threads[t].id}
            && s'.count == s.count - (if s.threads[t].kind == Loaded then 1 else 0)
            && s'.redundant == s.redundant + (if s.threads[t].id in s.track then 0 else 1)
            && (forall u :: u != t && PastLoad(s, u) ==> PastLoad(s', u) && s'.threads[u] == s.threads[u])
  {
    if s.threads[t].kind == Loaded {
      var s1 := Apply(s, DeleteDecrement(t));
      var s2 := Apply(s1, DeleteEnd(t));
      assert [DeleteDecrement(t), DeleteEnd(t)][1..] == [DeleteEnd(t)];
      assert [DeleteEnd(t)][1..] == [];
      assert Run(s1, [DeleteEnd(t)]) == s2;
    } else {
      var s1 := Apply(s, DeleteEnd(t));
      assert [DeleteEnd(t)][1..] == [];
    }
  }

  /** Two deleters of one identifier past their loads can always finish one after the other,
      and then one deletion is redundant. */
  lemma OverlapIsRedundant(s: Micro, t: nat, u: nat) returns (first: seq<Step>, second: seq<Step>)
    requires PastLoad(s, t) && PastLoad(s, u) && t != u && s.threads[t].id == s.threads[u].id
    ensures Valid(s, first) && Valid(Run(s, first), second)
    ensures NoLoads(first) && NoLoads(second) && Run(Run(s, first), second).redundant > s.redundant
  {
    FinishRuns(s, t);
    first := Finish(s, t);
    FinishRuns(Run(s, first), u);
    second := Finish(Run(s, first), u);
  }

  /** The deleters past their loads cannot make a redundant deletion by just finishing. */
  ghost predicate Harmless(s: Micro) {
    forall rest :: Valid(s, rest) && NoLoads(rest) ==> Run(s, rest).redundant == s.redundant
  }

  ghost predicate NoLoads(steps: seq<Step>) {
    forall k :: 0 <= k < |steps| ==> !steps[k].DeleteLoad?
  }

  ghost predicate AlwaysHarmless(s: Micro, steps: seq<Step>)
    requires Valid(s, steps)
    decreases |steps|
  {
    Harmless(s) && (steps == [] || AlwaysHarmless(Apply(s, steps[0]), steps[1..]))
  }

  lemma {:induction false} NoLoadsIsExclusive(s: Micro, steps: seq<Step>)
    requires Valid(s, steps) && NoLoads(steps)
    ensures AllExclusive(s, steps)
    decreases |steps|
  {
    if steps != [] {
      assert !steps[0].DeleteLoad?;
      assert NoLoads(steps[1..]) by {
        assert forall k :: 0 <= k < |steps[1..]| ==> steps[1..][k] == steps[k + 1];
      }
      NoLoadsIsExclusive(Apply(s, steps[0]), steps[1..]);
    }
  }

  lemma SoleIsHarmless(s: Micro)
    requires SoleDeleters(s)
    ensures Harmless(s)
  {
    forall rest | Valid(s, rest) && NoLoads(rest)
      ensures Run(s, rest).redundant == s.redundant
    {
      NoLoadsIsExclusive(s, rest);
      ExclusiveRun(s, rest);
    }
  }

  /** A load next to a deleter of the same identifier is harmful at once. */
  lemma OverlapIsHarmful(s: Micro, t: nat, u: nat)
    requires SoleDeleters(s) && At(s, t, Holding) && PastLoad(s, u) && s.threads[u].id == s.threads[t].id
    ensures !Harmless(Apply(s, DeleteLoad(t)))
  {
    var s1 := Apply(s, DeleteLoad(t));
    assert s1.threads[u] == s.threads[u] && s1.threads[t].kind == Loaded;
    var first, second := OverlapIsRedundant(s1, u, t);
    RunAppend(s1, first, second);
    assert NoLoads(first + second);
  }

  lemma {:induction false} RunAppend(s: Micro, a: seq<Step>, b: seq<Step>)
    requires Valid(s, a) && Valid(Run(s, a), b)
    ensures Valid(s, a + b) && Run(s, a + b) == Run(Run(s, a), b)
    decreases |a|
  {
    if a == [] {
      assert a + b == b;
    } else {
      RunAppend(Apply(s, a[0]), a[1..], b);
      assert (a + b)[1..] == a[1..] + b;
    }
  }

  /** The guard is exact: a run keeps to it if and only if at no point of the run the deleters
      already past their loads could finish with a redundant deletion. */
  lemma {:induction false} ExclusiveIffHarmless(s: Micro, steps: seq<Step>)
    requires Valid(s, steps) && SoleDeleters(s)
    ensures AllExclusive(s, steps) <==> AlwaysHarmless(s, steps)
    decreases |steps|
  {
    SoleIsHarmless(s);
    if steps != [] {
      var s1 := Apply(s, steps[0]);
      if Exclusive(s, steps[0]) {
        ExclusiveStep(s, steps[0]);
        ExclusiveIffHarmless(s1, steps[1..]);
      } else {
        var u :| PastLoad(s, u) && s.threads[u].id == s.threads[steps[0].t].id;
        OverlapIsHarmful(s, steps[0].t, u);
        assert !AlwaysHarmless(s1, steps[1..]);
      }
    }
  }

  /** For all runs from the start. */
  lemma GuardIsExact(steps: seq<Step>)
    requires Valid(START, steps)
    ensures AllExclusive(START, steps) <==> AlwaysHarmless(START, steps)
    ensures AllExclusive(START, steps) ==> Run(START, steps).redundant == 0
  {
    ExclusiveIffHarmless(START, steps);
    if AllExclusive(START, steps) { ExclusiveRun(START, steps); }
  }

  // ----- the deletion token -----

  predicate Duty(s: Micro, t: int) {
    0 <= t < |s.threads| && s.threads[t].kind in {Holding, Loaded, Removing}
  }

  /** The result is a token: it is yet to come, in the channel, or with one deleter. */
  ghost predicate OneToken(s: Micro) {
    && s.full <= s.arrived
    && (forall t :: Duty(s, t) ==> s.threads[t].id in s.arrived - s.full)
    && (forall t, u :: Duty(s, t) && Duty(s, u) && t != u ==> s.threads[t].id != s.threads[u].id)
  }

  ghost predicate NobodyGivesUp(steps: seq<Step>) {
    forall k :: 0 <= k < |steps| ==> !steps[k].GiveUp?
  }

  lemma TokenStep(s: Micro, step: Step)
    requires Enabled(s, step) && OneToken(s) && !step.GiveUp?
    ensures OneToken(Apply(s, step)) && Exclusive(s, step)
  {
    var s' := Apply(s, step);
    forall t | Duty(s', t)
      ensures Duty(s, t) || (step.Receive? && t == |s.threads|)
    {
    }
    if step.DeleteLoad? {
      forall u | PastLoad(s, u)
        ensures s.threads[u].id != s.threads[step.t].id
      {
        assert Duty(s, u) && Duty(s, step.t);
      }
    }
  }

  lemma {:induction false} TokenRun(s: Micro, steps: seq<Step>)
    requires Valid(s, steps) && OneToken(s) && NobodyGivesUp(steps)
    ensures AllExclusive(s, steps)
    decreases |steps|
  {
    if steps != [] {
      assert !steps[0].GiveUp?;
      TokenStep(s, steps[0]);
      assert NobodyGivesUp(steps[1..]) by {
        forall k | 0 <= k < |steps[1..]| ensures !steps[1..][k].GiveUp? { assert steps[1..][k] == steps[k + 1]; }
      }
      TokenRun(Apply(s, steps[0]), steps[1..]);
    }
  }

  /** As long as nobody gives up waiting, only the unique receiver of a result deletes the
      entry, and counter, table and threads agree at every micro-step. */
  lemma MicroAgreement(steps: seq<Step>)
    requires Valid(START, steps) && NobodyGivesUp(steps)
    ensures var s := Run(START, steps);
            && s.redundant == 0
            && s.count == |s.track| + Count(s.threads, Storing) - Count(s.threads, Removing)
  {
    TokenRun(START, steps);
    ExclusiveRun(START, steps);
    MicroLaw(steps);
  }

  lemma RunCons(s: Micro, step: Step, rest: seq<Step>)
    requires Enabled(s, step) && Valid(Apply(s, step), rest)
    ensures Valid(s, [step] + rest) && Run(s, [step] + rest) == Run(Apply(s, step), rest)
  {
    assert ([step] + rest)[1..] == rest;
  }

  /** The request "a" is tracked, its result is taken by a poller ... */
  const CLAIM: seq<Step> := [AddBegin("a"), AddEnd(0), Arrive("a"), Receive("a")]
  /** ... and the decay goroutine gives up on it; both see the entry ... */
  const GIVE_UP: seq<Step> := [GiveUp("a"), DeleteLoad(1), DeleteLoad(2)]

  function AfterClaim(): Micro {
    Micro({"a"}, 1, [Thread(Ended, "a"), Thread(Holding, "a")], {"a"}, {"a"}, {"a"}, {}, 0)
  }

  function AfterGiveUp(): Micro {
    AfterClaim().(threads := [Thread(Ended, "a"), Thread(Loaded, "a"), Thread(Loaded, "a")])
  }

  lemma ClaimRuns()
    ensures Valid(START, CLAIM) && Run(START, CLAIM) == AfterClaim()
  {
    var s1 := Micro({}, 1, [Thread(Storing, "a")], {"a"}, {}, {}, {}, 0);
    var s2 := Micro({"a"}, 1, [Thread(Ended, "a")], {"a"}, {"a"}, {}, {}, 0);
    var s3 := s2.(arrived := {"a"}, full := {"a"});
    assert Apply(s3, Receive("a")) == AfterClaim();
    RunCons(s3, Receive("a"), []);
    assert Apply(s2, Arrive("a")) == s3;
    RunCons(s2, Arrive("a"), [Receive("a")]);
    assert Apply(s1, AddEnd(0)) == s2;
    RunCons(s1, AddEnd(0), [Arrive("a"), Receive("a")]);
    assert Apply(START, AddBegin("a")) == s1;
    RunCons(START, AddBegin("a"), [AddEnd(0), Arrive("a"), Receive("a")]);
  }

  lemma GiveUpRuns()
    ensures Valid(AfterClaim(), GIVE_UP) && Run(AfterClaim(), GIVE_UP) == AfterGiveUp()
  {
    var s5 := AfterClaim().(threads := [Thread(Ended, "a"), Thread(Holding, "a"), Thread(Holding, "a")]);
    var s6 := AfterClaim().(threads := [Thread(Ended, "a"), Thread(Loaded, "a"), Thread(Holding, "a")]);
    assert Apply(s6, DeleteLoad(2)) == AfterGiveUp();
    RunCons(s6, DeleteLoad(2), []);
    assert Apply(s5, DeleteLoad(1)) == s6;
    RunCons(s5, DeleteLoad(1), [DeleteLoad(2)]);
    assert Apply(AfterClaim(), GiveUp("a")) == s5;
    RunCons(AfterClaim(), GiveUp("a"), [DeleteLoad(1), DeleteLoad(2)]);
  }

  /** ... so both decrement: the table is empty and the 32-bit counter shows its maximum. */
  lemma ClaimAndDecayUnderflow() returns (finish: seq<Step>, finishToo: seq<Step>)
    ensures Valid(START, CLAIM) && Valid(Run(START, CLAIM), GIVE_UP)
    ensures var s := Run(Run(START, CLAIM), GIVE_UP);
            && Valid(s, finish) && Valid(Run(s, finish), finishToo)
            && var end := Run(Run(s, finish), finishToo);
               end.track == {} && end.redundant == 1 && Wrap32(end.count) == 0xFFFF_FFFF
  {
    ClaimRuns();
    GiveUpRuns();
    var s := AfterGiveUp();
    FinishRuns(s, 1);
    finish := Finish(s, 1);
    FinishRuns(Run(s, finish), 2);
    finishToo := Finish(Run(s, finish), 2);
  }
}
