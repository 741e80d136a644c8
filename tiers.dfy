/**
 * What the transform and ingest stages share: a tier call drains one queue and sends
 * each message to exactly one place (onward to a queue, to the tier's fail queue, or
 * consumed), and a cycle is the four tier calls in the order the loader makes them.
 */
module Tiers {
  import opened RecordTypes
  import opened HarvestRecords
  import opened JmsQueue
  import opened QueueName

  /** Where a stage's consumer sends one message. */
  datatype Dest = Forward(queue: string, message: HarvestRecord) | ToFail | Consumed

  /** A consumer's decision for each message in turn, threading the stage's external state. */
  function Route<S>(s: S, route: (S, HarvestRecord) -> (S, Dest), ms: seq<HarvestRecord>): (r: (seq<Dest>, S))
    ensures |r.0| == |ms|
    decreases |ms|
  {
    if ms == [] then ([], s)
    else
      var (ds, s') := Route(s, route, ms[..|ms| - 1]);
      var (s'', d) := route(s', ms[|ms| - 1]);
      (ds + [d], s'')
  }

  /** The queue effect of one decision; a failed message goes to the fail queue unchanged. */
  function Place1(qs: Queues, failQ: string, m: HarvestRecord, d: Dest): Queues
  {
    match d
    case Forward(q, m') => Append(qs, q, m')
    case ToFail => Append(qs, failQ, m)
    case Consumed => qs
  }

  function Place(qs: Queues, failQ: string, ms: seq<HarvestRecord>, ds: seq<Dest>): Queues
    requires |ds| == |ms|
    decreases |ms|
  {
    if ms == [] then qs
    else Place1(Place(qs, failQ, ms[..|ms| - 1], ds[..|ds| - 1]), failQ, ms[|ms| - 1], ds[|ds| - 1])
  }

  /** What the decisions send to queue `q`, in order. */
  function Sent(failQ: string, ms: seq<HarvestRecord>, ds: seq<Dest>, q: string): seq<HarvestRecord>
    requires |ds| == |ms|
    decreases |ms|
  {
    if ms == [] then []
    else
      var n := |ms| - 1;
      Sent(failQ, ms[..n], ds[..n], q) + SentOne(failQ, ms[n], ds[n], q)
  }

  /** What one decision sends to queue `q`. */
  function SentOne(failQ: string, m: HarvestRecord, d: Dest, q: string): seq<HarvestRecord>
  {
    match d
    case Forward(q', m') => if q' == q then [m'] else []
    case ToFail => if failQ == q then [m] else []
    case Consumed => []
  }

  /** The number of messages that did not fail. */
  function Passed(ds: seq<Dest>): nat
    decreases |ds|
  {
    if ds == [] then 0 else Passed(ds[..|ds| - 1]) + (if ds[|ds| - 1].ToFail? then 0 else 1)
  }

  /** Routing one more message extends the decisions, the queue effects and the count by that message's. */
  lemma RouteSnoc<S>(qs: Queues, s: S, failQ: string, route: (S, HarvestRecord) -> (S, Dest), ms: seq<HarvestRecord>, i: nat)
    requires i < |ms|
    ensures var r := Route(s, route, ms[..i]);
            var next := route(r.1, ms[i]);
      && Route(s, route, ms[..i + 1]) == (r.0 + [next.1], next.0)
      && Place(qs, failQ, ms[..i + 1], r.0 + [next.1]) == Place1(Place(qs, failQ, ms[..i], r.0), failQ, ms[i], next.1)
      && Passed(r.0 + [next.1]) == Passed(r.0) + (if next.1.ToFail? then 0 else 1)
  {
    var r := Route(s, route, ms[..i]);
    var next := route(r.1, ms[i]);
    assert ms[..i + 1][..i] == ms[..i];
    assert (r.0 + [next.1])[..i] == r.0;
  }

  /** Every queue ends as it was plus what was sent to it, in order. */
  lemma {:induction false} PlaceSends(qs: Queues, failQ: string, ms: seq<HarvestRecord>, ds: seq<Dest>, q: string)
    requires |ds| == |ms|
    ensures Get(Place(qs, failQ, ms, ds), q) == Get(qs, q) + Sent(failQ, ms, ds, q)
    decreases |ms|
  {
    if ms != [] {
      var n := |ms| - 1;
      PlaceSends(qs, failQ, ms[..n], ds[..n], q);
      Place1Sends(Place(qs, failQ, ms[..n], ds[..n]), failQ, ms[n], ds[n], q);
    }
  }

  /** One decision appends to `q` exactly what it sends there. */
  lemma Place1Sends(qs: Queues, failQ: string, m: HarvestRecord, d: Dest, q: string)
    ensures Get(Place1(qs, failQ, m, d), q) == Get(qs, q) + SentOne(failQ, m, d, q)
  {
  }

  /** The passed messages and the failed ones account for every message. */
  lemma {:induction false} PassedPlusFailed(failQ: string, ms: seq<HarvestRecord>, ds: seq<Dest>)
    requires |ds| == |ms|
    requires forall i :: 0 <= i < |ds| ==> ds[i].Forward? ==> ds[i].queue != failQ
    ensures Passed(ds) + |Sent(failQ, ms, ds, failQ)| == |ms|
    decreases |ms|
  {
    if ms != [] {
      var n := |ms| - 1;
      PassedPlusFailed(failQ, ms[..n], ds[..n]);
    }
  }

  datatype Outcome<S> = Outcome(queues: Queues, state: S, passed: nat)

  /** One tier call: take every message waiting on `fromQ` and route it. */
  function Tier<S>(qs: Queues, s: S, fromQ: string, failQ: string, route: (S, HarvestRecord) -> (S, Dest)): Outcome<S>
  {
    var ms := Get(qs, fromQ);
    var (ds, s') := Route(s, route, ms);
    Outcome(Place(qs[fromQ := []], failQ, ms, ds), s', Passed(ds))
  }

  /**
   * Four tier calls in the loader's order over the queues `p` (primary), `a`, `b`, `c`
   * (retry1 to retry3) and `f` (fail): c to f, b to c, p to a, a to b.
   */
  function Chain<S>(qs: Queues, s: S, p: string, a: string, b: string, c: string, f: string,
                    route: (S, HarvestRecord) -> (S, Dest)): Outcome<S>
  {
    var o1 := Tier(qs, s, c, f, route);
    var o2 := Tier(o1.queues, o1.state, b, c, route);
    var o3 := Tier(o2.queues, o2.state, p, a, route);
    var o4 := Tier(o3.queues, o3.state, a, b, route);
    Outcome(o4.queues, o4.state, o1.passed + o2.passed + o3.passed + o4.passed)
  }

  /** One stage's cycle over the tier queues of `prefix` and `t`. */
  function Cycle<S>(qs: Queues, s: S, prefix: string, t: RecordType, route: (S, HarvestRecord) -> (S, Dest)): Outcome<S>
  {
    Chain(qs, s, Name(prefix, t, Primary), Name(prefix, t, R1), Name(prefix, t, R2), Name(prefix, t, R3),
          Name(prefix, t, Failed), route)
  }

  // ---- where an always-failing message goes ---------------------------------

  /** `m` fails whatever the stage's state. */
  ghost predicate AlwaysFails<S(!new)>(route: (S, HarvestRecord) -> (S, Dest), m: HarvestRecord)
  {
    forall s :: route(s, m).1 == ToFail
  }

  /** The stage never forwards a message into one of `qset`. */
  ghost predicate ForwardsOutside<S(!new)>(route: (S, HarvestRecord) -> (S, Dest), qset: set<string>)
  {
    forall s, x :: route(s, x).1.Forward? ==> route(s, x).1.queue !in qset
  }

  function Count(qs: Queues, q: string, m: HarvestRecord): nat
  {
    multiset(Get(qs, q))[m]
  }

  lemma {:induction false} RouteFailsFor<S(!new)>(s: S, route: (S, HarvestRecord) -> (S, Dest), ms: seq<HarvestRecord>,
                                                 m: HarvestRecord)
    requires AlwaysFails(route, m)
    ensures forall i :: 0 <= i < |ms| && ms[i] == m ==> Route(s, route, ms).0[i] == ToFail
    decreases |ms|
  {
    if ms != [] {
      var n := |ms| - 1;
      RouteFailsFor(s, route, ms[..n], m);
      var r := Route(s, route, ms[..n]);
      assert Route(s, route, ms).0 == r.0 + [route(r.1, ms[n]).1];
      assert forall i :: 0 <= i < n ==> ms[..n][i] == ms[i];
    }
  }

  lemma {:induction false} RouteForwardsOutside<S(!new)>(s: S, route: (S, HarvestRecord) -> (S, Dest),
                                                        ms: seq<HarvestRecord>, qset: set<string>)
    requires ForwardsOutside(route, qset)
    ensures forall i :: 0 <= i < |ms| && Route(s, route, ms).0[i].Forward? ==> Route(s, route, ms).0[i].queue !in qset
    decreases |ms|
  {
    if ms != [] {
      var n := |ms| - 1;
      RouteForwardsOutside(s, route, ms[..n], qset);
      var r := Route(s, route, ms[..n]);
      assert Route(s, route, ms).0 == r.0 + [route(r.1, ms[n]).1];
    }
  }

  /** Copies of `m` sent to the fail queue and to the other queues of `qset`. */
  lemma {:induction false} SentCounts(failQ: string, ms: seq<HarvestRecord>, ds: seq<Dest>, m: HarvestRecord,
                                      q: string, qset: set<string>)
    requires |ds| == |ms| && q in qset
    requires forall i :: 0 <= i < |ms| && ms[i] == m ==> ds[i] == ToFail
    requires forall i :: 0 <= i < |ms| && ds[i].Forward? ==> ds[i].queue !in qset
    ensures q == failQ ==> multiset(Sent(failQ, ms, ds, q))[m] == multiset(ms)[m]
    ensures q != failQ ==> multiset(Sent(failQ, ms, ds, q))[m] == 0
    decreases |ms|
  {
    if ms != [] {
      var n := |ms| - 1;
      SentCounts(failQ, ms[..n], ds[..n], m, q, qset);
      assert ms == ms[..n] + [ms[n]];
      SentOneCount(failQ, ms[n], ds[n], m, q, qset);
      assert multiset(Sent(failQ, ms, ds, q))[m]
          == multiset(Sent(failQ, ms[..n], ds[..n], q))[m] + multiset(SentOne(failQ, ms[n], ds[n], q))[m];
      assert multiset(ms)[m] == multiset(ms[..n])[m] + multiset([ms[n]])[m];
    }
  }

  /** The copies of `m` one decision sends to a queue of `qset`. */
  lemma SentOneCount(failQ: string, x: HarvestRecord, d: Dest, m: HarvestRecord, q: string, qset: set<string>)
    requires q in qset && (x == m ==> d == ToFail) && (d.Forward? ==> d.queue !in qset)
    ensures multiset(SentOne(failQ, x, d, q))[m] == (if q == failQ && x == m then 1 else 0)
  {
  }

  /**
   * A tier call moves every copy of an always-failing message from its source queue to
   * its fail queue and no copy anywhere else among `qset`.
   */
  lemma TierCounts<S(!new)>(qs: Queues, s: S, fromQ: string, failQ: string, route: (S, HarvestRecord) -> (S, Dest),
                      m: HarvestRecord, qset: set<string>, q: string)
    requires AlwaysFails(route, m) && ForwardsOutside(route, qset)
    requires fromQ in qset && failQ in qset && fromQ != failQ && q in qset
    ensures var c := Count(Tier(qs, s, fromQ, failQ, route).queues, q, m);
      c == (if q == fromQ then 0
            else if q == failQ then Count(qs, failQ, m) + Count(qs, fromQ, m)
            else Count(qs, q, m))
  {
    var ms := Get(qs, fromQ);
    var ds := Route(s, route, ms).0;
    RouteFailsFor(s, route, ms, m);
    RouteForwardsOutside(s, route, ms, qset);
    PlaceSends(qs[fromQ := []], failQ, ms, ds, q);
    SentCounts(failQ, ms, ds, m, q, qset);
  }

  function TierQueues(prefix: string, t: RecordType): set<string>
  {
    {Name(prefix, t, Primary), Name(prefix, t, R1), Name(prefix, t, R2), Name(prefix, t, R3), Name(prefix, t, Failed)}
  }

  /** The copies of `m` on each tier queue. */
  datatype Counts = Counts(primary: nat, r1: nat, r2: nat, r3: nat, failed: nat)

  function CountsOn(qs: Queues, m: HarvestRecord, p: string, a: string, b: string, c: string, f: string): Counts
  {
    Counts(Count(qs, p, m), Count(qs, a, m), Count(qs, b, m), Count(qs, c, m), Count(qs, f, m))
  }

  function TierCountsOf(qs: Queues, prefix: string, t: RecordType, m: HarvestRecord): Counts
  {
    CountsOn(qs, m, Name(prefix, t, Primary), Name(prefix, t, R1), Name(prefix, t, R2), Name(prefix, t, R3),
             Name(prefix, t, Failed))
  }

  lemma ChainMovesFailures<S(!new)>(qs: Queues, s: S, p: string, a: string, b: string, c: string, f: string,
                                    route: (S, HarvestRecord) -> (S, Dest), m: HarvestRecord)
    requires AlwaysFails(route, m) && ForwardsOutside(route, {p, a, b, c, f})
    requires p != a && p != b && p != c && p != f && a != b && a != c && a != f && b != c && b != f && c != f
    ensures var k := CountsOn(qs, m, p, a, b, c, f);
      CountsOn(Chain(qs, s, p, a, b, c, f, route).queues, m, p, a, b, c, f)
      == Counts(0, 0, k.primary + k.r1, k.r2, k.failed + k.r3)
  {
    var qset := {p, a, b, c, f};
    var o1 := Tier(qs, s, c, f, route);
    TierCounts(qs, s, c, f, route, m, qset, p);
    TierCounts(qs, s, c, f, route, m, qset, a);
    TierCounts(qs, s, c, f, route, m, qset, b);
    TierCounts(qs, s, c, f, route, m, qset, c);
    TierCounts(qs, s, c, f, route, m, qset, f);
    var o2 := Tier(o1.queues, o1.state, b, c, route);
    TierCounts(o1.queues, o1.state, b, c, route, m, qset, p);
    TierCounts(o1.queues, o1.state, b, c, route, m, qset, a);
    TierCounts(o1.queues, o1.state, b, c, route, m, qset, b);
    TierCounts(o1.queues, o1.state, b, c, route, m, qset, c);
    TierCounts(o1.queues, o1.state, b, c, route, m, qset, f);
    var o3 := Tier(o2.queues, o2.state, p, a, route);
    TierCounts(o2.queues, o2.state, p, a, route, m, qset, p);
    TierCounts(o2.queues, o2.state, p, a, route, m, qset, a);
    TierCounts(o2.queues, o2.state, p, a, route, m, qset, b);
    TierCounts(o2.queues, o2.state, p, a, route, m, qset, c);
    TierCounts(o2.queues, o2.state, p, a, route, m, qset, f);
    TierCounts(o3.queues, o3.state, a, b, route, m, qset, p);
    TierCounts(o3.queues, o3.state, a, b, route, m, qset, a);
    TierCounts(o3.queues, o3.state, a, b, route, m, qset, b);
    TierCounts(o3.queues, o3.state, a, b, route, m, qset, c);
    TierCounts(o3.queues, o3.state, a, b, route, m, qset, f);
  }

  /**
   * One cycle moves the copies of an always-failing message: retry3's to fail, retry2's
   * to retry3, and primary's and retry1's both to retry2 (primary's go through retry1 in
   * the same cycle). None moves back and the fail queue only gains.
   */
  lemma CycleMovesFailures<S(!new)>(qs: Queues, s: S, prefix: string, t: RecordType,
                                    route: (S, HarvestRecord) -> (S, Dest), m: HarvestRecord)
    requires |TypeString(t)| > 0
    requires AlwaysFails(route, m) && ForwardsOutside(route, TierQueues(prefix, t))
    ensures var k := TierCountsOf(qs, prefix, t, m);
      TierCountsOf(Cycle(qs, s, prefix, t, route).queues, prefix, t, m)
      == Counts(0, 0, k.primary + k.r1, k.r2, k.failed + k.r3)
  {
    var p, a, b, c, f := Name(prefix, t, Primary), Name(prefix, t, R1), Name(prefix, t, R2), Name(prefix, t, R3),
                         Name(prefix, t, Failed);
    TierQueuesDistinct(prefix, t);
    assert TierQueues(prefix, t) == {p, a, b, c, f};
    ChainMovesFailures(qs, s, p, a, b, c, f, route, m);
    assert Cycle(qs, s, prefix, t, route) == Chain(qs, s, p, a, b, c, f, route);
    assert TierCountsOf(qs, prefix, t, m) == CountsOn(qs, m, p, a, b, c, f);
  }

  /** The five tier queues of a stage and kind are pairwise distinct. */
  lemma TierQueuesDistinct(prefix: string, t: RecordType)
    requires |TypeString(t)| > 0
    ensures var p, a, b, c, f := Name(prefix, t, Primary), Name(prefix, t, R1), Name(prefix, t, R2), Name(prefix, t, R3),
                                 Name(prefix, t, Failed);
      p != a && p != b && p != c && p != f && a != b && a != c && a != f && b != c && b != f && c != f
  {
    TierNamesDistinct(prefix, t, Primary, R1);
    TierNamesDistinct(prefix, t, Primary, R2);
    TierNamesDistinct(prefix, t, Primary, R3);
    TierNamesDistinct(prefix, t, Primary, Failed);
    TierNamesDistinct(prefix, t, R1, R2);
    TierNamesDistinct(prefix, t, R1, R3);
    TierNamesDistinct(prefix, t, R1, Failed);
    TierNamesDistinct(prefix, t, R2, R3);
    TierNamesDistinct(prefix, t, R2, Failed);
    TierNamesDistinct(prefix, t, R3, Failed);
  }

  /** Where a single message that starts on the primary queue and always fails is after `n` cycles. */
  function Journey(n: nat): Counts
  {
    if n == 0 then Counts(1, 0, 0, 0, 0)
    else if n == 1 then Counts(0, 0, 1, 0, 0)
    else if n == 2 then Counts(0, 0, 0, 1, 0)
    else Counts(0, 0, 0, 0, 1)
  }

  /**
   * A single always-failing message that starts on the primary queue is on retry2 after
   * the first cycle, on retry3 after the second and on the fail queue from the third on:
   * each cycle takes it from `Journey(n)` to `Journey(n + 1)`.
   */
  lemma FailingMessageJourney<S(!new)>(qs: Queues, s: S, prefix: string, t: RecordType,
                                       route: (S, HarvestRecord) -> (S, Dest), m: HarvestRecord, n: nat)
    requires |TypeString(t)| > 0
    requires AlwaysFails(route, m) && ForwardsOutside(route, TierQueues(prefix, t))
    requires TierCountsOf(qs, prefix, t, m) == Journey(n)
    ensures TierCountsOf(Cycle(qs, s, prefix, t, route).queues, prefix, t, m) == Journey(n + 1)
  {
    CycleMovesFailures(qs, s, prefix, t, route, m);
  }
}
