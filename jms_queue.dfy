/**
 * `OsfJmsQueue`: enqueueing onto named queues and the drain wait loop of
 * `processMessages`, with its probe-failure counter `jmsFailCount`.
 */
module JmsQueue {
  import opened HarvestRecords

  type Queues = map<string, seq<HarvestRecord>>

  /** The messages waiting on a queue; a queue never written to is empty. */
  function Get(qs: Queues, q: string): seq<HarvestRecord>
  {
    if q in qs then qs[q] else []
  }

  /** Writing a message to one queue: it is appended there and every other queue is unchanged. */
  function Append(qs: Queues, q: string, m: HarvestRecord): (r: Queues)
    ensures Get(r, q) == Get(qs, q) + [m]
    ensures forall q' :: q' != q ==> Get(r, q') == Get(qs, q')
  {
    qs[q := Get(qs, q) + [m]]
  }

  /** The message broker: every named queue and the messages waiting on it. */
  class Broker {
    var queues: Queues

    constructor (queues: Queues)
      ensures this.queues == queues
    {
      this.queues := queues;
    }
  }

  /** The result of browsing a queue: how many messages the browser enumerates, or a JMSException. */
  datatype Browse = Browsed(elements: nat) | BrowseFailed

  /** What `hasMoreMessages` does: return whether more messages wait, or rethrow. */
  datatype Probe = HasMore(more: bool) | Rethrown

  const JmsFailTolerance: int := 10

  /**
   * One `hasMoreMessages` call from fail count `failCount`: a browse answers whether it
   * enumerates any element; a failure raises the count by one and is rethrown while the
   * count is at most the tolerance, and answered as "more" beyond it.
   */
  function ProbeStep(failCount: int, b: Browse): (r: (int, Probe))
    ensures b.Browsed? ==> r == (failCount, HasMore(b.elements > 0))
    ensures b.BrowseFailed? ==> r.0 == failCount + 1
    ensures b.BrowseFailed? ==> (r.1.Rethrown? <==> failCount + 1 <= JmsFailTolerance)
    ensures b.BrowseFailed? && r.1.HasMore? ==> r.1.more
  {
    match b
    case Browsed(n) => (failCount, HasMore(n > 0))
    case BrowseFailed =>
      var c := failCount + 1;
      if c <= JmsFailTolerance then (c, Rethrown) else (c, HasMore(true))
  }

  /**
   * How the wait loop ends: the queue was seen empty, a probe failure was rethrown
   * (after which the loop pauses once more and gives up), or the given probe outcomes
   * ran out first.
   */
  datatype DrainEnd = Drained | Aborted | Undecided

  datatype DrainResult = DrainResult(end: DrainEnd, probes: nat, pausedSeconds: nat)

  /** Specification of the wait loop: how it ends, how many probes it makes, and the final fail count. */
  function Drain(failCount: int, probes: seq<Browse>): (r: (DrainEnd, nat, int))
    ensures r.1 <= |probes|
    ensures r.0 != Undecided ==> r.1 >= 1
    ensures r.0 == Undecided ==> r.1 == |probes|
    decreases |probes|
  {
    if probes == [] then (Undecided, 0, failCount)
    else
      var (c, p) := ProbeStep(failCount, probes[0]);
      match p
      case Rethrown => (Aborted, 1, c)
      case HasMore(false) => (Drained, 1, c)
      case HasMore(true) =>
        var r := Drain(c, probes[1..]);
        (r.0, r.1 + 1, r.2)
  }

  /** The number of failed browses in a sequence of probe outcomes. */
  function Failures(probes: seq<Browse>): nat
  {
    if probes == [] then 0 else (if probes[0].BrowseFailed? then 1 else 0) + Failures(probes[1..])
  }

  class OsfJmsQueue {
    const broker: Broker
    var jmsFailCount: int

    constructor (broker: Broker)
      ensures this.broker == broker && jmsFailCount == 0
    {
      this.broker := broker;
      jmsFailCount := 0;
    }

    /** `add`: append the record to the named queue only. */
    method Add(record: HarvestRecord, queue: string)
      modifies broker
      ensures broker.queues == Append(old(broker.queues), queue, record)
    {
      broker.queues := Append(broker.queues, queue, record);
    }

    /** `hasMoreMessages`, given the outcome of browsing the queue. */
    method HasMoreMessages(browse: Browse) returns (p: Probe)
      modifies this`jmsFailCount
      ensures (jmsFailCount, p) == ProbeStep(old(jmsFailCount), browse)
    {
      match browse
      case Browsed(n) =>
        p := HasMore(n > 0);
      case BrowseFailed =>
        jmsFailCount := jmsFailCount + 1;
        if jmsFailCount <= JmsFailTolerance {
          p := Rethrown;
        } else {
          p := HasMore(true);
        }
    }

    /**
     * `processMessages(queue, consumer)`: every message waiting on the queue is delivered
     * (and acknowledged) for the caller's consumer, and the wait loop polls the queue,
     * pausing two seconds before each probe, until a probe answers "empty" or rethrows;
     * after a rethrow it pauses ten seconds more and returns.
     */
    method ProcessMessages(queue: string, probes: seq<Browse>) returns (delivered: seq<HarvestRecord>, result: DrainResult)
      modifies this, broker
      ensures delivered == Get(old(broker.queues), queue)
      ensures broker.queues == old(broker.queues)[queue := []]
      ensures (result.end, result.probes, jmsFailCount) == Drain(old(jmsFailCount), probes)
      ensures result.pausedSeconds == 2 * result.probes + (if result.end == Aborted then 10 else 0)
    {
      delivered := Get(broker.queues, queue);
      broker.queues := broker.queues[queue := []];
      ghost var spec := Drain(jmsFailCount, probes);
      var i, paused := 0, 0;
      var end := Undecided;
      var more := true;
      while more && i < |probes|
        invariant 0 <= i <= |probes|
        invariant paused == 2 * i + (if end == Aborted then 10 else 0)
        invariant more ==> end == Undecided
        invariant more ==> var r := Drain(jmsFailCount, probes[i..]); spec == (r.0, r.1 + i, r.2)
        invariant !more ==> spec == (end, i, jmsFailCount) && end != Undecided
        modifies this
        decreases |probes| - i, more
      {
        paused := paused + 2;
        var p := HasMoreMessages(probes[i]);
        assert probes[i..][1..] == probes[i + 1..];
        i := i + 1;
        match p
        case Rethrown =>
          paused := paused + 10;
          end := Aborted;
          more := false;
        case HasMore(m) =>
          if !m {
            end := Drained;
            more := false;
          }
      }
      result := DrainResult(end, i, paused);
    }
  }

  /** A queue that answers "more" for `n` probes and then "empty" is left after exactly `n + 1` probes. */
  lemma {:induction false} DrainAfterNonEmptyThenEmpty(failCount: int, probes: seq<Browse>, n: nat)
    requires n < |probes|
    requires forall j :: 0 <= j < n ==> probes[j].Browsed? && probes[j].elements > 0
    requires probes[n] == Browsed(0)
    ensures Drain(failCount, probes) == (Drained, n + 1, failCount)
  {
    if n > 0 {
      DrainAfterNonEmptyThenEmpty(failCount, probes[1..], n - 1);
    }
  }

  /** The fail count only grows, by one per failed probe the loop made. */
  lemma {:induction false} DrainCountsFailures(failCount: int, probes: seq<Browse>)
    ensures var r := Drain(failCount, probes); r.2 == failCount + Failures(probes[..r.1])
    decreases |probes|
  {
    if probes != [] {
      var (c, p) := ProbeStep(failCount, probes[0]);
      if p == HasMore(true) {
        DrainCountsFailures(c, probes[1..]);
        var r := Drain(c, probes[1..]);
        assert probes[..r.1 + 1][1..] == probes[1..][..r.1];
      } else {
        assert probes[..1][1..] == [];
      }
    }
  }

  /** Once the count has passed the tolerance, no later failure ends the loop early. */
  lemma {:induction false} PastToleranceNeverAborts(failCount: int, probes: seq<Browse>)
    requires failCount >= JmsFailTolerance
    ensures Drain(failCount, probes).0 != Aborted
    decreases |probes|
  {
    if probes != [] {
      var (c, p) := ProbeStep(failCount, probes[0]);
      if p == HasMore(true) {
        PastToleranceNeverAborts(c, probes[1..]);
      }
    }
  }

  /** Within the tolerance, a failed probe ends the loop at once. */
  lemma FailureWithinToleranceAborts(failCount: int, probes: seq<Browse>)
    requires |probes| > 0 && probes[0].BrowseFailed? && failCount < JmsFailTolerance
    ensures Drain(failCount, probes) == (Aborted, 1, failCount + 1)
  {
  }
}
