/**
 * `OsfIngestService`: each message on an ingest queue carries a DiSCO as Turtle; it is
 * validated, checked against the harvest record registry and, when new or changed,
 * deposited in RMap. A failure on the way moves the message to the tier's fail queue.
 */
module Ingest {
  import opened Wrappers
  import opened Utf8
  import opened HarvestRecords
  import opened JmsQueue
  import opened Tiers

  /** What the registry knows of a record: whether its latest version is in, whether any is, and the latest DiSCO. */
  datatype RecordStatus = RecordStatus(upToDate: bool, recordExists: bool, latest: string)

  /** One row of the harvest record registry: a record and the DiSCO it was deposited as. */
  datatype Registration = Registration(info: RecordInfo, disco: string)

  /** The registry's rows and the DiSCOs deposited in RMap, in order. */
  datatype RmapState = RmapState(registered: seq<Registration>, deposited: seq<HarvestRecord>)

  /**
   * The libraries and services the consumer calls: Turtle validation of a body, the
   * registry's status lookup, fetching RMap's current RDF of a DiSCO, comparing two RDF
   * documents, and depositing a DiSCO (its new URI). None stands for an exception.
   */
  datatype IngestOracle = IngestOracle(
    valid: seq<byte> -> bool,
    status: (seq<Registration>, RecordInfo) -> Option<RecordStatus>,
    currentRdf: string -> Option<seq<byte>>,
    different: (seq<byte>, seq<byte>) -> Option<bool>,
    deposit: HarvestRecord -> Option<string>)

  datatype Decision = Fail | Skip | Deposit | Reregister(latest: string)

  /**
   * The consumer's decision tree: an invalid body or a failed status lookup fails; an
   * up-to-date record is skipped; a record new to the registry is deposited; a known one
   * is deposited when its RDF differs from RMap's current version and re-registered with
   * that version when it does not; a failed fetch or comparison fails.
   */
  function Decide(o: IngestOracle, registered: seq<Registration>, m: HarvestRecord): (d: Decision)
    ensures !o.valid(m.body) ==> d == Fail
    ensures o.valid(m.body) && o.status(registered, m.recordInfo).None? ==> d == Fail
    ensures o.valid(m.body) && o.status(registered, m.recordInfo).Some? ==>
      var st := o.status(registered, m.recordInfo).value;
      && (st.upToDate ==> d == Skip)
      && (!st.upToDate && !st.recordExists ==> d == Deposit)
      && (!st.upToDate && st.recordExists ==>
            var diff := if o.currentRdf(st.latest).Some? then o.different(o.currentRdf(st.latest).value, m.body) else None;
            && (d == Fail <==> diff.None?)
            && (d == Deposit <==> diff == Some(true))
            && (d == Reregister(st.latest) <==> diff == Some(false)))
  {
    if !o.valid(m.body) then Fail
    else
      match o.status(registered, m.recordInfo)
      case None => Fail
      case Some(status) =>
        if !status.upToDate then
          if status.recordExists then
            match o.currentRdf(status.latest)
            case None => Fail
            case Some(currRmapRdf) =>
              match o.different(currRmapRdf, m.body)
              case None => Fail
              case Some(true) => Deposit
              case Some(false) => Reregister(status.latest)
          else Deposit
        else Skip
  }

  /**
   * The consumer on one message: a deposit registers the record under its new DiSCO; a
   * failure, including a failed deposit, changes nothing but sends the message to the
   * fail queue; nothing is ever forwarded to another queue.
   */
  function IngestStep(o: IngestOracle, st: RmapState, m: HarvestRecord): (r: (RmapState, Dest))
    ensures !r.1.Forward?
    ensures r.1 == ToFail ==> r.0 == st
    ensures var d := Decide(o, st.registered, m);
      && (d == Fail ==> r.1 == ToFail)
      && (d == Skip ==> r == (st, Consumed))
      && (d.Reregister? ==> r == (st.(registered := st.registered + [Registration(m.recordInfo, d.latest)]), Consumed))
      && (d == Deposit ==>
            if o.deposit(m).Some? then
              r == (RmapState(st.registered + [Registration(m.recordInfo, o.deposit(m).value)], st.deposited + [m]), Consumed)
            else r.1 == ToFail)
  {
    match Decide(o, st.registered, m)
    case Fail => (st, ToFail)
    case Skip => (st, Consumed)
    case Reregister(latest) => (st.(registered := st.registered + [Registration(m.recordInfo, latest)]), Consumed)
    case Deposit =>
      match o.deposit(m)
      case None => (st, ToFail)
      case Some(disco) =>
        (RmapState(st.registered + [Registration(m.recordInfo, disco)], st.deposited + [m]), Consumed)
  }

  function Router(o: IngestOracle): (RmapState, HarvestRecord) -> (RmapState, Dest)
  {
    (st: RmapState, m: HarvestRecord) => IngestStep(o, st, m)
  }

  /** A message whose body does not validate fails, whatever the registry holds. */
  lemma InvalidAlwaysFails(o: IngestOracle, m: HarvestRecord)
    requires !o.valid(m.body)
    ensures AlwaysFails(Router(o), m)
  {
  }

  /** The ingest stage never forwards, so it never feeds any queue but the fail queue. */
  lemma NeverForwards(o: IngestOracle, qset: set<string>)
    ensures ForwardsOutside(Router(o), qset)
  {
  }

  /**
   * What RMap holds is sound: every deposited DiSCO validated, and every deposited
   * record is registered.
   */
  ghost predicate Sound(o: IngestOracle, st: RmapState)
  {
    forall k :: 0 <= k < |st.deposited| ==>
      && o.valid(st.deposited[k].body)
      && exists j :: 0 <= j < |st.registered| && st.registered[j].info == st.deposited[k].recordInfo
  }

  lemma StepKeepsSound(o: IngestOracle, st: RmapState, m: HarvestRecord)
    requires Sound(o, st)
    ensures Sound(o, IngestStep(o, st, m).0)
  {
    var d := Decide(o, st.registered, m);
    if d.Reregister? {
      RegisterKeepsSound(o, st, Registration(m.recordInfo, d.latest));
    } else if d == Deposit && o.deposit(m).Some? {
      DepositKeepsSound(o, st, m, o.deposit(m).value);
    }
  }

  /** Registering one more record keeps RMap sound. */
  lemma RegisterKeepsSound(o: IngestOracle, st: RmapState, r: Registration)
    requires Sound(o, st)
    ensures Sound(o, st.(registered := st.registered + [r]))
  {
    var st' := st.(registered := st.registered + [r]);
    forall k | 0 <= k < |st'.deposited|
      ensures exists j :: 0 <= j < |st'.registered| && st'.registered[j].info == st'.deposited[k].recordInfo
    {
      var j :| 0 <= j < |st.registered| && st.registered[j].info == st.deposited[k].recordInfo;
      assert st'.registered[j] == st.registered[j];
    }
  }

  /** Depositing a validated DiSCO and registering its record keeps RMap sound. */
  lemma DepositKeepsSound(o: IngestOracle, st: RmapState, m: HarvestRecord, disco: string)
    requires Sound(o, st) && o.valid(m.body)
    ensures Sound(o, RmapState(st.registered + [Registration(m.recordInfo, disco)], st.deposited + [m]))
  {
    var st' := RmapState(st.registered + [Registration(m.recordInfo, disco)], st.deposited + [m]);
    forall k | 0 <= k < |st'.deposited|
      ensures o.valid(st'.deposited[k].body)
      ensures exists j :: 0 <= j < |st'.registered| && st'.registered[j].info == st'.deposited[k].recordInfo
    {
      if k < |st.deposited| {
        assert st'.deposited[k] == st.deposited[k];
        var j :| 0 <= j < |st.registered| && st.registered[j].info == st.deposited[k].recordInfo;
        assert st'.registered[j] == st.registered[j];
      } else {
        assert st'.deposited[k] == m;
        assert st'.registered[|st.registered|].info == m.recordInfo;
      }
    }
  }

  /** A whole ingest tier keeps RMap sound. */
  lemma {:induction false} RouteKeepsSound(o: IngestOracle, st: RmapState, ms: seq<HarvestRecord>)
    requires Sound(o, st)
    ensures Sound(o, Route(st, Router(o), ms).1)
    decreases |ms|
  {
    if ms != [] {
      RouteKeepsSound(o, st, ms[..|ms| - 1]);
      StepKeepsSound(o, Route(st, Router(o), ms[..|ms| - 1]).1, ms[|ms| - 1]);
    }
  }

  /** Every message of an ingest tier is either processed (counted) or sent to the fail queue. */
  lemma IngestTierAccounts(o: IngestOracle, qs: Queues, st: RmapState, fromQueue: string, failQueue: string)
    ensures var ms := Get(qs, fromQueue);
            var ds := Route(st, Router(o), ms).0;
      Tier(qs, st, fromQueue, failQueue, Router(o)).passed + |Sent(failQueue, ms, ds, failQueue)| == |ms|
  {
    var ms := Get(qs, fromQueue);
    NeverForwards(o, {failQueue});
    RouteForwardsOutside(st, Router(o), ms, {failQueue});
    PassedPlusFailed(failQueue, ms, Route(st, Router(o), ms).0);
  }

  // ---- state ----------------------------------------------------------------

  /** The harvest record registry, over the service's data source. */
  class HarvestRecordRegistry {
    var registered: seq<Registration>

    constructor (registered: seq<Registration>)
      ensures this.registered == registered
    {
      this.registered := registered;
    }

    /**
     * The registry's status of a record, over the rows registered so far: a failed
     * lookup fails every message about that record, and an up-to-date status skips
     * every valid one.
     */
    function GetStatus(o: IngestOracle, info: RecordInfo): (r: Option<RecordStatus>)
      reads this
      ensures r.None? ==> forall m: HarvestRecord :: m.recordInfo == info ==> Decide(o, registered, m) == Fail
      ensures r.Some? && r.value.upToDate ==>
        forall m: HarvestRecord :: m.recordInfo == info && o.valid(m.body) ==> Decide(o, registered, m) == Skip
    {
      o.status(registered, info)
    }

    method Register(info: RecordInfo, disco: string)
      modifies this
      ensures registered == old(registered) + [Registration(info, disco)]
    {
      registered := registered + [Registration(info, disco)];
    }
  }

  /** RMap's DiSCO store, as far as deposits go. */
  class RmapStore {
    var deposited: seq<HarvestRecord>

    constructor (deposited: seq<HarvestRecord>)
      ensures this.deposited == deposited
    {
      this.deposited := deposited;
    }
  }

  /** `DiscoDepositConsumer`: deposits a record's DiSCO and registers the record under it. */
  class DiscoDepositer {
    const registry: HarvestRecordRegistry
    const rmap: RmapStore

    constructor (registry: HarvestRecordRegistry, rmap: RmapStore)
      ensures this.registry == registry && this.rmap == rmap
    {
      this.registry := registry;
      this.rmap := rmap;
    }

    method Accept(o: IngestOracle, received: HarvestRecord) returns (ok: bool)
      modifies registry, rmap
      ensures ok <==> o.deposit(received).Some?
      ensures ok ==> (registry.registered == old(registry.registered) + [Registration(received.recordInfo, o.deposit(received).value)]
                      && rmap.deposited == old(rmap.deposited) + [received])
      ensures !ok ==> (registry.registered == old(registry.registered) && rmap.deposited == old(rmap.deposited))
    {
      var disco := o.deposit(received);
      if disco.None? {
        return false;
      }
      rmap.deposited := rmap.deposited + [received];
      registry.Register(received.recordInfo, disco.value);
      ok := true;
    }
  }

  class OsfIngestService {
    const jmsQueue: OsfJmsQueue
    var numProcessed: int
    const registry: HarvestRecordRegistry
    const rmap: RmapStore

    constructor (jmsQueue: OsfJmsQueue, registry: HarvestRecordRegistry, rmap: RmapStore)
      ensures this.jmsQueue == jmsQueue && this.registry == registry && this.rmap == rmap && numProcessed == 0
    {
      this.jmsQueue := jmsQueue;
      this.registry := registry;
      this.rmap := rmap;
      numProcessed := 0;
    }

    function Rmap(): RmapState
      reads registry, rmap
    {
      RmapState(registry.registered, rmap.deposited)
    }

    /** The consumer of `ingestRecords`, applied to one received message. */
    method Consume(discoDepositer: DiscoDepositer, received: HarvestRecord, failQueue: string, o: IngestOracle)
      requires discoDepositer.registry == registry && discoDepositer.rmap == rmap
      modifies this`numProcessed, jmsQueue.broker, registry, rmap
      ensures var r := IngestStep(o, old(Rmap()), received);
        && Rmap() == r.0
        && jmsQueue.broker.queues == Tiers.Place1(old(jmsQueue.broker.queues), failQueue, received, r.1)
        && numProcessed == old(numProcessed) + (if r.1.ToFail? then 0 else 1)
    {
      var failed := false;
      if !o.valid(received.body) {
        failed := true;
      } else {
        var status := registry.GetStatus(o, received.recordInfo);
        if status.None? {
          failed := true;
        } else if !status.value.upToDate {
          if status.value.recordExists {
            var currRmapRdf := o.currentRdf(status.value.latest);
            var diff := if currRmapRdf.Some? then o.different(currRmapRdf.value, received.body) else None;
            if diff.None? {
              failed := true;
            } else if diff.value {
              var ok := discoDepositer.Accept(o, received);
              failed := !ok;
            } else {
              registry.Register(received.recordInfo, status.value.latest);
            }
          } else {
            var ok := discoDepositer.Accept(o, received);
            failed := !ok;
          }
        }
      }
      if failed {
        jmsQueue.Add(received, failQueue);
      } else {
        numProcessed := numProcessed + 1;
      }
    }

    /**
     * `ingestRecords(fromQueue, failQueue)`: drain `fromQueue` through the consumer; the
     * count it returns is the instance's running total.
     */
    method IngestRecords(fromQueue: string, failQueue: string, o: IngestOracle, probes: seq<Browse>)
      returns (count: int)
      modifies this, jmsQueue, jmsQueue.broker, registry, rmap
      ensures var out := Tier(old(jmsQueue.broker.queues), old(Rmap()), fromQueue, failQueue, Router(o));
        && jmsQueue.broker.queues == out.queues
        && Rmap() == out.state
        && numProcessed == old(numProcessed) + out.passed
        && count == numProcessed
      ensures jmsQueue.jmsFailCount == Drain(old(jmsQueue.jmsFailCount), probes).2
    {
      var discoDepositer := new DiscoDepositer(registry, rmap);
      ghost var route := Router(o);
      ghost var s0 := Rmap();
      var delivered, _ := jmsQueue.ProcessMessages(fromQueue, probes);
      ghost var q0 := jmsQueue.broker.queues;
      ghost var n0 := numProcessed;
      ghost var failCount := jmsQueue.jmsFailCount;
      for i := 0 to |delivered|
        invariant jmsQueue.jmsFailCount == failCount
        invariant var r := Route(s0, route, delivered[..i]);
          && jmsQueue.broker.queues == Place(q0, failQueue, delivered[..i], r.0)
          && Rmap() == r.1
          && numProcessed == n0 + Passed(r.0)
      {
        RouteSnoc(q0, s0, failQueue, route, delivered, i);
        Consume(discoDepositer, delivered[i], failQueue, o);
      }
      assert delivered[..|delivered|] == delivered;
      count := numProcessed;
    }
  }
}
