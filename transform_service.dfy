/**
 * `OsfTransformService`: each message on a transform queue names a record by its body
 * (the id's bytes) and its content type (the kind); it is turned into Turtle and moved
 * to the ingest queue, or moved unchanged to the tier's fail queue.
 */
module Transform {
  import opened Wrappers
  import opened RecordTypes
  import opened Utf8
  import opened LightRecord
  import opened HarvestRecords
  import opened JmsQueue
  import opened TransformerFactory
  import opened Tiers
  import QueueName

  /**
   * Fetching a record of a kind, building its DiSCO model with that kind's transformer,
   * and writing the model as Turtle: the bytes, or None for an exception on the way.
   */
  type Renderer = (TransformerKind, string) -> Option<seq<byte>>

  const TurtleContentType: string := "text/turtle"

  /** The transformer `transformRecord`'s own switch picks for a kind. */
  function TransformerFor(t: RecordType): TransformerKind
  {
    match t
    case OsfNode => NodeTransformer
    case OsfRegistration => RegistrationTransformer
    case OsfUser => UserTransformer
    case OsfUnlisted(_) => NodeTransformer
  }

  /** The service's switch picks the transformer the factory would. */
  lemma TransformerForIsFactory(t: RecordType)
    ensures TransformerFor(t) == CreateDiscoBuilder(t)
  {
  }

  /**
   * `transformRecord(identifier, type)`: null (`Ok(None)`) for an empty identifier; an
   * exception for a type string that names no kind (the switch on a null kind) or a
   * failure to fetch or transform; otherwise the Turtle bytes.
   */
  function TransformRecord(rdf: Renderer, identifier: string, typeString: string): (r: Result<Option<seq<byte>>>)
    ensures r == Ok(None) <==> |identifier| == 0
    ensures |identifier| > 0 && GetType(typeString).None? ==> r.Err?
    ensures |identifier| > 0 && GetType(typeString).Some? ==>
      var out := rdf(CreateDiscoBuilder(GetType(typeString).value), identifier);
      (r.Ok? <==> out.Some?) && (r.Ok? ==> r.value == out)
  {
    if |identifier| > 0 then
      match GetType(typeString)
      case None => Err("no record type for " + typeString)
      case Some(t) =>
        match rdf(TransformerFor(t), identifier)
        case None => Err("transform failed")
        case Some(bytes) => Ok(Some(bytes))
    else
      Ok(None)
  }

  function IngestQueue(t: RecordType): string
  {
    QueueName.Name(QueueName.Ingest, t, QueueName.Primary)
  }

  /**
   * The consumer's decision for one message: on success the message, with the Turtle as
   * its body and "text/turtle" as its content type, goes to the ingest queue of the
   * harvest type; on any exception, including the null result for an empty id, the
   * message as received goes to the fail queue.
   */
  function TransformDest(rdf: Renderer, harvesterType: RecordType, received: HarvestRecord): (d: Dest)
    ensures !d.Consumed?
    ensures d.Forward? <==> (TransformRecord(rdf, Decode(received.body), received.recordInfo.contentType).Ok?
                             && |Decode(received.body)| > 0)
    ensures d.Forward? ==>
      && d.queue == IngestQueue(harvesterType)
      && Some(d.message.body) == TransformRecord(rdf, Decode(received.body), received.recordInfo.contentType).value
      && d.message.recordInfo == received.recordInfo.(contentType := TurtleContentType)
  {
    var id := Decode(received.body);
    var typeString := received.recordInfo.contentType;
    match TransformRecord(rdf, id, typeString)
    case Ok(Some(bytes)) =>
      Forward(IngestQueue(harvesterType),
              received.(body := bytes, recordInfo := received.recordInfo.(contentType := TurtleContentType)))
    case _ => ToFail
  }

  /** The transform stage keeps no state of its own between messages. */
  function Router(rdf: Renderer, harvesterType: RecordType): ((), HarvestRecord) -> ((), Dest)
  {
    (u: (), m: HarvestRecord) => (u, TransformDest(rdf, harvesterType, m))
  }

  /** A message with an empty body names the empty id and always fails. */
  lemma EmptyBodyFails(rdf: Renderer, harvesterType: RecordType, received: HarvestRecord)
    requires received.body == []
    ensures TransformDest(rdf, harvesterType, received) == ToFail
  {
  }

  /** A message whose content type names no kind fails, in every tier. */
  lemma UnknownTypeAlwaysFails(rdf: Renderer, harvesterType: RecordType, received: HarvestRecord)
    requires GetType(received.recordInfo.contentType).None?
    ensures AlwaysFails(Router(rdf, harvesterType), received)
  {
  }

  /** The transform stage only forwards to an ingest queue, never to one of its own tiers. */
  lemma ForwardsToIngestOnly(rdf: Renderer, harvesterType: RecordType)
    ensures ForwardsOutside(Router(rdf, harvesterType), TierQueues(QueueName.Transform, harvesterType))
  {
    forall u: (), x: HarvestRecord | Router(rdf, harvesterType)(u, x).1.Forward?
      ensures Router(rdf, harvesterType)(u, x).1.queue !in TierQueues(QueueName.Transform, harvesterType)
    {
      QueueName.StagesDistinct(harvesterType, QueueName.Primary, QueueName.Primary);
      QueueName.StagesDistinct(harvesterType, QueueName.R1, QueueName.Primary);
      QueueName.StagesDistinct(harvesterType, QueueName.R2, QueueName.Primary);
      QueueName.StagesDistinct(harvesterType, QueueName.R3, QueueName.Primary);
      QueueName.StagesDistinct(harvesterType, QueueName.Failed, QueueName.Primary);
    }
  }

  /**
   * The round trip with the identify stage: a message built from a light record of a
   * named kind carries that record's id and kind, so it is transformed by that kind's
   * transformer for that id, and fails exactly when the id is empty or the transformer fails.
   */
  lemma IdentifiedRecordIsTransformed(rdf: Renderer, harvesterType: RecordType, dto: LightRecordValue)
    requires NewHarvestableRecord(dto).Ok? && !dto.recordType.OsfUnlisted?
    ensures var d := TransformDest(rdf, harvesterType, NewHarvestableRecord(dto).value);
      && (d.Forward? <==> |dto.id| > 0 && rdf(CreateDiscoBuilder(dto.recordType), dto.id).Some?)
      && (d.Forward? ==> Some(d.message.body) == rdf(CreateDiscoBuilder(dto.recordType), dto.id))
  {
    GetTypeOfTypeString(dto.recordType);
  }

  /** Every message of a transform tier reaches exactly one of the ingest queue and the fail queue. */
  lemma TransformTierAccounts(rdf: Renderer, harvesterType: RecordType, qs: Queues, fromQueue: string, failQueue: string)
    requires failQueue in TierQueues(QueueName.Transform, harvesterType)
    ensures var ms := Get(qs, fromQueue);
            var ds := Route((), Router(rdf, harvesterType), ms).0;
      Tier(qs, (), fromQueue, failQueue, Router(rdf, harvesterType)).passed + |Sent(failQueue, ms, ds, failQueue)| == |ms|
  {
    var ms := Get(qs, fromQueue);
    var ds := Route((), Router(rdf, harvesterType), ms).0;
    ForwardsToIngestOnly(rdf, harvesterType);
    RouteForwardsOutside((), Router(rdf, harvesterType), ms, TierQueues(QueueName.Transform, harvesterType));
    PassedPlusFailed(failQueue, ms, ds);
  }

  class OsfTransformService {
    var numTransformed: int
    const jmsQueue: OsfJmsQueue

    constructor (jmsQueue: OsfJmsQueue)
      ensures numTransformed == 0 && this.jmsQueue == jmsQueue
    {
      numTransformed := 0;
      this.jmsQueue := jmsQueue;
    }

    /** The consumer of `transformRecords`, applied to one received message. */
    method Consume(received: HarvestRecord, failQueue: string, harvesterType: RecordType, rdf: Renderer)
      modifies this`numTransformed, jmsQueue.broker
      ensures var d := TransformDest(rdf, harvesterType, received);
        && jmsQueue.broker.queues == Tiers.Place1(old(jmsQueue.broker.queues), failQueue, received, d)
        && numTransformed == old(numTransformed) + (if d.ToFail? then 0 else 1)
    {
      var id := Decode(received.body);
      var typeString := received.recordInfo.contentType;
      var rdfOut := TransformRecord(rdf, id, typeString);
      if rdfOut.Ok? && rdfOut.value.Some? {
        var transformed := received.(body := rdfOut.value.value);
        transformed := transformed.(recordInfo := transformed.recordInfo.(contentType := TurtleContentType));
        var ingestQ := QueueName.GetQueueName(Some(QueueName.Ingest), Some(TypeString(harvesterType)), None).value;
        jmsQueue.Add(transformed, ingestQ);
        numTransformed := numTransformed + 1;
      } else {
        jmsQueue.Add(received, failQueue);
      }
    }

    /**
     * `transformRecords(fromQueue, failQueue, harvesterType)`: drain `fromQueue` through
     * the consumer; the count it returns is the instance's running total.
     */
    method TransformRecords(fromQueue: string, failQueue: string, harvesterType: RecordType, rdf: Renderer,
                            probes: seq<Browse>) returns (count: int)
      modifies this, jmsQueue, jmsQueue.broker
      ensures var o := Tier(old(jmsQueue.broker.queues), (), fromQueue, failQueue, Router(rdf, harvesterType));
        && jmsQueue.broker.queues == o.queues
        && numTransformed == old(numTransformed) + o.passed
        && count == numTransformed
      ensures jmsQueue.jmsFailCount == Drain(old(jmsQueue.jmsFailCount), probes).2
    {
      ghost var route := Router(rdf, harvesterType);
      var delivered, _ := jmsQueue.ProcessMessages(fromQueue, probes);
      ghost var q0 := jmsQueue.broker.queues;
      ghost var n0 := numTransformed;
      ghost var failCount := jmsQueue.jmsFailCount;
      for i := 0 to |delivered|
        invariant jmsQueue.jmsFailCount == failCount
        invariant var r := Route((), route, delivered[..i]);
          && jmsQueue.broker.queues == Place(q0, failQueue, delivered[..i], r.0)
          && numTransformed == n0 + Passed(r.0)
      {
        RouteSnoc(q0, (), failQueue, route, delivered, i);
        Consume(delivered[i], failQueue, harvesterType, rdf);
      }
      assert delivered[..|delivered|] == delivered;
      count := numTransformed;
    }
  }
}
