/**
 * `OsfIdentifyService`: choosing the harvest window, walking the records the OSF
 * iterator yields (newest first), promoting nodes and registrations to their highest
 * accessible parent, dropping repeated ids and enqueueing the rest for transform.
 */
module Identify {
  import opened Wrappers
  import opened RecordTypes
  import opened LoaderUtils
  import opened LightRecord
  import opened HarvestRecords
  import opened JmsQueue
  import QueueName

  const DateModifiedFilter: string := "filter[date_modified]"
  const DateModifiedFromFilter: string := "filter[date_modified][gte]"
  const DateModifiedToFilter: string := "filter[date_modified][lte]"
  const DateCreatedFilter: string := "filter[date_created]"
  const DateCreatedFromFilter: string := "filter[date_created][gte]"
  const DateCreatedToFilter: string := "filter[date_created][lte]"
  const DateRegisteredFilter: string := "filter[date_registered]"
  const DateRegisteredFromFilter: string := "filter[date_registered][gte]"
  const DateRegisteredToFilter: string := "filter[date_registered][lte]"
  const PublicFilter: string := "filter[public]"
  const PublicFilterDefaultValue: string := "true"

  type Params = map<string, string>

  /** The nine query keys that bound a date field, bare or as a lower or upper bound. */
  const DateFilterKeys: set<string> := {
    DateModifiedFilter, DateModifiedFromFilter, DateModifiedToFilter,
    DateCreatedFilter, DateCreatedFromFilter, DateCreatedToFilter,
    DateRegisteredFilter, DateRegisteredFromFilter, DateRegisteredToFilter}

  /** `containsDateFilter`. */
  function ContainsDateFilter(params: Params): (r: bool)
    ensures r <==> exists k :: k in DateFilterKeys && k in params
  {
    var found :=
      DateModifiedFilter in params || DateModifiedFromFilter in params || DateModifiedToFilter in params
      || DateCreatedFilter in params || DateCreatedFromFilter in params || DateCreatedToFilter in params
      || DateRegisteredFilter in params || DateRegisteredFromFilter in params || DateRegisteredToFilter in params;
    assert DateModifiedFilter in DateFilterKeys && DateModifiedFromFilter in DateFilterKeys
      && DateModifiedToFilter in DateFilterKeys && DateCreatedFilter in DateFilterKeys
      && DateCreatedFromFilter in DateFilterKeys && DateCreatedToFilter in DateFilterKeys
      && DateRegisteredFilter in DateFilterKeys && DateRegisteredFromFilter in DateFilterKeys
      && DateRegisteredToFilter in DateFilterKeys;
    found
  }

  // ---- the harvest window ---------------------------------------------------

  /**
   * What `identifyNewRecords` decides before it iterates: the query parameters, whether
   * records are filtered by run date, the last run date used for that, and the run date
   * it records in the run registry, if any. `registryLast` is what the registry holds
   * for "osf.<type>", and `now` the clock when the method runs.
   */
  datatype Window = Window(params: Params, filterByRunDate: bool, lastRunDate: Option<Instant>, registryWrite: Option<Instant>)

  function HarvestName(t: RecordType): string { "osf." + TypeString(t) }

  function DefaultWindow(params: Params, t: RecordType, registryLast: Option<Instant>, currRunDate: Instant, now: Instant)
    : (w: Window)
    // the public filter: added only when absent, and never for users
    ensures PublicFilter in params ==> PublicFilter in w.params && w.params[PublicFilter] == params[PublicFilter]
    ensures PublicFilter !in params ==> (PublicFilter in w.params <==> t != OsfUser)
    ensures PublicFilter !in params && t != OsfUser ==> w.params[PublicFilter] == PublicFilterDefaultValue
    // an explicit date filter switches the default windowing off entirely
    ensures ContainsDateFilter(params) ==>
      && !w.filterByRunDate && w.lastRunDate.None? && w.registryWrite.None?
      && w.params == (if PublicFilter !in params && t != OsfUser then params[PublicFilter := PublicFilterDefaultValue] else params)
    // otherwise the run date is recorded and records are filtered by it
    ensures !ContainsDateFilter(params) ==> w.filterByRunDate && w.registryWrite == Some(TruncateToSecond(currRunDate))
    ensures !ContainsDateFilter(params) && t != OsfUser ==>
      && w.lastRunDate == registryLast
      && DateModifiedFromFilter in w.params
      && w.params[DateModifiedFromFilter] ==
           (if registryLast.Some? then ConvertToOsfDateParam(registryLast.value) else PreviousDayAsString(currRunDate))
    ensures !ContainsDateFilter(params) && t == OsfUser ==>
      && DateModifiedFromFilter !in w.params
      && w.lastRunDate == (if registryLast.Some? then registryLast else Some(now - 2 * DayMillis))
    // no other parameter is touched
    ensures forall k :: k != PublicFilter && k != DateModifiedFromFilter ==>
      (k in w.params <==> k in params) && (k in params ==> w.params[k] == params[k])
  {
    var p := if PublicFilter !in params && t != OsfUser then params[PublicFilter := PublicFilterDefaultValue] else params;
    assert ContainsDateFilter(p) == ContainsDateFilter(params);
    if !ContainsDateFilter(p) then
      var startDate := if registryLast.Some? then ConvertToOsfDateParam(registryLast.value) else PreviousDayAsString(currRunDate);
      assert DateModifiedFromFilter !in params;
      if t != OsfUser then
        Window(p[DateModifiedFromFilter := startDate], true, registryLast, Some(TruncateToSecond(currRunDate)))
      else
        var last := if registryLast.None? then Some(now - 2 * DayMillis) else registryLast;
        Window(p, true, last, Some(TruncateToSecond(currRunDate)))
    else
      Window(p, false, None, None)
  }

  // ---- the record filter ----------------------------------------------------

  /** The fixed facts of one run that the per-record filter consults. */
  datatype RunDates = RunDates(filterByRunDate: bool, lastRunDate: Option<Instant>, currRunDate: Instant, now: Instant)

  /** The accept test of `addAllRecords`, with Java's `&&` binding tighter than `||`. */
  function Accepts(d: RunDates, filterDate: Instant): (r: bool)
    ensures r <==> !d.filterByRunDate
                   || ((d.lastRunDate.None? || d.lastRunDate.value <= filterDate) && filterDate < d.currRunDate)
  {
    !d.filterByRunDate
    || ((d.filterByRunDate && (d.lastRunDate.None? || filterDate > d.lastRunDate.value || filterDate == d.lastRunDate.value))
        && filterDate < d.currRunDate)
  }

  /** `filterDate.isBefore(lastRunDate)` on a rejected record; Joda reads a null argument as "now". */
  function StopsIteration(d: RunDates, filterDate: Instant): bool
  {
    filterDate < (if d.lastRunDate.Some? then d.lastRunDate.value else d.now)
  }

  /**
   * With no last run date, a record modified after the run started but before it is
   * read is rejected and ends the iteration.
   */
  lemma RecentRecordStopsWithoutLastRunDate(d: RunDates, filterDate: Instant)
    requires d.filterByRunDate && d.lastRunDate.None? && d.currRunDate <= filterDate < d.now
    ensures !Accepts(d, filterDate) && StopsIteration(d, filterDate)
  {
  }

  // ---- parent promotion -----------------------------------------------------

  /** `getLightNode` / `getLightRegistration`: the record's parent link, or a failure. */
  datatype LightFetch = LightNode(parent: Option<string>) | FetchFailed

  /** The response code of an unauthenticated GET of a URL, or a failure to connect. */
  datatype UrlStatus = Status(code: int) | ConnectFailed

  /** The OSF API as the promotion walk sees it. */
  datatype OsfApi = OsfApi(lightNode: string -> LightFetch, lightRegistration: string -> LightFetch,
                           urlStatus: string -> UrlStatus)

  /** `urlAccessible`: a 401 means "exists but not public"; any other code means accessible. */
  function UrlAccessible(api: OsfApi, url: string): (r: Result<bool>)
    ensures r.Err? <==> api.urlStatus(url).ConnectFailed?
    ensures r.Ok? ==> (r.value <==> api.urlStatus(url).code != 401)
  {
    match api.urlStatus(url)
    case ConnectFailed => Err("could not connect")
    case Status(code) => Ok(code != 401)
  }

  function FetchLight(api: OsfApi, t: RecordType, id: string): LightFetch
  {
    if t == OsfNode then api.lightNode(id) else api.lightRegistration(id)
  }

  datatype PromoteStep = Stay | Climb(parent: string) | StepFailed

  /**
   * One pass of the promotion loop from `cur`: stay when the record has no parent, the
   * parent answers 401, or the parent's id is `cur` itself; climb to an accessible
   * parent; fail on a fetch or probe failure or a parent link whose id is null.
   */
  function StepUp(api: OsfApi, t: RecordType, cur: string): PromoteStep
  {
    match FetchLight(api, t, cur)
    case FetchFailed => StepFailed
    case LightNode(parent) =>
      if parent.None? then Stay
      else
        match UrlAccessible(api, parent.value)
        case Err(_) => StepFailed
        case Ok(accessible) =>
          if !accessible then Stay
          else
            match ExtractLastSubFolder(parent)
            case None => StepFailed
            case Some(p) => if p == cur then Stay else Climb(p)
  }

  /** The parent links form a tree: climbing strictly lowers a rank. */
  ghost predicate Ranked(api: OsfApi, rank: (RecordType, string) -> nat)
  {
    forall t, x :: StepUp(api, t, x).Climb? ==> rank(t, StepUp(api, t, x).parent) < rank(t, x)
  }

  /** The highest accessible ancestor of `id`, or the failure that stops the walk. */
  ghost function Promote(api: OsfApi, t: RecordType, id: string, rank: (RecordType, string) -> nat): Result<string>
    requires Ranked(api, rank)
    decreases rank(t, id)
  {
    match StepUp(api, t, id)
    case Stay => Ok(id)
    case StepFailed => Err("promotion failed")
    case Climb(p) => Promote(api, t, p, rank)
  }

  /** The walk ends at a fixed point: from its result there is nowhere to climb, and promoting it again returns it. */
  lemma {:induction false} PromoteFixedPoint(api: OsfApi, t: RecordType, id: string, rank: (RecordType, string) -> nat)
    requires Ranked(api, rank)
    requires Promote(api, t, id, rank).Ok?
    ensures var r := Promote(api, t, id, rank).value;
            StepUp(api, t, r) == Stay && Promote(api, t, r, rank) == Ok(r)
    decreases rank(t, id)
  {
    if StepUp(api, t, id).Climb? {
      PromoteFixedPoint(api, t, StepUp(api, t, id).parent, rank);
    }
  }

  /** No parent, or a parent that answers 401, leaves the id unchanged. */
  lemma PromoteStaysAtRoot(api: OsfApi, t: RecordType, id: string, rank: (RecordType, string) -> nat)
    requires Ranked(api, rank)
    requires FetchLight(api, t, id).LightNode?
    requires var parent := FetchLight(api, t, id).parent;
             parent.None? || api.urlStatus(parent.value) == Status(401)
    ensures Promote(api, t, id, rank) == Ok(id)
  {
  }

  // ---- the record loop ------------------------------------------------------

  /** What `iterator.next()` gives: a light record, or an exception. */
  datatype SourceItem = Record(dto: LightRecordValue) | NextFailed

  /**
   * The state of `addAllRecords` between records: the queues, the counter, the set of
   * ids enqueued so far, the same ids in the order they were enqueued, and whether the
   * loop has stopped.
   */
  datatype AddState = AddState(queues: Queues, counter: int, identifiedIds: set<string>,
                               enqueuedIds: seq<string>, stopped: bool)

  /** The id a record is enqueued under: its highest accessible parent for nodes and registrations. */
  ghost function PromotedId(api: OsfApi, rank: (RecordType, string) -> nat, dto: LightRecordValue): Result<string>
    requires Ranked(api, rank)
  {
    if dto.recordType == OsfNode || dto.recordType == OsfRegistration then Promote(api, dto.recordType, dto.id, rank)
    else Ok(dto.id)
  }

  /** Enqueue `rec` under `id`: append it, count it and remember the id. */
  function Enqueue(st: AddState, queue: string, rec: HarvestRecord, id: string): AddState
  {
    st.(queues := Append(st.queues, queue, rec), counter := st.counter + 1,
        identifiedIds := st.identifiedIds + {id}, enqueuedIds := st.enqueuedIds + [id])
  }

  /**
   * An accepted record: promote it, skip an id already seen, and enqueue the rest; a
   * failed promotion or an id that does not make a URI loses only that record.
   */
  ghost function Admit(api: OsfApi, rank: (RecordType, string) -> nat, queue: string,
                       st: AddState, dto: LightRecordValue): AddState
    requires Ranked(api, rank)
  {
    match PromotedId(api, rank, dto)
    case Err(_) => st
    case Ok(id) =>
      if id in st.identifiedIds then st
      else
        match NewHarvestableRecord(dto.(id := id))
        case Err(_) => st
        case Ok(rec) => Enqueue(st, queue, rec, id)
  }

  /** One pass of the loop; an exception on the record leaves the state as it was. */
  ghost function Step(api: OsfApi, rank: (RecordType, string) -> nat, d: RunDates, queue: string,
                      st: AddState, item: SourceItem): AddState
    requires Ranked(api, rank)
  {
    if st.stopped then st
    else
      match item
      case NextFailed => st
      case Record(dto) =>
        if Accepts(d, dto.filterDate) then Admit(api, rank, queue, st, dto)
        else if StopsIteration(d, dto.filterDate) then st.(stopped := true)
        else st
  }

  /** Specification of `addAllRecords`: the loop run over the records in order. */
  ghost function AddAll(api: OsfApi, rank: (RecordType, string) -> nat, d: RunDates, queue: string,
                        st: AddState, items: seq<SourceItem>): AddState
    requires Ranked(api, rank)
    decreases |items|
  {
    if items == [] then st
    else Step(api, rank, d, queue, AddAll(api, rank, d, queue, st, items[..|items| - 1]), items[|items| - 1])
  }

  lemma AddAllSnoc(api: OsfApi, rank: (RecordType, string) -> nat, d: RunDates, queue: string,
                   st: AddState, items: seq<SourceItem>, i: nat)
    requires Ranked(api, rank)
    requires i < |items|
    ensures AddAll(api, rank, d, queue, st, items[..i + 1])
            == Step(api, rank, d, queue, AddAll(api, rank, d, queue, st, items[..i]), items[i])
  {
    assert items[..i + 1][..i] == items[..i];
  }

  function Start(qs: Queues): AddState { AddState(qs, 0, {}, [], false) }

  /** The bookkeeping `addAllRecords` keeps consistent with the queue it writes. */
  ghost predicate Tally(st: AddState, qs: Queues, queue: string)
  {
    && st.counter == |st.enqueuedIds|
    && (forall i, j :: 0 <= i < j < |st.enqueuedIds| ==> st.enqueuedIds[i] != st.enqueuedIds[j])
    && (forall id :: id in st.identifiedIds <==> id in st.enqueuedIds)
    && |Get(st.queues, queue)| == |Get(qs, queue)| + |st.enqueuedIds|
    && Get(st.queues, queue)[..|Get(qs, queue)|] == Get(qs, queue)
    && (forall j :: 0 <= j < |st.enqueuedIds| ==>
          Get(st.queues, queue)[|Get(qs, queue)| + j].recordInfo.id == RecordUri(st.enqueuedIds[j]))
    && (forall q :: q != queue ==> Get(st.queues, q) == Get(qs, q))
  }

  lemma EnqueueKeepsTally(st: AddState, qs: Queues, queue: string, rec: HarvestRecord, id: string)
    requires Tally(st, qs, queue)
    requires id !in st.identifiedIds && rec.recordInfo.id == RecordUri(id)
    ensures Tally(Enqueue(st, queue, rec, id), qs, queue)
  {
    var st' := Enqueue(st, queue, rec, id);
    var n := |Get(qs, queue)|;
    assert Get(st'.queues, queue) == Get(st.queues, queue) + [rec];
    assert Get(st'.queues, queue)[..n] == Get(st.queues, queue)[..n];
    forall j | 0 <= j < |st'.enqueuedIds|
      ensures Get(st'.queues, queue)[n + j].recordInfo.id == RecordUri(st'.enqueuedIds[j])
    {
      if j < |st.enqueuedIds| {
        assert Get(st'.queues, queue)[n + j] == Get(st.queues, queue)[n + j];
      }
    }
  }

  lemma StepKeepsTally(api: OsfApi, rank: (RecordType, string) -> nat, d: RunDates, queue: string,
                       st: AddState, item: SourceItem, qs: Queues)
    requires Ranked(api, rank)
    requires Tally(st, qs, queue)
    ensures Tally(Step(api, rank, d, queue, st, item), qs, queue)
  {
    if !st.stopped && item.Record? && Accepts(d, item.dto.filterDate) {
      var dto := item.dto;
      var pid := PromotedId(api, rank, dto);
      if pid.Ok? && pid.value !in st.identifiedIds && NewHarvestableRecord(dto.(id := pid.value)).Ok? {
        EnqueueKeepsTally(st, qs, queue, NewHarvestableRecord(dto.(id := pid.value)).value, pid.value);
      }
    }
  }

  /**
   * Over a whole run from the start state: the counter is the number of ids enqueued,
   * no id is enqueued twice, the set of identified ids is exactly the enqueued ones, and
   * the records appended to the transform queue carry those ids in order; no other
   * queue changes.
   */
  lemma {:induction false} AddAllTally(api: OsfApi, rank: (RecordType, string) -> nat, d: RunDates, queue: string,
                                       qs: Queues, items: seq<SourceItem>)
    requires Ranked(api, rank)
    ensures Tally(AddAll(api, rank, d, queue, Start(qs), items), qs, queue)
    decreases |items|
  {
    if items != [] {
      AddAllTally(api, rank, d, queue, qs, items[..|items| - 1]);
      StepKeepsTally(api, rank, d, queue, AddAll(api, rank, d, queue, Start(qs), items[..|items| - 1]), items[|items| - 1], qs);
    } else {
      assert Get(qs, queue)[..|Get(qs, queue)|] == Get(qs, queue);
    }
  }

  /** A stopped loop stays stopped and later records change nothing. */
  lemma {:induction false} StoppedIsFinal(api: OsfApi, rank: (RecordType, string) -> nat, d: RunDates, queue: string,
                                          st: AddState, items: seq<SourceItem>, k: nat)
    requires Ranked(api, rank)
    requires k <= |items|
    requires AddAll(api, rank, d, queue, st, items[..k]).stopped
    ensures AddAll(api, rank, d, queue, st, items) == AddAll(api, rank, d, queue, st, items[..k])
    decreases |items|
  {
    if k < |items| {
      var front := items[..|items| - 1];
      assert front[..k] == items[..k];
      StoppedIsFinal(api, rank, d, queue, st, front, k);
    } else {
      assert items[..k] == items;
    }
  }

  /**
   * A rejected record older than the last run date ends the iteration: nothing after it,
   * however new, is enqueued.
   */
  lemma StopsAtOldRecord(api: OsfApi, rank: (RecordType, string) -> nat, d: RunDates, queue: string,
                         st: AddState, items: seq<SourceItem>, k: nat)
    requires Ranked(api, rank)
    requires k < |items| && items[k].Record?
    requires !Accepts(d, items[k].dto.filterDate) && StopsIteration(d, items[k].dto.filterDate)
    ensures AddAll(api, rank, d, queue, st, items) == AddAll(api, rank, d, queue, st, items[..k + 1])
  {
    assert items[..k + 1][..k] == items[..k];
    StoppedIsFinal(api, rank, d, queue, st, items, k + 1);
  }

  /** What a run registry holding `lastRun` answers for a harvest name. */
  function LastRunDate(lastRun: map<string, Instant>, name: string): (r: Option<Instant>)
    ensures r.Some? <==> name in lastRun
    ensures r.Some? ==> r.value == lastRun[name]
  {
    if name in lastRun then Some(lastRun[name]) else None
  }

  /**
   * Two default-windowed runs of one type in a row, the second reading the registry the
   * first wrote: the second starts from the first's run date truncated to the second,
   * so every filter date that the first run's window admits from its last run date on
   * and that is older than the second's run date passes the accept test of one of them,
   * and the dates of the truncated second before the first run date pass both. This is
   * about the accept test only: `FirstRunCanLoseRecord` shows a record that passes the
   * first run's test and that neither loop takes.
   */
  lemma ConsecutiveWindowsCover(params1: Params, params2: Params, t: RecordType, lastRun: map<string, Instant>,
                                curr1: Instant, now1: Instant, curr2: Instant, now2: Instant, filterDate: Instant)
    requires !ContainsDateFilter(params1) && !ContainsDateFilter(params2)
    ensures var w1 := DefaultWindow(params1, t, LastRunDate(lastRun, HarvestName(t)), curr1, now1);
      var written := lastRun[HarvestName(t) := w1.registryWrite.value];
      var w2 := DefaultWindow(params2, t, LastRunDate(written, HarvestName(t)), curr2, now2);
      var d1 := RunDates(w1.filterByRunDate, w1.lastRunDate, curr1, now1);
      var d2 := RunDates(w2.filterByRunDate, w2.lastRunDate, curr2, now2);
      && w2.lastRunDate == Some(TruncateToSecond(curr1))
      && ((d1.lastRunDate.None? || d1.lastRunDate.value <= filterDate) && filterDate < curr2
          ==> Accepts(d1, filterDate) || Accepts(d2, filterDate))
      && ((d1.lastRunDate.None? || d1.lastRunDate.value <= filterDate)
          && TruncateToSecond(curr1) <= filterDate < curr1 && filterDate < curr2
          ==> Accepts(d1, filterDate) && Accepts(d2, filterDate))
  {
    var w1 := DefaultWindow(params1, t, LastRunDate(lastRun, HarvestName(t)), curr1, now1);
    assert w1.registryWrite == Some(TruncateToSecond(curr1));
    var written := lastRun[HarvestName(t) := w1.registryWrite.value];
    assert LastRunDate(written, HarvestName(t)) == Some(TruncateToSecond(curr1));
  }

  /**
   * On a run with no last run date, a record modified after the run started ends the
   * loop, so an older record behind it that the run's test accepts is not enqueued; the
   * next run starts from this run's date and rejects that record too.
   */
  lemma FirstRunCanLoseRecord(api: OsfApi, rank: (RecordType, string) -> nat, queue: string, qs: Queues,
                              params1: Params, params2: Params, t: RecordType, lastRun: map<string, Instant>,
                              curr1: Instant, now1: Instant, curr2: Instant, now2: Instant,
                              dto1: LightRecordValue, dto2: LightRecordValue)
    requires Ranked(api, rank)
    requires !ContainsDateFilter(params1) && !ContainsDateFilter(params2)
    requires t != OsfUser && HarvestName(t) !in lastRun
    requires curr1 <= dto1.filterDate < now1 && dto2.filterDate < TruncateToSecond(curr1)
    ensures var w1 := DefaultWindow(params1, t, LastRunDate(lastRun, HarvestName(t)), curr1, now1);
      var written := lastRun[HarvestName(t) := w1.registryWrite.value];
      var w2 := DefaultWindow(params2, t, LastRunDate(written, HarvestName(t)), curr2, now2);
      var d1 := RunDates(w1.filterByRunDate, w1.lastRunDate, curr1, now1);
      var d2 := RunDates(w2.filterByRunDate, w2.lastRunDate, curr2, now2);
      && Accepts(d1, dto2.filterDate)
      && AddAll(api, rank, d1, queue, Start(qs), [Record(dto1), Record(dto2)]) == Start(qs).(stopped := true)
      && !Accepts(d2, dto2.filterDate)
  {
    var w1 := DefaultWindow(params1, t, LastRunDate(lastRun, HarvestName(t)), curr1, now1);
    assert w1.lastRunDate.None? && w1.filterByRunDate;
    StopsAtRecentRecord(api, rank, RunDates(w1.filterByRunDate, w1.lastRunDate, curr1, now1), queue, qs, dto1, dto2);
    ConsecutiveWindowsCover(params1, params2, t, lastRun, curr1, now1, curr2, now2, dto2.filterDate);
  }

  /** With no last run date, a first record newer than the run start stops the loop before the second. */
  lemma StopsAtRecentRecord(api: OsfApi, rank: (RecordType, string) -> nat, d: RunDates, queue: string, qs: Queues,
                            dto1: LightRecordValue, dto2: LightRecordValue)
    requires Ranked(api, rank)
    requires d.filterByRunDate && d.lastRunDate.None? && d.currRunDate <= dto1.filterDate < d.now
    ensures AddAll(api, rank, d, queue, Start(qs), [Record(dto1), Record(dto2)]) == Start(qs).(stopped := true)
  {
    var items := [Record(dto1), Record(dto2)];
    assert items[..1] == [Record(dto1)] && items[..1][..0] == [];
    RecentRecordStopsWithoutLastRunDate(d, dto1.filterDate);
    StopsAtOldRecord(api, rank, d, queue, Start(qs), items, 0);
  }

  // ---- state ----------------------------------------------------------------

  /** The harvest run registry: the last run date recorded under each harvest name. */
  class RunRegistry {
    var lastRun: map<string, Instant>

    constructor (lastRun: map<string, Instant>)
      ensures this.lastRun == lastRun
    {
      this.lastRun := lastRun;
    }

    /** `getLastHarvestDate`: the date recorded under the name, or none before the first run. */
    function GetLastRunDate(name: string): (r: Option<Instant>)
      reads this
      ensures r.Some? <==> name in lastRun
      ensures r.Some? ==> r.value == lastRun[name]
    {
      LastRunDate(lastRun, name)
    }

    method AddRunDate(name: string, date: Instant)
      modifies this
      ensures lastRun == old(lastRun)[name := date]
    {
      lastRun := lastRun[name := date];
    }
  }

  class OsfIdentifyService {
    const jmsQueue: OsfJmsQueue
    const registry: RunRegistry
    var harvestType: RecordType
    var params: Params
    /** The run date, fixed when the service is created. */
    const currRunDate: Instant
    var lastRunDate: Option<Instant>
    var filterByRunDate: bool

    constructor (t: RecordType, params: Params, currRunDate: Instant, jmsQueue: OsfJmsQueue, registry: RunRegistry)
      ensures harvestType == t && this.params == params && this.currRunDate == currRunDate
      ensures this.jmsQueue == jmsQueue && this.registry == registry
      ensures lastRunDate.None? && !filterByRunDate
    {
      harvestType := t;
      this.params := params;
      this.currRunDate := currRunDate;
      this.jmsQueue := jmsQueue;
      this.registry := registry;
      lastRunDate := None;
      filterByRunDate := false;
    }

    function Dates(now: Instant): RunDates
      reads this
    {
      RunDates(filterByRunDate, lastRunDate, currRunDate, now)
    }

    /**
     * `identifyNewRecords`: settle the window, then enqueue the records the iterator
     * yields (`source`) onto "rmap.osf.transform.<type>".
     */
    method IdentifyNewRecords(source: seq<SourceItem>, api: OsfApi, ghost rank: (RecordType, string) -> nat, now: Instant)
      returns (numIdentified: int)
      requires Ranked(api, rank)
      modifies this, registry, jmsQueue.broker
      ensures var w := DefaultWindow(old(params), old(harvestType), old(registry.GetLastRunDate(HarvestName(harvestType))),
                                     currRunDate, now);
        && params == w.params && filterByRunDate == (old(filterByRunDate) || w.filterByRunDate)
        && lastRunDate == (if w.filterByRunDate then w.lastRunDate else old(lastRunDate))
        && registry.lastRun == (if w.registryWrite.Some? then old(registry.lastRun)[HarvestName(harvestType) := w.registryWrite.value]
                                else old(registry.lastRun))
      ensures harvestType == old(harvestType)
      ensures var st := AddAll(api, rank, Dates(now), QueueName.Name(QueueName.Transform, harvestType, QueueName.Primary),
                               Start(old(jmsQueue.broker.queues)), source);
        jmsQueue.broker.queues == st.queues && numIdentified == st.counter
    {
      SettleWindow(now);
      var queue := QueueName.GetQueueName(Some(QueueName.Transform), Some(TypeString(harvestType)), None).value;
      numIdentified := AddAllRecords(source, queue, api, rank, now);
    }

    /** The first part of `identifyNewRecords`: the query parameters and the date window. */
    method SettleWindow(now: Instant)
      modifies this`params, this`filterByRunDate, this`lastRunDate, registry
      ensures var w := DefaultWindow(old(params), harvestType, old(registry.GetLastRunDate(HarvestName(harvestType))),
                                     currRunDate, now);
        && params == w.params && filterByRunDate == (old(filterByRunDate) || w.filterByRunDate)
        && lastRunDate == (if w.filterByRunDate then w.lastRunDate else old(lastRunDate))
        && registry.lastRun == (if w.registryWrite.Some? then old(registry.lastRun)[HarvestName(harvestType) := w.registryWrite.value]
                                else old(registry.lastRun))
    {
      var harvestName := "osf." + TypeString(harvestType);
      ghost var registryLast := registry.GetLastRunDate(harvestName);
      ghost var w := DefaultWindow(params, harvestType, registryLast, currRunDate, now);
      ghost var params0 := params;
      if PublicFilter !in params && harvestType != OsfUser {
        params := params[PublicFilter := PublicFilterDefaultValue];
      }
      assert ContainsDateFilter(params) == ContainsDateFilter(params0);
      if !ContainsDateFilter(params) {
        filterByRunDate := true;
        lastRunDate := registry.GetLastRunDate(harvestName);
        var startDate;
        if lastRunDate.Some? {
          startDate := ConvertToOsfDateParam(lastRunDate.value);
        } else {
          startDate := PreviousDayAsString(currRunDate);
        }
        if harvestType != OsfUser {
          assert w == Window(params[DateModifiedFromFilter := startDate], true, registryLast,
                             Some(TruncateToSecond(currRunDate)));
          params := params[DateModifiedFromFilter := startDate];
        } else {
          if lastRunDate.None? {
            lastRunDate := Some(now - 2 * DayMillis);
          }
          assert w == Window(params, true, lastRunDate, Some(TruncateToSecond(currRunDate)));
        }
        registry.AddRunDate(harvestName, TruncateToSecond(currRunDate));
      } else {
        assert w == Window(params, false, None, None);
      }
    }

    /** `addAllRecords`: the loop over the iterator's records. */
    method AddAllRecords(source: seq<SourceItem>, queue: string, api: OsfApi, ghost rank: (RecordType, string) -> nat,
                         now: Instant) returns (counter: int)
      requires Ranked(api, rank)
      modifies jmsQueue.broker
      ensures var st := AddAll(api, rank, Dates(now), queue, Start(old(jmsQueue.broker.queues)), source);
        jmsQueue.broker.queues == st.queues && counter == st.counter
    {
      ghost var d := Dates(now);
      ghost var st0 := Start(jmsQueue.broker.queues);
      counter := 0;
      var identifiedIds: set<string> := {};
      ghost var enqueuedIds: seq<string> := [];
      var i := 0;
      // `next()` on an empty iterator throws, the handler logs it and `hasNext()` ends the
      // loop: the same as not entering it.
      while i < |source|
        invariant 0 <= i <= |source|
        invariant AddAll(api, rank, d, queue, st0, source[..i])
                  == AddState(jmsQueue.broker.queues, counter, identifiedIds, enqueuedIds, false)
      {
        AddAllSnoc(api, rank, d, queue, st0, source, i);
        var stop;
        counter, identifiedIds, enqueuedIds, stop := AddRecord(source[i], queue, api, rank, now, counter, identifiedIds,
                                                               enqueuedIds);
        i := i + 1;
        if stop {
          StoppedIsFinal(api, rank, d, queue, st0, source, i);
          return;
        }
      }
      assert source[..i] == source;
    }

    /** One pass of the loop in `addAllRecords`; `stop` is its `break`. */
    method AddRecord(item: SourceItem, queue: string, api: OsfApi, ghost rank: (RecordType, string) -> nat, now: Instant,
                     counter: int, identifiedIds: set<string>, ghost enqueuedIds: seq<string>)
      returns (counter': int, identifiedIds': set<string>, ghost enqueuedIds': seq<string>, stop: bool)
      requires Ranked(api, rank)
      modifies jmsQueue.broker
      ensures Step(api, rank, Dates(now), queue, AddState(old(jmsQueue.broker.queues), counter, identifiedIds, enqueuedIds, false), item)
              == AddState(jmsQueue.broker.queues, counter', identifiedIds', enqueuedIds', stop)
    {
      counter', identifiedIds', enqueuedIds', stop := counter, identifiedIds, enqueuedIds, false;
      if item.NextFailed? {
        return;
      }
      var osfRecord := new OsfLightRecordDTO(item.dto.id, item.dto.filterDate, item.dto.recordType, item.dto.retrievedDate);
      var filterDate := osfRecord.GetFilterDate();
      if !filterByRunDate
         || ((filterByRunDate && (lastRunDate.None? || filterDate > lastRunDate.value || filterDate == lastRunDate.value))
             && filterDate < currRunDate) {
        counter', identifiedIds', enqueuedIds' := AdmitRecord(osfRecord, queue, api, rank, counter, identifiedIds, enqueuedIds);
      } else if filterDate < (if lastRunDate.Some? then lastRunDate.value else now) {
        stop := true;
      }
    }

    /** An accepted record: promote it to its highest accessible parent and enqueue it unless its id was seen. */
    method AdmitRecord(osfRecord: OsfLightRecordDTO, queue: string, api: OsfApi, ghost rank: (RecordType, string) -> nat,
                       counter: int, identifiedIds: set<string>, ghost enqueuedIds: seq<string>)
      returns (counter': int, identifiedIds': set<string>, ghost enqueuedIds': seq<string>)
      requires Ranked(api, rank)
      modifies osfRecord, jmsQueue.broker
      ensures Admit(api, rank, queue, AddState(old(jmsQueue.broker.queues), counter, identifiedIds, enqueuedIds, false),
                    old(osfRecord.Value()))
              == AddState(jmsQueue.broker.queues, counter', identifiedIds', enqueuedIds', false)
    {
      ghost var dto := osfRecord.Value();
      counter', identifiedIds', enqueuedIds' := counter, identifiedIds, enqueuedIds;
      var id := osfRecord.GetId();
      if osfRecord.GetType() == OsfNode || osfRecord.GetType() == OsfRegistration {
        var newId := GetHighestAccessibleParentNode(api, id, osfRecord.GetType(), rank);
        if newId.Err? {
          return;
        }
        if newId.value != id {
          osfRecord.SetId(newId.value);
          id := newId.value;
        }
      }
      assert PromotedId(api, rank, dto) == Ok(id);
      assert osfRecord.Value() == dto.(id := id);
      if id !in identifiedIds {
        var record := NewHarvestableRecord(osfRecord.Value());
        ghost var st := AddState(old(jmsQueue.broker.queues), counter, identifiedIds, enqueuedIds, false);
        assert Admit(api, rank, queue, st, dto) == (if record.Err? then st else Enqueue(st, queue, record.value, id));
        if record.Err? {
          return;
        }
        jmsQueue.Add(record.value, queue);
        counter' := counter + 1;
        identifiedIds' := identifiedIds + {id};
        enqueuedIds' := enqueuedIds + [id];
      }
    }

    /** `getHighestAccessibleParentNode`: the do-while walk up the parent links. */
    static method GetHighestAccessibleParentNode(api: OsfApi, id: string, t: RecordType,
                                                 ghost rank: (RecordType, string) -> nat) returns (r: Result<string>)
      requires Ranked(api, rank)
      ensures r == Promote(api, t, id, rank)
    {
      var newId := id;
      var parentId: Option<string> := Some(id);
      var lastParentId: Option<string> := None;
      var more := true;
      while more
        invariant more ==> parentId == Some(newId)
        invariant Promote(api, t, id, rank) == (if more then Promote(api, t, newId, rank) else Ok(newId))
        decreases if more then rank(t, newId) + 1 else 0
      {
        lastParentId := parentId;
        ghost var cur := newId;
        var newRecord := if t == OsfNode then api.lightNode(newId) else api.lightRegistration(newId);
        if newRecord.FetchFailed? {
          return Err("promotion failed");
        }
        parentId := newRecord.parent;
        if parentId.Some? {
          var accessible := UrlAccessible(api, parentId.value);
          if accessible.Err? {
            return Err("promotion failed");
          }
          if accessible.value {
            parentId := ExtractLastSubFolder(parentId);
            if parentId.None? {
              // `newId.equals(...)` on a null id
              return Err("promotion failed");
            }
            newId := parentId.value;
          }
        }
        more := Some(newId) != lastParentId;
        assert more ==> StepUp(api, t, cur) == Climb(newId);
        assert !more ==> StepUp(api, t, cur) == Stay;
      }
      r := Ok(newId);
    }
  }
}
