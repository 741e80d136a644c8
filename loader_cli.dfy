/**
 * The loader's command line: validation of the options, and the fixed
 * sequence of stage and tier calls a run makes over one shared broker and
 * one set of registries.
 */
module LoaderCli {
  import opened Wrappers
  import opened RecordTypes
  import opened LoaderUtils
  import opened JmsQueue
  import QueueName
  import opened Tiers
  import Identify
  import Transform
  import Ingest

  // ---------------------------------------------------------------------
  // Options
  // ---------------------------------------------------------------------

  const DefaultType: string := "node"
  const DefaultProcess: string := "all"
  /** The platform line separator, taken to be a newline. */
  const LineSeparator: string := "\n"
  const TypeError: string := "Only the following parameters are allowed for types: node, registration, or user"
  const ProcessError: string :=
    "Only the following parameters are allowed for process: identify, transform, ingest, all, requeuefails"

  /** The options as the command-line parser hands them over: present or not, with their values. */
  datatype CliArgs = CliArgs(help: bool, typeOption: Option<string>, processOption: Option<string>,
                             filtersOption: Option<string>)

  /** What `main` does with the options: print help, reject them (exit code 1), or run. */
  datatype Command = ShowHelp | Reject(message: string) | Launch(harvestType: string, processType: string, filters: string)

  predicate ValidType(s: string)
  {
    s == "node" || s == "registration" || s == "user"
  }

  predicate ValidProcess(s: string)
  {
    s == "all" || s == "identify" || s == "transform" || s == "ingest" || s == "requeuefails"
  }

  function OrDefault(o: Option<string>, d: string): string
  {
    if o.Some? then o.value else d
  }

  /** The line an invalid `-t` value adds to the error message. */
  function TypeLine(args: CliArgs): (r: string)
    ensures |r| > 0 <==> args.typeOption.Some? && !ValidType(args.typeOption.value)
    ensures |r| > 0 ==> r == TypeError + LineSeparator
  {
    if args.typeOption.Some? && !ValidType(args.typeOption.value) then TypeError + LineSeparator else ""
  }

  /** The line an invalid `-p` value adds to the error message. */
  function ProcessLine(args: CliArgs): (r: string)
    ensures |r| > 0 <==> args.processOption.Some? && !ValidProcess(args.processOption.value)
    ensures |r| > 0 ==> r == ProcessError + LineSeparator
  {
    if args.processOption.Some? && !ValidProcess(args.processOption.value) then ProcessError + LineSeparator else ""
  }

  /**
   * The command the options ask for: help wins over everything; otherwise
   * an invalid type and an invalid process each add their line to the
   * error message, and any error rejects the options; otherwise the type,
   * process and filters default to "node", "all" and "".
   */
  function Parse(args: CliArgs): (c: Command)
    ensures args.help ==> c == ShowHelp
    ensures !args.help ==>
      (c.Reject? <==>
         (args.typeOption.Some? && !ValidType(args.typeOption.value))
         || (args.processOption.Some? && !ValidProcess(args.processOption.value)))
    ensures c.Reject? ==> c.message == TypeLine(args) + ProcessLine(args)
    ensures c.Launch? ==>
      && c.harvestType == OrDefault(args.typeOption, DefaultType) && ValidType(c.harvestType)
      && c.processType == OrDefault(args.processOption, DefaultProcess) && ValidProcess(c.processType)
      && c.filters == OrDefault(args.filtersOption, "")
  {
    if args.help then ShowHelp
    else if |TypeLine(args) + ProcessLine(args)| > 0 then Reject(TypeLine(args) + ProcessLine(args))
    else Launch(OrDefault(args.typeOption, DefaultType), OrDefault(args.processOption, DefaultProcess),
                OrDefault(args.filtersOption, ""))
  }

  /** The validation in `main`, building the error message step by step. */
  method ParseArgs(args: CliArgs) returns (c: Command)
    ensures c == Parse(args)
  {
    var harvestType := DefaultType;
    var processType := DefaultProcess;
    var filters := "";
    if args.help {
      return ShowHelp;
    }
    var errmsg := "";
    if args.typeOption.Some? {
      harvestType := args.typeOption.value;
      if !ValidType(harvestType) {
        errmsg := errmsg + TypeError + LineSeparator;
      }
    }
    assert errmsg == TypeLine(args);
    if args.processOption.Some? {
      processType := args.processOption.value;
      if !ValidProcess(processType) {
        errmsg := errmsg + ProcessError + LineSeparator;
      }
    }
    assert errmsg == TypeLine(args) + ProcessLine(args);
    if args.filtersOption.Some? {
      filters := args.filtersOption.value;
    }
    if |errmsg| > 0 {
      return Reject(errmsg);
    }
    return Launch(harvestType, processType, filters);
  }

  /** Every type `main` lets through is one that `run` knows, so `run` never exits on it. */
  lemma LaunchedTypeIsKnown(args: CliArgs)
    requires Parse(args).Launch?
    ensures GetType(Parse(args).harvestType).Some?
    ensures TypeString(GetType(Parse(args).harvestType).value) == Parse(args).harvestType
  {
  }

  // ---------------------------------------------------------------------
  // The stages of a run, as functions of the stores
  // ---------------------------------------------------------------------

  /**
   * What a run gets from outside: the filter parser, what the OSF API
   * yields, the clock, the renderer of DiSCOs, the ingest oracles, and the
   * probe outcomes of each tier call (calls 0 to 3 transform, 4 to 7 ingest).
   */
  datatype Environment = Environment(
    readParams: string -> Identify.Params,
    source: seq<Identify.SourceItem>,
    api: Identify.OsfApi,
    currRunDate: Instant,
    now: Instant,
    rdf: Transform.Renderer,
    ingest: Ingest.IngestOracle,
    probes: nat -> seq<Browse>)

  /** Everything a run changes: the queues, the run registry and the RMap side. */
  datatype Store = Store(queues: Queues, lastRun: map<string, Instant>, rmap: Ingest.RmapState)

  /** The counts a run reports, for the stages it ran. */
  datatype Report = Report(identified: Option<int>, transformed: Option<int>, ingested: Option<int>)

  datatype StageOut = StageOut(store: Store, count: int)

  datatype RunResult = Exited(code: int) | Completed(report: Report)

  /** The identify stage of a fresh identify service, over the filters parsed from `filters`. */
  ghost function IdentifyStage(env: Environment, rank: (RecordType, string) -> nat, t: RecordType, filters: string,
                               st: Store): StageOut
    requires Identify.Ranked(env.api, rank)
  {
    var name := Identify.HarvestName(t);
    var last := if name in st.lastRun then Some(st.lastRun[name]) else None;
    var w := Identify.DefaultWindow(env.readParams(filters), t, last, env.currRunDate, env.now);
    var dates := Identify.RunDates(w.filterByRunDate, if w.filterByRunDate then w.lastRunDate else None,
                                   env.currRunDate, env.now);
    var added := Identify.AddAll(env.api, rank, dates, QueueName.Name(QueueName.Transform, t, QueueName.Primary),
                                 Identify.Start(st.queues), env.source);
    var lastRun := if w.registryWrite.Some? then st.lastRun[name := w.registryWrite.value] else st.lastRun;
    StageOut(Store(added.queues, lastRun, st.rmap), added.counter)
  }

  /** The four transform tier calls; the count is the sum of their counts. */
  function TransformStage(env: Environment, t: RecordType, st: Store): StageOut
  {
    var o := Cycle(st.queues, (), QueueName.Transform, t, Transform.Router(env.rdf, t));
    StageOut(Store(o.queues, st.lastRun, st.rmap), o.passed)
  }

  /** The four ingest tier calls; the count is the sum of their counts. */
  function IngestStage(env: Environment, t: RecordType, st: Store): StageOut
  {
    var o := Cycle(st.queues, st.rmap, QueueName.Ingest, t, Ingest.Router(env.ingest));
    StageOut(Store(o.queues, st.lastRun, o.state), o.passed)
  }

  predicate RunsIdentify(process: string) { process == "identify" || process == "all" }
  predicate RunsTransform(process: string) { process == "transform" || process == "all" }
  predicate RunsIngest(process: string) { process == "ingest" || process == "all" }

  /** A run of `process`: identify, transform and ingest, each only when the process names it or is "all". */
  ghost function Pipeline(process: string, filters: string, env: Environment, rank: (RecordType, string) -> nat,
                          t: RecordType, st: Store): (Store, Report)
    requires Identify.Ranked(env.api, rank)
  {
    var i := if RunsIdentify(process) then Some(IdentifyStage(env, rank, t, filters, st)) else None;
    var s1 := if i.Some? then i.value.store else st;
    var x := if RunsTransform(process) then Some(TransformStage(env, t, s1)) else None;
    var s2 := if x.Some? then x.value.store else s1;
    var g := if RunsIngest(process) then Some(IngestStage(env, t, s2)) else None;
    var s3 := if g.Some? then g.value.store else s2;
    (s3, Report(if i.Some? then Some(i.value.count) else None,
                if x.Some? then Some(x.value.count) else None,
                if g.Some? then Some(g.value.count) else None))
  }

  // ---------------------------------------------------------------------
  // What a run promises
  // ---------------------------------------------------------------------

  /** "all" is identify, then transform, then ingest, each run on what the one before left. */
  lemma AllIsTheThreeInTurn(filters: string, env: Environment, rank: (RecordType, string) -> nat, t: RecordType,
                            st: Store)
    requires Identify.Ranked(env.api, rank)
    ensures var a := Pipeline("identify", filters, env, rank, t, st);
            var b := Pipeline("transform", filters, env, rank, t, a.0);
            var c := Pipeline("ingest", filters, env, rank, t, b.0);
      Pipeline("all", filters, env, rank, t, st)
        == (c.0, Report(a.1.identified, b.1.transformed, c.1.ingested))
  {
  }

  /** "requeuefails", and any other process, runs none of the three stages. */
  lemma OtherProcessesRunNoStage(process: string, filters: string, env: Environment,
                                 rank: (RecordType, string) -> nat, t: RecordType, st: Store)
    requires Identify.Ranked(env.api, rank)
    requires process != "identify" && process != "transform" && process != "ingest" && process != "all"
    ensures Pipeline(process, filters, env, rank, t, st) == (st, Report(None, None, None))
  {
  }

  /**
   * A message whose content type names no kind, found on the transform queues at
   * `Journey(n)`, is at `Journey(n + 1)` after one more "transform" run: on retry2
   * after the first run, retry3 after the second, and on the fail queue after that.
   */
  lemma TransformRunMovesUnknownType(filters: string, env: Environment, rank: (RecordType, string) -> nat,
                                     t: RecordType, st: Store, m: HarvestRecords.HarvestRecord, n: nat)
    requires Identify.Ranked(env.api, rank)
    requires !t.OsfUnlisted?
    requires GetType(m.recordInfo.contentType).None?
    requires TierCountsOf(st.queues, QueueName.Transform, t, m) == Journey(n)
    ensures TierCountsOf(Pipeline("transform", filters, env, rank, t, st).0.queues, QueueName.Transform, t, m)
         == Journey(n + 1)
  {
    Transform.UnknownTypeAlwaysFails(env.rdf, t, m);
    Transform.ForwardsToIngestOnly(env.rdf, t);
    FailingMessageJourney(st.queues, (), QueueName.Transform, t, Transform.Router(env.rdf, t), m, n);
  }

  /** The same journey through the ingest tiers, for a message whose DiSCO does not validate. */
  lemma IngestRunMovesInvalid(filters: string, env: Environment, rank: (RecordType, string) -> nat,
                              t: RecordType, st: Store, m: HarvestRecords.HarvestRecord, n: nat)
    requires Identify.Ranked(env.api, rank)
    requires !t.OsfUnlisted?
    requires !env.ingest.valid(m.body)
    requires TierCountsOf(st.queues, QueueName.Ingest, t, m) == Journey(n)
    ensures TierCountsOf(Pipeline("ingest", filters, env, rank, t, st).0.queues, QueueName.Ingest, t, m)
         == Journey(n + 1)
  {
    Ingest.InvalidAlwaysFails(env.ingest, m);
    Ingest.NeverForwards(env.ingest, TierQueues(QueueName.Ingest, t));
    FailingMessageJourney(st.queues, st.rmap, QueueName.Ingest, t, Ingest.Router(env.ingest), m, n);
  }

  /** No run of any process makes RMap unsound: deposits stay valid and registered. */
  lemma RunKeepsRmapSound(process: string, filters: string, env: Environment, rank: (RecordType, string) -> nat,
                          t: RecordType, st: Store)
    requires Identify.Ranked(env.api, rank)
    requires Ingest.Sound(env.ingest, st.rmap)
    ensures Ingest.Sound(env.ingest, Pipeline(process, filters, env, rank, t, st).0.rmap)
  {
    var i := if RunsIdentify(process) then Some(IdentifyStage(env, rank, t, filters, st)) else None;
    var s1 := if i.Some? then i.value.store else st;
    var x := if RunsTransform(process) then Some(TransformStage(env, t, s1)) else None;
    var s2 := if x.Some? then x.value.store else s1;
    if RunsIngest(process) {
      CycleKeepsSound(env.ingest, s2.queues, s2.rmap, t);
    }
  }

  /** One ingest cycle keeps RMap sound: each of its four tiers does. */
  lemma CycleKeepsSound(o: Ingest.IngestOracle, qs: Queues, rm: Ingest.RmapState, t: RecordType)
    requires Ingest.Sound(o, rm)
    ensures Ingest.Sound(o, Cycle(qs, rm, QueueName.Ingest, t, Ingest.Router(o)).state)
  {
    var route := Ingest.Router(o);
    var p := QueueName.Name(QueueName.Ingest, t, QueueName.Primary);
    var a := QueueName.Name(QueueName.Ingest, t, QueueName.R1);
    var b := QueueName.Name(QueueName.Ingest, t, QueueName.R2);
    var c := QueueName.Name(QueueName.Ingest, t, QueueName.R3);
    var f := QueueName.Name(QueueName.Ingest, t, QueueName.Failed);
    var o1 := Tier(qs, rm, c, f, route);
    Ingest.RouteKeepsSound(o, rm, Get(qs, c));
    var o2 := Tier(o1.queues, o1.state, b, c, route);
    Ingest.RouteKeepsSound(o, o1.state, Get(o1.queues, b));
    var o3 := Tier(o2.queues, o2.state, p, a, route);
    Ingest.RouteKeepsSound(o, o2.state, Get(o2.queues, p));
    Ingest.RouteKeepsSound(o, o3.state, Get(o3.queues, a));
  }

  // ---------------------------------------------------------------------
  // The run itself
  // ---------------------------------------------------------------------

  function Snapshot(broker: Broker, runs: Identify.RunRegistry, records: Ingest.HarvestRecordRegistry,
                    rmap: Ingest.RmapStore): Store
    reads broker, runs, records, rmap
  {
    Store(broker.queues, runs.lastRun, Ingest.RmapState(records.registered, rmap.deposited))
  }

  /** `runTransform`: one tier call of a fresh transform service over its own queue connection. */
  method RunTransform(broker: Broker, fromQueue: string, failQueue: string, t: RecordType, rdf: Transform.Renderer,
                      probes: seq<Browse>) returns (count: int)
    modifies broker
    ensures var o := Tier(old(broker.queues), (), fromQueue, failQueue, Transform.Router(rdf, t));
      broker.queues == o.queues && count == o.passed
  {
    var jmsQueue := new OsfJmsQueue(broker);
    var service := new Transform.OsfTransformService(jmsQueue);
    count := service.TransformRecords(fromQueue, failQueue, t, rdf, probes);
  }

  /** `runIngest`: one tier call of a fresh ingest service over the shared registry and RMap. */
  method RunIngest(broker: Broker, records: Ingest.HarvestRecordRegistry, rmap: Ingest.RmapStore,
                   fromQueue: string, failQueue: string, o: Ingest.IngestOracle, probes: seq<Browse>)
    returns (count: int)
    modifies broker, records, rmap
    ensures var out := Tier(old(broker.queues), old(Ingest.RmapState(records.registered, rmap.deposited)),
                            fromQueue, failQueue, Ingest.Router(o));
      && broker.queues == out.queues
      && Ingest.RmapState(records.registered, rmap.deposited) == out.state
      && count == out.passed
  {
    var jmsQueue := new OsfJmsQueue(broker);
    var service := new Ingest.OsfIngestService(jmsQueue, records, rmap);
    count := service.IngestRecords(fromQueue, failQueue, o, probes);
  }

  /** The queue `prefix.<type>[.level]`, as `run` asks for it. */
  function TierName(prefix: string, t: RecordType, level: Option<string>): (r: Result<string>)
    ensures level == None ==> r == Ok(QueueName.Name(prefix, t, QueueName.Primary))
    ensures level == Some(QueueName.Retry1) ==> r == Ok(QueueName.Name(prefix, t, QueueName.R1))
    ensures level == Some(QueueName.Retry2) ==> r == Ok(QueueName.Name(prefix, t, QueueName.R2))
    ensures level == Some(QueueName.Retry3) ==> r == Ok(QueueName.Name(prefix, t, QueueName.R3))
    ensures level == Some(QueueName.Fail) ==> r == Ok(QueueName.Name(prefix, t, QueueName.Failed))
  {
    QueueName.GetQueueName(Some(prefix), Some(TypeString(t)), level)
  }

  /** Four tier calls made one after another are the loader's chain of tiers. */
  lemma ChainSteps<S>(qs: Queues, s: S, p: string, a: string, b: string, c: string, f: string,
                      route: (S, HarvestRecords.HarvestRecord) -> (S, Dest), o1: Outcome<S>, o2: Outcome<S>,
                      o3: Outcome<S>, o4: Outcome<S>)
    requires o1 == Tier(qs, s, c, f, route) && o2 == Tier(o1.queues, o1.state, b, c, route)
    requires o3 == Tier(o2.queues, o2.state, p, a, route) && o4 == Tier(o3.queues, o3.state, a, b, route)
    ensures Chain(qs, s, p, a, b, c, f, route) == Outcome(o4.queues, o4.state, o1.passed + o2.passed + o3.passed + o4.passed)
  {
  }

  /** The identify part of `run`: a fresh identify service over the parsed filters. */
  method RunIdentifyStage(t: RecordType, filters: string, env: Environment, ghost rank: (RecordType, string) -> nat,
                          broker: Broker, runs: Identify.RunRegistry, records: Ingest.HarvestRecordRegistry,
                          rmap: Ingest.RmapStore) returns (count: int)
    requires Identify.Ranked(env.api, rank)
    modifies broker, runs
    ensures var out := IdentifyStage(env, rank, t, filters, old(Snapshot(broker, runs, records, rmap)));
      Snapshot(broker, runs, records, rmap) == out.store && count == out.count
  {
    var jmsQueue := new OsfJmsQueue(broker);
    var identify := new Identify.OsfIdentifyService(t, env.readParams(filters), env.currRunDate, jmsQueue, runs);
    count := identify.IdentifyNewRecords(env.source, env.api, rank, env.now);
  }

  /** The transform part of `run`: retry3 to fail, retry2 to retry3, primary to retry1, retry1 to retry2. */
  method RunTransformStage(t: RecordType, env: Environment, broker: Broker, runs: Identify.RunRegistry,
                           records: Ingest.HarvestRecordRegistry, rmap: Ingest.RmapStore) returns (total: int)
    modifies broker
    ensures var out := TransformStage(env, t, old(Snapshot(broker, runs, records, rmap)));
      Snapshot(broker, runs, records, rmap) == out.store && total == out.count
  {
    var transformQ := TierName(QueueName.Transform, t, None).value;
    var transformRetry1Q := TierName(QueueName.Transform, t, Some(QueueName.Retry1)).value;
    var transformRetry2Q := TierName(QueueName.Transform, t, Some(QueueName.Retry2)).value;
    var transformRetry3Q := TierName(QueueName.Transform, t, Some(QueueName.Retry3)).value;
    var transformFailQ := TierName(QueueName.Transform, t, Some(QueueName.Fail)).value;
    ghost var route := Transform.Router(env.rdf, t);
    ghost var q0 := broker.queues;
    ghost var o1 := Tier(broker.queues, (), transformRetry3Q, transformFailQ, route);
    total := 0;
    var count := RunTransform(broker, transformRetry3Q, transformFailQ, t, env.rdf, env.probes(0));
    total := total + count;
    assert broker.queues == o1.queues && total == o1.passed;
    assert o1.state == ();
    ghost var o2 := Tier(o1.queues, (), transformRetry2Q, transformRetry3Q, route);
    count := RunTransform(broker, transformRetry2Q, transformRetry3Q, t, env.rdf, env.probes(1));
    total := total + count;
    assert broker.queues == o2.queues && total == o1.passed + o2.passed;
    assert o2.state == ();
    ghost var o3 := Tier(o2.queues, (), transformQ, transformRetry1Q, route);
    count := RunTransform(broker, transformQ, transformRetry1Q, t, env.rdf, env.probes(2));
    total := total + count;
    assert broker.queues == o3.queues && total == o1.passed + o2.passed + o3.passed;
    assert o3.state == ();
    ghost var o4 := Tier(o3.queues, (), transformRetry1Q, transformRetry2Q, route);
    count := RunTransform(broker, transformRetry1Q, transformRetry2Q, t, env.rdf, env.probes(3));
    total := total + count;
    assert broker.queues == o4.queues && total == o1.passed + o2.passed + o3.passed + o4.passed;
    ChainSteps(q0, (), transformQ, transformRetry1Q, transformRetry2Q, transformRetry3Q, transformFailQ, route,
               o1, o2, o3, o4);
    assert Cycle(q0, (), QueueName.Transform, t, route)
        == Chain(q0, (), transformQ, transformRetry1Q, transformRetry2Q, transformRetry3Q, transformFailQ, route);
  }

  /** The ingest part of `run`, over the same order of tiers. */
  method RunIngestStage(t: RecordType, env: Environment, broker: Broker, runs: Identify.RunRegistry,
                        records: Ingest.HarvestRecordRegistry, rmap: Ingest.RmapStore) returns (total: int)
    modifies broker, records, rmap
    ensures var out := IngestStage(env, t, old(Snapshot(broker, runs, records, rmap)));
      Snapshot(broker, runs, records, rmap) == out.store && total == out.count
  {
    var ingestQ := TierName(QueueName.Ingest, t, None).value;
    var ingestRetry1Q := TierName(QueueName.Ingest, t, Some(QueueName.Retry1)).value;
    var ingestRetry2Q := TierName(QueueName.Ingest, t, Some(QueueName.Retry2)).value;
    var ingestRetry3Q := TierName(QueueName.Ingest, t, Some(QueueName.Retry3)).value;
    var ingestFailQ := TierName(QueueName.Ingest, t, Some(QueueName.Fail)).value;
    ghost var route := Ingest.Router(env.ingest);
    ghost var q0 := broker.queues;
    ghost var r0 := Ingest.RmapState(records.registered, rmap.deposited);
    ghost var o1 := Tier(broker.queues, Ingest.RmapState(records.registered, rmap.deposited), ingestRetry3Q, ingestFailQ, route);
    total := 0;
    var count := RunIngest(broker, records, rmap, ingestRetry3Q, ingestFailQ, env.ingest, env.probes(4));
    total := total + count;
    assert broker.queues == o1.queues && Ingest.RmapState(records.registered, rmap.deposited) == o1.state;
    assert total == o1.passed;
    ghost var o2 := Tier(o1.queues, o1.state, ingestRetry2Q, ingestRetry3Q, route);
    count := RunIngest(broker, records, rmap, ingestRetry2Q, ingestRetry3Q, env.ingest, env.probes(5));
    total := total + count;
    assert broker.queues == o2.queues && Ingest.RmapState(records.registered, rmap.deposited) == o2.state;
    assert total == o1.passed + o2.passed;
    ghost var o3 := Tier(o2.queues, o2.state, ingestQ, ingestRetry1Q, route);
    count := RunIngest(broker, records, rmap, ingestQ, ingestRetry1Q, env.ingest, env.probes(6));
    total := total + count;
    assert broker.queues == o3.queues && Ingest.RmapState(records.registered, rmap.deposited) == o3.state;
    assert total == o1.passed + o2.passed + o3.passed;
    ghost var o4 := Tier(o3.queues, o3.state, ingestRetry1Q, ingestRetry2Q, route);
    count := RunIngest(broker, records, rmap, ingestRetry1Q, ingestRetry2Q, env.ingest, env.probes(7));
    total := total + count;
    assert broker.queues == o4.queues && Ingest.RmapState(records.registered, rmap.deposited) == o4.state;
    assert total == o1.passed + o2.passed + o3.passed + o4.passed;
    ChainSteps(q0, r0, ingestQ, ingestRetry1Q, ingestRetry2Q, ingestRetry3Q, ingestFailQ, route, o1, o2, o3, o4);
    assert Cycle(q0, r0, QueueName.Ingest, t, route)
        == Chain(q0, r0, ingestQ, ingestRetry1Q, ingestRetry2Q, ingestRetry3Q, ingestFailQ, route);
  }

  /**
   * `run(harvesterType, process, filters)`: exit code 1 for an unknown type, with
   * nothing changed; otherwise the stages the process names, in the order
   * identify, transform, ingest, each on what the one before left.
   */
  method Run(harvesterType: string, process: string, filters: string, env: Environment,
             ghost rank: (RecordType, string) -> nat, broker: Broker, runs: Identify.RunRegistry,
             records: Ingest.HarvestRecordRegistry, rmap: Ingest.RmapStore) returns (r: RunResult)
    requires Identify.Ranked(env.api, rank)
    modifies broker, runs, records, rmap
    ensures GetType(harvesterType).None? ==>
      r == Exited(1) && Snapshot(broker, runs, records, rmap) == old(Snapshot(broker, runs, records, rmap))
    ensures GetType(harvesterType).Some? ==>
      && r.Completed?
      && (Snapshot(broker, runs, records, rmap), r.report)
         == Pipeline(process, filters, env, rank, GetType(harvesterType).value, old(Snapshot(broker, runs, records, rmap)))
  {
    var typ := GetType(harvesterType);
    if typ.None? {
      return Exited(1);
    }
    var t := typ.value;
    var identified: Option<int> := None;
    if process == "identify" || process == "all" {
      var count := RunIdentifyStage(t, filters, env, rank, broker, runs, records, rmap);
      identified := Some(count);
    }
    var transformed: Option<int> := None;
    if process == "transform" || process == "all" {
      var count := RunTransformStage(t, env, broker, runs, records, rmap);
      transformed := Some(count);
    }
    var ingested: Option<int> := None;
    if process == "ingest" || process == "all" {
      var count := RunIngestStage(t, env, broker, runs, records, rmap);
      ingested := Some(count);
    }
    return Completed(Report(identified, transformed, ingested));
  }

  /**
   * `main`: help prints and changes nothing; rejected options exit with code 1
   * and run nothing; otherwise the run of the validated options, which ends
   * with exit code 0.
   */
  method Execute(args: CliArgs, env: Environment, ghost rank: (RecordType, string) -> nat, broker: Broker,
                 runs: Identify.RunRegistry, records: Ingest.HarvestRecordRegistry, rmap: Ingest.RmapStore)
    returns (exitCode: int, report: Option<Report>)
    requires Identify.Ranked(env.api, rank)
    modifies broker, runs, records, rmap
    ensures !Parse(args).Launch? ==>
      && report.None? && exitCode == (if Parse(args).Reject? then 1 else 0)
      && Snapshot(broker, runs, records, rmap) == old(Snapshot(broker, runs, records, rmap))
    ensures Parse(args).Launch? ==>
      var c := Parse(args);
      && exitCode == 0 && report.Some?
      && (Snapshot(broker, runs, records, rmap), report.value)
         == Pipeline(c.processType, c.filters, env, rank, GetType(c.harvestType).value,
                     old(Snapshot(broker, runs, records, rmap)))
  {
    var c := ParseArgs(args);
    match c
    case ShowHelp =>
      return 0, None;
    case Reject(_) =>
      return 1, None;
    case Launch(harvestType, processType, filters) =>
      LaunchedTypeIsKnown(args);
      var r := Run(harvestType, processType, filters, env, rank, broker, runs, records, rmap);
      return 0, Some(r.report);
  }
}
