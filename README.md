# OSF harvest loader, modelled in Dafny

This project models the core of the RMap loader for the Open Science Framework
(OSF). The loader moves OSF records into RMap as DiSCOs, in three stages linked
by message queues:

- **Identify** reads lightweight record descriptors from the OSF API. It filters
  them by the run window and promotes nodes and registrations to their highest
  accessible parent. It drops ids already seen in the run and puts one message
  per record on `rmap.osf.transform.<type>`.
- **Transform** drains a transform tier. The DiSCO transformer of the record's
  kind renders each message as Turtle. A message that renders goes to
  `rmap.osf.ingest.<type>`; any other goes to the tier's fail queue unchanged.
- **Ingest** drains an ingest tier. It validates each DiSCO and asks the harvest
  record registry for the record's status. Then it skips the record, deposits it
  in RMap or re-registers it. Any failure sends the message to the fail queue.

The command line validates its options. A run then calls each selected stage
once per tier in a fixed order: retry3 to fail, retry2 to retry3, primary to
retry1, retry1 to retry2.

The model has these modules:

- Value modules: `RecordTypes`, `Utf8`, `LoaderUtils`, `HarvestRecords`,
  `QueueName`, `TransformerFactory`.
- Tier semantics: `Tiers` describes one tier call as a function over the queues,
  named `Tier`; four calls in the loader order make a `Chain`.
- Services: `Identify`, `Transform`, `Ingest` and `JmsQueue` are classes whose
  methods change the broker, the run registry, the harvest record registry and
  RMap. Each method is proved against those functions.
- `NodeTransformer` builds the statements of a node's DiSCO, with its methods
  proved against a recursive specification of the tree walk.
- `LoaderCli` covers option validation and the run, and composes the stages.

The outside world is passed in as parameters: the OSF API, the renderer of
DiSCOs, the validation, comparison and deposit services, the clock, the filter
parser and the outcomes of queue probes. For a node, the renderer stands for
writing as Turtle the model that `NodeTransformer.DiscoModel` builds. The
parameter is not tied to that function, so Transform's contracts hold for any
renderer.

Three behaviours of the code are easy to miss:

- **Tier order.** A message that fails on the primary queue goes to retry1.
  The retry1 call later in the same cycle (`OsfLoaderCLI.java` calls the tiers
  in the order retry3, retry2, primary, retry1) fails it again and moves it to
  retry2. So a fresh message that keeps failing is on retry2 after one cycle, on
  retry3 after two, and on the fail queue after three
  (`Tiers.FailingMessageJourney`).
- **Unknown content type.** A message whose content type names no kind is not
  transformed as a node. The lookup gives null, the switch on null throws, and
  the message goes to the fail queue (`Transform.UnknownTypeAlwaysFails`).
- **Missing last run date.** With no last run date, the stop test compares
  against a null date, which Joda reads as "now". So a rejected record newer
  than the run start but older than now ends the loop
  (`Identify.RecentRecordStopsWithoutLastRunDate`). The older records after it
  are then taken neither by this run nor by the next one, which starts from this
  run's date (`Identify.FirstRunCanLoseRecord`).

The comments of `OsfJmsQueue` say that the wait loop exits or throws once the
count of JMS errors reaches the tolerance of 10. The code does the opposite: it
rethrows the error while the count is at most 10, and after that answers "more
messages" and keeps waiting. The model follows the code
(`JmsQueue.FailureWithinToleranceAborts`, `JmsQueue.PastToleranceNeverAborts`).

Two points of the option check and the kind lookup:

- The option errors are the code's own texts, each followed by a line
  separator (`LoaderCli.TypeLine`, `LoaderCli.ProcessLine`).
- `RecordTypes.GetType` models the enumeration's lookup under an assumption:
  it is taken to know only "node", "registration" and "user", and to answer
  null for any other string. The enumeration itself is not part of this
  model, so for the type string of a further constant (`OsfUnlisted`) the
  model answers null where the real lookup might find that constant. The
  command line lets only those three through, and Transform reads content
  types that Identify wrote from a listed kind
  (`RecordTypes.GetTypeOfTypeString`).

## Model

| member | source | states |
|---|---|---|
| RecordTypes.TypeString | rmap-loader-osf-service/src/main/java/info/rmapproject/loader/osf/model/QueueName.java:65 | the type string of every listed kind is non-empty, so queue names always carry it |
| RecordTypes.GetType | rmap-loader-osf-service/src/main/java/info/rmapproject/loader/osf/OsfLoaderCLI.java:141-149 | a kind is found exactly for "node", "registration" and "user", and its type string is the string looked up |
| RecordTypes.GetTypeOfTypeString | rmap-loader-osf-service/src/main/java/info/rmapproject/loader/osf/OsfTransformService.java:71 | looking a listed kind up by its own type string (the content type Identify writes) gives that kind back |
| Utf8.EncodeChar | rmap-loader-osf-service/src/main/java/info/rmapproject/loader/osf/model/OsfHarvestableRecord.java:62 | one character encodes to one to four bytes |
| Utf8.Encode | rmap-loader-osf-service/src/main/java/info/rmapproject/loader/osf/model/OsfHarvestableRecord.java:62 | the body of a string has between one and four bytes per character |
| Utf8.DecodeFirst | rmap-loader-osf-service/src/main/java/info/rmapproject/loader/osf/OsfTransformService.java:112 | each decoding step consumes at least one byte and no more than remain |
| Utf8.Decode | rmap-loader-osf-service/src/main/java/info/rmapproject/loader/osf/OsfTransformService.java:112 | decoding never yields more characters than there are bytes |
| Utf8.DecodeTwo | rmap-loader-osf-service/src/main/java/info/rmapproject/loader/osf/OsfTransformService.java:112 | a well-formed two-byte sequence decodes to its scalar value |
| Utf8.DecodeThree | rmap-loader-osf-service/src/main/java/info/rmapproject/loader/osf/OsfTransformService.java:112 | a well-formed three-byte sequence of a non-surrogate decodes to its scalar value |
| Utf8.DecodeFour | rmap-loader-osf-service/src/main/java/info/rmapproject/loader/osf/OsfTransformService.java:112 | a well-formed four-byte sequence decodes to its scalar value |
| Utf8.DecodeFirstEncodeChar | rmap-loader-osf-service/src/main/java/info/rmapproject/loader/osf/OsfTransformService.java:112 | decoding the encoding of a character reads back that character and exactly its bytes |
| Utf8.DecodeEncode | rmap-loader-osf-service/src/main/java/info/rmapproject/loader/osf/OsfTransformService.java:112 | the id Transform reads from a body is the id Identify wrote into it |
| Utf8.EncodeInjective | rmap-loader-osf-service/src/main/java/info/rmapproject/loader/osf/model/OsfHarvestableRecord.java:62 | distinct ids give distinct message bodies |
| LoaderUtils.LastIndexOf | rmap-loader-osf-service/src/main/java/info/rmapproject/loader/osf/utils/OSFLoaderUtils.java:53 | the result is the last position of the character, and no later position holds it; -1 when absent |
| LoaderUtils.ExtractLastSubFolder | rmap-loader-osf-service/src/main/java/info/rmapproject/loader/osf/utils/OSFLoaderUtils.java:48-58 | null exactly for a null link or one without a slash; otherwise a slash-free suffix of the link less one trailing slash, preceded there by a slash or starting it |
| LoaderUtils.ExtractExample | rmap-loader-osf-service/src/main/java/info/rmapproject/loader/osf/utils/OSFLoaderUtils.java:41-47 | the documented example link yields "sdfkj" |
| LoaderUtils.CivilFromDays | rmap-loader-osf-service/src/main/java/info/rmapproject/loader/osf/utils/OSFLoaderUtils.java:119-122 | the date of a day number exists on the Gregorian calendar (month 1-12, day within the month, 29 February only in leap years) |
| LoaderUtils.DaysFromCivilOfCivil | rmap-loader-osf-service/src/main/java/info/rmapproject/loader/osf/utils/OSFLoaderUtils.java:119-122 | the date of a day number has that day number again under the independent count DaysFromCivil |
| LoaderUtils.CivilOfDaysFromCivil | rmap-loader-osf-service/src/main/java/info/rmapproject/loader/osf/utils/OSFLoaderUtils.java:119-122 | every date that exists is the date of its own day number, so day numbers and dates correspond one to one |
| LoaderUtils.KnownLeapDays | rmap-loader-osf-service/src/main/java/info/rmapproject/loader/osf/utils/OSFLoaderUtils.java:119-122 | day numbers 11016, 11017, -25509 and 19782 are 2000-02-29, 2000-03-01, 1900-02-28 (1900 has no leap day) and 2024-02-29 |
| LoaderUtils.KnownDays | rmap-loader-osf-service/src/main/java/info/rmapproject/loader/osf/utils/OSFLoaderUtils.java:119-122 | day numbers 0, -1, 11016, 11017, -25509 and 19782 are 1970-01-01, 1969-12-31, 2000-02-29, 2000-03-01, 1900-02-28 and 2024-02-29 |
| LoaderUtils.OsfDateParamOfDay | rmap-loader-osf-service/src/main/java/info/rmapproject/loader/osf/utils/OSFLoaderUtils.java:119-122 | the date parameter of an instant is the formatted date of the UTC calendar day that contains it |
| LoaderUtils.Pad | rmap-loader-osf-service/src/main/java/info/rmapproject/loader/osf/utils/OSFLoaderUtils.java:119-122 | the padded number has at least the width, exactly the width when it fits, only digits, and its digits read back (DecimalValue) to the number itself |
| LoaderUtils.FormatDateFields | rmap-loader-osf-service/src/main/java/info/rmapproject/loader/osf/utils/OSFLoaderUtils.java:119-122 | for a year 0-9999 the text "yyyy-MM-dd" has that shape and its three fields read back to the year, the month and the day |
| LoaderUtils.ConvertToOsfDateParam | rmap-loader-osf-service/src/main/java/info/rmapproject/loader/osf/utils/OSFLoaderUtils.java:119-122 | for years 0-9999 the parameter has the shape yyyy-MM-dd |
| LoaderUtils.OsfDateParamFields | rmap-loader-osf-service/src/main/java/info/rmapproject/loader/osf/utils/OSFLoaderUtils.java:119-122 | for years 0-9999 the year, month and day fields of the parameter read back (DecimalValue) to the UTC calendar date of the instant (CivilFromDays of its day number) |
| LoaderUtils.PreviousDayAsString | rmap-loader-osf-service/src/main/java/info/rmapproject/loader/osf/utils/OSFLoaderUtils.java:107-111 | the previous-day parameter is the calendar date of the preceding UTC day number |
| LoaderUtils.TruncateToSecond | rmap-loader-osf-service/src/main/java/info/rmapproject/loader/osf/OsfIdentifyService.java:335 | the recorded run date is the latest whole second not after the run start |
| LightRecord.OsfLightRecordDTO.constructor | rmap-loader-osf-service/src/main/java/info/rmapproject/loader/osf/model/OsfLightRecordDTO.java:36-41 | the descriptor holds the id, filter date, kind and retrieval date given |
| LightRecord.OsfLightRecordDTO.SetId | rmap-loader-osf-service/src/main/java/info/rmapproject/loader/osf/model/OsfLightRecordDTO.java:48-50 | only the id changes |
| LightRecord.OsfLightRecordDTO.SetFilterDate | rmap-loader-osf-service/src/main/java/info/rmapproject/loader/osf/model/OsfLightRecordDTO.java:56-58 | only the filter date changes |
| LightRecord.OsfLightRecordDTO.SetType | rmap-loader-osf-service/src/main/java/info/rmapproject/loader/osf/model/OsfLightRecordDTO.java:64-66 | only the kind changes |
| LightRecord.OsfLightRecordDTO.SetRetrievedDate | rmap-loader-osf-service/src/main/java/info/rmapproject/loader/osf/model/OsfLightRecordDTO.java:72-74 | only the retrieval date changes |
| HarvestRecords.UrisOfTails | rmap-loader-osf-service/src/main/java/info/rmapproject/loader/osf/model/OsfHarvestableRecord.java:51-52 | the record URI and the source URI are their OSF hosts followed by a path that starts with a slash |
| HarvestRecords.AllowedParses | rmap-loader-osf-service/src/main/java/info/rmapproject/loader/osf/model/OsfHarvestableRecord.java:51-52 | a run of characters that a URI component takes unescaped is accepted |
| HarvestRecords.ParsedComponent | rmap-loader-osf-service/src/main/java/info/rmapproject/loader/osf/model/OsfHarvestableRecord.java:51-52 | in an accepted component every character is one the component allows or a percent sign, and every percent sign starts an escape of two hex digits |
| HarvestRecords.PathPrefixParses | rmap-loader-osf-service/src/main/java/info/rmapproject/loader/osf/model/OsfHarvestableRecord.java:51-52 | a prefix of plain path characters does not change whether the rest of a URI is accepted |
| HarvestRecords.SourceParsesAsRecord | rmap-loader-osf-service/src/main/java/info/rmapproject/loader/osf/model/OsfHarvestableRecord.java:51-59 | for a type string of plain path characters the source URI is accepted exactly when the record URI is |
| HarvestRecords.UnreservedIdParses | rmap-loader-osf-service/src/main/java/info/rmapproject/loader/osf/model/OsfHarvestableRecord.java:51-59 | an id of letters, digits and marks, as OSF ids are, always gives accepted URIs |
| HarvestRecords.KnownTailsParse | rmap-loader-osf-service/src/main/java/info/rmapproject/loader/osf/model/OsfHarvestableRecord.java:51-52 | ids that are plain, hold an escape, hold brackets in a query or hold accented letters give an accepted URI |
| HarvestRecords.KnownTailsRefused | rmap-loader-osf-service/src/main/java/info/rmapproject/loader/osf/model/OsfHarvestableRecord.java:51-66 | ids holding a space, a bracket in the path, a malformed escape, a second hash or a no-break space give a URI that is refused |
| HarvestRecords.ListedKindBuildsByUri | rmap-loader-osf-service/src/main/java/info/rmapproject/loader/osf/model/OsfHarvestableRecord.java:41-67 | for nodes, registrations and users the record is built exactly when the record URI of the id is accepted |
| HarvestRecords.NewHarvestableRecord | rmap-loader-osf-service/src/main/java/info/rmapproject/loader/osf/model/OsfHarvestableRecord.java:41-67 | fails exactly when URI.create refuses the record URI or the source URI, by the path, query and fragment grammar of java.net.URI; otherwise the content type is the type string, ids and sources are the OSF URIs of the id, both dates are cut to the second, and the body decodes to the id |
| HarvestRecords.DistinctIdsDistinctRecords | rmap-loader-osf-service/src/main/java/info/rmapproject/loader/osf/model/OsfHarvestableRecord.java:51-62 | descriptors with different ids give messages with different record ids and bodies |
| Identify.ContainsDateFilter | rmap-loader-osf-service/src/main/java/info/rmapproject/loader/osf/OsfIdentifyService.java:344-358 | true exactly when one of the nine date filter keys is present |
| Identify.DefaultWindow | rmap-loader-osf-service/src/main/java/info/rmapproject/loader/osf/OsfIdentifyService.java:150-175 | public filter added only when absent and never for users; an explicit date filter turns windowing off and writes nothing; otherwise the run date is recorded, nodes and registrations filter from the last run date (else the previous day), users compare against the last run date (else two days before now); no other parameter changes |
| Identify.Accepts | rmap-loader-osf-service/src/main/java/info/rmapproject/loader/osf/OsfIdentifyService.java:204-207 | a record passes when windowing is off, or it is not before the last run date (if any) and before the run start |
| Identify.RecentRecordStopsWithoutLastRunDate | rmap-loader-osf-service/src/main/java/info/rmapproject/loader/osf/OsfIdentifyService.java:233-235 | with no last run date, a record modified after the run started but before now is rejected and ends the loop |
| Identify.UrlAccessible | rmap-loader-osf-service/src/main/java/info/rmapproject/loader/osf/OsfIdentifyService.java:257-267 | a connection failure is an error; otherwise accessible exactly when the status is not 401 |
| Identify.PromoteFixedPoint | rmap-loader-osf-service/src/main/java/info/rmapproject/loader/osf/OsfIdentifyService.java:276-301 | a successful walk ends where there is nowhere to climb, and walking again from there returns the same id |
| Identify.PromoteStaysAtRoot | rmap-loader-osf-service/src/main/java/info/rmapproject/loader/osf/OsfIdentifyService.java:283-296 | a record with no parent, or a parent answering 401, keeps its own id |
| Identify.EnqueueKeepsTally | rmap-loader-osf-service/src/main/java/info/rmapproject/loader/osf/OsfIdentifyService.java:225-229 | enqueuing a fresh id keeps counter, seen ids and the transform queue in step |
| Identify.StepKeepsTally | rmap-loader-osf-service/src/main/java/info/rmapproject/loader/osf/OsfIdentifyService.java:199-246 | each pass of the loop, including a failed one, keeps the bookkeeping consistent |
| Identify.AddAllTally | rmap-loader-osf-service/src/main/java/info/rmapproject/loader/osf/OsfIdentifyService.java:195-249 | the counter equals the number of distinct ids enqueued, the transform queue gains exactly one message per id in order with that id, and no other queue changes |
| Identify.StoppedIsFinal | rmap-loader-osf-service/src/main/java/info/rmapproject/loader/osf/OsfIdentifyService.java:233-236 | once the loop has stopped, later records change nothing |
| Identify.StopsAtOldRecord | rmap-loader-osf-service/src/main/java/info/rmapproject/loader/osf/OsfIdentifyService.java:233-236 | a rejected record older than the last run date ends the iteration, so nothing after it is enqueued |
| Identify.RunRegistry.constructor | rmap-loader-osf-service/src/main/java/info/rmapproject/loader/osf/OsfIdentifyService.java:312-323 | the registry starts with the last-run map given |
| Identify.RunRegistry.AddRunDate | rmap-loader-osf-service/src/main/java/info/rmapproject/loader/osf/OsfIdentifyService.java:330-341 | the run date is recorded under the harvest name and no other entry changes |
| Identify.RunRegistry.GetLastRunDate | rmap-loader-osf-service/src/main/java/info/rmapproject/loader/osf/OsfIdentifyService.java:312-323 | the registry answers a date exactly for a name it holds, and then the date held |
| Identify.LastRunDate | rmap-loader-osf-service/src/main/java/info/rmapproject/loader/osf/OsfIdentifyService.java:312-323 | the registry answers a date exactly for a name it holds, and then the date held |
| Identify.ConsecutiveWindowsCover | rmap-loader-osf-service/src/main/java/info/rmapproject/loader/osf/OsfIdentifyService.java:156-207 | a run that reads the run date the previous run recorded starts from it cut to the second; so a filter date that the previous run's window admits and that is older than the new run date passes one run's accept test, and one in the cut-off fraction of a second passes both (the accept test only, not the loop) |
| Identify.FirstRunCanLoseRecord | rmap-loader-osf-service/src/main/java/info/rmapproject/loader/osf/OsfIdentifyService.java:199-236 | on a run with no last run date, a first record newer than the run start ends the loop, so an older record that the run accepts is not enqueued, and the next run rejects it |
| Identify.OsfIdentifyService.constructor | rmap-loader-osf-service/src/main/java/info/rmapproject/loader/osf/OsfIdentifyService.java:103-122 | a new service has the kind and parsed filters, no last run date and windowing off |
| Identify.OsfIdentifyService.IdentifyNewRecords | rmap-loader-osf-service/src/main/java/info/rmapproject/loader/osf/OsfIdentifyService.java:147-186 | the parameters, windowing flag, last run date and registry end as the default window says, and the queues and count are those of the record loop over the records onto the primary transform queue |
| Identify.OsfIdentifyService.SettleWindow | rmap-loader-osf-service/src/main/java/info/rmapproject/loader/osf/OsfIdentifyService.java:150-175 | the parameters, windowing flag, last run date and registry end as the default window says |
| Identify.OsfIdentifyService.AddRecord | rmap-loader-osf-service/src/main/java/info/rmapproject/loader/osf/OsfIdentifyService.java:199-236 | one pass of the loop: the queues, counter and seen ids change as one step of the record loop says, and the loop stops exactly when that step stops it |
| Identify.OsfIdentifyService.AdmitRecord | rmap-loader-osf-service/src/main/java/info/rmapproject/loader/osf/OsfIdentifyService.java:209-232 | an accepted record changes the queues, counter and seen ids as admitting it says: promoted, skipped when seen, enqueued otherwise |
| Identify.OsfIdentifyService.GetHighestAccessibleParentNode | rmap-loader-osf-service/src/main/java/info/rmapproject/loader/osf/OsfIdentifyService.java:276-301 | the do-while walk up the parent links gives exactly the promotion of the id: its highest accessible ancestor, or a failure |
| Identify.OsfIdentifyService.AddAllRecords | rmap-loader-osf-service/src/main/java/info/rmapproject/loader/osf/OsfIdentifyService.java:195-249 | the queues and counter are those of the record loop specification over the records in order |
| JmsQueue.Append | rmap-loader-osf-service/src/main/java/info/rmapproject/loader/osf/jms/OsfJmsQueue.java:67-71 | the record is appended to the named queue and every other queue is unchanged |
| JmsQueue.ProbeStep | rmap-loader-osf-service/src/main/java/info/rmapproject/loader/osf/jms/OsfJmsQueue.java:97-118 | a browse answers whether elements remain; a failure raises the count and is rethrown while within the tolerance of 10, and answered "more" beyond it |
| JmsQueue.Drain | rmap-loader-osf-service/src/main/java/info/rmapproject/loader/osf/jms/OsfJmsQueue.java:79-90 | the wait loop makes at most one probe per outcome given, at least one when it ends, and all of them when it does not |
| JmsQueue.OsfJmsQueue.constructor | rmap-loader-osf-service/src/main/java/info/rmapproject/loader/osf/jms/OsfJmsQueue.java:55-65 | a new connection has a fail count of zero |
| JmsQueue.OsfJmsQueue.Add | rmap-loader-osf-service/src/main/java/info/rmapproject/loader/osf/jms/OsfJmsQueue.java:67-71 | the broker gains the record on that queue only |
| JmsQueue.OsfJmsQueue.HasMoreMessages | rmap-loader-osf-service/src/main/java/info/rmapproject/loader/osf/jms/OsfJmsQueue.java:97-118 | the answer and new fail count are those of one probe step |
| JmsQueue.OsfJmsQueue.ProcessMessages | rmap-loader-osf-service/src/main/java/info/rmapproject/loader/osf/jms/OsfJmsQueue.java:73-95 | every message waiting on the queue is delivered and the queue is emptied; the wait ends as the probe loop says, pausing 2 seconds per probe and 10 more after a rethrow |
| JmsQueue.DrainAfterNonEmptyThenEmpty | rmap-loader-osf-service/src/main/java/info/rmapproject/loader/osf/jms/OsfJmsQueue.java:81-84 | a queue seen non-empty n times and then empty is left after n + 1 probes with the fail count unchanged |
| JmsQueue.DrainCountsFailures | rmap-loader-osf-service/src/main/java/info/rmapproject/loader/osf/jms/OsfJmsQueue.java:107-110 | the fail count grows by exactly the failed probes the loop made |
| JmsQueue.PastToleranceNeverAborts | rmap-loader-osf-service/src/main/java/info/rmapproject/loader/osf/jms/OsfJmsQueue.java:110-116 | once past the tolerance no failure ends the loop early |
| JmsQueue.FailureWithinToleranceAborts | rmap-loader-osf-service/src/main/java/info/rmapproject/loader/osf/jms/OsfJmsQueue.java:85-90 | within the tolerance a failed probe ends the loop at once |
| QueueName.GetQueueName | rmap-loader-osf-service/src/main/java/info/rmapproject/loader/osf/model/QueueName.java:57-75 | fails exactly for a null prefix or a retry level without a type; otherwise the prefix, then ".type" when non-empty, then ".level" when given and the type is non-empty |
| QueueName.Name | rmap-loader-osf-service/src/main/java/info/rmapproject/loader/osf/model/QueueName.java:57-75 | the tier queue of a stage and kind is the name getQueueName builds for it |
| QueueName.TierSuffixDistinct | rmap-loader-osf-service/src/main/java/info/rmapproject/loader/osf/model/QueueName.java:39-48 | the five tiers add different suffixes |
| QueueName.NameShape | rmap-loader-osf-service/src/main/java/info/rmapproject/loader/osf/model/QueueName.java:62-74 | a tier queue is prefix, dot, type string and the tier suffix |
| QueueName.TierNamesDistinct | rmap-loader-osf-service/src/main/java/info/rmapproject/loader/osf/OsfLoaderCLI.java:171-172 | the five queues of one stage and kind are pairwise distinct |
| QueueName.StagesDistinct | rmap-loader-osf-service/src/main/java/info/rmapproject/loader/osf/model/QueueName.java:33-36 | no transform queue is an ingest queue |
| Tiers.Route | rmap-loader-osf-service/src/main/java/info/rmapproject/loader/osf/jms/OsfJmsQueue.java:76-78 | the consumer makes one decision per delivered message |
| Tiers.PlaceSends | rmap-loader-osf-service/src/main/java/info/rmapproject/loader/osf/OsfTransformService.java:119-125 | every queue ends as it was followed by what the tier sent to it, in order |
| Tiers.PassedPlusFailed | rmap-loader-osf-service/src/main/java/info/rmapproject/loader/osf/OsfTransformService.java:111-133 | the counted messages and those sent to the fail queue account for every message |
| Tiers.RouteFailsFor | rmap-loader-osf-service/src/main/java/info/rmapproject/loader/osf/OsfTransformService.java:122-125 | an always-failing message is failed in every position |
| Tiers.RouteForwardsOutside | rmap-loader-osf-service/src/main/java/info/rmapproject/loader/osf/OsfTransformService.java:118-119 | no decision forwards into the excluded queues |
| Tiers.SentCounts | rmap-loader-osf-service/src/main/java/info/rmapproject/loader/osf/OsfTransformService.java:125 | every copy of an always-failing message goes to the fail queue and none to another tier queue |
| Tiers.TierCounts | rmap-loader-osf-service/src/main/java/info/rmapproject/loader/osf/OsfTransformService.java:109-134 | a tier call empties its source of the message and adds every copy to its fail queue, leaving the other tier queues as they were |
| Tiers.TierQueuesDistinct | rmap-loader-osf-service/src/main/java/info/rmapproject/loader/osf/OsfLoaderCLI.java:171-172 | the five tier queues of a stage and kind are pairwise distinct |
| Tiers.ChainMovesFailures | rmap-loader-osf-service/src/main/java/info/rmapproject/loader/osf/OsfLoaderCLI.java:191-201 | the four tier calls in the loader order move retry3 and fail copies to fail, retry2 to retry3, and primary and retry1 copies to retry2 |
| Tiers.CycleMovesFailures | rmap-loader-osf-service/src/main/java/info/rmapproject/loader/osf/OsfLoaderCLI.java:186-201 | the same movement over the named tier queues of a stage and kind |
| Tiers.FailingMessageJourney | rmap-loader-osf-service/src/main/java/info/rmapproject/loader/osf/OsfLoaderCLI.java:186-201 | a message that always fails is on retry2 after one cycle, retry3 after two, and the fail queue from then on |
| TransformerFactory.CreateDiscoBuilder | rmap-loader-osf-transformer/src/main/java/info/rmapproject/loader/osf/transformer/DiscoTransformerFactory.java:37-57 | registrations and users get their own transformer; nodes and every other kind get the node transformer |
| TransformerFactory.CreateNodeDiscoBuilder | rmap-loader-osf-transformer/src/main/java/info/rmapproject/loader/osf/transformer/DiscoTransformerFactory.java:49-54 | the node transformer made for nodes and other kinds is new, holds no record and no model, and has the default creator and description |
| TransformerFactory.ModelBeforeRecordFails | rmap-loader-osf-transformer/src/main/java/info/rmapproject/loader/osf/transformer/DiscoTransformerFactory.java:49-54 | asking the factory's node transformer for a model before a record is set is an error |
| Transform.TransformerForIsFactory | rmap-loader-osf-service/src/main/java/info/rmapproject/loader/osf/OsfTransformService.java:75-92 | the service chooses the transformer the factory would |
| Transform.TransformRecord | rmap-loader-osf-service/src/main/java/info/rmapproject/loader/osf/OsfTransformService.java:67-100 | no document exactly for an empty id; an unknown type string fails; otherwise the outcome of the kind's transformer |
| Transform.TransformDest | rmap-loader-osf-service/src/main/java/info/rmapproject/loader/osf/OsfTransformService.java:111-128 | a message is forwarded exactly when its id is non-empty and transformation succeeds, then to the ingest queue with the Turtle body and content type; otherwise it goes to the fail queue unchanged |
| Transform.EmptyBodyFails | rmap-loader-osf-service/src/main/java/info/rmapproject/loader/osf/OsfTransformService.java:69 | an empty body always goes to the fail queue |
| Transform.UnknownTypeAlwaysFails | rmap-loader-osf-service/src/main/java/info/rmapproject/loader/osf/OsfTransformService.java:71-75 | a content type naming no kind fails whatever the tier |
| Transform.ForwardsToIngestOnly | rmap-loader-osf-service/src/main/java/info/rmapproject/loader/osf/OsfTransformService.java:118-119 | the transform stage never feeds its own tier queues |
| Transform.IdentifiedRecordIsTransformed | rmap-loader-osf-service/src/main/java/info/rmapproject/loader/osf/OsfTransformService.java:112-117 | a message built by Identify is transformed by its kind's transformer for its id, and forwarded exactly when that succeeds |
| Transform.TransformTierAccounts | rmap-loader-osf-service/src/main/java/info/rmapproject/loader/osf/OsfTransformService.java:111-133 | every message of a transform tier is counted or sent to the fail queue, never both |
| Transform.OsfTransformService.constructor | rmap-loader-osf-service/src/main/java/info/rmapproject/loader/osf/OsfTransformService.java:55-64 | a new service has counted nothing |
| Transform.OsfTransformService.Consume | rmap-loader-osf-service/src/main/java/info/rmapproject/loader/osf/OsfTransformService.java:111-128 | the message is placed as its decision says and counted exactly when it did not fail |
| Transform.OsfTransformService.TransformRecords | rmap-loader-osf-service/src/main/java/info/rmapproject/loader/osf/OsfTransformService.java:109-134 | the queues end as one transform tier call leaves them and the count is the running total of passed messages |
| Ingest.Decide | rmap-loader-osf-service/src/main/java/info/rmapproject/loader/osf/OsfIngestService.java:117-139 | invalid bodies and failed lookups fail; up-to-date records are skipped; new records are deposited; existing ones are deposited when different, re-registered when equal, and failed when the comparison fails |
| Ingest.IngestStep | rmap-loader-osf-service/src/main/java/info/rmapproject/loader/osf/OsfIngestService.java:114-148 | nothing is ever forwarded; a failure changes nothing in the registry or RMap; a skip changes nothing; a re-registration adds one registry entry; a deposit adds the entry and the message, or fails when the deposit does |
| Ingest.InvalidAlwaysFails | rmap-loader-osf-service/src/main/java/info/rmapproject/loader/osf/OsfIngestService.java:118 | a body that does not validate fails whatever the registry holds |
| Ingest.NeverForwards | rmap-loader-osf-service/src/main/java/info/rmapproject/loader/osf/OsfIngestService.java:114-148 | the ingest stage never feeds any queue but the fail queue |
| Ingest.StepKeepsSound | rmap-loader-osf-service/src/main/java/info/rmapproject/loader/osf/OsfIngestService.java:114-148 | after any message, every deposited DiSCO validated and is registered |
| Ingest.RegisterKeepsSound | rmap-loader-osf-service/src/main/java/info/rmapproject/loader/osf/OsfIngestService.java:131 | registering one more record keeps RMap sound |
| Ingest.DepositKeepsSound | rmap-loader-osf-service/src/main/java/info/rmapproject/loader/osf/OsfIngestService.java:128-135 | depositing a validated DiSCO and registering its record keeps RMap sound |
| Ingest.RouteKeepsSound | rmap-loader-osf-service/src/main/java/info/rmapproject/loader/osf/OsfIngestService.java:151 | after a whole tier, every deposited DiSCO validated and is registered |
| Ingest.IngestTierAccounts | rmap-loader-osf-service/src/main/java/info/rmapproject/loader/osf/OsfIngestService.java:114-154 | every message of an ingest tier is counted or sent to the fail queue, never both |
| Ingest.HarvestRecordRegistry.constructor | rmap-loader-osf-service/src/main/java/info/rmapproject/loader/osf/OsfIngestService.java:106-108 | the registry starts with the entries given |
| Ingest.HarvestRecordRegistry.GetStatus | rmap-loader-osf-service/src/main/java/info/rmapproject/loader/osf/OsfIngestService.java:120-139 | the status over the rows registered so far; a failed lookup fails every message about the record and an up-to-date status skips every valid one |
| Ingest.HarvestRecordRegistry.Register | rmap-loader-osf-service/src/main/java/info/rmapproject/loader/osf/OsfIngestService.java:131 | one entry is appended |
| Ingest.RmapStore.constructor | rmap-loader-osf-service/src/main/java/info/rmapproject/loader/osf/OsfIngestService.java:112 | RMap starts with the deposits given |
| Ingest.DiscoDepositer.constructor | rmap-loader-osf-service/src/main/java/info/rmapproject/loader/osf/OsfIngestService.java:105-112 | the depositer works on the given registry and RMap |
| Ingest.DiscoDepositer.Accept | rmap-loader-osf-service/src/main/java/info/rmapproject/loader/osf/OsfIngestService.java:128 | succeeds exactly when the deposit does, then registers and stores the message; otherwise changes nothing |
| Ingest.OsfIngestService.constructor | rmap-loader-osf-service/src/main/java/info/rmapproject/loader/osf/OsfIngestService.java:77-94 | a new service has counted nothing |
| Ingest.OsfIngestService.Consume | rmap-loader-osf-service/src/main/java/info/rmapproject/loader/osf/OsfIngestService.java:114-148 | the registry, RMap and queues change as one ingest step says and the count rises exactly when it did not fail |
| Ingest.OsfIngestService.IngestRecords | rmap-loader-osf-service/src/main/java/info/rmapproject/loader/osf/OsfIngestService.java:104-156 | the queues and RMap end as one ingest tier call leaves them and the count is the running total |
| NodeTransformer.ReplaceChar | rmap-loader-osf-transformer/src/main/java/info/rmapproject/loader/osf/transformer/OsfNodeDiscoTransformer.java:347 | same length, with exactly the given character replaced at each position |
| NodeTransformer.ReplaceAtStart | rmap-loader-osf-transformer/src/main/java/info/rmapproject/loader/osf/transformer/OsfNodeDiscoTransformer.java:268 | a leading occurrence of the target is replaced and the rest is processed after it |
| NodeTransformer.ReplaceAbsent | rmap-loader-osf-transformer/src/main/java/info/rmapproject/loader/osf/transformer/OsfNodeDiscoTransformer.java:268 | a string in which the target does not occur is unchanged |
| NodeTransformer.ReplaceCharAbsent | rmap-loader-osf-transformer/src/main/java/info/rmapproject/loader/osf/transformer/OsfNodeDiscoTransformer.java:347 | a category without spaces is unchanged by the dash replacement |
| NodeTransformer.MapCategoryToIri | rmap-loader-osf-transformer/src/main/java/info/rmapproject/loader/osf/transformer/OsfNodeDiscoTransformer.java:344-355 | null for no category; an error exactly for an empty value; otherwise the terms prefix then the value with spaces as dashes and the first character upper-cased |
| NodeTransformer.MapCategoryWithoutSpaces | rmap-loader-osf-transformer/src/main/java/info/rmapproject/loader/osf/transformer/OsfNodeDiscoTransformer.java:346-350 | a value without spaces only gets its first letter upper-cased |
| NodeTransformer.ProjectTerm | rmap-loader-osf-transformer/src/main/java/info/rmapproject/loader/osf/transformer/OsfNodeDiscoTransformer.java:344-355 | "project" maps to the OSF project term |
| NodeTransformer.RegistrationTerm | rmap-loader-osf-transformer/src/main/java/info/rmapproject/loader/osf/transformer/OsfNodeDiscoTransformer.java:344-355 | "registration" maps to the OSF registration term |
| NodeTransformer.MapCategoryKeepsCapitalised | rmap-loader-osf-transformer/src/main/java/info/rmapproject/loader/osf/transformer/OsfNodeDiscoTransformer.java:346-350 | a capitalised value without spaces is kept as it is |
| NodeTransformer.IdentifierStmts | rmap-loader-osf-transformer/src/main/java/info/rmapproject/loader/osf/transformer/OsfNodeDiscoTransformer.java:260-273 | a DOI gives its normalised form and the http-prefix-swapped form; an ark gives the ark prefix and value; anything else gives nothing |
| NodeTransformer.DoiSecondFormSwapsPrefix | rmap-loader-osf-transformer/src/main/java/info/rmapproject/loader/osf/transformer/OsfNodeDiscoTransformer.java:267-269 | the second DOI form is the non-http prefix followed by the same rest |
| NodeTransformer.IdentifiersStmts | rmap-loader-osf-transformer/src/main/java/info/rmapproject/loader/osf/transformer/OsfNodeDiscoTransformer.java:257-276 | only dcterms:identifier statements about the node, at most two per identifier |
| NodeTransformer.ContributorsStmts | rmap-loader-osf-transformer/src/main/java/info/rmapproject/loader/osf/transformer/OsfNodeDiscoTransformer.java:222-234 | exactly two statements per contributor |
| NodeTransformer.ContributorPairs | rmap-loader-osf-transformer/src/main/java/info/rmapproject/loader/osf/transformer/OsfNodeDiscoTransformer.java:224-232 | each contributor gives a contributor statement to its IRI followed by a foaf:Person type for it |
| NodeTransformer.ContributorPairAt | rmap-loader-osf-transformer/src/main/java/info/rmapproject/loader/osf/transformer/OsfNodeDiscoTransformer.java:224-232 | the contributor at position k yields statements 2k (contributor link) and 2k+1 (foaf:Person type) |
| NodeTransformer.ContributorsDescriptive | rmap-loader-osf-transformer/src/main/java/info/rmapproject/loader/osf/transformer/OsfNodeDiscoTransformer.java:229-231 | contributor statements say nothing about the tree shape |
| NodeTransformer.ForkedFromStmts | rmap-loader-osf-transformer/src/main/java/info/rmapproject/loader/osf/transformer/OsfNodeDiscoTransformer.java:242-248 | no statement exactly for a null or empty fork reference; otherwise one wasDerivedFrom statement to the OSF IRI of its last segment |
| NodeTransformer.DescriptionIsDescriptive | rmap-loader-osf-transformer/src/main/java/info/rmapproject/loader/osf/transformer/OsfNodeDiscoTransformer.java:181-193 | a node's description says nothing about the tree shape |
| NodeTransformer.TreeIris | rmap-loader-osf-transformer/src/main/java/info/rmapproject/loader/osf/transformer/OsfNodeDiscoTransformer.java:171-175 | the root is the first node aggregated |
| NodeTransformer.TreeEdges | rmap-loader-osf-transformer/src/main/java/info/rmapproject/loader/osf/transformer/OsfNodeDiscoTransformer.java:177-179 | a node with a parent has the edge from that parent |
| NodeTransformer.ForestEdges | rmap-loader-osf-transformer/src/main/java/info/rmapproject/loader/osf/transformer/OsfNodeDiscoTransformer.java:206-211 | every child has an edge from the parent |
| NodeTransformer.AggregatedAppend | rmap-loader-osf-transformer/src/main/java/info/rmapproject/loader/osf/transformer/OsfNodeDiscoTransformer.java:169-197 | aggregation and part statements of concatenated models concatenate |
| NodeTransformer.DescriptiveIsShapeless | rmap-loader-osf-transformer/src/main/java/info/rmapproject/loader/osf/transformer/OsfNodeDiscoTransformer.java:181-193 | descriptive statements aggregate nothing and relate no parts |
| NodeTransformer.TreeOkIffMappable | rmap-loader-osf-transformer/src/main/java/info/rmapproject/loader/osf/transformer/OsfNodeDiscoTransformer.java:169-197 | the model of a tree fails exactly when some node has an empty category value |
| NodeTransformer.ForestOkIffMappable | rmap-loader-osf-transformer/src/main/java/info/rmapproject/loader/osf/transformer/OsfNodeDiscoTransformer.java:206-213 | the children's statements fail exactly when some node below has an empty category value |
| NodeTransformer.TreeShape | rmap-loader-osf-transformer/src/main/java/info/rmapproject/loader/osf/transformer/OsfNodeDiscoTransformer.java:169-197 | the node tree aggregates all its nodes depth-first and its hasPart statements are exactly its edges |
| NodeTransformer.OwnShape | rmap-loader-osf-transformer/src/main/java/info/rmapproject/loader/osf/transformer/OsfNodeDiscoTransformer.java:171-179 | a node's own statements aggregate it once and hold only the edge from its parent |
| NodeTransformer.ForestShape | rmap-loader-osf-transformer/src/main/java/info/rmapproject/loader/osf/transformer/OsfNodeDiscoTransformer.java:206-213 | the children aggregate all nodes below in order and their hasPart statements are exactly their edges |
| NodeTransformer.TreeTargets | rmap-loader-osf-transformer/src/main/java/info/rmapproject/loader/osf/transformer/OsfNodeDiscoTransformer.java:177-179 | the parts of a tree are all its nodes, less the root when it has no parent |
| NodeTransformer.ForestTargets | rmap-loader-osf-transformer/src/main/java/info/rmapproject/loader/osf/transformer/OsfNodeDiscoTransformer.java:206-211 | the parts below a parent are all the nodes below it |
| NodeTransformer.DiscoModelOkIffMappable | rmap-loader-osf-transformer/src/main/java/info/rmapproject/loader/osf/transformer/OsfNodeDiscoTransformer.java:147-161 | a DiSCO model is built exactly when every node has a mappable category |
| NodeTransformer.DiscoModelShape | rmap-loader-osf-transformer/src/main/java/info/rmapproject/loader/osf/transformer/OsfNodeDiscoTransformer.java:147-161 | the DiSCO aggregates every node of the record once, depth-first; its parts are exactly the tree edges, covering all nodes but the root and every child of the root |
| NodeTransformer.ChildrenErrExtends | rmap-loader-osf-transformer/src/main/java/info/rmapproject/loader/osf/transformer/OsfNodeDiscoTransformer.java:206-213 | once one child fails, the whole list of children fails |
| NodeTransformer.OsfNodeDiscoTransformer.constructor | rmap-loader-osf-transformer/src/main/java/info/rmapproject/loader/osf/transformer/OsfNodeDiscoTransformer.java:95-129 | a transformer holds the record, creator and description given, and no model yet |
| NodeTransformer.OsfNodeDiscoTransformer.Default | rmap-loader-osf-transformer/src/main/java/info/rmapproject/loader/osf/transformer/OsfNodeDiscoTransformer.java:87-89 | the no-argument transformer holds no record and no model, and has the default creator and description |
| NodeTransformer.OsfNodeDiscoTransformer.SetRecord | rmap-loader-osf-transformer/src/main/java/info/rmapproject/loader/osf/transformer/OsfNodeDiscoTransformer.java:137-141 | a new record discards the DiSCO node and the model |
| NodeTransformer.OsfNodeDiscoTransformer.GetModel | rmap-loader-osf-transformer/src/main/java/info/rmapproject/loader/osf/transformer/OsfNodeDiscoTransformer.java:147-161 | no record is an error and changes nothing; otherwise the result is the DiSCO model of the record, which the transformer keeps |
| NodeTransformer.OsfNodeDiscoTransformer.AddNode | rmap-loader-osf-transformer/src/main/java/info/rmapproject/loader/osf/transformer/OsfNodeDiscoTransformer.java:169-197 | succeeds exactly when the tree statements exist, and then appends them |
| NodeTransformer.OsfNodeDiscoTransformer.AddDescription | rmap-loader-osf-transformer/src/main/java/info/rmapproject/loader/osf/transformer/OsfNodeDiscoTransformer.java:181-193 | appends exactly the node's description statements |
| NodeTransformer.OsfNodeDiscoTransformer.AddChildNodes | rmap-loader-osf-transformer/src/main/java/info/rmapproject/loader/osf/transformer/OsfNodeDiscoTransformer.java:206-213 | succeeds exactly when every child's statements exist, and then appends them in order |
| NodeTransformer.OsfNodeDiscoTransformer.AddIdentifiers | rmap-loader-osf-transformer/src/main/java/info/rmapproject/loader/osf/transformer/OsfNodeDiscoTransformer.java:257-276 | appends exactly the identifier statements in list order |
| NodeTransformer.OsfNodeDiscoTransformer.AddContributors | rmap-loader-osf-transformer/src/main/java/info/rmapproject/loader/osf/transformer/OsfNodeDiscoTransformer.java:222-234 | appends exactly the contributor statements in list order |
| NodeTransformer.OsfNodeDiscoTransformer.AddForkedFrom | rmap-loader-osf-transformer/src/main/java/info/rmapproject/loader/osf/transformer/OsfNodeDiscoTransformer.java:242-248 | appends exactly the fork statement, if any |
| NodeTransformer.OsfNodeDiscoTransformer.AddLiteral | rmap-loader-osf-transformer/src/main/java/info/rmapproject/loader/osf/transformer/OsfNodeDiscoTransformer.java:188-191 | appends the literal statement unless the value is null |
| LoaderCli.TypeLine | rmap-loader-osf-service/src/main/java/info/rmapproject/loader/osf/OsfLoaderCLI.java:91-97 | an error line exactly for a given type that is not node, registration or user |
| LoaderCli.ProcessLine | rmap-loader-osf-service/src/main/java/info/rmapproject/loader/osf/OsfLoaderCLI.java:98-104 | an error line exactly for a given process outside the five allowed |
| LoaderCli.Parse | rmap-loader-osf-service/src/main/java/info/rmapproject/loader/osf/OsfLoaderCLI.java:83-118 | help wins; otherwise the options are rejected exactly when the type or process is invalid, with one line per error; otherwise they run with the defaults node, all and no filters |
| LoaderCli.ParseArgs | rmap-loader-osf-service/src/main/java/info/rmapproject/loader/osf/OsfLoaderCLI.java:83-118 | the step-by-step validation gives the command the options ask for |
| LoaderCli.LaunchedTypeIsKnown | rmap-loader-osf-service/src/main/java/info/rmapproject/loader/osf/OsfLoaderCLI.java:139-149 | every type the option check lets through is a kind the run knows |
| LoaderCli.AllIsTheThreeInTurn | rmap-loader-osf-service/src/main/java/info/rmapproject/loader/osf/OsfLoaderCLI.java:174-232 | "all" is identify, then transform, then ingest, each on what the one before left |
| LoaderCli.OtherProcessesRunNoStage | rmap-loader-osf-service/src/main/java/info/rmapproject/loader/osf/OsfLoaderCLI.java:174-244 | a process other than identify, transform, ingest or all runs none of the three stages |
| LoaderCli.TransformRunMovesUnknownType | rmap-loader-osf-service/src/main/java/info/rmapproject/loader/osf/OsfLoaderCLI.java:183-206 | each transform run moves a message of unknown content type one step along retry2, retry3, fail |
| LoaderCli.IngestRunMovesInvalid | rmap-loader-osf-service/src/main/java/info/rmapproject/loader/osf/OsfLoaderCLI.java:208-232 | each ingest run moves a message whose DiSCO does not validate one step along retry2, retry3, fail |
| LoaderCli.RunKeepsRmapSound | rmap-loader-osf-service/src/main/java/info/rmapproject/loader/osf/OsfLoaderCLI.java:139-251 | no run leaves an unvalidated or unregistered deposit in RMap |
| LoaderCli.CycleKeepsSound | rmap-loader-osf-service/src/main/java/info/rmapproject/loader/osf/OsfLoaderCLI.java:217-227 | the four ingest tier calls keep RMap sound |
| LoaderCli.RunTransform | rmap-loader-osf-service/src/main/java/info/rmapproject/loader/osf/OsfLoaderCLI.java:254-259 | one transform tier call by a fresh service; the count is what that call passed |
| LoaderCli.RunIngest | rmap-loader-osf-service/src/main/java/info/rmapproject/loader/osf/OsfLoaderCLI.java:262-267 | one ingest tier call by a fresh service; the count is what that call passed |
| LoaderCli.TierName | rmap-loader-osf-service/src/main/java/info/rmapproject/loader/osf/OsfLoaderCLI.java:171-172 | the names run asks for are the tier queues of the stage and kind |
| LoaderCli.RunIdentifyStage | rmap-loader-osf-service/src/main/java/info/rmapproject/loader/osf/OsfLoaderCLI.java:174-181 | the stores and count are those of the identify stage over the parsed filters |
| LoaderCli.RunTransformStage | rmap-loader-osf-service/src/main/java/info/rmapproject/loader/osf/OsfLoaderCLI.java:183-206 | the queues and total are those of one transform cycle in the loader order |
| LoaderCli.RunIngestStage | rmap-loader-osf-service/src/main/java/info/rmapproject/loader/osf/OsfLoaderCLI.java:208-232 | the queues, registry, RMap and total are those of one ingest cycle in the loader order |
| LoaderCli.Run | rmap-loader-osf-service/src/main/java/info/rmapproject/loader/osf/OsfLoaderCLI.java:139-251 | an unknown type exits with 1 and changes nothing; otherwise the stores and report are those of the stages the process names |
| LoaderCli.Execute | rmap-loader-osf-service/src/main/java/info/rmapproject/loader/osf/OsfLoaderCLI.java:58-132 | help changes nothing and exits 0; rejected options exit 1 and run nothing; otherwise the run of the validated options, exiting 0 |

## Left out

- `OsfIteratorAdapter`: paging through the OSF API is not modelled. The records it yields are a parameter, as is a failed `next()`.
- `readParamsIntoMap`: query-string parsing is a parameter (`Environment.readParams`). Its `URISyntaxException` is not modelled.
- `subtractDay`: no core code calls it.
- OSF client calls, HTTP status probes, parent lookups, Turtle rendering, DiSCO validation, RMap fetch, comparison and deposit are network or library calls: they are oracles passed in.
- The registration and user DiSCO transformers and the `DiscoTransformer` base class are not part of this model. Transform uses their result through the renderer parameter, and so does the node transformer's `addDiscoHeader`.
- `TransformUtils`: `isDoi`, `normalizeDoi` and the two DOI prefixes are parameters (`DoiRules`). `extractLastSubFolder` is taken to behave as the loader's own.
- The fresh blank DiSCO node is one constant, `DiscoNode`, so two models cannot be told apart by their node ids.
- `requeuefails`: `requeueFailures` is not part of this model. The process runs no stage (`LoaderCli.OtherProcessesRunNoStage`), and the move from the fail queues back to the primary queue is not modelled.
- Logging, console messages, `System.exit`, the debug dump of properties and environment, and `close()` are not modelled.
- `LoaderCli.Execute`: the parse errors of commons-cli and the exceptions a service throws out of `run` are not modelled. Those exit with code 1 in the code.
- Concurrency: the listener thread and the countdown latch are not modelled. Delivery is taken to finish before the wait loop begins, and the pauses are counted rather than slept.
- `JmsQueue.OsfJmsQueue.ProcessMessages`: the wait loop runs over a finite sequence of probe outcomes. A loop that outlives them ends Undecided, and this is a bound of the model only.
- A tier does not redeliver a message that its own consumer routes back to the queue being drained.
- `JmsQueue.OsfJmsQueue.Add`: writes to the broker never fail. Neither do the harvest run registry and harvest record registry writes.
- Time is an integer count of milliseconds in UTC. Local time zones and `withZoneRetainFields` are not modelled. A run reads a single instant `now`, which stands for every clock read of the Java code: the `isBefore(null)` of the stop test (`OsfIdentifyService.java:233-235`), which Joda reads as the current time, and the default window `new DateTime().minusDays(2)` (`OsfIdentifyService.java:170`). In Java these are separate reads that can differ by the time the run takes.
- `Utf8.Decode`: the platform charset is taken to be UTF-8. Malformed input is decoded one replacement character per bad byte, which may differ from the JDK on some ill-formed sequences.
- `NodeTransformer.MapCategoryToIri`: upper-casing is ASCII only, not Java's full Unicode `toUpperCase`.
- `Integer` counters are unbounded and Java's 32-bit overflow is not modelled, nor is the `long` millisecond range.
- `Identify.Promote`: the parent links are assumed to form a tree through a ghost rank. On a cycle of parent links the Java loop would not end.
- The identifier category and value are taken to be non-null, and a null list of identifiers, contributors or children is the empty sequence. `addStmt` and `addLiteralStmt` are taken to skip a null object.
- `NodeTransformer.OsfNodeDiscoTransformer.GetModel`: the model is the sequence of statements in the order they are added. Java's `LinkedHashModel` is a set, so the Java model is the set of the sequence's elements. A statement added twice appears twice here and once in Java. This happens for two contributors without a self link, which both become `https://osf.io/null/`, for a DOI whose two forms are equal, and for a node id that recurs in the tree.
- `HarvestRecords.NewHarvestableRecord`: `java.net.URI` is modelled only for the URIs built here, a fixed scheme and host followed by a path, a query and a fragment. `Character.isSpaceChar` is the list of Unicode 6.2 separators used by Java 8, in which U+180E is a space separator. Java sees a character beyond U+FFFF as two surrogates and lets them through, as the model does.
- `LoaderCli.TypeLine`, `LoaderCli.ProcessLine`: the platform line separator is taken to be "\n".
- `Identify.ConsecutiveWindowsCover`: assumes that the registry is not written between the two runs and that neither run has an explicit date filter. It is about the accept test only. On a run with no last run date the loop can stop at a record newer than the run start, and older accepted records after it are then lost to both runs (`Identify.FirstRunCanLoseRecord`).
- `LightRecord.LightRecordValue`: the id, the record type, the filter date and the retrieved date of a light record are taken to be non-null. In Java a null filter date with windowing on throws at the accept test (`OsfIdentifyService.java:206`), and a null type (`OsfHarvestableRecord.java:44`) or a null retrieved date (`OsfHarvestableRecord.java:56`) throws in the harvest record's constructor. In each case the catch skips that record. The model has no such record.
- `RecordTypes.GetType`: the lookup is taken to know only "node", "registration" and "user". So a message whose content type is the type string of another constant of the enumeration fails here (`Transform.UnknownTypeAlwaysFails`) where Java, finding that constant, would take the `default:` node branch of the transform switch.
- The record type enumeration of the OSF client is not part of this model. Its constants are taken to have the type strings "node", "registration" and "user", and `OsfUnlisted` stands for any further constant.
