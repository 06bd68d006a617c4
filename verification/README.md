# LayerTrace in Dafny

A model of the stateful cores of LayerTrace, an endpoint detection and log pipeline, with proofs that they keep their
promises on every input and over every run. `dafny verify dfyconfig.toml` checks the whole project.

| part | files | what is proved |
|---|---|---|
| Agent spool | `AgentShipper`, `ShipOutcome`, `AgentDelivery` | exact first-in first-out conservation over any run; what a call asks and answers, by status codes; in-order delivery with lost acknowledgements and crashes; when a call is accepted and what a malformed file blocks |
| Detection | `EventSchema`, `Intake`, `Rules`, `RuleConditions`, `Grouping`, `Beacons`, `Correlation`, `Verdicts`, `TacticCounts`, `Scores`, `Detection`, `Evidence` | the validation split, who raises each rule and what every score is, in fields and numbers, when arrival order does not matter, beacons, incidents and their earliest chain, coherence of the verdict, when the evidence sentence about the transfer is true |
| Generated flows | `SampleLoader` | when a cyclic flow is reported as a beacon, and with which interval |
| Store | `StoreRows`, `RunStore`, `ReadBack`, `AnalysisPayload`, `AnalysisStored` | what a committed save has stored under every id, for any payload and for an analysis of raw events; rows are always a consistent relational instance; when a save commits; which alerts an incident is linked to |
| Tasks and jobs | `Outbox`, `TaskStore`, `LocalRunner`, `AnalysisJobs`, `QueueHistory` | the drain loop and its outbox ledger, thread interleavings of one runner, publisher and worker interleavings |
| Captures | `PcapFormat`, `Captures`, `FlowTable`, `FlowReport` | which frames are read, on their bytes; round trip of written captures, mixed with other traffic or not; the flow table as a grouping by endpoint pair, conservation of packets and bytes |
| Masking | `Privacy`, `Redaction` | what is masked, in characters, and by which token; normal form and idempotence of the three replacement passes |
| Report | `ReportHtml`, `ReportReading`, `ReportLines` | well-formed output, what each line is and what is written for it, in characters, the line machine as grouped blocks, every shown element is that of a Markdown line, which lines vanish |
| Shared | `Prelude`, `Json` | sorting, filtering, numbering, JSON values |

## How to read it

Each object or loop that the program updates step by step is a class or a method here, and its `ensures` equates the
result with a specification function. What the program promises is proved about those functions. Concurrency and
crashes are state machines whose steps are the store's transactions, single requests, and crashes; theorems about them
speak of every finite run.

- Event dictionaries are key/value pairs in insertion order (`Json.Fields`); payloads handed to the store are maps.
- Times are integers: microseconds in the detector, nanoseconds in captures. Python's text, date and URL functions are
  total functions in the record `EventSchema.Library`, left arbitrary, so every theorem holds for any of them. Two
  theorems assume something: the cyclic-flow theorem that parsing a formatted time gives the time back to the second
  (`SampleLoader.Reads`), and the counterexample on evidence that six times are read as what they are
  (`Evidence.ReadsTimes`).
- The regular expression engine matches greedily and backtracks. The digit class of the patterns is a parameter that
  contains the ASCII digits and otherwise only characters outside ASCII (`Privacy.DecimalClass`).
- The collector is an arbitrary function from request numbers to answers. Where delivery matters it is honest: it
  answers 202 only for a batch it has stored (`AgentShipper.Honest`).
- Spool names increase from call to call (`AgentShipper.IncreasingNames`). Fresh ids are inputs constrained to be fresh.

## Findings

- Arrival order matters exactly when two different well-formed events share an id after masking: the first one is kept
  (`EventSchema.RepeatedIdFirstWins`), and some rearrangement of the input changes the analysed events. If well-formed
  events that share an id are copies of each other, order changes neither them nor anything computed from them
  (`Detection.OrderIndependence`). Two such events may differ in a field that no published row shows. A rejected event
  reserves no id.
- A call is accepted exactly when every spool file is readable and the collector answers 202 to each of them and to the
  new batch (`AgentShipper.AcceptedIff`). So a malformed spool file, which nothing removes, makes every later file and
  call wait behind it (`AgentShipper.RunBlocked`).
- A table row of a report vanishes exactly when its trimmed first cell holds no character but `-` and `:`, a blank cell
  included (`ReportReading.SeparatorIff`), because the converter takes it for the line under a table header
  (`src/report_builder.py:468`). The report writes such rows itself: a tactic count without a tactic becomes
  a row that starts with `| - |` (`src/report_builder.py:207`). `ReportReading.DataRowsVanish` has two
  such rows. Every other line that is not blank is shown (`ReportReading.ReportShowsLines`).
- A save fails only when the payload repeats an id: no payload can make a reference dangle (`RunStore.SaveCommitsIff`).
- A fixed evidence sentence of every incident says the transfer occurred after the execution, and no code compares the
  two times. The sentence is true exactly when no event of the host up to the execution of its earliest chain raises
  R005 (`Evidence.EvidenceIff`). So a host gets an incident with a false sentence exactly when it has a periodic group
  and a large transfer no later than that execution (`Evidence.FalseSentenceIff`); `Evidence.TransferFirst` has six raw
  events whose analysis reports one.
- The unique constraint on the broker id of a job never fires while the broker hands out unused ids
  (`AnalysisJobs.BrokerIdsFree`).

## Model

| member | source | states |
|---|---|---|
| `AgentShipper.Agent.ShipEvents` | src/agent_shipper.py:69-127 | the call with its replay loop has exactly the effect and result of the closed form `Ship`, which names the number of replays, the queue, the collector's log and the report at once |
| `AgentShipper.Agent.PendingSpoolPaths` | src/agent_shipper.py:221-224 | the spool files in increasing name order |
| `AgentShipper.Agent.SpoolEvents` | src/agent_shipper.py:207-218 | the batch becomes the content of the file of that name, which the rename replaces if it is there, and nothing else changes |
| `AgentShipper.ShipEffect` | src/agent_shipper.py:69-127 | one call removes a prefix of the queue, exactly the files counted as replayed, appends the new batch unless accepted, and reports acceptance exactly when the queue is empty afterwards |
| `AgentShipper.OneCallConserves` | src/agent_shipper.py:69-127 | acknowledged batches followed by the queue grow by exactly the submitted batch, at the end |
| `AgentShipper.RunConserves` | src/agent_shipper.py:69-127 | the same over any sequence of calls and any answers |
| `AgentShipper.FifoConservation` | src/agent_shipper.py:69-127 | from an empty spool, acknowledged batches followed by the spool are the submitted sequence |
| `AgentShipper.AcceptedIff` | src/agent_shipper.py:69-127 | a call is accepted iff no spool file is malformed and all requests, one per file and one for the batch, are answered with 202 |
| `AgentShipper.ShipBlocked` | src/agent_shipper.py:75-86 | a call never passes a malformed file: it and all later files stay in place and the new batch is not accepted |
| `AgentShipper.RunBlocked` | src/agent_shipper.py:75-86 | over any run a malformed file and everything behind it stay |
| `ShipOutcome.ShipTells` | src/agent_shipper.py:75-125 | files are replayed while each is readable and answered 202; a malformed file ends the call as queued with its error, and otherwise the next reply does: accepted for 202 to the new batch, rejected for 401 and 403, queued for the rest, with the reply's own text or its code as error and the right counts |
| `ShipOutcome.StoreGrows` | src/agent_shipper.py:87-105 | the requests of a call carry the files' batches in turn and then the new one, and the collector's store grows by exactly those of them it keeps |
| `AgentDelivery.CallCompletes` | src/agent_shipper.py:69-127 | the machine with one step per request, unlink and spool write reaches exactly the world and the returned result of the whole call |
| `AgentDelivery.TraceInv` | src/agent_shipper.py:87-103 | in every state reachable with lost answers and crashes each spool file and log entry is a numbered submission and queue and log are in submission order |
| `AgentDelivery.StutteringDelivery` | src/agent_shipper.py:87-119 | every entry of the collector's log is a submission, entries are in submission order, and copies of one submission are consecutive, also when submissions have equal contents |
| `AgentDelivery.SpooledNeverLost` | src/agent_shipper.py:102-103 | a submission once spooled or acknowledged is, at every later point, still in the spool or in the log of the collector, with its content |
| `EventSchema.NoErrorsIff` | src/detection_engine.py:239-262 | no schema error is reported exactly for well-formed events whose id no accepted event has |
| `Intake.WellFormedIff` | src/config.py:50-77 | well formed: the seven required fields are there, the type is one of the sixteen or empty, and given times are readable |
| `Intake.ErrorsAre` | src/detection_engine.py:239-262 | the errors of an event are exactly those that apply, each once and in order: its absent fields in alphabetical order, an id already accepted, an unsupported type, each unreadable time |
| `Intake.PrivacyRecord` | src/detection_engine.py:209-218 | the audit record of a masked event has its id or its index, and the field and action of each mask in order |
| `Intake.EventRead` | src/detection_engine.py:876-904 | an analysed event has the id, host, type and time of its dictionary |
| `Intake.EventsOrdered` | src/detection_engine.py:127-127 | the analysed events are the kept ones by time and, at one time, by id |
| `EventSchema.ValidateAndSanitize` | src/detection_engine.py:201-236 | the loop with its seen-set yields the declarative split: an event is kept iff it is well formed and no earlier well-formed event has its id; dead letters and audit records follow their indices |
| `EventSchema.SplitRejoins` | src/detection_engine.py:209-236 | kept events and dead letters, put back at the recorded indices, are the sanitized input: a partition in order |
| `EventSchema.DeadLettersExplain` | src/detection_engine.py:220-231 | each dead letter carries at least one error and the event at its index was not kept |
| `EventSchema.KeptIdsDistinct` | src/detection_engine.py:233-234 | kept ids never repeat |
| `EventSchema.NoRepeatsKeepsAll` | src/detection_engine.py:201-236 | when well-formed events have different ids, the kept events are exactly the well-formed ones |
| `EventSchema.RepeatedIdFirstWins` | src/detection_engine.py:247-249 | in any input, among the well-formed events with one id the kept one is an earliest of them, and every kept event with that id is it |
| `EventSchema.RepeatsKeepOne` | src/detection_engine.py:201-236 | when well-formed events that share an id are copies, exactly the well-formed events are kept |
| `Rules.AddEventAlerts` | src/detection_engine.py:272-295 | the chain of type tests tries exactly the rules of the table for the event's type, in its order |
| `Rules.EventAlertsIff` | src/detection_engine.py:265-573 | an alert on single events is there exactly when some event raises its rule, naming that event and its host; what raises a rule is in the rows of `RuleConditions` |
| `RuleConditions.AlertedIff` | src/detection_engine.py:265-573 | with different ids, an event is alerted by a rule other than R004 exactly when it raises the rule |
| `RuleConditions.KnownDestination` | src/detection_engine.py:306-321 | R001 on fields: six event types, and a known domain or a known address |
| `RuleConditions.SuspiciousDownload` | src/detection_engine.py:324-348 | R002 on fields: each kind of suspicion suffices alone |
| `RuleConditions.UnsignedProcess` | src/detection_engine.py:351-371 | R003 on fields: a process start whose `signed` is false and whose path is suspicious |
| `RuleConditions.UnsignedDownloadAlerted` | src/detection_engine.py:351-371 | every unsigned process started below a downloads directory is alerted |
| `RuleConditions.SignedNeverAlerted` | src/detection_engine.py:357-357 | no R003 alert for an event whose `signed` is anything but false |
| `RuleConditions.TransferTurns` | src/detection_engine.py:374-392 | R005 turns at exactly 50,000,000 bytes |
| `RuleConditions.HoursTurn` | src/detection_engine.py:395-413 | R006 turns at hours 7 and 20 |
| `RuleConditions.ShellConnection` | src/detection_engine.py:416-434 | R007 on fields |
| `RuleConditions.AbnormalTunnel` | src/detection_engine.py:437-456 | R008 on fields: an active tunnel with a large transfer or an unusual network |
| `RuleConditions.BlockedRequest` | src/detection_engine.py:459-480 | R009 on fields: each kind of known destination suffices alone |
| `RuleConditions.MonitoredAction` | src/detection_engine.py:483-509 | R010 on fields: each kind of known action suffices alone |
| `RuleConditions.KnownHash` | src/detection_engine.py:512-531 | R011 on fields |
| `RuleConditions.ResponseAction` | src/detection_engine.py:534-552 | R012 on fields |
| `RuleConditions.HighPrediction` | src/detection_engine.py:555-573 | R013 on fields |
| `RuleConditions.AnalysisAlertIff` | src/detection_engine.py:113-173 | in every analysis of raw events with text ids, an analysed event is alerted exactly when it raises the rule |
| `RuleConditions.AlertsGrow` | src/detection_engine.py:306-531 | adding indicators to the database removes no alert |
| `RuleConditions.AlertSays` | src/detection_engine.py:44-110 | score, tactics, severity and decision of an alert of each rule, in numbers and names |
| `Rules.NumberedIdsDistinct` | src/detection_engine.py:299-301 | alert ids never collide, for any number of alerts |
| `Grouping.GroupBy` | src/detection_engine.py:579-586 | one pass over a dictionary of lists yields first-seen key order and, per key, exactly the members in input order |
| `Grouping.KeysIff` | src/detection_engine.py:579-586 | a key is in the dictionary exactly when some element has it |
| `Beacons.DetectBeaconing` | src/detection_engine.py:576-620 | the loops over groups yield, in key order, the alert of each group that has one |
| `Beacons.LeadingBest` | src/detection_engine.py:601-601 | the scan for the most common gap returns the first gap of maximal count |
| `Beacons.VerdictIff` | src/detection_engine.py:594-603 | an interval is reported exactly when it is the mode of the gaps, occurs at least twice, has at least three gaps within five seconds and is at most two minutes; the regular count is the number of such gaps |
| `Beacons.SeriesVerdictInvariant` | src/detection_engine.py:593-603 | verdict, interval and regular count do not change when the times are reordered or all shifted |
| `Beacons.BeaconAlertsSound` | src/detection_engine.py:588-619 | every R004 alert names all events of one host, process and destination group of at least four, with that group's verdict |
| `Beacons.NamedGroup` | src/detection_engine.py:588-619 | with distinct ids, an alert that names one event of a group names all of it, with its verdict |
| `Beacons.ReportedIff` | src/detection_engine.py:588-619 | with distinct ids, some R004 alert names an event of a group exactly when the group has at least four events and a periodic series |
| `Beacons.EvenVerdict` | src/detection_engine.py:593-603 | four or more evenly spaced times are a beacon exactly when the step is at most two minutes |
| `Scores.BeaconIff` | src/detection_engine.py:593-603 | the beacon condition with its numbers: most common gap, twice, three gaps within 5 seconds, at most 120 seconds |
| `Scores.GroupIff` | src/detection_engine.py:579-586 | which events make up a group: connections of one host and process to one destination |
| `Correlation.FindRelatedExecution` | src/detection_engine.py:713-729 | the search loop returns the first process start 0 to 900 seconds after the download with its non-empty hash or its path |
| `Correlation.CorrelateHost` | src/detection_engine.py:635-708 | the loop over one host's downloads, left at its first complete chain, yields the host's incident or none |
| `Correlation.BuildIncidents` | src/detection_engine.py:623-710 | the loops over hosts yield the incidents in first-seen host order with their running numbers; what they hold is in `IncidentsExact` and `Scores.IncidentScoreIs` |
| `Correlation.IncidentsExact` | src/detection_engine.py:623-735 | a host has an incident iff it has R004 and R005 alerts and a download run within fifteen minutes on the host; at most one per host; it names the earliest such download and its earliest execution, and the events of an R004 and an R005 alert of the host |
| `Scores.IncidentScoreIs` | src/detection_engine.py:644-656 | an incident scores 52 plus a quarter of the host's points of R001 to R006 and R008, each rule's score times its number of alerts, cut at 100; the other six rules do not count; critical from 80 on |
| `Scores.ChainIff` | src/detection_engine.py:636-643 | a chain on fields: a download and a process start of one host, at most 900 seconds later, of the same hash or path |
| `Verdicts.BuildEndpointRisk` | src/detection_engine.py:738-766 | the loops over hosts and the bonus dictionary yield the specified rows in risk order |
| `Verdicts.RowsExact` | src/detection_engine.py:745-766 | exactly one row per host of the events, sorted by descending risk and then host |
| `Verdicts.CorrelatedScores` | src/detection_engine.py:644-651 | a host with R004 and R005 alerts sums to at least 71 and its incident scores 69 to 100 |
| `Verdicts.RowsCountEverything` | src/detection_engine.py:749-764 | alert counts of the rows sum to all alerts, incident counts to all incidents |
| `Verdicts.HighestBound` | src/detection_engine.py:772-778 | the highest score reaches a bound exactly when some row does |
| `Scores.RowScoreIs` | src/detection_engine.py:745-757 | a row's score: the larger of its host's points, each rule's score times its number of alerts, cut at 100, and the score of its incident; the bounds of its severity |
| `Scores.RowOrder` | src/detection_engine.py:766-766 | rows by falling score and, at one score, by host as text |
| `Scores.StateBounds` | src/detection_engine.py:769-787 | red from 80 on, yellow from 50 on, green below |
| `Scores.DecisionIs` | src/detection_engine.py:943-950 | the decision by incidents, highest score and dead letters |
| `TacticCounts.BuildMitreDistribution` | src/detection_engine.py:790-800 | the counting loops yield the specified distribution |
| `TacticCounts.DistributionExact` | src/detection_engine.py:790-800 | exactly the mentioned tactics are listed, each with its number of mentions, and the counts sum to all mentions |
| `Scores.TacticRowIs` | src/detection_engine.py:790-800 | a tactic is listed iff it is mentioned, with its mentions by alerts and one per incident for each of the four tactics of an incident |
| `Scores.TacticOrder` | src/detection_engine.py:790-800 | tactics come in the published order of the fourteen |
| `Detection.DetectAlerts` | src/detection_engine.py:265-303 | event alerts in event order, then beacons, then numbering and severities; which alerts these are is in `EventAlertsIff`, `RuleConditions` and `Beacons.ReportedIff` |
| `Detection.AnalyzeEvents` | src/detection_engine.py:113-173 | the composed pipeline, with the error case when no event is valid, computes `Analyze` |
| `Detection.AlertsGrounded` | src/detection_engine.py:265-303 | every alert has its rule's score and tactics, lies on a host of the events and names events of that host only |
| `Detection.OrderIndependence` | src/detection_engine.py:113-172 | for raw events with text ids: every permutation gives identical analysed events, alerts with ids and order, incidents, endpoint risk, state, tactic counts and decision if and only if well-formed events that share an id are copies |
| `Detection.CopiesAreOrderFree` | src/detection_engine.py:201-236 | a rearrangement of an input whose repeats are copies gives the same result, or no valid event in both |
| `Detection.VerdictCoherent` | src/detection_engine.py:738-787 | scores lie in 0..100; an incident scores at least 69 and its host's row at least 71, so the state is not green; red iff some row is critical; the decision follows; nothing is counted twice or missed |
| `Detection.AnalysisCoherent` | src/detection_engine.py:113-173 | the same for every analysis of raw events |
| `Detection.AnalysisReports` | src/detection_engine.py:113-173 | in every analysis of raw events each R004 alert reports one whole periodic group; a host has an incident iff its events hold a periodic group of at least four, one that raises R005, and a download run within fifteen minutes, at most one, naming the earliest chain; with text ids, an R004 alert names an event of a group iff the group is periodic |
| `Detection.TransferRuleIff` | src/detection_engine.py:265-303 | a host has an R005 alert iff one of its events raises the rule |
| `Detection.BeaconRuleIff` | src/detection_engine.py:576-620 | a host has an R004 alert iff it has a periodic group of at least four connections |
| `Evidence.FirstTransferAlert` | src/detection_engine.py:636-643 | the first R005 alert of a host is there iff a transfer of the host raises R005, and names the first such event alone |
| `Evidence.EvidenceIff` | src/detection_engine.py:635-704 | the transfer named by the incident of a host comes after its execution iff no event of the host up to the execution of the earliest chain of the events raises R005 |
| `Evidence.FalseSentenceIff` | src/detection_engine.py:635-704 | a host has an incident with a false sentence iff its events hold a periodic group and an event raising R005 no later than the execution of the earliest chain |
| `Evidence.AnalysisEvidence` | src/detection_engine.py:113-173 | both in every analysis of raw events with text ids |
| `Evidence.TransferFirst` | src/detection_engine.py:698-704 | six raw events with all required fields pass masking and validation, and their analysis has an incident whose transfer comes before its execution, whatever the signatures; of the library it assumes only how the six times are read and that digits are digits |
| `SampleLoader.ExpandGeneratedFlows` | src/sample_loader.py:72-106 | the nested loops yield each flow's events in index order, with the defaults of absent keys |
| `Intake.GeneratedTimes` | src/sample_loader.py:85-91 | times advance by the interval, and receipt follows after the delay |
| `Intake.GeneratedCycles` | src/sample_loader.py:82-98 | destinations and addresses go round, each in its own cycle |
| `Intake.GeneratedTexts` | src/sample_loader.py:88-105 | names and kinds are the specification's, or their defaults in words |
| `Intake.GeneratedNumbers` | src/sample_loader.py:99-103 | port, bytes and duration are the specification's, or their defaults in numbers |
| `SampleLoader.FlowValid` | src/sample_loader.py:86-105 | generated events of a supported type pass validation and have different ids within a flow |
| `SampleLoader.ShareIs` | src/sample_loader.py:83-97 | destination j gets the indices j, j + m, j + 2m and so on, one for each turn of the cycle that reaches it |
| `SampleLoader.CyclicFlowDetected` | src/sample_loader.py:72-106 | mixed in any order with events of other groups, ids distinct, some alert names an event of destination j of a cyclic flow iff the destination gets at least four events and one turn takes at most two minutes, and each such alert has the turn as its interval |
| `SampleLoader.LoadedFlowDetected` | src/sample_loader.py:42-49 | the same of every analysis of raw input that contains the flow among any events of other groups, events perhaps repeated: an R004 alert names an event of destination j under exactly that condition, and its interval is the turn |
| `StoreRows.CollectIncidentEventIds` | src/service_store_rows.py:222-229 | the loop collects the event ids of all stages in order |
| `StoreRows.CollectIncidentAlertIds` | src/service_store_rows.py:192-219 | explicit known alert ids when there are any, otherwise the alerts of the host that share an event |
| `StoreRows.RelatedKnown` | src/service_store_rows.py:208-219 | linked alerts are exactly those on the incident's host that share an event with it |
| `StoreRows.IncidentAlertIdsKnown` | src/service_store_rows.py:192-219 | every linked alert id is an id of an alert of the payload |
| `StoreRows.BuildAlertEventRows` | src/service_store_rows.py:56-69 | the nested loops with their seen-set yield the named pairs without repetitions, in order |
| `StoreRows.BuildIncidentAlertRows` | src/service_store_rows.py:72-85 | the same for incident links |
| `StoreRows.AlertEventRowsExact` | src/service_store_rows.py:56-69 | a pair has a row, once, iff an identified alert names an event that has a row |
| `StoreRows.IncidentAlertRowsExact` | src/service_store_rows.py:72-85 | a pair has a row, once, iff an identified incident links that alert |
| `StoreRows.FirstInKnown` | src/service_store_rows.py:180-181 | the primary event is a known one, and absent only when no named event is known |
| `RunStore.ServiceStore.SaveRunResult` | src/service_store.py:74-114 | one transaction: all inserts in order and the outbox row, or no change at all; what the rows then hold is in the rows of `ReadBack` |
| `ReadBack.EventStored` | src/service_store_rows.py:33-37 | after a committed save every event of the payload is under its id, with its own object |
| `ReadBack.AlertStored` | src/service_store_rows.py:40-45 | every alert is under its id with its own object; its primary event is the earliest named event that is known |
| `ReadBack.IncidentStored` | src/service_store_rows.py:48-53 | every incident is under its id with its own object; its primary alert is its first link |
| `ReadBack.LetterStored` | src/service_store_rows.py:88-91 | every dead letter is under its index with its own object |
| `ReadBack.NewEventListed` | src/service_store.py:88-97 | a save adds no event row but those of the events of the payload |
| `ReadBack.PairStored` | src/service_store_rows.py:56-69 | after a save an alert is paired with every known event that it names |
| `ReadBack.LinkStored` | src/service_store_rows.py:72-85 | after a save an incident is linked to each of its alerts |
| `ReadBack.LinkedIff` | src/service_store_rows.py:192-219 | which alerts an incident is linked to, on the keys of payload, incident and alerts |
| `RunStore.InsertAllIff` | src/service_store.py:89-99 | a batch of rows goes in exactly when keys are new and distinct and every reference resolves, and then adds exactly these rows |
| `RunStore.SaveKeepsConsistent` | src/service_models.py:15-165 | whatever the payload, a committed save keeps every primary and foreign key sound |
| `RunStore.SavesConsistent` | src/service_store.py:74-114 | after any sequence of saves from the empty store, failed ones included, every key and reference is sound and each recorded run has exactly one outbox row |
| `RunStore.SavesKeepRows` | src/service_store.py:74-114 | no row of an earlier state is ever lost or changed by later saves |
| `RunStore.SaveCommitsIff` | src/service_store.py:74-114 | a save commits exactly when the event, alert and incident ids given in the payload do not repeat |
| `AnalysisPayload.AnalysisSaves` | src/detection_engine.py:136-173 | the payload of an analysis of events with different non-empty ids always commits |
| `AnalysisPayload.IncidentsLinked` | src/service_store_rows.py:192-229 | each incident of an analysis is linked at least to an R004 and an R005 alert of its host |
| `AnalysisPayload.AnalyzeThenSave` | src/service_store.py:74-114 | analysing any raw events with text ids and saving the result commits, leaves the store consistent, and links every incident to its R004 and R005 alerts |
| `AnalysisStored.AnalysisIsStored` | src/service_store.py:74-114 | after analysing any raw events with text ids and saving the result, every event, alert, incident and dead letter lies under its id with its fields, alerts with the first event they name, incidents with the first alert that shares their host and an event, and with rows for every named event and every sharing alert |
| `AnalysisStored.LinksAre` | src/service_store_rows.py:192-229 | an incident of an analysis is linked to exactly the alerts on its host that name an event of its four stages |
| `AnalysisStored.PayloadWritten` | src/detection_engine.py:656-690 | the payload lists the analysed events, alerts, incidents with their four named stages, and dead letters, in order |
| `TaskStore.ServiceStore.EnqueueTask` | src/service_tasks.py:23-55 | a pending row and its outbox row, nothing else; a taken id changes nothing |
| `TaskStore.ServiceStore.ClaimNextTask` | src/service_tasks.py:58-66 | none exactly when nothing is pending; otherwise an oldest pending task becomes running |
| `TaskStore.ServiceStore.CompleteTask` | src/service_tasks.py:69-84 | the row succeeds with the run id and no error, with one outbox row; an unknown id is an error and changes nothing |
| `TaskStore.ServiceStore.FailTask` | src/service_tasks.py:87-102 | the row fails with the error and no result, with one outbox row; an unknown id is an error and changes nothing |
| `TaskStore.TaskWorker.RunTask` | src/task_queue.py:150-164 | a claimed task ends succeeded or failed, on malformed payloads, raised errors and a completion that raises after the save too |
| `TaskStore.TaskWorker.DrainOnce` | src/task_queue.py:141-148 | at most one task is claimed and run, and the count says whether |
| `TaskStore.EnqueueKeeps` | src/service_tasks.py:23-55 | enqueueing keeps the ledger: one arrival row per task, one end row per terminal task |
| `TaskStore.WorkKeeps` | src/task_queue.py:150-164 | running a task keeps ledger and rows, ends it, and succeeds exactly for a well-formed payload whose analysis saves |
| `TaskStore.DrainQueue` | src/task_queue.py:119-130 | the drain loop terminates with nothing pending, every task pending before terminal, all others untouched, and the right count |
| `LocalRunner.TraceInv` | src/task_queue.py:99-130 | the invariant of every reachable state, with claiming split into a read and a write |
| `LocalRunner.InterleavingSafety` | src/task_queue.py:119-130 | at most one thread drains, at most one task runs, no task is claimed twice, rows and outbox agree |
| `LocalRunner.StepForward` | src/service_tasks.py:58-102 | from one state of a run to the next a task is claimed from pending to running, or ended from running, or left as it is |
| `LocalRunner.StatusForward` | src/service_tasks.py:58-102 | over any stretch of a run a task only moves forward, and a terminal row never changes |
| `LocalRunner.LeavingMeansDone` | src/task_queue.py:125-130 | when a drainer leaves on an empty read, every task enqueued before is terminal and stays as it is |
| `QueueHistory.TaskHistory` | src/service_tasks.py:23-102 | in every reachable state a task has announced its arrival and, once ended, completion or failure, and an unknown task nothing |
| `QueueHistory.WorkEnds` | src/task_queue.py:150-164 | how a task ends, by its payload's two fields and by the outcome: status, result, error text and saved runs |
| `QueueHistory.OldestIff` | src/service_tasks.py:58-66 | a task may be claimed exactly when it is pending and no pending task was enqueued at an earlier time |
| `AnalysisJobs.JobStore.CreateAnalysisJob` | src/service_analysis_jobs.py:22-58 | a pending row under the job id and its queued outbox row; a taken job id or broker id changes nothing |
| `AnalysisJobs.JobStore.SetAnalysisJobTaskId` | src/service_analysis_jobs.py:61-64 | only the broker id changes; an unknown job or a broker id of another job changes nothing |
| `AnalysisJobs.JobStore.StartAnalysisJob` | src/service_analysis_jobs.py:67-72 | only the status changes; an unknown job changes nothing |
| `AnalysisJobs.JobStore.CompleteAnalysisJob` | src/service_analysis_jobs.py:75-93 | status, run, result and error change together with one outbox row |
| `AnalysisJobs.JobStore.FailAnalysisJob` | src/service_analysis_jobs.py:96-113 | status, result and error change together with one outbox row |
| `AnalysisJobs.RunAnalysisTask` | src/celery_tasks.py:16-36 | one delivery starts the job and ends it completed with its saved run, or failed with the error; without a job id it only saves the run, and an unknown job ends it before the analysis; it returns iff the job is known and nothing raises |
| `AnalysisJobs.TraceInv` | src/task_queue.py:68-83 | the invariant of every interleaving of publishers and deliveries |
| `AnalysisJobs.BrokerFinds` | src/service_analysis_jobs.py:116-124 | once stored, the broker's id finds its job and no other |
| `AnalysisJobs.BrokerIdsFree` | src/service_models.py:115-115 | in every reachable state broker ids of rows differ, and a step that writes one finds it unused, so the unique constraint never fires |
| `AnalysisJobs.JobProtocol` | src/service_analysis_jobs.py:22-131 | in every interleaving a job is found by its id and, once set, by the broker's id; the outbox is queued, then at most one ending; succeeded implies its run exists; terminal iff the delivery finished |
| `AnalysisJobs.StepOutcome` | src/service_analysis_jobs.py:61-64 | storing the broker id disturbs no status, run, result or error, and no step changes a finished job |
| `AnalysisJobs.OutcomeIsFinal` | src/celery_tasks.py:23-36 | once terminal, a job stays terminal and its outcome never changes again |
| `QueueHistory.JobHistory` | src/service_analysis_jobs.py:22-113 | in every interleaving a job has announced its queueing and, once ended, completion or failure, and an unknown job nothing |
| `QueueHistory.DeliveryEnds` | src/celery_tasks.py:16-36 | how a delivery ends: status, run, result, error and saved runs, and no other job changes |
| `QueueHistory.FindsIff` | src/service_analysis_jobs.py:116-124 | a lookup finds a job by its id, and by a broker id only when no job has that id |
| `PcapFormat.IterRecords` | src/pcap_flow.py:138-148 | on arbitrary bytes the offset loop stays in bounds, ends, and yields exactly the parsed records in order |
| `PcapFormat.IterTcpPackets` | src/pcap_flow.py:131-161 | short files and unknown magics are errors; otherwise the packets of the record area, of the frames that `Captures.ReadIff` describes |
| `Captures.ReadIff` | src/pcap_flow.py:164-200 | a frame is read exactly when its bytes say Ethernet, IPv4 and TCP and it holds both headers; ARP, IPv6, UDP and short frames are refused |
| `Captures.FieldsRead` | src/pcap_flow.py:182-200 | addresses, ports and flags are those of the bytes at their offsets |
| `Captures.PayloadRead` | src/pcap_flow.py:189-192 | the payload is what lies between the TCP header and the end of the IP packet |
| `Captures.MixedCapture` | src/pcap_flow.py:131-215 | a capture of TCP segments mixed with any other frames is read as exactly its TCP segments, in order |
| `Captures.FileErrors` | src/pcap_flow.py:131-161 | which files are errors, on their first bytes |
| `PcapFormat.RecordsRoundTrip` | src/pcap_flow.py:139-148 | written records are read back in order, whatever the frames hold |
| `PcapFormat.FileRoundTrip` | src/pcap_flow.py:131-161 | a written file gives its packets in all four byte orders and resolutions |
| `PcapFormat.FrameRoundTrip` | src/pcap_flow.py:164-215 | for every header length of 5 to 15 words, options, flags, payload and trailing padding, the reader recovers the sent segment |
| `PcapFormat.CaptureRoundTrip` | src/pcap_flow.py:131-215 | parsing a serialized list of IPv4/TCP packets returns exactly those packets |
| `PcapFormat.DottedQuadInjective` | src/pcap_flow.py:182-183 | different addresses print differently |
| `FlowTable.KeyIsUnorderedPair` | src/pcap_flow.py:218-222 | two packets share a key exactly when they run between the same two endpoints, in either direction |
| `FlowTable.FlowState.Add` | src/pcap_flow.py:60-67 | the counters of one more packet |
| `FlowTable.BuildFlows` | src/pcap_flow.py:42-67 | one pass over mutable flow objects tabulates the grouping by unordered pair, in order of first packets |
| `FlowTable.SummaryCounts` | src/pcap_flow.py:51-66 | endpoints and start are the first packet's; outbound and inbound counters split the group by sender |
| `FlowTable.SummaryExtent` | src/pcap_flow.py:60-67 | the end is the latest time and not before the start; flags are those of all packets |
| `FlowTable.InboundIsReverse` | src/pcap_flow.py:61-66 | a packet counted as inbound runs exactly in the reverse direction of the first |
| `FlowTable.GroupsConserve` | src/pcap_flow.py:45-67 | any weight summed over the flows is its total over the capture |
| `FlowTable.FlowEvents` | src/pcap_flow.py:94-117 | one summary event per flow, numbered in order of first packets |
| `FlowTable.CaptureConserved` | src/pcap_flow.py:94-117 | the flow events account for every packet and every payload byte once |
| `FlowReport.FlowEventsAre` | src/pcap_flow.py:37-117 | one event for each packet that opens a conversation, numbered from 1 in that order, with the conversation's start, latest time, target, flags, milliseconds, packets, and payload bytes by sender, on the packets' own fields |
| `Privacy.MatchSound` | src/privacy.py:10-12 | every match of the backtracking matcher splits into runs of the pattern's items |
| `Privacy.MatchComplete` | src/privacy.py:10-12 | backtracking finds a match whenever some prefix has one |
| `Privacy.SubClean` | src/privacy.py:44-46 | a pass leaves no match of its pattern and brings back no match of an earlier one |
| `Privacy.SubRewrites` | src/privacy.py:44-46 | a pass replaces disjoint matches by the token and keeps every other character in place |
| `Privacy.MaskTextNormalForm` | src/privacy.py:41-47 | after the three passes no part of the text matches the email, phone or resident-number pattern, which `Redaction` reads in characters |
| `Privacy.MaskTextFixpoint` | src/privacy.py:41-47 | masking changes a text exactly when there is something to mask |
| `Redaction.MaskedTextIsClean` | src/privacy.py:10-12 | in characters and positions: no position of a masked text starts an email address, an 01x number or a resident number |
| `Redaction.MaskTextReplaces` | src/privacy.py:41-47 | the three passes replace, from the left, each longest address by [redacted-email], each longest number by [redacted-phone] and each resident number by [redacted-id], and keep the rest |
| `Redaction.PhoneIff` | src/privacy.py:11-11 | what a phone number is: 01, one of 016789, three or four digits and four digits, with optional hyphens |
| `Redaction.IdIff` | src/privacy.py:12-12 | what a resident number is: six digits, an optional hyphen, 1 to 4, six digits |
| `Redaction.EmailIff` | src/privacy.py:10-10 | what an email address is |
| `Redaction.PhoneMasked` | src/privacy.py:44-46 | a text that is a phone number becomes the phone token |
| `Privacy.SanitizeEvent` | src/privacy.py:15-38 | the loop yields the surviving fields in order and one audit record per removed or changed field; what it masks is in `Redaction` |
| `Redaction.SensitiveIff` | src/config.py:79-92 | the twelve fields that are removed |
| `Redaction.FieldAfter` | src/privacy.py:15-38 | what each key holds afterwards: nothing for a sensitive one, masked text for text, and otherwise the same value |
| `Redaction.AuditIff` | src/privacy.py:21-38 | which audit records there are: one for each removed field and one for each text that masking changes |
| `Privacy.MasksEmptyIff` | src/privacy.py:21-38 | no audit record exactly for events with nothing sensitive, which pass unchanged |
| `Privacy.SanitizeIdempotent` | src/privacy.py:15-38 | a sanitized event has nothing sensitive at top level, and a second pass changes and records nothing |
| `ReportHtml.UnescapeEscape` | src/report_builder.py:520-520 | escaping loses nothing |
| `ReportHtml.InlineHtml` | src/report_builder.py:518-527 | the loop over backtick parts spells alternating plain and code spans |
| `ReportHtml.ReadInline` | src/report_builder.py:518-527 | code spans are opened and closed in balance for every value |
| `ReportHtml.InlineShowsInput` | src/report_builder.py:518-527 | a reader sees exactly the input without its backticks |
| `ReportHtml.PendingTop` | src/report_builder.py:445-506 | outside blocks, the three-flag line machine writes the grouped blocks |
| `ReportHtml.PendingInside` | src/report_builder.py:445-506 | inside a list or a table it writes the rest of that block and then the later blocks |
| `ReportHtml.CloseLists` | src/report_builder.py:510-515 | exactly the open blocks are closed |
| `ReportHtml.MarkdownToReportHtml` | src/report_builder.py:437-507 | the one-pass converter writes the document of the grouped blocks |
| `ReportLines.DocumentText` | src/report_builder.py:437-507 | the document, with its tags written out, is the lines of its blocks joined by line feeds |
| `ReportHtml.ReportWellFormed` | src/report_builder.py:437-527 | for every text: headings, paragraphs, non-empty lists of items and non-empty tables whose first row alone is the header, never nested, code spans balanced, and no markup but the emitted tags |
| `ReportReading.SeparatorIff` | src/report_builder.py:466-469 | a line vanishes as a separator iff it starts and ends with a bar and its trimmed first cell has only dashes and colons |
| `ReportReading.DataRowsVanish` | src/report_builder.py:466-469 | the rows with first cell - or blank vanish with their other cells |
| `ReportReading.ReportReadable` | src/report_builder.py:437-507 | every output can be read as balanced tags and text |
| `ReportReading.ReportShowsLines` | src/report_builder.py:437-527 | however the output is read as tags and text, its headings, paragraphs, items and cells are, in order, those of the lines that are neither blank nor separators, their text unchanged but for backticks |
| `ReportLines.LineEnds` | src/report_builder.py:439-439 | where lines end: at each of ten characters, and at a carriage return and line feed together |
| `ReportLines.MarksRead` | src/report_builder.py:446-487 | headings of three levels and bullets: exactly the mark and one space are cut off |
| `ReportLines.RowRead` | src/report_builder.py:466-480 | a row: any bars around cells with a bar between each two; cells are trimmed |
| `ReportLines.OthersRead` | src/report_builder.py:488-506 | every other line is blank, when it has only space, or a paragraph of the whole line |
| `ReportLines.TrimRead` | src/report_builder.py:467-467 | trimming drops the space around a text, and nothing else |

## Left out

- `AgentDelivery.SpooledNeverLost`: says nothing about the batch being sent when the agent crashes, because the agent writes it to the spool only after a failed send.
- `AgentShipper.Agent.ShipEvents`: file system errors, the temporary file and its rename are not modelled; writing a spool file is one step, and names are numbers in order.
- `EventSchema.ValidateAndSanitize`: unhashable ids and types (lists, objects), which make Python raise, are ordinary values here, and numbers of different kinds are different ids.
- `Detection.AnalyzeEvents`: event, host and type fields that are not strings are read as their `str()` text after validation, times with and without a zone are all comparable, and `int()` or `urlparse` never raise; titles, evidence texts, display names, top rules, the last event time, process trees, summaries and the SIEM view are absent.
- `Correlation.IncidentsExact`: assumes events in time order, which the pipeline establishes (`Detection.AnalysisReports` drops the assumption).
- `SampleLoader.ExpandGeneratedFlows`: specifications have the types their keys suggest and a readable start time; calendar limits of dates are not modelled.
- `SampleLoader.LoadedFlowDetected`: is about cycles of different non-empty destinations, about input whose well-formed events with ids that read alike are copies, and about flows that masking leaves unchanged.
- `Detection.OrderIndependence`: is about ids that are text; an id of another type is compared as a value and shown as its `str()` text, so different ids may look equal.
- `LocalRunner.TraceInv`: completing a task may raise, every other store transaction succeeds, and liveness is not claimed: a thread can fail to get the lock just before the holder leaves.
- `AnalysisJobs.JobProtocol`: one delivery per job and a sender that does not raise; broker ids are the job's own id or unused ones.
- `RunStore.ServiceStore.SaveRunResult`: descriptive columns, tenant fields, column lengths and deletion are absent; row ids generated for missing ids are assumed fresh.
- `AnalysisPayload.AnalysisSaves`: the payload has the keys that the row builders read for keys and links, not the descriptive ones.
- `PcapFormat.CaptureRoundTrip`: times are exact fractions of a second; the floating-point sum of the program is not modelled.
- `FlowTable.FlowEvents`: HTTP requests found in payloads are absent, and times stay numbers instead of text.
- `Privacy.SanitizeEvent`: only top-level text is masked, as in the code; nested values are kept as they are.
- `ReportHtml.MarkdownToReportHtml`: the text of the report itself and the page around the converted body are absent.
- Claiming by several external worker processes: the select and the update of a claim are one transaction without a row lock, so the model has one claimer or one runner.
- `get_task` looks among tasks before it looks among jobs; only the lookup among jobs is modelled (`AnalysisJobs.Finds`).
- HTTP, sockets, the web framework, Celery, Redis and the database engine appear only as answers, steps and transactions.
- The signature file and its defaults are a parameter (`Rules.Signatures`).
- Collectors, agents of other platforms, the proxy, the command line, gzip bundles, the dashboard, the predictor, the response engine and the schema migrations are not modelled: they are I/O, formatting or small folds.
