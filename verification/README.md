# Smart manufacturing downtime agent — Dafny model

This project models the core of the smart-manufacturing downtime agent. The agent reads
hourly sensor logs of five plant machines. It scores each machine's failure risk and asks a
dependency graph which machines and production lines a failure would stop. A language model
then writes three narrative texts. The agent saves a text report and shows a dashboard.

The model has nine modules in eight files, one concept per module:

- `Seqs` (seqs.dfy): duplicate-freedom, first-occurrence index and order-preserving
  de-duplication. These give the meaning of pandas `unique()` and Cypher `RETURN DISTINCT`.
- `Wrappers`, `Dict` (dict.dfy): `Option`, and a Python `dict` modelled as an
  insertion-ordered list of entries.
- `Scoring` (scoring.dfy): the risk scorer `ingest_sensor_logs`. Scores are integer
  hundredths. The rule weights 35, 35, 20 and 10 add up in steps of five hundredths, so
  `round(score, 2)` is exact in this form. Window averages are exact `real`s.
- `Graph` (graph.dfy): the graph store over an in-memory property graph. A node's identity is
  its position, so two CREATEs of the same id make two nodes. The module holds the two impact
  queries, the summary query, `clear_database`, the three `create_*` steps and the fixture.
- `GraphScenarios` (graph_scenarios.dfy): what the queries return on the rebuilt fixture,
  what a rebuild without a clear produces, and a five-machine chain that shows the three-hop
  bound.
- `Pipeline` (pipeline.dfy): the state record and the five stages, wired in a line. The
  language model is a parameter `gen` that maps a role and a prompt to a text. A prompt is
  the tuple of state fields it interpolates.
- `Report` (report.dfy): the writes of `save_report`. This covers the tier, the 20-cell bar,
  the printed percentage and a parser that reads a risk line back.
- `Dashboard` (dashboard.dfy): what `app.py` shows after a run. This covers card status, the
  slider threshold, the four metrics, the alerts and the risk table.

Design points the proofs bring out:

- The report tier and the card status use the literal cut-points 0.75 and 0.40. The alert
  threshold comes from the slider and can move. So at a threshold of 0.50 a machine scoring
  0.55 is failing and alerted, yet both its card and its report line say WARNING
  (`Report.TierIgnoresThreshold`, `Dashboard.LowSliderShowsWarning`). At the default
  threshold, CRITICAL and failing coincide (`Report.ReportFlagsFailingMachines`).
- The affected-machines query has no DISTINCT, so it returns one row per dependency path.
  The dashboard adds up list lengths, so a failure of M002 counts Assembly Unit E twice
  (`GraphScenarios.RebuildImpactM002`, `Dashboard.SeededPlantMetrics`).
- The affected-machines query (graph/graphneo4j_manager.py:140-146) has no DISTINCT, so its
  result is a list of rows, not a set of machines. The model keeps one row per path.
- The alert threshold is bounded only by the slider's range of 50 to 95 (app.py:465-471).
  Nothing else checks it.
- The store connection is closed by a plain `close()` call after the run (app.py:651,
  main.py:66). There is no `try`/`finally`, so an exception in the run leaves it open.

## Model

| member | source | states |
|---|---|---|
| Scoring.ApplyRules | agents/agentsworkflow.py:53-72 | The score is 35 if the mean temperature is above its limit, plus 35 for vibration, 20 for more than 3 errors and 10 for mean pressure below 85. It is at most 100 and a multiple of 5. |
| Scoring.ApplyRulesReasons | agents/agentsworkflow.py:54-70 | The reasons are exactly one per fired rule, in the order temperature, vibration, errors, pressure. Each carries the statistic its rule compared, and their weights add up to the score. |
| Scoring.RunRulesApplied | agents/agentsworkflow.py:56-70 | After the first n rules, the tally holds a reason exactly for each of those rules that fired, in rule order, and the score equals the sum of their weights. |
| Scoring.StrictBoundariesContributeNothing | agents/agentsworkflow.py:56-68 | A window exactly at 85.0 °C, exactly at vibration 8.5, exactly at pressure 85 and with exactly 3 errors fires no rule and scores 0: every comparison is strict. |
| Scoring.AllRulesScenario | agents/agentsworkflow.py:56-75 | Averages 92.0 °C, vibration 9.5 and pressure 78 with 5 errors fire all four rules. The score is 1.00, there are four reasons, and the machine is failing at 0.75. |
| Scoring.HealthyScenario | agents/agentsworkflow.py:56-75 | Averages 72.0 °C, vibration 4.0 and pressure 102 without errors fire nothing, score 0 and are not failing. |
| Scoring.MachineIds | agents/agentsworkflow.py:47 | The machines looped over have no duplicates and are exactly the ids occurring in the log. |
| Scoring.ReadingsOf | agents/agentsworkflow.py:48 | The filter keeps exactly the log's readings of the machine. It is non-empty exactly when the machine occurs in the log. |
| Scoring.ReadingsOfOne | agents/agentsworkflow.py:48 | A one-reading log filters to that reading when it is the machine's, and to nothing otherwise. |
| Scoring.ReadingsOfAppend | agents/agentsworkflow.py:48 | Filtering two stretches of log in turn gives the two filtered stretches in turn. With the one-reading case, this fixes the filter as the machine's readings in log order, repeats included. |
| Scoring.Window | agents/agentsworkflow.py:48 | The window is the last min(24, n) readings of the machine, in log order. |
| Scoring.LastNSlides | agents/agentsworkflow.py:48 | Keeping the last n of a sequence one element longer keeps the last n before it, adds the element and drops the oldest once over n. |
| Scoring.WindowSlides | agents/agentsworkflow.py:48 | A new reading of the machine enters its window at the end and pushes out the oldest once 24 are held. A reading of another machine leaves the window unchanged. |
| Scoring.MeanAbove | agents/agentsworkflow.py:49-51 | When every value of the window exceeds a limit, so does the mean. |
| Scoring.MeanBelow | agents/agentsworkflow.py:49-51 | When every value of the window is below a limit, so is the mean. |
| Scoring.NoErrorCodes | agents/agentsworkflow.py:52 | A window whose readings all carry the code "NONE" counts zero errors. |
| Scoring.Assess | agents/agentsworkflow.py:48-72 | A machine's assessment carries its own id. Its score is between 0 and 100 and its error count is at most the window size. |
| Scoring.ShortHistoryIsScored | agents/agentsworkflow.py:48-73 | A machine with fewer than 24 readings is scored on all of them and gets a probability entry; it is not skipped. |
| Scoring.HotWindowFiresTemperatureRule | agents/agentsworkflow.py:48-58 | If every reading in the window is hotter than the limit, the temperature rule fires and the score is at least 0.35. |
| Scoring.CalmWindowScoresZero | agents/agentsworkflow.py:48-72 | If every reading in the window is below both limits, above the pressure limit and error-free, the score is 0 with no reasons. |
| Scoring.IngestSensorLogs | agents/agentsworkflow.py:40-94 | `failure_probability` has exactly one key per distinct machine id, in order of first appearance. The anomaly list is exactly as long as the failing list. |
| Scoring.IngestRecordsEveryMachine | agents/agentsworkflow.py:47-73 | Every machine of the log is recorded with the score of its own window. A machine absent from the log is not recorded. |
| Scoring.IngestFailingExact | agents/agentsworkflow.py:75-76 | A machine is failing exactly when it occurs in the log and its score is at least the threshold. The comparison is non-strict. |
| Scoring.IngestFailingOrder | agents/agentsworkflow.py:47-76 | The failing machines come from the log, have no duplicates and keep the order of first appearance. |
| Scoring.IngestAnomaliesParallel | agents/agentsworkflow.py:75-85 | Anomaly i belongs to failing machine i. It carries that machine's score and window statistics. |
| Dict.Put | agents/agentsworkflow.py:73 | Assigning a key's value overwrites an existing key in place or appends a new key. Every other key's lookup is unchanged. |
| Graph.PathsToExact | graph/graphneo4j_manager.py:140-142 | The enumeration holds exactly the walks of one to three distinct DEPENDS_ON edges, followed in stored direction, that end at a machine with the target id. |
| Graph.PathsToDistinct | graph/graphneo4j_manager.py:140-142 | The enumeration lists each such walk once. |
| Graph.AffectedMachines | graph/graphneo4j_manager.py:140-146 | The affected query returns one row per matching path. There is no DISTINCT. |
| Graph.AffectedRowsArePathStarts | graph/graphneo4j_manager.py:140-146 | A row is returned exactly when some path of one to three hops into the target starts at a machine with that id, name and criticality. |
| Graph.NoEdgeIntoTargetNoPaths | graph/graphneo4j_manager.py:140-146 | When no DEPENDS_ON edge enters a machine with the target id, no path matches. |
| Graph.InReachIsUpstream | graph/graphneo4j_manager.py:149-150 | The machines taken from the enumerated paths are exactly the target itself and the machines one to three hops upstream of it. |
| Graph.ImpactedLines | graph/graphneo4j_manager.py:148-155 | The impacted-lines result has no repeated (name, plant) pair. |
| Graph.ImpactedLinesExact | graph/graphneo4j_manager.py:148-155 | A line is listed exactly when a FEEDS_INTO edge reaches it from the target or from a machine one to three hops upstream. |
| Graph.GetFailureImpact | graph/graphneo4j_manager.py:157-161 | The result echoes the id it was asked about and returns the two query results. |
| Graph.IsolatedMachineHasNoImpact | graph/graphneo4j_manager.py:140-161 | An id with no incoming DEPENDS_ON edge and no outgoing FEEDS_INTO edge gets no affected machines and no lines. |
| Graph.UnknownMachineHasNoImpact | graph/graphneo4j_manager.py:140-161 | An id that names no machine node gets no affected machines and no lines. |
| Graph.FullGraphSummary | graph/graphneo4j_manager.py:163-171 | The summary has exactly one (from name, relationship type, to name) triple per edge, naming its two end nodes. |
| Graph.SummaryCountsEdges | graph/graphneo4j_manager.py:163-171 | The summary has as many DEPENDS_ON triples as DEPENDS_ON edges and as many FEEDS_INTO triples as FEEDS_INTO edges. |
| Graph.ClearDatabase | graph/graphneo4j_manager.py:22-25 | After the delete no node and no edge is left. |
| Graph.CreateMachines | graph/graphneo4j_manager.py:27-74 | The five fixture machines are added after whatever machines exist, and nothing else changes. |
| Graph.CreateProductionLines | graph/graphneo4j_manager.py:76-93 | The three fixture lines are added after whatever lines exist, and nothing else changes. |
| Graph.MachinesWithIdExact | graph/graphneo4j_manager.py:107-108 | `MATCH (a:Machine {id: $a})` binds exactly the machine nodes that carry that id. |
| Graph.DependsOnPairs | graph/graphneo4j_manager.py:106-113 | One DEPENDS_ON edge is created per pair of bound nodes, carrying the entry's impact and reason. |
| Graph.FeedsIntoPairs | graph/graphneo4j_manager.py:124-130 | One FEEDS_INTO edge is created per pair of bound nodes, carrying the entry's sequence number. |
| Graph.CreateDependsOnExact | graph/graphneo4j_manager.py:99-113 | An edge is created exactly when some dependency entry names its two end nodes' ids and carries its impact and reason. |
| Graph.CreateFeedsIntoExact | graph/graphneo4j_manager.py:116-130 | An edge is created exactly when some feed entry names its machine's and its line's ids and carries its sequence number. |
| Graph.CreateDependsOnOneEach | graph/graphneo4j_manager.py:99-113 | When ids are unique and every entry names existing ids, each entry creates exactly one edge, in entry order. |
| Graph.CreateFeedsIntoOneEach | graph/graphneo4j_manager.py:116-130 | When ids are unique and every entry names existing ids, each feed entry creates exactly one edge, in entry order. |
| Graph.CreateRelationships | graph/graphneo4j_manager.py:95-132 | The created edges are appended to the existing ones. Nodes are unchanged, and every edge joins existing nodes. |
| Graph.FixtureIdsUnique | graph/graphneo4j_manager.py:27-84 | No two fixture machines and no two fixture lines share an id. |
| Graph.RebuildIsFixture | graph/graphneo4j_manager.py:22-132 | Clear followed by the three create steps gives the fixture graph, whatever the database held before. |
| GraphScenarios.RebuildShape | graph/graphneo4j_manager.py:22-132 | A rebuild leaves 5 machines with unique ids and 3 lines with unique ids, and every edge joins existing nodes. |
| GraphScenarios.RebuildSummary | graph/graphneo4j_manager.py:163-171 | After a rebuild the summary has 9 rows: 4 DEPENDS_ON and 5 FEEDS_INTO. |
| GraphScenarios.M002Paths | graph/graphneo4j_manager.py:99-104 | The paths into M002 are M001→M002, M005→M002 and M005→M001→M002. |
| GraphScenarios.RebuildImpactM002 | graph/graphneo4j_manager.py:140-161 | After a rebuild, M002's impact lists M001 once and M005 twice, and the Engine Assembly Line in Plant_North. |
| GraphScenarios.RebuildImpactM003 | graph/graphneo4j_manager.py:140-161 | After a rebuild, M003's impact lists M004 and the Body Welding Line in Plant_South. |
| GraphScenarios.RebuildImpactM005 | graph/graphneo4j_manager.py:140-161 | After a rebuild, M005 affects no machine but still stops the Engine Assembly Line, which it feeds directly. |
| GraphScenarios.RebuildWithoutClearDuplicates | graph/graphneo4j_manager.py:27-132 | Running the create steps again without a clear gives 10 machines and 6 lines, and M001 is carried by nodes 0 and 5. Each of the 4 dependency entries then creates 4 edges. |
| GraphScenarios.FourHopsAreNotAffected | graph/graphneo4j_manager.py:140-146 | In a chain C1→C2→C3→C4→C5, C1 reaches C5 in four hops, yet a failure of C5 lists only C4, C3 and C2. |
| Pipeline.InitialState | app.py:619-632 | The initial state holds the logs and the history with the step at "start". |
| Pipeline.IngestStage | agents/agentsworkflow.py:90-93 | The ingest stage writes only the anomalies, failing machines, probabilities and step. The step becomes "sensor_done" and there is one probability per log machine. |
| Pipeline.ImpactOf | agents/agentsworkflow.py:98-102 | The impact map's keys are the looped machines, once each, in order. |
| Pipeline.ImpactOfLookup | agents/agentsworkflow.py:100-102 | Each looped machine maps to its own query result, and no other key is present. |
| Pipeline.GraphStage | agents/agentsworkflow.py:96-110 | The graph stage writes only the impact map, the graph context and the step, which becomes "graph_done". The impact keys are the failing machines, and there is one context row per edge. |
| Pipeline.HistoryOf | agents/agentsworkflow.py:116-120 | The history filter keeps exactly the rows of the failing machines. |
| Pipeline.RootCauseStage | agents/agentsworkflow.py:112-154 | The root-cause stage writes only its text and the step, which becomes "rootcause_done". The text is the model's answer to the anomalies, the filtered history and the dependency map. |
| Pipeline.PlanStage | agents/agentsworkflow.py:156-184 | The plan stage writes only its text and the step, which becomes "plan_done". The text answers the root cause and the impact map. |
| Pipeline.Excerpt | agents/agentsworkflow.py:204-207 | `s[:400]` is a prefix of at most 400 characters, and is the whole string when it is shorter. |
| Pipeline.LinesAtRiskExact | agents/agentsworkflow.py:190-193 | A line name is at risk exactly when some impact entry lists a line with that name. |
| Pipeline.LinesAtRiskOfImpact | agents/agentsworkflow.py:190-193 | Over the impact map the loop builds, the lines at risk are the names of the impacted lines of the looped machines. |
| Pipeline.SummaryPromptOf | agents/agentsworkflow.py:195-207 | The summary prompt quotes the failing count and the failing list. Both excerpts are at most 400 characters. |
| Pipeline.SummaryStage | agents/agentsworkflow.py:186-228 | The summary stage writes only its text and the step, which becomes "complete". The text answers the summary prompt. |
| Pipeline.RunStepOrder | agents/agentsworkflow.py:241-246 | From "start" a run goes through sensor_done, graph_done, rootcause_done, plan_done and complete, even with no failing machine. |
| Pipeline.RunOutputs | agents/agentsworkflow.py:230-249 | A run leaves logs, history and errors untouched and stores the scorer's probabilities and failing list. Each failing machine gets its own impact entry. The summary is asked with the lines at risk and 400-character excerpts. |
| Report.TierMonotone | reports/reportsreport_generator.py:35-37 | A higher score never gets a milder tier. |
| Report.CriticalIffDefaultFailing | reports/reportsreport_generator.py:35-37 | A line is CRITICAL exactly when its score fails the default threshold of 0.75. |
| Report.TierIgnoresThreshold | reports/reportsreport_generator.py:35-37 | At a configured threshold of 0.50 a score of 0.55 is failing, yet its tier is WARNING: the cut-point is a literal. |
| Report.Repeat | reports/reportsreport_generator.py:33-34 | `c * n` is n copies of c, or empty when n is not positive. |
| Report.FilledCells | reports/reportsreport_generator.py:33 | `int(prob * 20)` is the number of whole 0.05 steps in the score. |
| Report.Bar | reports/reportsreport_generator.py:33-34 | The bar is exactly 20 cells for any score up to 1.00, filled cells first. A cell is filled exactly when its index is below `int(prob * 20)`. |
| Report.NatToString | reports/reportsreport_generator.py:38-39 | The printed percentage is a non-empty string of decimal digits without a leading zero. |
| Report.NatToStringValue | reports/reportsreport_generator.py:38-39 | The printed percentage denotes the score in hundredths. |
| Report.RiskLineReadsBack | reports/reportsreport_generator.py:38-39 | A risk line for an id without a colon parses back to that id and score. |
| Report.ParsedLineIsRiskLine | reports/reportsreport_generator.py:38-39 | A line that parses is exactly the risk line of the id and score it parses to. |
| Report.RiskLines | reports/reportsreport_generator.py:32-39 | There is one risk line per probability entry, in dictionary order, with none skipped. |
| Report.Preamble | reports/reportsreport_generator.py:13-31 | Fifteen writes precede the risk lines. |
| Report.ReportWrites | reports/reportsreport_generator.py:13-39 | The report has fifteen writes plus one per probability entry. |
| Report.ReportContents | reports/reportsreport_generator.py:18-39 | Sections appear in the order summary, root cause, plan, risk scores, and the narratives are copied verbatim. Each risk line parses back to its entry. |
| Report.ReportFlagsFailingMachines | reports/reportsreport_generator.py:32-39 | After a run at the default threshold there is one line per log machine in first-appearance order. A line is CRITICAL exactly when its machine is failing. |
| Dashboard.StatusMatchesReportTier | app.py:168-174 | Card statuses and report tiers use the same cut-points. The words match except HEALTHY on the card versus NORMAL in the report. |
| Dashboard.SliderConfig | app.py:593 | The slider sets only the failure threshold, to a value between 0.50 and 0.95. The temperature and vibration limits are unchanged. |
| Dashboard.SliderFailsFrom | app.py:465-471 | At slider position v a machine is failing exactly when its score is at least v percent. |
| Dashboard.SliderDefaultIsDefault | app.py:469 | The default slider position gives the configured default threshold. |
| Dashboard.FailingCardStatus | app.py:711-717 | At any slider position a failing machine's card is never HEALTHY. From position 75 up it is CRITICAL. |
| Dashboard.LowSliderShowsWarning | app.py:465-471 | At slider position 50 a score of 0.50 is failing, but its card says WARNING. |
| Dashboard.RiskOf | app.py:713-715 | The lookup returns the machine's recorded score, or 0 when it has none. |
| Dashboard.Cards | app.py:708-717 | There is one card per entry of the machine table, in table order. |
| Dashboard.CardsOfRun | app.py:711-752 | After a run a card shows its machine's assessed score if the machine is in the log. Otherwise it shows a HEALTHY 0%. |
| Dashboard.RiskTable | app.py:910-923 | The risk table has one row per machine-table entry. Each row's risk score is its card's percentage followed by "%", and its status is the card's status. A machine without a score shows a HEALTHY "0%". |
| Dashboard.TotalsOfImpacts | app.py:676-689 | Over query results, the affected metric adds up paths per machine and the lines metric adds up distinct lines per machine, so duplicates count. |
| Dashboard.MetricsOfRun | app.py:659-694 | After a run, "Critical Machines" equals the number of failing machines. The affected and lines metrics add up the failing machines' query results. |
| Dashboard.SeededPlantMetrics | app.py:676-694 | On the seeded plant with M002 and M003 failing, the dashboard shows 4 affected machines and 2 lines at risk. |
| Dashboard.AlertOf | app.py:763-767 | An alert names its machine. A machine without an impact entry falls back to zero counts. |
| Dashboard.Alerts | app.py:760-767 | There is one alert per failing machine, in the order of the failing list. |
| Dashboard.AlertsOfRun | app.py:760-789 | After a run each alert quotes its machine's path count and distinct line count, never the empty default. |

## Left out

- Rendering is not modelled: page layout, CSS, colours, gauges, sensor-trend and dependency charts, node positions and the download button. The cards, table, metrics and alerts are modelled by the values they show, except the `MACHINES` metadata columns below.
- The `MACHINES` metadata (name, type, location, vendor, emoji) is not modelled. So neither are the risk table's name, type, location and vendor columns, nor the fixed alert texts ($23,000 and 24 to 48 hours). An alert is modelled by its machine and its two counts.
- The language model is not modelled. `ChatOllama`, the system messages' wording and the prompt wording are replaced by the parameter `gen` over a role and the interpolated fields.
- `json.dumps`, `to_string` and the `"\n".join` of the dependency map only shape prompt text. The prompt carries the underlying values instead.
- The LangGraph `StateGraph` machinery is replaced by plain composition of the five stage functions.
- The Neo4j driver, sessions, `close` and connection errors are not modelled. The queries are functions of an in-memory graph.
- None of the three queries (graph/graphneo4j_manager.py:140-146, 148-155, 166-170) has an ORDER BY, so the source leaves their row order open. The model picks one. Affected rows list one-edge paths, then two-edge, then three-edge paths, each level in an order fixed by edge creation. Line rows follow FEEDS_INTO creation order. Summary rows list DEPENDS_ON edges, then FEEDS_INTO edges, in creation order. Only the multiset of rows and the counts come from the source. The exact sequences in the `GraphScenarios` lemmas reflect the model's choice of order.
- Both queries are read-only and return the same result when repeated. As pure functions of the graph, this needs no lemma.
- Synthetic data generation (data/datasensor_logs.py) is not part of this model. The logs and the maintenance history are inputs.
- Clocks, randomness and the file system are left out. The report's date is a parameter and the file name is not modelled.
- The console `print` output of main.py and of each stage is left out.
- Float formatting is not modelled. The `:.1f` reason texts become a reason datatype carrying the compared statistic. `round(..., 2)` of the anomaly averages keeps the exact average.
- Scoring.Assess: averages are exact reals, so a float mean that rounds across a rule's limit is not modelled.
- `errors` is part of the state but no stage writes it. The model shows it is left untouched.
- The slider's threshold goes into the configuration passed to the run, not into a process-wide `Config` class.
