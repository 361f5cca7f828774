/** The five-stage agent pipeline: a strictly linear sequence of stages over
    one state record. Each stage writes its own fields and `current_step`, and
    nothing else. The language model is a parameter `gen` that maps a role
    and a prompt to a text; the prompt is modelled by the state fields it
    interpolates, not by its wording. */
module Pipeline {
  import opened Seqs
  import opened Dict
  import opened Wrappers
  import Scoring
  import Graph

  /** The values `current_step` takes, in wiring order. */
  datatype Step = Start | SensorDone | GraphDone | RootCauseDone | PlanDone | Complete

  /** A row of the maintenance-history table. */
  datatype MaintenanceRecord = MaintenanceRecord(
    machineId: string,
    date: string,
    kind: string,
    description: string,
    technician: string,
    vendor: string,
    cost: int,
    downtimeHours: int)

  /** `ManufacturingState`. Scores are integer hundredths, as in `Scoring`. */
  datatype State = State(
    sensorLogs: seq<Scoring.Reading>,
    maintenanceHistory: seq<MaintenanceRecord>,
    anomalies: seq<Scoring.Anomaly>,
    failingMachines: seq<string>,
    failureProbability: Dict<string, nat>,
    impactAnalysis: Dict<string, Graph.FailureImpact>,
    graphContext: seq<Graph.Triple>,
    rootCauseAnalysis: string,
    maintenancePlan: string,
    executiveSummary: string,
    currentStep: Step,
    errors: seq<string>)

  /** The state both entry points build before invoking the workflow. */
  function InitialState(logs: seq<Scoring.Reading>, history: seq<MaintenanceRecord>): (s: State)
    ensures s.sensorLogs == logs && s.maintenanceHistory == history
    ensures s.currentStep == Start
  {
    State(logs, history, [], [], [], [], [], "", "", "", Start, [])
  }

  /** The fields of the state record. */
  datatype Field =
    | SensorLogs | MaintenanceHistory | Anomalies | FailingMachines | FailureProbability
    | ImpactAnalysis | GraphContext | RootCauseAnalysis | MaintenancePlan | ExecutiveSummary
    | CurrentStep | Errors

  /** Only the fields in `written` may differ between `s` and `r`. */
  predicate WritesOnly(s: State, r: State, written: set<Field>) {
    && (SensorLogs !in written ==> s.sensorLogs == r.sensorLogs)
    && (MaintenanceHistory !in written ==> s.maintenanceHistory == r.maintenanceHistory)
    && (Anomalies !in written ==> s.anomalies == r.anomalies)
    && (FailingMachines !in written ==> s.failingMachines == r.failingMachines)
    && (FailureProbability !in written ==> s.failureProbability == r.failureProbability)
    && (ImpactAnalysis !in written ==> s.impactAnalysis == r.impactAnalysis)
    && (GraphContext !in written ==> s.graphContext == r.graphContext)
    && (RootCauseAnalysis !in written ==> s.rootCauseAnalysis == r.rootCauseAnalysis)
    && (MaintenancePlan !in written ==> s.maintenancePlan == r.maintenancePlan)
    && (ExecutiveSummary !in written ==> s.executiveSummary == r.executiveSummary)
    && (CurrentStep !in written ==> s.currentStep == r.currentStep)
    && (Errors !in written ==> s.errors == r.errors)
  }

  // ---------------------------------------------------------------------------
  // The language model
  // ---------------------------------------------------------------------------

  /** The three system messages. */
  datatype Role = MaintenanceExpert | PlanningExpert | ReportWriter

  /** What each prompt interpolates from the state. */
  datatype Prompt =
    | RootCausePrompt(anomalies: seq<Scoring.Anomaly>, history: seq<MaintenanceRecord>, dependencyMap: seq<Graph.Triple>)
    | PlanPrompt(rootCause: string, impact: Dict<string, Graph.FailureImpact>)
    | SummaryPrompt(failingCount: nat, linesAtRisk: set<string>, failing: seq<string>,
                    rootCauseExcerpt: string, planExcerpt: string)

  /** The excerpt length of the summary prompt. */
  const ExcerptLength: nat := 400

  /** `s[:400]`. */
  function Excerpt(s: string): (r: string)
    ensures |r| <= ExcerptLength
    ensures |r| <= |s| && r == s[..|r|]
    ensures |s| <= ExcerptLength ==> r == s
    ensures |s| > ExcerptLength ==> |r| == ExcerptLength
  {
    if |s| <= ExcerptLength then s else s[..ExcerptLength]
  }

  // ---------------------------------------------------------------------------
  // Stage 1: ingest_sensor_logs
  // ---------------------------------------------------------------------------

  function IngestStage(s: State, cfg: Scoring.Config): (r: State)
    ensures WritesOnly(s, r, {Anomalies, FailingMachines, FailureProbability, CurrentStep})
    ensures r.currentStep == SensorDone
    ensures Keys(r.failureProbability) == Scoring.MachineIds(s.sensorLogs)
    ensures |r.anomalies| == |r.failingMachines|
  {
    var res := Scoring.IngestSensorLogs(s.sensorLogs, cfg);
    s.(anomalies := res.anomalies, failingMachines := res.failingMachines,
       failureProbability := res.failureProbability, currentStep := SensorDone)
  }

  // ---------------------------------------------------------------------------
  // Stage 2: analyze_graph_impact
  // ---------------------------------------------------------------------------

  /** The loop `impact_analysis[m] = get_failure_impact(m)` over `ms`, from `{}`. */
  function ImpactOf(g: Graph.Graph, ms: seq<string>): (d: Dict<string, Graph.FailureImpact>)
    requires Graph.Valid(g)
    ensures Keys(d) == Dedup(ms)
  {
    if |ms| == 0 then []
    else
      var init := ms[..|ms| - 1];
      var m := ms[|ms| - 1];
      var prev := ImpactOf(g, init);
      DedupMembers(init, m);
      Put(prev, m, Graph.GetFailureImpact(g, m))
  }

  /** Every machine of the loop is mapped to its own impact, and nothing else is mapped. */
  lemma {:induction false} ImpactOfLookup(g: Graph.Graph, ms: seq<string>, m: string)
    requires Graph.Valid(g)
    ensures m in ms ==> Get(ImpactOf(g, ms), m) == Some(Graph.GetFailureImpact(g, m))
    ensures m !in ms ==> Get(ImpactOf(g, ms), m) == None
  {
    if m !in ms {
      DedupMembers(ms, m);
    } else if ms[|ms| - 1] != m {
      var init := ms[..|ms| - 1];
      assert ms == init + [ms[|ms| - 1]];
      ImpactOfLookup(g, init, m);
    }
  }

  function GraphStage(s: State, g: Graph.Graph): (r: State)
    requires Graph.Valid(g)
    ensures WritesOnly(s, r, {ImpactAnalysis, GraphContext, CurrentStep})
    ensures r.currentStep == GraphDone
    ensures Keys(r.impactAnalysis) == Dedup(s.failingMachines)
    ensures |r.graphContext| == |g.dependsOn| + |g.feedsInto|
  {
    s.(impactAnalysis := ImpactOf(g, s.failingMachines),
       graphContext := Graph.FullGraphSummary(g),
       currentStep := GraphDone)
  }

  // ---------------------------------------------------------------------------
  // Stage 3: identify_root_cause
  // ---------------------------------------------------------------------------

  /** The history rows of the machines in `ms`, in table order (`isin`). */
  function HistoryOf(history: seq<MaintenanceRecord>, ms: seq<string>): (rs: seq<MaintenanceRecord>)
    ensures forall r :: r in rs <==> r in history && r.machineId in ms
    ensures |rs| <= |history|
  {
    if |history| == 0 then []
    else
      var n := |history| - 1;
      HistoryOf(history[..n], ms) + (if history[n].machineId in ms then [history[n]] else [])
  }

  function RootCauseStage(s: State, gen: (Role, Prompt) -> string): (r: State)
    ensures WritesOnly(s, r, {RootCauseAnalysis, CurrentStep})
    ensures r.currentStep == RootCauseDone
    ensures r.rootCauseAnalysis ==
      gen(MaintenanceExpert, RootCausePrompt(s.anomalies, HistoryOf(s.maintenanceHistory, s.failingMachines), s.graphContext))
  {
    var prompt := RootCausePrompt(s.anomalies, HistoryOf(s.maintenanceHistory, s.failingMachines), s.graphContext);
    s.(rootCauseAnalysis := gen(MaintenanceExpert, prompt), currentStep := RootCauseDone)
  }

  // ---------------------------------------------------------------------------
  // Stage 4: generate_maintenance_plan
  // ---------------------------------------------------------------------------

  function PlanStage(s: State, gen: (Role, Prompt) -> string): (r: State)
    ensures WritesOnly(s, r, {MaintenancePlan, CurrentStep})
    ensures r.currentStep == PlanDone
    ensures r.maintenancePlan == gen(PlanningExpert, PlanPrompt(s.rootCauseAnalysis, s.impactAnalysis))
  {
    s.(maintenancePlan := gen(PlanningExpert, PlanPrompt(s.rootCauseAnalysis, s.impactAnalysis)),
       currentStep := PlanDone)
  }

  // ---------------------------------------------------------------------------
  // Stage 5: generate_executive_summary
  // ---------------------------------------------------------------------------

  /** The names of the impacted lines of every entry of the impact map, as a set. */
  function LinesAtRisk(d: Dict<string, Graph.FailureImpact>): (names: set<string>)
  {
    if |d| == 0 then {}
    else
      LinesAtRisk(d[..|d| - 1]) +
      set row | row in d[|d| - 1].1.impactedLines :: row.lineName
  }

  /** A name is at risk exactly when some entry of the map lists a line with that name. */
  lemma {:induction false} LinesAtRiskExact(d: Dict<string, Graph.FailureImpact>, name: string)
    ensures name in LinesAtRisk(d) <==>
      exists e, row :: e in d && row in e.1.impactedLines && row.lineName == name
  {
    if |d| > 0 {
      var init := d[..|d| - 1];
      var last := d[|d| - 1];
      LinesAtRiskExact(init, name);
      if exists e, row :: e in d && row in e.1.impactedLines && row.lineName == name {
        var e, row :| e in d && row in e.1.impactedLines && row.lineName == name;
        if e != last {
          assert e in init;
        } else {
          var k := IndexOf(last.1.impactedLines, row);
          assert last.1.impactedLines[k].lineName == name;
        }
      }
      if name in LinesAtRisk(d) && name !in LinesAtRisk(init) {
        var k :| 0 <= k < |last.1.impactedLines| && last.1.impactedLines[k].lineName == name;
        assert last in d && last.1.impactedLines[k] in last.1.impactedLines;
      }
    }
  }

  /** Every entry of the impact map is a machine of the loop with its own impact. */
  lemma ImpactEntry(g: Graph.Graph, ms: seq<string>, e: (string, Graph.FailureImpact))
    requires Graph.Valid(g) && e in ImpactOf(g, ms)
    ensures e.0 in ms && e.1 == Graph.GetFailureImpact(g, e.0)
  {
    var d := ImpactOf(g, ms);
    var i := IndexOf(d, e);
    assert Keys(d)[i] == e.0;
    DedupMembers(ms, e.0);
    GetEntry(d, i);
    ImpactOfLookup(g, ms, e.0);
  }

  /** Over the impact map the loop builds, the lines at risk are the names of
      the impacted lines of the machines looped over. */
  lemma LinesAtRiskOfImpact(g: Graph.Graph, ms: seq<string>, name: string)
    requires Graph.Valid(g)
    ensures name in LinesAtRisk(ImpactOf(g, ms)) <==>
      exists m, row :: m in ms && row in Graph.ImpactedLines(g, m) && row.lineName == name
  {
    var d := ImpactOf(g, ms);
    LinesAtRiskExact(d, name);
    if name in LinesAtRisk(d) {
      var e, row :| e in d && row in e.1.impactedLines && row.lineName == name;
      ImpactEntry(g, ms, e);
    }
    if exists m, row :: m in ms && row in Graph.ImpactedLines(g, m) && row.lineName == name {
      var m, row :| m in ms && row in Graph.ImpactedLines(g, m) && row.lineName == name;
      ImpactOfLookup(g, ms, m);
      assert (m, Graph.GetFailureImpact(g, m)) in d;
    }
  }

  function SummaryPromptOf(s: State): (p: Prompt)
    ensures p.SummaryPrompt? && p.failingCount == |s.failingMachines| && p.failing == s.failingMachines
    ensures |p.rootCauseExcerpt| <= ExcerptLength && |p.planExcerpt| <= ExcerptLength
  {
    SummaryPrompt(|s.failingMachines|, LinesAtRisk(s.impactAnalysis), s.failingMachines,
                  Excerpt(s.rootCauseAnalysis), Excerpt(s.maintenancePlan))
  }

  function SummaryStage(s: State, gen: (Role, Prompt) -> string): (r: State)
    ensures WritesOnly(s, r, {ExecutiveSummary, CurrentStep})
    ensures r.currentStep == Complete
    ensures r.executiveSummary == gen(ReportWriter, SummaryPromptOf(s))
  {
    s.(executiveSummary := gen(ReportWriter, SummaryPromptOf(s)), currentStep := Complete)
  }

  // ---------------------------------------------------------------------------
  // build_workflow: the five stages in sequence
  // ---------------------------------------------------------------------------

  /** `workflow.invoke(state)`: the five stages in wiring order. */
  function Run(s: State, cfg: Scoring.Config, g: Graph.Graph, gen: (Role, Prompt) -> string): (r: State)
    requires Graph.Valid(g)
    ensures r.currentStep == Complete
  {
    SummaryStage(PlanStage(RootCauseStage(GraphStage(IngestStage(s, cfg), g), gen), gen), gen)
  }

  /** The `current_step` values the run passes through, starting with the initial one. */
  function Steps(s: State, cfg: Scoring.Config, g: Graph.Graph, gen: (Role, Prompt) -> string): (steps: seq<Step>)
    requires Graph.Valid(g)
  {
    var s1 := IngestStage(s, cfg);
    var s2 := GraphStage(s1, g);
    var s3 := RootCauseStage(s2, gen);
    var s4 := PlanStage(s3, gen);
    [s.currentStep, s1.currentStep, s2.currentStep, s3.currentStep, s4.currentStep,
     SummaryStage(s4, gen).currentStep]
  }

  /** From the initial step the run goes start, sensor_done, graph_done,
      rootcause_done, plan_done, complete, whatever the logs, the graph and the
      model's answers, including when no machine is failing. */
  lemma RunStepOrder(s: State, cfg: Scoring.Config, g: Graph.Graph, gen: (Role, Prompt) -> string)
    requires Graph.Valid(g) && s.currentStep == Start
    ensures Steps(s, cfg, g, gen) == [Start, SensorDone, GraphDone, RootCauseDone, PlanDone, Complete]
  {
  }

  /** What a run leaves in the state: the inputs and `errors` untouched, one
      probability per machine of the log, one impact entry per failing machine
      holding that machine's query results, and a summary asked for with the
      failing machines, the names of every line they put at risk, and the
      first 400 characters of the two narrative texts. */
  lemma RunOutputs(s: State, cfg: Scoring.Config, g: Graph.Graph, gen: (Role, Prompt) -> string)
    requires Graph.Valid(g)
    ensures var r := Run(s, cfg, g, gen);
      && r.sensorLogs == s.sensorLogs && r.maintenanceHistory == s.maintenanceHistory && r.errors == s.errors
      && r.failureProbability == Scoring.IngestSensorLogs(s.sensorLogs, cfg).failureProbability
      && Keys(r.failureProbability) == Scoring.MachineIds(s.sensorLogs)
      && r.failingMachines == Scoring.IngestSensorLogs(s.sensorLogs, cfg).failingMachines
      && Keys(r.impactAnalysis) == r.failingMachines
      && (forall m :: m in r.failingMachines ==> Get(r.impactAnalysis, m) == Some(Graph.GetFailureImpact(g, m)))
      && r.graphContext == Graph.FullGraphSummary(g)
    ensures var r := Run(s, cfg, g, gen);
      && r.executiveSummary == gen(ReportWriter, SummaryPromptOf(r))
      && SummaryPromptOf(r).rootCauseExcerpt == Excerpt(r.rootCauseAnalysis)
      && SummaryPromptOf(r).planExcerpt == Excerpt(r.maintenancePlan)
      && forall name :: name in SummaryPromptOf(r).linesAtRisk <==>
           exists m, row :: m in r.failingMachines && row in Graph.ImpactedLines(g, m) && row.lineName == name
  {
    var s1 := IngestStage(s, cfg);
    var s2 := GraphStage(s1, g);
    var s4 := PlanStage(RootCauseStage(s2, gen), gen);
    var r := Run(s, cfg, g, gen);
    Scoring.IngestFailingOrder(s.sensorLogs, cfg);
    DedupOfDistinct(s1.failingMachines);
    forall m | m in r.failingMachines
      ensures Get(r.impactAnalysis, m) == Some(Graph.GetFailureImpact(g, m))
    {
      ImpactOfLookup(g, s1.failingMachines, m);
    }
    forall name
      ensures name in SummaryPromptOf(r).linesAtRisk <==>
        exists m, row :: m in r.failingMachines && row in Graph.ImpactedLines(g, m) && row.lineName == name
    {
      LinesAtRiskOfImpact(g, s1.failingMachines, name);
    }
  }
}
