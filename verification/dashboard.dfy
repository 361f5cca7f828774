/** What the dashboard shows after a run: the status of each machine card,
    the alert threshold chosen on the slider, the four summary metrics and
    one urgent alert per failing machine. Scores are integer hundredths, as
    in `Scoring`; layout, colours, charts and wording are left out. */
module Dashboard {
  import opened Wrappers
  import opened Dict
  import opened Seqs
  import Scoring
  import Graph
  import Pipeline
  import Report
  import GraphScenarios

  // ---------------------------------------------------------------------------
  // get_status
  // ---------------------------------------------------------------------------

  /** The three card states. */
  datatype Status = Critical | Warning | Healthy

  /** `get_status(risk)`: critical from 0.75, warning from 0.40, healthy below. */
  function StatusOf(p: nat): Status {
    if p >= 75 then Critical else if p >= 40 then Warning else Healthy
  }

  function StatusLabel(s: Status): string {
    match s
    case Critical => "\U{1F534} CRITICAL"
    case Warning => "\U{1F7E1} WARNING"
    case Healthy => "\U{1F7E2} HEALTHY"
  }

  /** The card status and the report tier use the same cut-points; only the
      word for the lowest band differs (HEALTHY on the card, NORMAL in the report). */
  lemma StatusMatchesReportTier(p: nat)
    ensures StatusOf(p) == Critical <==> Report.RiskTier(p) == Report.Critical
    ensures StatusOf(p) == Warning <==> Report.RiskTier(p) == Report.Warning
    ensures StatusOf(p) == Healthy <==> Report.RiskTier(p) == Report.Normal
    ensures StatusLabel(Critical) == Report.TierLabel(Report.Critical)
    ensures StatusLabel(Warning) == Report.TierLabel(Report.Warning)
    ensures StatusLabel(Healthy) != Report.TierLabel(Report.Normal)
  {
    assert StatusLabel(Healthy)[2..] == "HEALTHY";
    assert Report.TierLabel(Report.Normal)[2..] == "NORMAL";
  }

  // ---------------------------------------------------------------------------
  // The alert-sensitivity slider
  // ---------------------------------------------------------------------------

  const SliderMin: int := 50
  const SliderMax: int := 95
  const SliderDefault: int := 75

  /** `Config.FAILURE_THRESHOLD = threshold / 100` for a slider position `v`;
      the temperature and vibration limits stay as configured. */
  function SliderConfig(v: int, base: Scoring.Config): (cfg: Scoring.Config)
    requires SliderMin <= v <= SliderMax
    ensures cfg.criticalTemp == base.criticalTemp && cfg.criticalVibration == base.criticalVibration
    ensures 0.5 <= cfg.failureThreshold <= 0.95
  {
    base.(failureThreshold := (v as real) / 100.0)
  }

  /** At slider position `v` a machine is failing exactly when its score reaches `v` percent. */
  lemma SliderFailsFrom(v: int, base: Scoring.Config, p: nat)
    requires SliderMin <= v <= SliderMax
    ensures Scoring.IsFailing(p, SliderConfig(v, base)) <==> p >= v
  {
    var t := (v as real) / 100.0;
    assert (p as real) / 100.0 >= t <==> (p as real) >= (v as real);
  }

  /** The slider's default position gives the configured default threshold. */
  lemma SliderDefaultIsDefault()
    ensures SliderConfig(SliderDefault, Scoring.DefaultConfig) == Scoring.DefaultConfig
  {
  }

  /** Whatever the slider position, a failing machine's card is never HEALTHY
      (the slider cannot go below the warning band), and from the default
      position up it is always CRITICAL. Below 75 a failing machine can still
      show WARNING, because the card ignores the slider. */
  lemma FailingCardStatus(v: int, base: Scoring.Config, p: nat)
    requires SliderMin <= v <= SliderMax
    requires Scoring.IsFailing(p, SliderConfig(v, base))
    ensures StatusOf(p) != Healthy
    ensures v >= SliderDefault ==> StatusOf(p) == Critical
  {
    SliderFailsFrom(v, base, p);
  }

  /** At the lowest slider position a score of 50 is failing but its card says WARNING. */
  lemma LowSliderShowsWarning(base: Scoring.Config)
    ensures Scoring.IsFailing(50, SliderConfig(SliderMin, base)) && StatusOf(50) == Warning
  {
    SliderFailsFrom(SliderMin, base, 50);
  }

  // ---------------------------------------------------------------------------
  // Machine cards
  // ---------------------------------------------------------------------------

  /** The keys of the dashboard's `MACHINES` table, in order. */
  const CardIds: seq<string> := ["M001", "M002", "M003", "M004", "M005"]

  /** The "Machines Monitored" metric is the literal text "5", not a count. */
  const MachinesMonitored: string := "5"

  /** `failure_probability.get(machine_id, 0)`. */
  function RiskOf(fp: Dict<string, nat>, m: string): (p: nat)
    ensures m !in Keys(fp) ==> p == 0
    ensures m in Keys(fp) ==> Get(fp, m) == Some(p)
  {
    GetOr(fp, m, 0)
  }

  /** One machine card: id, score, status and the printed percentage. */
  datatype Card = Card(machineId: string, risk: nat, status: Status, percent: string)

  function CardOf(fp: Dict<string, nat>, m: string): Card {
    var p := RiskOf(fp, m);
    Card(m, p, StatusOf(p), Report.NatToString(p))
  }

  /** One card per entry of `MACHINES`, whatever the logs contained. */
  function Cards(fp: Dict<string, nat>): (cs: seq<Card>)
    ensures |cs| == |CardIds|
    ensures forall i :: 0 <= i < |cs| ==> cs[i] == CardOf(fp, CardIds[i])
  {
    seq(|CardIds|, i requires 0 <= i < |CardIds| => CardOf(fp, CardIds[i]))
  }

  /** After a run, a card shows its machine's assessed score when the machine
      appears in the log, and a HEALTHY 0% otherwise. */
  lemma CardsOfRun(s: Pipeline.State, cfg: Scoring.Config, g: Graph.Graph, gen: (Pipeline.Role, Pipeline.Prompt) -> string,
                   r: Pipeline.State, i: nat)
    requires Graph.Valid(g) && r == Pipeline.Run(s, cfg, g, gen) && i < |CardIds|
    ensures var c := Cards(r.failureProbability)[i];
      var m := CardIds[i];
      && c.machineId == m
      && (m in Scoring.IdColumn(s.sensorLogs) ==> c.risk == Scoring.Assess(s.sensorLogs, m, cfg).score)
      && (m !in Scoring.IdColumn(s.sensorLogs) ==> c.risk == 0 && c.status == Healthy && c.percent == "0")
  {
    Pipeline.RunOutputs(s, cfg, g, gen);
    Scoring.IngestRecordsEveryMachine(s.sensorLogs, cfg, CardIds[i]);
  }

  /** A row of the risk score table: the machine, its printed risk score and
      its status. */
  datatype TableRow = TableRow(machineId: string, percent: string, status: Status)

  /** The risk score table: one row per entry of `MACHINES`, in order, with the
      same default-0 lookup as the cards, so every row agrees with its card,
      prints the card's percentage followed by "%", and a machine without a
      score is a HEALTHY "0%". */
  function RiskTable(fp: Dict<string, nat>): (rows: seq<TableRow>)
    ensures |rows| == |CardIds|
    ensures forall i :: 0 <= i < |rows| ==>
      && rows[i].machineId == CardIds[i]
      && rows[i].percent == Cards(fp)[i].percent + "%"
      && rows[i].status == Cards(fp)[i].status
    ensures forall i :: 0 <= i < |rows| && CardIds[i] !in Keys(fp) ==>
      rows[i].percent == "0%" && rows[i].status == Healthy
  {
    seq(|CardIds|, i requires 0 <= i < |CardIds| =>
      var p := RiskOf(fp, CardIds[i]);
      TableRow(CardIds[i], Report.NatToString(p) + "%", StatusOf(p)))
  }

  // ---------------------------------------------------------------------------
  // Summary metrics
  // ---------------------------------------------------------------------------

  /** `sum(len(v.get("affected_machines", [])) for v in impact_analysis.values())`. */
  function TotalAffected(d: Dict<string, Graph.FailureImpact>): nat {
    if |d| == 0 then 0 else TotalAffected(d[..|d| - 1]) + |d[|d| - 1].1.affectedMachines|
  }

  /** `sum(len(v.get("impacted_lines", [])) for v in impact_analysis.values())`. */
  function TotalLines(d: Dict<string, Graph.FailureImpact>): nat {
    if |d| == 0 then 0 else TotalLines(d[..|d| - 1]) + |d[|d| - 1].1.impactedLines|
  }

  /** The number of dependency paths into each machine of `ms`, added up. */
  function PathsInto(g: Graph.Graph, ms: seq<string>): nat
    requires Graph.Valid(g)
  {
    if |ms| == 0 then 0 else PathsInto(g, ms[..|ms| - 1]) + |Graph.AffectedMachines(g, ms[|ms| - 1])|
  }

  /** The number of distinct lines reached from each machine of `ms`, added up. */
  function LinesFrom(g: Graph.Graph, ms: seq<string>): nat
    requires Graph.Valid(g)
  {
    if |ms| == 0 then 0 else LinesFrom(g, ms[..|ms| - 1]) + |Graph.ImpactedLines(g, ms[|ms| - 1])|
  }

  /** A dictionary whose entries answer the impact queries for its keys, in order. */
  predicate HoldsImpacts(g: Graph.Graph, d: Dict<string, Graph.FailureImpact>)
    requires Graph.Valid(g)
  {
    forall i :: 0 <= i < |d| ==> d[i].1 == Graph.GetFailureImpact(g, d[i].0)
  }

  /** Summed over a dictionary of query results, the metrics count paths and
      per-machine lines: a machine reached along two paths, or a line reached
      from two failing machines, is counted twice. */
  lemma {:induction false} TotalsOfImpacts(g: Graph.Graph, d: Dict<string, Graph.FailureImpact>)
    requires Graph.Valid(g) && HoldsImpacts(g, d)
    ensures TotalAffected(d) == PathsInto(g, Keys(d))
    ensures TotalLines(d) == LinesFrom(g, Keys(d))
  {
    if |d| > 0 {
      var init := d[..|d| - 1];
      assert Keys(d)[..|d| - 1] == Keys(init);
      TotalsOfImpacts(g, init);
    }
  }

  /** After a run the entries of `impact_analysis` answer the queries for their keys. */
  lemma RunHoldsImpacts(s: Pipeline.State, cfg: Scoring.Config, g: Graph.Graph, gen: (Pipeline.Role, Pipeline.Prompt) -> string,
                        r: Pipeline.State)
    requires Graph.Valid(g) && r == Pipeline.Run(s, cfg, g, gen)
    ensures HoldsImpacts(g, r.impactAnalysis)
  {
    Pipeline.RunOutputs(s, cfg, g, gen);
    Scoring.IngestFailingOrder(s.sensorLogs, cfg);
    var d := r.impactAnalysis;
    forall i | 0 <= i < |d|
      ensures d[i].1 == Graph.GetFailureImpact(g, d[i].0)
    {
      assert d[i].0 == Keys(d)[i];
      GetEntry(d, i);
    }
  }

  /** The four metrics: monitored, critical, affected, lines at risk. */
  datatype Metrics = Metrics(monitored: string, critical: nat, affected: nat, lines: nat)

  function MetricsOf(r: Pipeline.State): Metrics {
    Metrics(MachinesMonitored, |r.failingMachines|, TotalAffected(r.impactAnalysis), TotalLines(r.impactAnalysis))
  }

  /** After a run, "Critical Machines" counts the failing machines, and the
      other two metrics add up the query results of each failing machine. */
  lemma MetricsOfRun(s: Pipeline.State, cfg: Scoring.Config, g: Graph.Graph, gen: (Pipeline.Role, Pipeline.Prompt) -> string,
                     r: Pipeline.State)
    requires Graph.Valid(g) && r == Pipeline.Run(s, cfg, g, gen)
    ensures MetricsOf(r).critical == |Scoring.IngestSensorLogs(s.sensorLogs, cfg).failingMachines|
    ensures MetricsOf(r).affected == PathsInto(g, r.failingMachines)
    ensures MetricsOf(r).lines == LinesFrom(g, r.failingMachines)
  {
    Pipeline.RunOutputs(s, cfg, g, gen);
    RunHoldsImpacts(s, cfg, g, gen, r);
    TotalsOfImpacts(g, r.impactAnalysis);
  }

  /** On the seeded plant with M002 and M003 failing, the dashboard shows 4
      affected machines (Assembly Unit E counted once for each of its two
      paths to M002) and 2 lines at risk. */
  lemma SeededPlantMetrics(db: Graph.Graph, a: Graph.FailureImpact, b: Graph.FailureImpact,
                           d: Dict<string, Graph.FailureImpact>)
    requires Graph.Valid(Graph.Rebuild(db))
    requires a == Graph.GetFailureImpact(Graph.Rebuild(db), "M002")
    requires b == Graph.GetFailureImpact(Graph.Rebuild(db), "M003")
    requires d == [("M002", a), ("M003", b)]
    ensures TotalAffected(d) == 4 && TotalLines(d) == 2
  {
    GraphScenarios.RebuildImpactM002(db);
    GraphScenarios.RebuildImpactM003(db);
    assert |a.affectedMachines| == 3 && |a.impactedLines| == 1;
    assert |b.affectedMachines| == 1 && |b.impactedLines| == 1;
    TwoEntryTotals(d, a, b);
  }

  lemma TwoEntryTotals(d: Dict<string, Graph.FailureImpact>, a: Graph.FailureImpact, b: Graph.FailureImpact)
    requires d == [("M002", a), ("M003", b)]
    ensures TotalAffected(d) == |a.affectedMachines| + |b.affectedMachines|
    ensures TotalLines(d) == |a.impactedLines| + |b.impactedLines|
  {
    var first := d[..1];
    assert first == [("M002", a)] && first[..0] == [];
    assert TotalAffected(first) == |a.affectedMachines|;
    assert TotalLines(first) == |a.impactedLines|;
    assert TotalAffected(d) == TotalAffected(first) + |b.affectedMachines|;
    assert TotalLines(d) == TotalLines(first) + |b.impactedLines|;
  }

  // ---------------------------------------------------------------------------
  // Urgent alerts
  // ---------------------------------------------------------------------------

  /** One urgent alert: the machine and the two counts it quotes. */
  datatype Alert = Alert(machineId: string, affectedCount: nat, lineCount: nat)

  /** `impact_analysis.get(machine_id, {})`, then the two lists with `[]` as default. */
  function AlertOf(d: Dict<string, Graph.FailureImpact>, m: string): (a: Alert)
    ensures a.machineId == m
    ensures m !in Keys(d) ==> a.affectedCount == 0 && a.lineCount == 0
  {
    match Get(d, m)
    case Some(fi) => Alert(m, |fi.affectedMachines|, |fi.impactedLines|)
    case None => Alert(m, 0, 0)
  }

  /** One alert per failing machine, in the order of `failing_machines`. */
  function Alerts(r: Pipeline.State): (as_: seq<Alert>)
    ensures |as_| == |r.failingMachines|
    ensures forall i :: 0 <= i < |as_| ==> as_[i] == AlertOf(r.impactAnalysis, r.failingMachines[i])
  {
    seq(|r.failingMachines|, i requires 0 <= i < |r.failingMachines| => AlertOf(r.impactAnalysis, r.failingMachines[i]))
  }

  /** After a run each alert quotes exactly the query results of its machine:
      the number of dependency paths into it and the number of distinct lines
      it reaches. No alert falls back to the empty default. */
  lemma AlertsOfRun(s: Pipeline.State, cfg: Scoring.Config, g: Graph.Graph, gen: (Pipeline.Role, Pipeline.Prompt) -> string,
                    r: Pipeline.State)
    requires Graph.Valid(g) && r == Pipeline.Run(s, cfg, g, gen)
    ensures |Alerts(r)| == |Scoring.IngestSensorLogs(s.sensorLogs, cfg).failingMachines|
    ensures forall i :: 0 <= i < |Alerts(r)| ==>
      && Alerts(r)[i].machineId == r.failingMachines[i]
      && Alerts(r)[i].affectedCount == |Graph.AffectedMachines(g, r.failingMachines[i])|
      && Alerts(r)[i].lineCount == |Graph.ImpactedLines(g, r.failingMachines[i])|
  {
    RunImpactLookup(s, cfg, g, gen, r);
    AlertsOfImpacts(g, r);
  }

  /** Alerts quote the query results held for their machines. */
  lemma AlertsOfImpacts(g: Graph.Graph, r: Pipeline.State)
    requires Graph.Valid(g)
    requires forall m :: m in r.failingMachines ==> Get(r.impactAnalysis, m) == Some(Graph.GetFailureImpact(g, m))
    ensures forall i :: 0 <= i < |Alerts(r)| ==>
      && Alerts(r)[i].affectedCount == |Graph.AffectedMachines(g, r.failingMachines[i])|
      && Alerts(r)[i].lineCount == |Graph.ImpactedLines(g, r.failingMachines[i])|
  {
    forall i | 0 <= i < |Alerts(r)|
      ensures Alerts(r)[i].affectedCount == |Graph.AffectedMachines(g, r.failingMachines[i])|
      ensures Alerts(r)[i].lineCount == |Graph.ImpactedLines(g, r.failingMachines[i])|
    {
      var m := r.failingMachines[i];
      assert m in r.failingMachines;
      AlertOfFailing(g, r.impactAnalysis, m);
    }
  }

  /** After a run every failing machine has its query results in `impact_analysis`. */
  lemma RunImpactLookup(s: Pipeline.State, cfg: Scoring.Config, g: Graph.Graph, gen: (Pipeline.Role, Pipeline.Prompt) -> string,
                        r: Pipeline.State)
    requires Graph.Valid(g) && r == Pipeline.Run(s, cfg, g, gen)
    ensures r.failingMachines == Scoring.IngestSensorLogs(s.sensorLogs, cfg).failingMachines
    ensures forall m :: m in r.failingMachines ==> Get(r.impactAnalysis, m) == Some(Graph.GetFailureImpact(g, m))
  {
    Pipeline.RunOutputs(s, cfg, g, gen);
  }

  /** The alert of a machine whose entry holds its query results. */
  lemma AlertOfFailing(g: Graph.Graph, d: Dict<string, Graph.FailureImpact>, m: string)
    requires Graph.Valid(g) && Get(d, m) == Some(Graph.GetFailureImpact(g, m))
    ensures AlertOf(d, m) == Alert(m, |Graph.AffectedMachines(g, m)|, |Graph.ImpactedLines(g, m)|)
  {
  }
}
