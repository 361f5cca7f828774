/** The text report `save_report` writes after a run: a header, the three
    narrative sections copied verbatim, and one risk line per entry of
    `failure_probability`, each with a 20-cell bar, the percentage and a
    tier. Scores are integer hundredths, as in `Scoring`; the file name,
    the clock and the file system are left out, so the report is the
    sequence of strings handed to `f.write`, in order. */
module Report {
  import opened Wrappers
  import opened Dict
  import opened Seqs
  import Scoring
  import Pipeline
  import Graph

  // ---------------------------------------------------------------------------
  // Tier
  // ---------------------------------------------------------------------------

  /** The three risk tiers of a report line. */
  datatype Tier = Critical | Warning | Normal

  /** `"CRITICAL" if prob >= 0.75 else ("WARNING" if prob >= 0.40 else "NORMAL")`. */
  function RiskTier(p: nat): Tier {
    if p >= 75 then Critical else if p >= 40 then Warning else Normal
  }

  /** How severe a tier is: Normal < Warning < Critical. */
  function Severity(t: Tier): nat {
    match t
    case Normal => 0
    case Warning => 1
    case Critical => 2
  }

  /** A higher score never gets a milder tier. */
  lemma TierMonotone(p: nat, q: nat)
    requires p <= q
    ensures Severity(RiskTier(p)) <= Severity(RiskTier(q))
  {
  }

  /** With the default threshold of 0.75 the critical tier is exactly the
      failure test of the sensor stage. */
  lemma CriticalIffDefaultFailing(p: nat)
    ensures RiskTier(p) == Critical <==> Scoring.IsFailing(p, Scoring.DefaultConfig)
  {
  }

  /** The tier cut-points are fixed and do not follow a configured threshold:
      at a threshold of 0.50 a machine scoring 55 is failing, yet its report
      line says WARNING. */
  lemma TierIgnoresThreshold(cfg: Scoring.Config)
    requires cfg.failureThreshold == 0.5
    ensures Scoring.IsFailing(55, cfg) && RiskTier(55) == Warning
  {
  }

  /** The text of a tier. */
  function TierLabel(t: Tier): string {
    match t
    case Critical => "\U{1F534} CRITICAL"
    case Warning => "\U{1F7E1} WARNING"
    case Normal => "\U{1F7E2} NORMAL"
  }

  // ---------------------------------------------------------------------------
  // Bar
  // ---------------------------------------------------------------------------

  /** Cells in a bar. */
  const BarWidth: nat := 20

  const FullCell: char := '\U{2588}'

  const EmptyCell: char := '\U{2591}'

  /** Python's `c * n`: `n` copies of `c`, none when `n` is zero or negative. */
  function Repeat(c: char, n: int): (s: string)
    ensures |s| == if n > 0 then n else 0
    ensures forall i :: 0 <= i < |s| ==> s[i] == c
  {
    if n <= 0 then [] else seq(n, _ => c)
  }

  /** `int(prob * 20)` for `prob = p / 100`: the number of whole 5-point steps in `p`. */
  function FilledCells(p: nat): (k: nat)
    ensures 5 * k <= p < 5 * k + 5
  {
    p / 5
  }

  /** `"█" * int(prob * 20) + "░" * (20 - int(prob * 20))`: the filled cells
      come first; a score above 100 overflows the width and gets no empty cell. */
  function Bar(p: nat): (bar: string)
    ensures p <= 100 ==> |bar| == BarWidth
    ensures p > 100 ==> |bar| == FilledCells(p)
    ensures forall i :: 0 <= i < |bar| ==> (bar[i] == FullCell <==> i < FilledCells(p))
    ensures forall i :: 0 <= i < |bar| ==> IsCell(bar[i])
  {
    Repeat(FullCell, FilledCells(p)) + Repeat(EmptyCell, BarWidth - FilledCells(p))
  }

  predicate IsCell(c: char) {
    c == FullCell || c == EmptyCell
  }

  // ---------------------------------------------------------------------------
  // Percentage
  // ---------------------------------------------------------------------------

  predicate IsDigit(c: char) {
    '0' <= c <= '9'
  }

  function DigitChar(d: nat): (c: char)
    requires d < 10
    ensures IsDigit(c)
  {
    (48 + d) as char
  }

  function DigitValue(c: char): (d: nat)
    requires IsDigit(c)
    ensures d < 10 && DigitChar(d) == c
  {
    c as int - 48
  }

  /** `f"{prob*100:.0f}"`: the score in decimal, without leading zeros. */
  function NatToString(n: nat): (s: string)
    ensures |s| > 0
    ensures forall i :: 0 <= i < |s| ==> IsDigit(s[i])
    ensures |s| > 1 ==> s[0] != '0'
    decreases n
  {
    if n < 10 then [DigitChar(n)] else NatToString(n / 10) + [DigitChar(n % 10)]
  }

  /** The number a string of decimal digits denotes. */
  function DigitsValue(s: string): nat
    requires forall i :: 0 <= i < |s| ==> IsDigit(s[i])
  {
    if |s| == 0 then 0 else 10 * DigitsValue(s[..|s| - 1]) + DigitValue(s[|s| - 1])
  }

  /** The printed percentage reads back as the score. */
  lemma {:induction false} NatToStringValue(n: nat)
    ensures DigitsValue(NatToString(n)) == n
  {
    if n >= 10 {
      var s := NatToString(n);
      NatToStringValue(n / 10);
      assert s[..|s| - 1] == NatToString(n / 10);
      assert DigitValue(s[|s| - 1]) == n % 10;
    }
  }

  // ---------------------------------------------------------------------------
  // Risk lines
  // ---------------------------------------------------------------------------

  /** `f"{machine}: [{bar}{empty}] {prob*100:.0f}% {risk}\n"`. */
  function RiskLine(m: string, p: nat): string {
    m + ": [" + LineBody(p)
  }

  /** What follows the opening bracket of a risk line: the bar, the
      percentage and the tier. */
  function LineBody(p: nat): string {
    Bar(p) + "] " + (NatToString(p) + TierSuffix(p))
  }

  /** What follows the percentage on a risk line of score `p`. */
  function TierSuffix(p: nat): string {
    "% " + TierLabel(RiskTier(p)) + "\n"
  }

  /** The character classes a risk line is read with. */
  datatype CharClass = IdChar | CellChar | DecimalChar

  predicate InClass(c: char, cls: CharClass) {
    match cls
    case IdChar => c != ':'
    case CellChar => IsCell(c)
    case DecimalChar => IsDigit(c)
  }

  /** Length of the longest prefix of `s` whose characters are all in `cls`. */
  function Span(s: string, cls: CharClass): (k: nat)
    ensures k <= |s|
    ensures forall i :: 0 <= i < k ==> InClass(s[i], cls)
    ensures k < |s| ==> !InClass(s[k], cls)
  {
    if |s| == 0 || !InClass(s[0], cls) then 0 else 1 + Span(s[1..], cls)
  }

  /** The longest prefix of `a + b` in `cls` is `a` when `b` starts outside `cls`. */
  lemma SpanAt(a: string, b: string, cls: CharClass)
    requires forall i :: 0 <= i < |a| ==> InClass(a[i], cls)
    requires |b| > 0 && !InClass(b[0], cls)
    ensures Span(a + b, cls) == |a|
  {
    forall i | 0 <= i < |a|
      ensures InClass((a + b)[i], cls)
    {
      assert (a + b)[i] == a[i];
    }
    assert (a + b)[|a|] == b[0];
  }

  /** Reads a risk line back: the id runs up to the first colon, the score is
      the number after the bar; the line is accepted only when it is exactly
      the risk line of that id and score. */
  function ParseRiskLine(line: string): Option<(string, nat)> {
    var i := Span(line, IdChar);
    if |line| < i + 3 then None
    else
      var m, p := line[..i], ReadScore(line[i + 3..]);
      if line == RiskLine(m, p) then Some((m, p)) else None
  }

  /** The number written after the bar and the closing bracket of a line body. */
  function ReadScore(body: string): nat {
    var j := Span(body, CellChar);
    if |body| < j + 2 then 0
    else
      var rest := body[j + 2..];
      DigitsValue(rest[..Span(rest, DecimalChar)])
  }

  /** The score is read back from the body of its own risk line. */
  lemma ReadScoreOfBody(p: nat)
    ensures ReadScore(LineBody(p)) == p
  {
    var rest := NatToString(p) + TierSuffix(p);
    BarThenRest(p);
    DigitsThenSuffix(p);
    assert ReadScore(LineBody(p)) == DigitsValue(rest[..Span(rest, DecimalChar)]);
  }

  /** In a line body the bar is the longest run of cells, followed by `"] "`. */
  lemma BarThenRest(p: nat)
    ensures Span(LineBody(p), CellChar) == |Bar(p)|
    ensures |Bar(p)| + 2 <= |LineBody(p)| && LineBody(p)[|Bar(p)| + 2..] == NatToString(p) + TierSuffix(p)
  {
    var bar, rest := Bar(p), NatToString(p) + TierSuffix(p);
    assert LineBody(p) == bar + ("] " + rest);
    SpanAt(bar, "] " + rest, CellChar);
  }

  /** The percentage is the longest run of digits before the suffix, and denotes the score. */
  lemma DigitsThenSuffix(p: nat)
    ensures var rest := NatToString(p) + TierSuffix(p);
      DigitsValue(rest[..Span(rest, DecimalChar)]) == p
  {
    var digits := NatToString(p);
    var rest := digits + TierSuffix(p);
    SpanAt(digits, TierSuffix(p), DecimalChar);
    assert rest[..|digits|] == digits;
    NatToStringValue(p);
  }

  /** Every risk line of an id without a colon reads back as that id and score. */
  lemma RiskLineReadsBack(m: string, p: nat)
    requires ':' !in m
    ensures ParseRiskLine(RiskLine(m, p)) == Some((m, p))
  {
    var line := RiskLine(m, p);
    assert line == m + (": [" + LineBody(p));
    SpanAt(m, ": [" + LineBody(p), IdChar);
    assert line[..|m|] == m;
    assert line[|m| + 3..] == LineBody(p);
    ReadScoreOfBody(p);
  }

  /** A line that reads back is the risk line of what it reads as, and the id holds no colon. */
  lemma ParsedLineIsRiskLine(line: string, m: string, p: nat)
    requires ParseRiskLine(line) == Some((m, p))
    ensures ':' !in m && line == RiskLine(m, p)
  {
    var i := Span(line, IdChar);
    forall x | 0 <= x < |m|
      ensures m[x] != ':'
    {
      assert m[x] == line[x];
    }
  }

  /** One risk line per entry of `failure_probability`, in insertion order. */
  function RiskLines(fp: Dict<string, nat>): (ls: seq<string>)
    ensures |ls| == |fp|
    ensures forall i :: 0 <= i < |fp| ==> ls[i] == RiskLine(fp[i].0, fp[i].1)
  {
    seq(|fp|, i requires 0 <= i < |fp| => RiskLine(fp[i].0, fp[i].1))
  }

  // ---------------------------------------------------------------------------
  // The report file
  // ---------------------------------------------------------------------------

  const ExecutiveSummaryTitle: string := "\U{1F4CB} EXECUTIVE SUMMARY"
  const RootCauseTitle: string := "\U{1F50D} ROOT CAUSE ANALYSIS"
  const MaintenancePlanTitle: string := "\U{1F527} MAINTENANCE PLAN"
  const RiskScoresTitle: string := "\U{1F4CA} MACHINE RISK SCORES"

  /** The four writes of the banner; `date` is the formatted clock reading. */
  function Header(date: string): seq<string> {
    [Repeat('=', 60) + "\n",
     "  SMART MANUFACTURING DOWNTIME INTELLIGENCE REPORT\n",
     "  Date: " + date + "\n",
     Repeat('=', 60) + "\n\n"]
  }

  /** A titled section: the title, a 40-dash rule, the text and a blank line. */
  function Section(title: string, text: string): seq<string> {
    [title + "\n", Repeat('-', 40) + "\n", text + "\n\n"]
  }

  /** Writes before the first risk line. */
  const RiskLinesStart: nat := 15

  /** Every `f.write` of `save_report`, in order. */
  function ReportWrites(s: Pipeline.State, date: string): (ws: seq<string>)
    ensures |ws| == RiskLinesStart + |s.failureProbability|
  {
    Preamble(s, date) + RiskLines(s.failureProbability)
  }

  /** The writes before the first risk line: the banner, the three sections
      and the title of the risk table. */
  function Preamble(s: Pipeline.State, date: string): (ws: seq<string>)
    ensures |ws| == RiskLinesStart
  {
    Header(date)
    + Section(ExecutiveSummaryTitle, s.executiveSummary)
    + Section(RootCauseTitle, s.rootCauseAnalysis)
    + Section(MaintenancePlanTitle, s.maintenancePlan)
    + [RiskScoresTitle + "\n", Repeat('-', 40) + "\n"]
  }

  /** The report holds the three narratives verbatim, in the order executive
      summary, root cause, plan, each under its own title, and then every
      machine's score as a line that reads back as that machine and score. */
  lemma ReportContents(s: Pipeline.State, date: string)
    ensures var ws := ReportWrites(s, date);
      && ws[4] == ExecutiveSummaryTitle + "\n" && ws[6] == s.executiveSummary + "\n\n"
      && ws[7] == RootCauseTitle + "\n" && ws[9] == s.rootCauseAnalysis + "\n\n"
      && ws[10] == MaintenancePlanTitle + "\n" && ws[12] == s.maintenancePlan + "\n\n"
      && ws[13] == RiskScoresTitle + "\n"
    ensures var ws := ReportWrites(s, date);
      forall i :: 0 <= i < |s.failureProbability| && ':' !in s.failureProbability[i].0 ==>
        ParseRiskLine(ws[RiskLinesStart + i]) == Some(s.failureProbability[i])
  {
    var ws := ReportWrites(s, date);
    var fp := s.failureProbability;
    forall i | 0 <= i < |fp| && ':' !in fp[i].0
      ensures ParseRiskLine(ws[RiskLinesStart + i]) == Some(fp[i])
    {
      RiskLineAt(s, date, i);
      RiskLineReadsBack(fp[i].0, fp[i].1);
    }
  }

  /** After a run at the default threshold the report has one line per machine
      of the log, in the order the machines first appear, and a line is
      CRITICAL exactly when its machine is among the failing machines. */
  lemma ReportFlagsFailingMachines(s: Pipeline.State, g: Graph.Graph, gen: (Pipeline.Role, Pipeline.Prompt) -> string,
                                   r: Pipeline.State, date: string)
    requires Graph.Valid(g) && r == Pipeline.Run(s, Scoring.DefaultConfig, g, gen)
    ensures Keys(r.failureProbability) == Scoring.MachineIds(s.sensorLogs)
    ensures var fp := r.failureProbability;
      forall i :: 0 <= i < |fp| ==>
        && ReportWrites(r, date)[RiskLinesStart + i] == RiskLine(fp[i].0, fp[i].1)
        && (RiskTier(fp[i].1) == Critical <==> fp[i].0 in r.failingMachines)
  {
    Pipeline.RunOutputs(s, Scoring.DefaultConfig, g, gen);
    ReportOfScores(s.sensorLogs, r, date);
  }

  lemma ReportOfScores(log: seq<Scoring.Reading>, r: Pipeline.State, date: string)
    requires r.failureProbability == Scoring.IngestSensorLogs(log, Scoring.DefaultConfig).failureProbability
    requires r.failingMachines == Scoring.IngestSensorLogs(log, Scoring.DefaultConfig).failingMachines
    ensures var fp := r.failureProbability;
      forall i :: 0 <= i < |fp| ==>
        && ReportWrites(r, date)[RiskLinesStart + i] == RiskLine(fp[i].0, fp[i].1)
        && (RiskTier(fp[i].1) == Critical <==> fp[i].0 in r.failingMachines)
  {
    var fp := r.failureProbability;
    forall i | 0 <= i < |fp|
      ensures ReportWrites(r, date)[RiskLinesStart + i] == RiskLine(fp[i].0, fp[i].1)
      ensures RiskTier(fp[i].1) == Critical <==> fp[i].0 in r.failingMachines
    {
      RiskLineAt(r, date, i);
      CriticalEntry(log, i);
    }
  }

  /** The risk line of entry `i` is write number `RiskLinesStart + i`. */
  lemma RiskLineAt(s: Pipeline.State, date: string, i: nat)
    requires i < |s.failureProbability|
    ensures ReportWrites(s, date)[RiskLinesStart + i] == RiskLine(s.failureProbability[i].0, s.failureProbability[i].1)
  {
    var ls := RiskLines(s.failureProbability);
    assert ReportWrites(s, date)[RiskLinesStart + i] == ls[i];
  }

  /** An entry of the ingested scores is critical exactly when its machine fails at the default threshold. */
  lemma CriticalEntry(log: seq<Scoring.Reading>, i: nat)
    requires i < |Scoring.IngestSensorLogs(log, Scoring.DefaultConfig).failureProbability|
    ensures var res := Scoring.IngestSensorLogs(log, Scoring.DefaultConfig);
      RiskTier(res.failureProbability[i].1) == Critical <==> res.failureProbability[i].0 in res.failingMachines
  {
    var cfg := Scoring.DefaultConfig;
    var fp := Scoring.IngestSensorLogs(log, cfg).failureProbability;
    var m := fp[i].0;
    assert m == Keys(fp)[i];
    assert m in Scoring.IdColumn(log);
    GetEntry(fp, i);
    Scoring.IngestRecordsEveryMachine(log, cfg, m);
    Scoring.IngestFailingExact(log, cfg, m);
    CriticalIffDefaultFailing(fp[i].1);
  }
}
