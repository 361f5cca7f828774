/** The risk scorer of the sensor-ingest stage: per machine, a trailing window
    of at most 24 readings, three averages and an error count, and four
    independent weighted threshold rules. A score is an integer number of
    hundredths of a probability; every partial sum of the weights 35, 35, 20
    and 10 is a multiple of five hundredths, so rounding to two decimals is
    exact in this representation. */
module Scoring {
  import opened Wrappers
  import opened Seqs
  import opened Dict

  /** One hourly sensor sample. */
  datatype Reading = Reading(
    machineId: string,
    timestamp: string,
    temperature: real,
    vibration: real,
    pressure: real,
    rpm: real,
    errorCode: string)

  /** The error code of a healthy reading. */
  const NoError: string := "NONE"
  /** Length of the trailing window (the last 24 hourly samples). */
  const WindowSize: nat := 24
  /** More than this many error readings in the window trigger the error rule. */
  const ErrorLimit: nat := 3
  /** An average pressure below this triggers the pressure rule. */
  const LowPressureLimit: real := 85.0

  /** The operator-settable thresholds; `failureThreshold` is a probability. */
  datatype Config = Config(failureThreshold: real, criticalTemp: real, criticalVibration: real)

  const DefaultConfig := Config(0.75, 85.0, 8.5)

  /** Why a rule fired, carrying the statistic the rule compared. */
  datatype Reason =
    | HighTemp(avgTemperature: real)
    | HighVibration(avgVibration: real)
    | Errors(count: nat)
    | LowPressure(avgPressure: real)

  /** Position of a rule in the scorer's fixed order. */
  function Rank(r: Reason): nat {
    match r
    case HighTemp(_) => 0
    case HighVibration(_) => 1
    case Errors(_) => 2
    case LowPressure(_) => 3
  }

  /** Weight of a rule, in hundredths. */
  function Weight(r: Reason): nat {
    match r
    case HighTemp(_) => 35
    case HighVibration(_) => 35
    case Errors(_) => 20
    case LowPressure(_) => 10
  }

  function WeightSum(rs: seq<Reason>): nat {
    if |rs| == 0 then 0 else WeightSum(rs[..|rs| - 1]) + Weight(rs[|rs| - 1])
  }

  /** Some reason in `rs` comes from rule `k`. */
  predicate HasRank(rs: seq<Reason>, k: nat) {
    exists i :: 0 <= i < |rs| && Rank(rs[i]) == k
  }

  /** The statistics of one window. */
  datatype WindowStats = WindowStats(avgTemperature: real, avgVibration: real, avgPressure: real, errorCount: nat)

  /** Rule `k` fires on `st`; all four comparisons are strict. */
  predicate Fires(st: WindowStats, cfg: Config, k: nat) {
    || (k == 0 && st.avgTemperature > cfg.criticalTemp)
    || (k == 1 && st.avgVibration > cfg.criticalVibration)
    || (k == 2 && st.errorCount > ErrorLimit)
    || (k == 3 && st.avgPressure < LowPressureLimit)
  }

  /** The reason reports the statistic of `st` its rule compared. */
  predicate Reports(st: WindowStats, r: Reason) {
    match r
    case HighTemp(t) => t == st.avgTemperature
    case HighVibration(v) => v == st.avgVibration
    case Errors(n) => n == st.errorCount
    case LowPressure(p) => p == st.avgPressure
  }

  /** The running score and reason list of the scorer. */
  datatype Tally = Tally(score: nat, reasons: seq<Reason>)

  /** One rule of the scorer: when it fires, add its weight and append its reason. */
  function AddIf(t: Tally, fired: bool, r: Reason): Tally {
    if fired then Tally(t.score + Weight(r), t.reasons + [r]) else t
  }

  /** What holds of the tally after the first `k` rules have been applied. */
  predicate RulesApplied(t: Tally, st: WindowStats, cfg: Config, k: nat) {
    && t.score == WeightSum(t.reasons)
    && (forall i, j :: 0 <= i < j < |t.reasons| ==> Rank(t.reasons[i]) < Rank(t.reasons[j]))
    && (forall i :: 0 <= i < |t.reasons| ==> Rank(t.reasons[i]) < k && Reports(st, t.reasons[i]))
    && (forall j: nat :: j < k ==> (HasRank(t.reasons, j) <==> Fires(st, cfg, j)))
  }

  /** Applying rule number `Rank(r)` next extends what holds by one rule. */
  lemma AddIfStep(t: Tally, st: WindowStats, cfg: Config, r: Reason)
    requires RulesApplied(t, st, cfg, Rank(r)) && Reports(st, r)
    ensures RulesApplied(AddIf(t, Fires(st, cfg, Rank(r)), r), st, cfg, Rank(r) + 1)
  {
    var k := Rank(r);
    var t' := AddIf(t, Fires(st, cfg, k), r);
    if Fires(st, cfg, k) {
      assert t'.reasons[..|t.reasons|] == t.reasons;
      assert t'.reasons[|t.reasons|] == r;
      forall j: nat | j < k + 1
        ensures HasRank(t'.reasons, j) <==> Fires(st, cfg, j)
      {
        if j < k {
          if HasRank(t'.reasons, j) {
            var i :| 0 <= i < |t'.reasons| && Rank(t'.reasons[i]) == j;
            assert i < |t.reasons|;
            assert t.reasons[i] == t'.reasons[i];
          }
          if HasRank(t.reasons, j) {
            var i :| 0 <= i < |t.reasons| && Rank(t.reasons[i]) == j;
            assert t'.reasons[i] == t.reasons[i];
          }
        } else {
          assert Rank(t'.reasons[|t.reasons|]) == j;
        }
      }
    } else {
      assert !HasRank(t'.reasons, k);
    }
  }

  /** The reason rule `k` reports when it fires. */
  function RuleReason(st: WindowStats, k: nat): (r: Reason)
    requires k < 4
    ensures Rank(r) == k && Reports(st, r)
  {
    if k == 0 then HighTemp(st.avgTemperature)
    else if k == 1 then HighVibration(st.avgVibration)
    else if k == 2 then Errors(st.errorCount)
    else LowPressure(st.avgPressure)
  }

  /** The tally after the first `n` of the scorer's four `if`s. */
  function RunRules(st: WindowStats, cfg: Config, n: nat): Tally
    requires n <= 4
  {
    if n == 0 then Tally(0, [])
    else AddIf(RunRules(st, cfg, n - 1), Fires(st, cfg, n - 1), RuleReason(st, n - 1))
  }

  /** Applies the four rules in the order temperature, vibration, errors, pressure. */
  function ApplyRules(st: WindowStats, cfg: Config): (t: Tally)
    ensures t.score ==
      (if st.avgTemperature > cfg.criticalTemp then 35 else 0) +
      (if st.avgVibration > cfg.criticalVibration then 35 else 0) +
      (if st.errorCount > ErrorLimit then 20 else 0) +
      (if st.avgPressure < LowPressureLimit then 10 else 0)
    ensures t.score <= 100 && t.score % 5 == 0
  {
    assert RunRules(st, cfg, 1).score == (if Fires(st, cfg, 0) then 35 else 0);
    assert RunRules(st, cfg, 2).score == RunRules(st, cfg, 1).score + (if Fires(st, cfg, 1) then 35 else 0);
    assert RunRules(st, cfg, 3).score == RunRules(st, cfg, 2).score + (if Fires(st, cfg, 2) then 20 else 0);
    assert RunRules(st, cfg, 4).score == RunRules(st, cfg, 3).score + (if Fires(st, cfg, 3) then 10 else 0);
    RunRules(st, cfg, 4)
  }

  lemma {:induction false} RunRulesApplied(st: WindowStats, cfg: Config, n: nat)
    requires n <= 4
    ensures RulesApplied(RunRules(st, cfg, n), st, cfg, n)
  {
    if n > 0 {
      RunRulesApplied(st, cfg, n - 1);
      AddIfStep(RunRules(st, cfg, n - 1), st, cfg, RuleReason(st, n - 1));
    }
  }

  /** The reasons hold one entry per fired rule, each reporting its statistic,
      in the fixed rule order, and their weights add up to the score. */
  lemma ApplyRulesReasons(st: WindowStats, cfg: Config)
    ensures RulesApplied(ApplyRules(st, cfg), st, cfg, 4)
  {
    RunRulesApplied(st, cfg, 4);
  }

  function Sum(xs: seq<real>): real {
    if |xs| == 0 then 0.0 else Sum(xs[..|xs| - 1]) + xs[|xs| - 1]
  }

  /** The arithmetic mean (pandas `mean()` of a non-empty column). */
  function Mean(xs: seq<real>): real
    requires |xs| > 0
  {
    Sum(xs) / (|xs| as real)
  }

  lemma {:induction false} SumAbove(xs: seq<real>, c: real)
    requires forall i :: 0 <= i < |xs| ==> xs[i] > c
    ensures |xs| > 0 ==> Sum(xs) > c * (|xs| as real)
  {
    if |xs| > 1 {
      SumAbove(xs[..|xs| - 1], c);
    }
  }

  lemma {:induction false} SumBelow(xs: seq<real>, c: real)
    requires forall i :: 0 <= i < |xs| ==> xs[i] < c
    ensures |xs| > 0 ==> Sum(xs) < c * (|xs| as real)
  {
    if |xs| > 1 {
      SumBelow(xs[..|xs| - 1], c);
    }
  }

  /** When every value exceeds `c`, so does the mean. */
  lemma MeanAbove(xs: seq<real>, c: real)
    requires |xs| > 0
    requires forall i :: 0 <= i < |xs| ==> xs[i] > c
    ensures Mean(xs) > c
  {
    SumAbove(xs, c);
    var n := |xs| as real;
    assert Mean(xs) * n == Sum(xs);
  }

  /** When every value is below `c`, so is the mean. */
  lemma MeanBelow(xs: seq<real>, c: real)
    requires |xs| > 0
    requires forall i :: 0 <= i < |xs| ==> xs[i] < c
    ensures Mean(xs) < c
  {
    SumBelow(xs, c);
    var n := |xs| as real;
    assert Mean(xs) * n == Sum(xs);
  }

  function Temperatures(w: seq<Reading>): (xs: seq<real>)
    ensures |xs| == |w| && forall i :: 0 <= i < |w| ==> xs[i] == w[i].temperature
  {
    seq(|w|, i requires 0 <= i < |w| => w[i].temperature)
  }

  function Vibrations(w: seq<Reading>): (xs: seq<real>)
    ensures |xs| == |w| && forall i :: 0 <= i < |w| ==> xs[i] == w[i].vibration
  {
    seq(|w|, i requires 0 <= i < |w| => w[i].vibration)
  }

  function Pressures(w: seq<Reading>): (xs: seq<real>)
    ensures |xs| == |w| && forall i :: 0 <= i < |w| ==> xs[i] == w[i].pressure
  {
    seq(|w|, i requires 0 <= i < |w| => w[i].pressure)
  }

  /** Number of readings whose error code is not "NONE". */
  function ErrorCount(w: seq<Reading>): (n: nat)
    ensures n <= |w|
  {
    if |w| == 0 then 0
    else ErrorCount(w[..|w| - 1]) + (if w[|w| - 1].errorCode != NoError then 1 else 0)
  }

  /** The `machine_id` column of the log. */
  function IdColumn(log: seq<Reading>): (ids: seq<string>)
    ensures |ids| == |log| && forall i :: 0 <= i < |log| ==> ids[i] == log[i].machineId
  {
    seq(|log|, i requires 0 <= i < |log| => log[i].machineId)
  }

  /** `df["machine_id"].unique()`: the distinct machine ids in order of first appearance. */
  function MachineIds(log: seq<Reading>): (ids: seq<string>)
    ensures Distinct(ids)
    ensures forall m :: m in ids <==> m in IdColumn(log)
  {
    Dedup(IdColumn(log))
  }

  /** `df[df["machine_id"] == m]`: the readings of machine `m`, in log order. */
  function ReadingsOf(log: seq<Reading>, m: string): (rs: seq<Reading>)
    ensures forall i :: 0 <= i < |rs| ==> rs[i] in log && rs[i].machineId == m
    ensures forall j :: 0 <= j < |log| && log[j].machineId == m ==> log[j] in rs
    ensures |rs| > 0 <==> m in IdColumn(log)
  {
    if |log| == 0 then []
    else
      var init := log[..|log| - 1];
      var last := log[|log| - 1];
      assert IdColumn(log) == IdColumn(init) + [last.machineId];
      ReadingsOf(init, m) + (if last.machineId == m then [last] else [])
  }

  /** The filter of a log with one more reading at its end. */
  lemma ReadingsOfSnoc(log: seq<Reading>, x: Reading, m: string)
    ensures ReadingsOf(log + [x], m) == ReadingsOf(log, m) + (if x.machineId == m then [x] else [])
  {
    var l := log + [x];
    assert l[..|l| - 1] == log && l[|l| - 1] == x;
  }

  /** The filter of one reading keeps it exactly when it is machine `m`'s. */
  lemma ReadingsOfOne(x: Reading, m: string)
    ensures ReadingsOf([x], m) == if x.machineId == m then [x] else []
  {
    ReadingsOfSnoc([], x, m);
    assert [] + [x] == [x];
  }

  /** Concatenation regrouped around a trailing piece `t`. */
  lemma AppendSnoc<T>(a: seq<T>, b: seq<T>, t: seq<T>)
    ensures (a + b) + t == a + (b + t)
  {
  }

  /** Filtering two stretches of log one after the other gives the filtered
      stretches one after the other: the filter keeps log order and keeps a
      repeated reading as often as it occurs. */
  lemma {:induction false} ReadingsOfAppend(a: seq<Reading>, b: seq<Reading>, m: string)
    ensures ReadingsOf(a + b, m) == ReadingsOf(a, m) + ReadingsOf(b, m)
  {
    if |b| == 0 {
      assert a + b == a;
    } else {
      var b0, x := b[..|b| - 1], b[|b| - 1];
      assert b == b0 + [x];
      assert a + b == (a + b0) + [x];
      ReadingsOfAppend(a, b0, m);
      ReadingsOfSnoc(a + b0, x, m);
      ReadingsOfSnoc(b0, x, m);
      AppendSnoc(ReadingsOf(a, m), ReadingsOf(b0, m), if x.machineId == m then [x] else []);
    }
  }

  /** `.tail(24)`: the last min(24, n) readings of machine `m`. */
  function Window(log: seq<Reading>, m: string): (w: seq<Reading>)
    ensures var rs := ReadingsOf(log, m);
      && |w| == (if |rs| < WindowSize then |rs| else WindowSize)
      && w == rs[|rs| - |w|..]
  {
    var rs := ReadingsOf(log, m);
    if |rs| <= WindowSize then rs else rs[|rs| - WindowSize..]
  }

  /** The last `n` elements of `s`, or all of them when there are fewer. */
  function LastN<T>(s: seq<T>, n: nat): (r: seq<T>)
    ensures |r| == (if |s| < n then |s| else n) && r == s[|s| - |r|..]
  {
    if |s| <= n then s else s[|s| - n..]
  }

  /** Keeping the last `n` of a sequence one element longer is keeping the last
      `n` before it, adding the element and dropping the oldest when over `n`. */
  lemma LastNSlides<T>(s: seq<T>, x: T, n: nat)
    requires n > 0
    ensures LastN(s + [x], n) ==
      var w := LastN(s, n) + [x];
      if |w| > n then w[1..] else w
  {
    if |s| >= n {
      assert (s + [x])[|s| + 1 - n..] == (s[|s| - n..] + [x])[1..];
    }
  }

  /** A new reading of machine `m` enters its window at the end and, once the
      window is full, pushes out the oldest; a reading of another machine
      leaves the window as it was. */
  lemma WindowSlides(log: seq<Reading>, x: Reading, m: string)
    ensures x.machineId != m ==> Window(log + [x], m) == Window(log, m)
    ensures x.machineId == m ==>
      (Window(log + [x], m) ==
         var w := Window(log, m) + [x];
         if |w| > WindowSize then w[1..] else w)
  {
    ReadingsOfSnoc(log, x, m);
    var rs := ReadingsOf(log, m);
    assert Window(log, m) == LastN(rs, WindowSize);
    assert Window(log + [x], m) == LastN(ReadingsOf(log + [x], m), WindowSize);
    if x.machineId == m {
      LastNSlides(rs, x, WindowSize);
    }
  }

  function Stats(w: seq<Reading>): (st: WindowStats)
    requires |w| > 0
    ensures st.errorCount <= |w|
  {
    WindowStats(Mean(Temperatures(w)), Mean(Vibrations(w)), Mean(Pressures(w)), ErrorCount(w))
  }

  /** The scoring of one machine. */
  datatype Assessment = Assessment(machineId: string, stats: WindowStats, score: nat, reasons: seq<Reason>)

  /** Scores machine `m` on its trailing window; `m` is always an id taken from the log. */
  function Assess(log: seq<Reading>, m: string, cfg: Config): (a: Assessment)
    requires m in IdColumn(log)
    ensures a.machineId == m
    ensures a.score <= 100 && a.stats.errorCount <= WindowSize
  {
    var st := Stats(Window(log, m));
    var t := ApplyRules(st, cfg);
    Assessment(m, st, t.score, t.reasons)
  }

  /** `score >= Config.FAILURE_THRESHOLD` with the score read as a probability. */
  predicate IsFailing(score: nat, cfg: Config) {
    (score as real) / 100.0 >= cfg.failureThreshold
  }

  /** An entry of the `anomalies` list. */
  datatype Anomaly = Anomaly(
    machineId: string,
    failureProbability: nat,
    avgTemperature: real,
    avgVibration: real,
    avgPressure: real,
    errorCount: nat,
    reasons: seq<Reason>)

  function AnomalyOf(a: Assessment): Anomaly {
    Anomaly(a.machineId, a.score, a.stats.avgTemperature, a.stats.avgVibration,
            a.stats.avgPressure, a.stats.errorCount, a.reasons)
  }

  /** The three outputs of the ingest stage. */
  datatype SensorResult = SensorResult(
    anomalies: seq<Anomaly>,
    failingMachines: seq<string>,
    failureProbability: Dict<string, nat>)

  function IdsOf(xs: seq<Assessment>): (ids: seq<string>)
    ensures |ids| == |xs| && forall i :: 0 <= i < |xs| ==> ids[i] == xs[i].machineId
  {
    seq(|xs|, i requires 0 <= i < |xs| => xs[i].machineId)
  }

  /** `failure_probability` as the scoring loop fills it: one assignment per assessment. */
  function ScoresOf(xs: seq<Assessment>): (fp: Dict<string, nat>)
    requires Distinct(IdsOf(xs))
    ensures Keys(fp) == IdsOf(xs)
  {
    if |xs| == 0 then []
    else
      var init := xs[..|xs| - 1];
      assert IdsOf(xs) == IdsOf(init) + [xs[|xs| - 1].machineId];
      Put(ScoresOf(init), xs[|xs| - 1].machineId, xs[|xs| - 1].score)
  }

  /** `failing_machines` as the scoring loop fills it: the id of every failing assessment. */
  function FailingOf(xs: seq<Assessment>, cfg: Config): (fm: seq<string>)
    ensures forall i :: 0 <= i < |fm| ==> fm[i] in IdsOf(xs)
  {
    if |xs| == 0 then []
    else
      var init := xs[..|xs| - 1];
      var a := xs[|xs| - 1];
      assert IdsOf(xs) == IdsOf(init) + [a.machineId];
      if IsFailing(a.score, cfg) then FailingOf(init, cfg) + [a.machineId] else FailingOf(init, cfg)
  }

  /** `anomalies` as the scoring loop fills it: the record of every failing assessment. */
  function AnomaliesOf(xs: seq<Assessment>, cfg: Config): (an: seq<Anomaly>)
    ensures |an| == |FailingOf(xs, cfg)|
  {
    if |xs| == 0 then []
    else
      var init := xs[..|xs| - 1];
      var a := xs[|xs| - 1];
      if IsFailing(a.score, cfg) then AnomaliesOf(init, cfg) + [AnomalyOf(a)] else AnomaliesOf(init, cfg)
  }

  /** The scoring loop, run over the assessments of the distinct machine ids in
      order: record every score, and list the failing machines together with
      their anomaly records. */
  function Collect(xs: seq<Assessment>, cfg: Config): (r: SensorResult)
    requires Distinct(IdsOf(xs))
  {
    SensorResult(AnomaliesOf(xs, cfg), FailingOf(xs, cfg), ScoresOf(xs))
  }

  /** Every assessed machine's score is recorded under its id. */
  lemma {:induction false} ScoresOfRecordsEveryScore(xs: seq<Assessment>)
    requires Distinct(IdsOf(xs))
    ensures forall i :: 0 <= i < |xs| ==> Get(ScoresOf(xs), xs[i].machineId) == Some(xs[i].score)
  {
    if |xs| > 0 {
      var n := |xs| - 1;
      var init := xs[..n];
      assert IdsOf(xs) == IdsOf(init) + [xs[n].machineId];
      ScoresOfRecordsEveryScore(init);
      forall i | 0 <= i < n
        ensures xs[i].machineId != xs[n].machineId
      {
        assert IdsOf(xs)[i] != IdsOf(xs)[n];
      }
    }
  }

  /** The failing machines are exactly the assessed ids whose score reaches the
      threshold (a non-strict comparison). */
  lemma {:induction false} FailingOfExact(xs: seq<Assessment>, cfg: Config)
    ensures forall m :: m in FailingOf(xs, cfg) <==>
      exists i :: 0 <= i < |xs| && xs[i].machineId == m && IsFailing(xs[i].score, cfg)
  {
    if |xs| > 0 {
      var n := |xs| - 1;
      var init := xs[..n];
      FailingOfExact(init, cfg);
      forall y
        ensures y in FailingOf(xs, cfg) <==>
          exists i :: 0 <= i < |xs| && xs[i].machineId == y && IsFailing(xs[i].score, cfg)
      {
        if y in FailingOf(init, cfg) {
          var i :| 0 <= i < n && init[i].machineId == y && IsFailing(init[i].score, cfg);
          assert xs[i] == init[i];
        }
        if exists i :: 0 <= i < |xs| && xs[i].machineId == y && IsFailing(xs[i].score, cfg) {
          var i :| 0 <= i < |xs| && xs[i].machineId == y && IsFailing(xs[i].score, cfg);
          if i < n {
            assert init[i] == xs[i];
          }
        }
      }
    }
  }

  /** Cutting the assessments after `n` keeps the first position of every id before the cut. */
  lemma IdsOfPrefix(xs: seq<Assessment>, n: nat, y: string)
    requires n <= |xs| && y in IdsOf(xs[..n])
    ensures y in IdsOf(xs) && IndexOf(IdsOf(xs), y) == IndexOf(IdsOf(xs[..n]), y) < n
  {
    assert IdsOf(xs)[..n] == IdsOf(xs[..n]);
    IndexOfPrefix(IdsOf(xs), n, y);
  }

  /** The last id of a duplicate-free list first occurs at the last position. */
  lemma IdsOfLast(xs: seq<Assessment>)
    requires |xs| > 0 && Distinct(IdsOf(xs))
    ensures IndexOf(IdsOf(xs), xs[|xs| - 1].machineId) == |xs| - 1
  {
  }

  /** The failing machines keep the order of the assessments. */
  lemma {:induction false} FailingOfOrder(xs: seq<Assessment>, cfg: Config)
    requires Distinct(IdsOf(xs))
    ensures forall i, j :: 0 <= i < j < |FailingOf(xs, cfg)| ==>
      IndexOf(IdsOf(xs), FailingOf(xs, cfg)[i]) < IndexOf(IdsOf(xs), FailingOf(xs, cfg)[j])
  {
    if |xs| > 0 {
      var ids := IdsOf(xs);
      var n := |xs| - 1;
      var init := xs[..n];
      assert ids == IdsOf(init) + [xs[n].machineId];
      FailingOfOrder(init, cfg);
      IdsOfLast(xs);
      var prev := FailingOf(init, cfg);
      var fm := FailingOf(xs, cfg);
      assert fm == prev || fm == prev + [xs[n].machineId];
      forall i, j | 0 <= i < j < |fm|
        ensures IndexOf(ids, fm[i]) < IndexOf(ids, fm[j])
      {
        assert fm[i] == prev[i];
        IdsOfPrefix(xs, n, fm[i]);
        assert IndexOf(ids, fm[i]) < n;
        if j < |prev| {
          assert fm[j] == prev[j];
          IdsOfPrefix(xs, n, fm[j]);
          assert IndexOf(ids, fm[i]) == IndexOf(IdsOf(init), prev[i]);
          assert IndexOf(ids, fm[j]) == IndexOf(IdsOf(init), prev[j]);
          assert IndexOf(IdsOf(init), prev[i]) < IndexOf(IdsOf(init), prev[j]);
        } else {
          assert fm[j] == xs[n].machineId;
          assert IndexOf(ids, fm[j]) == n;
        }
      }
    }
  }

  /** Each anomaly record belongs to the failing machine at the same position. */
  lemma {:induction false} AnomaliesOfParallel(xs: seq<Assessment>, cfg: Config)
    requires Distinct(IdsOf(xs))
    ensures forall i :: 0 <= i < |AnomaliesOf(xs, cfg)| ==>
      AnomaliesOf(xs, cfg)[i] == AnomalyOf(xs[IndexOf(IdsOf(xs), FailingOf(xs, cfg)[i])])
  {
    if |xs| > 0 {
      var ids := IdsOf(xs);
      var n := |xs| - 1;
      var init := xs[..n];
      assert ids == IdsOf(init) + [xs[n].machineId];
      AnomaliesOfParallel(init, cfg);
      IdsOfLast(xs);
      var an, fm := AnomaliesOf(xs, cfg), FailingOf(xs, cfg);
      var pan, pfm := AnomaliesOf(init, cfg), FailingOf(init, cfg);
      if IsFailing(xs[n].score, cfg) {
        assert an == pan + [AnomalyOf(xs[n])] && fm == pfm + [xs[n].machineId];
      } else {
        assert an == pan && fm == pfm;
      }
      forall i | 0 <= i < |an|
        ensures an[i] == AnomalyOf(xs[IndexOf(ids, fm[i])])
      {
        if i < |pan| {
          assert an[i] == pan[i] && fm[i] == pfm[i];
          IdsOfPrefix(xs, n, pfm[i]);
          assert xs[IndexOf(ids, fm[i])] == init[IndexOf(IdsOf(init), pfm[i])];
        } else {
          assert an[i] == AnomalyOf(xs[n]) && fm[i] == xs[n].machineId;
          assert IndexOf(ids, fm[i]) == n;
        }
      }
    }
  }

  /** The assessments of the machines `ids`, in order. */
  function AssessAll(log: seq<Reading>, ids: seq<string>, cfg: Config): (xs: seq<Assessment>)
    requires forall m :: m in ids ==> m in IdColumn(log)
    ensures |xs| == |ids| && forall i :: 0 <= i < |ids| ==> xs[i] == Assess(log, ids[i], cfg)
    ensures IdsOf(xs) == ids
  {
    seq(|ids|, i requires 0 <= i < |ids| => Assess(log, ids[i], cfg))
  }

  /** `ingest_sensor_logs`: scores every distinct machine of the log on its
      trailing window, in order of first appearance; `failure_probability`
      has exactly one key per distinct machine id of the log. */
  function IngestSensorLogs(log: seq<Reading>, cfg: Config): (r: SensorResult)
    ensures Keys(r.failureProbability) == MachineIds(log)
    ensures |r.anomalies| == |r.failingMachines|
  {
    Collect(AssessAll(log, MachineIds(log), cfg), cfg)
  }

  /** Every machine of the log is recorded with the score of its own window,
      and a machine absent from the log is not recorded at all. */
  lemma IngestRecordsEveryMachine(log: seq<Reading>, cfg: Config, m: string)
    ensures m in IdColumn(log) ==>
      Get(IngestSensorLogs(log, cfg).failureProbability, m) == Some(Assess(log, m, cfg).score)
    ensures m !in IdColumn(log) ==> Get(IngestSensorLogs(log, cfg).failureProbability, m) == None
  {
    var ids := MachineIds(log);
    var xs := AssessAll(log, ids, cfg);
    ScoresOfRecordsEveryScore(xs);
    if m in IdColumn(log) {
      assert xs[IndexOf(ids, m)].machineId == m;
    }
  }

  /** A machine is failing iff it occurs in the log and its score reaches the
      threshold; the comparison is non-strict. */
  lemma IngestFailingExact(log: seq<Reading>, cfg: Config, m: string)
    ensures m in IngestSensorLogs(log, cfg).failingMachines <==>
      m in IdColumn(log) && IsFailing(Assess(log, m, cfg).score, cfg)
  {
    var ids := MachineIds(log);
    var xs := AssessAll(log, ids, cfg);
    FailingOfExact(xs, cfg);
    if m in FailingOf(xs, cfg) {
      var i :| 0 <= i < |xs| && xs[i].machineId == m && IsFailing(xs[i].score, cfg);
      assert ids[i] == m;
    }
    if m in IdColumn(log) && IsFailing(Assess(log, m, cfg).score, cfg) {
      var k := IndexOf(ids, m);
      assert xs[k] == Assess(log, m, cfg);
    }
  }

  /** The failing machines appear in order of first appearance in the log, hence without duplicates. */
  lemma IngestFailingOrder(log: seq<Reading>, cfg: Config)
    ensures var fm := IngestSensorLogs(log, cfg).failingMachines;
      && (forall i :: 0 <= i < |fm| ==> fm[i] in IdColumn(log))
      && Distinct(fm)
    ensures forall i, j :: 0 <= i < j < |IngestSensorLogs(log, cfg).failingMachines| ==>
      IndexOf(IdColumn(log), IngestSensorLogs(log, cfg).failingMachines[i]) <
      IndexOf(IdColumn(log), IngestSensorLogs(log, cfg).failingMachines[j])
  {
    var col := IdColumn(log);
    var ids := MachineIds(log);
    var xs := AssessAll(log, ids, cfg);
    var fm := FailingOf(xs, cfg);
    FailingOfOrder(xs, cfg);
    DedupFirstOccurrenceOrder(col);
    forall i, j | 0 <= i < j < |fm|
      ensures IndexOf(col, fm[i]) < IndexOf(col, fm[j])
    {
      var p, q := IndexOf(ids, fm[i]), IndexOf(ids, fm[j]);
      assert p < q;
      assert ids[p] == fm[i] && ids[q] == fm[j];
    }
  }

  /** Each anomaly belongs to the failing machine at the same position and
      carries that machine's score. */
  lemma IngestAnomaliesParallel(log: seq<Reading>, cfg: Config)
    ensures var r := IngestSensorLogs(log, cfg);
      forall i :: 0 <= i < |r.anomalies| ==>
        r.failingMachines[i] in IdColumn(log) &&
        r.anomalies[i].machineId == r.failingMachines[i] &&
        r.anomalies[i].failureProbability == Assess(log, r.failingMachines[i], cfg).score &&
        r.anomalies[i] == AnomalyOf(Assess(log, r.failingMachines[i], cfg))
  {
    var ids := MachineIds(log);
    var xs := AssessAll(log, ids, cfg);
    AnomaliesOfParallel(xs, cfg);
    var an, fm := AnomaliesOf(xs, cfg), FailingOf(xs, cfg);
    forall i | 0 <= i < |an|
      ensures fm[i] in IdColumn(log)
      ensures an[i] == AnomalyOf(Assess(log, fm[i], cfg))
      ensures an[i].machineId == fm[i]
    {
      assert fm[i] in ids;
      var k := IndexOf(ids, fm[i]);
      assert xs[k] == Assess(log, fm[i], cfg);
    }
  }

  /** A statistic exactly at its threshold fires nothing: every comparison is strict. */
  lemma StrictBoundariesContributeNothing(cfg: Config)
    ensures ApplyRules(WindowStats(cfg.criticalTemp, cfg.criticalVibration, LowPressureLimit, ErrorLimit), cfg)
      == Tally(0, [])
  {
    var st := WindowStats(cfg.criticalTemp, cfg.criticalVibration, LowPressureLimit, ErrorLimit);
    assert RunRules(st, cfg, 1) == Tally(0, []);
    assert RunRules(st, cfg, 2) == Tally(0, []);
    assert RunRules(st, cfg, 3) == Tally(0, []);
  }

  /** A window averaging 92.0 C, vibration 9.5, pressure 78 with 5 errors fires
      all four rules, scores 1.00 and is failing at the default threshold. */
  lemma AllRulesScenario()
    ensures var t := ApplyRules(WindowStats(92.0, 9.5, 78.0, 5), DefaultConfig);
      && t.score == 100
      && t.reasons == [HighTemp(92.0), HighVibration(9.5), Errors(5), LowPressure(78.0)]
      && IsFailing(t.score, DefaultConfig)
  {
    var st := WindowStats(92.0, 9.5, 78.0, 5);
    assert RunRules(st, DefaultConfig, 1) == Tally(35, [HighTemp(92.0)]);
    assert RunRules(st, DefaultConfig, 2) == Tally(70, [HighTemp(92.0), HighVibration(9.5)]);
    assert RunRules(st, DefaultConfig, 3) == Tally(90, [HighTemp(92.0), HighVibration(9.5), Errors(5)]);
  }

  /** A window averaging 72.0 C, vibration 4.0, pressure 102 without errors
      fires nothing, scores 0.00 and is not failing at the default threshold. */
  lemma HealthyScenario()
    ensures var t := ApplyRules(WindowStats(72.0, 4.0, 102.0, 0), DefaultConfig);
      t == Tally(0, []) && !IsFailing(t.score, DefaultConfig)
  {
    var st := WindowStats(72.0, 4.0, 102.0, 0);
    assert RunRules(st, DefaultConfig, 1) == Tally(0, []);
    assert RunRules(st, DefaultConfig, 2) == Tally(0, []);
    assert RunRules(st, DefaultConfig, 3) == Tally(0, []);
  }

  /** A machine with fewer than 24 readings is scored on all of them, not skipped. */
  lemma ShortHistoryIsScored(log: seq<Reading>, cfg: Config, m: string)
    requires m in IdColumn(log) && |ReadingsOf(log, m)| < WindowSize
    ensures Window(log, m) == ReadingsOf(log, m)
    ensures m in Keys(IngestSensorLogs(log, cfg).failureProbability)
  {
  }

  lemma {:induction false} NoErrorCodes(w: seq<Reading>)
    requires forall i :: 0 <= i < |w| ==> w[i].errorCode == NoError
    ensures ErrorCount(w) == 0
  {
    if |w| > 0 {
      NoErrorCodes(w[..|w| - 1]);
    }
  }

  /** When every reading of the window is hotter than the critical temperature,
      the temperature rule fires and the score is at least 0.35. */
  lemma HotWindowFiresTemperatureRule(log: seq<Reading>, cfg: Config, m: string)
    requires m in IdColumn(log)
    requires forall r :: r in Window(log, m) ==> r.temperature > cfg.criticalTemp
    ensures HasRank(Assess(log, m, cfg).reasons, 0)
    ensures Assess(log, m, cfg).score >= 35
  {
    var w := Window(log, m);
    HotWindowStats(w, cfg);
    HotStatsFireTemperatureRule(Stats(w), cfg);
  }

  /** An average temperature over the critical value fires the temperature rule. */
  lemma HotStatsFireTemperatureRule(st: WindowStats, cfg: Config)
    requires st.avgTemperature > cfg.criticalTemp
    ensures HasRank(ApplyRules(st, cfg).reasons, 0) && ApplyRules(st, cfg).score >= 35
  {
    ApplyRulesReasons(st, cfg);
    assert Fires(st, cfg, 0);
  }

  /** A non-empty window whose every reading is over the critical temperature
      has an average over it. */
  lemma HotWindowStats(w: seq<Reading>, cfg: Config)
    requires |w| > 0
    requires forall r :: r in w ==> r.temperature > cfg.criticalTemp
    ensures Stats(w).avgTemperature > cfg.criticalTemp
  {
    MeanAbove(Temperatures(w), cfg.criticalTemp);
  }

  /** When every reading of the window is below both critical values, above the
      pressure limit and error-free, no rule fires and the score is 0. */
  lemma CalmWindowScoresZero(log: seq<Reading>, cfg: Config, m: string)
    requires m in IdColumn(log)
    requires forall r :: r in Window(log, m) ==>
      && r.temperature < cfg.criticalTemp
      && r.vibration < cfg.criticalVibration
      && r.pressure > LowPressureLimit
      && r.errorCode == NoError
    ensures Assess(log, m, cfg).score == 0
    ensures Assess(log, m, cfg).reasons == []
  {
    var w := Window(log, m);
    CalmWindowStats(w, cfg);
    CalmStatsFireNothing(Stats(w), cfg);
  }

  /** A non-empty window whose every reading is calm has calm statistics. */
  lemma CalmWindowStats(w: seq<Reading>, cfg: Config)
    requires |w| > 0
    requires forall r :: r in w ==>
      && r.temperature < cfg.criticalTemp
      && r.vibration < cfg.criticalVibration
      && r.pressure > LowPressureLimit
      && r.errorCode == NoError
    ensures var st := Stats(w);
      && st.avgTemperature <= cfg.criticalTemp && st.avgVibration <= cfg.criticalVibration
      && st.errorCount <= ErrorLimit && st.avgPressure >= LowPressureLimit
  {
    MeanBelow(Temperatures(w), cfg.criticalTemp);
    MeanBelow(Vibrations(w), cfg.criticalVibration);
    MeanAbove(Pressures(w), LowPressureLimit);
    NoErrorCodes(w);
  }

  /** Window statistics on the safe side of all four limits fire no rule. */
  lemma CalmStatsFireNothing(st: WindowStats, cfg: Config)
    requires st.avgTemperature <= cfg.criticalTemp && st.avgVibration <= cfg.criticalVibration
    requires st.errorCount <= ErrorLimit && st.avgPressure >= LowPressureLimit
    ensures ApplyRules(st, cfg) == Tally(0, [])
  {
    assert RunRules(st, cfg, 1) == Tally(0, []);
    assert RunRules(st, cfg, 2) == Tally(0, []);
    assert RunRules(st, cfg, 3) == Tally(0, []);
  }
}
