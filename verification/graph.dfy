/** The dependency graph store (graph/graphneo4j_manager.py) over an in-memory
    property graph: Machine and ProductionLine nodes, DEPENDS_ON and FEEDS_INTO
    edges, the fixture the store is rebuilt with, and its two read queries.
    A node's identity is its position in its node list, so two nodes may carry
    the same `id` property, exactly as two CREATE statements can make them. */
module Graph {
  import opened Seqs

  /** Criticality of a machine, and impact of a dependency. */
  datatype Level = Medium | High | Critical

  datatype Machine = Machine(
    id: string,
    name: string,
    kind: string,
    plant: string,
    vendor: string,
    status: string,
    criticality: Level)

  datatype ProductionLine = ProductionLine(id: string, name: string, plant: string)

  /** `(machines[from])-[:DEPENDS_ON]->(machines[to])`: when `to` fails, `from` is at risk. */
  datatype DependsOn = DependsOn(from: nat, to: nat, impact: Level, reason: string)

  /** `(machines[machine])-[:FEEDS_INTO]->(lines[line])`. */
  datatype FeedsInto = FeedsInto(machine: nat, line: nat, sequence: int)

  datatype Graph = Graph(
    machines: seq<Machine>,
    lines: seq<ProductionLine>,
    dependsOn: seq<DependsOn>,
    feedsInto: seq<FeedsInto>)

  /** Every edge joins existing nodes of the right labels. */
  predicate Valid(g: Graph) {
    && (forall e :: e in g.dependsOn ==> e.from < |g.machines| && e.to < |g.machines|)
    && (forall f :: f in g.feedsInto ==> f.machine < |g.machines| && f.line < |g.lines|)
  }

  // ---------------------------------------------------------------------------
  // Paths of DEPENDS_ON edges
  // ---------------------------------------------------------------------------

  /** A path is a list of DEPENDS_ON edge indices, read from its start machine towards the target. */
  type Path = seq<nat>

  /** `p` is a walk of DEPENDS_ON edges, each edge entering the node the next one
      leaves, with no edge used twice (Cypher's relationship uniqueness), whose
      last edge enters a machine with id `target`. */
  predicate IsChainTo(g: Graph, p: Path, target: string)
    requires Valid(g)
    decreases |p|
  {
    && |p| >= 1
    && p[0] < |g.dependsOn|
    && (assert g.dependsOn[p[0]] in g.dependsOn;
        if |p| == 1 then g.machines[g.dependsOn[p[0]].to].id == target
        else
          && IsChainTo(g, p[1..], target)
          && p[0] !in p[1..]
          && g.dependsOn[p[0]].to == g.dependsOn[p[1]].from)
  }

  /** A match of `(a:Machine)-[:DEPENDS_ON*1..3]->(f:Machine {id: target})`. */
  predicate IsPathTo(g: Graph, p: Path, target: string)
    requires Valid(g)
  {
    IsChainTo(g, p, target) && |p| <= 3
  }

  /** The machine node a path starts from. */
  function StartOf(g: Graph, p: Path): (m: nat)
    requires Valid(g) && |p| >= 1 && p[0] < |g.dependsOn|
    ensures m < |g.machines|
  {
    assert g.dependsOn[p[0]] in g.dependsOn;
    g.dependsOn[p[0]].from
  }

  /** The machine node a chain ends at. */
  function EndOf(g: Graph, p: Path, target: string): (m: nat)
    requires Valid(g) && IsChainTo(g, p, target)
    ensures m < |g.machines| && g.machines[m].id == target
    decreases |p|
  {
    if |p| == 1 then
      assert g.dependsOn[p[0]] in g.dependsOn;
      g.dependsOn[p[0]].to
    else EndOf(g, p[1..], target)
  }

  /** Every edge of a chain is a DEPENDS_ON edge, and none occurs twice. */
  lemma {:induction false} ChainEdgesDistinct(g: Graph, p: Path, target: string)
    requires Valid(g) && IsChainTo(g, p, target)
    ensures forall i :: 0 <= i < |p| ==> p[i] < |g.dependsOn|
    ensures Distinct(p)
    decreases |p|
  {
    if |p| > 1 {
      ChainEdgesDistinct(g, p[1..], target);
      forall i | 1 <= i < |p| ensures p[i] < |g.dependsOn| && p[i] != p[0] {
        assert p[i] == p[1..][i - 1];
      }
      forall i, j | 0 <= i < j < |p| ensures p[i] != p[j] {
        if i > 0 {
          assert p[i] == p[1..][i - 1] && p[j] == p[1..][j - 1];
        }
      }
    }
  }

  /** Putting an edge that enters the start of a chain, and is not on it, in front gives a chain. */
  lemma ChainCons(g: Graph, e: nat, p: Path, target: string)
    requires Valid(g) && IsChainTo(g, p, target)
    requires e < |g.dependsOn| && g.dependsOn[e].to == StartOf(g, p) && e !in p
    ensures IsChainTo(g, [e] + p, target) && ([e] + p)[1..] == p
  {
    assert ([e] + p)[1..] == p;
  }

  /** Every path of `ps` has a first DEPENDS_ON edge, so it has a start machine. */
  predicate Started(g: Graph, ps: seq<Path>) {
    forall i :: 0 <= i < |ps| ==> |ps[i]| >= 1 && ps[i][0] < |g.dependsOn|
  }

  /** Paths whose first edges strictly increase along the list are all different. */
  lemma HeadsIncreasingDistinct(ps: seq<Path>)
    requires forall i :: 0 <= i < |ps| ==> |ps[i]| >= 1
    requires forall i, j :: 0 <= i < j < |ps| ==> ps[i][0] < ps[j][0]
    ensures Distinct(ps)
  {
  }

  /** The one-edge paths `[e]`, for the edges `e < n` entering a machine with id
      `target`, by increasing `e`. */
  function Level1(g: Graph, target: string, n: nat): (ps: seq<Path>)
    requires Valid(g) && n <= |g.dependsOn|
    ensures forall i :: 0 <= i < |ps| ==> |ps[i]| == 1 && ps[i][0] < n
  {
    if n == 0 then []
    else
      var prev := Level1(g, target, n - 1);
      assert g.dependsOn[n - 1] in g.dependsOn;
      if g.machines[g.dependsOn[n - 1].to].id == target then prev + [[n - 1]] else prev
  }

  /** `Level1` lists one-edge chains into the target, every one of them, by increasing edge. */
  lemma {:induction false} Level1Facts(g: Graph, target: string, n: nat)
    requires Valid(g) && n <= |g.dependsOn|
    ensures forall q :: q in Level1(g, target, n) ==> IsChainTo(g, q, target)
    ensures forall e :: 0 <= e < n && g.machines[g.dependsOn[e].to].id == target ==> [e] in Level1(g, target, n)
    ensures forall i, j :: 0 <= i < j < |Level1(g, target, n)| ==> Level1(g, target, n)[i][0] < Level1(g, target, n)[j][0]
  {
    if n > 0 {
      Level1Facts(g, target, n - 1);
      assert g.dependsOn[n - 1] in g.dependsOn;
    }
  }

  /** The paths `[e] + p`, for the edges `e < n` entering the start of `p` and
      not on it, by increasing `e`. */
  function Prepend(g: Graph, p: Path, target: string, n: nat): (ps: seq<Path>)
    requires Valid(g) && |p| >= 1 && p[0] < |g.dependsOn| && n <= |g.dependsOn|
    ensures forall i :: 0 <= i < |ps| ==> |ps[i]| == |p| + 1 && ps[i][0] < n
  {
    if n == 0 then []
    else
      var prev := Prepend(g, p, target, n - 1);
      var e := n - 1;
      if g.dependsOn[e].to == StartOf(g, p) && e !in p then prev + [[e] + p] else prev
  }

  /** `Prepend` lists chains one edge longer than `p`, every one of them, by increasing first edge. */
  lemma PrependFacts(g: Graph, p: Path, target: string, n: nat)
    requires Valid(g) && IsChainTo(g, p, target) && n <= |g.dependsOn|
    ensures forall q :: q in Prepend(g, p, target, n) ==> IsChainTo(g, q, target) && q[1..] == p
    ensures forall e :: 0 <= e < n && g.dependsOn[e].to == StartOf(g, p) && e !in p ==>
      [e] + p in Prepend(g, p, target, n)
    ensures forall i, j :: 0 <= i < j < |Prepend(g, p, target, n)| ==>
      Prepend(g, p, target, n)[i][0] < Prepend(g, p, target, n)[j][0]
  {
    PrependChains(g, p, target, n);
    PrependComplete(g, p, target, n);
    PrependOrdered(g, p, target, n);
  }

  /** Every path `Prepend` lists is a chain into the target one edge longer than `p`. */
  lemma {:induction false} PrependChains(g: Graph, p: Path, target: string, n: nat)
    requires Valid(g) && IsChainTo(g, p, target) && n <= |g.dependsOn|
    ensures forall q :: q in Prepend(g, p, target, n) ==> IsChainTo(g, q, target) && q[1..] == p
  {
    if n > 0 {
      PrependChains(g, p, target, n - 1);
      var e := n - 1;
      if g.dependsOn[e].to == StartOf(g, p) && e !in p {
        ChainCons(g, e, p, target);
      }
    }
  }

  /** `Prepend` lists `[e] + p` for every edge `e < n` that can go in front of `p`. */
  lemma {:induction false} PrependComplete(g: Graph, p: Path, target: string, n: nat)
    requires Valid(g) && IsChainTo(g, p, target) && n <= |g.dependsOn|
    ensures forall e :: 0 <= e < n && g.dependsOn[e].to == StartOf(g, p) && e !in p ==>
      [e] + p in Prepend(g, p, target, n)
  {
    if n > 0 {
      PrependComplete(g, p, target, n - 1);
    }
  }

  /** `Prepend` lists its paths by strictly increasing first edge. */
  lemma {:induction false} PrependOrdered(g: Graph, p: Path, target: string, n: nat)
    requires Valid(g) && IsChainTo(g, p, target) && n <= |g.dependsOn|
    ensures forall i, j :: 0 <= i < j < |Prepend(g, p, target, n)| ==>
      Prepend(g, p, target, n)[i][0] < Prepend(g, p, target, n)[j][0]
  {
    if n > 0 {
      PrependOrdered(g, p, target, n - 1);
    }
  }

  /** When no edge below `n` can be put in front of `p`, nothing is prepended. */
  lemma {:induction false} PrependNone(g: Graph, p: Path, target: string, n: nat)
    requires Valid(g) && |p| >= 1 && p[0] < |g.dependsOn| && n <= |g.dependsOn|
    requires forall e :: 0 <= e < n ==> g.dependsOn[e].to != StartOf(g, p) || e in p
    ensures Prepend(g, p, target, n) == []
  {
    if n > 0 {
      PrependNone(g, p, target, n - 1);
    }
  }

  /** When exactly the edge `e0` below `n` can be put in front of `p`, that one
      path is prepended. */
  lemma {:induction false} PrependOnly(g: Graph, p: Path, target: string, n: nat, e0: nat)
    requires Valid(g) && |p| >= 1 && p[0] < |g.dependsOn| && n <= |g.dependsOn|
    requires e0 < n
    requires forall e :: 0 <= e < n ==> (g.dependsOn[e].to == StartOf(g, p) && e !in p <==> e == e0)
    ensures Prepend(g, p, target, n) == [[e0] + p]
  {
    if n - 1 == e0 {
      PrependNone(g, p, target, n - 1);
    } else {
      PrependOnly(g, p, target, n - 1, e0);
    }
  }

  /** Every path of `ps` extended backwards by one more edge, in every possible way. */
  function Extend(g: Graph, ps: seq<Path>, target: string): (qs: seq<Path>)
    requires Valid(g) && Started(g, ps)
    ensures Started(g, qs)
    ensures forall i :: 0 <= i < |qs| ==> |qs[i]| >= 2
  {
    if |ps| == 0 then []
    else
      Extend(g, ps[..|ps| - 1], target) + Prepend(g, ps[|ps| - 1], target, |g.dependsOn|)
  }

  /** Extending chains gives chains whose tails are the paths extended. */
  lemma {:induction false} ExtendSound(g: Graph, ps: seq<Path>, target: string)
    requires Valid(g) && Started(g, ps)
    requires forall q :: q in ps ==> IsChainTo(g, q, target)
    ensures forall q :: q in Extend(g, ps, target) ==> IsChainTo(g, q, target) && q[1..] in ps
  {
    if |ps| > 0 {
      var init := ps[..|ps| - 1];
      ExtendSound(g, init, target);
      PrependFacts(g, ps[|ps| - 1], target, |g.dependsOn|);
    }
  }

  /** Extending a list of different chains gives different chains. */
  lemma {:induction false} ExtendDistinct(g: Graph, ps: seq<Path>, target: string)
    requires Valid(g) && Started(g, ps)
    requires forall q :: q in ps ==> IsChainTo(g, q, target)
    requires Distinct(ps)
    ensures Distinct(Extend(g, ps, target))
  {
    if |ps| > 0 {
      var init := ps[..|ps| - 1];
      var last := ps[|ps| - 1];
      ExtendDistinct(g, init, target);
      ExtendSound(g, init, target);
      PrependFacts(g, last, target, |g.dependsOn|);
      var front := Extend(g, init, target);
      var back := Prepend(g, last, target, |g.dependsOn|);
      HeadsIncreasingDistinct(back);
      assert last !in init;
      DistinctConcat(front, back);
    }
  }

  /** Every chain whose tail is in `ps` is an extension of `ps`. */
  lemma {:induction false} ExtendComplete(g: Graph, ps: seq<Path>, target: string, q: Path)
    requires Valid(g) && Started(g, ps)
    requires forall q :: q in ps ==> IsChainTo(g, q, target)
    requires IsChainTo(g, q, target) && |q| >= 2 && q[1..] in ps
    ensures q in Extend(g, ps, target)
  {
    var init := ps[..|ps| - 1];
    var last := ps[|ps| - 1];
    if q[1..] == last {
      PrependFacts(g, last, target, |g.dependsOn|);
      assert q == [q[0]] + last;
    } else {
      assert q[1..] in init;
      ExtendComplete(g, init, target, q);
    }
  }

  /** The first level holds exactly the one-edge chains. */
  lemma Level1Exact(g: Graph, target: string, p: Path)
    requires Valid(g)
    ensures p in Level1(g, target, |g.dependsOn|) <==> IsChainTo(g, p, target) && |p| == 1
  {
    Level1Facts(g, target, |g.dependsOn|);
    if IsChainTo(g, p, target) && |p| == 1 {
      assert p == [p[0]];
    }
  }

  /** The second level holds exactly the two-edge chains. */
  lemma Level2Exact(g: Graph, target: string, p: Path)
    requires Valid(g)
    ensures p in Extend(g, Level1(g, target, |g.dependsOn|), target) <==>
      IsChainTo(g, p, target) && |p| == 2
  {
    var l1 := Level1(g, target, |g.dependsOn|);
    Level1Facts(g, target, |g.dependsOn|);
    ExtendSound(g, l1, target);
    if p in Extend(g, l1, target) {
      assert p[1..] in l1;
    }
    if IsChainTo(g, p, target) && |p| == 2 {
      Level1Exact(g, target, p[1..]);
      ExtendComplete(g, l1, target, p);
    }
  }

  /** The third level holds exactly the three-edge chains. */
  lemma Level3Exact(g: Graph, target: string, p: Path)
    requires Valid(g)
    ensures p in Extend(g, Extend(g, Level1(g, target, |g.dependsOn|), target), target) <==>
      IsChainTo(g, p, target) && |p| == 3
  {
    var l1 := Level1(g, target, |g.dependsOn|);
    var l2 := Extend(g, l1, target);
    forall q | q in l2 ensures IsChainTo(g, q, target) {
      Level2Exact(g, target, q);
    }
    ExtendSound(g, l2, target);
    if p in Extend(g, l2, target) {
      assert p[1..] in l2;
      Level2Exact(g, target, p[1..]);
    }
    if IsChainTo(g, p, target) && |p| == 3 {
      Level2Exact(g, target, p[1..]);
      ExtendComplete(g, l2, target, p);
    }
  }

  /** The three levels are each duplicate-free, and together too. */
  lemma LevelsDistinct(g: Graph, target: string)
    requires Valid(g)
    ensures Distinct(Level1(g, target, |g.dependsOn|) + Extend(g, Level1(g, target, |g.dependsOn|), target) +
      Extend(g, Extend(g, Level1(g, target, |g.dependsOn|), target), target))
  {
    var l1 := Level1(g, target, |g.dependsOn|);
    var l2 := Extend(g, l1, target);
    var l3 := Extend(g, l2, target);
    Level1Facts(g, target, |g.dependsOn|);
    HeadsIncreasingDistinct(l1);
    ExtendDistinct(g, l1, target);
    forall q | q in l2 ensures IsChainTo(g, q, target) {
      Level2Exact(g, target, q);
    }
    ExtendDistinct(g, l2, target);
    forall p | p in l1 ensures p !in l2 && p !in l3 {
      Level2Exact(g, target, p);
      Level3Exact(g, target, p);
    }
    forall p | p in l2 ensures p !in l3 {
      Level2Exact(g, target, p);
      Level3Exact(g, target, p);
    }
    DistinctConcat(l1, l2);
    DistinctConcat(l1 + l2, l3);
  }

  /** All matches of `(a:Machine)-[:DEPENDS_ON*1..3]->(f:Machine {id: target})`:
      the one-, two- and three-edge paths (see `PathsToExact`, `PathsToDistinct`). */
  function PathsTo(g: Graph, target: string): (ps: seq<Path>)
    requires Valid(g)
    ensures Started(g, ps)
  {
    var l1 := Level1(g, target, |g.dependsOn|);
    var l2 := Extend(g, l1, target);
    var l3 := Extend(g, l2, target);
    l1 + l2 + l3
  }

  /** The enumeration holds exactly the paths of one to three edges into the target. */
  lemma PathsToExact(g: Graph, target: string, p: Path)
    requires Valid(g)
    ensures p in PathsTo(g, target) <==> IsPathTo(g, p, target)
  {
    Level1Exact(g, target, p);
    Level2Exact(g, target, p);
    Level3Exact(g, target, p);
  }

  /** The enumeration lists every path once. */
  lemma PathsToDistinct(g: Graph, target: string)
    requires Valid(g)
    ensures Distinct(PathsTo(g, target))
  {
    LevelsDistinct(g, target);
  }


  // ---------------------------------------------------------------------------
  // get_failure_impact
  // ---------------------------------------------------------------------------

  /** A row of the affected-machines query. */
  datatype AffectedRow = AffectedRow(affectedId: string, affectedName: string, criticality: Level)

  function RowOf(m: Machine): AffectedRow {
    AffectedRow(m.id, m.name, m.criticality)
  }

  /** One row per path of `ps`, naming the machine the path starts from. */
  function AffectedRows(g: Graph, ps: seq<Path>): (rows: seq<AffectedRow>)
    requires Valid(g) && Started(g, ps)
    ensures |rows| == |ps|
    ensures forall i :: 0 <= i < |rows| ==> rows[i] == RowOf(g.machines[StartOf(g, ps[i])])
  {
    seq(|ps|, i requires 0 <= i < |ps| => RowOf(g.machines[StartOf(g, ps[i])]))
  }

  /** The affected-machines query: one row per DEPENDS_ON path of one to three
      edges ending at a machine with id `target` (no DISTINCT), naming the
      machine the path starts from (see `AffectedRowsArePathStarts`). */
  function AffectedMachines(g: Graph, target: string): (rows: seq<AffectedRow>)
    requires Valid(g)
    ensures |rows| == |PathsTo(g, target)|
  {
    AffectedRows(g, PathsTo(g, target))
  }

  /** Machine node `m` is the target itself (zero hops) or lies one to three
      DEPENDS_ON hops upstream of it. */
  ghost predicate Upstream(g: Graph, target: string, m: nat)
    requires Valid(g)
  {
    m < |g.machines| &&
    (g.machines[m].id == target || exists p :: IsPathTo(g, p, target) && StartOf(g, p) == m)
  }

  /** A row of the impacted-lines query. */
  datatype LineRow = LineRow(lineName: string, plant: string)

  function LineRowOf(l: ProductionLine): LineRow {
    LineRow(l.name, l.plant)
  }

  /** `Upstream`, computed from the enumerated paths `ps`. */
  predicate InReach(g: Graph, ps: seq<Path>, target: string, m: nat)
    requires Valid(g)
    requires Started(g, ps)
  {
    m < |g.machines| &&
    (g.machines[m].id == target || exists i :: 0 <= i < |ps| && StartOf(g, ps[i]) == m)
  }

  /** Over the enumeration of `PathsTo`, `InReach` is `Upstream`. */
  lemma InReachIsUpstream(g: Graph, target: string, m: nat)
    requires Valid(g)
    ensures InReach(g, PathsTo(g, target), target, m) <==> Upstream(g, target, m)
  {
    var ps := PathsTo(g, target);
    if InReach(g, ps, target, m) && g.machines[m].id != target {
      var i :| 0 <= i < |ps| && StartOf(g, ps[i]) == m;
      PathsToExact(g, target, ps[i]);
    }
    if Upstream(g, target, m) && g.machines[m].id != target {
      var p :| IsPathTo(g, p, target) && StartOf(g, p) == m;
      PathsToExact(g, target, p);
      var i := IndexOf(ps, p);
    }
  }

  /** The lines fed, through the FEEDS_INTO edges `k < n`, by a machine in reach
      (see `FedRowsExact`). */
  function FedRows(g: Graph, ps: seq<Path>, target: string, n: nat): (rows: seq<LineRow>)
    requires Valid(g) && n <= |g.feedsInto|
    requires Started(g, ps)
    ensures |rows| <= n
  {
    if n == 0 then []
    else
      var f := g.feedsInto[n - 1];
      assert f in g.feedsInto;
      FedRows(g, ps, target, n - 1) +
        (if InReach(g, ps, target, f.machine) then [LineRowOf(g.lines[f.line])] else [])
  }

  /** A row is fed exactly when one of the first `n` FEEDS_INTO edges leaves a
      machine in reach and enters a line with that name and plant. */
  lemma {:induction false} FedRowsExact(g: Graph, ps: seq<Path>, target: string, n: nat, row: LineRow)
    requires Valid(g) && n <= |g.feedsInto|
    requires Started(g, ps)
    ensures row in FedRows(g, ps, target, n) <==>
      exists k :: 0 <= k < n && InReach(g, ps, target, g.feedsInto[k].machine) &&
        g.feedsInto[k].line < |g.lines| && LineRowOf(g.lines[g.feedsInto[k].line]) == row
  {
    if n > 0 {
      FedRowsExact(g, ps, target, n - 1, row);
      assert g.feedsInto[n - 1] in g.feedsInto;
    }
  }

  /** No row is fed when no FEEDS_INTO edge leaves a machine in reach. */
  lemma {:induction false} FedRowsNone(g: Graph, ps: seq<Path>, target: string, n: nat)
    requires Valid(g) && n <= |g.feedsInto|
    requires Started(g, ps)
    requires forall k :: 0 <= k < n ==> !InReach(g, ps, target, g.feedsInto[k].machine)
    ensures FedRows(g, ps, target, n) == []
  {
    if n > 0 {
      FedRowsNone(g, ps, target, n - 1);
    }
  }

  /** The impacted-lines query: the distinct (name, plant) pairs of the lines fed
      by the target or by a machine one to three hops upstream of it
      (see `ImpactedLinesExact`). */
  function ImpactedLines(g: Graph, target: string): (rows: seq<LineRow>)
    requires Valid(g)
    ensures Distinct(rows)
  {
    Dedup(FedRows(g, PathsTo(g, target), target, |g.feedsInto|))
  }

  /** A line is impacted exactly when a FEEDS_INTO edge reaches it from the
      target or from a machine one to three DEPENDS_ON hops upstream of it. */
  lemma ImpactedLinesExact(g: Graph, target: string, row: LineRow)
    requires Valid(g)
    ensures row in ImpactedLines(g, target) <==>
      exists k :: 0 <= k < |g.feedsInto| && Upstream(g, target, g.feedsInto[k].machine) &&
        g.feedsInto[k].line < |g.lines| && LineRowOf(g.lines[g.feedsInto[k].line]) == row
  {
    var ps := PathsTo(g, target);
    DedupMembers(FedRows(g, ps, target, |g.feedsInto|), row);
    FedRowsExact(g, ps, target, |g.feedsInto|, row);
    if row in ImpactedLines(g, target) {
      var k :| 0 <= k < |g.feedsInto| && InReach(g, ps, target, g.feedsInto[k].machine) &&
        g.feedsInto[k].line < |g.lines| && LineRowOf(g.lines[g.feedsInto[k].line]) == row;
      InReachIsUpstream(g, target, g.feedsInto[k].machine);
    }
    if exists k :: 0 <= k < |g.feedsInto| && Upstream(g, target, g.feedsInto[k].machine) &&
        g.feedsInto[k].line < |g.lines| && LineRowOf(g.lines[g.feedsInto[k].line]) == row
    {
      var k :| 0 <= k < |g.feedsInto| && Upstream(g, target, g.feedsInto[k].machine) &&
        g.feedsInto[k].line < |g.lines| && LineRowOf(g.lines[g.feedsInto[k].line]) == row;
      InReachIsUpstream(g, target, g.feedsInto[k].machine);
    }
  }

  /** The value returned by `get_failure_impact`. */
  datatype FailureImpact = FailureImpact(
    failingMachine: string,
    affectedMachines: seq<AffectedRow>,
    impactedLines: seq<LineRow>)

  /** `get_failure_impact(machine_id)`: echoes the id and runs the two queries. */
  function GetFailureImpact(g: Graph, machineId: string): (r: FailureImpact)
    requires Valid(g)
    ensures r.failingMachine == machineId
    ensures r.affectedMachines == AffectedMachines(g, machineId)
    ensures r.impactedLines == ImpactedLines(g, machineId)
  {
    FailureImpact(machineId, AffectedMachines(g, machineId), ImpactedLines(g, machineId))
  }

  /** Every affected row names the start of a DEPENDS_ON path of one to three
      edges ending at the target, and every such path start is named. */
  lemma AffectedRowsArePathStarts(g: Graph, target: string, row: AffectedRow)
    requires Valid(g)
    ensures row in AffectedMachines(g, target) <==>
      exists p :: IsPathTo(g, p, target) && RowOf(g.machines[StartOf(g, p)]) == row
  {
    var ps := PathsTo(g, target);
    var rows := AffectedMachines(g, target);
    if row in rows {
      var i :| 0 <= i < |rows| && rows[i] == row;
      PathsToExact(g, target, ps[i]);
    }
    if exists p :: IsPathTo(g, p, target) && RowOf(g.machines[StartOf(g, p)]) == row {
      var p :| IsPathTo(g, p, target) && RowOf(g.machines[StartOf(g, p)]) == row;
      PathsToExact(g, target, p);
      var i := IndexOf(ps, p);
      assert rows[i] == row;
    }
  }

  /** A chain ends with an edge entering a machine with the target id. */
  lemma {:induction false} ChainEndEntered(g: Graph, p: Path, target: string)
    requires Valid(g) && IsChainTo(g, p, target)
    ensures exists e :: e in g.dependsOn && g.machines[e.to].id == target
    decreases |p|
  {
    if |p| == 1 {
      assert g.dependsOn[p[0]] in g.dependsOn;
    } else {
      ChainEndEntered(g, p[1..], target);
    }
  }

  /** When no DEPENDS_ON edge enters a machine with id `target`, no path ends there. */
  lemma NoEdgeIntoTargetNoPaths(g: Graph, target: string)
    requires Valid(g)
    requires forall e :: e in g.dependsOn ==> g.machines[e.to].id != target
    ensures PathsTo(g, target) == []
  {
    var ps := PathsTo(g, target);
    if |ps| > 0 {
      PathsToExact(g, target, ps[0]);
      ChainEndEntered(g, ps[0], target);
    }
  }

  /** When no DEPENDS_ON edge enters a machine with id `target` and no FEEDS_INTO
      edge leaves one (in particular when there is no such machine), both
      queries come back empty. */
  lemma IsolatedMachineHasNoImpact(g: Graph, target: string)
    requires Valid(g)
    requires forall e :: e in g.dependsOn ==> g.machines[e.to].id != target
    requires forall f :: f in g.feedsInto ==> g.machines[f.machine].id != target
    ensures GetFailureImpact(g, target) == FailureImpact(target, [], [])
  {
    NoEdgeIntoTargetNoPaths(g, target);
    forall k | 0 <= k < |g.feedsInto|
      ensures !InReach(g, [], target, g.feedsInto[k].machine)
    {
      assert g.feedsInto[k] in g.feedsInto;
    }
    FedRowsNone(g, [], target, |g.feedsInto|);
  }

  /** An id that names no machine node has no affected machines and no impacted lines. */
  lemma UnknownMachineHasNoImpact(g: Graph, target: string)
    requires Valid(g)
    requires forall m :: m in g.machines ==> m.id != target
    ensures GetFailureImpact(g, target) == FailureImpact(target, [], [])
  {
    forall e | e in g.dependsOn
      ensures g.machines[e.to].id != target
    {
      assert g.machines[e.to] in g.machines;
    }
    forall f | f in g.feedsInto
      ensures g.machines[f.machine].id != target
    {
      assert g.machines[f.machine] in g.machines;
    }
    IsolatedMachineHasNoImpact(g, target);
  }

  // ---------------------------------------------------------------------------
  // get_full_graph_summary
  // ---------------------------------------------------------------------------

  datatype RelKind = DependsOnRel | FeedsIntoRel

  /** A row `(from_name, relationship, to_name)` of the summary query. */
  datatype Triple = Triple(fromName: string, relationship: RelKind, toName: string)

  function DependsOnTriple(g: Graph, e: DependsOn): Triple
    requires e.from < |g.machines| && e.to < |g.machines|
  {
    Triple(g.machines[e.from].name, DependsOnRel, g.machines[e.to].name)
  }

  function FeedsIntoTriple(g: Graph, f: FeedsInto): Triple
    requires f.machine < |g.machines| && f.line < |g.lines|
  {
    Triple(g.machines[f.machine].name, FeedsIntoRel, g.lines[f.line].name)
  }

  /** `get_full_graph_summary()`: exactly one triple per edge of the graph. */
  function FullGraphSummary(g: Graph): (ts: seq<Triple>)
    requires Valid(g)
    ensures |ts| == |g.dependsOn| + |g.feedsInto|
    ensures forall i :: 0 <= i < |g.dependsOn| ==> ts[i] == DependsOnTriple(g, g.dependsOn[i])
    ensures forall k :: 0 <= k < |g.feedsInto| ==>
      ts[|g.dependsOn| + k] == FeedsIntoTriple(g, g.feedsInto[k])
  {
    seq(|g.dependsOn|, i requires 0 <= i < |g.dependsOn| =>
          assert g.dependsOn[i] in g.dependsOn; DependsOnTriple(g, g.dependsOn[i])) +
    seq(|g.feedsInto|, k requires 0 <= k < |g.feedsInto| =>
          assert g.feedsInto[k] in g.feedsInto; FeedsIntoTriple(g, g.feedsInto[k]))
  }

  /** Number of summary rows of relationship kind `kind`. */
  function CountKind(ts: seq<Triple>, kind: RelKind): (n: nat)
    ensures n <= |ts|
  {
    if |ts| == 0 then 0
    else CountKind(ts[..|ts| - 1], kind) + (if ts[|ts| - 1].relationship == kind then 1 else 0)
  }

  /** The summary holds one DEPENDS_ON row per DEPENDS_ON edge and one FEEDS_INTO
      row per FEEDS_INTO edge. */
  lemma SummaryCountsEdges(g: Graph)
    requires Valid(g)
    ensures CountKind(FullGraphSummary(g), DependsOnRel) == |g.dependsOn|
    ensures CountKind(FullGraphSummary(g), FeedsIntoRel) == |g.feedsInto|
  {
    SummaryHalves(g);
    CountSplit(FullGraphSummary(g), |g.dependsOn|);
  }

  /** A list of `d` DEPENDS_ON rows followed by FEEDS_INTO rows counts `d` of the first kind and the rest of the second. */
  lemma {:induction false} CountSplit(ts: seq<Triple>, d: nat)
    requires d <= |ts|
    requires forall i :: 0 <= i < d ==> ts[i].relationship == DependsOnRel
    requires forall i :: d <= i < |ts| ==> ts[i].relationship == FeedsIntoRel
    ensures CountKind(ts, DependsOnRel) == d
    ensures CountKind(ts, FeedsIntoRel) == |ts| - d
  {
    if |ts| > 0 {
      var init := ts[..|ts| - 1];
      if d == |ts| {
        CountSplit(init, d - 1);
      } else {
        CountSplit(init, d);
      }
    }
  }

  /** The DEPENDS_ON rows come first, then the FEEDS_INTO rows. */
  lemma SummaryHalves(g: Graph)
    requires Valid(g)
    ensures var ts := FullGraphSummary(g);
      && (forall i :: 0 <= i < |g.dependsOn| ==> ts[i].relationship == DependsOnRel)
      && (forall i :: |g.dependsOn| <= i < |ts| ==> ts[i].relationship == FeedsIntoRel)
  {
    var ts := FullGraphSummary(g);
    var d := |g.dependsOn|;
    forall i | d <= i < |ts|
      ensures ts[i].relationship == FeedsIntoRel
    {
      assert ts[d + (i - d)] == FeedsIntoTriple(g, g.feedsInto[i - d]);
    }
  }

  // ---------------------------------------------------------------------------
  // The fixture: clear_database, create_machines, create_production_lines,
  // create_relationships
  // ---------------------------------------------------------------------------

  /** `MATCH (n) DETACH DELETE n`: removes every node and every edge. */
  function ClearDatabase(g: Graph): (r: Graph)
    ensures Valid(r)
    ensures r.machines == [] && r.lines == [] && r.dependsOn == [] && r.feedsInto == []
  {
    Graph([], [], [], [])
  }

  const FixtureMachines: seq<Machine> := [
    Machine("M001", "CNC Machine A", "CNC", "Plant_North", "Siemens", "Running", High),
    Machine("M002", "Conveyor Belt B", "Conveyor", "Plant_North", "ABB", "Degrading", Critical),
    Machine("M003", "Robotic Arm C", "Robot", "Plant_South", "FANUC", "Running", High),
    Machine("M004", "Hydraulic Press D", "Press", "Plant_South", "Bosch", "Running", Medium),
    Machine("M005", "Assembly Unit E", "Assembly", "Plant_North", "Siemens", "Running", Critical)
  ]

  const FixtureLines: seq<ProductionLine> := [
    ProductionLine("PL001", "Engine Assembly Line", "Plant_North"),
    ProductionLine("PL002", "Body Welding Line", "Plant_South"),
    ProductionLine("PL003", "Paint Shop Line", "Plant_North")
  ]

  /** One `(a, b, impact, reason)` entry of the dependency list: `a` depends on `b`. */
  datatype DependencySpec = DependencySpec(a: string, b: string, impact: Level, reason: string)

  /** One `(m, pl, seq)` entry of the feeds list. */
  datatype FeedSpec = FeedSpec(machine: string, line: string, sequence: int)

  const FixtureDependencies: seq<DependencySpec> := [
    DependencySpec("M001", "M002", High, "Parts supply"),
    DependencySpec("M005", "M002", Critical, "Assembly feed"),
    DependencySpec("M005", "M001", High, "Machined parts"),
    DependencySpec("M004", "M003", Medium, "Positioning")
  ]

  const FixtureFeeds: seq<FeedSpec> := [
    FeedSpec("M001", "PL001", 1),
    FeedSpec("M002", "PL001", 2),
    FeedSpec("M005", "PL001", 3),
    FeedSpec("M003", "PL002", 1),
    FeedSpec("M004", "PL002", 2)
  ]

  /** `create_machines`: one CREATE per machine, so the five nodes are added
      whatever the graph already holds. */
  function CreateMachines(g: Graph): (r: Graph)
    requires Valid(g)
    ensures Valid(r)
    ensures r.machines == g.machines + FixtureMachines
    ensures r.lines == g.lines && r.dependsOn == g.dependsOn && r.feedsInto == g.feedsInto
  {
    g.(machines := g.machines + FixtureMachines)
  }

  /** `create_production_lines`: one CREATE per line. */
  function CreateProductionLines(g: Graph): (r: Graph)
    requires Valid(g)
    ensures Valid(r)
    ensures r.lines == g.lines + FixtureLines
    ensures r.machines == g.machines && r.dependsOn == g.dependsOn && r.feedsInto == g.feedsInto
  {
    g.(lines := g.lines + FixtureLines)
  }

  /** The machine nodes whose id is `id`, by increasing index: what `MATCH (a:Machine {id: $id})` binds. */
  function MachinesWithId(ms: seq<Machine>, id: string): (ix: seq<nat>)
    ensures forall k :: 0 <= k < |ix| ==> ix[k] < |ms|
    ensures forall k, l :: 0 <= k < l < |ix| ==> ix[k] < ix[l]
  {
    if |ms| == 0 then []
    else
      var n := |ms| - 1;
      MachinesWithId(ms[..n], id) + (if ms[n].id == id then [n] else [])
  }
  /** `MachinesWithId` binds exactly the nodes carrying `id`. */
  lemma {:induction false} MachinesWithIdExact(ms: seq<Machine>, id: string, i: nat)
    ensures i in MachinesWithId(ms, id) <==> i < |ms| && ms[i].id == id
  {
    if |ms| > 0 {
      MachinesWithIdExact(ms[..|ms| - 1], id, i);
    }
  }


  /** Every index of `ix` moved up by `d`. */
  function Shift(ix: seq<nat>, d: nat): (r: seq<nat>)
    ensures |r| == |ix| && forall k :: 0 <= k < |ix| ==> r[k] == ix[k] + d
  {
    seq(|ix|, k requires 0 <= k < |ix| => ix[k] + d)
  }

  /** Matching over nodes `a` followed by nodes `b` binds the matches among `a`,
      then those among `b` at their shifted positions. */
  lemma {:induction false} MachinesWithIdAppend(a: seq<Machine>, b: seq<Machine>, id: string)
    ensures MachinesWithId(a + b, id) == MachinesWithId(a, id) + Shift(MachinesWithId(b, id), |a|)
  {
    if |b| > 0 {
      var n := |b| - 1;
      var ab := a + b;
      var tail := if b[n].id == id then [|a| + n] else [];
      assert ab[..|ab| - 1] == a + b[..n] && ab[|ab| - 1] == b[n];
      assert MachinesWithId(ab, id) == MachinesWithId(a + b[..n], id) + tail;
      MachinesWithIdAppend(a, b[..n], id);
      var s := Shift(MachinesWithId(b[..n], id), |a|);
      assert Shift(MachinesWithId(b, id), |a|) == s + tail;
    } else {
      assert a + b == a;
    }
  }

  /** The line nodes whose id is `id`, by increasing index. */
  function LinesWithId(ls: seq<ProductionLine>, id: string): (ix: seq<nat>)
    ensures forall k :: 0 <= k < |ix| ==> ix[k] < |ls|
    ensures forall k, l :: 0 <= k < l < |ix| ==> ix[k] < ix[l]
  {
    if |ls| == 0 then []
    else
      var n := |ls| - 1;
      LinesWithId(ls[..n], id) + (if ls[n].id == id then [n] else [])
  }
  /** `LinesWithId` binds exactly the nodes carrying `id`. */
  lemma {:induction false} LinesWithIdExact(ls: seq<ProductionLine>, id: string, i: nat)
    ensures i in LinesWithId(ls, id) <==> i < |ls| && ls[i].id == id
  {
    if |ls| > 0 {
      LinesWithIdExact(ls[..|ls| - 1], id, i);
    }
  }


  /** The DEPENDS_ON edges from node `a` to each node of `tos`. */
  function DependsOnFrom(a: nat, tos: seq<nat>, impact: Level, reason: string): (es: seq<DependsOn>)
    ensures forall e :: e in es <==> e.from == a && e.to in tos && e.impact == impact && e.reason == reason
    ensures |es| == |tos|
  {
    if |tos| == 0 then []
    else [DependsOn(a, tos[0], impact, reason)] + DependsOnFrom(a, tos[1..], impact, reason)
  }

  /** `MATCH (a) MATCH (b) CREATE (a)-[:DEPENDS_ON]->(b)`: one edge per pair of bound nodes. */
  function DependsOnPairs(froms: seq<nat>, tos: seq<nat>, impact: Level, reason: string): (es: seq<DependsOn>)
    ensures forall e :: e in es <==> e.from in froms && e.to in tos && e.impact == impact && e.reason == reason
    ensures |es| == |froms| * |tos|
  {
    if |froms| == 0 then []
    else
      assert |froms| * |tos| == |tos| + (|froms| - 1) * |tos|;
      DependsOnFrom(froms[0], tos, impact, reason) + DependsOnPairs(froms[1..], tos, impact, reason)
  }

  /** The FEEDS_INTO edges from node `m` to each node of `ls`. */
  function FeedsIntoFrom(m: nat, ls: seq<nat>, sequence: int): (fs: seq<FeedsInto>)
    ensures forall f :: f in fs <==> f.machine == m && f.line in ls && f.sequence == sequence
    ensures |fs| == |ls|
  {
    if |ls| == 0 then []
    else [FeedsInto(m, ls[0], sequence)] + FeedsIntoFrom(m, ls[1..], sequence)
  }

  /** `MATCH (m) MATCH (p) CREATE (m)-[:FEEDS_INTO]->(p)`: one edge per pair of bound nodes. */
  function FeedsIntoPairs(ms: seq<nat>, ls: seq<nat>, sequence: int): (fs: seq<FeedsInto>)
    ensures forall f :: f in fs <==> f.machine in ms && f.line in ls && f.sequence == sequence
    ensures |fs| == |ms| * |ls|
  {
    if |ms| == 0 then []
    else
      assert |ms| * |ls| == |ls| + (|ms| - 1) * |ls|;
      FeedsIntoFrom(ms[0], ls, sequence) + FeedsIntoPairs(ms[1..], ls, sequence)
  }

  /** The DEPENDS_ON edges the dependency entries `specs` create in `g`
      (see `CreateDependsOnExact`). */
  function CreateDependsOn(g: Graph, specs: seq<DependencySpec>): (es: seq<DependsOn>)
    ensures forall e :: e in es ==> e.from < |g.machines| && e.to < |g.machines|
  {
    if |specs| == 0 then []
    else
      var s := specs[0];
      DependsOnPairs(MachinesWithId(g.machines, s.a), MachinesWithId(g.machines, s.b), s.impact, s.reason) +
      CreateDependsOn(g, specs[1..])
  }

  /** When every entry's two ids match `k` pairs of machine nodes, every entry
      creates `k` edges. */
  lemma {:induction false} CreateDependsOnLength(g: Graph, specs: seq<DependencySpec>, k: nat)
    requires forall i :: 0 <= i < |specs| ==>
      |MachinesWithId(g.machines, specs[i].a)| * |MachinesWithId(g.machines, specs[i].b)| == k
    ensures |CreateDependsOn(g, specs)| == k * |specs|
  {
    if |specs| > 0 {
      var s := specs[0];
      var first := DependsOnPairs(MachinesWithId(g.machines, s.a), MachinesWithId(g.machines, s.b), s.impact, s.reason);
      assert |first| == k;
      var rest := CreateDependsOn(g, specs[1..]);
      CreateDependsOnLength(g, specs[1..], k);
      assert |rest| == k * (|specs| - 1);
      assert CreateDependsOn(g, specs) == first + rest;
      assert k * |specs| == k + k * (|specs| - 1);
    }
  }

  /** An edge is created exactly when some entry names the ids of its two end
      nodes and carries its impact and reason. */
  lemma {:induction false} CreateDependsOnExact(g: Graph, specs: seq<DependencySpec>, e: DependsOn)
    ensures e in CreateDependsOn(g, specs) <==>
      exists s ::
        && s in specs
        && e.from < |g.machines| && g.machines[e.from].id == s.a
        && e.to < |g.machines| && g.machines[e.to].id == s.b
        && e.impact == s.impact && e.reason == s.reason
  {
    if |specs| > 0 {
      CreateDependsOnExact(g, specs[1..], e);
      var s := specs[0];
      MachinesWithIdExact(g.machines, s.a, e.from);
      MachinesWithIdExact(g.machines, s.b, e.to);
      if e in CreateDependsOn(g, specs[1..]) {
        var s' :| s' in specs[1..] && e.from < |g.machines| && g.machines[e.from].id == s'.a
          && e.to < |g.machines| && g.machines[e.to].id == s'.b && e.impact == s'.impact && e.reason == s'.reason;
        assert s' in specs;
      }
    }
  }

  /** The FEEDS_INTO edges the feed entries `specs` create in `g`
      (see `CreateFeedsIntoExact`). */
  function CreateFeedsInto(g: Graph, specs: seq<FeedSpec>): (fs: seq<FeedsInto>)
    ensures forall f :: f in fs ==> f.machine < |g.machines| && f.line < |g.lines|
  {
    if |specs| == 0 then []
    else
      var s := specs[0];
      FeedsIntoPairs(MachinesWithId(g.machines, s.machine), LinesWithId(g.lines, s.line), s.sequence) +
      CreateFeedsInto(g, specs[1..])
  }

  /** An edge is created exactly when some entry names the ids of its machine
      and its line and carries its sequence number. */
  lemma {:induction false} CreateFeedsIntoExact(g: Graph, specs: seq<FeedSpec>, f: FeedsInto)
    ensures f in CreateFeedsInto(g, specs) <==>
      exists s ::
        && s in specs
        && f.machine < |g.machines| && g.machines[f.machine].id == s.machine
        && f.line < |g.lines| && g.lines[f.line].id == s.line
        && f.sequence == s.sequence
  {
    if |specs| > 0 {
      CreateFeedsIntoExact(g, specs[1..], f);
      MachinesWithIdExact(g.machines, specs[0].machine, f.machine);
      LinesWithIdExact(g.lines, specs[0].line, f.line);
      if f in CreateFeedsInto(g, specs[1..]) {
        var s' :| s' in specs[1..] && f.machine < |g.machines| && g.machines[f.machine].id == s'.machine
          && f.line < |g.lines| && g.lines[f.line].id == s'.line && f.sequence == s'.sequence;
        assert s' in specs;
      }
    }
  }

  /** `create_relationships`: every entry of the two lists creates an edge between
      every pair of nodes carrying its ids (none when an id matches no node). */
  function CreateRelationships(g: Graph): (r: Graph)
    requires Valid(g)
    ensures Valid(r)
    ensures r.machines == g.machines && r.lines == g.lines
    ensures r.dependsOn == g.dependsOn + CreateDependsOn(g, FixtureDependencies)
    ensures r.feedsInto == g.feedsInto + CreateFeedsInto(g, FixtureFeeds)
  {
    g.(dependsOn := g.dependsOn + CreateDependsOn(g, FixtureDependencies),
       feedsInto := g.feedsInto + CreateFeedsInto(g, FixtureFeeds))
  }

  /** The full rebuild done at start-up: clear, then create nodes and edges. */
  function Rebuild(g: Graph): (r: Graph)
    ensures Valid(r)
  {
    CreateRelationships(CreateProductionLines(CreateMachines(ClearDatabase(g))))
  }

  /** The fixture's DEPENDS_ON edges over node positions M001..M005 = 0..4. */
  const FixtureDependsOnEdges: seq<DependsOn> := [
    DependsOn(0, 1, High, "Parts supply"),
    DependsOn(4, 1, Critical, "Assembly feed"),
    DependsOn(4, 0, High, "Machined parts"),
    DependsOn(3, 2, Medium, "Positioning")
  ]

  /** The fixture's FEEDS_INTO edges over line positions PL001..PL003 = 0..2. */
  const FixtureFeedsIntoEdges: seq<FeedsInto> := [
    FeedsInto(0, 0, 1),
    FeedsInto(1, 0, 2),
    FeedsInto(4, 0, 3),
    FeedsInto(2, 1, 1),
    FeedsInto(3, 1, 2)
  ]

  /** The graph every rebuild produces. */
  const FixtureGraph: Graph := Graph(FixtureMachines, FixtureLines, FixtureDependsOnEdges, FixtureFeedsIntoEdges)

  /** In a strictly increasing list of naturals the last exceeds the first by at least the length less one. */
  lemma {:induction false} IncreasingSpread(ix: seq<nat>)
    requires forall a, b :: 0 <= a < b < |ix| ==> ix[a] < ix[b]
    ensures |ix| > 0 ==> ix[|ix| - 1] >= ix[0] + |ix| - 1
  {
    if |ix| > 1 {
      IncreasingSpread(ix[..|ix| - 1]);
      assert ix[..|ix| - 1][|ix| - 2] == ix[|ix| - 2];
    }
  }

  /** A strictly increasing list whose members are exactly `k` is `[k]`. */
  lemma SingleIndex(ix: seq<nat>, k: nat)
    requires forall i: nat :: i in ix <==> i == k
    requires forall a, b :: 0 <= a < b < |ix| ==> ix[a] < ix[b]
    ensures ix == [k]
  {
    assert k in ix;
    IncreasingSpread(ix);
    assert ix[0] in ix && ix[|ix| - 1] in ix;
  }

  /** When node `k` is the only machine with id `id`, the MATCH binds it alone. */
  lemma OnlyMachineWithId(ms: seq<Machine>, id: string, k: nat)
    requires k < |ms| && ms[k].id == id
    requires Distinct(MachineIds(ms))
    ensures MachinesWithId(ms, id) == [k]
  {
    forall i | 0 <= i < |ms| && i != k ensures ms[i].id != id {
      assert MachineIds(ms)[i] != MachineIds(ms)[k];
    }
    forall i: nat ensures i in MachinesWithId(ms, id) <==> i == k {
      MachinesWithIdExact(ms, id, i);
    }
    SingleIndex(MachinesWithId(ms, id), k);
  }

  /** When node `k` is the only line with id `id`, the MATCH binds it alone. */
  lemma OnlyLineWithId(ls: seq<ProductionLine>, id: string, k: nat)
    requires k < |ls| && ls[k].id == id
    requires Distinct(LineIds(ls))
    ensures LinesWithId(ls, id) == [k]
  {
    forall i | 0 <= i < |ls| && i != k ensures ls[i].id != id {
      assert LineIds(ls)[i] != LineIds(ls)[k];
    }
    forall i: nat ensures i in LinesWithId(ls, id) <==> i == k {
      LinesWithIdExact(ls, id, i);
    }
    SingleIndex(LinesWithId(ls, id), k);
  }

  /** The `id` properties of the machine nodes, in node order. */
  function MachineIds(ms: seq<Machine>): (ids: seq<string>)
    ensures |ids| == |ms| && forall i :: 0 <= i < |ms| ==> ids[i] == ms[i].id
  {
    seq(|ms|, i requires 0 <= i < |ms| => ms[i].id)
  }

  /** The `id` properties of the line nodes, in node order. */
  function LineIds(ls: seq<ProductionLine>): (ids: seq<string>)
    ensures |ids| == |ls| && forall i :: 0 <= i < |ls| ==> ids[i] == ls[i].id
  {
    seq(|ls|, i requires 0 <= i < |ls| => ls[i].id)
  }

  /** When the entries name existing ids and no two nodes share an id, each
      entry creates exactly one edge, in entry order. */
  lemma {:induction false} CreateDependsOnOneEach(g: Graph, specs: seq<DependencySpec>, froms: seq<nat>, tos: seq<nat>)
    requires Distinct(MachineIds(g.machines))
    requires |froms| == |specs| && |tos| == |specs|
    requires forall k :: 0 <= k < |specs| ==>
      froms[k] < |g.machines| && g.machines[froms[k]].id == specs[k].a &&
      tos[k] < |g.machines| && g.machines[tos[k]].id == specs[k].b
    ensures |CreateDependsOn(g, specs)| == |specs|
    ensures forall k :: 0 <= k < |specs| ==>
      CreateDependsOn(g, specs)[k] == DependsOn(froms[k], tos[k], specs[k].impact, specs[k].reason)
  {
    if |specs| > 0 {
      var s := specs[0];
      CreateDependsOnOneEach(g, specs[1..], froms[1..], tos[1..]);
      OnlyMachineWithId(g.machines, s.a, froms[0]);
      OnlyMachineWithId(g.machines, s.b, tos[0]);
      assert DependsOnFrom(froms[0], [tos[0]], s.impact, s.reason) == [DependsOn(froms[0], tos[0], s.impact, s.reason)];
    }
  }

  /** When the entries name existing ids and no two nodes of a label share an
      id, each entry creates exactly one edge, in entry order. */
  lemma {:induction false} CreateFeedsIntoOneEach(g: Graph, specs: seq<FeedSpec>, ms: seq<nat>, ls: seq<nat>)
    requires Distinct(MachineIds(g.machines)) && Distinct(LineIds(g.lines))
    requires |ms| == |specs| && |ls| == |specs|
    requires forall k :: 0 <= k < |specs| ==>
      ms[k] < |g.machines| && g.machines[ms[k]].id == specs[k].machine &&
      ls[k] < |g.lines| && g.lines[ls[k]].id == specs[k].line
    ensures |CreateFeedsInto(g, specs)| == |specs|
    ensures forall k :: 0 <= k < |specs| ==>
      CreateFeedsInto(g, specs)[k] == FeedsInto(ms[k], ls[k], specs[k].sequence)
  {
    if |specs| > 0 {
      var s := specs[0];
      CreateFeedsIntoOneEach(g, specs[1..], ms[1..], ls[1..]);
      OnlyMachineWithId(g.machines, s.machine, ms[0]);
      OnlyLineWithId(g.lines, s.line, ls[0]);
      assert FeedsIntoFrom(ms[0], [ls[0]], s.sequence) == [FeedsInto(ms[0], ls[0], s.sequence)];
    }
  }

  /** No two fixture machines, and no two fixture lines, share an id. */
  lemma FixtureIdsUnique()
    ensures Distinct(MachineIds(FixtureMachines))
    ensures Distinct(LineIds(FixtureLines))
  {
    assert MachineIds(FixtureMachines) == ["M001", "M002", "M003", "M004", "M005"];
    assert LineIds(FixtureLines) == ["PL001", "PL002", "PL003"];
  }

  /** One edge per fixture dependency entry, between the nodes at `froms` and `tos`, is the fixture's DEPENDS_ON edge list. */
  lemma FixtureDependsOnEdgesFromEntries(es: seq<DependsOn>, specs: seq<DependencySpec>, froms: seq<nat>, tos: seq<nat>)
    requires specs == FixtureDependencies && froms == [0, 4, 4, 3] && tos == [1, 1, 0, 2]
    requires |es| == |specs|
    requires forall k :: 0 <= k < |specs| ==> es[k] == DependsOn(froms[k], tos[k], specs[k].impact, specs[k].reason)
    ensures es == FixtureDependsOnEdges
  {
    SameElements(es, FixtureDependsOnEdges);
  }

  /** One edge per fixture feed entry, between the nodes at `ms` and `ls`, is the fixture's FEEDS_INTO edge list. */
  lemma FixtureFeedsIntoEdgesFromEntries(fs: seq<FeedsInto>, specs: seq<FeedSpec>, ms: seq<nat>, ls: seq<nat>)
    requires specs == FixtureFeeds && ms == [0, 1, 4, 2, 3] && ls == [0, 0, 0, 1, 1]
    requires |fs| == |specs|
    requires forall k :: 0 <= k < |specs| ==> fs[k] == FeedsInto(ms[k], ls[k], specs[k].sequence)
    ensures fs == FixtureFeedsIntoEdges
  {
    SameElements(fs, FixtureFeedsIntoEdges);
  }

  /** The fixture's dependency entries create the fixture's DEPENDS_ON edges. */
  lemma FixtureDependsOnCreated(g: Graph, specs: seq<DependencySpec>)
    requires g.machines == FixtureMachines && g.lines == FixtureLines && specs == FixtureDependencies
    ensures CreateDependsOn(g, specs) == FixtureDependsOnEdges
  {
    var froms: seq<nat> := [0, 4, 4, 3];
    var tos: seq<nat> := [1, 1, 0, 2];
    assert forall k :: 0 <= k < |specs| ==>
      froms[k] < |g.machines| && g.machines[froms[k]].id == specs[k].a &&
      tos[k] < |g.machines| && g.machines[tos[k]].id == specs[k].b;
    FixtureIdsUnique();
    CreateDependsOnOneEach(g, specs, froms, tos);
    FixtureDependsOnEdgesFromEntries(CreateDependsOn(g, specs), specs, froms, tos);
  }

  /** The fixture's feed entries create the fixture's FEEDS_INTO edges. */
  lemma FixtureFeedsIntoCreated(g: Graph, specs: seq<FeedSpec>)
    requires g.machines == FixtureMachines && g.lines == FixtureLines && specs == FixtureFeeds
    ensures CreateFeedsInto(g, specs) == FixtureFeedsIntoEdges
  {
    var ms: seq<nat> := [0, 1, 4, 2, 3];
    var ls: seq<nat> := [0, 0, 0, 1, 1];
    assert forall k :: 0 <= k < |specs| ==>
      ms[k] < |g.machines| && g.machines[ms[k]].id == specs[k].machine &&
      ls[k] < |g.lines| && g.lines[ls[k]].id == specs[k].line;
    FixtureIdsUnique();
    CreateFeedsIntoOneEach(g, specs, ms, ls);
    FixtureFeedsIntoEdgesFromEntries(CreateFeedsInto(g, specs), specs, ms, ls);
  }

  /** Whatever the database held, a rebuild leaves exactly the fixture graph. */
  lemma RebuildIsFixture(g: Graph)
    ensures Rebuild(g) == FixtureGraph
  {
    var g2 := CreateProductionLines(CreateMachines(ClearDatabase(g)));
    assert g2 == Graph(FixtureMachines, FixtureLines, [], []);
    FixtureDependsOnCreated(g2, FixtureDependencies);
    FixtureFeedsIntoCreated(g2, FixtureFeeds);
  }
}
