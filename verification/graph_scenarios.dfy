/** The fixture the start-up rebuild creates, and what the two impact queries
    return on it for the machines M002, M003 and M005. Node positions follow
    creation order: machines M001..M005 are 0..4, lines PL001..PL003 are 0..2. */
module GraphScenarios {
  import opened Seqs
  import opened Graph

  lemma FixtureShape(g: Graph)
    requires g == FixtureGraph
    ensures Valid(g) && |g.machines| == 5 && |g.dependsOn| == 4 && |g.feedsInto| == 5
  {
  }

  // --- M002: M001 depends on it directly, M005 directly and through M001 ---

  lemma M002Level1(g: Graph)
    requires g == FixtureGraph
    ensures Valid(g) && Level1(g, "M002", |g.dependsOn|) == [[0], [1]]
  {
    FixtureShape(g);
    assert Level1(g, "M002", 1) == [[0]];
  }

  lemma M002Level2(g: Graph)
    requires g == FixtureGraph
    ensures Valid(g) && Extend(g, [[0], [1]], "M002") == [[2, 0]]
  {
    FixtureShape(g);
    assert StartOf(g, [0]) == 0;
    PrependOnly(g, [0], "M002", 4, 2);
    assert [2] + [0] == [2, 0];
    assert StartOf(g, [1]) == 4;
    PrependNone(g, [1], "M002", 4);
    assert [[0], [1]][..1] == [[0]];
  }

  lemma M002Level3(g: Graph)
    requires g == FixtureGraph
    ensures Valid(g) && Extend(g, [[2, 0]], "M002") == []
  {
    FixtureShape(g);
    assert StartOf(g, [2, 0]) == 4;
    PrependNone(g, [2, 0], "M002", 4);
  }

  /** The DEPENDS_ON paths into M002: M001 -> M002, M005 -> M002, M005 -> M001 -> M002. */
  lemma M002Paths(g: Graph)
    requires g == FixtureGraph
    ensures Valid(g) && PathsTo(g, "M002") == [[0], [1], [2, 0]]
  {
    M002Level1(g);
    M002Level2(g);
    M002Level3(g);
  }

  lemma M002Affected(g: Graph, ps: seq<Path>)
    requires g == FixtureGraph && ps == [[0], [1], [2, 0]]
    ensures Valid(g) && Started(g, ps)
    ensures AffectedRows(g, ps) == [
      AffectedRow("M001", "CNC Machine A", High),
      AffectedRow("M005", "Assembly Unit E", Critical),
      AffectedRow("M005", "Assembly Unit E", Critical)]
  {
    FixtureShape(g);
    var rows := AffectedRows(g, ps);
    assert rows[0] == AffectedRow("M001", "CNC Machine A", High);
    assert rows[1] == AffectedRow("M005", "Assembly Unit E", Critical);
    assert rows[2] == AffectedRow("M005", "Assembly Unit E", Critical);
    SameElements(rows, [
      AffectedRow("M001", "CNC Machine A", High),
      AffectedRow("M005", "Assembly Unit E", Critical),
      AffectedRow("M005", "Assembly Unit E", Critical)]);
  }

  /** In reach of M002: M001, M002 itself and M005, not M003 or M004. */
  lemma M002Reach(g: Graph, ps: seq<Path>)
    requires g == FixtureGraph && ps == [[0], [1], [2, 0]]
    ensures Valid(g) && Started(g, ps)
    ensures forall m :: 0 <= m < 5 ==> (InReach(g, ps, "M002", m) <==> m == 0 || m == 1 || m == 4)
  {
    FixtureShape(g);
    assert StartOf(g, ps[0]) == 0;
    assert StartOf(g, ps[1]) == 4;
    assert StartOf(g, ps[2]) == 4;
    assert g.machines[2].id == "M003" && g.machines[3].id == "M004";
  }

  lemma M002Fed(g: Graph, ps: seq<Path>)
    requires g == FixtureGraph && ps == [[0], [1], [2, 0]]
    ensures Valid(g) && Started(g, ps)
    ensures Dedup(FedRows(g, ps, "M002", |g.feedsInto|)) == [LineRow("Engine Assembly Line", "Plant_North")]
  {
    M002Reach(g, ps);
    var engine := LineRow("Engine Assembly Line", "Plant_North");
    assert FedRows(g, ps, "M002", 1) == [engine];
    assert FedRows(g, ps, "M002", 2) == [engine, engine];
    assert FedRows(g, ps, "M002", 3) == [engine, engine, engine];
    assert FedRows(g, ps, "M002", 4) == [engine, engine, engine];
    assert FedRows(g, ps, "M002", 5) == [engine, engine, engine];
    DedupRepeat([engine, engine, engine], engine);
  }

  /** After a rebuild, a failure of M002 affects M001 once and M005 twice (directly
      and through M001), and stops the Engine Assembly Line. */
  lemma RebuildImpactM002(db: Graph)
    ensures GetFailureImpact(Rebuild(db), "M002") == FailureImpact("M002",
      [AffectedRow("M001", "CNC Machine A", High),
       AffectedRow("M005", "Assembly Unit E", Critical),
       AffectedRow("M005", "Assembly Unit E", Critical)],
      [LineRow("Engine Assembly Line", "Plant_North")])
  {
    RebuildIsFixture(db);
    var g := Rebuild(db);
    M002Paths(g);
    M002Affected(g, PathsTo(g, "M002"));
    M002Fed(g, PathsTo(g, "M002"));
  }

  // --- M003: only M004 depends on it ---

  /** The only DEPENDS_ON path into M003 is M004 -> M003. */
  lemma M003Paths(g: Graph)
    requires g == FixtureGraph
    ensures Valid(g) && PathsTo(g, "M003") == [[3]]
  {
    FixtureShape(g);
    assert Level1(g, "M003", 3) == [];
    assert Level1(g, "M003", 4) == [[3]];
    assert StartOf(g, [3]) == 3;
    PrependNone(g, [3], "M003", 4);
    assert Extend(g, [[3]], "M003") == [];
  }

  lemma M003Affected(g: Graph, ps: seq<Path>)
    requires g == FixtureGraph && ps == [[3]]
    ensures Valid(g) && Started(g, ps)
    ensures AffectedRows(g, ps) == [AffectedRow("M004", "Hydraulic Press D", Medium)]
  {
    FixtureShape(g);
    assert StartOf(g, ps[0]) == 3;
    assert AffectedRows(g, ps)[0] == AffectedRow("M004", "Hydraulic Press D", Medium);
  }

  /** In reach of M003: M003 itself and M004. */
  lemma M003Reach(g: Graph, ps: seq<Path>)
    requires g == FixtureGraph && ps == [[3]]
    ensures Valid(g) && Started(g, ps)
    ensures forall m :: 0 <= m < 5 ==> (InReach(g, ps, "M003", m) <==> m == 2 || m == 3)
  {
    FixtureShape(g);
    assert StartOf(g, ps[0]) == 3;
    assert g.machines[2].id == "M003";
  }

  lemma M003Fed(g: Graph, ps: seq<Path>)
    requires g == FixtureGraph && ps == [[3]]
    ensures Valid(g) && Started(g, ps)
    ensures Dedup(FedRows(g, ps, "M003", |g.feedsInto|)) == [LineRow("Body Welding Line", "Plant_South")]
  {
    M003Reach(g, ps);
    var body := LineRow("Body Welding Line", "Plant_South");
    assert FedRows(g, ps, "M003", 1) == [];
    assert FedRows(g, ps, "M003", 2) == [];
    assert FedRows(g, ps, "M003", 3) == [];
    assert FedRows(g, ps, "M003", 4) == [body];
    assert FedRows(g, ps, "M003", 5) == [body, body];
    DedupRepeat([body, body], body);
  }

  /** After a rebuild, a failure of M003 affects M004 and stops the Body Welding Line. */
  lemma RebuildImpactM003(db: Graph)
    ensures GetFailureImpact(Rebuild(db), "M003") == FailureImpact("M003",
      [AffectedRow("M004", "Hydraulic Press D", Medium)],
      [LineRow("Body Welding Line", "Plant_South")])
  {
    RebuildIsFixture(db);
    var g := Rebuild(db);
    M003Paths(g);
    M003Affected(g, PathsTo(g, "M003"));
    M003Fed(g, PathsTo(g, "M003"));
  }

  // --- M005: nothing depends on it, but it feeds a line itself ---

  /** No DEPENDS_ON edge enters M005. */
  lemma M005Paths(g: Graph)
    requires g == FixtureGraph
    ensures Valid(g) && PathsTo(g, "M005") == []
  {
    FixtureShape(g);
    assert Level1(g, "M005", 4) == [];
  }

  lemma M005Fed(g: Graph, ps: seq<Path>)
    requires g == FixtureGraph && ps == []
    ensures Valid(g) && Started(g, ps)
    ensures Dedup(FedRows(g, ps, "M005", |g.feedsInto|)) == [LineRow("Engine Assembly Line", "Plant_North")]
  {
    FixtureShape(g);
    var engine := LineRow("Engine Assembly Line", "Plant_North");
    assert !InReach(g, ps, "M005", 0) && !InReach(g, ps, "M005", 1) && InReach(g, ps, "M005", 4);
    assert FedRows(g, ps, "M005", 1) == [];
    assert FedRows(g, ps, "M005", 2) == [];
    assert FedRows(g, ps, "M005", 3) == [engine];
    assert FedRows(g, ps, "M005", 5) == [engine];
    DedupRepeat([engine], engine);
  }

  /** After a rebuild, a failure of M005 affects no machine but still stops the
      Engine Assembly Line it feeds directly. */
  lemma RebuildImpactM005(db: Graph)
    ensures GetFailureImpact(Rebuild(db), "M005") == FailureImpact("M005", [],
      [LineRow("Engine Assembly Line", "Plant_North")])
  {
    RebuildIsFixture(db);
    var g := Rebuild(db);
    M005Paths(g);
    M005Fed(g, PathsTo(g, "M005"));
  }

  // --- The rebuild itself ---

  /** A rebuild leaves five machines with distinct ids, three lines with distinct
      ids, and edges between existing nodes only. */
  lemma RebuildShape(db: Graph)
    ensures Valid(Rebuild(db))
    ensures |Rebuild(db).machines| == 5 && Distinct(MachineIds(Rebuild(db).machines))
    ensures |Rebuild(db).lines| == 3 && Distinct(LineIds(Rebuild(db).lines))
  {
    RebuildIsFixture(db);
    FixtureIdsUnique();
  }

  /** After a rebuild the summary has nine rows: four DEPENDS_ON and five FEEDS_INTO. */
  lemma RebuildSummary(db: Graph)
    ensures |FullGraphSummary(Rebuild(db))| == 9
    ensures CountKind(FullGraphSummary(Rebuild(db)), DependsOnRel) == 4
    ensures CountKind(FullGraphSummary(Rebuild(db)), FeedsIntoRel) == 5
  {
    RebuildIsFixture(db);
    SummaryCountsEdges(Rebuild(db));
  }

  /** With the fixture nodes created twice, each fixture id is carried by two nodes. */
  lemma DoubledFixtureMatches(ms: seq<Machine>, id: string, k: nat)
    requires ms == FixtureMachines + FixtureMachines
    requires k < |FixtureMachines| && FixtureMachines[k].id == id
    ensures MachinesWithId(ms, id) == [k, k + 5]
  {
    FixtureIdsUnique();
    OnlyMachineWithId(FixtureMachines, id, k);
    MachinesWithIdAppend(FixtureMachines, FixtureMachines, id);
  }

  /** With the fixture nodes created twice, every dependency entry creates
      2 * 2 edges. */
  lemma DoubledDependsOnLength(g: Graph, specs: seq<DependencySpec>)
    requires g.machines == FixtureMachines + FixtureMachines && specs == FixtureDependencies
    ensures |CreateDependsOn(g, specs)| == 16
  {
    var ids := MachineIds(FixtureMachines);
    forall id | id in ids ensures |MachinesWithId(g.machines, id)| == 2 {
      DoubledFixtureMatches(g.machines, id, IndexOf(ids, id));
    }
    assert ids == ["M001", "M002", "M003", "M004", "M005"];
    assert forall i :: 0 <= i < |specs| ==> specs[i].a in ids && specs[i].b in ids;
    CreateDependsOnLength(g, specs, 4);
  }

  /** Running the three creation steps again without clearing first (CREATE, not
      MERGE) duplicates every node, and each dependency entry then matches two
      nodes at each end and creates four edges. */
  lemma RebuildWithoutClearDuplicates(db: Graph, r: Graph)
    requires r == CreateRelationships(CreateProductionLines(CreateMachines(Rebuild(db))))
    ensures |r.machines| == 10 && |r.lines| == 6
    ensures MachinesWithId(r.machines, "M001") == [0, 5]
    ensures |r.dependsOn| == 4 + 16
  {
    RebuildIsFixture(db);
    var g := CreateProductionLines(CreateMachines(Rebuild(db)));
    FixtureCreatedTwice(Rebuild(db), g, r);
  }

  /** The three creation steps run over the seeded plant. */
  lemma FixtureCreatedTwice(g0: Graph, g: Graph, r: Graph)
    requires g0 == FixtureGraph
    requires g == CreateProductionLines(CreateMachines(g0)) && r == CreateRelationships(g)
    ensures |r.machines| == 10 && |r.lines| == 6
    ensures MachinesWithId(r.machines, "M001") == [0, 5]
    ensures |r.dependsOn| == 4 + 16
  {
    FixtureShape(g0);
    assert g.machines == FixtureMachines + FixtureMachines;
    DoubledFixtureMatches(g.machines, "M001", 0);
    DoubledDependsOnLength(g, FixtureDependencies);
  }

  // --- The three-hop bound ---

  /** A machine for the chain example: only the id matters. */
  function ChainMachine(id: string): Machine {
    Machine(id, id, "", "", "", "Running", High)
  }

  /** C1 depends on C2, C2 on C3, C3 on C4 and C4 on C5: C1 is four hops from C5. */
  const ChainGraph: Graph := Graph(
    [ChainMachine("C1"), ChainMachine("C2"), ChainMachine("C3"), ChainMachine("C4"), ChainMachine("C5")],
    [],
    [DependsOn(0, 1, High, ""), DependsOn(1, 2, High, ""), DependsOn(2, 3, High, ""), DependsOn(3, 4, High, "")],
    [])

  lemma ChainShape(g: Graph)
    requires g == ChainGraph
    ensures Valid(g) && |g.dependsOn| == 4
  {
  }

  lemma ChainLevel1(g: Graph)
    requires g == ChainGraph
    ensures Valid(g) && Level1(g, "C5", |g.dependsOn|) == [[3]]
  {
    ChainShape(g);
    assert Level1(g, "C5", 3) == [];
  }

  lemma ChainLevel2(g: Graph)
    requires g == ChainGraph
    ensures Valid(g) && Extend(g, [[3]], "C5") == [[2, 3]]
  {
    ChainShape(g);
    assert StartOf(g, [3]) == 3;
    PrependOnly(g, [3], "C5", 4, 2);
    assert [2] + [3] == [2, 3];
  }

  lemma ChainLevel3(g: Graph)
    requires g == ChainGraph
    ensures Valid(g) && Extend(g, [[2, 3]], "C5") == [[1, 2, 3]]
  {
    ChainShape(g);
    assert StartOf(g, [2, 3]) == 2;
    PrependOnly(g, [2, 3], "C5", 4, 1);
    assert [1] + [2, 3] == [1, 2, 3];
  }

  lemma ChainPaths(g: Graph)
    requires g == ChainGraph
    ensures Valid(g) && PathsTo(g, "C5") == [[3], [2, 3], [1, 2, 3]]
  {
    ChainLevel1(g);
    ChainLevel2(g);
    ChainLevel3(g);
  }

  lemma ChainAffected(g: Graph, ps: seq<Path>)
    requires g == ChainGraph && ps == [[3], [2, 3], [1, 2, 3]]
    ensures Valid(g) && Started(g, ps)
    ensures AffectedRows(g, ps) == [RowOf(ChainMachine("C4")), RowOf(ChainMachine("C3")), RowOf(ChainMachine("C2"))]
  {
    ChainShape(g);
    assert StartOf(g, ps[0]) == 3 && StartOf(g, ps[1]) == 2 && StartOf(g, ps[2]) == 1;
    SameElements(AffectedRows(g, ps), [RowOf(ChainMachine("C4")), RowOf(ChainMachine("C3")), RowOf(ChainMachine("C2"))]);
  }

  lemma ChainFourHops(g: Graph)
    requires g == ChainGraph
    ensures Valid(g) && IsChainTo(g, [0, 1, 2, 3], "C5")
  {
    ChainShape(g);
    assert [0, 1, 2, 3][1..] == [1, 2, 3];
    assert [1, 2, 3][1..] == [2, 3];
    assert [2, 3][1..] == [3];
  }

  /** C1 reaches C5 along four DEPENDS_ON edges, yet a failure of C5 lists
      only C4, C3 and C2: the query stops after three hops. */
  lemma FourHopsAreNotAffected(g: Graph)
    requires g == ChainGraph
    ensures Valid(g) && IsChainTo(g, [0, 1, 2, 3], "C5")
    ensures AffectedMachines(g, "C5") == [RowOf(ChainMachine("C4")), RowOf(ChainMachine("C3")), RowOf(ChainMachine("C2"))]
  {
    ChainFourHops(g);
    ChainPaths(g);
    ChainAffected(g, PathsTo(g, "C5"));
  }
}
