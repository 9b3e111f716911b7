/** Two packages from their blocks to their runs: one whose reduction loses a dependency, one that may never finish. */
module PackageRuns {
  import opened Graphs
  import opened Walks
  import opened Reduction
  import opened Dags
  import opened PackageDag
  import opened Executor
  import opened ExecutorRespect
  import opened ExecutorRace
  import opened Pipeline

  // ---------------------------------------------------------------- a dependency that is lost

  /** b and c depend on nothing, e on c, d on b and e. */
  const LOSSY_BLOCKS: map<Vertex, VertexContext> := map[
    "b" := VertexContext("b", {}), "c" := VertexContext("c", {}),
    "e" := VertexContext("e", {"c"}), "d" := VertexContext("d", {"b", "e"})]

  const LOSSY_PACKAGE: map<Vertex, VertexContext> := PackageVertices(LOSSY_BLOCKS, VertexContext(ROOT, {}))

  lemma LossyDependencies()
    ensures LOSSY_PACKAGE.Keys == {"root", "b", "c", "d", "e"} && DependencyEdges(LOSSY_PACKAGE) == LOSSY
    ensures LOSSY_PACKAGE["d"].GetBlockDependencies() == {"b", "e"}
    ensures WellFormed(LOSSY_PACKAGE)
  {
    assert LOSSY_PACKAGE[ROOT].GetBlockDependencies() == {};
    assert LOSSY_PACKAGE["b"].GetBlockDependencies() == {};
    assert LOSSY_PACKAGE["c"].GetBlockDependencies() == {};
    assert LOSSY_PACKAGE["e"].GetBlockDependencies() == {"c"};
    assert LOSSY_PACKAGE["d"].GetBlockDependencies() == {"b", "e"};
    forall e ensures e in DependencyEdges(LOSSY_PACKAGE) <==> e in LOSSY {
      assert e == Edge(e.from, e.to);
    }
    LossyAcyclic();
  }

  /** Whatever the iteration orders of its reduction, a well-formed package has a run in which d starts although b, which it
      depends on, has not even started. */
  lemma DependencyViolated(order: seq<Vertex>, depths: seq<DepthMap>) returns (ss: seq<State>, steps: seq<Step>, k: nat)
    requires Passes(DependencyEdges(LOSSY_PACKAGE), order, depths) && ROOT in order
    ensures WellFormed(LOSSY_PACKAGE) && "b" in LOSSY_PACKAGE["d"].GetBlockDependencies()
    ensures StartsAt(PackageGraph(LOSSY_PACKAGE, AfterPasses(DependencyEdges(LOSSY_PACKAGE), depths)), ROOT, ss, steps, "d", k)
    ensures "b" !in StartedIn(ss[|steps|].trace) && !ss[|steps|].cancelled
  {
    LossyDependencies();
    ReductionLosesADependency(order, depths);
    ReducedEdges(LOSSY_PACKAGE, order, depths);
    ss, steps, k := StartsWithout(PackageGraph(LOSSY_PACKAGE, AfterPasses(LOSSY, depths)), ROOT, "b", "d");
  }

  // ---------------------------------------------------------------- a run that may hang

  /** v depends on a and b. */
  const DIAMOND_BLOCKS: map<Vertex, VertexContext> := map[
    "a" := VertexContext("a", {}), "b" := VertexContext("b", {}), "v" := VertexContext("v", {"a", "b"})]

  const DIAMOND_PACKAGE: map<Vertex, VertexContext> := PackageVertices(DIAMOND_BLOCKS, VertexContext(ROOT, {}))

  lemma DiamondDependencies()
    ensures DIAMOND_PACKAGE.Keys == DIAMOND.vertices && DependencyEdges(DIAMOND_PACKAGE) == DIAMOND.edges
    ensures WellFormed(DIAMOND_PACKAGE)
  {
    assert DIAMOND_PACKAGE[ROOT].GetBlockDependencies() == {};
    assert DIAMOND_PACKAGE["a"].GetBlockDependencies() == {};
    assert DIAMOND_PACKAGE["b"].GetBlockDependencies() == {};
    assert DIAMOND_PACKAGE["v"].GetBlockDependencies() == {"a", "b"};
    forall e ensures e in DependencyEdges(DIAMOND_PACKAGE) <==> e in DIAMOND.edges {
      assert e == Edge(e.from, e.to);
    }
    DiamondRunnable();
  }

  /** Both branches are equally long. */
  lemma DiamondLevelled()
    ensures Levelled(DIAMOND.edges)
  {
    forall y, e, f, p, q ensures !OutOfLevel(DIAMOND.edges, y, e, f, p, q) {
      if OutOfLevel(DIAMOND.edges, y, e, f, p, q) {
        PathBackwards(DIAMOND.edges, q);
        NeededBeside(DIAMOND.edges, y, e, f, p, q);
      }
    }
  }

  /** The reduction leaves the graph of this package as it is, and its runs can hang although nothing goes wrong. */
  lemma PackageMayHang(order: seq<Vertex>, depths: seq<DepthMap>)
    requires Passes(DependencyEdges(DIAMOND_PACKAGE), order, depths) && Lists(order, DIAMOND_PACKAGE.Keys)
    ensures WellFormed(DIAMOND_PACKAGE) && AfterPasses(DependencyEdges(DIAMOND_PACKAGE), depths) == DependencyEdges(DIAMOND_PACKAGE)
    ensures !AlwaysSucceeds(PackageGraph(DIAMOND_PACKAGE, AfterPasses(DependencyEdges(DIAMOND_PACKAGE), depths)), ROOT)
  {
    DiamondDependencies();
    DiamondLevelled();
    DependencyEndpoints(DIAMOND_PACKAGE);
    forall e | e in DIAMOND.edges ensures e.from in order {
      assert e.from in Endpoints(DIAMOND.edges);
    }
    LevelledReductionExact(DIAMOND.edges, order, depths);
    DiamondMayHang();
  }
}
