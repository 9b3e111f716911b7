/** From a package's blocks to the execution of its graph. */
module Pipeline {
  import opened Graphs
  import opened Walks
  import opened Reduction
  import opened Dags
  import opened PackageDag
  import opened Executor
  import opened ExecutorTrace
  import opened ExecutorRespect

  /** What GenerateDAG promises of the edges it leaves for the vertices vs. */
  ghost predicate PackageEdges(vs: map<Vertex, VertexContext>, es: set<Edge>) {
    && WellFormed(vs) && es <= DependencyEdges(vs)
    && Acyclic(es) && Endpoints(es) <= vs.Keys
    && Predecessors(es, ROOT) == {}
    && (forall n :: n in vs ==> Reaches(es, ROOT, n))
  }

  function PackageGraph(vs: map<Vertex, VertexContext>, es: set<Edge>): Graph {
    Graph(vs.Keys, es)
  }

  /** In every interleaving a block starts only after a dependency has returned, exactly when the reduction left a connection
      from the one to the other. */
  lemma DependencyRespectedIff(vs: map<Vertex, VertexContext>, es: set<Edge>, n: Vertex, dep: Vertex)
    requires PackageEdges(vs, es) && n in vs && dep in vs[n].GetBlockDependencies()
    ensures Respected(PackageGraph(vs, es), ROOT, dep, n) <==> Reaches(es, dep, n)
  {
    DependencyPredecessors(vs, n);
    PredecessorsContain(DependencyEdges(vs), dep, n);
    AcyclicEdgeProper(DependencyEdges(vs), dep, n);
    RespectedIff(PackageGraph(vs, es), ROOT, dep, n);
  }

  /** Every block waits for each of its dependencies, in every run over the edges es. */
  ghost predicate AllRespected(vs: map<Vertex, VertexContext>, es: set<Edge>) {
    forall n, dep :: n in vs && dep in vs[n].GetBlockDependencies() ==> Respected(PackageGraph(vs, es), ROOT, dep, n)
  }

  /** ... for everything the reduction can leave, whatever the order of its passes and walks. */
  ghost predicate AlwaysRespected(vs: map<Vertex, VertexContext>) {
    forall order, depths :: Passes(DependencyEdges(vs), order, depths) && Lists(order, vs.Keys) ==>
      AllRespected(vs, AfterPasses(DependencyEdges(vs), depths))
  }

  lemma ReducedEdges(vs: map<Vertex, VertexContext>, order: seq<Vertex>, depths: seq<DepthMap>)
    requires WellFormed(vs) && Passes(DependencyEdges(vs), order, depths)
    ensures PackageEdges(vs, AfterPasses(DependencyEdges(vs), depths))
  {
    PassesResult(DependencyEdges(vs), order, depths);
    ReducedPackage(vs, AfterPasses(DependencyEdges(vs), depths));
  }

  lemma LevelledRespected(vs: map<Vertex, VertexContext>, order: seq<Vertex>, depths: seq<DepthMap>)
    requires WellFormed(vs) && Levelled(DependencyEdges(vs))
    requires Passes(DependencyEdges(vs), order, depths) && Lists(order, vs.Keys)
    ensures AllRespected(vs, AfterPasses(DependencyEdges(vs), depths))
  {
    var all := DependencyEdges(vs);
    DependencyEndpoints(vs);
    forall e | e in all ensures e.from in order {
      assert e.from in Endpoints(all);
    }
    LevelledReductionExact(all, order, depths);
    ReducedEdges(vs, order, depths);
    forall n, dep | n in vs && dep in vs[n].GetBlockDependencies()
      ensures Respected(PackageGraph(vs, AfterPasses(all, depths)), ROOT, dep, n)
    {
      DependencyPredecessors(vs, n);
      PredecessorsContain(all, dep, n);
      ReachesEdge(all, dep, n);
      ReachesIn(all, AfterPasses(all, depths), dep, n);
      DependencyRespectedIff(vs, AfterPasses(all, depths), n, dep);
    }
  }

  /** An edge beside another one is a dependency. */
  lemma SharedTargetDepends(vs: map<Vertex, VertexContext>, e: Edge, f: Edge)
    requires WellFormed(vs) && e in DependencyEdges(vs) && f in DependencyEdges(vs) && e != f && e.to == f.to
    ensures e.to in vs && e.from in vs[e.to].GetBlockDependencies()
  {
    DependencyEndpoints(vs);
    assert e.to in Endpoints(DependencyEdges(vs));
    DependencyPredecessors(vs, e.to);
    PredecessorsContain(DependencyEdges(vs), e.from, e.to);
    PredecessorsContain(DependencyEdges(vs), f.from, e.to);
    assert e == Edge(e.from, e.to) && f == Edge(f.from, e.to);
  }

  /** From blocks to runs: dependencies are respected in every run after every reduction exactly when the dependencies are
      levelled. */
  lemma AlwaysRespectedIffLevelled(vs: map<Vertex, VertexContext>)
    requires WellFormed(vs)
    ensures AlwaysRespected(vs) <==> Levelled(DependencyEdges(vs))
  {
    var all := DependencyEdges(vs);
    DependencyEndpoints(vs);
    if Levelled(all) {
      forall order, depths | Passes(all, order, depths) && Lists(order, vs.Keys)
        ensures AllRespected(vs, AfterPasses(all, depths))
      {
        LevelledRespected(vs, order, depths);
      }
    } else {
      var y :| !LevelAt(all, y);
      var e, f, p, q :| OutOfLevel(all, y, e, f, p, q);
      ForkUnrespected(vs, y, e, f, p, q);
    }
  }

  /** A fork costs a block the wait for a dependency. */
  lemma ForkUnrespected(vs: map<Vertex, VertexContext>, y: Vertex, e: Edge, f: Edge, p: seq<Vertex>, q: seq<Vertex>)
    requires WellFormed(vs) && OutOfLevel(DependencyEdges(vs), y, e, f, p, q)
    ensures !AlwaysRespected(vs)
  {
    var all := DependencyEdges(vs);
    DependencyEndpoints(vs);
    NeededBeside(all, y, e, f, p, q);
    SharedTargetDepends(vs, e, f);
    var order, depths := UnlevelReduction(all, vs.Keys, y, e, f, p, q);
    NeededLost(all, AfterPasses(all, depths), e);
    ReducedEdges(vs, order, depths);
    DependencyRespectedIff(vs, AfterPasses(all, depths), e.to, e.from);
    assert !AllRespected(vs, AfterPasses(all, depths));
  }

  lemma NeededBeside(es: set<Edge>, y: Vertex, e: Edge, f: Edge, p: seq<Vertex>, q: seq<Vertex>)
    requires OutOfLevel(es, y, e, f, p, q)
    ensures e != f
  {
    ForkParts(es, y, e.from, f.from, p, q);
    if e == f {
      assert Reaches(es, p[1], e.from) && Reaches(es, q[1], e.from);
    }
  }

  /** Building the graph of a package and handing it to an executor that starts at the root. */
  method PlanPackage(blocks: map<Vertex, VertexContext>, root: VertexContext)
    returns (d: Dag<VertexContext>, ghost order: seq<Vertex>, ghost depths: seq<DepthMap>)
    requires WellFormed(PackageVertices(blocks, root))
    ensures fresh(d) && d.Valid() && PackageEdges(d.vertices, d.Edges())
    ensures d.vertices == PackageVertices(blocks, root)
    ensures d.vertices.Keys == blocks.Keys + {ROOT} && d.vertices[ROOT] == root
    ensures forall n :: n in blocks && n != ROOT ==> d.vertices[n] == blocks[n]
    ensures Runnable(PackageGraph(d.vertices, d.Edges()), ROOT)
    ensures Lists(order, d.vertices.Keys) && Passes(DependencyEdges(d.vertices), order, depths)
    ensures d.Edges() == AfterPasses(DependencyEdges(d.vertices), depths)
    ensures Levelled(DependencyEdges(d.vertices)) ==> SameReach(DependencyEdges(d.vertices), d.Edges())
    ensures Levelled(DependencyEdges(d.vertices)) ==> AllRespected(d.vertices, d.Edges())
  {
    d, order, depths := GenerateDAG(blocks, root);
    if Levelled(DependencyEdges(d.vertices)) {
      LevelledRespected(d.vertices, order, depths);
    }
  }

  /** Whatever the reduction deleted, the root returns before any block starts. */
  lemma RootFirst(vs: map<Vertex, VertexContext>, es: set<Edge>, ss: seq<State>, steps: seq<Step>, n: Vertex, k: nat)
    requires PackageEdges(vs, es) && IsRun(PackageGraph(vs, es), ROOT, ss, steps)
    requires n in vs && n != ROOT
    requires k < |ss[|steps|].trace| && ss[|steps|].trace[k] == Start(n)
    ensures exists j :: 0 <= j < k && ss[|steps|].trace[j].Finish? && ss[|steps|].trace[j].v == ROOT
  {
    RunsAfterAncestors(PackageGraph(vs, es), ROOT, ss, steps, ROOT, n, k);
  }
}
