/** Building a package's dependency graph from its blocks. */
module PackageDag {
  import opened Graphs
  import opened Walks
  import opened Reduction
  import opened Dags

  /** Names that refer to loop variables instead of blocks. */
  const LOCAL_VARS: set<string> := {"count.index", "each.key", "each.value"}

  datatype VertexContext = VertexContext(blockName: string, dependencies: set<string>) {
    function GetBlockDependencies(): set<string> {
      dependencies - LOCAL_VARS
    }
  }

  /** The vertices of the graph: the root, then every block; a block that is itself called "root" is not added. */
  function PackageVertices(blocks: map<Vertex, VertexContext>, root: VertexContext): map<Vertex, VertexContext> {
    blocks[ROOT := root]
  }

  /** An edge from each block dependency; from the root for a block without any. */
  function DependencyEdges(vs: map<Vertex, VertexContext>): set<Edge> {
    (set n, dep | n in vs && dep in vs[n].GetBlockDependencies() :: Edge(dep, n))
    + (set n | n in vs && n != ROOT && vs[n].GetBlockDependencies() == {} :: Edge(ROOT, n))
  }

  /** What building and running a graph demand of a package: dependencies name blocks of the package, which the parser
      checks for all but some names (PackageDependencies), and form no cycle, and the root depends on nothing. */
  ghost predicate WellFormed(vs: map<Vertex, VertexContext>) {
    && ROOT in vs && vs[ROOT].GetBlockDependencies() == {}
    && (forall n :: n in vs ==> vs[n].GetBlockDependencies() <= vs.Keys)
    && Acyclic(DependencyEdges(vs))
  }

  /** Each vertex is entered exactly from its block dependencies, a vertex without any only from the root, the root never. */
  lemma DependencyPredecessors(vs: map<Vertex, VertexContext>, n: Vertex)
    requires WellFormed(vs) && n in vs
    ensures Predecessors(DependencyEdges(vs), n)
         == if n == ROOT then {} else if vs[n].GetBlockDependencies() == {} then {ROOT} else vs[n].GetBlockDependencies()
  {
    var es := DependencyEdges(vs);
    forall u ensures u in Predecessors(es, n) <==> Edge(u, n) in es {
      PredecessorsContain(es, u, n);
    }
  }

  lemma DependencyEndpoints(vs: map<Vertex, VertexContext>)
    requires WellFormed(vs)
    ensures Endpoints(DependencyEdges(vs)) <= vs.Keys
  {
    forall e | e in DependencyEdges(vs) ensures e.from in vs && e.to in vs {
    }
  }

  /** The root, then the blocks in an arbitrary order; a failing AddVertex is ignored. */
  method GenerateVertices(blocks: map<Vertex, VertexContext>, root: VertexContext) returns (d: Dag<VertexContext>)
    ensures fresh(d) && d.Valid() && d.Edges() == {}
    ensures d.vertices == PackageVertices(blocks, root)
    ensures d.vertices.Keys == blocks.Keys + {ROOT} && d.vertices[ROOT] == root
    ensures forall n :: n in blocks && n != ROOT ==> d.vertices[n] == blocks[n]
  {
    d := new Dag<VertexContext>();
    var ok := d.AddVertex(ROOT, root);
    var names := Enumerate(blocks.Keys);
    for i := 0 to |names|
      invariant d.Valid() && d.Edges() == {}
      invariant ROOT in d.vertices && d.vertices[ROOT] == root
      invariant forall n :: n in d.vertices <==> n == ROOT || n in names[..i]
      invariant forall n :: n in d.vertices && n != ROOT ==> n in blocks && d.vertices[n] == blocks[n]
    {
      assert names[..i + 1] == names[..i] + [names[i]];
      ok := d.AddVertex(names[i], blocks[names[i]]);
    }
    assert names[..|names|] == names;
  }

  /** There is an edge into each vertex from every dependency other than a loop variable, and from the root when there is no
      such dependency. */
  lemma DependencyEdgesAre(vs: map<Vertex, VertexContext>, u: Vertex, n: Vertex)
    ensures Edge(u, n) in DependencyEdges(vs) <==>
              && n in vs
              && (|| (u in vs[n].dependencies && u !in {"count.index", "each.key", "each.value"})
                  || (u == "root" != n && vs[n].dependencies <= {"count.index", "each.key", "each.value"}))
  {
  }

  /** Connects every vertex from its dependencies, vertices and dependencies in arbitrary orders. */
  method ConnectDependencies(d: Dag<VertexContext>)
    requires d.Valid() && d.Edges() == {}
    modifies d`downEdges, d`upEdges
    ensures d.Valid() && d.Edges() == DependencyEdges(d.vertices)
  {
    var names := Enumerate(d.vertices.Keys);
    for i := 0 to |names|
      invariant d.Valid()
      invariant forall e :: e in d.Edges() <==> e in DependencyEdges(d.vertices) && e.to in names[..i]
    {
      var n := names[i];
      assert names[..i + 1] == names[..i] + [n];
      var deps := Enumerate(d.vertices[n].GetBlockDependencies());
      ghost var before := d.Edges();
      for j := 0 to |deps|
        invariant d.Valid()
        invariant forall e :: e in d.Edges() <==> e in before || (e.to == n && e.from in deps[..j])
      {
        assert deps[..j + 1] == deps[..j] + [deps[j]];
        d.Connect(deps[j], n);
      }
      assert deps[..|deps|] == deps;
      if n != ROOT {
        if |deps| == 0 {
          d.Connect(ROOT, n);
        }
      }
      IncomingEdges(d.vertices, n, deps);
    }
    assert names[..|names|] == names;
    forall e | e in DependencyEdges(d.vertices) ensures e.to in names {
    }
  }

  lemma IncomingEdges(vs: map<Vertex, VertexContext>, n: Vertex, deps: seq<string>)
    requires n in vs && Lists(deps, vs[n].GetBlockDependencies())
    ensures forall e: Edge :: e.to == n ==>
      (e in DependencyEdges(vs) <==> e.from in deps || (deps == [] && n != ROOT && e.from == ROOT))
  {
    forall e: Edge | e.to == n
      ensures e in DependencyEdges(vs) <==> e.from in deps || (deps == [] && n != ROOT && e.from == ROOT)
    {
      assert e == Edge(e.from, n);
      if deps == [] {
        assert forall x :: x !in vs[n].GetBlockDependencies();
      } else {
        assert deps[0] in vs[n].GetBlockDependencies();
      }
    }
  }

  /** The package graph: every block is a vertex, the edges are what one pass per vertex leaves of the dependencies, no edge is
      shadowed by a longer path, and the root, entered by no edge, reaches every block. */
  method GenerateDAG(blocks: map<Vertex, VertexContext>, root: VertexContext)
    returns (d: Dag<VertexContext>, ghost order: seq<Vertex>, ghost depths: seq<DepthMap>)
    requires WellFormed(PackageVertices(blocks, root))
    ensures fresh(d) && d.Valid() && d.vertices == PackageVertices(blocks, root)
    ensures d.vertices.Keys == blocks.Keys + {ROOT} && d.vertices[ROOT] == root
    ensures forall n :: n in blocks && n != ROOT ==> d.vertices[n] == blocks[n]
    ensures Lists(order, d.vertices.Keys) && Passes(DependencyEdges(d.vertices), order, depths)
    ensures d.Edges() == AfterPasses(DependencyEdges(d.vertices), depths)
    ensures d.Edges() <= DependencyEdges(d.vertices)
    ensures Acyclic(d.Edges()) && Endpoints(d.Edges()) <= d.vertices.Keys
    ensures forall e :: e in d.Edges() ==> !Redundant(d.Edges(), e)
    ensures Predecessors(d.Edges(), ROOT) == {}
    ensures forall n :: n in d.vertices ==> Reaches(d.Edges(), ROOT, n)
    ensures Levelled(DependencyEdges(d.vertices)) ==> SameReach(DependencyEdges(d.vertices), d.Edges())
  {
    d := GenerateVertices(blocks, root);
    ConnectDependencies(d);
    DependencyEndpoints(d.vertices);
    order, depths := d.TransitiveReduction();
    ReducedPackage(d.vertices, d.Edges());
  }

  /** What a subgraph of the dependencies in which no block lost its last edge keeps. */
  lemma ReducedPackage(vs: map<Vertex, VertexContext>, es: set<Edge>)
    requires WellFormed(vs) && es <= DependencyEdges(vs)
    requires forall w :: Predecessors(DependencyEdges(vs), w) != {} ==> Predecessors(es, w) != {}
    ensures Acyclic(es) && Endpoints(es) <= vs.Keys && Predecessors(es, ROOT) == {}
    ensures forall n :: n in vs ==> Reaches(es, ROOT, n)
  {
    DependencyEndpoints(vs);
    AcyclicSubgraph(es, DependencyEdges(vs));
    forall n | n in vs && n != ROOT ensures Predecessors(es, n) != {} {
      DependencyPredecessors(vs, n);
    }
    forall u ensures u !in Predecessors(es, ROOT) {
      PredecessorsContain(es, u, ROOT);
      PredecessorsContain(DependencyEdges(vs), u, ROOT);
      DependencyPredecessors(vs, ROOT);
    }
    forall n | n in vs ensures Reaches(es, ROOT, n) {
      OnlySourceReachesAll(vs.Keys, es, ROOT, n);
    }
  }
}
