/** From collected names to edges: which dependencies the parser lets through, and when they all lead to vertices. */
module PackageDependencies {
  import opened Graphs
  import opened Dags
  import opened PackageDag
  import opened Dependencies

  /** What the parser has of a block when it resolves dependencies. */
  datatype Block = Block(dependencies: set<string>, hasForEach: bool, hasCount: bool)

  /** What precedes the first dot. */
  function FirstPart(name: string): string {
    if name == "" || name[0] == '.' then "" else [name[0]] + FirstPart(name[1..])
  }

  lemma {:induction false} FirstPartOf(a: string, b: string)
    requires '.' !in a
    ensures FirstPart(a) == a && FirstPart(a + "." + b) == a
  {
    if a == "" {
      assert (a + "." + b)[0] == '.';
    } else {
      assert a == [a[0]] + a[1..];
      assert (a + "." + b)[1..] == a[1..] + "." + b;
      FirstPartOf(a[1..], b);
    }
  }

  /** A name of a loop variable passes for its first part if the block loops that way; any other must be a block. */
  predicate Resolves(blocks: set<string>, block: Block, dep: string) {
    if FirstPart(dep) == "each" then block.hasForEach
    else if FirstPart(dep) == "count" then block.hasCount
    else dep in blocks
  }

  lemma ResolvesIff(blocks: set<string>, block: Block, dep: string)
    ensures Resolves(blocks, block, dep) <==>
              || (FirstPart(dep) == "each" && block.hasForEach)
              || (FirstPart(dep) == "count" && block.hasCount)
              || (FirstPart(dep) !in {"each", "count"} && dep in blocks)
  {
  }

  ghost predicate AllResolve(blocks: map<string, Block>) {
    forall n, dep :: n in blocks && dep in blocks[n].dependencies ==> Resolves(blocks.Keys, blocks[n], dep)
  }

  /** Resolves every dependency of every block; an error stops the parser before any graph is built. */
  method ResolveDAGDependencies(blocks: map<string, Block>) returns (failed: bool)
    ensures failed <==> !AllResolve(blocks)
    ensures !failed <==> forall n, dep :: n in blocks && dep in blocks[n].dependencies ==>
                                            || (FirstPart(dep) == "each" && blocks[n].hasForEach)
                                            || (FirstPart(dep) == "count" && blocks[n].hasCount)
                                            || (FirstPart(dep) !in {"each", "count"} && dep in blocks)
  {
    failed := false;
    var names := Enumerate(blocks.Keys);
    for i := 0 to |names|
      invariant failed <==>
        exists n, dep :: n in names[..i] && dep in blocks[n].dependencies && !Resolves(blocks.Keys, blocks[n], dep)
    {
      assert names[..i + 1] == names[..i] + [names[i]];
      var unresolved := ResolveDependencies(blocks.Keys, blocks[names[i]]);
      failed := failed || unresolved;
    }
    assert names[..|names|] == names;
    forall n, dep | n in blocks && dep in blocks[n].dependencies
      ensures failed || (FirstPart(dep) == "each" && blocks[n].hasForEach)
              || (FirstPart(dep) == "count" && blocks[n].hasCount)
              || (FirstPart(dep) !in {"each", "count"} && dep in blocks)
    {
      ResolvesIff(blocks.Keys, blocks[n], dep);
    }
    if failed {
      var n, dep :| n in names && dep in blocks[n].dependencies && !Resolves(blocks.Keys, blocks[n], dep);
      ResolvesIff(blocks.Keys, blocks[n], dep);
    }
  }

  method ResolveDependencies(blocks: set<string>, block: Block) returns (failed: bool)
    ensures failed <==> exists dep :: dep in block.dependencies && !Resolves(blocks, block, dep)
  {
    failed := false;
    var deps := Enumerate(block.dependencies);
    for j := 0 to |deps|
      invariant failed <==> exists dep :: dep in deps[..j] && !Resolves(blocks, block, dep)
    {
      assert deps[..j + 1] == deps[..j] + [deps[j]];
      failed := failed || !Resolves(blocks, block, deps[j]);
    }
    assert deps[..|deps|] == deps;
  }

  /** The vertices are the root, which depends on nothing, and some of the blocks, as they are. */
  predicate VerticesOf(blocks: map<string, Block>, vs: map<Vertex, VertexContext>) {
    && ROOT in vs && vs[ROOT].dependencies == {} && vs.Keys <= blocks.Keys + {ROOT}
    && forall n :: n in vs && n != ROOT ==> vs[n].dependencies == blocks[n].dependencies
  }

  /** The endpoint half of being well-formed; without it the executor's init looks up a vertex that is not there. */
  ghost predicate DependenciesAreVertices(vs: map<Vertex, VertexContext>) {
    forall n :: n in vs ==> vs[n].GetBlockDependencies() <= vs.Keys
  }

  /** A name that the resolver lets through although no edge can start there: that of a loop variable that does not
      exist, or that of a block that is not part of the graph. */
  predicate Dangling(blocks: map<string, Block>, vs: map<Vertex, VertexContext>, dep: string) {
    && dep !in vs && dep !in LOCAL_VARS
    && (FirstPart(dep) in {"each", "count"} || dep in blocks)
  }

  /** Once everything was resolved, the dependencies are vertices exactly when none of them is such a name. */
  lemma ResolvedEndpointsIff(blocks: map<string, Block>, vs: map<Vertex, VertexContext>)
    requires AllResolve(blocks) && VerticesOf(blocks, vs)
    ensures DependenciesAreVertices(vs) <==>
              forall n, dep :: n in vs && dep in vs[n].dependencies ==> !Dangling(blocks, vs, dep)
  {
    if DependenciesAreVertices(vs) {
      forall n, dep | n in vs && dep in vs[n].dependencies ensures !Dangling(blocks, vs, dep) {
        assert dep in LOCAL_VARS || dep in vs[n].GetBlockDependencies();
      }
    } else {
      var n :| n in vs && !(vs[n].GetBlockDependencies() <= vs.Keys);
      var dep :| dep in vs[n].GetBlockDependencies() && dep !in vs;
      assert Resolves(blocks.Keys, blocks[n], dep);
      assert Dangling(blocks, vs, dep);
    }
  }

  /** What a block depends on: the names in its texts and the accepted part of what it lists. */
  ghost function Collected(names: seq<string>, texts: set<string>, parts: seq<string>): set<string> {
    Named(names, texts) + Accepted(names, parts)
  }

  /** When all the names looked for are vertices, only what is listed can miss one: the dependencies of a block are vertices
      exactly when every listed part that contains one of the names is a vertex or a loop variable. */
  lemma CollectedEndpointsIff(names: seq<string>, texts: set<string>, parts: seq<string>, vs: map<Vertex, VertexContext>,
                              n: Vertex)
    requires n in vs && vs[n].dependencies == Collected(names, texts, parts)
    requires forall b :: b in names ==> b in vs
    ensures vs[n].GetBlockDependencies() <= vs.Keys <==>
              forall part :: part in parts && NamesBlock(names, part) ==> part in vs || part in LOCAL_VARS
  {
    if vs[n].GetBlockDependencies() <= vs.Keys {
      forall part | part in parts && NamesBlock(names, part) ensures part in vs || part in LOCAL_VARS {
        assert part in Accepted(names, parts);
        assert part in LOCAL_VARS || part in vs[n].GetBlockDependencies();
      }
    }
  }

  const DANGLING := "each.resource.a"

  const DANGLING_BLOCKS: map<string, Block> := map[
    "resource.a" := Block({}, false, false), "resource.b" := Block({DANGLING}, true, false)]

  const DANGLING_VERTICES: map<Vertex, VertexContext> := map[
    ROOT := VertexContext(ROOT, {}), "resource.a" := VertexContext("resource.a", {}),
    "resource.b" := VertexContext("resource.b", {DANGLING})]

  lemma DanglingAccepted()
    ensures Collected(["resource.a", "resource.b"], {}, [DANGLING]) == {DANGLING}
  {
    var names := ["resource.a", "resource.b"];
    assert DANGLING[5..] == names[0];
    assert Contains(DANGLING, names[0]);
    assert NamesBlock(names, DANGLING);
    assert [DANGLING][0] == DANGLING;
    assert Named(names, {}) == {};
  }

  lemma DanglingIsNew()
    ensures DANGLING !in LOCAL_VARS && DANGLING !in DANGLING_VERTICES && FirstPart(DANGLING) == "each"
  {
    assert DANGLING == "each" + "." + "resource.a";
    FirstPartOf("each", "resource.a");
    assert |DANGLING| == 15;
  }

  lemma DanglingResolves()
    ensures AllResolve(DANGLING_BLOCKS)
  {
    DanglingIsNew();
    ResolvesIff(DANGLING_BLOCKS.Keys, DANGLING_BLOCKS["resource.b"], DANGLING);
  }

  /** A looping block that lists such a name is accepted, resolved, and then depends on a vertex that is not there. */
  lemma DanglingDependency()
    ensures Collected(["resource.a", "resource.b"], {}, [DANGLING]) == DANGLING_BLOCKS["resource.b"].dependencies
    ensures AllResolve(DANGLING_BLOCKS) && VerticesOf(DANGLING_BLOCKS, DANGLING_VERTICES)
    ensures !DependenciesAreVertices(DANGLING_VERTICES) && !WellFormed(DANGLING_VERTICES)
  {
    DanglingAccepted();
    DanglingIsNew();
    DanglingResolves();
    assert DANGLING in DANGLING_VERTICES["resource.b"].GetBlockDependencies();
  }
}
