/** Collecting the dependencies of a block by rendering its YAML trees in place (pkg/render2, deprenderer). */
module Dependencies {

  datatype Kind = Mapping | Sequence | Scalar | Other

  const STR: string := "!!str"
  const PACKAGE: string := "package"

  // ---------------------------------------------------------------- trees

  /** A YAML tree as a value. A mapping's content alternates keys and values. */
  datatype Tree = Tree(kind: Kind, tag: string, value: string, content: seq<Tree>)

  predicate Even(n: nat) {
    n != 1 && (n > 1 ==> Even(n - 2))
  }

  lemma {:induction false} EvenStep(i: nat, n: nat)
    requires Even(i) && Even(n) && i < n
    ensures i + 1 < n && !Even(i + 1) && Even(i + 2)
  {
    if i > 1 {
      EvenStep(i - 2, n - 2);
    }
  }

  lemma {:induction false} EvenIff(n: nat)
    ensures Even(n) <==> n % 2 == 0
  {
    if n > 1 {
      EvenIff(n - 2);
    }
  }

  /** Whether the child at i is a sequence item or a mapping value; keys are left alone. */
  predicate Visited(kind: Kind, i: nat) {
    kind == Sequence || (kind == Mapping && !Even(i))
  }

  predicate IsText(t: Tree) {
    t.kind == Scalar && t.tag == STR
  }

  /** The text of every string scalar at a value or sequence position. */
  ghost function Texts(t: Tree): set<string> {
    (if IsText(t) then {t.value} else {})
    + (set i, x | 0 <= i < |t.content| && Visited(t.kind, i) && x in Texts(t.content[i]) :: x)
  }

  /** A text is that of a string scalar, or it is found below an item of a sequence or a value of a mapping. */
  lemma TextsAre(t: Tree, x: string)
    ensures x in Texts(t) <==>
              || (t.kind == Scalar && t.tag == "!!str" && t.value == x)
              || exists i :: 0 <= i < |t.content| && (t.kind == Sequence || (t.kind == Mapping && i % 2 == 1)) && x in Texts(t.content[i])
  {
    forall i: nat ensures Even(i) <==> i % 2 == 0 {
      EvenIff(i);
    }
  }

  /** The tree after rendering: those scalars have lost their tag. */
  function Untagged(t: Tree): Tree {
    Tree(t.kind, if IsText(t) then "" else t.tag, t.value,
         seq(|t.content|, i requires 0 <= i < |t.content| => if Visited(t.kind, i) then Untagged(t.content[i]) else t.content[i]))
  }

  /** A rendering takes the tag of string scalars that are items of sequences or values of mappings, and nothing else. */
  lemma UntaggedIs(t: Tree)
    ensures Untagged(t).kind == t.kind && Untagged(t).value == t.value && |Untagged(t).content| == |t.content|
    ensures Untagged(t).tag == if t.kind == Scalar && t.tag == "!!str" then "" else t.tag
    ensures forall i :: 0 <= i < |t.content| ==>
                          Untagged(t).content[i] ==
                          if t.kind == Sequence || (t.kind == Mapping && i % 2 == 1) then Untagged(t.content[i]) else t.content[i]
  {
    forall i: nat ensures Even(i) <==> i % 2 == 0 {
      EvenIff(i);
    }
  }

  // ---------------------------------------------------------------- names in texts

  predicate Contains(text: string, name: string) {
    exists i :: 0 <= i <= |text| && name <= text[i..]
  }

  predicate IsPackage(name: string) {
    PACKAGE <= name
  }

  /** The block names that some text contains. */
  ghost function Named(blocks: seq<string>, texts: set<string>): set<string> {
    set b, x | b in blocks && x in texts && Contains(x, b) :: b
  }

  ghost function Packages(names: set<string>): set<string> {
    set b | b in names && IsPackage(b)
  }

  ghost predicate NamesBlock(blocks: seq<string>, part: string) {
    exists i :: 0 <= i < |blocks| && Contains(part, blocks[i])
  }

  /** The listed names that contain a block name. */
  ghost function Accepted(blocks: seq<string>, parts: seq<string>): set<string> {
    set p | p in parts && NamesBlock(blocks, p)
  }

  lemma AcceptedNext(blocks: seq<string>, parts: seq<string>, part: string)
    ensures Accepted(blocks, parts + [part])
            == Accepted(blocks, parts) + if NamesBlock(blocks, part) then {part} else {}
  {
  }

  /** What the renderer has collected. */
  datatype Found = Found(deps: set<string>, pkgdeps: set<string>)

  /** The collected names with those that the texts contain added, and the packages among them. */
  ghost function Recorded(found: Found, blocks: seq<string>, texts: set<string>): Found {
    Found(found.deps + Named(blocks, texts), found.pkgdeps + Packages(Named(blocks, texts)))
  }

  /** What is recorded: the block names that are a part of some text, and those of them that start with package. */
  lemma RecordedAre(found: Found, blocks: seq<string>, texts: set<string>, b: string)
    ensures var named := b in blocks && exists x, i :: x in texts && 0 <= i <= |x| && b <= x[i..];
            && (b in Recorded(found, blocks, texts).deps <==> b in found.deps || named)
            && (b in Recorded(found, blocks, texts).pkgdeps <==> b in found.pkgdeps || (named && "package" <= b))
  {
    if x, i :| x in texts && 0 <= i <= |x| && b <= x[i..] {
      assert Contains(x, b);
    }
  }

  /** What is accepted: the listed names of which some block name is a part. */
  lemma AcceptedAre(blocks: seq<string>, parts: seq<string>, part: string)
    ensures part in Accepted(blocks, parts) <==>
              part in parts && exists b, i :: b in blocks && 0 <= i <= |part| && b <= part[i..]
  {
    if part in parts {
      if b, i :| b in blocks && 0 <= i <= |part| && b <= part[i..] {
        var k :| 0 <= k < |blocks| && blocks[k] == b;
        assert Contains(part, blocks[k]);
      }
      if NamesBlock(blocks, part) {
        var k :| 0 <= k < |blocks| && Contains(part, blocks[k]);
        var i :| 0 <= i <= |part| && blocks[k] <= part[i..];
        assert blocks[k] in blocks && blocks[k] <= part[i..];
      }
    }
  }

  lemma RecordedJoin(found: Found, blocks: seq<string>, a: set<string>, b: set<string>)
    ensures Recorded(Recorded(found, blocks, a), blocks, b) == Recorded(found, blocks, a + b)
  {
    assert Named(blocks, a + b) == Named(blocks, a) + Named(blocks, b);
    assert Packages(Named(blocks, a + b)) == Packages(Named(blocks, a)) + Packages(Named(blocks, b));
  }

  // ---------------------------------------------------------------- the nodes

  /** A node of a YAML tree; what it holds is changed in place. */
  class Node {
    const kind: Kind
    var tag: string
    var value: string
    var content: seq<Node>
    ghost const repr: set<Node>

    /** Children that are trees, apart from each other; a mapping pairs keys and values. */
    constructor (kind: Kind, tag: string, value: string, content: seq<Node>)
      requires forall c :: c in content ==> c.Valid()
      requires forall i, j :: 0 <= i < j < |content| ==> content[i].repr !! content[j].repr
      requires kind == Mapping ==> Even(|content|)
      ensures Valid() && this.kind == kind && this.tag == tag && this.value == value && this.content == content
      ensures forall n :: n in repr && n != this ==> exists c :: c in content && n in c.repr
    {
      this.kind, this.tag, this.value, this.content := kind, tag, value, content;
      repr := {this} + (set c, n | c in content && n in c.repr :: n);
      new;
      assert forall i :: 0 <= i < |content| ==> content[i] in content;
    }

    ghost predicate Valid()
      reads this, repr
      decreases repr
    {
      && this in repr
      && (forall i :: 0 <= i < |content| ==>
                        content[i] in repr && content[i].repr <= repr - {this} && content[i].Valid())
      && (forall i, j :: 0 <= i < j < |content| ==> content[i].repr !! content[j].repr)
      && (kind == Mapping ==> Even(|content|))
    }

    ghost function View(): Tree
      requires Valid()
      reads this, repr
      decreases repr
    {
      Tree(kind, tag, value, Views(0))
    }

    /** The trees of the children from i on. */
    ghost function Views(i: nat): (ts: seq<Tree>)
      requires Valid() && i <= |content|
      reads this, repr
      ensures |ts| == |content| - i
      ensures forall j :: 0 <= j < |ts| ==> ts[j] == content[i + j].View()
      decreases repr, 0, |content| - i
    {
      if i == |content| then [] else [content[i].View()] + Views(i + 1)
    }

    twostate lemma OthersStay(i: nat)
      requires old(Valid()) && i < |old(content)| && unchanged(this) && unchanged(repr - {this} - old(content[i]).repr)
      ensures forall j :: 0 <= j < |content| && j != i ==>
                            content[j].Valid() && content[j].View() == old(content[j].View())
    {
      forall j | 0 <= j < |content| && j != i
        ensures content[j].Valid() && content[j].View() == old(content[j].View())
      {
        assert content[j].repr <= repr - {this} - old(content[i]).repr;
      }
    }

    /** When only what is below one child changed, and that is a tree still, so is the whole, with only that child new. */
    twostate lemma OnlyChildChanged(i: nat)
      requires old(Valid()) && i < |old(content)| && unchanged(this) && unchanged(repr - {this} - old(content[i]).repr)
      requires content[i].Valid()
      ensures Valid() && Views(0) == old(Views(0))[i := content[i].View()]
    {
      OthersStay(i);
    }
  }

  class Renderer {
    const blocks: seq<string>
    var deps: set<string>
    var pkgdeps: set<string>

    ghost function State(): Found
      reads this
    {
      Found(deps, pkgdeps)
    }

    constructor (blocks: seq<string>)
      ensures this.blocks == blocks && deps == {} && pkgdeps == {}
    {
      this.blocks := blocks;
      deps, pkgdeps := {}, {};
    }

    /** Records the block names that the text contains. */
    method RenderString(text: string) returns (rendered: string)
      modifies this
      ensures rendered == text
      ensures State() == Recorded(old(State()), blocks, {text})
      ensures forall b :: b in deps <==>
                            b in old(deps) || (b in blocks && exists i :: 0 <= i <= |text| && b <= text[i..])
      ensures forall b :: b in pkgdeps <==>
                            b in old(pkgdeps) || (b in blocks && "package" <= b && exists i :: 0 <= i <= |text| && b <= text[i..])
    {
      for k := 0 to |blocks|
        invariant deps == old(deps) + Named(blocks[..k], {text})
        invariant pkgdeps == old(pkgdeps) + Packages(Named(blocks[..k], {text}))
      {
        assert blocks[..k + 1] == blocks[..k] + [blocks[k]];
        if Contains(text, blocks[k]) {
          deps := deps + {blocks[k]};
          if IsPackage(blocks[k]) {
            pkgdeps := pkgdeps + {blocks[k]};
          }
        }
      }
      assert blocks[..|blocks|] == blocks;
      forall b
        ensures var named := b in blocks && exists i :: 0 <= i <= |text| && b <= text[i..];
                && (b in deps <==> b in old(deps) || named)
                && (b in pkgdeps <==> b in old(pkgdeps) || (named && "package" <= b))
      {
        RecordedAre(old(State()), blocks, {text}, b);
        assert text in {text};
      }
      rendered := text;
    }

    /** The node, whose children were ts, after the first i of them have been walked. */
    ghost predicate Halfway(node: Node, ts: seq<Tree>, tag: string, value: string, start: Found, i: nat)
      reads this, node, node.repr
    {
      && i <= |ts| && node.Valid() && |node.content| == |ts| && node.tag == tag && node.value == value
      && node.Views(0) == Walked(node.kind, ts, i)
      && State() == Recorded(start, blocks, TextsBelow(node.kind, ts, i))
    }

    /** Renders the child at i and puts it back. */
    method RenderChild(node: Node, i: nat)
      requires node.Valid() && i < |node.content|
      modifies this, node.repr
      ensures node.Valid() && node.tag == old(node.tag) && node.value == old(node.value)
      ensures |node.content| == old(|node.content|)
      ensures node.Views(0) == old(node.Views(0))[i := Untagged(old(node.Views(0)[i]))]
      ensures State() == Recorded(old(State()), blocks, Texts(old(node.Views(0)[i])))
      decreases node.repr, 0
    {
      label before:
      var child := Render(node.content[i]);
      node.OnlyChildChanged@before(i);
      PutBack(node, i, child);
    }

    method PutBack(node: Node, i: nat, child: Node)
      requires node.Valid() && i < |node.content| && child == node.content[i]
      modifies node
      ensures node.Valid() && node.tag == old(node.tag) && node.value == old(node.value)
      ensures node.content == old(node.content) && node.Views(0) == old(node.Views(0))
    {
      assert node.content[i := child] == node.content;
      node.content := node.content[i := child];
    }

    /** The values of a mapping; its keys are skipped. */
    method RenderMapping(node: Node, ghost ts: seq<Tree>, ghost start: Found)
      requires node.kind == Mapping && Halfway(node, ts, node.tag, node.value, start, 0)
      modifies this, node.repr
      ensures Halfway(node, ts, old(node.tag), old(node.value), start, |ts|)
      decreases node.repr, 2
    {
      var i := 0;
      while i < |node.content|
        invariant i <= |node.content| == |ts| && Even(i) && Even(|ts|)
        invariant Halfway(node, ts, old(node.tag), old(node.value), start, i)
      {
        EvenStep(i, |ts|);
        RenderValue(node, ts, start, i);
        i := i + 2;
      }
    }

    method RenderValue(node: Node, ghost ts: seq<Tree>, ghost start: Found, i: nat)
      requires node.kind == Mapping && Even(i) && i + 1 < |ts|
      requires Halfway(node, ts, node.tag, node.value, start, i)
      modifies this, node.repr
      ensures Halfway(node, ts, old(node.tag), old(node.value), start, i + 2)
      decreases node.repr, 1
    {
      WalkedPair(ts, i);
      RecordedJoin(start, blocks, TextsBelow(Mapping, ts, i), Texts(ts[i + 1]));
      RenderChild(node, i + 1);
    }

    /** The items of a sequence. */
    method RenderSequence(node: Node, ghost ts: seq<Tree>, ghost start: Found)
      requires node.kind == Sequence && Halfway(node, ts, node.tag, node.value, start, 0)
      modifies this, node.repr
      ensures Halfway(node, ts, old(node.tag), old(node.value), start, |ts|)
      decreases node.repr, 2
    {
      var i := 0;
      while i < |node.content|
        invariant i <= |node.content| == |ts|
        invariant Halfway(node, ts, old(node.tag), old(node.value), start, i)
      {
        RenderItem(node, ts, start, i);
        i := i + 1;
      }
    }

    method RenderItem(node: Node, ghost ts: seq<Tree>, ghost start: Found, i: nat)
      requires node.kind == Sequence && i < |ts|
      requires Halfway(node, ts, node.tag, node.value, start, i)
      modifies this, node.repr
      ensures Halfway(node, ts, old(node.tag), old(node.value), start, i + 1)
      decreases node.repr, 1
    {
      WalkedNext(Sequence, ts, i);
      RecordedJoin(start, blocks, TextsBelow(Sequence, ts, i), Texts(ts[i]));
      RenderChild(node, i);
    }

    /** The text is no longer marked as a string. */
    method SetText(node: Node, text: string)
      requires node.Valid()
      modifies node
      ensures node.Valid() && node.tag == "" && node.value == text && node.Views(0) == old(node.Views(0))
    {
      node.tag := "";
      node.value := text;
    }

    method RenderScalar(node: Node)
      requires node.Valid() && node.kind == Scalar
      modifies this, node
      ensures node.Valid() && node.View() == Untagged(old(node.View()))
      ensures State() == Recorded(old(State()), blocks, Texts(old(node.View())))
    {
      ghost var t := node.View();
      ScalarWalked(t);
      if node.tag == STR {
        var rendered := RenderString(node.value);
        SetText(node, rendered);
      }
    }

    /** Walks the tree below the node. */
    method Render(node: Node) returns (r: Node)
      requires node.Valid()
      modifies this, node.repr
      ensures r == node && node.Valid() && node.View() == Untagged(old(node.View()))
      ensures State() == Recorded(old(State()), blocks, Texts(old(node.View())))
      decreases node.repr, 3
    {
      ghost var t := node.View();
      r := node;
      match node.kind {
        case Mapping =>
          AllWalked(t);
          WalkedStart(State(), blocks, Mapping, t.content);
          RenderMapping(node, t.content, State());
        case Sequence =>
          AllWalked(t);
          WalkedStart(State(), blocks, Sequence, t.content);
          RenderSequence(node, t.content, State());
        case Scalar =>
          RenderScalar(node);
        case Other =>
          AllWalked(t);
          NothingWalked(t);
      }
    }

    /** Adds the listed names that contain a block name, as they are listed; the others are passed over in silence. */
    method ResolveDependsOn(parts: seq<string>)
      modifies this
      ensures deps == old(deps) + Accepted(blocks, parts)
      ensures pkgdeps == old(pkgdeps) + Packages(Accepted(blocks, parts))
      ensures forall p :: p in pkgdeps <==> p in old(pkgdeps) || (p in Accepted(blocks, parts) && "package" <= p)
    {
      for k := 0 to |parts|
        invariant deps == old(deps) + Accepted(blocks, parts[..k])
        invariant pkgdeps == old(pkgdeps) + Packages(Accepted(blocks, parts[..k]))
      {
        AcceptedNext(blocks, parts[..k], parts[k]);
        assert parts[..k + 1] == parts[..k] + [parts[k]];
        var found := false;
        for j := 0 to |blocks|
          invariant found <==> exists i :: 0 <= i < j && Contains(parts[k], blocks[i])
        {
          if Contains(parts[k], blocks[j]) {
            found := true;
            break;
          }
        }
        if found {
          deps := deps + {parts[k]};
          if IsPackage(parts[k]) {
            pkgdeps := pkgdeps + {parts[k]};
          }
        }
      }
      assert parts[..|parts|] == parts;
    }
  }

  /** The children after the first n have been walked, and the texts below those. */
  function Walked(kind: Kind, ts: seq<Tree>, n: nat): seq<Tree> {
    seq(|ts|, i requires 0 <= i < |ts| => if i < n && Visited(kind, i) then Untagged(ts[i]) else ts[i])
  }

  ghost function TextsBelow(kind: Kind, ts: seq<Tree>, n: nat): set<string>
    requires n <= |ts|
  {
    set i, x | 0 <= i < n && Visited(kind, i) && x in Texts(ts[i]) :: x
  }

  lemma WalkedStart(found: Found, blocks: seq<string>, kind: Kind, ts: seq<Tree>)
    ensures Walked(kind, ts, 0) == ts && TextsBelow(kind, ts, 0) == {} && Recorded(found, blocks, {}) == found
  {
    assert Named(blocks, {}) == {} && Packages({}) == {};
  }

  lemma WalkedNext(kind: Kind, ts: seq<Tree>, n: nat)
    requires n < |ts| && Visited(kind, n)
    ensures Walked(kind, ts, n + 1) == Walked(kind, ts, n)[n := Untagged(ts[n])] && Walked(kind, ts, n)[n] == ts[n]
    ensures TextsBelow(kind, ts, n + 1) == TextsBelow(kind, ts, n) + Texts(ts[n])
  {
  }

  /** A key is passed over, its value walked. */
  lemma WalkedPair(ts: seq<Tree>, n: nat)
    requires Even(n) && n + 1 < |ts|
    ensures Walked(Mapping, ts, n + 2) == Walked(Mapping, ts, n)[n + 1 := Untagged(ts[n + 1])]
    ensures Walked(Mapping, ts, n)[n + 1] == ts[n + 1]
    ensures TextsBelow(Mapping, ts, n + 2) == TextsBelow(Mapping, ts, n) + Texts(ts[n + 1])
  {
    EvenStep(n, n + 2);
    assert Walked(Mapping, ts, n + 1) == Walked(Mapping, ts, n);
    assert TextsBelow(Mapping, ts, n + 1) == TextsBelow(Mapping, ts, n);
    WalkedNext(Mapping, ts, n + 1);
  }

  lemma AllWalked(t: Tree)
    requires t.kind != Scalar
    ensures Untagged(t) == t.(content := Walked(t.kind, t.content, |t.content|))
    ensures Texts(t) == TextsBelow(t.kind, t.content, |t.content|)
  {
  }

  lemma ScalarWalked(t: Tree)
    requires t.kind == Scalar
    ensures Untagged(t) == t.(tag := if t.tag == STR then "" else t.tag)
    ensures Texts(t) == if t.tag == STR then {t.value} else {}
  {
    assert Untagged(t).content == t.content;
  }

  lemma NothingWalked(t: Tree)
    requires t.kind == Other
    ensures Walked(t.kind, t.content, |t.content|) == t.content && TextsBelow(t.kind, t.content, |t.content|) == {}
  {
  }

  // ---------------------------------------------------------------- what is collected

  /** Descending the path by sequence items and mapping values leads to a string scalar of that text. */
  ghost predicate Leads(t: Tree, path: seq<nat>, x: string) {
    if path == [] then IsText(t) && t.value == x
    else path[0] < |t.content| && Visited(t.kind, path[0]) && Leads(t.content[path[0]], path[1..], x)
  }

  lemma {:induction false} PathOf(t: Tree, x: string) returns (path: seq<nat>)
    requires x in Texts(t)
    ensures Leads(t, path, x)
  {
    if IsText(t) && t.value == x {
      path := [];
    } else {
      var i :| 0 <= i < |t.content| && Visited(t.kind, i) && x in Texts(t.content[i]);
      var rest := PathOf(t.content[i], x);
      path := [i] + rest;
      assert path[1..] == rest;
    }
  }

  lemma {:induction false} LeadsToText(t: Tree, path: seq<nat>, x: string)
    requires Leads(t, path, x)
    ensures x in Texts(t)
    decreases |path|
  {
    if path != [] {
      LeadsToText(t.content[path[0]], path[1..], x);
    }
  }

  /** Some string scalar at a value or sequence position contains the name. */
  ghost predicate Mentions(t: Tree, b: string) {
    exists path, x :: Leads(t, path, x) && Contains(x, b)
  }

  lemma MentionsIff(t: Tree, b: string)
    ensures Mentions(t, b) <==> exists x :: x in Texts(t) && Contains(x, b)
  {
    if x :| x in Texts(t) && Contains(x, b) {
      var path := PathOf(t, x);
      assert Leads(t, path, x) && Contains(x, b);
    }
    if Mentions(t, b) {
      var path, x :| Leads(t, path, x) && Contains(x, b);
      LeadsToText(t, path, x);
    }
  }

  /** What a rendering adds: the block names so mentioned, and no others. */
  lemma NamedIff(blocks: seq<string>, t: Tree, b: string)
    ensures b in Named(blocks, Texts(t)) <==> b in blocks && Mentions(t, b)
  {
    MentionsIff(t, b);
  }

  /** The tree without its tags. */
  function Shape(t: Tree): Tree {
    Tree(t.kind, "", t.value, seq(|t.content|, i requires 0 <= i < |t.content| => Shape(t.content[i])))
  }

  /** Rendering changes neither the shape of the tree nor any text. */
  lemma {:induction false} ShapeStays(t: Tree)
    ensures Shape(Untagged(t)) == Shape(t)
  {
    forall i | 0 <= i < |t.content| ensures Shape(Untagged(t).content[i]) == Shape(t.content[i]) {
      ShapeStays(t.content[i]);
    }
    assert Shape(Untagged(t)).content == Shape(t).content;
  }

  /** A second rendering finds no text and changes nothing: the tags are gone. */
  lemma {:induction false} RenderedOnce(t: Tree)
    ensures Texts(Untagged(t)) == {} && Untagged(Untagged(t)) == Untagged(t)
  {
    var u := Untagged(t);
    forall i | 0 <= i < |t.content|
      ensures Visited(t.kind, i) ==> Texts(u.content[i]) == {} && Untagged(u.content[i]) == u.content[i]
    {
      RenderedOnce(t.content[i]);
    }
    assert Untagged(u).content == u.content;
  }

  /** Only block names are added exactly when no listed name merely contains a block name: none is longer than it. */
  lemma OnlyBlocksIff(blocks: seq<string>, parts: seq<string>)
    ensures (forall d :: d in Accepted(blocks, parts) ==> d in blocks) <==>
              forall p, i, b :: p in parts && 0 <= i <= |p| && b in blocks && b <= p[i..] ==> p in blocks
  {
    forall p, i, b | p in parts && 0 <= i <= |p| && b in blocks && b <= p[i..] ensures p in Accepted(blocks, parts) {
      assert Contains(p, b);
      var k :| 0 <= k < |blocks| && blocks[k] == b;
      assert NamesBlock(blocks, p);
    }
    forall p | p in Accepted(blocks, parts) ensures exists i, b :: 0 <= i <= |p| && b in blocks && b <= p[i..] {
      var k :| 0 <= k < |blocks| && Contains(p, blocks[k]);
      var i :| 0 <= i <= |p| && blocks[k] <= p[i..];
      assert blocks[k] in blocks;
    }
  }

  /** A listed name that merely contains a block name becomes a dependency although no block has that name. */
  lemma DependencyWithoutBlock(block: string)
    ensures Accepted([block], [" " + block]) == {" " + block} && " " + block !in [block]
  {
    var part := " " + block;
    assert part[1..] == block;
    assert Contains(part, [block][0]);
    assert NamesBlock([block], part);
    assert [part][0] == part;
    assert |part| != |block|;
  }
}
