/** Pruning: what is left of the old resources after the new ones are taken out of them (pkg/exec/diff, pkg/data/blockdata.go). */
module Differs {
  import opened Wrappers

  /** A resource; only its namespace and name identify it inside a block. */
  datatype Item = Item(namespace: string, name: string, kind: string, content: string) {
    function Id(): (string, string) {
      (namespace, name)
    }
  }

  type Id = (string, string)

  type Block = seq<Item>

  type Package = map<string, Block>

  // ---------------------------------------------------------------- specification

  /** The block without the first item of that identity. */
  function RemoveFirst(block: Block, id: Id): Block {
    if block == [] then []
    else if block[0].Id() == id then block[1..]
    else [block[0]] + RemoveFirst(block[1..], id)
  }

  function RemoveEach(block: Block, ids: seq<Id>): Block
    decreases |ids|
  {
    if ids == [] then block else RemoveEach(RemoveFirst(block, ids[0]), ids[1..])
  }

  /** What there is to prune: the items, in order, that no new item identifies. */
  function Unmatched(block: Block, ids: seq<Id>): Block {
    if block == [] then []
    else (if block[0].Id() in ids then [] else [block[0]]) + Unmatched(block[1..], ids)
  }

  function Ids(block: Block): seq<Id> {
    seq(|block|, i requires 0 <= i < |block| => block[i].Id())
  }

  function Count(ids: seq<Id>, id: Id): nat {
    multiset(ids)[id]
  }

  predicate Unique(block: Block) {
    forall i, j :: 0 <= i < j < |block| ==> block[i].Id() != block[j].Id()
  }

  // ---------------------------------------------------------------- the block data

  /** The first item of the identity, if any. */
  method GetItem(block: Block, id: Id) returns (found: bool, item: Item)
    ensures found <==> id in Ids(block)
    ensures found <==> exists i :: 0 <= i < |block| && block[i].namespace == id.0 && block[i].name == id.1
    ensures found ==> item in block && item.namespace == id.0 && item.name == id.1
    ensures !found ==> RemoveFirst(block, id) == block
  {
    found := false;
    item := Item("", "", "", "");
    for i := 0 to |block|
      invariant !found && forall j :: 0 <= j < i ==> block[j].Id() != id
    {
      if block[i].Id() == id {
        assert Ids(block)[i] == id;
        return true, block[i];
      }
    }
    AbsentStays(block, id);
    assert forall k :: 0 <= k < |block| ==> Ids(block)[k] == block[k].Id();
  }

  lemma {:induction false} AbsentStays(block: Block, id: Id)
    requires forall j :: 0 <= j < |block| ==> block[j].Id() != id
    ensures RemoveFirst(block, id) == block
  {
    if block != [] {
      AbsentStays(block[1..], id);
    }
  }

  lemma {:induction false} RemoveAt(block: Block, i: nat)
    requires i < |block| && forall j :: 0 <= j < i ==> block[j].Id() != block[i].Id()
    ensures RemoveFirst(block, block[i].Id()) == block[..i] + block[i + 1..]
  {
    if i > 0 {
      RemoveAt(block[1..], i - 1);
      assert block[..i] == [block[0]] + block[1..][..i - 1];
    }
  }

  /** Shifts what follows the first match over it. */
  method Delete(block: Block, id: Id) returns (r: Block)
    ensures r == RemoveFirst(block, id)
    ensures (forall i :: 0 <= i < |block| ==> (block[i].namespace, block[i].name) != id) ==> r == block
    ensures forall i :: 0 <= i < |block| && (block[i].namespace, block[i].name) == id
                        && (forall j :: 0 <= j < i ==> (block[j].namespace, block[j].name) != id) ==>
                          r == block[..i] + block[i + 1..]
  {
    for i := 0 to |block|
      invariant forall j :: 0 <= j < i ==> block[j].Id() != id
    {
      if block[i].Id() == id {
        RemoveAt(block, i);
        return block[..i] + block[i + 1..];
      }
    }
    AbsentStays(block, id);
    return block;
  }

  // ---------------------------------------------------------------- the stores

  function At(store: map<string, Package>, pkg: string, name: string): Block {
    if pkg in store && name in store[pkg] then store[pkg][name] else []
  }

  predicate Has(store: map<string, Package>, pkg: string, name: string) {
    pkg in store && name in store[pkg]
  }

  /** The stores have the same blocks and differ in at most one of them. */
  ghost predicate OnlyAt(before: map<string, Package>, after: map<string, Package>, pkg: string, name: string) {
    && (forall p, b :: Has(after, p, b) <==> Has(before, p, b))
    && (forall p, b :: (p, b) != (pkg, name) ==> At(after, p, b) == At(before, p, b))
  }

  /** What is shown for an item on the old side: whether there was one is right, its content is that of the new one. */
  function OldShown(block: Block, item: Item): Option<Item> {
    if item.Id() in Ids(block) then Some(item) else None
  }

  class DiffContext {
    var store: map<string, Package>

    /** When the store holds an item of that identity in the block: not that one, but the new one it was asked for. */
    method GetStoreItem(pkg: string, name: string, item: Item) returns (from: Option<Item>)
      ensures from == OldShown(At(store, pkg, name), item)
      ensures from == if pkg in store && name in store[pkg]
                         && exists i :: 0 <= i < |store[pkg][name]| && store[pkg][name][i].namespace == item.namespace
                                        && store[pkg][name][i].name == item.name
                      then Some(item) else None
      ensures from.None? ==> RemoveFirst(At(store, pkg, name), item.Id()) == At(store, pkg, name)
    {
      if pkg !in store || name !in store[pkg] {
        return None;
      }
      var found, stored := GetItem(store[pkg][name], item.Id());
      return if found then Some(item) else None;
    }

    method DeleteStoreItem(pkg: string, name: string, id: Id)
      modifies this
      ensures OnlyAt(old(store), store, pkg, name)
      ensures At(store, pkg, name) == RemoveFirst(At(old(store), pkg, name), id)
    {
      if pkg in store && name in store[pkg] {
        var block := Delete(store[pkg][name], id);
        store := store[pkg := store[pkg][name := block]];
      }
    }
  }

  /** The identities, in order, of the new items from position from on whose processing does not fail. */
  function Done(block: Block, from: nat, fails: nat -> bool): seq<Id>
    requires from <= |block|
    decreases |block| - from
  {
    if from == |block| then []
    else (if fails(from) then [] else [block[from].Id()]) + Done(block, from + 1, fails)
  }

  lemma DoneNext(rest: Block, block: Block, from: nat, fails: nat -> bool)
    requires from < |block|
    ensures RemoveEach(rest, Done(block, from, fails))
            == RemoveEach(if fails(from) then rest else RemoveFirst(rest, block[from].Id()), Done(block, from + 1, fails))
  {
    var next := Done(block, from + 1, fails);
    assert [] + next == next && ([block[from].Id()] + next)[1..] == next;
  }

  /** Where the steps for one new item can fail: by package, block and position. */
  type Faults = (string, string, nat) -> bool

  function In(faults: Faults, pkg: string, name: string): nat -> bool {
    (i: nat) => faults(pkg, name, i)
  }

  predicate FaultlessAt(block: Block, faults: Faults, pkg: string, name: string) {
    forall i :: 0 <= i < |block| ==> !faults(pkg, name, i)
  }

  ghost predicate Faultless(store: map<string, Package>, faults: Faults) {
    forall p, b :: Has(store, p, b) ==> FaultlessAt(store[p][b], faults, p, b)
  }

  lemma FaultlessMeans(store: map<string, Package>, faults: Faults)
    ensures Faultless(store, faults) <==>
              forall p, b, i :: p in store && b in store[p] && 0 <= i < |store[p][b]| ==> !faults(p, b, i)
  {
    if forall p, b, i :: p in store && b in store[p] && 0 <= i < |store[p][b]| ==> !faults(p, b, i) {
      forall p, b | Has(store, p, b) ensures FaultlessAt(store[p][b], faults, p, b) {
      }
    } else {
      var p, b, i :| p in store && b in store[p] && 0 <= i < |store[p][b]| && faults(p, b, i);
      assert Has(store, p, b) && !FaultlessAt(store[p][b], faults, p, b);
    }
  }

  function Pruned(before: map<string, Package>, to: map<string, Package>, faults: Faults, p: string, b: string): Block {
    RemoveEach(At(before, p, b), Done(At(to, p, b), 0, In(faults, p, b)))
  }

  /** A new resource as it is printed, and what is printed for the old one, if there was one. */
  datatype Shown = Shown(from: Option<Item>, to: Item)

  function ShownAt(shown: map<(string, string), seq<Shown>>, p: string, b: string): seq<Shown> {
    if (p, b) in shown then shown[(p, b)] else []
  }

  /** What is printed for the new items of a block from position from on, each taking out its old one. */
  function Compared(rest: Block, block: Block, from: nat, fails: nat -> bool): seq<Shown>
    requires from <= |block|
    decreases |block| - from
  {
    if from == |block| then []
    else if fails(from) then Compared(rest, block, from + 1, fails)
    else
      [Shown(OldShown(rest, block[from]), block[from])]
      + Compared(RemoveFirst(rest, block[from].Id()), block, from + 1, fails)
  }

  /** The old items of a block and what was printed for it so far. */
  datatype Progress = Progress(rest: Block, shown: seq<Shown>)

  function Taken(progress: Progress, item: Item): Progress {
    Progress(RemoveFirst(progress.rest, item.Id()), progress.shown + [Shown(OldShown(progress.rest, item), item)])
  }

  /** After the new items from position from on were processed in turn. */
  function TakenFrom(progress: Progress, block: Block, from: nat, fails: nat -> bool): Progress
    requires from <= |block|
    decreases |block| - from
  {
    if from == |block| then progress
    else TakenFrom(if fails(from) then progress else Taken(progress, block[from]), block, from + 1, fails)
  }

  lemma {:induction false} TakenRest(progress: Progress, block: Block, from: nat, fails: nat -> bool)
    requires from <= |block|
    ensures TakenFrom(progress, block, from, fails).rest == RemoveEach(progress.rest, Done(block, from, fails))
    decreases |block| - from
  {
    if from < |block| {
      TakenRest(if fails(from) then progress else Taken(progress, block[from]), block, from + 1, fails);
      DoneNext(progress.rest, block, from, fails);
    }
  }

  lemma {:induction false} TakenShown(progress: Progress, block: Block, from: nat, fails: nat -> bool)
    requires from <= |block|
    ensures TakenFrom(progress, block, from, fails).shown == progress.shown + Compared(progress.rest, block, from, fails)
    decreases |block| - from
  {
    if from < |block| {
      TakenShown(if fails(from) then progress else Taken(progress, block[from]), block, from + 1, fails);
    }
  }

  /** What is printed for a block of the new resources. */
  function ComparedAt(before: map<string, Package>, to: map<string, Package>, faults: Faults, p: string, b: string): seq<Shown> {
    Compared(At(before, p, b), At(to, p, b), 0, In(faults, p, b))
  }

  /** A block after all its new resources were processed. */
  function Processed(progress: Progress, to: map<string, Package>, faults: Faults, p: string, b: string): Progress {
    TakenFrom(progress, At(to, p, b), 0, In(faults, p, b))
  }

  lemma ProcessedIs(before: map<string, Package>, shown: seq<Shown>, to: map<string, Package>, faults: Faults, p: string, b: string)
    ensures Processed(Progress(At(before, p, b), shown), to, faults, p, b)
            == Progress(Pruned(before, to, faults, p, b), shown + ComparedAt(before, to, faults, p, b))
  {
    TakenRest(Progress(At(before, p, b), shown), At(to, p, b), 0, In(faults, p, b));
    TakenShown(Progress(At(before, p, b), shown), At(to, p, b), 0, In(faults, p, b));
  }

  class Differ {
    const from: DiffContext
    const to: map<string, Package>
    var shown: map<(string, string), seq<Shown>>  // what was printed of the new resources, by package and block

    constructor (from: DiffContext, to: map<string, Package>)
      ensures this.from == from && this.to == to && shown == map[]
    {
      this.from := from;
      this.to := to;
      shown := map[];
    }

    ghost function Look(p: string, b: string): Progress
      reads this, from
    {
      Progress(At(from.store, p, b), ShownAt(shown, p, b))
    }

    /** Only that block was worked on. */
    twostate predicate Elsewhere(pkg: string, name: string)
      reads this, from
    {
      && (forall p, b :: Has(from.store, p, b) <==> Has(old(from.store), p, b))
      && forall p, b :: (p, b) != (pkg, name) ==> Look(p, b) == old(Look(p, b))
    }

    /** An item is shown beside the old one it has, which is deleted. */
    method TakeOutItem(pkg: string, name: string, item: Item)
      modifies this`shown, from
      ensures Elsewhere(pkg, name) && Look(pkg, name) == Taken(old(Look(pkg, name)), item)
    {
      var before := from.GetStoreItem(pkg, name, item);
      shown := shown[(pkg, name) := ShownAt(shown, pkg, name) + [Shown(before, item)]];
      if before.Some? {
        from.DeleteStoreItem(pkg, name, item.Id());
      }
    }

    /** One block of the new resources. */
    method TakeOut(pkg: string, name: string, faults: Faults) returns (ok: bool)
      requires Has(to, pkg, name)
      modifies this`shown, from
      ensures ok <==> FaultlessAt(to[pkg][name], faults, pkg, name)
      ensures Elsewhere(pkg, name) && Look(pkg, name) == Processed(old(Look(pkg, name)), to, faults, pkg, name)
      ensures At(from.store, pkg, name) == Pruned(old(from.store), to, faults, pkg, name)
      ensures ShownAt(shown, pkg, name) == ShownAt(old(shown), pkg, name) + ComparedAt(old(from.store), to, faults, pkg, name)
    {
      ok := TakeOutBlock(pkg, name, faults);
      ProcessedIs(old(from.store), ShownAt(old(shown), pkg, name), to, faults, pkg, name);
    }

    /** One item of the block, unless it fails. */
    method TakeOutNext(pkg: string, name: string, i: nat, faults: Faults) returns (ok: bool)
      requires Has(to, pkg, name) && i < |to[pkg][name]|
      modifies this`shown, from
      ensures ok <==> !faults(pkg, name, i)
      ensures Elsewhere(pkg, name)
      ensures TakenFrom(Look(pkg, name), to[pkg][name], i + 1, In(faults, pkg, name))
              == TakenFrom(old(Look(pkg, name)), to[pkg][name], i, In(faults, pkg, name))
    {
      ok := !faults(pkg, name, i);
      if ok {
        TakeOutItem(pkg, name, to[pkg][name][i]);
      }
    }

    method TakeOutBlock(pkg: string, name: string, faults: Faults) returns (ok: bool)
      requires Has(to, pkg, name)
      modifies this`shown, from
      ensures ok <==> FaultlessAt(to[pkg][name], faults, pkg, name)
      ensures Elsewhere(pkg, name) && Look(pkg, name) == Processed(old(Look(pkg, name)), to, faults, pkg, name)
    {
      var block := to[pkg][name];
      ok := true;
      for i := 0 to |block|
        invariant ok <==> forall j :: 0 <= j < i ==> !faults(pkg, name, j)
        invariant Elsewhere(pkg, name)
        invariant TakenFrom(Look(pkg, name), block, i, In(faults, pkg, name)) == Processed(old(Look(pkg, name)), to, faults, pkg, name)
      {
        var fine := TakeOutNext(pkg, name, i, faults);
        ok := ok && fine;
      }
    }

    /**
     * Takes the new resources out of the old ones, whatever the order of packages and blocks. What fails on the way, in
     * the comparison or when the remainder is printed, only shows in the result.
     */
    method Run(faults: Faults, remainderFails: bool) returns (ok: bool)
      modifies this`shown, from
      ensures ok <==> Faultless(to, faults) && !remainderFails
      ensures ok <==>
                && !remainderFails
                && forall p, b, i :: p in to && b in to[p] && 0 <= i < |to[p][b]| ==> !faults(p, b, i)
      ensures forall p, b :: Has(from.store, p, b) <==> Has(old(from.store), p, b)
      ensures forall p, b :: At(from.store, p, b) == Pruned(old(from.store), to, faults, p, b)
      ensures forall p, b :: ShownAt(shown, p, b) == ShownAt(old(shown), p, b) + ComparedAt(old(from.store), to, faults, p, b)
    {
      ok := TakeOutAll(faults);
      ok := ok && !remainderFails;
      assert Faultless(to, faults) <==>
          forall p, b, i :: p in to && b in to[p] && 0 <= i < |to[p][b]| ==> !faults(p, b, i) by {
        FaultlessMeans(to, faults);
      }
      forall p, b
        ensures At(from.store, p, b) == Pruned(old(from.store), to, faults, p, b)
        ensures ShownAt(shown, p, b) == ShownAt(old(shown), p, b) + ComparedAt(old(from.store), to, faults, p, b)
      {
        assert Look(p, b) == Processed(old(Look(p, b)), to, faults, p, b);
        ProcessedIs(old(from.store), ShownAt(old(shown), p, b), to, faults, p, b);
      }
    }

    method TakeOutAll(faults: Faults) returns (ok: bool)
      modifies this`shown, from
      ensures ok <==> Faultless(to, faults)
      ensures forall p, b :: Has(from.store, p, b) <==> Has(old(from.store), p, b)
      ensures forall p, b :: Look(p, b) == Processed(old(Look(p, b)), to, faults, p, b)
    {
      ok := true;
      var blocks := set p, b | p in to && b in to[p] :: (p, b);
      ghost var all := blocks;
      while blocks != {}
        invariant blocks <= all
        invariant ok <==> forall p, b :: (p, b) in all - blocks ==> FaultlessAt(to[p][b], faults, p, b)
        invariant forall p, b :: Has(from.store, p, b) <==> Has(old(from.store), p, b)
        invariant forall p, b :: (p, b) in blocks ==> Look(p, b) == old(Look(p, b))
        invariant forall p, b :: (p, b) !in blocks ==> Look(p, b) == Processed(old(Look(p, b)), to, faults, p, b)
        decreases |blocks|
      {
        var block :| block in blocks;
        blocks := blocks - {block};
        var fine := TakeOutBlock(block.0, block.1, faults);
        ok := ok && fine;
      }
    }
  }

  // ---------------------------------------------------------------- what is left

  lemma {:induction false} RemoveFirstCount(block: Block, id: Id, x: Id)
    ensures Count(Ids(RemoveFirst(block, id)), x)
            == if x == id && Count(Ids(block), x) > 0 then Count(Ids(block), x) - 1 else Count(Ids(block), x)
  {
    if block != [] {
      assert Ids(block) == [block[0].Id()] + Ids(block[1..]);
      if block[0].Id() != id {
        RemoveFirstCount(block[1..], id, x);
        assert Ids(RemoveFirst(block, id)) == [block[0].Id()] + Ids(RemoveFirst(block[1..], id));
      }
    }
  }

  lemma {:induction false} RemoveEachCount(block: Block, ids: seq<Id>, x: Id)
    ensures Count(Ids(RemoveEach(block, ids)), x)
            == if Count(Ids(block), x) > Count(ids, x) then Count(Ids(block), x) - Count(ids, x) else 0
    decreases |ids|
  {
    if ids != [] {
      RemoveFirstCount(block, ids[0], x);
      RemoveEachCount(RemoveFirst(block, ids[0]), ids[1..], x);
      assert ids == [ids[0]] + ids[1..];
    }
  }

  lemma {:induction false} RemoveFirstUnmatched(block: Block, id: Id, ids: seq<Id>)
    requires id in ids
    ensures Unmatched(RemoveFirst(block, id), ids) == Unmatched(block, ids)
  {
    if block != [] && block[0].Id() != id {
      RemoveFirstUnmatched(block[1..], id, ids);
      assert RemoveFirst(block, id)[1..] == RemoveFirst(block[1..], id);
    }
  }

  lemma {:induction false} RemoveEachUnmatched(block: Block, some: seq<Id>, ids: seq<Id>)
    requires forall id :: id in some ==> id in ids
    ensures Unmatched(RemoveEach(block, some), ids) == Unmatched(block, ids)
    decreases |some|
  {
    if some != [] {
      RemoveFirstUnmatched(block, some[0], ids);
      RemoveEachUnmatched(RemoveFirst(block, some[0]), some[1..], ids);
    }
  }

  lemma {:induction false} UnmatchedIs(block: Block, ids: seq<Id>)
    ensures forall item :: item in Unmatched(block, ids) ==> item.Id() !in ids
    ensures (forall item :: item in block ==> item.Id() !in ids) ==> Unmatched(block, ids) == block
  {
    if block != [] {
      UnmatchedIs(block[1..], ids);
    }
  }

  lemma {:induction false} AllMatched(block: Block, ids: seq<Id>)
    requires forall k :: 0 <= k < |block| ==> block[k].Id() in ids
    ensures Unmatched(block, ids) == []
  {
    if block != [] {
      AllMatched(block[1..], ids);
    }
  }

  lemma NothingLeft(block: Block, ids: seq<Id>, id: Id)
    requires RemoveEach(block, ids) == Unmatched(block, ids) && id in ids
    ensures Count(Ids(block), id) <= Count(ids, id)
  {
    var rest := RemoveEach(block, ids);
    UnmatchedIs(block, ids);
    assert id !in Ids(rest) by {
      assert forall k :: 0 <= k < |rest| ==> Ids(rest)[k] == rest[k].Id() && rest[k] in rest;
    }
    RemoveEachCount(block, ids, id);
  }

  lemma NothingMatches(block: Block, ids: seq<Id>)
    requires forall id :: id in ids ==> Count(Ids(block), id) <= Count(ids, id)
    ensures RemoveEach(block, ids) == Unmatched(block, ids)
  {
    var rest := RemoveEach(block, ids);
    forall k | 0 <= k < |rest| ensures rest[k].Id() !in ids {
      RemoveEachCount(block, ids, rest[k].Id());
      assert Ids(rest)[k] in Ids(rest);
    }
    RemoveEachUnmatched(block, ids, ids);
    UnmatchedIs(rest, ids);
  }

  /** Each new item takes out one old one, so the prune set is exact when no identity is more frequent among the old than the new. */
  lemma PruneExactIff(block: Block, ids: seq<Id>)
    ensures RemoveEach(block, ids) == Unmatched(block, ids)
            <==> forall id :: id in ids ==> Count(Ids(block), id) <= Count(ids, id)
  {
    if RemoveEach(block, ids) == Unmatched(block, ids) {
      forall id | id in ids ensures Count(Ids(block), id) <= Count(ids, id) {
        NothingLeft(block, ids, id);
      }
    }
    if forall id :: id in ids ==> Count(Ids(block), id) <= Count(ids, id) {
      NothingMatches(block, ids);
    }
  }

  lemma {:induction false} UniqueCount(block: Block, id: Id)
    requires Unique(block)
    ensures Count(Ids(block), id) <= 1
  {
    if block != [] {
      assert forall i, j :: 0 <= i < j < |block| - 1 ==> block[1..][i] == block[i + 1] && block[1..][j] == block[j + 1];
      UniqueCount(block[1..], id);
      assert Ids(block) == [block[0].Id()] + Ids(block[1..]);
      assert forall k :: 0 <= k < |block| - 1 ==> Ids(block[1..])[k] == block[k + 1].Id();
    }
  }

  lemma {:induction false} DoneIsAll(block: Block, from: nat, fails: nat -> bool)
    requires from <= |block| && forall i :: from <= i < |block| ==> !fails(i)
    ensures Done(block, from, fails) == Ids(block)[from..]
    decreases |block| - from
  {
    if from < |block| {
      DoneIsAll(block, from + 1, fails);
    }
  }

  /**
   * After a run without error over blocks that name no item twice, the old store holds exactly the items that no new
   * item of the same package, block, namespace and name replaces, in their order.
   */
  lemma PruneSet(before: map<string, Package>, to: map<string, Package>, faults: Faults, p: string, b: string)
    requires Faultless(to, faults) && Unique(At(before, p, b))
    ensures Pruned(before, to, faults, p, b) == Unmatched(At(before, p, b), Ids(At(to, p, b)))
  {
    var ids := Ids(At(to, p, b));
    DoneIsAll(At(to, p, b), 0, In(faults, p, b));
    assert ids[0..] == ids;
    forall id | id in ids ensures Count(Ids(At(before, p, b)), id) <= Count(ids, id) {
      UniqueCount(At(before, p, b), id);
    }
    PruneExactIff(At(before, p, b), ids);
  }

  lemma {:induction false} UnmatchedAre(block: Block, ids: seq<Id>, item: Item)
    ensures item in Unmatched(block, ids) <==> item in block && (item.namespace, item.name) !in ids
  {
    if block != [] {
      UnmatchedAre(block[1..], ids, item);
    }
  }

  /** What remains to be pruned keeps its order. */
  lemma {:induction false} UnmatchedInOrder(a: Block, b: Block, ids: seq<Id>)
    ensures Unmatched(a + b, ids) == Unmatched(a, ids) + Unmatched(b, ids)
  {
    if a == [] {
      assert a + b == b;
    } else {
      assert (a + b)[1..] == a[1..] + b;
      UnmatchedInOrder(a[1..], b, ids);
    }
  }

  lemma {:induction false} DoneAre(block: Block, from: nat, fails: nat -> bool, id: Id)
    requires from <= |block|
    ensures id in Done(block, from, fails) <==>
              exists i :: from <= i < |block| && !fails(i) && (block[i].namespace, block[i].name) == id
    decreases |block| - from
  {
    if from < |block| {
      DoneAre(block, from + 1, fails, id);
    }
  }

  /** With errors: an old item of a block that names no item twice is left exactly when every new item of its namespace
      and name failed. */
  lemma LeftIff(before: map<string, Package>, to: map<string, Package>, faults: Faults, p: string, b: string, item: Item)
    requires p in before && b in before[p] && Unique(before[p][b])
    ensures item in Pruned(before, to, faults, p, b) <==>
              && item in before[p][b]
              && (p in to && b in to[p] ==>
                    forall i :: 0 <= i < |to[p][b]| && to[p][b][i].namespace == item.namespace && to[p][b][i].name == item.name ==>
                                  faults(p, b, i))
  {
    var done := Done(At(to, p, b), 0, In(faults, p, b));
    forall id | id in done ensures Count(Ids(before[p][b]), id) <= Count(done, id) {
      UniqueCount(before[p][b], id);
    }
    PruneExactIff(before[p][b], done);
    UnmatchedAre(before[p][b], done, item);
    DoneAre(At(to, p, b), 0, In(faults, p, b), (item.namespace, item.name));
  }

  /** Two old items of one identity and one new: the second is left to be pruned although it is still wanted. */
  lemma DuplicateIsPruned(item: Item)
    ensures RemoveEach([item, item], Ids([item])) == [item]
    ensures Unmatched([item, item], Ids([item])) == []
  {
    assert Ids([item]) == [item.Id()];
    assert Ids([item])[0] == item.Id();
    AllMatched([item, item], Ids([item]));
  }

  // ---------------------------------------------------------------- what is shown

  predicate SameBefore(c: Shown) {
    c.from.None? || c.from == Some(c.to)
  }

  /** A change is never shown: both sides of a comparison are equal, or there was nothing before. */
  lemma {:induction false} ComparedAreEqual(rest: Block, block: Block, from: nat, fails: nat -> bool)
    requires from <= |block|
    ensures forall c :: c in Compared(rest, block, from, fails) ==> SameBefore(c)
    decreases |block| - from
  {
    if from < |block| {
      ComparedAreEqual(rest, block, from + 1, fails);
      ComparedAreEqual(RemoveFirst(rest, block[from].Id()), block, from + 1, fails);
    }
  }

  lemma {:induction false} ComparedAll(rest: Block, block: Block, from: nat, fails: nat -> bool)
    requires from <= |block| && forall i :: from <= i < |block| ==> !fails(i)
    ensures |Compared(rest, block, from, fails)| == |block| - from
    decreases |block| - from
  {
    if from < |block| {
      ComparedAll(RemoveFirst(rest, block[from].Id()), block, from + 1, fails);
    }
  }

  lemma MoreThanBefore(rest: Block, id: Id, ids: seq<Id>, x: Id)
    ensures Count(Ids(RemoveFirst(rest, id)), x) > Count(ids, x) <==> Count(Ids(rest), x) > Count([id] + ids, x)
  {
    RemoveFirstCount(rest, id, x);
    assert Count([id] + ids, x) == (if x == id then 1 else 0) + Count(ids, x);
  }

  lemma ComparedNext(rest: Block, block: Block, from: nat, fails: nat -> bool)
    requires from < |block| && !fails(from)
    ensures var id := block[from].Id();
            var shown, tail := Compared(rest, block, from, fails), Compared(RemoveFirst(rest, id), block, from + 1, fails);
            && |shown| == 1 + |tail|
            && shown[0] == Shown(if Count(Ids(rest), id) > 0 then Some(block[from]) else None, block[from])
            && forall k :: 0 < k < |shown| ==> shown[k] == tail[k - 1]
  {
    assert Count(Ids(rest), block[from].Id()) > 0 <==> block[from].Id() in Ids(rest);
  }

  lemma IdsFrom(block: Block, from: nat, i: nat)
    requires from < i < |block|
    ensures Ids(block)[from..i] == [block[from].Id()] + Ids(block)[from + 1..i]
  {
  }

  /** What is printed without errors: every new item, in order, and as one that was there as long as there are old items of
      its namespace and name that no earlier one took out. */
  lemma {:induction false} ComparedAre(rest: Block, block: Block, from: nat, fails: nat -> bool, i: nat)
    requires from <= i < |block| && forall k :: from <= k < |block| ==> !fails(k)
    ensures var shown, id := Compared(rest, block, from, fails), (block[i].namespace, block[i].name);
            && |shown| == |block| - from
            && shown[i - from].to == block[i]
            && shown[i - from].from == if multiset(Ids(rest))[id] > multiset(Ids(block)[from..i])[id] then Some(block[i]) else None
    decreases |block| - from
  {
    ComparedAll(rest, block, from, fails);
    ComparedNext(rest, block, from, fails);
    if i > from {
      ComparedAre(RemoveFirst(rest, block[from].Id()), block, from + 1, fails, i);
      IdsFrom(block, from, i);
      MoreThanBefore(rest, block[from].Id(), Ids(block)[from + 1..i], block[i].Id());
    }
  }

  function FirstOf(block: Block, id: Id): Option<Item> {
    if block == [] then None else if block[0].Id() == id then Some(block[0]) else FirstOf(block[1..], id)
  }

  /** The comparison that is meant: each new item beside the old one it takes out. */
  function Differences(rest: Block, block: Block, from: nat, fails: nat -> bool): seq<Shown>
    requires from <= |block|
    decreases |block| - from
  {
    if from == |block| then []
    else if fails(from) then Differences(rest, block, from + 1, fails)
    else
      [Shown(FirstOf(rest, block[from].Id()), block[from])]
      + Differences(RemoveFirst(rest, block[from].Id()), block, from + 1, fails)
  }

  lemma {:induction false} FirstOfIff(block: Block, id: Id)
    ensures FirstOf(block, id).Some? <==> id in Ids(block)
  {
    if block != [] {
      assert Ids(block) == [block[0].Id()] + Ids(block[1..]);
      FirstOfIff(block[1..], id);
    }
  }

  /** What is printed is what is meant exactly when no resource that stays was changed. */
  lemma {:induction false} ShownAsMeantIff(rest: Block, block: Block, from: nat, fails: nat -> bool)
    requires from <= |block|
    ensures Compared(rest, block, from, fails) == Differences(rest, block, from, fails)
            <==> forall c :: c in Differences(rest, block, from, fails) ==> SameBefore(c)
    decreases |block| - from
  {
    ComparedAreEqual(rest, block, from, fails);
    if from < |block| {
      if fails(from) {
        ShownAsMeantIff(rest, block, from + 1, fails);
      } else {
        var next := RemoveFirst(rest, block[from].Id());
        FirstOfIff(rest, block[from].Id());
        ShownAsMeantIff(next, block, from + 1, fails);
        OneMoreShown(Shown(OldShown(rest, block[from]), block[from]), Shown(FirstOf(rest, block[from].Id()), block[from]),
                     Compared(next, block, from + 1, fails), Differences(next, block, from + 1, fails));
      }
    }
  }

  lemma OneMoreShown(c: Shown, d: Shown, cs: seq<Shown>, ds: seq<Shown>)
    requires cs == ds <==> forall x :: x in ds ==> SameBefore(x)
    requires c.to == d.to && SameBefore(c) && (c.from.Some? <==> d.from.Some?)
    ensures [c] + cs == [d] + ds <==> forall x :: x in [d] + ds ==> SameBefore(x)
  {
    assert ([c] + cs)[0] == c && ([d] + ds)[0] == d && ([c] + cs)[1..] == cs && ([d] + ds)[1..] == ds;
    assert forall x :: x in [d] + ds <==> x == d || x in ds;
    assert c == d <==> SameBefore(d);
  }

  /** A changed resource is printed as if it had always been what it is now. */
  lemma ChangeIsHidden(before: Item, after: Item, fails: nat -> bool)
    requires before.Id() == after.Id() && before != after && !fails(0)
    ensures Compared([before], [after], 0, fails) == [Shown(Some(after), after)]
    ensures Differences([before], [after], 0, fails) == [Shown(Some(before), after)]
  {
    assert Ids([before])[0] == after.Id();
    assert Compared([], [after], 1, fails) == [] && Differences([], [after], 1, fails) == [];
  }
}
