/** The loop instances of a block and the slice they write into (block_exec_handler.go, vardata.go, blockdata.go). */
module Instances {
  import opened Wrappers

  // ---------------------------------------------------------------- loop items

  datatype Any = Null | Number(number: int) | Data(data: string)

  datatype Item = Item(key: Any, val: Any)

  /** What rendering a loop expression gives; Missing stands for a key that is not found. */
  datatype Rendered =
    | Failed
    | Missing
    | List(values: seq<Any>)
    | Entries(entries: map<Any, Any>)
    | Whole(whole: int)
    | Text(text: string, parsed: Option<int>)
    | Single(value: Any)

  /** The loop expressions of a block, rendered; an empty one is None. */
  datatype Attributes = Attributes(forEach: Option<Rendered>, count: Option<Rendered>)

  function Max(a: int, b: int): int {
    if a < b then b else a
  }

  /** How many instances a block has; None when its loop expression is in error. */
  function Instances(attr: Attributes): Option<nat> {
    match attr.forEach
    case Some(Failed) => None
    case Some(List(values)) => Some(Max(1, |values|))
    case Some(Entries(entries)) => Some(Max(1, |entries|))
    case Some(_) => Some(1)
    case None =>
      match attr.count
      case None => Some(1)
      case Some(Missing) => Some(0)
      case Some(Whole(c)) => Some(Max(0, c))
      case Some(Text(_, Some(c))) => Some(Max(0, c))
      case Some(_) => None
  }

  /** The keys are exactly the indices below n. */
  ghost predicate Indexed(items: map<int, Item>, n: nat) {
    forall k: int :: k in items <==> 0 <= k < n
  }

  method InitItems(i: int) returns (items: map<int, Item>)
    ensures Indexed(items, Max(0, i))
    ensures forall k :: k in items ==> items[k] == Item(Number(k), Number(k))
  {
    items := map[];
    var idx := 0;
    while idx < i
      invariant 0 <= idx <= Max(0, i)
      invariant Indexed(items, idx)
      invariant forall k :: k in items ==> items[k] == Item(Number(k), Number(k))
    {
      items := items[idx := Item(Number(idx), Number(idx))];
      idx := idx + 1;
    }
  }

  lemma NoItems(items: map<int, Item>)
    requires Indexed(items, 0)
    ensures items == map[]
  {
    assert forall k :: k in items <==> false;
  }

  lemma OneItem(items: map<int, Item>)
    ensures Indexed(items, 1) ==> items == map[0 := items[0]]
  {
    if Indexed(items, 1) {
      assert forall k :: k in items <==> k == 0;
    }
  }

  method AddList(first: map<int, Item>, values: seq<Any>) returns (items: map<int, Item>)
    requires Indexed(first, 1)
    ensures Indexed(items, Max(1, |values|))
    ensures forall k :: 0 <= k < |values| ==> items[k] == Item(Number(k), values[k])
    ensures values == [] ==> items == first
  {
    items := first;
    for k := 0 to |values|
      invariant Indexed(items, Max(1, k))
      invariant k == 0 ==> items == first
      invariant forall j :: 0 <= j < k ==> items[j] == Item(Number(j), values[j])
    {
      items := items[k := Item(Number(k), values[k])];
    }
  }

  /** Every entry gets an index, in the order in which the map is walked. */
  method AddEntries(first: map<int, Item>, entries: map<Any, Any>) returns (items: map<int, Item>)
    requires Indexed(first, 1)
    ensures Indexed(items, Max(1, |entries|))
    ensures forall key :: key in entries ==> exists k :: 0 <= k < |entries| && items[k] == Item(key, entries[key])
    ensures forall k :: 0 <= k < |entries| ==> items[k].key in entries && items[k].val == entries[items[k].key]
    ensures entries == map[] ==> items == first
  {
    items := first;
    var idx := 0;
    var keys := entries.Keys;
    while keys != {}
      invariant keys <= entries.Keys && idx == |entries| - |keys|
      invariant Indexed(items, Max(1, idx))
      invariant forall key :: key in entries.Keys - keys ==> exists k :: 0 <= k < idx && items[k] == Item(key, entries[key])
      invariant forall k :: 0 <= k < idx ==> items[k].key in entries && items[k].val == entries[items[k].key]
      invariant idx == 0 ==> items == first
      decreases |keys|
    {
      ghost var before := items;
      var key :| key in keys;
      keys := keys - {key};
      items := items[idx := Item(key, entries[key])];
      idx := idx + 1;
      forall x | x in entries.Keys - keys
        ensures exists k :: 0 <= k < idx && items[k] == Item(x, entries[x])
      {
        if x == key {
          assert items[idx - 1] == Item(x, entries[x]);
        } else {
          var k :| 0 <= k < idx - 1 && before[k] == Item(x, entries[x]);
          assert items[k] == Item(x, entries[x]);
        }
      }
    }
  }

  /** The items of a block, keyed by index: a loop over an empty list still has one, a count below one has none. */
  method GetLoopItems(attr: Attributes) returns (isForEach: bool, r: Option<map<int, Item>>)
    ensures isForEach <==> attr.forEach.Some?
    ensures r.Some? <==> Instances(attr).Some?
    ensures r.Some? ==> Indexed(r.value, Instances(attr).value)
    ensures match attr.forEach
            case Some(Failed) => r == None
            case Some(Missing) => r == Some(map[0 := Item(Number(0), Null)])
            case Some(Whole(whole)) => r == Some(map[0 := Item(Number(0), Number(whole))])
            case Some(Text(text, _)) => r == Some(map[0 := Item(Number(0), Data(text))])
            case Some(Single(value)) => r == Some(map[0 := Item(Number(0), value)])
            case Some(List(values)) =>
              if values == [] then r == Some(map[0 := Item(Number(0), Number(0))])
              else
                && r.Some? && (forall k :: k in r.value <==> 0 <= k < |values|)
                && forall k :: 0 <= k < |values| ==> r.value[k] == Item(Number(k), values[k])
            case Some(Entries(entries)) =>
              if entries == map[] then r == Some(map[0 := Item(Number(0), Number(0))])
              else
                && r.Some? && (forall k :: k in r.value <==> 0 <= k < |entries|)
                && (forall k :: 0 <= k < |entries| ==>
                                  r.value[k].key in entries && r.value[k].val == entries[r.value[k].key])
                && forall key :: key in entries ==> exists k :: 0 <= k < |entries| && r.value[k] == Item(key, entries[key])
            case None => true
    ensures attr.forEach.None? ==>
              match attr.count
              case None => r == Some(map[0 := Item(Number(0), Number(0))])
              case Some(Missing) => r == Some(map[])
              case Some(Whole(c)) =>
                && r.Some? && (forall k :: k in r.value <==> 0 <= k < c)
                && forall k :: k in r.value ==> r.value[k] == Item(Number(k), Number(k))
              case Some(Text(_, Some(c))) =>
                && r.Some? && (forall k :: k in r.value <==> 0 <= k < c)
                && forall k :: k in r.value ==> r.value[k] == Item(Number(k), Number(k))
              case Some(_) => r == None
  {
    isForEach := attr.forEach.Some?;
    r := None;
    var items := InitItems(1);
    OneItem(items);
    if isForEach {
      match attr.forEach.value {
        case Failed =>
          return;
        case List(values) =>
          items := AddList(items, values);
        case Entries(entries) =>
          items := AddEntries(items, entries);
        case Missing =>
          items := items[0 := Item(Number(0), Null)];
        case Whole(whole) =>
          items := items[0 := Item(Number(0), Number(whole))];
        case Text(text, _) =>
          items := items[0 := Item(Number(0), Data(text))];
        case Single(value) =>
          items := items[0 := Item(Number(0), value)];
      }
      OneItem(items);
    } else if attr.count.Some? {
      match attr.count.value {
        case Missing =>
          items := InitItems(0);
          NoItems(items);
        case Whole(c) =>
          items := InitItems(c);
        case Text(_, Some(c)) =>
          items := InitItems(c);
        case _ =>
          return;
      }
    }
    r := Some(items);
  }

  // ---------------------------------------------------------------- the slice

  type Slots<T> = seq<Option<T>>

  /** A slice of another length is replaced by an empty one. */
  function Sized<T>(slots: Slots<T>, total: nat): Slots<T> {
    if |slots| == total then slots else seq(total, _ => None)
  }

  function Inserted<T>(slots: Slots<T>, total: nat, pos: nat, data: T): Slots<T>
    requires pos < total
  {
    Sized(slots, total)[pos := Some(data)]
  }

  datatype Outcome = Stored | Refused | Panicked

  /** What the bounds check of Insert lets through. */
  predicate PassesCheck(length: nat, pos: int) {
    !(pos < 0 || pos > length)
  }

  /** How an insert ends: the slice then has as many slots as there are instances. */
  function InsertOutcome(total: nat, pos: int): Outcome {
    if !PassesCheck(total, pos) then Refused else if pos < total then Stored else Panicked
  }

  /** The write is out of range although the check was passed exactly at the total. */
  lemma PanicsIff(total: nat, pos: int)
    ensures InsertOutcome(total, pos) == Panicked <==> pos == total
    ensures PassesCheck(total, pos) && !(0 <= pos < total) <==> pos == total
  {
  }

  const DUMMY_KEY: string := "BamBoozle"

  function SlotsOf<T>(entries: map<string, Slots<T>>, key: string): Slots<T> {
    if key in entries then entries[key] else []
  }

  /** The variable data of a block: a slice per key. */
  class VarData<T(0)> {
    var entries: map<string, Slots<T>>

    /** Stores data at pos in the slice of the key, which is replaced first if it has another length. The bounds check lets
        the position just past the end through, and there the write panics. */
    method Insert(key: string, total: nat, pos: int, data: T) returns (outcome: Outcome)
      modifies this
      ensures outcome == InsertOutcome(total, pos)
      ensures outcome == (if 0 <= pos < total then Stored else if pos == total then Panicked else Refused)
      ensures entries.Keys == old(entries).Keys + {key} && |entries[key]| == total
      ensures forall k :: k in old(entries) && k != key ==> entries[k] == old(entries)[k]
      ensures forall i :: 0 <= i < total ==>
                            entries[key][i] == if i == pos then Some(data)
                                               else if key in old(entries) && |old(entries)[key]| == total then old(entries)[key][i]
                                               else None
      ensures entries == old(entries)[key := if outcome == Stored then Inserted(SlotsOf(old(entries), key), total, pos, data)
                                             else Sized(SlotsOf(old(entries), key), total)]
    {
      if key !in entries || |entries[key]| != total {
        entries := entries[key := seq(total, _ => None)];
      }
      if !PassesCheck(|entries[key]|, pos) {
        return Refused;
      }
      if pos == |entries[key]| {
        return Panicked;  // the write is out of range
      }
      entries := entries[key := entries[key][pos := Some(data)]];
      return Stored;
    }

    /** The check of the index against the total makes that insert safe; what the insert reports is dropped. */
    method UpdateVarStore(total: nat, index: int, data: T) returns (outcome: Outcome)
      modifies this
      ensures outcome != Panicked && (outcome == Refused <==> index >= total)
      ensures outcome == Refused ==> entries == old(entries)
      ensures index < total ==> entries.Keys == old(entries).Keys + {DUMMY_KEY} && |entries[DUMMY_KEY]| == total
      ensures forall k :: k in old(entries) && k != DUMMY_KEY ==> k in entries && entries[k] == old(entries)[k]
      ensures 0 <= index < total ==> entries[DUMMY_KEY][index] == Some(data)
      ensures forall i :: 0 <= i < total && i != index && index < total ==>
                            entries[DUMMY_KEY][i] ==
                            if DUMMY_KEY in old(entries) && |old(entries)[DUMMY_KEY]| == total then old(entries)[DUMMY_KEY][i]
                            else None
      ensures outcome == Stored && index >= 0 ==>
                entries == old(entries)[DUMMY_KEY := Inserted(SlotsOf(old(entries), DUMMY_KEY), total, index, data)]
      ensures outcome == Stored && index < 0 ==>
                entries == old(entries)[DUMMY_KEY := Sized(SlotsOf(old(entries), DUMMY_KEY), total)]
    {
      if index >= total {
        return Refused;
      }
      var inserted := Insert(DUMMY_KEY, total, index, data);
      outcome := if inserted == Panicked then Panicked else Stored;
    }
  }

  predicate Below(order: seq<nat>, n: nat) {
    forall k :: 0 <= k < |order| ==> order[k] < n
  }

  /** The slice after inserts of the instances in some order. */
  function InsertAll<T>(slots: Slots<T>, results: seq<T>, order: seq<nat>): Slots<T>
    requires Below(order, |results|)
    decreases |order|
  {
    if order == [] then slots
    else
      var last := order[|order| - 1];
      Inserted(InsertAll(slots, results, order[..|order| - 1]), |results|, last, results[last])
  }

  /** Whatever the order, an instance's slot holds its result, and other slots what the slice had if it fits. */
  lemma {:induction false} InsertsAnyOrder<T>(slots: Slots<T>, results: seq<T>, order: seq<nat>, i: nat)
    requires Below(order, |results|)
    requires order != [] && i < |results|
    ensures |InsertAll(slots, results, order)| == |results|
    ensures InsertAll(slots, results, order)[i] ==
            if i in order then Some(results[i]) else if |slots| == |results| then slots[i] else None
    decreases |order|
  {
    var rest := order[..|order| - 1];
    assert order == rest + [order[|order| - 1]];
    if rest != [] {
      InsertsAnyOrder(slots, results, rest, i);
    }
  }

  // ---------------------------------------------------------------- runInstances

  /** One call: per instance its result, whether it stores it, and whether it returns an error. */
  datatype Call<T> = Call(before: Slots<T>, results: seq<T>, stores: seq<bool>, errs: seq<bool>) {
    predicate Valid() {
      |results| == |stores| == |errs|
    }

    function N(): nat {
      |results|
    }
  }

  datatype Phase = Running | Ran | Sent

  /**
   * The instances' phases, the slice and the order of inserts, the error channel as the instances whose outcome it
   * holds, the outcomes collected, and whether the channel is closed.
   */
  datatype State<T> = State(
    phase: seq<Phase>, slots: Slots<T>, order: seq<nat>, queue: seq<nat>, collected: set<nat>, failed: bool, closed: bool)

  datatype Step = Execute(i: nat) | Send(i: nat) | Close | Receive

  function Start<T>(c: Call<T>): State<T> {
    State(seq(c.N(), _ => Running), c.before, [], [], {}, false, false)
  }

  predicate WellFormed<T>(c: Call<T>, s: State<T>) {
    c.Valid() && |s.phase| == c.N() && Below(s.queue, c.N()) && Below(s.order, c.N())
  }

  predicate Enabled<T>(c: Call<T>, s: State<T>, step: Step)
    requires WellFormed(c, s)
  {
    match step
    case Execute(i) => i < c.N() && s.phase[i] == Running
    case Send(i) => i < c.N() && s.phase[i] == Ran && |s.queue| < c.N()
    case Close => !s.closed && forall i :: 0 <= i < c.N() ==> s.phase[i] == Sent
    case Receive => s.queue != []
  }

  function Apply<T>(c: Call<T>, s: State<T>, step: Step): State<T>
    requires WellFormed(c, s) && Enabled(c, s, step)
  {
    match step
    case Execute(i) =>
      if c.stores[i] then
        s.(phase := s.phase[i := Ran], slots := Inserted(s.slots, c.N(), i, c.results[i]), order := s.order + [i])
      else s.(phase := s.phase[i := Ran])
    case Send(i) => s.(phase := s.phase[i := Sent], queue := s.queue + [i])
    case Close => s.(closed := true)
    case Receive =>
      s.(queue := s.queue[1..], collected := s.collected + {s.queue[0]}, failed := s.failed || c.errs[s.queue[0]])
  }

  /** The caller has read the closed channel to its end. */
  predicate Returned<T>(s: State<T>) {
    s.closed && s.queue == []
  }

  ghost predicate ChannelInv<T>(c: Call<T>, s: State<T>)
    requires WellFormed(c, s)
  {
    && (forall i, j :: 0 <= i < j < |s.queue| ==> s.queue[i] != s.queue[j])
    && (forall i :: i in s.queue ==> i !in s.collected)
    && (forall i :: i in s.collected ==> i < c.N())
    && (forall i :: 0 <= i < c.N() ==> (i in s.queue || i in s.collected <==> s.phase[i] == Sent))
    && (s.failed <==> exists i :: 0 <= i < c.N() && i in s.collected && c.errs[i])
    && (s.closed ==> forall i :: 0 <= i < c.N() ==> s.phase[i] == Sent)
  }

  ghost predicate SliceInv<T>(c: Call<T>, s: State<T>)
    requires WellFormed(c, s)
  {
    && (forall i :: 0 <= i < c.N() ==> (i in s.order <==> c.stores[i] && s.phase[i] != Running))
    && s.slots == InsertAll(c.before, c.results, s.order)
  }

  ghost predicate Inv<T>(c: Call<T>, s: State<T>) {
    WellFormed(c, s) && ChannelInv(c, s) && SliceInv(c, s)
  }

  lemma SliceStep<T>(c: Call<T>, s: State<T>, step: Step)
    requires Inv(c, s) && Enabled(c, s, step)
    ensures WellFormed(c, Apply(c, s, step)) && SliceInv(c, Apply(c, s, step))
  {
    if step.Execute? && c.stores[step.i] {
      assert (s.order + [step.i])[..|s.order|] == s.order;
    }
  }

  lemma ChannelReceive<T>(c: Call<T>, s: State<T>)
    requires Inv(c, s) && Enabled(c, s, Receive)
    ensures WellFormed(c, Apply(c, s, Receive)) && ChannelInv(c, Apply(c, s, Receive))
  {
    assert s.queue == [s.queue[0]] + s.queue[1..];
    assert s.queue[0] !in s.queue[1..];
  }

  lemma ChannelSend<T>(c: Call<T>, s: State<T>, i: nat)
    requires Inv(c, s) && Enabled(c, s, Send(i))
    ensures WellFormed(c, Apply(c, s, Send(i))) && ChannelInv(c, Apply(c, s, Send(i)))
  {
    assert i !in s.queue;
  }

  lemma ChannelStep<T>(c: Call<T>, s: State<T>, step: Step)
    requires Inv(c, s) && Enabled(c, s, step)
    ensures WellFormed(c, Apply(c, s, step)) && ChannelInv(c, Apply(c, s, step))
  {
    if step.Receive? {
      ChannelReceive(c, s);
    } else if step.Send? {
      ChannelSend(c, s, step.i);
    }
  }

  /** A run: each state follows from the one before. */
  ghost predicate IsRun<T>(c: Call<T>, states: seq<State<T>>, steps: seq<Step>) {
    && c.Valid() && |states| == |steps| + 1 && states[0] == Start(c)
    && forall k :: 0 <= k < |steps| ==>
                     && WellFormed(c, states[k]) && Enabled(c, states[k], steps[k])
                     && states[k + 1] == Apply(c, states[k], steps[k])
  }

  lemma {:induction false} RunInv<T>(c: Call<T>, states: seq<State<T>>, steps: seq<Step>, k: nat)
    requires IsRun(c, states, steps) && k < |states|
    ensures Inv(c, states[k])
  {
    if k > 0 {
      RunInv(c, states, steps, k - 1);
      SliceStep(c, states[k - 1], steps[k - 1]);
      ChannelStep(c, states[k - 1], steps[k - 1]);
      assert states[k] == Apply(c, states[k - 1], steps[k - 1]);
    }
  }

  lemma {:induction false} DistinctAtMost(queue: seq<nat>, n: nat)
    requires forall i, j :: 0 <= i < j < |queue| ==> queue[i] != queue[j]
    requires Below(queue, n)
    ensures |queue| <= n
  {
    assert |queue| > 0 ==> queue[0] < n;
    if n > 0 {
      if k :| 0 <= k < |queue| && queue[k] == n - 1 {
        DistinctAtMost(queue[..k] + queue[k + 1..], n - 1);
      } else {
        DistinctAtMost(queue, n - 1);
      }
    }
  }

  /** An instance that ran can always send: the channel has room for every outcome. */
  lemma SendsNeverBlock<T>(c: Call<T>, states: seq<State<T>>, steps: seq<Step>, k: nat, i: nat)
    requires IsRun(c, states, steps) && k < |states| && i < c.N()
    requires |states[k].phase| == c.N() && states[k].phase[i] == Ran
    ensures WellFormed(c, states[k]) && Enabled(c, states[k], Send(i)) && !states[k].closed
  {
    RunInv(c, states, steps, k);
    DistinctAtMost(states[k].queue + [i], c.N());
  }

  /** What the caller gets: an error exactly when an instance failed, and every stored result in its own slot. */
  lemma ReturnedResult<T>(c: Call<T>, states: seq<State<T>>, steps: seq<Step>, k: nat)
    requires IsRun(c, states, steps) && k < |states| && Returned(states[k])
    ensures states[k].failed <==> true in c.errs
    ensures (forall i :: 0 <= i < c.N() ==> !c.stores[i]) ==> states[k].slots == c.before
    ensures (exists i :: 0 <= i < c.N() && c.stores[i]) ==>
              && |states[k].slots| == c.N()
              && forall i :: 0 <= i < c.N() ==>
                               states[k].slots[i] ==
                               if c.stores[i] then Some(c.results[i]) else if |c.before| == c.N() then c.before[i] else None
  {
    var s := states[k];
    RunInv(c, states, steps, k);
    assert forall i :: 0 <= i < c.N() ==> i in s.collected;
    assert forall i :: 0 <= i < c.N() ==> (i in s.order <==> c.stores[i]);
    assert forall j :: 0 <= j < |s.order| ==> s.order[j] in s.order;
    assert forall j :: 0 <= j < |s.order| ==> c.stores[s.order[j]];
    if i :| 0 <= i < c.N() && c.stores[i] {
      assert i in s.order;
      forall j | 0 <= j < c.N()
        ensures |s.slots| == c.N()
        ensures s.slots[j] ==
                if c.stores[j] then Some(c.results[j]) else if |c.before| == c.N() then c.before[j] else None
      {
        InsertsAnyOrder(c.before, c.results, s.order, j);
      }
    }
  }

  /** Until it returns, a call can go on. */
  lemma NeverStuck<T>(c: Call<T>, states: seq<State<T>>, steps: seq<Step>, k: nat)
    requires IsRun(c, states, steps) && k < |states| && !Returned(states[k])
    ensures WellFormed(c, states[k]) && exists step :: Enabled(c, states[k], step)
  {
    var s := states[k];
    RunInv(c, states, steps, k);
    if s.queue != [] {
      assert Enabled(c, s, Receive);
    } else if i :| 0 <= i < c.N() && s.phase[i] == Running {
      assert Enabled(c, s, Execute(i));
    } else if i :| 0 <= i < c.N() && s.phase[i] == Ran {
      assert Enabled(c, s, Send(i));
    } else {
      assert Enabled(c, s, Close);
    }
  }

  function Left(phase: Phase): nat {
    match phase
    case Running => 3
    case Ran => 2
    case Sent => 0
  }

  function Todo(phases: seq<Phase>): nat {
    if phases == [] then 0 else Left(phases[0]) + Todo(phases[1..])
  }

  lemma {:induction false} TodoUpdate(phases: seq<Phase>, i: nat, phase: Phase)
    requires i < |phases|
    ensures Todo(phases[i := phase]) == Todo(phases) - Left(phases[i]) + Left(phase)
  {
    if i == 0 {
      assert phases[i := phase][1..] == phases[1..];
    } else {
      assert phases[i := phase][1..] == phases[1..][i - 1 := phase];
      TodoUpdate(phases[1..], i - 1, phase);
    }
  }

  function Measure<T>(s: State<T>): nat {
    Todo(s.phase) + |s.queue| + if s.closed then 0 else 1
  }

  lemma {:induction false} TodoStart(n: nat)
    ensures Todo(seq(n, _ => Running)) == 3 * n
  {
    if n > 0 {
      assert seq(n, _ => Running)[1..] == seq(n - 1, _ => Running);
      TodoStart(n - 1);
    }
  }

  lemma StepSpends<T>(c: Call<T>, s: State<T>, step: Step)
    requires WellFormed(c, s) && Enabled(c, s, step)
    ensures Measure(Apply(c, s, step)) < Measure(s)
  {
    if step.Execute? {
      TodoUpdate(s.phase, step.i, Ran);
    } else if step.Send? {
      TodoUpdate(s.phase, step.i, Sent);
    }
  }

  /** A call ends: no run is longer than three steps per instance and one. */
  lemma {:induction false} RunIsShort<T>(c: Call<T>, states: seq<State<T>>, steps: seq<Step>, k: nat)
    requires IsRun(c, states, steps) && k < |states|
    ensures k + Measure(states[k]) <= 3 * c.N() + 1
  {
    if k == 0 {
      TodoStart(c.N());
    } else {
      RunIsShort(c, states, steps, k - 1);
      StepSpends(c, states[k - 1], steps[k - 1]);
      assert states[k] == Apply(c, states[k - 1], steps[k - 1]);
    }
  }
}
