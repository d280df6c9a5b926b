/** Publishing in front of one shard: the window of recent keys, the writer's queue and the table
    together (`QueueWriter::enqueue` in src/writer.rs, the insert in src/db.rs). A publish that
    the window does not answer is queued and told it is new; the writer stores it later, or finds
    its key taken. */
module Admission {
  import opened Wrappers
  import opened Collections
  import opened MessageStore
  import R = RecentIds

  /** `sending` are publishes past the window whose place in the queue is still awaited; `told`
      are those queued, in order, which were told their id is new; the first `written` of them
      have reached the table. The rest is for the statements: `start` is the table at the
      beginning, `drawn` holds the ids drawn since with the keys they were drawn for, `answered` the
      keys answered from the window with the ids given. */
  datatype Desk = Desk(window: R.Window, sending: set<Item>, told: seq<Item>, written: nat, rows: Rows,
                       start: Rows, drawn: map<string, Option<string>>, answered: set<(string, string)>)

  function Opened(window: R.Window, rows: Rows): Desk { Desk(window, {}, [], 0, rows, rows, map[], {}) }

  const EMPTY_DESK := Opened(R.Window(map[], []), map[])

  datatype Step =
    | Admit(item: Item)
    | Queue(item: Item)
    | Abort(item: Item)
    | Write(now: int)
    | Other(op: Op)

  /** The id is new, as ids drawn at random are. */
  predicate FreshId(d: Desk, id: string) { id !in d.drawn && id !in d.start }

  predicate Known(d: Desk, item: Item) { item.key.Some? && item.key.value in d.window.values }

  predicate Enabled(d: Desk, s: Step) {
    match s
    case Admit(item) => FreshId(d, item.id)
    case Queue(item) => item in d.sending
    case Abort(item) => item in d.sending
    case Write(_) => d.written < |d.told|
    case Other(op) => !op.Enqueue?
  }

  /** A known key is answered from the window, and that is all. */
  function Admitted(d: Desk, item: Item, capacity: nat): Desk {
    var d' := d.(drawn := d.drawn[item.id := item.key]);
    if Known(d, item) then
      d'.(answered := d.answered + {(item.key.value, d.window.values[item.key.value])})
    else if item.key.Some? then
      d'.(window := R.Insert(d.window, item.key.value, item.id, capacity), sending := d.sending + {item})
    else d'.(sending := d.sending + {item})
  }

  function Do(d: Desk, s: Step, capacity: nat): Desk
    requires Enabled(d, s)
  {
    match s
    case Admit(item) => Admitted(d, item, capacity)
    case Queue(item) => d.(sending := d.sending - {item}, told := d.told + [item])
    case Abort(item) =>
      // the writer is gone: the key is forgotten again, and the caller gets an error
      d.(sending := d.sending - {item},
         window := if item.key.Some? then R.Remove(d.window, item.key.value) else d.window)
    case Write(now) => d.(rows := Apply(d.rows, Enqueue(d.told[d.written], now)), written := d.written + 1)
    case Other(op) => d.(rows := Apply(d.rows, op))
  }

  /** The statements of others take effect in between. */
  lemma OthersGoOn(d: Desk, op: Op, capacity: nat)
    requires !op.Enqueue?
    ensures Enabled(d, Other(op)) && Do(d, Other(op), capacity) == d.(rows := Apply(d.rows, op))
  {
  }

  // ----- the beginning ---------------------------------------------------------------------

  predicate HasKey(rows: Rows, key: string, id: string) { id in rows && rows[id].key == Some(key) }

  /** A desk before its first step: what the window knows is in the table. */
  ghost predicate Started(d: Desk) {
    && d == Opened(d.window, d.rows) && KeysUnique(d.rows)
    && forall key :: key in d.window.values ==> HasKey(d.rows, key, d.window.values[key])
  }

  /** The window filled from entries read from the table. */
  function Load(entries: seq<(string, string)>, capacity: nat): R.Window {
    if entries == [] then R.Window(map[], [])
    else
      var (key, id) := entries[|entries| - 1];
      R.Insert(Load(entries[..|entries| - 1], capacity), key, id, capacity)
  }

  lemma {:induction false} LoadStarts(rows: Rows, entries: seq<(string, string)>, capacity: nat)
    requires KeysUnique(rows)
    requires forall i :: 0 <= i < |entries| ==> HasKey(rows, entries[i].0, entries[i].1)
    ensures Started(Opened(Load(entries, capacity), rows))
  {
    if entries != [] {
      var init := entries[..|entries| - 1];
      LoadStarts(rows, init, capacity);
      assert forall key :: key in Load(init, capacity).values ==> HasKey(rows, key, Load(init, capacity).values[key]);
    }
  }

  // ----- what is stored --------------------------------------------------------------------

  /** No earlier publish with the same key was told it is new, and the key was not in the table at
      the beginning. */
  predicate FirstOfKey(d: Desk, i: nat)
    requires i < |d.told|
  {
    !KeyTaken(d.start, d.told[i].key)
    && (d.told[i].key.None? || forall j :: 0 <= j < i ==> d.told[j].key != d.told[i].key)
  }

  /** The id stands for its key: it was in the table with it at the beginning, or it is that of the
      first publish of the key to be told it is new. */
  ghost predicate Stands(d: Desk, key: string, id: string) {
    || HasKey(d.start, key, id)
    || exists i :: 0 <= i < |d.told| && d.told[i].id == id && d.told[i].key == Some(key) && FirstOfKey(d, i)
  }

  predicate Stored(rows: Rows, item: Item) { item.id in rows && rows[item.id].key == item.key }

  ghost predicate StoredRight(d: Desk, i: nat)
    requires i < |d.told|
  {
    (d.told[i].id in d.rows <==> FirstOfKey(d, i)) && (d.told[i].id in d.rows ==> Stored(d.rows, d.told[i]))
  }

  predicate Written(d: Desk, id: string) { exists i :: 0 <= i < d.written && i < |d.told| && d.told[i].id == id }

  /** The table holds what it held, and the first publish of each other key among those written. */
  ghost predicate TableRight(d: Desk) {
    && d.written <= |d.told|
    && (forall i :: 0 <= i < d.written ==> StoredRight(d, i))
    && (forall id :: id in d.start ==> id in d.rows && d.rows[id].key == d.start[id].key)
    && (forall id :: id in d.rows ==> id in d.start || Written(d, id))
  }

  predicate Drawn(d: Desk, item: Item) { item.id in d.drawn && d.drawn[item.id] == item.key }

  /** Ids are never drawn twice. */
  ghost predicate IdsRight(d: Desk) {
    && (forall i :: 0 <= i < |d.told| ==> Drawn(d, d.told[i]))
    && (forall item :: item in d.sending ==> Drawn(d, item))
    && (forall i, j :: 0 <= i < j < |d.told| ==> d.told[i].id != d.told[j].id)
    && (forall i, item :: 0 <= i < |d.told| && item in d.sending ==> item.id != d.told[i].id)
    && (forall a, b :: a in d.sending && b in d.sending && a.id == b.id ==> a == b)
    && (forall id :: id in d.start ==> id !in d.drawn)
  }

  /** The id was drawn for the key, or is that of a row with it. */
  predicate Names(d: Desk, key: string, id: string) {
    HasKey(d.start, key, id) || (id in d.drawn && d.drawn[id] == Some(key))
  }

  /** The window, and what was answered from it, keep to the keys. */
  ghost predicate NamesRight(d: Desk) {
    && (forall key :: key in d.window.values ==> Names(d, key, d.window.values[key]))
    && (forall p :: p in d.answered ==> Names(d, p.0, p.1))
  }

  ghost predicate Inv(d: Desk) { TableRight(d) && IdsRight(d) && NamesRight(d) }

  lemma StartedInv(d: Desk)
    requires Started(d)
    ensures Inv(d)
  {
  }

  /** Among told items with a key that is new, one is the first of it. */
  lemma {:induction false} FirstExists(d: Desk, i: nat) returns (f: nat)
    requires i < |d.told| && !KeyTaken(d.start, d.told[i].key)
    ensures f <= i && FirstOfKey(d, f) && d.told[f].key == d.told[i].key
  {
    if FirstOfKey(d, i) {
      f := i;
    } else {
      var j :| 0 <= j < i && d.told[j].key == d.told[i].key;
      f := FirstExists(d, j);
    }
  }

  /** The key of the next item is taken exactly if it was there or an earlier one was told new. */
  lemma TakenIfNotFirst(d: Desk)
    requires TableRight(d) && IdsRight(d) && d.written < |d.told|
    ensures d.told[d.written].id !in d.rows
    ensures KeyTaken(d.rows, d.told[d.written].key) <==> !FirstOfKey(d, d.written)
  {
    var n, item := d.written, d.told[d.written];
    assert Drawn(d, item);
    if KeyTaken(d.rows, item.key) {
      var id :| id in d.rows && d.rows[id].key == item.key;
      if id !in d.start {
        var i :| 0 <= i < n && d.told[i].id == id;
        assert StoredRight(d, i);
      }
    }
    if !FirstOfKey(d, n) {
      if KeyTaken(d.start, item.key) {
        var id :| id in d.start && d.start[id].key == item.key;
        assert d.rows[id].key == item.key;
      } else {
        var j :| 0 <= j < n && d.told[j].key == item.key;
        var f := FirstExists(d, j);
        assert StoredRight(d, f);
      }
    }
  }

  lemma WriteKeeps(d: Desk, now: int, capacity: nat)
    requires TableRight(d) && IdsRight(d) && Enabled(d, Write(now))
    ensures TableRight(Do(d, Write(now), capacity))
  {
    TakenIfNotFirst(d);
    var n, d' := d.written, Do(d, Write(now), capacity);
    hide KeyTaken;
    forall i | 0 <= i < n + 1 ensures StoredRight(d', i) {
      assert FirstOfKey(d', i) == FirstOfKey(d, i);
      if i < n {
        assert StoredRight(d, i);
        assert d.told[i].id != d.told[n].id;
      }
    }
    forall id | id in d'.rows ensures id in d'.start || Written(d', id) {
      if id in d.rows {
        assert id in d.start || Written(d, id);
      } else {
        assert d'.told[n].id == id;
      }
    }
  }

  lemma {:induction false} OtherKeeps(d: Desk, op: Op, capacity: nat)
    requires TableRight(d) && Enabled(d, Other(op))
    ensures TableRight(Do(d, Other(op), capacity))
  {
    var d' := Do(d, Other(op), capacity);
    SameKeys(d.rows, op);
    hide Apply, KeyTaken;
    forall i | 0 <= i < d.written ensures StoredRight(d', i) {
      assert StoredRight(d, i) && FirstOfKey(d', i) == FirstOfKey(d, i);
    }
    forall id | id in d'.rows ensures id in d'.start || Written(d', id) {
      assert id in d.start || Written(d, id);
    }
  }

  lemma SameKeys(rows: Rows, op: Op)
    requires !op.Enqueue?
    ensures Apply(rows, op).Keys == rows.Keys
    ensures forall id :: id in rows ==> Apply(rows, op)[id].key == rows[id].key
  {
    forall id | id in rows ensures Apply(rows, op)[id].key == rows[id].key { RowsPersist(rows, op, id); }
  }

  /** A step that leaves the table alone and at most adds to what was told. */
  lemma TableStays(d: Desk, d': Desk)
    requires TableRight(d) && d'.rows == d.rows && d'.start == d.start && d'.written == d.written
    requires d.told <= d'.told
    ensures TableRight(d')
  {
    hide KeyTaken;
    forall i | 0 <= i < d.written ensures StoredRight(d', i) {
      assert StoredRight(d, i) && FirstOfKey(d', i) == FirstOfKey(d, i);
    }
    forall id | id in d'.rows ensures id in d'.start || Written(d', id) {
      assert id in d.start || Written(d, id);
    }
  }

  lemma TableKept(d: Desk, s: Step, capacity: nat)
    requires Inv(d) && Enabled(d, s)
    ensures TableRight(Do(d, s, capacity))
  {
    match s {
      case Admit(_) => TableStays(d, Do(d, s, capacity));
      case Queue(_) => TableStays(d, Do(d, s, capacity));
      case Abort(_) => TableStays(d, Do(d, s, capacity));
      case Write(now) => WriteKeeps(d, now, capacity);
      case Other(op) => OtherKeeps(d, op, capacity);
    }
  }

  predicate Unused(d: Desk, id: string) {
    && (forall i :: 0 <= i < |d.told| ==> d.told[i].id != id)
    && (forall item :: item in d.sending ==> item.id != id)
  }

  lemma FreshUnused(d: Desk, id: string)
    requires IdsRight(d) && id !in d.drawn
    ensures Unused(d, id)
  {
    forall i | 0 <= i < |d.told| ensures d.told[i].id != id { assert Drawn(d, d.told[i]); }
    forall item | item in d.sending ensures item.id != id { assert Drawn(d, item); }
  }

  lemma DrawIds(d: Desk, id: string, key: Option<string>)
    requires IdsRight(d) && FreshId(d, id)
    ensures IdsRight(d.(drawn := d.drawn[id := key]))
  {
    var d' := d.(drawn := d.drawn[id := key]);
    forall i | 0 <= i < |d.told| ensures Drawn(d', d.told[i]) { assert Drawn(d, d.told[i]); }
    forall item | item in d.sending ensures Drawn(d', item) { assert Drawn(d, item); }
  }

  lemma SendIds(d: Desk, item: Item)
    requires IdsRight(d) && Drawn(d, item) && Unused(d, item.id)
    ensures IdsRight(d.(sending := d.sending + {item}))
  {
    var d' := d.(sending := d.sending + {item});
    forall i | 0 <= i < |d.told| ensures Drawn(d', d.told[i]) { assert Drawn(d, d.told[i]); }
    forall other | other in d'.sending ensures Drawn(d', other) { assert Drawn(d, other); }
  }

  lemma AdmitIds(d: Desk, item: Item, capacity: nat)
    requires IdsRight(d) && FreshId(d, item.id)
    ensures IdsRight(Admitted(d, item, capacity))
  {
    FreshUnused(d, item.id);
    DrawIds(d, item.id, item.key);
    var d1 := d.(drawn := d.drawn[item.id := item.key]);
    assert Drawn(d1, item) && Unused(d1, item.id);
    SendIds(d1, item);
    var d2 := d1.(sending := d.sending + {item});
    var d' := Admitted(d, item, capacity);
    hide R.Insert, Drawn, IdsRight, Unused;
    if Known(d, item) {
      SameIds(d1, d');
    } else {
      SameIds(d2, d');
    }
  }

  lemma SameIds(d: Desk, d': Desk)
    requires IdsRight(d) && d'.told == d.told && d'.sending == d.sending && d'.drawn == d.drawn && d'.start == d.start
    ensures IdsRight(d')
  {
    forall i | 0 <= i < |d.told| ensures Drawn(d', d.told[i]) { assert Drawn(d, d.told[i]); }
    forall item | item in d.sending ensures Drawn(d', item) { assert Drawn(d, item); }
  }

  lemma QueueIds(d: Desk, item: Item, capacity: nat)
    requires IdsRight(d) && item in d.sending
    ensures IdsRight(Do(d, Queue(item), capacity))
  {
    var d' := Do(d, Queue(item), capacity);
    assert Drawn(d, item);
    forall i | 0 <= i < |d'.told| ensures Drawn(d', d'.told[i]) {
      if i < |d.told| { assert Drawn(d, d.told[i]); }
    }
  }

  /** Every other step draws no id and tells nobody. */
  lemma IdsKept(d: Desk, s: Step, capacity: nat)
    requires IdsRight(d) && Enabled(d, s)
    ensures IdsRight(Do(d, s, capacity))
  {
    hide R.Insert, R.Remove, Apply, Admitted;
    match s {
      case Admit(item) => AdmitIds(d, item, capacity);
      case Queue(item) => QueueIds(d, item, capacity);
      case _ =>
    }
  }

  /** A name once right stays right. */
  lemma NamesStay(d: Desk, s: Step, capacity: nat, key: string, id: string)
    requires Enabled(d, s) && Names(d, key, id)
    ensures Names(Do(d, s, capacity), key, id)
  {
    hide R.Insert, R.Remove, Apply;
  }

  lemma NamesKept(d: Desk, s: Step, capacity: nat)
    requires NamesRight(d) && Enabled(d, s)
    ensures NamesRight(Do(d, s, capacity))
  {
    var d' := Do(d, s, capacity);
    forall key | key in d'.window.values ensures Names(d', key, d'.window.values[key]) {
      if key in d.window.values { NamesStay(d, s, capacity, key, d.window.values[key]); }
    }
    hide R.Insert, R.Remove, Apply;
    forall p | p in d'.answered ensures Names(d', p.0, p.1) {
      NamesStay(d, s, capacity, p.0, p.1) by {
        if p !in d.answered { assert Names(d, p.0, d.window.values[p.0]); }
      }
    }
  }

  lemma StepKeeps(d: Desk, s: Step, capacity: nat)
    requires Inv(d) && Enabled(d, s)
    ensures Inv(Do(d, s, capacity))
  {
    TableKept(d, s, capacity);
    IdsKept(d, s, capacity);
    NamesKept(d, s, capacity);
  }

  // ----- every run -------------------------------------------------------------------------

  ghost predicate Possible(d: Desk, steps: seq<Step>, capacity: nat)
    decreases |steps|
  {
    steps == [] || (Enabled(d, steps[0]) && Possible(Do(d, steps[0], capacity), steps[1..], capacity))
  }

  ghost function Run(d: Desk, steps: seq<Step>, capacity: nat): Desk
    requires Possible(d, steps, capacity)
    decreases |steps|
  {
    if steps == [] then d else Run(Do(d, steps[0], capacity), steps[1..], capacity)
  }

  lemma {:induction false} RunKeeps(d: Desk, steps: seq<Step>, capacity: nat)
    requires Inv(d) && Possible(d, steps, capacity)
    ensures Inv(Run(d, steps, capacity))
    decreases |steps|
  {
    hide Inv;
    if steps != [] {
      StepKeeps(d, steps[0], capacity);
      RunKeeps(Do(d, steps[0], capacity), steps[1..], capacity);
    }
  }

  /** After every run from a desk just opened, once the writer has caught up, an id that a
      publisher was told is new is in the table if and only if its key was not there at the
      beginning and its publish was the first with it to be told so. */
  lemma ToldNewIsStored(first: Desk, steps: seq<Step>, capacity: nat, i: nat)
    requires Started(first) && Possible(first, steps, capacity)
    requires var d := Run(first, steps, capacity); d.written == |d.told| && i < |d.told|
    ensures var d := Run(first, steps, capacity);
      d.told[i].id in d.rows <==> FirstOfKey(d, i)
  {
    StartedInv(first);
    RunKeeps(first, steps, capacity);
    assert StoredRight(Run(first, steps, capacity), i);
  }

  /** After every such run, an id given as the answer for a key from the window is in the table if
      and only if it stands for that key; and its row then has the key. */
  lemma AnsweredIsStored(first: Desk, steps: seq<Step>, capacity: nat, key: string, id: string)
    requires Started(first) && Possible(first, steps, capacity)
    requires var d := Run(first, steps, capacity); d.written == |d.told| && (key, id) in d.answered
    ensures var d := Run(first, steps, capacity);
      && (id in d.rows <==> Stands(d, key, id))
      && (id in d.rows ==> d.rows[id].key == Some(key))
  {
    StartedInv(first);
    RunKeeps(first, steps, capacity);
    var d := Run(first, steps, capacity);
    hide Run, Possible, Started, KeyTaken;
    assert Names(d, (key, id).0, (key, id).1);
    if id in d.rows && id !in d.start {
      var i :| 0 <= i < |d.told| && d.told[i].id == id;
      assert Drawn(d, d.told[i]) && StoredRight(d, i);
    }
    forall i | 0 <= i < |d.told| && d.told[i].id == id && d.told[i].key == Some(key) && FirstOfKey(d, i)
      ensures id in d.rows
    {
      assert StoredRight(d, i);
    }
  }

  // ----- a forgotten key -------------------------------------------------------------------

  lemma {:induction false} RunAppend(d: Desk, a: seq<Step>, b: seq<Step>, capacity: nat)
    requires Possible(d, a, capacity) && Possible(Run(d, a, capacity), b, capacity)
    ensures Possible(d, a + b, capacity)
    ensures Run(d, a + b, capacity) == Run(Run(d, a, capacity), b, capacity)
    decreases |a|
  {
    if a == [] {
      assert a + b == b;
    } else {
      assert (a + b)[1..] == a[1..] + b;
      RunAppend(Do(d, a[0], capacity), a[1..], b, capacity);
    }
  }

  lemma OneStep(d: Desk, s: Step, capacity: nat)
    requires Enabled(d, s)
    ensures Possible(d, [s], capacity) && Run(d, [s], capacity) == Do(d, s, capacity)
  {
    var d' := Do(d, s, capacity);
    hide Do, Enabled;
    assert [s][1..] == [] && Possible(d', [], capacity) && Run(d', [], capacity) == d';
  }

  /** A publish all the way to the table. */
  function Through(item: Item): seq<Step> { [Admit(item), Queue(item), Write(0)] }

  ghost predicate CaughtUp(d: Desk) { d.sending == {} && d.written == |d.told| }

  lemma PublishThrough(d: Desk, item: Item, capacity: nat)
    requires CaughtUp(d) && FreshId(d, item.id) && item.key.Some? && !Known(d, item)
    ensures Possible(d, Through(item), capacity)
    ensures var d' := Run(d, Through(item), capacity);
      && CaughtUp(d') && d'.told == d.told + [item]
      && d'.window == R.Insert(d.window, item.key.value, item.id, capacity)
      && d'.start == d.start && d'.drawn == d.drawn[item.id := item.key]
  {
    var steps := Through(item);
    var d1 := Do(d, steps[0], capacity);
    var d2 := Do(d1, steps[1], capacity);
    var d3 := Do(d2, steps[2], capacity);
    hide R.Insert, Apply;
    assert steps[1..][1..] == [Write(0)] && steps[1..][0] == Queue(item);
    assert Possible(d3, [], capacity) && Run(d3, [], capacity) == d3;
    assert [Write(0)][1..] == [];
    assert Possible(d2, [Write(0)], capacity) && Run(d2, [Write(0)], capacity) == d3;
    assert Possible(d1, steps[1..], capacity) && Run(d1, steps[1..], capacity) == d3;
  }

  function Text(n: nat, c: char): (s: string)
    ensures |s| == n
  {
    seq(n, _ => c)
  }

  /** Key `k` first, then as many others as the window holds, then `k` again. */
  function Nth(capacity: nat, n: nat): (item: Item)
    ensures item.key.Some? && |item.id| == n
  {
    Item(Text(n, 'i'), Some(if 0 < n <= capacity then Text(n + 1, 'x') else "k"), "t", [])
  }

  function Items(capacity: nat, n: nat): seq<Item> { seq(n, i requires i >= 0 => Nth(capacity, i)) }

  function Steps(capacity: nat, n: nat): seq<Step> {
    if n == 0 then [] else Steps(capacity, n - 1) + Through(Nth(capacity, n - 1))
  }

  /** The keys in the window after `n` publishes. */
  function Order(capacity: nat, n: nat): seq<string> {
    if n <= capacity then seq(n, i requires i >= 0 => Nth(capacity, i).key.value)
    else seq(capacity, i requires i >= 0 => Nth(capacity, i + 1).key.value)
  }

  ghost predicate Stage(d: Desk, capacity: nat, n: nat) {
    && CaughtUp(d) && d.told == Items(capacity, n)
    && d.window.order == Order(capacity, n) && R.InOrderOnce(d.window, capacity)
    && d.start == map[] && forall id :: id in d.drawn ==> |id| < n
  }

  lemma StageFresh(d: Desk, capacity: nat, n: nat)
    requires Stage(d, capacity, n) && n <= capacity + 1
    ensures FreshId(d, Nth(capacity, n).id) && !Known(d, Nth(capacity, n))
  {
    var item := Nth(capacity, n);
    assert |item.id| == n;
    var order := d.window.order;
    forall i | 0 <= i < |order| ensures order[i] != item.key.value {
      if n <= capacity {
        assert i < n;
        assert order[i] == Nth(capacity, i).key.value;
        assert |order[i]| == if i == 0 then 1 else i + 1;
      } else {
        assert order[i] == Nth(capacity, i + 1).key.value;
        assert |order[i]| == i + 2;
      }
    }
    assert item.key.value !in Elements(order);
  }

  lemma OrderSize(capacity: nat, n: nat)
    ensures |Order(capacity, n)| == if n <= capacity then n else capacity
  {
  }

  lemma OrderGrows(capacity: nat, n: nat)
    requires 1 <= capacity && n <= capacity
    ensures Order(capacity, n + 1) ==
      (if n >= capacity then Order(capacity, n)[1..] else Order(capacity, n)) + [Nth(capacity, n).key.value]
  {
  }

  lemma InsertOrder(w: R.Window, key: string, id: string, capacity: nat)
    requires key !in w.values
    ensures R.Insert(w, key, id, capacity).order ==
      (if |w.order| >= capacity && w.order != [] then w.order[1..] else w.order) + [key]
  {
  }

  lemma ItemsGrow(capacity: nat, n: nat)
    ensures Items(capacity, n + 1) == Items(capacity, n) + [Nth(capacity, n)]
  {
  }

  lemma StageNext(d: Desk, capacity: nat, n: nat)
    requires 1 <= capacity && n <= capacity && Stage(d, capacity, n)
    ensures Possible(d, Through(Nth(capacity, n)), capacity)
    ensures Stage(Run(d, Through(Nth(capacity, n)), capacity), capacity, n + 1)
  {
    hide Possible, Run, Through, Order, Items, R.InOrderOnce, R.Insert, Nth;
    var item := Nth(capacity, n);
    StageFresh(d, capacity, n);
    PublishThrough(d, item, capacity);
    R.InsertSound(d.window, item.key.value, item.id, capacity);
    InsertOrder(d.window, item.key.value, item.id, capacity);
    OrderGrows(capacity, n);
    OrderSize(capacity, n);
    ItemsGrow(capacity, n);
  }

  lemma {:induction false} StagePossible(capacity: nat, n: nat)
    requires 1 <= capacity && n <= capacity + 1
    ensures Possible(EMPTY_DESK, Steps(capacity, n), capacity)
    ensures Stage(Run(EMPTY_DESK, Steps(capacity, n), capacity), capacity, n)
  {
    if n > 0 {
      hide Stage, Through, Nth;
      StagePossible(capacity, n - 1);
      var d := Run(EMPTY_DESK, Steps(capacity, n - 1), capacity);
      StageNext(d, capacity, n - 1);
      RunAppend(EMPTY_DESK, Steps(capacity, n - 1), Through(Nth(capacity, n - 1)), capacity);
    }
  }

  /** The key once more, for a publish that is answered from the window. */
  function Once(capacity: nat): Item { Item(Text(capacity + 2, 'i'), Some("k"), "t", []) }

  /** For every size of the window there is a run in which the last publish told a new id is never
      stored, its key having come round after the window had forgotten it, and the next publish of
      the key is given that id as the one it duplicates. */
  lemma ForgottenKeyIsNotStored(capacity: nat)
    requires capacity >= 1
    ensures var steps := Steps(capacity, capacity + 2) + [Admit(Once(capacity))];
      && Possible(EMPTY_DESK, steps, capacity)
      && var d := Run(EMPTY_DESK, steps, capacity);
         && CaughtUp(d) && |d.told| == capacity + 2
         && d.told[0].key == d.told[capacity + 1].key == Some("k")
         && ("k", d.told[capacity + 1].id) in d.answered
         && d.told[capacity + 1].id !in d.rows
  {
    var n := capacity + 1;
    var d := LastForgotten(capacity);
    var all, again := Steps(capacity, capacity + 2), Admit(Once(capacity));
    hide Steps, Nth;
    assert Enabled(d, again);
    var last := Do(d, again, capacity);
    OneStep(d, again, capacity);
    RunAppend(EMPTY_DESK, all, [again], capacity);
    ToldNewIsStored(EMPTY_DESK, all + [again], capacity, n);
    assert last.told[0].key == last.told[n].key;
  }

  /** The desk after the forgotten key came round. */
  lemma LastForgotten(capacity: nat) returns (d: Desk)
    requires capacity >= 1
    ensures Possible(EMPTY_DESK, Steps(capacity, capacity + 2), capacity)
    ensures d == Run(EMPTY_DESK, Steps(capacity, capacity + 2), capacity)
    ensures CaughtUp(d) && |d.told| == capacity + 2 && FreshId(d, Once(capacity).id)
    ensures d.told[0].key == d.told[capacity + 1].key == Some("k")
    ensures "k" in d.window.values && d.window.values["k"] == d.told[capacity + 1].id
  {
    var n := capacity + 1;
    StagePossible(capacity, n);
    var before, item := Run(EMPTY_DESK, Steps(capacity, n), capacity), Nth(capacity, n);
    StageFresh(before, capacity, n);
    PublishThrough(before, item, capacity);
    RunAppend(EMPTY_DESK, Steps(capacity, n), Through(item), capacity);
    assert Steps(capacity, capacity + 2) == Steps(capacity, n) + Through(item);
    hide Through, Steps, Run, Possible;
    d := Run(EMPTY_DESK, Steps(capacity, capacity + 2), capacity);
    assert before.told[0] == Nth(capacity, 0) && d.told[n] == item;
  }

  /** A publish that fails after another one was given its id leaves that id in no table. */
  lemma AnsweredThenAborted(capacity: nat)
    ensures var a, b := Item("1", Some("k"), "t", []), Item("2", Some("k"), "t", []);
      var steps := [Admit(a), Admit(b), Abort(a)];
      && Possible(EMPTY_DESK, steps, capacity)
      && var d := Run(EMPTY_DESK, steps, capacity);
         CaughtUp(d) && ("k", "1") in d.answered && d.rows == map[]
  {
    var a, b := Item("1", Some("k"), "t", []), Item("2", Some("k"), "t", []);
    var steps := [Admit(a), Admit(b), Abort(a)];
    var d1 := Do(EMPTY_DESK, Admit(a), capacity);
    assert Known(d1, b) && "2" != "1";
    var d2 := Do(d1, Admit(b), capacity);
    var d3 := Do(d2, Abort(a), capacity);
    assert steps[1..][1..] == [Abort(a)] && [Abort(a)][1..] == [];
    assert Possible(d3, [], capacity) && Run(d3, [], capacity) == d3;
    assert Possible(d2, [Abort(a)], capacity) && Run(d2, [Abort(a)], capacity) == d3;
    assert Possible(d1, steps[1..], capacity) && Run(d1, steps[1..], capacity) == d3;
  }
}
