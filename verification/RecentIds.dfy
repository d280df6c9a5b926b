/** The bounded memory of idempotency keys in front of each shard (`RecentIds` and
    `QueueWriter::enqueue` in src/writer.rs). Keys leave in the order they came. */
module RecentIds {
  import opened Collections

  /** Keys with the ids they were admitted under, oldest key first. */
  datatype Window = Window(values: map<string, string>, order: seq<string>)

  /** `order` lists exactly the keys of `values`, each once, and no more than fit. */
  ghost predicate InOrderOnce(w: Window, capacity: nat) {
    Distinct(w.order) && Elements(w.order) == w.values.Keys && |w.order| <= capacity
  }

  // ----- operations ------------------------------------------------------------------------

  function PopFront(w: Window): Window
    requires w.order != []
  {
    Window(w.values - {w.order[0]}, w.order[1..])
  }

  function Insert(w: Window, key: string, id: string, capacity: nat): Window {
    if key in w.values then w.(values := w.values[key := id])
    else
      var kept := if |w.order| >= capacity && w.order != [] then PopFront(w) else w;
      Window(kept.values[key := id], kept.order + [key])
  }

  function Without(order: seq<string>, key: string): seq<string> {
    if order == [] then []
    else Without(order[..|order| - 1], key) + if order[|order| - 1] == key then [] else [order[|order| - 1]]
  }

  function Remove(w: Window, key: string): Window {
    Window(w.values - {key}, Without(w.order, key))
  }

  lemma PopSound(w: Window, capacity: nat)
    requires InOrderOnce(w, capacity) && w.order != []
    ensures InOrderOnce(PopFront(w), capacity) && |PopFront(w).order| == |w.order| - 1
  {
    var w' := PopFront(w);
    assert forall i :: 0 <= i < |w'.order| ==> w'.order[i] == w.order[i + 1];
    forall k | k in w'.values ensures k in Elements(w'.order) {
      var i :| 0 <= i < |w.order| && w.order[i] == k;
      assert w'.order[i - 1] == k;
    }
  }

  lemma PushSound(w: Window, key: string, id: string, capacity: nat)
    requires InOrderOnce(w, capacity) && key !in w.values && |w.order| < capacity
    ensures InOrderOnce(Window(w.values[key := id], w.order + [key]), capacity)
  {
    var order := w.order + [key];
    forall i | 0 <= i < |w.order| ensures w.order[i] != key {
      assert w.order[i] in Elements(w.order);
    }
    forall k | k in w.values.Keys + {key} ensures k in Elements(order) {
      if k != key {
        var i :| 0 <= i < |w.order| && w.order[i] == k;
        assert order[i] == k;
      } else {
        assert order[|w.order|] == k;
      }
    }
    forall k | k in Elements(order) ensures k in w.values.Keys + {key} {
      var i :| 0 <= i < |order| && order[i] == k;
      assert i < |w.order| ==> w.order[i] in Elements(w.order);
    }
  }

  lemma InsertSound(w: Window, key: string, id: string, capacity: nat)
    requires InOrderOnce(w, capacity) && capacity >= 1
    ensures InOrderOnce(Insert(w, key, id, capacity), capacity)
  {
    if key !in w.values {
      if |w.order| >= capacity {
        PopSound(w, capacity);
        PushSound(PopFront(w), key, id, capacity);
      } else {
        PushSound(w, key, id, capacity);
      }
    }
  }

  /** Forgetting a key keeps the others in order. */
  lemma {:induction false} WithoutFacts(order: seq<string>, key: string)
    requires Distinct(order)
    ensures var rest := Without(order, key);
      Distinct(rest) && Elements(rest) == Elements(order) - {key} && |rest| <= |order|
  {
    if order != [] {
      var init, last := order[..|order| - 1], order[|order| - 1];
      WithoutFacts(init, key);
      var rest := Without(init, key);
      assert Elements(order) == Elements(init) + {last};
      assert last !in Elements(init);
      if last == key {
        assert Without(order, key) == rest;
      } else {
        forall i | 0 <= i < |rest| ensures rest[i] != last {
          assert rest[i] in Elements(rest);
        }
        var all := rest + [last];
        assert Elements(all) == Elements(rest) + {last} by {
          forall k | k in Elements(rest) + {last} ensures k in Elements(all) {
            if k in Elements(rest) {
              var i :| 0 <= i < |rest| && rest[i] == k;
              assert all[i] == k;
            } else {
              assert all[|rest|] == k;
            }
          }
        }
      }
    }
  }

  /** The one place of the key closes up. */
  lemma {:induction false} WithoutMeans(order: seq<string>, key: string)
    requires Distinct(order)
    ensures key !in order ==> Without(order, key) == order
    ensures forall i :: 0 <= i < |order| && order[i] == key ==> Without(order, key) == order[..i] + order[i + 1..]
  {
    if order != [] {
      var init, last := order[..|order| - 1], order[|order| - 1];
      WithoutMeans(init, key);
      assert order == init + [last];
      forall i | 0 <= i < |order| && order[i] == key ensures Without(order, key) == order[..i] + order[i + 1..] {
        if i < |init| {
          assert init[i] == key && order[..i] == init[..i] && order[i + 1..] == init[i + 1..] + [last];
        } else {
          assert key !in init;
          assert order[i + 1..] == [] && order[..i] == init;
        }
      }
    }
  }

  lemma RemoveSound(w: Window, key: string, capacity: nat)
    requires InOrderOnce(w, capacity)
    ensures InOrderOnce(Remove(w, key), capacity)
  {
    WithoutFacts(w.order, key);
  }

  /** The map and queue updated under the shard's lock. */
  class RecentIdStore {
    var values: map<string, string>
    var order: seq<string>
    const capacity: nat

    ghost predicate Valid()
      reads this
    {
      capacity >= 1 && InOrderOnce(Window(values, order), capacity)
    }

    constructor (capacity: nat)
      requires capacity >= 1
      ensures Valid() && this.capacity == capacity && values == map[] && order == []
    {
      this.capacity := capacity;
      values, order := map[], [];
    }

    /** The eviction loop ends because every popped key was in the map. */
    method InsertKey(key: string, id: string)
      requires Valid()
      modifies this
      ensures Valid()
      ensures Window(values, order) == Insert(old(Window(values, order)), key, id, capacity)
      ensures key in old(values) ==> order == old(order) && values == old(values)[key := id]
      ensures key !in old(values) && |old(order)| < capacity ==>
        order == old(order) + [key] && values == old(values)[key := id]
      ensures key !in old(values) && |old(order)| == capacity ==>
        order == old(order)[1..] + [key] && values == (old(values) - {old(order)[0]})[key := id]
    {
      InsertSound(Window(values, order), key, id, capacity);
      ElementsSize(order);
      if key in values {
        values := values[key := id];
        return;
      }
      while |values| >= capacity
        invariant InOrderOnce(Window(values, order), capacity) && |values| == |order|
        invariant Window(values, order) == old(Window(values, order)) ||
          (|old(order)| >= capacity && |order| < capacity
           && Window(values, order) == PopFront(old(Window(values, order))))
        decreases |order|
      {
        PopSound(Window(values, order), capacity);
        var oldest := order[0];
        order := order[1..];
        values := values - {oldest};
        ElementsSize(order);
      }
      order := order + [key];
      values := values[key := id];
    }

    method RemoveKey(key: string)
      requires Valid()
      modifies this
      ensures Valid()
      ensures Window(values, order) == Remove(old(Window(values, order)), key)
      ensures values == old(values) - {key} && (key !in old(values) ==> order == old(order))
      ensures forall i :: 0 <= i < |old(order)| && old(order)[i] == key ==>
        order == old(order)[..i] + old(order)[i + 1..]
    {
      WithoutMeans(order, key);
      RemoveSound(Window(values, order), key, capacity);
      values := values - {key};
      order := Without(order, key);
    }

    /** Admission of a keyed publish: a known key is answered from memory. */
    method Admit(key: string, id: string) returns (given: string, duplicate: bool)
      requires Valid()
      modifies this
      ensures Valid()
      ensures (given, duplicate) == Admission(old(Window(values, order)), key, id)
      ensures duplicate <==> key in old(values)
      ensures given == if duplicate then old(values)[key] else id
      ensures Window(values, order)
        == if duplicate then old(Window(values, order))
           else Insert(old(Window(values, order)), key, id, capacity)
    {
      if key in values {
        return values[key], true;
      }
      InsertKey(key, id);
      given, duplicate := id, false;
    }
  }

  // ----- how long a key is remembered ------------------------------------------------------

  /** What a keyed publish is told. */
  function Admission(w: Window, key: string, id: string): (string, bool) {
    if key in w.values then (w.values[key], true) else (id, false)
  }

  /** A publish with a fresh id, or the removal of a key whose publish could not be queued. */
  datatype Event = Publish(key: string, id: string) | Forget(key: string)

  function After(w: Window, e: Event, capacity: nat): Window {
    match e
    case Publish(key, id) => if key in w.values then w else Insert(w, key, id, capacity)
    case Forget(key) => Remove(w, key)
  }

  predicate Inserts(w: Window, e: Event) { e.Publish? && e.key !in w.values }

  ghost function Run(w: Window, events: seq<Event>, capacity: nat): Window
    decreases |events|
  {
    if events == [] then w else Run(After(w, events[0], capacity), events[1..], capacity)
  }

  /** How many keys a run takes in. */
  ghost function Insertions(w: Window, events: seq<Event>, capacity: nat): nat
    decreases |events|
  {
    if events == [] then 0
    else (if Inserts(w, events[0]) then 1 else 0)
         + Insertions(After(w, events[0], capacity), events[1..], capacity)
  }

  /** Key `key` stands at position `at` of the queue; the keys behind it are younger. */
  predicate At(w: Window, key: string, at: nat) { at < |w.order| && w.order[at] == key }

  /** A key moves towards the front by the evictions only, and is gone when it was at the front. */
  lemma PublishMoves(w: Window, e: Event, capacity: nat, key: string, at: nat)
    requires InOrderOnce(w, capacity) && capacity >= 1 && e.Publish? && At(w, key, at)
    ensures var w' := After(w, e, capacity);
      if !Inserts(w, e) then At(w', key, at) && w' == w
      else if |w.order| < capacity then
        At(w', key, at) && |w'.order| == |w.order| + 1 && key in w'.values && w'.values[key] == w.values[key]
      else if at > 0 then
        At(w', key, at - 1) && |w'.order| == |w.order| && key in w'.values && w'.values[key] == w.values[key]
      else key !in w'.values
  {
    assert w.order[at] in Elements(w.order);
    if Inserts(w, e) && |w.order| >= capacity && at > 0 {
      assert w.order[0] != w.order[at];
    }
  }

  /** The key is in the window now and after each of these events. */
  ghost predicate Stays(w: Window, events: seq<Event>, capacity: nat, key: string)
    decreases |events|
  {
    key in w.values && (events == [] || Stays(After(w, events[0], capacity), events[1..], capacity, key))
  }

  /** Publishes alone, of whatever keys and this one among them: a key stays in the window exactly
      while fewer than `capacity` keys are younger than it. */
  lemma {:induction false} RememberedExactly(w: Window, events: seq<Event>, capacity: nat,
                                             key: string, at: nat)
    requires InOrderOnce(w, capacity) && capacity >= 1 && At(w, key, at)
    requires forall i :: 0 <= i < |events| ==> events[i].Publish?
    ensures Stays(w, events, capacity, key) <==>
            |w.order| - 1 - at + Insertions(w, events, capacity) < capacity
    decreases |events|
  {
    assert w.order[at] in Elements(w.order);
    if events != [] {
      var e := events[0];
      PublishMoves(w, e, capacity, key, at);
      InsertSound(w, e.key, e.id, capacity);
      if !(Inserts(w, e) && |w.order| >= capacity && at == 0) {
        var at' := if Inserts(w, e) && |w.order| >= capacity then at - 1 else at;
        RememberedExactly(After(w, e, capacity), events[1..], capacity, key, at');
      }
    }
  }

  /** The place of a key after another one was removed; no more keys are younger than before. */
  lemma {:induction false} WithoutAt(order: seq<string>, other: string, at: nat) returns (at': nat)
    requires at < |order| && order[at] != other
    ensures var rest := Without(order, other);
      at' < |rest| && rest[at'] == order[at] && |rest| - at' <= |order| - at
  {
    var init, rest := order[..|order| - 1], Without(order[..|order| - 1], other);
    if at == |order| - 1 {
      at' := |rest|;
    } else {
      at' := WithoutAt(init, other, at);
    }
  }

  /** With removals of other keys as well it stays at least that long. */
  lemma {:induction false} RememberedAtLeast(w: Window, events: seq<Event>, capacity: nat,
                                             key: string, at: nat)
    requires InOrderOnce(w, capacity) && capacity >= 1 && At(w, key, at)
    requires forall i :: 0 <= i < |events| ==> events[i] != Forget(key)
    requires |w.order| - 1 - at + Insertions(w, events, capacity) < capacity
    ensures Stays(w, events, capacity, key)
    decreases |events|
  {
    assert w.order[at] in Elements(w.order);
    if events != [] {
      var e := events[0];
      assert events[0] != Forget(key);
      match e {
        case Publish(k, id) =>
          PublishMoves(w, e, capacity, key, at);
          InsertSound(w, k, id, capacity);
          var at' := if Inserts(w, e) && |w.order| >= capacity then at - 1 else at;
          RememberedAtLeast(After(w, e, capacity), events[1..], capacity, key, at');
        case Forget(k) =>
          RemoveSound(w, k, capacity);
          var at' := WithoutAt(w.order, k, at);
          RememberedAtLeast(After(w, e, capacity), events[1..], capacity, key, at');
      }
    }
  }

  /** While a key stays in the window its id does not change, whatever is published or removed. */
  lemma {:induction false} IdStays(w: Window, events: seq<Event>, capacity: nat, key: string)
    requires Stays(w, events, capacity, key)
    ensures var w' := Run(w, events, capacity); key in w'.values && w'.values[key] == w.values[key]
    decreases |events|
  {
    if events != [] { IdStays(After(w, events[0], capacity), events[1..], capacity, key); }
  }

  /** From the publish that is told it is new, for as long as the key stays in the window, every
      publish of the key along any run is told the first id, as a duplicate. */
  lemma FirstIdWins(w: Window, key: string, id: string, events: seq<Event>, capacity: nat, j: nat)
    requires key !in w.values && j < |events| && events[j].Publish? && events[j].key == key
    requires Stays(After(w, Publish(key, id), capacity), events[..j], capacity, key)
    ensures Admission(w, key, id) == (id, false)
    ensures var first := After(w, Publish(key, id), capacity);
      Admission(Run(first, events[..j], capacity), key, events[j].id) == (id, true)
  {
    IdStays(After(w, Publish(key, id), capacity), events[..j], capacity, key);
  }

  /** How many publishes of the key are told they are new. */
  ghost function ToldNew(w: Window, events: seq<Event>, capacity: nat, key: string): nat
    decreases |events|
  {
    if events == [] then 0
    else (if Inserts(w, events[0]) && events[0].key == key then 1 else 0)
         + ToldNew(After(w, events[0], capacity), events[1..], capacity, key)
  }

  lemma {:induction false} NoneIsNew(w: Window, events: seq<Event>, capacity: nat, key: string)
    requires Stays(w, events, capacity, key)
    ensures ToldNew(w, events, capacity, key) == 0
    decreases |events|
  {
    if events != [] { NoneIsNew(After(w, events[0], capacity), events[1..], capacity, key); }
  }

  /** Exactly one of them is. */
  lemma OneIsNew(w: Window, key: string, id: string, events: seq<Event>, capacity: nat)
    requires key !in w.values && Stays(After(w, Publish(key, id), capacity), events, capacity, key)
    ensures ToldNew(w, [Publish(key, id)] + events, capacity, key) == 1
  {
    var all := [Publish(key, id)] + events;
    assert all[1..] == events;
    NoneIsNew(After(w, Publish(key, id), capacity), events, capacity, key);
  }
}
