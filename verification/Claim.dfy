/** Claiming messages for a subscriber (`claim_batch_for_topic`, `claim_batch_for_filter` in
    src/db.rs). An exact filter is claimed by one statement; a wildcard filter looks at the
    sixteen shards in rotation, and within a shard at the ready topics in rotation, until one
    topic yields messages. What SQL leaves open (the order of a listing, ties in age) is a
    parameter. */
module Claim {
  import opened Wrappers
  import opened Collections
  import opened Sharding
  import opened Topic
  import opened MessageStore

  const COUNTER: nat := 0x1_0000_0000_0000_0000

  datatype ClaimedMessage = ClaimedMessage(id: string, topic: string, payload: seq<int>,
                                           createdAt: int, lease: string, attempts: nat)

  function Message(rows: Rows, id: string, lease: string): ClaimedMessage
    requires id in rows
  {
    var r := rows[id];
    ClaimedMessage(id, r.topic, r.payload, r.createdAt, lease, r.attempts + 1)
  }

  // ----- sorting by age --------------------------------------------------------------------

  predicate TextLeq(a: string, b: string) {
    a == "" || (b != "" && (a[0] < b[0] || (a[0] == b[0] && TextLeq(a[1..], b[1..]))))
  }

  predicate Leq(a: ClaimedMessage, b: ClaimedMessage) {
    a.createdAt < b.createdAt || (a.createdAt == b.createdAt && TextLeq(a.id, b.id))
  }

  lemma {:induction false} TextTotal(a: string, b: string)
    ensures TextLeq(a, b) || TextLeq(b, a)
  {
    if a != "" && b != "" { TextTotal(a[1..], b[1..]); }
  }

  lemma {:induction false} TextTransitive(a: string, b: string, c: string)
    requires TextLeq(a, b) && TextLeq(b, c)
    ensures TextLeq(a, c)
  {
    if a != "" && b != "" && c != "" && a[0] == b[0] == c[0] { TextTransitive(a[1..], b[1..], c[1..]); }
  }

  /** The order of texts: `a` is a beginning of `b`, or smaller where they first differ. */
  lemma {:induction false} TextOrder(a: string, b: string)
    ensures TextLeq(a, b) <==>
      a <= b || exists n :: 0 <= n < |a| && n < |b| && a[..n] == b[..n] && a[n] < b[n]
  {
    if a == "" || b == "" || a[0] != b[0] {
      assert a != "" && b != "" && a[0] < b[0] ==> a[..0] == b[..0] && a[0] < b[0];
    } else {
      var x, y := a[1..], b[1..];
      TextOrder(x, y);
      assert a == [a[0]] + x && b == [a[0]] + y;
      if n :| 0 <= n < |a| && n < |b| && a[..n] == b[..n] && a[n] < b[n] {
        assert n > 0;
        assert x[..n - 1] == a[..n][1..] && y[..n - 1] == b[..n][1..] && x[n - 1] < y[n - 1];
      }
      if n :| 0 <= n < |x| && n < |y| && x[..n] == y[..n] && x[n] < y[n] {
        assert a[..n + 1] == [a[0]] + x[..n] && b[..n + 1] == [a[0]] + y[..n] && a[n + 1] < b[n + 1];
      }
    }
  }

  predicate Sorted(ms: seq<ClaimedMessage>) {
    forall i, j :: 0 <= i < j < |ms| ==> Leq(ms[i], ms[j])
  }

  function InsertSorted(m: ClaimedMessage, ms: seq<ClaimedMessage>): seq<ClaimedMessage> {
    if ms == [] || Leq(m, ms[0]) then [m] + ms else [ms[0]] + InsertSorted(m, ms[1..])
  }

  /** `sort_by` creation time, then id. */
  function Sort(ms: seq<ClaimedMessage>): seq<ClaimedMessage> {
    if ms == [] then [] else InsertSorted(ms[0], Sort(ms[1..]))
  }

  lemma {:induction false} InsertMembers(m: ClaimedMessage, ms: seq<ClaimedMessage>)
    ensures multiset(InsertSorted(m, ms)) == multiset(ms) + multiset{m}
  {
    if ms != [] && !Leq(m, ms[0]) {
      InsertMembers(m, ms[1..]);
      assert ms == [ms[0]] + ms[1..];
    }
  }

  lemma LeqChain(a: ClaimedMessage, b: ClaimedMessage, c: ClaimedMessage)
    requires Leq(a, b) && Leq(b, c)
    ensures Leq(a, c)
  {
    if a.createdAt == b.createdAt == c.createdAt { TextTransitive(a.id, b.id, c.id); }
  }

  lemma {:induction false} InsertKeepsSorted(m: ClaimedMessage, ms: seq<ClaimedMessage>)
    requires Sorted(ms)
    ensures Sorted(InsertSorted(m, ms))
  {
    if ms == [] {
    } else if Leq(m, ms[0]) {
      forall j | 0 <= j < |ms| ensures Leq(m, ms[j]) {
        if j > 0 { LeqChain(m, ms[0], ms[j]); }
      }
    } else {
      TextTotal(m.id, ms[0].id);
      InsertKeepsSorted(m, ms[1..]);
      InsertMembers(m, ms[1..]);
      var tail := InsertSorted(m, ms[1..]);
      forall j | 0 <= j < |tail| ensures Leq(ms[0], tail[j]) {
        assert tail[j] in multiset(tail);
        assert tail[j] in ms[1..] || tail[j] == m;
      }
    }
  }

  lemma {:induction false} SortCorrect(ms: seq<ClaimedMessage>)
    ensures Sorted(Sort(ms)) && multiset(Sort(ms)) == multiset(ms)
  {
    if ms != [] {
      SortCorrect(ms[1..]);
      InsertKeepsSorted(ms[0], Sort(ms[1..]));
      InsertMembers(ms[0], Sort(ms[1..]));
      assert ms == [ms[0]] + ms[1..];
    }
  }

  // ----- one topic -------------------------------------------------------------------------

  function ReadyIds(rows: Rows, topic: string, now: int): set<string> {
    set id | id in rows && rows[id].topic == topic && Ready(rows[id], now)
  }

  /** `limit.clamp(1, 128)`. */
  function Clamp(limit: nat): nat { if limit < 1 then 1 else if limit > 128 then 128 else limit }

  /** A selection of the oldest ready messages, at most `limit`, in no particular order. */
  ghost predicate Oldest(rows: Rows, topic: string, now: int, limit: nat, ids: seq<string>) {
    var ready := ReadyIds(rows, topic, now);
    && Distinct(ids)
    && (forall i :: 0 <= i < |ids| ==> ids[i] in ready)
    && |ids| <= limit && (|ids| < limit ==> forall id :: id in ready ==> id in ids)
    && (forall id, i :: id in ready && id !in ids && 0 <= i < |ids| ==>
          rows[ids[i]].createdAt <= rows[id].createdAt)
  }

  // What the statement selects: the ready messages of the topic, by creation, the first `limit` of
  // them. Messages created at the same time come in the order the scan meets them.

  /** The scan meets every ready message of the topic once. */
  ghost predicate Scans(rows: Rows, topic: string, now: int, scan: seq<string>) {
    Distinct(scan) && forall id :: id in scan <==> id in ReadyIds(rows, topic, now)
  }

  predicate AllIn(rows: Rows, ids: seq<string>) { forall id :: id in ids ==> id in rows }

  function InsertByAge(rows: Rows, id: string, ids: seq<string>): (r: seq<string>)
    requires id in rows && AllIn(rows, ids)
    ensures |r| == |ids| + 1 && AllIn(rows, r) && forall x :: x in r <==> x == id || x in ids
  {
    if ids == [] || rows[id].createdAt <= rows[ids[0]].createdAt then [id] + ids
    else
      assert ids == [ids[0]] + ids[1..];
      [ids[0]] + InsertByAge(rows, id, ids[1..])
  }

  function ByAge(rows: Rows, ids: seq<string>): (r: seq<string>)
    requires AllIn(rows, ids)
    ensures |r| == |ids| && AllIn(rows, r) && forall x :: x in r <==> x in ids
  {
    if ids == [] then []
    else
      assert ids == [ids[0]] + ids[1..];
      InsertByAge(rows, ids[0], ByAge(rows, ids[1..]))
  }

  function Selected(rows: Rows, scan: seq<string>, limit: nat): seq<string>
    requires AllIn(rows, scan)
  {
    var sorted := ByAge(rows, scan);
    if |sorted| <= limit then sorted else sorted[..limit]
  }

  predicate AgeSorted(rows: Rows, ids: seq<string>)
    requires AllIn(rows, ids)
  {
    forall i, j :: 0 <= i < j < |ids| ==> rows[ids[i]].createdAt <= rows[ids[j]].createdAt
  }

  lemma {:induction false} InsertByAgeSorts(rows: Rows, id: string, ids: seq<string>)
    requires id in rows && AllIn(rows, ids) && AgeSorted(rows, ids) && Distinct(ids) && id !in ids
    ensures AgeSorted(rows, InsertByAge(rows, id, ids)) && Distinct(InsertByAge(rows, id, ids))
  {
    if ids != [] && rows[id].createdAt > rows[ids[0]].createdAt {
      var rest := ids[1..];
      assert id !in rest && ids[0] !in rest;
      InsertByAgeSorts(rows, id, rest);
      var tail := InsertByAge(rows, id, rest);
      hide InsertByAge;
      forall j | 0 <= j < |tail|
        ensures rows[ids[0]].createdAt <= rows[tail[j]].createdAt && tail[j] != ids[0]
      {
        assert tail[j] in tail;
        if tail[j] != id {
          var i :| 0 <= i < |rest| && rest[i] == tail[j];
          assert ids[i + 1] == tail[j];
        }
      }
      PrependOldest(rows, ids[0], tail);
      assert InsertByAge(rows, id, ids) == [ids[0]] + tail by { InsertLater(rows, id, ids); }
    } else {
      PrependOldest(rows, id, ids);
    }
  }

  lemma InsertLater(rows: Rows, id: string, ids: seq<string>)
    requires id in rows && AllIn(rows, ids) && ids != [] && rows[id].createdAt > rows[ids[0]].createdAt
    ensures AllIn(rows, ids[1..])
    ensures InsertByAge(rows, id, ids) == [ids[0]] + InsertByAge(rows, id, ids[1..])
  {
  }

  lemma PrependOldest(rows: Rows, id: string, ids: seq<string>)
    requires id in rows && AllIn(rows, ids) && AgeSorted(rows, ids) && Distinct(ids) && id !in ids
    requires forall j :: 0 <= j < |ids| ==> rows[id].createdAt <= rows[ids[j]].createdAt
    ensures AllIn(rows, [id] + ids) && AgeSorted(rows, [id] + ids) && Distinct([id] + ids)
  {
    var r := [id] + ids;
    forall i, j | 0 <= i < j < |r|
      ensures r[i] != r[j] && rows[r[i]].createdAt <= rows[r[j]].createdAt
    {
      assert r[j] == ids[j - 1];
      if i > 0 { assert r[i] == ids[i - 1]; }
    }
  }

  lemma {:induction false} ByAgeSorts(rows: Rows, ids: seq<string>)
    requires AllIn(rows, ids) && Distinct(ids)
    ensures AgeSorted(rows, ByAge(rows, ids)) && Distinct(ByAge(rows, ids))
  {
    if ids != [] {
      ByAgeSorts(rows, ids[1..]);
      InsertByAgeSorts(rows, ids[0], ByAge(rows, ids[1..]));
    }
  }

  lemma ScanIn(rows: Rows, topic: string, now: int, scan: seq<string>)
    requires Scans(rows, topic, now, scan)
    ensures AllIn(rows, scan) && forall id :: id in ReadyIds(rows, topic, now) ==> id in rows
  {
  }

  lemma PrefixIn(sorted: seq<string>, n: nat, id: string)
    requires n <= |sorted| && id in sorted && id !in sorted[..n]
    ensures exists j :: n <= j < |sorted| && sorted[j] == id
  {
    var j :| 0 <= j < |sorted| && sorted[j] == id;
    assert forall m :: 0 <= m < n ==> sorted[m] in sorted[..n];
  }

  /** What is selected are the oldest ready messages, whatever the order of the scan. */
  lemma SelectionIsOldest(rows: Rows, topic: string, now: int, scan: seq<string>, limit: nat)
    requires Scans(rows, topic, now, scan)
    ensures AllIn(rows, scan) && Oldest(rows, topic, now, limit, Selected(rows, scan, limit))
  {
    ScanIn(rows, topic, now, scan);
    ByAgeSorts(rows, scan);
    hide ReadyIds, Ready, ByAge;
    var sorted, ids := ByAge(rows, scan), Selected(rows, scan, limit);
    var n := |ids|;
    assert ids == sorted[..n];
    forall i | 0 <= i < n ensures ids[i] in ReadyIds(rows, topic, now) { assert sorted[i] in sorted; }
    forall id, i | id in ReadyIds(rows, topic, now) && id !in ids && 0 <= i < n
      ensures rows[ids[i]].createdAt <= rows[id].createdAt
    {
      PrefixIn(sorted, n, id);
      var j :| n <= j < |sorted| && sorted[j] == id;
      assert rows[sorted[i]].createdAt <= rows[sorted[j]].createdAt;
    }
  }

  /** There is such a scan, so there is something to select. */
  lemma ScanExists(rows: Rows, topic: string, now: int) returns (scan: seq<string>)
    ensures Scans(rows, topic, now, scan)
  {
    scan := [];
    var left := ReadyIds(rows, topic, now);
    while left != {}
      invariant left <= ReadyIds(rows, topic, now) && Distinct(scan)
      invariant forall id :: id in scan <==> id in ReadyIds(rows, topic, now) - left
      decreases |left|
    {
      var id :| id in left;
      assert id !in scan;
      forall i | 0 <= i < |scan| ensures scan[i] != id { assert scan[i] in scan; }
      scan := scan + [id];
      left := left - {id};
    }
  }

  function Messages(rows: Rows, ids: seq<string>, lease: string): (ms: seq<ClaimedMessage>)
    requires forall i :: 0 <= i < |ids| ==> ids[i] in rows
    ensures |ms| == |ids| && forall i :: 0 <= i < |ids| ==> ms[i] == Message(rows, ids[i], lease)
  {
    seq(|ids|, i requires 0 <= i < |ids| => Message(rows, ids[i], lease))
  }

  /** The message is handed over as its row has it, under the lease and with the attempt counted. */
  predicate Tells(m: ClaimedMessage, r: Row, lease: string) {
    && m.topic == r.topic && m.payload == r.payload && m.createdAt == r.createdAt
    && m.lease == lease && m.attempts == r.attempts + 1
  }

  /** Created earlier, or at the same time with a smaller id. */
  predicate Older(rows: Rows, a: string, b: string)
    requires a in rows && b in rows
  {
    rows[a].createdAt < rows[b].createdAt || (rows[a].createdAt == rows[b].createdAt && TextLeq(a, b))
  }

  /** The messages handed over are those of `ids`, once each, oldest first. */
  predicate HandsOver(rows: Rows, ids: seq<string>, lease: string, ms: seq<ClaimedMessage>) {
    && |ms| == |ids| && (forall i :: 0 <= i < |ids| ==> ids[i] in rows)
    && (forall i :: 0 <= i < |ms| ==> ms[i].id in ids && ms[i].id in rows && Tells(ms[i], rows[ms[i].id], lease))
    && (forall i, j :: 0 <= i < j < |ms| ==> ms[i].id != ms[j].id && Older(rows, ms[i].id, ms[j].id))
  }

  /** Only the rows of `ids` changed, from pending to processing. */
  predicate Takes(before: Rows, after: Rows, ids: seq<string>, lease: string, until: int) {
    && after.Keys == before.Keys
    && forall id :: id in before ==>
         if id in ids then
           before[id].status == Pending
           && after[id] == before[id].(status := Processing, attempts := before[id].attempts + 1,
                                       lease := Some(lease), nextAt := until)
         else after[id] == before[id]
  }

  /** `ms` are the oldest ready messages of `topic` under a new lease, oldest first, and only
      their rows changed. */
  ghost predicate ClaimsTopic(before: Rows, after: Rows, topic: string, now: int, limit: nat,
                              lease: string, until: int, ids: seq<string>, ms: seq<ClaimedMessage>) {
    && Oldest(before, topic, now, limit, ids)
    && HandsOver(before, ids, lease, ms) && Takes(before, after, ids, lease, until)
    && after == Apply(before, Op.Claim(Elements(ids), lease, until))
  }

  /** As many as are ready, and no more than asked for: at least one, at most 128. */
  predicate Enough(n: nat, ready: nat, limit: nat) {
    var most := if limit == 0 then 1 else if limit <= 128 then limit else 128;
    n == if ready <= most then ready else most
  }

  lemma HowMany(rows: Rows, topic: string, now: int, limit: nat, ids: seq<string>)
    requires Oldest(rows, topic, now, Clamp(limit), ids)
    ensures Enough(|ids|, |ReadyIds(rows, topic, now)|, limit)
  {
    var ready := ReadyIds(rows, topic, now);
    hide ReadyIds;
    ElementsSize(ids);
    assert Elements(ids) <= ready;
    SubsetSize(Elements(ids), ready);
    if |ids| < Clamp(limit) { assert Elements(ids) == ready; }
  }

  method ClaimTopic(rows: Rows, topic: string, now: int, limit: nat, lease: string, until: int,
                    scan: seq<string>)
    returns (rows': Rows, ms: seq<ClaimedMessage>, ghost ids: seq<string>)
    requires Scans(rows, topic, now, scan)
    ensures ClaimsTopic(rows, rows', topic, now, Clamp(limit), lease, until, ids, ms)
    ensures Enough(|ms|, |ReadyIds(rows, topic, now)|, limit)
    ensures ms == [] <==> ReadyIds(rows, topic, now) == {}
    ensures ms == [] ==> rows' == rows
  {
    hide Sort, Sorted, Oldest, Ready, Scans, Selected, HandsOver, Takes, Enough;
    SelectionIsOldest(rows, topic, now, scan, Clamp(limit));
    var picked := Selected(rows, scan, Clamp(limit));
    ids := picked;
    OldestIn(rows, topic, now, Clamp(limit), ids);
    var found := Messages(rows, picked, lease);
    rows' := map id | id in rows ::
      if id in Elements(picked) && rows[id].status.Pending? then Claimed(rows[id], lease, until) else rows[id];
    ms := Sort(found);
    SortedMessages(rows, ids, lease);
    PickedTaken(rows, topic, now, Clamp(limit), lease, until, ids);
    HowMany(rows, topic, now, limit, ids);
    OldestNone(rows, topic, now, Clamp(limit), ids);
    assert ids == [] ==> rows' == rows;
  }

  lemma OldestIn(rows: Rows, topic: string, now: int, limit: nat, ids: seq<string>)
    requires Oldest(rows, topic, now, limit, ids)
    ensures Distinct(ids) && forall i :: 0 <= i < |ids| ==> ids[i] in rows
  {
  }

  /** The selection is empty only if there is nothing to select. */
  lemma OldestNone(rows: Rows, topic: string, now: int, limit: nat, ids: seq<string>)
    requires Oldest(rows, topic, now, limit, ids) && limit >= 1
    ensures ids == [] <==> ReadyIds(rows, topic, now) == {}
  {
    if ids != [] { assert ids[0] in ReadyIds(rows, topic, now); }
  }

  lemma PickedTaken(rows: Rows, topic: string, now: int, limit: nat, lease: string, until: int, ids: seq<string>)
    requires Oldest(rows, topic, now, limit, ids)
    ensures Takes(rows, Apply(rows, Op.Claim(Elements(ids), lease, until)), ids, lease, until)
  {
    forall id | id in ids ensures id in rows && rows[id].status == Pending {
      var i :| 0 <= i < |ids| && ids[i] == id;
      assert ids[i] in ReadyIds(rows, topic, now);
    }
  }

  lemma SortedMessages(rows: Rows, ids: seq<string>, lease: string)
    requires Distinct(ids) && forall i :: 0 <= i < |ids| ==> ids[i] in rows
    ensures HandsOver(rows, ids, lease, Sort(Messages(rows, ids, lease)))
    ensures |Sort(Messages(rows, ids, lease))| == |ids|
  {
    hide Sort;
    var found := Messages(rows, ids, lease);
    var ms := Sort(found);
    SortCorrect(found);
    assert |ms| == |multiset(ms)| == |multiset(found)| == |found|;
    forall i | 0 <= i < |ms|
      ensures ms[i].id in ids && ms[i].id in rows && Tells(ms[i], rows[ms[i].id], lease)
    {
      assert ms[i] in multiset(ms);
      assert ms[i] in multiset(found);
      var j :| 0 <= j < |found| && found[j] == ms[i];
    }
    forall i, j | 0 <= i < j < |ms| ensures ms[i].id != ms[j].id && Older(rows, ms[i].id, ms[j].id) {
      assert Leq(ms[i], ms[j]);
      SortedApart(rows, ids, lease, i, j);
    }
  }

  lemma SortedApart(rows: Rows, ids: seq<string>, lease: string, i: nat, j: nat)
    requires Distinct(ids) && forall i :: 0 <= i < |ids| ==> ids[i] in rows
    requires i < j < |Sort(Messages(rows, ids, lease))|
    ensures var ms := Sort(Messages(rows, ids, lease)); ms[i].id != ms[j].id
  {
    hide Sort, Sorted;
    var found := Messages(rows, ids, lease);
    var ms := Sort(found);
    SortCorrect(found);
    if ms[i].id == ms[j].id {
      assert ms[i] in multiset(ms) && ms[j] in multiset(ms);
      var a :| 0 <= a < |found| && found[a] == ms[i];
      var b :| 0 <= b < |found| && found[b] == ms[j];
      assert ids[a] == ids[b];
      assert ms[i] == ms[j];
      OnceEach(ms, i, j);
      FoundOnce(found, a);
    }
  }

  lemma OnceEach(ms: seq<ClaimedMessage>, i: nat, j: nat)
    requires i < j < |ms| && ms[i] == ms[j]
    ensures multiset(ms)[ms[i]] >= 2
  {
    assert ms == ms[..i] + [ms[i]] + ms[i + 1..j] + [ms[j]] + ms[j + 1..];
  }

  lemma FoundOnce(ms: seq<ClaimedMessage>, a: nat)
    requires a < |ms| && forall i, j :: 0 <= i < j < |ms| ==> ms[i] != ms[j]
    ensures multiset(ms)[ms[a]] == 1
  {
    assert ms == ms[..a] + [ms[a]] + ms[a + 1..];
    assert ms[a] !in ms[..a] && ms[a] !in ms[a + 1..];
  }

  // ----- rotation --------------------------------------------------------------------------

  function Round(topics: seq<string>, from: nat, offset: nat): string
    requires topics != []
  {
    topics[(from + offset) % |topics|]
  }

  /** The first topic the filter matches, going round the list from `from`. */
  ghost function FirstMatch(filter: string, topics: seq<string>, from: nat, offset: nat): Option<string>
    decreases |topics| - offset
  {
    if offset >= |topics| then None
    else
      var t := Round(topics, from, offset);
      if Matches(filter, t) then Some(t) else FirstMatch(filter, topics, from, offset + 1)
  }

  /** The topic a wildcard claim serves: the first shard, going round from `start`, that has a
      matching topic, and in it the first one, going round from `start / 16`. */
  ghost function Served(filter: string, start: nat, listing: nat -> seq<string>, offset: nat): Option<string>
    decreases SHARDS - offset
  {
    if offset >= SHARDS then None
    else
      var found := FirstMatch(filter, listing(ShardAt(start, offset)), start / SHARDS, 0);
      if found.Some? then found else Served(filter, start, listing, offset + 1)
  }

  /** Going round from anywhere comes past every place. */
  lemma RoundTrip(from: nat, n: nat, p: nat) returns (offset: nat)
    requires p < n
    ensures offset < n && (from + offset) % n == p
  {
    var r, q := from % n, from / n;
    assert from == n * q + r;
    if p >= r {
      offset := p - r;
      ModOf(n, q, p);
    } else {
      offset := p + n - r;
      assert n * q + n == n * (q + 1);
      ModOf(n, q + 1, p);
    }
  }

  lemma MulAtLeast(n: nat, d: int)
    ensures d >= 1 ==> n * d >= n
    ensures d <= -1 ==> n * d + n <= 0
  {
  }

  lemma ModOf(n: nat, q: nat, p: nat)
    requires p < n
    ensures (n * q + p) % n == p
  {
    var x := n * q + p;
    var a, b := x / n, x % n;
    assert x == n * a + b;
    assert n * (a - q) == p - b;
    MulAtLeast(n, a - q);
  }

  lemma {:induction false} FirstMatchSound(filter: string, topics: seq<string>, from: nat, offset: nat)
    ensures var f := FirstMatch(filter, topics, from, offset);
      && (f.Some? ==> f.value in topics && Matches(filter, f.value))
      && (f.None? ==> forall o :: offset <= o < |topics| ==> !Matches(filter, Round(topics, from, o)))
    decreases |topics| - offset
  {
    if offset < |topics| { FirstMatchSound(filter, topics, from, offset + 1); }
  }

  /** Nothing is served from a shard exactly when none of its topics match. */
  lemma NoMatchAnywhere(filter: string, topics: seq<string>, from: nat)
    ensures FirstMatch(filter, topics, from, 0).None? <==> forall t :: t in topics ==> !Matches(filter, t)
  {
    FirstMatchSound(filter, topics, from, 0);
    if FirstMatch(filter, topics, from, 0).None? {
      forall t | t in topics ensures !Matches(filter, t) {
        var p :| 0 <= p < |topics| && topics[p] == t;
        var o := RoundTrip(from, |topics|, p);
        assert !Matches(filter, Round(topics, from, o));
      }
    }
  }

  // ----- the claim -------------------------------------------------------------------------

  /** What an exact filter selects is what it matches (`ExactFilter`). */
  ghost predicate Selects(filter: string, topic: string) {
    if IsWildcardFilter(filter) then Matches(filter, topic) else filter == topic
  }

  lemma SelectsIsMatches(filter: string, topic: string)
    requires filter != ""
    ensures Selects(filter, topic) <==> Matches(filter, topic)
  {
    if !IsWildcardFilter(filter) { ExactFilter(filter, topic); }
  }

  /** Every row lives in the shard of its topic. */
  predicate Placed(shards: seq<Rows>) {
    && |shards| == SHARDS
    && forall k, id :: 0 <= k < SHARDS && id in shards[k] ==> TopicShard(shards[k][id].topic) == k
  }

  /** The listing names exactly the topics with a ready message, each once. */
  ghost predicate Lists(rows: Rows, now: int, topics: seq<string>) {
    Distinct(topics) && forall t :: t in topics <==> ReadyIds(rows, t, now) != {}
  }

  /** What the database says about the shards during one claim: listings at `scanAt`, and at
      `claimAt` a scan of the ready messages of any topic. */
  ghost predicate Told(shards: seq<Rows>, start: int, listing: nat -> seq<string>, scanAt: nat -> int,
                       claimAt: int, scan: string -> seq<string>)
    requires |shards| == SHARDS
  {
    && (forall k :: 0 <= k < SHARDS ==>
          start <= scanAt(k) <= claimAt && Lists(shards[k], scanAt(k), listing(k)))
    && (forall t :: Scans(shards[TopicShard(t)], t, claimAt, scan(t)))
  }

  /** No message the filter selects was ready when the claim began. */
  ghost predicate NothingReady(shards: seq<Rows>, filter: string, now: int) {
    forall k, id :: 0 <= k < |shards| && id in shards[k] && Selects(filter, shards[k][id].topic) ==>
      !Ready(shards[k][id], now)
  }

  /** A listed topic stays claimable until the claim. */
  lemma ListedIsReady(shards: seq<Rows>, start: int, listing: nat -> seq<string>, scanAt: nat -> int,
                      claimAt: int, scan: string -> seq<string>, k: nat, t: string)
    requires Placed(shards) && Told(shards, start, listing, scanAt, claimAt, scan)
    requires k < SHARDS && t in listing(k)
    ensures TopicShard(t) == k && ReadyIds(shards[k], t, claimAt) != {}
  {
    var id :| id in ReadyIds(shards[k], t, scanAt(k));
    assert id in ReadyIds(shards[k], t, claimAt);
  }

  lemma UnlistedIsIdle(shards: seq<Rows>, start: int, listing: nat -> seq<string>, scanAt: nat -> int,
                       claimAt: int, scan: string -> seq<string>, k: nat, id: string)
    requires Placed(shards) && Told(shards, start, listing, scanAt, claimAt, scan)
    requires k < SHARDS && id in shards[k] && shards[k][id].topic !in listing(k)
    ensures !Ready(shards[k][id], start)
  {
    var t := shards[k][id].topic;
    assert Lists(shards[k], scanAt(k), listing(k));
    assert id !in ReadyIds(shards[k], t, scanAt(k));
  }

  lemma ClaimPlaced(shards: seq<Rows>, k: nat, rows: Rows, topic: string, now: int, limit: nat,
                    lease: string, until: int, ids: seq<string>, ms: seq<ClaimedMessage>)
    requires Placed(shards) && k < SHARDS
    requires ClaimsTopic(shards[k], rows, topic, now, Clamp(limit), lease, until, ids, ms)
    ensures Placed(shards[k := rows])
  {
    hide TopicShard, Oldest;
  }

  /** The shards and the rotation counter shared by all wildcard claims. */
  class Broker {
    var shards: seq<Rows>
    var counter: nat

    ghost predicate Valid()
      reads this
    {
      Placed(shards) && counter < COUNTER
    }

    /** Claims from one topic, wherever it lives. */
    method ClaimBatchForTopic(topic: string, now: int, limit: nat, lease: string, until: int,
                              scan: seq<string>)
      returns (ms: seq<ClaimedMessage>, ghost ids: seq<string>)
      requires Valid() && Scans(shards[TopicShard(topic)], topic, now, scan)
      modifies this`shards
      ensures Valid()
      ensures var k := TopicShard(topic);
        && shards == old(shards)[k := shards[k]]
        && ClaimsTopic(old(shards)[k], shards[k], topic, now, Clamp(limit), lease, until, ids, ms)
        && (ms == [] <==> ReadyIds(old(shards)[k], topic, now) == {})
        && Enough(|ms|, |ReadyIds(old(shards)[k], topic, now)|, limit)
      ensures ms == [] ==> shards == old(shards)
    {
      hide TopicShard, ClaimsTopic, ReadyIds, Oldest, Scans, Enough;
      var k := TopicShard(topic);
      ghost var before := shards;
      var rows;
      rows, ms, ids := ClaimTopic(shards[k], topic, now, limit, lease, until, scan);
      ClaimPlaced(shards, k, rows, topic, now, limit, lease, until, ids, ms);
      shards := shards[k := rows];
      assert shards == before[k := shards[k]];
      assert ms == [] ==> before[k := before[k]] == before;
    }

    /** The topics of one shard, going round from `start / 16`. */
    method TryShard(filter: string, start: nat, k: nat, topics: seq<string>, claimAt: int, limit: nat,
                    lease: string, until: int, scan: string -> seq<string>, ghost began: int,
                    ghost listing: nat -> seq<string>, ghost scanAt: nat -> int)
      returns (topic: Option<string>, ms: seq<ClaimedMessage>, ghost ids: seq<string>)
      requires Valid() && k < SHARDS && topics == listing(k)
      requires Told(shards, began, listing, scanAt, claimAt, scan)
      modifies this`shards
      ensures Valid()
      ensures topic == FirstMatch(filter, topics, start / SHARDS, 0)
      ensures topic.None? ==> ms == [] && shards == old(shards)
      ensures topic.Some? ==>
        && ms != [] && TopicShard(topic.value) == k && shards == old(shards)[k := shards[k]]
        && ClaimsTopic(old(shards)[k], shards[k], topic.value, claimAt, Clamp(limit), lease, until,
                       ids, ms)
    {
      hide TopicShard, ClaimsTopic, Matches, Placed;
      var from := start / SHARDS;
      for offset := 0 to |topics|
        invariant Valid() && shards == old(shards)
        invariant FirstMatch(filter, topics, from, 0) == FirstMatch(filter, topics, from, offset)
      {
        var t := Round(topics, from, offset);
        var matched := FilterMatches(filter, t);
        if matched {
          ListedIsReady(shards, began, listing, scanAt, claimAt, scan, k, t);
          ms, ids := ClaimBatchForTopic(t, claimAt, limit, lease, until, scan(t));
          if ms != [] {
            return Some(t), ms, ids;
          }
        }
      }
      topic, ms, ids := None, [], [];
    }

    /** The round over the shards for a wildcard filter, from where the counter points. */
    method ClaimRound(filter: string, claimAt: int, limit: nat, lease: string, until: int,
                      listing: nat -> seq<string>, scan: string -> seq<string>,
                      ghost began: int, ghost scanAt: nat -> int)
      returns (topic: Option<string>, ms: seq<ClaimedMessage>, ghost ids: seq<string>)
      requires Valid() && Told(shards, began, listing, scanAt, claimAt, scan) && IsWildcardFilter(filter)
      modifies this
      ensures Valid()
      ensures topic == Served(filter, old(counter), listing, 0) && counter == (old(counter) + 1) % 0x1_0000_0000_0000_0000
      ensures topic.None? ==> ms == [] && shards == old(shards) && NothingReady(shards, filter, began)
      ensures topic.Some? ==>
        var k := TopicShard(topic.value);
        && ms != [] && Selects(filter, topic.value) && shards == old(shards)[k := shards[k]]
        && ClaimsTopic(old(shards)[k], shards[k], topic.value, claimAt, Clamp(limit), lease, until,
                       ids, ms)
    {
      hide TopicShard, ClaimsTopic, Matches, Placed, FirstMatch, ShardAt, Told;
      var start := counter;
      counter := (counter + 1) % COUNTER;
      ghost var before := shards;
      for offset := 0 to SHARDS
        invariant Valid() && shards == before && counter == (start + 1) % COUNTER
        invariant Served(filter, start, listing, 0) == Served(filter, start, listing, offset)
        invariant NoneUpTo(filter, start, listing, offset)
      {
        var k := ShardAt(start, offset);
        ShardAtBound(start, offset);
        topic, ms, ids := TryShard(filter, start, k, listing(k), claimAt, limit, lease, until, scan,
                                   began, listing, scanAt);
        if topic.Some? {
          FirstMatchSound(filter, listing(k), start / SHARDS, 0);
          return;
        }
      }
      NothingFound(shards, filter, start, began, listing, scanAt, claimAt, scan);
      topic, ms, ids := None, [], [];
    }

    /** `claim_batch_for_filter`, with no other claim in between. */
    method ClaimBatchForFilter(filter: string, claimAt: int, limit: nat, lease: string, until: int,
                               listing: nat -> seq<string>, scan: string -> seq<string>,
                               ghost began: int, ghost scanAt: nat -> int)
      returns (topic: Option<string>, ms: seq<ClaimedMessage>, ghost ids: seq<string>)
      requires Valid() && Told(shards, began, listing, scanAt, claimAt, scan)
      modifies this
      ensures Valid()
      ensures IsWildcardFilter(filter) ==>
        topic == Served(filter, old(counter), listing, 0) && counter == (old(counter) + 1) % 0x1_0000_0000_0000_0000
      ensures !IsWildcardFilter(filter) ==> counter == old(counter)
      ensures topic.None? ==> ms == [] && shards == old(shards) && NothingReady(shards, filter, began)
      ensures topic.Some? ==>
        var k := TopicShard(topic.value);
        && ms != [] && Selects(filter, topic.value) && shards == old(shards)[k := shards[k]]
        && ClaimsTopic(old(shards)[k], shards[k], topic.value, claimAt, Clamp(limit), lease, until,
                       ids, ms)
    {
      if !IsWildcardFilter(filter) {
        ExactNothing(shards, filter, began, claimAt, scanAt(0));
        ms, ids := ClaimBatchForTopic(filter, claimAt, limit, lease, until, scan(filter));
        topic := if ms == [] then None else Some(filter);
        return;
      }
      topic, ms, ids := ClaimRound(filter, claimAt, limit, lease, until, listing, scan, began, scanAt);
    }
  }

  lemma ShardAtBound(start: nat, offset: nat)
    ensures ShardAt(start, offset) < SHARDS
  {
  }

  ghost predicate NoneUpTo(filter: string, start: nat, listing: nat -> seq<string>, offset: nat) {
    forall o :: 0 <= o < offset ==>
      FirstMatch(filter, listing(ShardAt(start, o)), start / SHARDS, 0).None?
  }

  lemma ExactNothing(shards: seq<Rows>, filter: string, began: int, claimAt: int, scan: int)
    requires Placed(shards) && !IsWildcardFilter(filter) && began <= scan <= claimAt
    ensures ReadyIds(shards[TopicShard(filter)], filter, claimAt) == {} ==>
      NothingReady(shards, filter, began)
  {
    hide TopicShard;
    forall k, id | 0 <= k < SHARDS && id in shards[k] && Selects(filter, shards[k][id].topic)
        && Ready(shards[k][id], began)
      ensures ReadyIds(shards[TopicShard(filter)], filter, claimAt) != {}
    {
      assert id in ReadyIds(shards[k], filter, claimAt);
    }
  }

  /** A full round without a match means no matching message was ready. */
  lemma NothingFound(shards: seq<Rows>, filter: string, start: nat, began: int,
                     listing: nat -> seq<string>, scanAt: nat -> int, claimAt: int,
                     scan: string -> seq<string>)
    requires Placed(shards) && IsWildcardFilter(filter)
    requires Told(shards, began, listing, scanAt, claimAt, scan)
    requires NoneUpTo(filter, start, listing, SHARDS)
    ensures NothingReady(shards, filter, began)
  {
    hide TopicShard, Matches, FirstMatch;
    forall k, id | 0 <= k < SHARDS && id in shards[k] && Selects(filter, shards[k][id].topic)
      ensures !Ready(shards[k][id], began)
    {
      var o := RoundTrip(start, SHARDS, k);
      assert ShardAt(start, o) == k;
      NoMatchAnywhere(filter, listing(k), start / SHARDS);
      UnlistedIsIdle(shards, began, listing, scanAt, claimAt, scan, k, id);
    }
  }

  // ----- fairness --------------------------------------------------------------------------

  /** When the rotation points at a matching topic, that topic is served. */
  lemma PointedAt(filter: string, topics: seq<string>, q: nat, p: nat)
    requires p < |topics| && Matches(filter, topics[p]) && q % |topics| == p
    ensures FirstMatch(filter, topics, q, 0) == Some(topics[p])
  {
  }

  /** Shard `k` offers the listing `topics` to every one of these claims. */
  ghost predicate Steady(listings: (nat, nat) -> seq<string>, k: nat, topics: seq<string>,
                         first: nat, count: nat) {
    forall s :: first <= s < first + count ==> listings(s, k) == topics
  }

  /** While a shard keeps the same `n` ready topics, any `16 * n` consecutive wildcard claims
      serve every one of them the filter matches. Claim number `s` sees the listings
      `listings(s, _)`; the counter does not wrap in between. */
  lemma EveryTopicGetsItsTurn(filter: string, listings: (nat, nat) -> seq<string>, k: nat,
                              topics: seq<string>, first: nat, p: nat) returns (s: nat)
    requires k < SHARDS && p < |topics| && Matches(filter, topics[p])
    requires Steady(listings, k, topics, first, SHARDS * |topics|)
    ensures first <= s < first + SHARDS * |topics|
    ensures Served(filter, s, (k': nat) => listings(s, k'), 0) == Some(topics[p])
  {
    var n := |topics|;
    // the first claim of the window that starts at shard k
    var o := RoundTrip(first, SHARDS, k);
    var s0 := first + o;
    var q0 := s0 / SHARDS;
    assert s0 == SHARDS * q0 + k;
    // sweeps later the rotation points at p
    var d := RoundTrip(q0, n, p);
    s := SHARDS * (q0 + d) + k;
    assert s == s0 + SHARDS * d;
    assert SHARDS * d + SHARDS <= SHARDS * n;
    ModOf(SHARDS, q0 + d, k);
    assert s / SHARDS == q0 + d;
    assert ShardAt(s, 0) == k;
    PointedAt(filter, topics, q0 + d, p);
  }

  // ----- how many claims a turn takes ------------------------------------------------------

  ghost function MatchingTopics(filter: string, topics: seq<string>): set<string> {
    set i | 0 <= i < |topics| && Matches(filter, topics[i]) :: topics[i]
  }

  /** The topic served in sweep `q + j`. */
  ghost function Turn(filter: string, topics: seq<string>, q: nat, j: nat): Option<string> {
    FirstMatch(filter, topics, q + j, 0)
  }

  /** One of the sweeps `q .. q + n` serves `t`. */
  ghost predicate ServedWithin(filter: string, topics: seq<string>, q: nat, t: string, n: nat) {
    exists j: nat :: j < n && Turn(filter, topics, q, j) == Some(t)
  }

  lemma RoundStart(topics: seq<string>, u: nat)
    requires u < |topics|
    ensures Round(topics, u, 0) == topics[u]
  {
    ModOf(|topics|, 0, u);
  }

  lemma RoundEnd(topics: seq<string>, u: nat, d: nat, p: nat)
    requires p < |topics| && (u + d) % |topics| == p
    ensures Round(topics, u, d) == topics[p]
  {
  }

  lemma RoundSum(topics: seq<string>, a: nat, b: nat, c: nat, d: nat)
    requires topics != [] && a + b == c + d
    ensures Round(topics, a, b) == Round(topics, c, d)
  {
  }

  /** A sweep that meets a stranger first serves what the next sweep meets first. */
  lemma SkipOne(filter: string, topics: seq<string>, q: nat)
    requires |topics| >= 2
    requires !Matches(filter, Round(topics, q, 0)) && Matches(filter, Round(topics, q, 1))
    ensures Turn(filter, topics, q, 0) == Turn(filter, topics, q, 1)
  {
    hide Matches;
    RoundSum(topics, q, 1, q + 1, 0);
    hide Round;
    assert FirstMatch(filter, topics, q, 0) == FirstMatch(filter, topics, q, 1);
    assert FirstMatch(filter, topics, q, 1) == Some(Round(topics, q, 1));
    assert FirstMatch(filter, topics, q + 1, 0) == Some(Round(topics, q + 1, 0));
  }

  /** Somewhere a matching topic follows one that does not match; the rotation serves it twice. */
  lemma ServedTwice(filter: string, topics: seq<string>, u: nat, p: nat) returns (q: nat)
    requires u < |topics| && p < |topics| && !Matches(filter, topics[u]) && Matches(filter, topics[p])
    ensures Turn(filter, topics, q, 0) == Turn(filter, topics, q, 1)
  {
    var d := RoundTrip(u, |topics|, p);
    RoundStart(topics, u);
    RoundEnd(topics, u, d, p);
    hide Matches, Round, Turn;
    var o := 1;
    while !Matches(filter, Round(topics, u, o))
      invariant 1 <= o <= d && !Matches(filter, Round(topics, u, o - 1))
      decreases d - o
    {
      o := o + 1;
    }
    q := u + o - 1;
    RoundSum(topics, q, 0, u, o - 1);
    RoundSum(topics, q, 1, u, o);
    SkipOne(filter, topics, q);
  }

  ghost function ServedFrom(filter: string, topics: seq<string>, q: nat, j: nat, n: nat)
    : (served: set<string>)
    requires j <= n
    ensures |served| <= n - j
    ensures forall i: nat :: j <= i < n && Turn(filter, topics, q, i).Some? ==>
      Turn(filter, topics, q, i).value in served
    decreases n - j
  {
    if j == n then {}
    else
      var rest := ServedFrom(filter, topics, q, j + 1, n);
      var t := Turn(filter, topics, q, j);
      if t.Some? then rest + {t.value} else rest
  }

  /** With a stranger among two or more matching topics, some `n` sweeps leave one of them out. */
  lemma TooFewTurns(filter: string, topics: seq<string>, n: nat) returns (q: nat, missed: string)
    requires n == |MatchingTopics(filter, topics)| && 2 <= n
    requires exists u :: 0 <= u < |topics| && !Matches(filter, topics[u])
    ensures missed in MatchingTopics(filter, topics) && !ServedWithin(filter, topics, q, missed, n)
  {
    var u :| 0 <= u < |topics| && !Matches(filter, topics[u]);
    assert MatchingTopics(filter, topics) != {};
    var some :| some in MatchingTopics(filter, topics);
    var p :| 0 <= p < |topics| && topics[p] == some;
    q := ServedTwice(filter, topics, u, p);
    hide Matches, FirstMatch, Turn;
    var served := ServedFrom(filter, topics, q, 1, n);
    assert |served| < n;
    if MatchingTopics(filter, topics) <= served { SubsetSize(MatchingTopics(filter, topics), served); }
    missed :| missed in MatchingTopics(filter, topics) && missed !in served;
    assert !ServedWithin(filter, topics, q, missed, n) by {
      assert Turn(filter, topics, q, 0) == Turn(filter, topics, q, 1);
    }
  }

  // ----- claims ----------------------------------------------------------------------------

  /** What claim number `s` serves. */
  ghost function ServedBy(filter: string, listings: (nat, nat) -> seq<string>, s: nat): Option<string> {
    Served(filter, s, (k: nat) => listings(s, k), 0)
  }

  ghost predicate ServedAmong(filter: string, listings: (nat, nat) -> seq<string>, first: nat,
                              count: nat, t: string) {
    exists s: nat :: first <= s < first + count && ServedBy(filter, listings, s) == Some(t)
  }

  /** Whatever the other shards hold, any `16 * n` consecutive claims during which a shard keeps
      this listing serve every one of its matching topics. */
  ghost predicate Fair(filter: string, topics: seq<string>, n: nat) {
    forall listings: (nat, nat) -> seq<string>, k: nat, first: nat, t ::
      k < SHARDS && Steady(listings, k, topics, first, SHARDS * n) && t in MatchingTopics(filter, topics)
      ==> ServedAmong(filter, listings, first, SHARDS * n, t)
  }

  /** A claim that starts at the shard serves that shard's turn. */
  lemma StartsHere(filter: string, listings: (nat, nat) -> seq<string>, k: nat, topics: seq<string>, q: nat)
    requires k < SHARDS && listings(SHARDS * q + k, k) == topics && MatchingTopics(filter, topics) != {}
    ensures FirstMatch(filter, topics, q, 0).Some?
    ensures ServedBy(filter, listings, SHARDS * q + k) == FirstMatch(filter, topics, q, 0)
  {
    hide Matches, FirstMatch;
    var s := SHARDS * q + k;
    ModOf(SHARDS, q, k);
    assert s / SHARDS == q && ShardAt(s, 0) == k;
    NoMatchAnywhere(filter, topics, q);
    var t :| t in MatchingTopics(filter, topics);
    assert t in topics;
  }

  lemma FairIfOne(filter: string, topics: seq<string>, listings: (nat, nat) -> seq<string>, k: nat,
                  first: nat, t: string)
    requires |MatchingTopics(filter, topics)| == 1 && t in MatchingTopics(filter, topics)
    requires k < SHARDS && Steady(listings, k, topics, first, SHARDS)
    ensures ServedAmong(filter, listings, first, SHARDS, t)
  {
    hide Matches, FirstMatch, Served;
    var o := RoundTrip(first, SHARDS, k);
    var s := first + o;
    var q := s / SHARDS;
    assert s == SHARDS * q + k;
    StartsHere(filter, listings, k, topics, q);
    FirstMatchSound(filter, topics, q, 0);
    var found := FirstMatch(filter, topics, q, 0).value;
    assert found in MatchingTopics(filter, topics);
    OnlyElement(MatchingTopics(filter, topics), found, t);
    assert ServedBy(filter, listings, s) == Some(t);
  }

  lemma FairIfAll(filter: string, topics: seq<string>, listings: (nat, nat) -> seq<string>, k: nat,
                  first: nat, t: string)
    requires k < SHARDS && Steady(listings, k, topics, first, SHARDS * |topics|)
    requires t in MatchingTopics(filter, topics)
    ensures ServedAmong(filter, listings, first, SHARDS * |topics|, t)
  {
    var p :| 0 <= p < |topics| && Matches(filter, topics[p]) && topics[p] == t;
    var s := EveryTopicGetsItsTurn(filter, listings, k, topics, first, p);
    assert ServedBy(filter, listings, s) == Some(t);
  }

  /** Only shard `k` has anything ready. */
  function Alone(k: nat, topics: seq<string>): (listings: (nat, nat) -> seq<string>)
    ensures forall s: nat, j: nat :: listings(s, j) == if j == k then topics else []
  {
    (s: nat, j: nat) => if j == k then topics else []
  }

  lemma NothingListed(filter: string, from: nat)
    ensures FirstMatch(filter, [], from, 0).None?
  {
  }

  lemma OneShardOnly(s: nat, x: nat, o: nat)
    requires x < o < SHARDS
    ensures ShardAt(s, x) != ShardAt(s, o)
  {
  }

  lemma {:induction false} PassEmptyShards(filter: string, k: nat, listing: nat -> seq<string>, s: nat,
                                           x: nat, o: nat)
    requires k < SHARDS && x <= o < SHARDS && ShardAt(s, o) == k
    requires forall j: nat :: j != k ==> listing(j) == []
    requires FirstMatch(filter, listing(k), s / SHARDS, 0).Some?
    ensures Served(filter, s, listing, x) == FirstMatch(filter, listing(k), s / SHARDS, 0)
    decreases o - x
  {
    hide Matches, FirstMatch, ShardAt;
    if x < o {
      OneShardOnly(s, x, o);
      NothingListed(filter, s / SHARDS);
      PassEmptyShards(filter, k, listing, s, x + 1, o);
    }
  }

  /** Then every claim serves the turn of its sweep. */
  lemma AloneServes(filter: string, k: nat, topics: seq<string>, s: nat)
    requires k < SHARDS && MatchingTopics(filter, topics) != {}
    ensures ServedBy(filter, Alone(k, topics), s) == FirstMatch(filter, topics, s / SHARDS, 0)
  {
    hide Matches, FirstMatch, Served;
    var o := RoundTrip(s, SHARDS, k);
    var t :| t in MatchingTopics(filter, topics);
    assert t in topics;
    NoMatchAnywhere(filter, topics, s / SHARDS);
    var listings := Alone(k, topics);
    hide Alone;
    var listing := (j: nat) => listings(s, j);
    assert listing(k) == topics;
    PassEmptyShards(filter, k, listing, s, 0, o);
  }

  lemma UnfairIfStranger(filter: string, topics: seq<string>, n: nat)
    requires n == |MatchingTopics(filter, topics)| && 2 <= n
    requires exists u :: 0 <= u < |topics| && !Matches(filter, topics[u])
    ensures !Fair(filter, topics, n)
  {
    var q, missed := TooFewTurns(filter, topics, n);
    hide Matches, FirstMatch, Served;
    var listings, first := Alone(0, topics), SHARDS * q;
    assert Steady(listings, 0, topics, first, SHARDS * n);
    forall s: nat | first <= s < first + SHARDS * n ensures ServedBy(filter, listings, s) != Some(missed) {
      AloneServes(filter, 0, topics, s);
      var j := s / SHARDS - q;
      assert 0 <= j < n;
      assert Turn(filter, topics, q, j) != Some(missed);
    }
    assert !ServedAmong(filter, listings, first, SHARDS * n, missed);
  }

  /** Counting only the `n` matching topics of a shard, any `16 * n` consecutive claims serve each
      of them, whatever the other shards hold, exactly when no other topic is ready in that shard
      or at most one matches. */
  lemma FairExactly(filter: string, topics: seq<string>)
    requires Distinct(topics)
    ensures var n := |MatchingTopics(filter, topics)|;
      Fair(filter, topics, n) <==> n == |topics| || n <= 1
  {
    var n := |MatchingTopics(filter, topics)|;
    ElementsSize(topics);
    SubsetSize(MatchingTopics(filter, topics), Elements(topics));
    if n == |topics| || n <= 1 {
      forall listings: (nat, nat) -> seq<string>, k: nat, first: nat, t
        | k < SHARDS && Steady(listings, k, topics, first, SHARDS * n) && t in MatchingTopics(filter, topics)
        ensures ServedAmong(filter, listings, first, SHARDS * n, t)
      {
        if n == |topics| {
          FairIfAll(filter, topics, listings, k, first, t);
        } else {
          FairIfOne(filter, topics, listings, k, first, t);
        }
      }
    } else {
      var others := Elements(topics) - MatchingTopics(filter, topics);
      assert Elements(topics) == MatchingTopics(filter, topics) + others;
      assert others != {};
      var t :| t in others;
      var u :| 0 <= u < |topics| && topics[u] == t;
      UnfairIfStranger(filter, topics, n);
    }
  }

  const EXAMPLE := ["a", "c/c", "q"]

  lemma ExampleMatches()
    ensures Matches("+", "a") && Matches("+", "q") && !Matches("+", "c/c")
  {
    assert Split("+") == ["+"] && Split("a") == ["a"] && Split("q") == ["q"];
    assert Split("c/c") == ["c", "c"] by { SplitAppend("c", "c"); assert Split("c") == ["c"]; }
    assert HashAt(["+"]) == 1;
  }

  lemma ExampleShards()
    ensures TopicShard("a") == 12 && TopicShard("q") == 12 && TopicShard("c/c") == 12
  {
    hide TopicShard;
    ShardOfOne('a');
    ShardOfOne('q');
    ShardOfThree();
  }

  /** One-letter names whose code ends in 1. */
  lemma ShardOfOne(c: char)
    requires c as nat % 16 == 1
    ensures TopicShard([c]) == 12
  {
    hide Xor, LowBits, TopicShard;
    ShardByLowBits([c]);
    XorFour(5, 1);
    LowStep([c], 5, 12);
    assert [c][1..] == "";
    LowNone(12);
  }

  lemma ShardOfThree()
    ensures TopicShard("c/c") == 12
  {
    hide Xor, LowBits, TopicShard;
    ShardByLowBits("c/c");
    XorFour(5, 3);
    XorFour(2, 15);
    XorFour(7, 3);
    LowStep("c/c", 5, 2);
    LowStep("/c", 2, 7);
    LowStep("c", 7, 12);
    assert "c/c"[1..] == "/c" && "/c"[1..] == "c" && "c"[1..] == "";
    LowNone(12);
  }

  /** Three topics of shard 12, in the order the index lists them, two of which `+` matches: for 32
      claims in a row, as many as are said to suffice for two topics, the first one gets nothing. */
  lemma StrangerStarvesAMatch(s: nat)
    requires 16 <= s < 48
    ensures forall t :: t in EXAMPLE ==> TopicShard(t) == 12
    ensures Steady(Alone(12, EXAMPLE), 12, EXAMPLE, 16, SHARDS * 2)
    ensures MatchingTopics("+", EXAMPLE) == {"a", "q"}
    ensures ServedBy("+", Alone(12, EXAMPLE), s) == Some("q")
  {
    hide TopicShard;
    ExampleShards();
    ExampleMatches();
    hide Matches;
    assert EXAMPLE[0] == "a" && EXAMPLE[1] == "c/c" && EXAMPLE[2] == "q";
    assert "a" in MatchingTopics("+", EXAMPLE);
    AloneServes("+", 12, EXAMPLE, s);
    var turn := s / SHARDS;
    assert turn == 1 || turn == 2;
    if turn == 1 {
      assert Round(EXAMPLE, 1, 0) == "c/c" && Round(EXAMPLE, 1, 1) == "q";
      assert FirstMatch("+", EXAMPLE, 1, 1) == Some("q");
    } else {
      assert Round(EXAMPLE, 2, 0) == "q";
    }
  }
}
