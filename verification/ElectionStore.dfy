/** The broker side of leader election (src/election.rs): one row per election name, overwritten
    by campaigns on an expired lease, extended by renewals and cut short by resignations. Clock
    readings (milliseconds) and lease identifiers come in as parameters. */
module ElectionStore {
  import opened Wrappers

  const I64_MAX: int := 0x7fff_ffff_ffff_ffff

  datatype Lease = Lease(leader: string, term: nat, lease: string, expireAt: int)

  type Rows = map<string, Lease>

  predicate ValidTtl(ttl: int) { 1 <= ttl <= 3600 }

  /** `now.saturating_add(ttl * 1000)`. */
  function Expiry(now: int, ttl: int): int {
    if now + 1000 * ttl > I64_MAX then I64_MAX else now + 1000 * ttl
  }

  predicate Active(row: Lease, now: int) { row.expireAt > now }

  /** `remaining_ttl_ms`, measured at `now`. */
  function RemainingTtl(row: Lease, now: int): (ms: nat)
    ensures row.expireAt <= now + ms && (ms > 0 ==> row.expireAt == now + ms)
  {
    if row.expireAt > now then row.expireAt - now else 0
  }

  /** The conflict clause of the campaign statement lets a new term in. */
  predicate Open(rows: Rows, name: string, now: int) {
    name !in rows || rows[name].expireAt <= now
  }

  /** The guard of renew and resign: exactly this leader, term and lease, still running. */
  predicate Holds(rows: Rows, name: string, leader: string, term: nat, lease: string, now: int) {
    && name in rows && rows[name].leader == leader && rows[name].term == term
    && rows[name].lease == lease && rows[name].expireAt > now
  }

  function Granted(rows: Rows, name: string, candidate: string, ttl: int, lease: string, now: int)
    : Lease
  {
    Lease(candidate, if name in rows then rows[name].term + 1 else 1, lease, Expiry(now, ttl))
  }

  datatype Command =
    | Campaign(name: string, candidate: string, ttl: int, lease: string, now: int)
    | Renew(name: string, leader: string, term: nat, lease: string, ttl: int, now: int)
    | Resign(name: string, leader: string, term: nat, lease: string, now: int)

  function Apply(rows: Rows, c: Command): Rows {
    match c
    case Campaign(name, candidate, ttl, lease, now) =>
      if Open(rows, name, now) then rows[name := Granted(rows, name, candidate, ttl, lease, now)]
      else rows
    case Renew(name, leader, term, lease, ttl, now) =>
      if Holds(rows, name, leader, term, lease, now)
      then rows[name := rows[name].(expireAt := Expiry(now, ttl))] else rows
    case Resign(name, leader, term, lease, now) =>
      if Holds(rows, name, leader, term, lease, now)
      then rows[name := rows[name].(expireAt := now)] else rows
  }

  predicate IsLease(row: Lease, leader: string, term: nat, lease: string) {
    row.leader == leader && row.term == term && row.lease == lease
  }

  /** The lease expires `ttl` seconds after `now`, or with the clock. */
  predicate RunsFor(row: Lease, now: int, ttl: int) {
    && (now + 1000 * ttl <= 9223372036854775807 ==> row.expireAt == now + 1000 * ttl)
    && (9223372036854775807 < now + 1000 * ttl ==> row.expireAt == 9223372036854775807)
  }

  /** The table as the service updates it. */
  class ElectionStore {
    var rows: Rows

    constructor ()
      ensures rows == map[]
    {
      rows := map[];
    }

    /** `won` is judged at `checkedAt`, after the statement ran at `now`. */
    method Campaign(name: string, candidate: string, ttl: int, lease: string, now: int,
                    checkedAt: int) returns (won: bool, leader: Lease)
      modifies this
      ensures rows == Apply(old(rows), Command.Campaign(name, candidate, ttl, lease, now))
      ensures rows == old(rows)[name := leader]
      ensures name !in old(rows) ==> IsLease(leader, candidate, 1, lease) && RunsFor(leader, now, ttl)
      ensures name in old(rows) && old(rows)[name].expireAt <= now ==>
        IsLease(leader, candidate, old(rows)[name].term + 1, lease) && RunsFor(leader, now, ttl)
      ensures name in old(rows) && now < old(rows)[name].expireAt ==> leader == old(rows)[name]
      ensures won <==> checkedAt < leader.expireAt && leader.leader == candidate
    {
      if name !in rows {
        rows := rows[name := Lease(candidate, 1, lease, Expiry(now, ttl))];
      } else if rows[name].expireAt <= now {
        rows := rows[name := Lease(candidate, rows[name].term + 1, lease, Expiry(now, ttl))];
      }
      leader := rows[name];
      won := Active(leader, checkedAt) && leader.leader == candidate;
    }

    method Renew(name: string, leader: string, term: nat, lease: string, ttl: int, now: int)
      returns (renewed: Option<Lease>)
      modifies this
      ensures rows == Apply(old(rows), Command.Renew(name, leader, term, lease, ttl, now))
      ensures renewed.Some? <==>
        name in old(rows) && IsLease(old(rows)[name], leader, term, lease) && now < old(rows)[name].expireAt
      ensures renewed.Some? ==>
        && IsLease(renewed.value, leader, term, lease) && RunsFor(renewed.value, now, ttl)
        && rows == old(rows)[name := renewed.value]
      ensures renewed.None? ==> rows == old(rows)
    {
      if Holds(rows, name, leader, term, lease, now) {
        rows := rows[name := rows[name].(expireAt := Expiry(now, ttl))];
        renewed := Some(rows[name]);
      } else {
        renewed := None;
      }
    }

    method Resign(name: string, leader: string, term: nat, lease: string, now: int)
      returns (resigned: bool)
      modifies this
      ensures rows == Apply(old(rows), Command.Resign(name, leader, term, lease, now))
      ensures resigned <==>
        name in old(rows) && IsLease(old(rows)[name], leader, term, lease) && now < old(rows)[name].expireAt
      ensures resigned ==> rows == old(rows)[name := Lease(leader, term, lease, now)]
      ensures !resigned ==> rows == old(rows)
    {
      resigned := Holds(rows, name, leader, term, lease, now);
      if resigned {
        rows := rows[name := rows[name].(expireAt := now)];
      }
    }
  }

  // ----- terms over a run ------------------------------------------------------------------

  /** One term of an election: who held it, and from when to when. */
  datatype Term = Term(leader: string, lease: string, start: int, end: int)

  /** The table with the record of every term, oldest first, and the last clock reading. */
  datatype World = World(rows: Rows, terms: map<string, seq<Term>>, clock: int)

  predicate Possible(w: World, c: Command) {
    w.clock <= c.now <= I64_MAX && (c.Resign? || ValidTtl(c.ttl))
  }

  function TermOf(row: Lease, start: int): Term {
    Term(row.leader, row.lease, start, row.expireAt)
  }

  /** Rewrites the record of the current term after the row changed. */
  function Recorded(w: World, c: Command): map<string, seq<Term>>
    requires Sound(w)
  {
    var rows' := Apply(w.rows, c);
    if c.name !in rows' || (c.name in w.rows && rows'[c.name] == w.rows[c.name]) then w.terms
    else if c.Campaign? then
      w.terms[c.name := (if c.name in w.terms then w.terms[c.name] else [])
                        + [TermOf(rows'[c.name], c.now)]]
    else
      var ts := w.terms[c.name];
      w.terms[c.name := ts[|ts| - 1 := ts[|ts| - 1].(end := rows'[c.name].expireAt)]]
  }

  function Step(w: World, c: Command): World
    requires Sound(w)
  {
    World(Apply(w.rows, c), Recorded(w, c), c.now)
  }

  /** Terms never overlap: each one ends before any later one starts. */
  predicate Disjoint(ts: seq<Term>) {
    && (forall i :: 0 <= i < |ts| ==> ts[i].start <= ts[i].end)
    && (forall i, j :: 0 <= i < j < |ts| ==> ts[i].end <= ts[j].start)
  }

  /** The row of a name is its latest term, and its term number counts the terms. */
  predicate SoundName(w: World, name: string)
    requires name in w.rows && name in w.terms
  {
    var ts := w.terms[name];
    && ts != [] && w.rows[name].term == |ts|
    && ts[|ts| - 1] == TermOf(w.rows[name], ts[|ts| - 1].start)
    && ts[|ts| - 1].start <= w.clock
    && Disjoint(ts)
  }

  predicate Sound(w: World) {
    && w.rows.Keys == w.terms.Keys
    && forall name :: name in w.rows ==> SoundName(w, name)
  }

  /** Terms already granted keep their number, holder, lease and start; only the end of the
      latest one may still move, and at most one term is added. */
  predicate Extends(old_: seq<Term>, new_: seq<Term>) {
    && |old_| <= |new_| <= |old_| + 1
    && (forall i :: 0 <= i < |old_| ==>
          && new_[i].leader == old_[i].leader && new_[i].lease == old_[i].lease
          && new_[i].start == old_[i].start)
    && (forall i :: 0 <= i < |old_| - 1 ==> new_[i] == old_[i])
    && (|new_| > |old_| ==> forall i :: 0 <= i < |old_| ==> new_[i] == old_[i])
  }

  lemma GrantSound(w: World, c: Command)
    requires Sound(w) && Possible(w, c) && c.Campaign? && Open(w.rows, c.name, c.now)
    ensures var w' := Step(w, c);
      c.name in w'.rows && c.name in w'.terms && SoundName(w', c.name)
  {
    var w' := Step(w, c);
    var ts := if c.name in w.terms then w.terms[c.name] else [];
    assert c.name in w.rows ==> SoundName(w, c.name);
    assert w'.terms[c.name] == ts + [TermOf(w'.rows[c.name], c.now)];
  }

  lemma ExtendSound(w: World, c: Command)
    requires Sound(w) && Possible(w, c) && !c.Campaign?
    requires Holds(w.rows, c.name, c.leader, c.term, c.lease, c.now)
    ensures var w' := Step(w, c);
      c.name in w'.rows && c.name in w'.terms && SoundName(w', c.name)
  {
    assert SoundName(w, c.name);
  }

  /** Whether the command changes its row. */
  predicate Takes(rows: Rows, c: Command) {
    if c.Campaign? then Open(rows, c.name, c.now)
    else Holds(rows, c.name, c.leader, c.term, c.lease, c.now)
  }

  lemma OthersSound(w: World, c: Command, name: string)
    requires Sound(w) && Possible(w, c) && name in Step(w, c).rows
    requires name != c.name || !Takes(w.rows, c)
    ensures name in w.rows && name in Step(w, c).terms && SoundName(Step(w, c), name)
  {
    assert name in w.rows;
    assert SoundName(w, name);
  }

  lemma StepSound(w: World, c: Command)
    requires Sound(w) && Possible(w, c)
    ensures Sound(Step(w, c))
  {
    var w' := Step(w, c);
    assert w'.rows.Keys == w'.terms.Keys;
    hide SoundName;
    forall name | name in w'.rows
      ensures name in w'.terms && SoundName(w', name)
    {
      if name != c.name || !Takes(w.rows, c) { OthersSound(w, c, name); }
      else if c.Campaign? { GrantSound(w, c); }
      else { ExtendSound(w, c); }
    }
  }

  lemma StepExtends(w: World, c: Command, name: string)
    requires Sound(w) && Possible(w, c) && name in w.terms
    ensures name in Step(w, c).terms && Extends(w.terms[name], Step(w, c).terms[name])
  {
    assert SoundName(w, name);
  }

  ghost predicate PossibleRun(w: World, cs: seq<Command>)
    requires Sound(w)
    decreases |cs|
  {
    cs == [] || (Possible(w, cs[0]) && (StepSound(w, cs[0]); PossibleRun(Step(w, cs[0]), cs[1..])))
  }

  ghost function Run(w: World, cs: seq<Command>): (w': World)
    requires Sound(w) && PossibleRun(w, cs)
    ensures Sound(w')
    decreases |cs|
  {
    if cs == [] then w else StepSound(w, cs[0]); Run(Step(w, cs[0]), cs[1..])
  }

  /** Over every run, a granted (name, term) has one leader and one lease forever. */
  lemma {:induction false} TermIdentityForever(w: World, cs: seq<Command>, name: string, i: nat)
    requires Sound(w) && PossibleRun(w, cs) && name in w.terms && i < |w.terms[name]|
    ensures var w' := Run(w, cs);
      && name in w'.terms && i < |w'.terms[name]|
      && w'.terms[name][i].leader == w.terms[name][i].leader
      && w'.terms[name][i].lease == w.terms[name][i].lease
      && w'.terms[name][i].start == w.terms[name][i].start
      && (i < |w.terms[name]| - 1 ==> w'.terms[name][i] == w.terms[name][i])
    decreases |cs|
  {
    if cs != [] {
      StepSound(w, cs[0]);
      StepExtends(w, cs[0], name);
      TermIdentityForever(Step(w, cs[0]), cs[1..], name, i);
    }
  }

  /** Over every run the terms of one name never overlap in time, and the row's fencing term
      is the number of grants so far. */
  lemma TermsNeverOverlap(cs: seq<Command>, start: int, name: string, i: nat, j: nat)
    requires Sound(World(map[], map[], start)) && PossibleRun(World(map[], map[], start), cs)
    requires var w := Run(World(map[], map[], start), cs);
      name in w.terms && i < j < |w.terms[name]|
    ensures var w := Run(World(map[], map[], start), cs);
      && name in w.rows && w.rows[name].term == |w.terms[name]|
      && w.terms[name][i].end <= w.terms[name][j].start
  {
    var w := Run(World(map[], map[], start), cs);
    assert SoundName(w, name);
  }

  /** This term is over: a later one exists, or its lease ran out or was resigned. */
  predicate Over(w: World, name: string, term: nat) {
    && name in w.rows
    && (term < w.rows[name].term
        || (term == w.rows[name].term && w.rows[name].expireAt <= w.clock))
  }

  lemma OverStays(w: World, c: Command, name: string, term: nat)
    requires Sound(w) && Possible(w, c) && Over(w, name, term)
    ensures Over(Step(w, c), name, term)
  {
  }

  /** A term that is over is never revived: after any run, and whatever holder and lease are
      claimed, renewing or resigning it is refused. */
  lemma {:induction false} OverIsRefused(w: World, cs: seq<Command>, name: string, leader: string,
                                         term: nat, lease: string, now: int)
    requires Sound(w) && PossibleRun(w, cs) && Over(w, name, term)
    requires now >= Run(w, cs).clock
    ensures Over(Run(w, cs), name, term)
    ensures !Holds(Run(w, cs).rows, name, leader, term, lease, now)
    decreases |cs|
  {
    if cs != [] {
      StepSound(w, cs[0]);
      OverStays(w, cs[0], name, term);
      OverIsRefused(Step(w, cs[0]), cs[1..], name, leader, term, lease, now);
    }
  }

  // ----- how long a term runs --------------------------------------------------------------

  /** The term is the current one and open to no other candidate before `until`. */
  predicate RunsUntil(rows: Rows, name: string, leader: string, term: nat, lease: string, until: int) {
    name in rows && IsLease(rows[name], leader, term, lease) && until <= rows[name].expireAt
  }

  /** So at the beginning and after each command. */
  ghost predicate RunsThroughout(w: World, cs: seq<Command>, name: string, leader: string, term: nat, lease: string,
                                 until: int)
    requires Sound(w) && PossibleRun(w, cs)
    decreases |cs|
  {
    && RunsUntil(w.rows, name, leader, term, lease, until)
    && (cs == [] || (StepSound(w, cs[0]); RunsThroughout(Step(w, cs[0]), cs[1..], name, leader, term, lease, until)))
  }

  /** The command is by the holder of the term, and resigns it or renews it for less. */
  predicate Cuts(c: Command, name: string, leader: string, term: nat, lease: string, until: int) {
    && c.name == name && !c.Campaign? && c.leader == leader && c.term == term && c.lease == lease
    && (c.Renew? ==> c.now + 1000 * c.ttl < until)
  }

  lemma CutsExactly(w: World, c: Command, name: string, leader: string, term: nat, lease: string, until: int)
    requires Sound(w) && Possible(w, c) && c.now < until <= I64_MAX
    requires RunsUntil(w.rows, name, leader, term, lease, until)
    ensures RunsUntil(Step(w, c).rows, name, leader, term, lease, until)
      <==> !Cuts(c, name, leader, term, lease, until)
  {
  }

  lemma {:induction false} RunsUnlessCut(w: World, cs: seq<Command>, name: string, leader: string, term: nat,
                                         lease: string, until: int)
    requires Sound(w) && PossibleRun(w, cs) && until <= I64_MAX
    requires RunsUntil(w.rows, name, leader, term, lease, until)
    requires forall i :: 0 <= i < |cs| ==> cs[i].now < until
    ensures RunsThroughout(w, cs, name, leader, term, lease, until)
      <==> forall i :: 0 <= i < |cs| ==> !Cuts(cs[i], name, leader, term, lease, until)
    decreases |cs|
  {
    if cs != [] {
      StepSound(w, cs[0]);
      CutsExactly(w, cs[0], name, leader, term, lease, until);
      if !Cuts(cs[0], name, leader, term, lease, until) {
        RunsUnlessCut(Step(w, cs[0]), cs[1..], name, leader, term, lease, until);
        assert forall i :: 0 < i < |cs| ==> cs[i] == cs[1..][i - 1];
      }
    }
  }

  /** The command grants or renews this term for its lifetime. */
  predicate Begins(rows: Rows, c: Command, leader: string, term: nat, lease: string) {
    match c
    case Campaign(name, candidate, _, l, now) =>
      && leader == candidate && lease == l && (name in rows ==> rows[name].expireAt <= now)
      && term == if name in rows then rows[name].term + 1 else 1
    case Renew(name, who, t, l, _, now) =>
      && leader == who && term == t && lease == l
      && name in rows && IsLease(rows[name], who, t, l) && now < rows[name].expireAt
    case Resign(_, _, _, _, _) => false
  }

  lemma BeginsToRun(rows: Rows, c: Command, leader: string, term: nat, lease: string)
    requires Begins(rows, c, leader, term, lease) && c.now + 1000 * c.ttl <= I64_MAX
    ensures RunsUntil(Apply(rows, c), c.name, leader, term, lease, c.now + 1000 * c.ttl)
  {
  }

  /** A term granted or renewed at `c.now` is open to no other candidate for `c.ttl` seconds, in
      every run, if and only if its holder neither resigns it nor renews it for less. */
  lemma TermRunsItsTime(w: World, c: Command, cs: seq<Command>, leader: string, term: nat, lease: string)
    requires Sound(w) && Begins(w.rows, c, leader, term, lease) && !c.Resign? && c.now + 1000 * c.ttl <= I64_MAX
    requires Sound(Step(w, c)) && PossibleRun(Step(w, c), cs)
    requires forall i :: 0 <= i < |cs| ==> cs[i].now < c.now + 1000 * c.ttl
    ensures RunsThroughout(Step(w, c), cs, c.name, leader, term, lease, c.now + 1000 * c.ttl)
      <==> forall i :: 0 <= i < |cs| ==> !Cuts(cs[i], c.name, leader, term, lease, c.now + 1000 * c.ttl)
  {
    hide Sound, PossibleRun, RunsThroughout, RunsUntil, Recorded, Apply, Cuts, Begins;
    BeginsToRun(w.rows, c, leader, term, lease);
    RunsUnlessCut(Step(w, c), cs, c.name, leader, term, lease, c.now + 1000 * c.ttl);
  }

  /** A resigned term is open to every candidate at once. */
  lemma ResignedIsOpen(w: World, leader: string, candidate: string, name: string, term: nat, lease: string,
                       next: string, ttl: int, now: int)
    requires Sound(w) && name in w.rows && IsLease(w.rows[name], leader, term, lease)
    requires w.clock <= now < w.rows[name].expireAt && now + 1000 * ttl <= I64_MAX
    ensures var rows := Apply(w.rows, Resign(name, leader, term, lease, now));
      Apply(rows, Campaign(name, candidate, ttl, next, now))
      == w.rows[name := Lease(candidate, term + 1, next, now + 1000 * ttl)]
  {
  }

  /** A renewal may shorten a term: one of an hour, renewed for a second, is another candidate's
      after that second. */
  lemma ShorterRenewalCuts()
    ensures var granted := Apply(map[], Campaign("e", "a", 3600, "x", 0));
      var renewed := Apply(granted, Renew("e", "a", 1, "x", 1, 0));
      && RunsUntil(granted, "e", "a", 1, "x", 3600000)
      && Apply(renewed, Campaign("e", "b", 1, "y", 1000)) == map["e" := Lease("b", 2, "y", 2000)]
  {
    var granted := Apply(map[], Campaign("e", "a", 3600, "x", 0));
    assert granted == map["e" := Lease("a", 1, "x", 3600000)];
    var renewed := Apply(granted, Renew("e", "a", 1, "x", 1, 0));
    assert renewed == map["e" := Lease("a", 1, "x", 1000)];
  }
}
