/** The live subscriptions (`TopicSubscribers` in src/subscribers.rs): for every filter the sessions
    subscribed to it, each with the stream it is served on. */
module Subscribers {
  import opened Topic

  /** A stream is known by its number. */
  type Live = map<string, map<string, nat>>

  predicate Subscribed(live: Live, filter: string, session: string) {
    filter in live && session in live[filter]
  }

  /** The session has the filter, and the filter matches the topic. */
  ghost predicate ReachesBy(live: Live, filter: string, topic: string, session: string) {
    Subscribed(live, filter, session) && Matches(filter, topic)
  }

  ghost predicate Reaches(live: Live, topic: string, session: string) {
    exists filter :: ReachesBy(live, filter, topic, session)
  }

  /** No filter is kept without a session. */
  predicate NoneEmpty(live: Live) { forall filter :: filter in live ==> live[filter] != map[] }

  function Added(live: Live, filter: string, session: string, stream: nat): Live {
    live[filter := (if filter in live then live[filter] else map[])[session := stream]]
  }

  function Removed(live: Live, filter: string, session: string): Live {
    if filter !in live then live
    else
      var rest := live[filter] - {session};
      if rest == map[] then live - {filter} else live[filter := rest]
  }

  /** A subscription that ends leaves the subscriptions as they were before it began. */
  lemma RemoveUndoesAdd(live: Live, filter: string, session: string, stream: nat)
    requires NoneEmpty(live) && !Subscribed(live, filter, session)
    ensures NoneEmpty(Added(live, filter, session, stream))
    ensures Removed(Added(live, filter, session, stream), filter, session) == live
  {
    if filter in live {
      assert live[filter][session := stream] - {session} == live[filter];
    } else {
      assert map[session := stream] - {session} == map[];
    }
  }

  lemma RemovedExactly(live: Live, filter: string, session: string, f: string, s: string)
    requires NoneEmpty(live)
    ensures NoneEmpty(Removed(live, filter, session))
    ensures Subscribed(Removed(live, filter, session), f, s)
            <==> Subscribed(live, f, s) && !(f == filter && s == session)
  {
    if filter in live {
      var rest := live[filter] - {session};
      assert s in rest <==> s in live[filter] && s != session;
    }
  }

  class TopicSubscribers {
    var live: Live

    predicate Valid()
      reads this
    {
      NoneEmpty(live)
    }

    constructor ()
      ensures Valid() && live == map[]
    {
      live := map[];
    }

    method Add(filter: string, session: string, stream: nat)
      requires Valid()
      modifies this
      ensures Valid() && live == Added(old(live), filter, session, stream)
      ensures forall f, s ::
        Subscribed(live, f, s) <==> Subscribed(old(live), f, s) || (f == filter && s == session)
    {
      live := Added(live, filter, session, stream);
      assert session in live[filter];
    }

    method Remove(filter: string, session: string)
      requires Valid()
      modifies this
      ensures Valid() && live == Removed(old(live), filter, session)
      ensures forall f, s ::
        Subscribed(live, f, s) <==> Subscribed(old(live), f, s) && !(f == filter && s == session)
    {
      forall f, s
        ensures NoneEmpty(Removed(live, filter, session))
        ensures Subscribed(Removed(live, filter, session), f, s)
                <==> Subscribed(live, f, s) && !(f == filter && s == session)
      {
        RemovedExactly(live, filter, session, f, s);
      }
      if filter in live {
        var sessions := live[filter] - {session};
        if sessions == map[] {
          live := live - {filter};
        } else {
          live := live[filter := sessions];
        }
      }
    }

    /** Some session would be sent the message. */
    method Covers(topic: string) returns (r: bool)
      requires Valid()
      ensures r <==> exists session :: Reaches(live, topic, session)
    {
      var left := live.Keys;
      while left != {}
        invariant left <= live.Keys
        invariant forall f, s :: f !in left ==> !ReachesBy(live, f, topic, s)
        decreases |left|
      {
        var filter :| filter in left;
        var matches := FilterMatches(filter, topic);
        if live[filter] != map[] && matches {
          ghost var session :| session in live[filter];
          assert ReachesBy(live, filter, topic, session);
          assert Reaches(live, topic, session);
          return true;
        }
        left := left - {filter};
      }
      return false;
    }

    /** Each session with a matching filter once, on a stream it has under such a filter. */
    method MatchingSenders(topic: string) returns (seen: map<string, nat>)
      requires Valid()
      ensures forall s :: s in seen <==> Reaches(live, topic, s)
      ensures forall s :: s in seen ==> StreamOf(live, topic, s, seen[s])
    {
      seen := map[];
      var left := live.Keys;
      while left != {}
        invariant left <= live.Keys
        invariant forall f, s :: f !in left && ReachesBy(live, f, topic, s) ==> s in seen
        invariant forall s :: s in seen ==> StreamOf(live, topic, s, seen[s])
        decreases |left|
      {
        var filter :| filter in left;
        left := left - {filter};
        var matches := FilterMatches(filter, topic);
        if matches {
          seen := live[filter] + seen;
          forall s | s in seen ensures StreamOf(live, topic, s, seen[s]) {
            if s in live[filter] { assert ReachesBy(live, filter, topic, s); }
          }
        }
      }
    }
  }

  ghost predicate StreamOf(live: Live, topic: string, session: string, stream: nat) {
    exists filter :: ReachesBy(live, filter, topic, session) && live[filter][session] == stream
  }
}
