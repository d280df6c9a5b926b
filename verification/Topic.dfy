/** Topic names and topic filters (src/topic.rs).

    A name or filter is a sequence of levels separated by `/`; `+` stands for one level and a
    final `#` for the parent level and everything below it (section 4.7 of MQTT 3.1.1). */
module Topic {
  import opened Wrappers

  // ----- levels ----------------------------------------------------------------------------

  /** The levels of `s`: what `str::split('/')` yields, so never empty. */
  function Split(s: string): (levels: seq<string>)
    ensures |levels| > 0
  {
    if '/' !in s then [s]
    else if s[0] == '/' then [""] + Split(s[1..])
    else
      var rest := Split(s[1..]);
      [[s[0]] + rest[0]] + rest[1..]
  }

  /** The levels written with a `/` between neighbours. */
  function Join(levels: seq<string>): string
    requires |levels| > 0
  {
    if |levels| == 1 then levels[0] else levels[0] + "/" + Join(levels[1..])
  }

  /** Prefixing the first level prefixes the text. */
  lemma JoinCons(c: char, levels: seq<string>)
    requires |levels| > 0
    ensures Join([[c] + levels[0]] + levels[1..]) == [c] + Join(levels)
  {
    var ls := [[c] + levels[0]] + levels[1..];
    assert ls[1..] == levels[1..];
    if |levels| > 1 {
      assert Join(ls) == ([c] + levels[0]) + "/" + Join(levels[1..]);
    }
  }

  lemma {:induction false} JoinSplit(s: string)
    ensures Join(Split(s)) == s
  {
    if '/' in s {
      var rest := Split(s[1..]);
      JoinSplit(s[1..]);
      if s[0] == '/' {
        assert ([""] + rest)[1..] == rest;
        assert Join([""] + rest) == "" + "/" + s[1..];
      } else {
        JoinCons(s[0], rest);
      }
    }
  }

  /** Distinct texts have distinct levels. */
  lemma SplitInjective(s: string, t: string)
    ensures Split(s) == Split(t) <==> s == t
  {
    JoinSplit(s);
    JoinSplit(t);
  }

  /** Levels with one more character in front. */
  function Cons(c: char, levels: seq<string>): seq<string>
    requires |levels| > 0
  {
    if c == '/' then [""] + levels else [[c] + levels[0]] + levels[1..]
  }

  lemma ConsAppend(c: char, a: seq<string>, b: seq<string>)
    requires |a| > 0
    ensures Cons(c, a + b) == Cons(c, a) + b
  {
    assert (a + b)[1..] == a[1..] + b;
  }

  lemma SplitCons(c: char, t: string)
    ensures Split([c] + t) == Cons(c, Split(t))
  {
    var s := [c] + t;
    assert s[1..] == t;
    if '/' !in t {
      assert Split(t) == [t];
    }
  }

  /** Splitting `p/q` splits each side. */
  lemma {:induction false} SplitAppend(p: string, q: string)
    ensures Split(p + "/" + q) == Split(p) + Split(q)
  {
    if p == "" {
      assert p + "/" + q == ['/'] + q;
      assert Split("") == [""];
      SplitCons('/', q);
    } else {
      hide Split, Cons;
      var c, t := p[0], p[1..];
      SplitAppend(t, q);
      assert p == [c] + t && p + "/" + q == [c] + (t + "/" + q);
      SplitCons(c, t);
      SplitCons(c, t + "/" + q);
      ConsAppend(c, Split(t), Split(q));
    }
  }

  /** A level holds exactly the characters of the text other than the separators. */
  lemma {:induction false} LevelChars(s: string, i: nat, c: char)
    requires i < |Split(s)| && c in Split(s)[i]
    ensures c in s && c != '/'
  {
    if '/' in s {
      var rest := Split(s[1..]);
      if s[0] == '/' {
        if i > 0 { LevelChars(s[1..], i - 1, c); }
      } else if i > 0 {
        LevelChars(s[1..], i, c);
      } else if c != s[0] {
        LevelChars(s[1..], 0, c);
      }
    }
  }

  /** The first level decides the first character. */
  lemma {:induction false} FirstLevel(s: string)
    ensures s != "" && s[0] != '/' ==> Split(s)[0] != "" && Split(s)[0][0] == s[0]
    ensures Split(s)[0] <= s
    ensures Split(s)[0] == s || Split(s)[0] + "/" <= s
  {
    if '/' in s && s[0] != '/' { FirstLevel(s[1..]); }
  }

  // ----- the standard's definition ---------------------------------------------------------

  /** Position of the first `#` level, or the number of levels. */
  function HashAt(levels: seq<string>): (k: nat)
    ensures k <= |levels|
    ensures k < |levels| ==> levels[k] == "#"
    ensures forall i :: 0 <= i < k ==> levels[i] != "#"
  {
    if levels == [] || levels[0] == "#" then 0 else 1 + HashAt(levels[1..])
  }

  predicate LevelFits(filterLevel: string, topicLevel: string) {
    filterLevel == "+" || filterLevel == topicLevel
  }

  /** Section 4.7.1: level by level; a `#` must be last and accepts the rest, including nothing. */
  ghost predicate LevelsMatch(filters: seq<string>, topics: seq<string>) {
    var k := HashAt(filters);
    && (if k == |filters| then |topics| == k else k == |filters| - 1 && k <= |topics|)
    && forall i :: 0 <= i < k && i < |topics| ==> LevelFits(filters[i], topics[i])
  }

  /** The same told recursively, one level at a time. */
  ghost predicate MatchFrom(filters: seq<string>, topics: seq<string>) {
    if filters == [] then topics == []
    else if filters[0] == "#" then |filters| == 1
    else topics != [] && LevelFits(filters[0], topics[0]) && MatchFrom(filters[1..], topics[1..])
  }

  lemma {:induction false} LevelsMatchRecursively(filters: seq<string>, topics: seq<string>)
    ensures LevelsMatch(filters, topics) <==> MatchFrom(filters, topics)
    decreases |filters|
  {
    if filters != [] && filters[0] != "#" && topics != [] {
      LevelsMatchRecursively(filters[1..], topics[1..]);
      var f, t := filters[1..], topics[1..];
      assert HashAt(filters) == 1 + HashAt(f);
      if LevelFits(filters[0], topics[0]) && LevelsMatch(f, t) {
        forall i | 0 <= i < HashAt(filters) && i < |topics| ensures LevelFits(filters[i], topics[i]) {
          if i > 0 { assert LevelFits(f[i - 1], t[i - 1]); }
        }
      } else if LevelsMatch(filters, topics) {
        forall i | 0 <= i < HashAt(f) && i < |t| ensures LevelFits(f[i], t[i]) {
          assert LevelFits(filters[i + 1], topics[i + 1]);
        }
      }
    }
  }

  /** Sections 4.7.1 and 4.7.2: a leading wildcard does not reach names beginning with `$`. */
  ghost predicate Matches(filter: string, topic: string) {
    && filter != "" && topic != ""
    && LevelsMatch(Split(filter), Split(topic))
    && (topic[0] == '$' ==> Split(filter)[0] != "+" && Split(filter)[0] != "#")
  }

  // ----- the code --------------------------------------------------------------------------

  predicate IsWildcardFilter(filter: string) {
    '+' in filter || '#' in filter
  }

  predicate WildcardAtRoot(filter: string) {
    filter == "#" || filter == "+" || "+/" <= filter || "#" <= filter
  }

  /** The textual root test agrees with the level test, except on roots such as `#x`, which
      are literal levels and no `$` name has one. */
  lemma RootTest(filter: string)
    requires filter != ""
    ensures WildcardAtRoot(filter) <==> Split(filter)[0] == "+" || filter[0] == '#'
    ensures Split(filter)[0] == "#" ==> WildcardAtRoot(filter)
    ensures filter[0] == '#' ==> Split(filter)[0] != "" && Split(filter)[0][0] == '#'
  {
    FirstLevel(filter);
    if "+/" <= filter {
      assert filter == "+" + "/" + filter[2..];
      SplitAppend("+", filter[2..]);
      assert Split("+") == ["+"];
    }
    if filter == "+" { assert Split(filter) == ["+"]; }
  }

  /** The index loop of `filter_matches`. */
  method MatchLevels(filters: seq<string>, topics: seq<string>) returns (r: bool)
    ensures r <==> LevelsMatch(filters, topics)
  {
    var fi, ti := 0, 0;
    while fi < |filters|
      invariant fi == ti <= |filters| && ti <= |topics|
      invariant fi <= HashAt(filters)
      invariant forall i :: 0 <= i < fi ==> LevelFits(filters[i], topics[i])
    {
      if filters[fi] == "#" {
        return fi + 1 == |filters|;
      }
      if ti >= |topics| {
        return false;
      }
      if filters[fi] != "+" && filters[fi] != topics[ti] {
        assert !LevelFits(filters[fi], topics[fi]);
        return false;
      }
      fi := fi + 1;
      ti := ti + 1;
    }
    r := ti == |topics|;
  }

  /** A `$` name is out of reach of any filter the root test rejects. */
  lemma DollarRejected(filter: string, topic: string)
    requires filter != "" && topic != "" && topic[0] == '$'
    ensures WildcardAtRoot(filter) ==> !Matches(filter, topic)
    ensures !WildcardAtRoot(filter) ==> Split(filter)[0] != "+" && Split(filter)[0] != "#"
  {
    RootTest(filter);
    FirstLevel(topic);
    hide Split, WildcardAtRoot;
    var f, t := Split(filter), Split(topic);
    if WildcardAtRoot(filter) && f[0] != "+" && f[0] != "#" {
      assert HashAt(f) > 0;
      assert !LevelFits(f[0], t[0]);
    }
  }

  /** `filter_matches` computes the standard's definition, for every filter, valid or not, and
      every name. */
  method FilterMatches(filter: string, topic: string) returns (r: bool)
    ensures r <==> Matches(filter, topic)
  {
    if filter == "" || topic == "" {
      return false;
    }
    if topic[0] == '$' { DollarRejected(filter, topic); }
    hide Split, LevelsMatch;
    if topic[0] == '$' && WildcardAtRoot(filter) {
      return false;
    }
    r := MatchLevels(Split(filter), Split(topic));
  }

  /** Section 4.7.1: every wildcard character fills its level, and `#` is the last level. */
  predicate ValidFilter(filter: string) {
    && filter != "" && '\0' !in filter
    && forall i :: 0 <= i < |Split(filter)| ==>
         && ('#' in Split(filter)[i] ==> Split(filter)[i] == "#" && i == |Split(filter)| - 1)
         && ('+' in Split(filter)[i] ==> Split(filter)[i] == "+")
  }

  method IsValidSubscribeFilter(filter: string) returns (r: bool)
    ensures r <==> ValidFilter(filter)
  {
    if filter == "" || '\0' in filter {
      return false;
    }
    var parts := Split(filter);
    for index := 0 to |parts|
      invariant forall i :: 0 <= i < index ==>
        '#' !in parts[i] && ('+' in parts[i] ==> parts[i] == "+")
    {
      var part := parts[index];
      if part == "#" {
        assert '#' in parts[index];
        return index + 1 == |parts|;
      }
      if part == "+" {
        continue;
      }
      if '#' in part || '+' in part {
        return false;
      }
    }
    r := true;
  }

  /** `multi_level_prefix`: the part before a final `/#`, when it names one subtree. */
  function MultiLevelPrefix(filter: string): Option<string> {
    if filter == "#" then Some("")
    else if |filter| > 2 && filter[|filter| - 2..] == "/#"
            && !IsWildcardFilter(filter[..|filter| - 2]) && ValidFilter(filter)
    then Some(filter[..|filter| - 2])
    else None
  }

  // ----- what the queue relies on ----------------------------------------------------------

  lemma NoWildcardLevels(s: string)
    requires !IsWildcardFilter(s)
    ensures forall i :: 0 <= i < |Split(s)| ==> Split(s)[i] != "+" && Split(s)[i] != "#"
    ensures HashAt(Split(s)) == |Split(s)|
  {
    forall i | 0 <= i < |Split(s)|
      ensures Split(s)[i] != "+" && Split(s)[i] != "#"
    {
      if Split(s)[i] == "+" { LevelChars(s, i, '+'); }
      if Split(s)[i] == "#" { LevelChars(s, i, '#'); }
    }
  }

  /** A filter without wildcards names exactly itself, so claiming by equality is complete. */
  lemma ExactFilter(filter: string, topic: string)
    requires filter != "" && !IsWildcardFilter(filter)
    ensures Matches(filter, topic) <==> filter == topic
  {
    NoWildcardLevels(filter);
    SplitInjective(filter, topic);
    var f, t := Split(filter), Split(topic);
    if Matches(filter, topic) {
      assert forall i :: 0 <= i < |f| ==> LevelFits(f[i], t[i]);
      assert f == t;
    }
  }

  /** Names whose first levels are those of `p` are `p` itself and the names under `p/`. */
  lemma PrefixLevels(p: string, topic: string)
    ensures Split(p) <= Split(topic) <==> topic == p || p + "/" <= topic
  {
    if p + "/" <= topic { UnderPrefix(p, topic); }
    if Split(p) <= Split(topic) { LevelsPrefix(p, topic); }
  }

  lemma UnderPrefix(p: string, topic: string)
    requires p + "/" <= topic
    ensures Split(p) <= Split(topic)
  {
    var q := topic[|p| + 1..];
    assert topic == p + "/" + q;
    SplitAppend(p, q);
  }

  lemma LevelsPrefix(p: string, topic: string)
    requires Split(p) <= Split(topic)
    ensures topic == p || p + "/" <= topic
  {
    var n := |Split(p)|;
    if |Split(topic)| == n {
      assert Split(p) == Split(topic);
      SplitInjective(p, topic);
    } else {
      assert Split(topic)[..n] == Split(p);
      JoinPrefix(Split(topic), n);
      JoinSplit(topic);
      JoinSplit(p);
    }
  }

  lemma {:induction false} JoinPrefix(levels: seq<string>, n: nat)
    requires 0 < n < |levels|
    ensures Join(levels[..n]) + "/" <= Join(levels)
  {
    if n == 1 {
      assert Join(levels) == levels[0] + "/" + Join(levels[1..]);
    } else {
      JoinPrefix(levels[1..], n - 1);
      assert levels[..n][1..] == levels[1..][..n - 1];
      var tail := Join(levels[1..]);
      assert Join(levels) == levels[0] + "/" + tail;
      var head := Join(levels[1..][..n - 1]);
      assert Join(levels[..n]) + "/" == levels[0] + "/" + (head + "/");
    }
  }

  /** `p/#` with a wildcard-free `p` reaches exactly `p` and everything below it. */
  lemma SubtreeFilter(p: string, topic: string)
    requires !IsWildcardFilter(p)
    ensures Matches(p + "/#", topic) <==> topic != "" && (topic == p || p + "/" <= topic)
  {
    var filter := p + "/#";
    assert filter == p + "/" + "#";
    SplitAppend(p, "#");
    assert Split("#") == ["#"];
    NoWildcardLevels(p);
    PrefixLevels(p, topic);
    var f, t, n := Split(filter), Split(topic), |Split(p)|;
    HashAfter(Split(p));
    assert HashAt(f) == n;
    if topic != "" && LevelsMatch(f, t) {
      assert forall i :: 0 <= i < n ==> LevelFits(f[i], t[i]) && f[i] == Split(p)[i];
      assert Split(p) <= t;
    }
  }

  lemma {:induction false} HashAfter(levels: seq<string>)
    requires HashAt(levels) == |levels|
    ensures HashAt(levels + ["#"]) == |levels|
  {
    if levels != [] {
      HashAfter(levels[1..]);
      assert (levels + ["#"])[1..] == levels[1..] + ["#"];
    }
  }

  /** What an extracted prefix means for matching. */
  lemma MultiLevelPrefixMeaning(filter: string, topic: string)
    requires MultiLevelPrefix(filter).Some?
    ensures var p := MultiLevelPrefix(filter).value;
      && ValidFilter(filter)
      && (Matches(filter, topic) <==>
            if p == "" then topic != "" && topic[0] != '$'
            else topic == p || p + "/" <= topic)
  {
    var p := MultiLevelPrefix(filter).value;
    if p == "" {
      assert Split(filter) == ["#"];
      assert HashAt(["#"]) == 0;
    } else {
      assert filter == p + "/#" == p + "/" + "#";
      SubtreeFilter(p, topic);
      SplitAppend(p, "#");
      assert Split("#") == ["#"];
      forall i | 0 <= i < |Split(p)|
        ensures '#' !in Split(p)[i] && '+' !in Split(p)[i]
      {
        if '#' in Split(p)[i] { LevelChars(p, i, '#'); }
        if '+' in Split(p)[i] { LevelChars(p, i, '+'); }
      }
    }
  }
}
