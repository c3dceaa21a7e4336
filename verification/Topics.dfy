/**
 Topic filters: matching (crates/GatoMQTT/src/router/subscriptions.rs) and validity
 (crates/GatoMQTT/src/handler/subscribe.rs).
 */
module Topics {

  /** Position of the first `c` in `s`, or |s|. */
  function Find(s: string, c: char): (i: nat)
    ensures i <= |s|
    ensures i < |s| ==> s[i] == c
    ensures forall k :: 0 <= k < i ==> s[k] != c
  {
    if s == [] || s[0] == c then 0 else 1 + Find(s[1..], c)
  }

  /** str::split('/'): never empty, and "" has one empty level. */
  function Split(s: string): (levels: seq<string>)
    ensures |levels| >= 1
    decreases |s|
  {
    var i := Find(s, '/');
    if i == |s| then [s] else [s[..i]] + Split(s[i + 1..])
  }

  function Join(levels: seq<string>): string
    requires |levels| >= 1
  {
    if |levels| == 1 then levels[0] else levels[0] + "/" + Join(levels[1..])
  }

  predicate HasWildcard(s: string) {
    '+' in s || '#' in s
  }

  predicate Dollar(topic: string) {
    |topic| > 0 && topic[0] == '$'
  }

  // -- what a filter means ----------------------------------------------------

  predicate LevelMatches(f: string, t: string) {
    f == t || (f == "+" && t != "")
  }

  predicate PrefixMatches(f: seq<string>, t: seq<string>, n: nat) {
    n <= |f| && n <= |t| && forall i :: 0 <= i < n ==> LevelMatches(f[i], t[i])
  }

  /** Level by level, or up to a `#` that absorbs whatever is left, including nothing. */
  predicate LevelsMatch(f: seq<string>, t: seq<string>) {
    || (|f| == |t| && PrefixMatches(f, t, |f|))
    || (exists h :: 0 <= h < |f| && f[h] == "#" && PrefixMatches(f, t, h))
  }

  predicate Matches(filter: string, topic: string) {
    || filter == topic
    || (!(Dollar(topic) && HasWildcard(filter)) && LevelsMatch(Split(filter), Split(topic)))
  }

  predicate ValidLevel(level: string, last: bool) {
    && ('+' in level ==> level == "+")
    && ('#' in level ==> level == "#" && last)
  }

  /** The grammar of a filter. */
  predicate ValidFilter(filter: string) {
    && 0 < |filter| <= 128
    && var f := Split(filter);
       forall i :: 0 <= i < |f| ==> ValidLevel(f[i], i == |f| - 1)
  }

  // -- the code ---------------------------------------------------------------

  method TopicMatches(filter: string, topic: string) returns (matched: bool)
    ensures matched <==> Matches(filter, topic)
  {
    if filter == topic { return true; }
    if Dollar(topic) && HasWildcard(filter) { return false; }
    var f, t := Split(filter), Split(topic);
    var i := 0;
    while true
      invariant PrefixMatches(f, t, i)
      invariant forall h :: 0 <= h < i ==> f[h] != "#"
      decreases |f| - i
    {
      if i < |f| && f[i] == "#" {
        return true;
      } else if i < |f| && i < |t| && f[i] == "+" && t[i] != "" {
      } else if i < |f| && i < |t| && f[i] == t[i] {
      } else if i == |f| && i == |t| {
        return true;
      } else {
        return false;
      }
      i := i + 1;
    }
  }

  method IsValidFilter(filter: string) returns (valid: bool)
    ensures valid <==> ValidFilter(filter)
  {
    if |filter| == 0 || |filter| > 128 { return false; }
    HashPlacement(filter);
    var f := Split(filter);
    var hash := Find(filter, '#');
    if hash < |filter| {
      if hash != |filter| - 1 { return false; }
      if hash > 0 && filter[hash - 1] != '/' { return false; }
    }
    var i := 0;
    while i < |f|
      invariant i <= |f|
      invariant forall k :: 0 <= k < i ==> ('+' in f[k] ==> f[k] == "+")
    {
      if '+' in f[i] && f[i] != "+" { return false; }
      i := i + 1;
    }
    return true;
  }

  // -- splitting --------------------------------------------------------------

  /** Splitting loses nothing and leaves no separator inside a level. */
  lemma {:induction false} SplitJoin(s: string)
    ensures Join(Split(s)) == s
    ensures forall i :: 0 <= i < |Split(s)| ==> '/' !in Split(s)[i]
    decreases |s|
  {
    var i := Find(s, '/');
    if i < |s| {
      SplitJoin(s[i + 1..]);
      assert Split(s)[1..] == Split(s[i + 1..]);
      assert s == s[..i] + "/" + s[i + 1..];
    }
  }

  lemma {:induction false} SplitInjective(a: string, b: string)
    requires Split(a) == Split(b)
    ensures a == b
  {
    SplitJoin(a);
    SplitJoin(b);
  }

  /** A character other than the separator occurs in a string iff it occurs in a level. */
  lemma {:induction false} SplitMembers(s: string, c: char, i: nat)
    requires c != '/' && i < |Split(s)| && c in Split(s)[i]
    ensures c in s
    decreases |s|
  {
    var p := Find(s, '/');
    if p < |s| && i > 0 {
      SplitMembers(s[p + 1..], c, i - 1);
    }
  }

  ghost predicate HashLevels(f: seq<string>) {
    forall i :: 0 <= i < |f| ==> ('#' in f[i] ==> f[i] == "#" && i == |f| - 1)
  }

  ghost predicate HashAtEnd(s: string) {
    var h := Find(s, '#');
    h < |s| ==> h == |s| - 1 && (h == 0 || s[h - 1] == '/')
  }

  /** Looking only at the first `#` decides whether every `#` is the whole last level. */
  lemma {:induction false} HashPlacement(s: string)
    ensures HashAtEnd(s) <==> HashLevels(Split(s))
    decreases |s|
  {
    var p, h := Find(s, '/'), Find(s, '#');
    var f := Split(s);
    if p == |s| {
      assert f == [s];
      if h < |s| { assert '#' in f[0]; }
    } else if h < p {
      assert '#' == f[0][h];
    } else {
      HashPlacementRest(s, p, h);
    }
  }

  lemma {:induction false} HashPlacementRest(s: string, p: nat, h: nat)
    requires p == Find(s, '/') < |s| && h == Find(s, '#') > p
    ensures HashAtEnd(s) <==> HashLevels(Split(s))
    decreases |s|, 0
  {
    var rest := s[p + 1..];
    var f := Split(s);
    HashPlacement(rest);
    HashInRest(s, p, h);
    assert '#' !in f[0] && f[1..] == Split(rest);
    HashLevelsOfRest(f);
  }

  lemma {:induction false} HashInRest(s: string, p: nat, h: nat)
    requires p == Find(s, '/') < |s| && h == Find(s, '#') > p
    ensures h == p + 1 + Find(s[p + 1..], '#')
    ensures HashAtEnd(s) <==> HashAtEnd(s[p + 1..])
  {
    var rest := s[p + 1..];
    var h' := Find(rest, '#');
    assert h == p + 1 + h' by {
      if h' < |rest| { assert s[p + 1 + h'] == '#'; }
      if h < |s| { assert rest[h - p - 1] == '#'; }
    }
  }

  lemma {:induction false} HashLevelsOfRest(f: seq<string>)
    requires |f| > 1 && '#' !in f[0]
    ensures HashLevels(f) <==> HashLevels(f[1..])
  {
    var g := f[1..];
    if HashLevels(g) {
      forall i | 0 <= i < |f| && '#' in f[i] ensures f[i] == "#" && i == |f| - 1 {
        assert f[i] == g[i - 1];
      }
    }
    if HashLevels(f) {
      forall i | 0 <= i < |g| && '#' in g[i] ensures g[i] == "#" && i == |g| - 1 {
        assert f[i + 1] == g[i];
      }
    }
  }

  // -- consequences -----------------------------------------------------------

  /** A topic that starts with `$` is delivered only to the identical filter. */
  lemma {:induction false} DollarTopicsMatchOnlyThemselves(filter: string, topic: string)
    requires Dollar(topic)
    ensures Matches(filter, topic) <==> filter == topic
  {
    if Matches(filter, topic) && filter != topic {
      PlainFilterMatchesOnlyItself(filter, topic);
    }
  }

  /** Without wildcards, matching is equality. */
  lemma {:induction false} PlainFilterMatchesOnlyItself(filter: string, topic: string)
    requires !HasWildcard(filter)
    ensures Matches(filter, topic) <==> filter == topic
  {
    var f, t := Split(filter), Split(topic);
    forall i | 0 <= i < |f| ensures f[i] != "+" && f[i] != "#" {
      if '+' in f[i] { SplitMembers(filter, '+', i); }
      if '#' in f[i] { SplitMembers(filter, '#', i); }
      assert '+' in "+" && '#' in "#";
    }
    if LevelsMatch(f, t) {
      assert f == t;
      SplitInjective(filter, topic);
    }
  }

  /**
   For a filter the broker accepts and an ordinary topic: equal level counts, or a final `#`
   that covers every longer suffix and the parent itself.
   */
  lemma {:induction false} ValidFilterMatches(filter: string, topic: string)
    requires ValidFilter(filter) && !Dollar(topic)
    ensures var f, t := Split(filter), Split(topic);
            Matches(filter, topic) <==>
              if f[|f| - 1] == "#" then PrefixMatches(f, t, |f| - 1)
              else |f| == |t| && PrefixMatches(f, t, |f|)
  {
    var f, t := Split(filter), Split(topic);
    forall h | 0 <= h < |f| - 1 ensures f[h] != "#" {
      assert ValidLevel(f[h], false);
      assert '#' in "#";
    }
  }
}
