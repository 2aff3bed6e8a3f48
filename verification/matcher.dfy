/** Candidate selection for a new request: keep the tows that have reported a location, sort them
    stably by distance to the request's origin, and take the first `FanOut`. */
module Matcher {
  import opened Common
  import opened Geo
  import opened Registry

  /** How many tows are offered each request. */
  const FanOut: nat := 3

  function Min(a: nat, b: nat): (m: nat)
  {
    if a < b then a else b
  }

  /** The sort key used for a request: each tow's distance to the request's origin. */
  function DistanceTo(greatCircle: (Location, Location) -> real, origin: Option<Location>): (key: Tow -> Distance)
    ensures forall t :: key(t).Infinite? <==> t.location.None? || origin.None?
    ensures forall t :: key(t).Finite? ==> key(t).km == greatCircle(t.location.value, origin.value)
  {
    (t: Tow) => Haversine(greatCircle, t.location, origin)
  }

  /** The tows that have a location, in their original order. */
  function Located(ts: seq<Tow>): (r: seq<Tow>)
    ensures forall t :: t in r <==> t in ts && t.location.Some?
    ensures |r| <= |ts|
  {
    if ts == [] then []
    else (if ts[0].location.Some? then [ts[0]] else []) + Located(ts[1..])
  }

  /** Filtering a list that starts with `x`: `x` is kept exactly when it has a location. */
  lemma LocatedCons(x: Tow, s: seq<Tow>)
    ensures Located([x] + s) == (if x.location.Some? then [x] else []) + Located(s)
  {
    assert ([x] + s)[1..] == s;
  }

  /** The filter keeps table order: filtering a concatenation concatenates the filtered parts. */
  lemma {:induction false} LocatedKeepsOrder(a: seq<Tow>, b: seq<Tow>)
    ensures Located(a + b) == Located(a) + Located(b)
  {
    if a == [] {
      assert a + b == b;
    } else {
      var x, rest := a[0], a[1..];
      assert a == [x] + rest;
      assert a + b == [x] + (rest + b);
      LocatedKeepsOrder(rest, b);
      LocatedCons(x, rest + b);
      LocatedCons(x, rest);
    }
  }

  /** Non-decreasing in `key`. */
  ghost predicate Sorted(s: seq<Tow>, key: Tow -> Distance)
  {
    forall i, j :: 0 <= i < j < |s| ==> AtMost(key(s[i]), key(s[j]))
  }

  /** The elements of `s` whose key is exactly `d`, in their order in `s`. A sort is stable when
      it leaves every such list as it was. */
  function Ties(s: seq<Tow>, key: Tow -> Distance, d: Distance): (tied: seq<Tow>)
  {
    if s == [] then [] else (if key(s[0]) == d then [s[0]] else []) + Ties(s[1..], key, d)
  }

  /** Put `x` into the sorted `s` in front of the first element that is not nearer than it. */
  function Insert(x: Tow, s: seq<Tow>, key: Tow -> Distance): (r: seq<Tow>)
    requires Sorted(s, key)
    ensures Sorted(r, key)
    ensures multiset(r) == multiset(s) + multiset{x}
  {
    if s == [] || AtMost(key(x), key(s[0])) then
      assert forall j :: 0 <= j < |s| ==> AtMost(key(x), key(s[j])) by {
        forall j | 0 <= j < |s| ensures AtMost(key(x), key(s[j])) {
          AtMostIsTotalOrder(key(x), key(s[0]), key(s[j]));
        }
      }
      [x] + s
    else
      var rest := Insert(x, s[1..], key);
      assert s == [s[0]] + s[1..];
      assert forall j :: 0 <= j < |rest| ==> AtMost(key(s[0]), key(rest[j])) by {
        forall j | 0 <= j < |rest| ensures AtMost(key(s[0]), key(rest[j])) {
          assert rest[j] in multiset(rest);
          AtMostIsTotalOrder(key(s[0]), key(x), key(x));
        }
      }
      [s[0]] + rest
  }

  /** A stable sort by `key` (insertion sort, each element placed before the equal ones that
      follow it). */
  function SortByDistance(s: seq<Tow>, key: Tow -> Distance): (r: seq<Tow>)
    ensures Sorted(r, key)
    ensures multiset(r) == multiset(s)
    ensures |r| == |s|
  {
    if s == [] then []
    else
      assert s == [s[0]] + s[1..];
      var r := Insert(s[0], SortByDistance(s[1..], key), key);
      assert |r| == |multiset(r)|;
      r
  }

  /** The tie list of a list that starts with `y`: `y` is in it exactly when its key is `d`. */
  lemma TiesCons(y: Tow, t: seq<Tow>, key: Tow -> Distance, d: Distance)
    ensures Ties([y] + t, key, d) == (if key(y) == d then [y] else []) + Ties(t, key, d)
  {
    assert ([y] + t)[1..] == t;
  }

  /** Inserting `x` in front of the equal keys of `s` puts it first among them and leaves the other
      tie lists alone. */
  lemma {:induction false} InsertTies(x: Tow, s: seq<Tow>, key: Tow -> Distance, d: Distance)
    requires Sorted(s, key)
    ensures Ties(Insert(x, s, key), key, d) == (if key(x) == d then [x] else []) + Ties(s, key, d)
  {
    if s == [] || AtMost(key(x), key(s[0])) {
      TiesCons(x, s, key, d);
    } else {
      var y, rest := s[0], s[1..];
      assert s == [y] + rest;
      AtMostIsTotalOrder(key(x), key(y), key(y));
      assert key(x) != key(y);
      InsertTies(x, rest, key, d);
      TiesCons(y, Insert(x, rest, key), key, d);
      TiesCons(y, rest, key, d);
    }
  }

  /** The sort is stable: tows at the same distance keep their relative order. */
  lemma {:induction false} SortKeepsTies(s: seq<Tow>, key: Tow -> Distance)
    ensures forall d :: Ties(SortByDistance(s, key), key, d) == Ties(s, key, d)
  {
    if s != [] {
      SortKeepsTies(s[1..], key);
      forall d ensures Ties(SortByDistance(s, key), key, d) == Ties(s, key, d) {
        InsertTies(s[0], SortByDistance(s[1..], key), key, d);
      }
    }
  }

  /** A tie list holds exactly the elements with that key. */
  lemma {:induction false} TiesMembers(s: seq<Tow>, key: Tow -> Distance, d: Distance, x: Tow)
    ensures x in Ties(s, key, d) <==> x in s && key(x) == d
  {
    if s != [] {
      TiesMembers(s[1..], key, d, x);
      assert s == [s[0]] + s[1..];
    }
  }

  /** Two sorted sequences with the same tie lists are equal: sortedness and stability determine
      the result of a sort completely. */
  lemma {:induction false} SortedTiesDetermine(r: seq<Tow>, q: seq<Tow>, key: Tow -> Distance)
    requires Sorted(r, key) && Sorted(q, key)
    requires forall d :: Ties(r, key, d) == Ties(q, key, d)
    ensures r == q
    decreases |r| + |q|
  {
    if r == [] && q == [] {
    } else if r == [] {
      TiesMembers(q, key, key(q[0]), q[0]);
      TiesMembers(r, key, key(q[0]), q[0]);
    } else if q == [] {
      TiesMembers(r, key, key(r[0]), r[0]);
      TiesMembers(q, key, key(r[0]), r[0]);
    } else {
      var a, b := r[0], q[0];
      TiesMembers(r, key, key(a), a);
      TiesMembers(q, key, key(a), a);
      TiesMembers(q, key, key(b), b);
      TiesMembers(r, key, key(b), b);
      assert AtMost(key(b), key(a)) by {
        var j :| 0 <= j < |q| && q[j] == a;
        AtMostIsTotalOrder(key(b), key(a), key(a));
      }
      assert AtMost(key(a), key(b)) by {
        var j :| 0 <= j < |r| && r[j] == b;
        AtMostIsTotalOrder(key(a), key(b), key(b));
      }
      AtMostIsTotalOrder(key(a), key(b), key(b));
      assert key(a) == key(b);
      assert Ties(r, key, key(a)) == [a] + Ties(r[1..], key, key(a));
      assert Ties(q, key, key(a)) == [b] + Ties(q[1..], key, key(a));
      assert Ties(r, key, key(a)) == Ties(q, key, key(a));
      assert a == ([a] + Ties(r[1..], key, key(a)))[0];
      assert a == b;
      forall d ensures Ties(r[1..], key, d) == Ties(q[1..], key, d) {
        var h := if key(a) == d then [a] else [];
        assert Ties(r, key, d) == h + Ties(r[1..], key, d);
        assert Ties(q, key, d) == h + Ties(q[1..], key, d);
        assert Ties(r, key, d) == Ties(q, key, d);
        assert (h + Ties(r[1..], key, d))[|h|..] == Ties(r[1..], key, d);
        assert (h + Ties(q[1..], key, d))[|h|..] == Ties(q[1..], key, d);
      }
      SortedTiesDetermine(r[1..], q[1..], key);
      assert r == [a] + r[1..] && q == [b] + q[1..];
    }
  }

  /** Any stable sort of `s` by `key` (sorted, with every tie list unchanged) returns exactly
      `SortByDistance(s, key)`. */
  lemma StableSortIsUnique(s: seq<Tow>, r: seq<Tow>, key: Tow -> Distance)
    requires Sorted(r, key)
    requires forall d :: Ties(r, key, d) == Ties(s, key, d)
    ensures r == SortByDistance(s, key)
  {
    SortKeepsTies(s, key);
    SortedTiesDetermine(r, SortByDistance(s, key), key);
  }

  /** The tie lists of a prefix are prefixes of the tie lists of the whole. */
  lemma {:induction false} TiesOfPrefix(s: seq<Tow>, n: nat, key: Tow -> Distance, d: Distance)
    requires n <= |s|
    ensures Ties(s[..n], key, d) <= Ties(s, key, d)
  {
    if n > 0 {
      TiesOfPrefix(s[1..], n - 1, key, d);
      assert s[..n][1..] == s[1..][..n - 1];
    }
  }

  /** Cutting a sorted sequence leaves nothing behind that is strictly nearer than what was kept. */
  lemma PrefixIsNearest(s: seq<Tow>, n: nat, key: Tow -> Distance)
    requires Sorted(s, key) && n <= |s|
    ensures forall t, i :: t in s && t !in s[..n] && 0 <= i < n ==> AtMost(key(s[i]), key(t))
  {
  }

  /** Sorting neither adds nor drops a tow. */
  lemma SortHasSameMembers(s: seq<Tow>, key: Tow -> Distance)
    ensures forall t :: t in SortByDistance(s, key) <==> t in s
  {
    var r := SortByDistance(s, key);
    forall t ensures t in r <==> t in s {
      assert t in r <==> t in multiset(r);
      assert t in s <==> t in multiset(s);
    }
  }

  /** Every tie list of a prefix is a prefix of that of the whole. */
  lemma PrefixKeepsTies(s: seq<Tow>, n: nat, key: Tow -> Distance)
    requires n <= |s|
    ensures forall d :: Ties(s[..n], key, d) <= Ties(s, key, d)
  {
    forall d ensures Ties(s[..n], key, d) <= Ties(s, key, d) {
      TiesOfPrefix(s, n, key, d);
    }
  }

  /** A list whose tows have distinct connections holds each tow at most once. */
  lemma {:induction false} DistinctSocketsOnce(s: seq<Tow>, x: Tow)
    requires DistinctSockets(s)
    ensures multiset(s)[x] <= 1
  {
    if s != [] {
      assert s == [s[0]] + s[1..];
      assert DistinctSockets(s[1..]);
      DistinctSocketsOnce(s[1..], x);
      if x == s[0] {
        assert x !in s[1..];
      }
    }
  }

  /** The filter drops tows and adds none: it takes each tow at most as often as the table has it. */
  lemma {:induction false} LocatedIsSubMultiset(ts: seq<Tow>)
    ensures multiset(Located(ts)) <= multiset(ts)
  {
    if ts != [] {
      LocatedIsSubMultiset(ts[1..]);
      assert ts == [ts[0]] + ts[1..];
    }
  }

  /** The tows offered a new request: at most `FanOut` of them, all located, nearest first with
      ties in registration order, and no located tow left out is nearer than one offered. */
  function Candidates(ts: seq<Tow>, key: Tow -> Distance): (c: seq<Tow>)
    ensures |c| == Min(FanOut, |Located(ts)|)
    ensures forall t :: t in c ==> t in ts && t.location.Some?
    ensures Sorted(c, key)
    ensures forall t, i :: t in Located(ts) && t !in c && 0 <= i < |c| ==> AtMost(key(c[i]), key(t))
    ensures forall d :: Ties(c, key, d) <= Ties(Located(ts), key, d)
  {
    var located := Located(ts);
    var sorted := SortByDistance(located, key);
    var n := Min(FanOut, |sorted|);
    SortHasSameMembers(located, key);
    SortKeepsTies(located, key);
    PrefixIsNearest(sorted, n, key);
    PrefixKeepsTies(sorted, n, key);
    sorted[..n]
  }

  /** A tow at two positions of a list occurs in it at least twice. */
  lemma RepeatCountsTwice(c: seq<Tow>, i: nat, j: nat)
    requires i < j < |c| && c[i] == c[j]
    ensures multiset(c)[c[i]] >= 2
  {
    assert c == c[..j] + c[j..];
    assert c[i] in c[..j];
    assert c[j] == c[j..][0];
  }

  /** Taking tows from a list with distinct connections, each at most as often as it occurs there,
      keeps the connections distinct. */
  lemma SubMultisetDistinct(c: seq<Tow>, ts: seq<Tow>)
    requires DistinctSockets(ts) && multiset(c) <= multiset(ts)
    ensures DistinctSockets(c)
  {
    forall i, j | 0 <= i < j < |c| ensures c[i].socketId != c[j].socketId {
      assert c[i] in multiset(c) && c[j] in multiset(c);
      if c[i].socketId == c[j].socketId {
        var p :| 0 <= p < |ts| && ts[p] == c[i];
        var q :| 0 <= q < |ts| && ts[q] == c[j];
        assert p == q;
        RepeatCountsTwice(c, i, j);
        DistinctSocketsOnce(ts, c[i]);
        assert false;
      }
    }
  }

  /** With one table entry per connection, the candidates are distinct tows on distinct
      connections: no tow is offered a request twice. */
  lemma CandidatesDistinct(ts: seq<Tow>, key: Tow -> Distance)
    requires DistinctSockets(ts)
    ensures DistinctSockets(Candidates(ts, key))
  {
    var c := Candidates(ts, key);
    var sorted := SortByDistance(Located(ts), key);
    assert sorted == c + sorted[|c|..];
    LocatedIsSubMultiset(ts);
    SubMultisetDistinct(c, ts);
  }
}
