/** Orders over a score table, and the sorted set's own order. */
module Ranking {
  import opened Tally
  import opened Seqs

  /** A listing of all users by falling score; users with equal scores may stand in any order. */
  ghost predicate IsRanking(order: seq<string>, z: map<string, int>) {
    && NoDuplicates(order)
    && (forall u :: u in order <==> u in z)
    && (forall i, j :: 0 <= i < j < |order| ==> z[order[i]] >= z[order[j]])
  }

  ghost function Higher(z: map<string, int>, score: int): set<string> {
    set u | u in z && z[u] > score
  }

  ghost function HigherOrEqual(z: map<string, int>, score: int): set<string> {
    set u | u in z && z[u] >= score
  }

  ghost function Elements(s: seq<string>): set<string> {
    set u | u in s
  }

  lemma {:induction false} ElementsCount(s: seq<string>)
    requires NoDuplicates(s)
    ensures |Elements(s)| == |s|
  {
    if s != [] {
      ElementsCount(s[1..]);
      assert s == [s[0]] + s[1..];
      assert Elements(s) == {s[0]} + Elements(s[1..]);
      assert s[0] !in s[1..];
    }
  }

  lemma {:induction false} SubsetCount(a: set<string>, b: set<string>)
    requires a <= b
    ensures |a| <= |b|
  {
    assert |b| == |a| + |b - a| by {
      assert b == a + (b - a);
    }
  }

  /** A user's position lies in the interval its score fixes. */
  lemma PositionInterval(order: seq<string>, z: map<string, int>, i: nat)
    requires IsRanking(order, z) && i < |order|
    ensures |Higher(z, z[order[i]])| <= i < |HigherOrEqual(z, z[order[i]])|
  {
    assert order[i] in z;
    var score := z[order[i]];
    ElementsCount(order[..i]);
    ElementsCount(order[..i + 1]);
    forall u | u in Higher(z, score) ensures u in Elements(order[..i]) {
      assert u in order;
      var k :| 0 <= k < |order| && order[k] == u;
      assert k < i;
      assert order[..i][k] == u;
    }
    SubsetCount(Higher(z, score), Elements(order[..i]));
    forall u | u in Elements(order[..i + 1]) ensures u in HigherOrEqual(z, score) {
      var k :| 0 <= k < |order[..i + 1]| && order[..i + 1][k] == u;
      assert u in order && u in z && (k < i ==> z[order[k]] >= z[order[i]]);
    }
    SubsetCount(Elements(order[..i + 1]), HigherOrEqual(z, score));
  }

  lemma RankingLength(order: seq<string>, z: map<string, int>)
    requires IsRanking(order, z)
    ensures |order| == |z.Keys|
  {
    ElementsCount(order);
    assert Elements(order) == z.Keys;
  }

  lemma NotHigherAt(a: seq<string>, b: seq<string>, z: map<string, int>, i: nat)
    requires IsRanking(a, z) && IsRanking(b, z) && i < |a| && i < |b|
    ensures z[a[i]] <= z[b[i]]
  {
    PositionInterval(a, z, i);
    PositionInterval(b, z, i);
    if z[a[i]] > z[b[i]] {
      SubsetCount(HigherOrEqual(z, z[a[i]]), Higher(z, z[b[i]]));
    }
  }

  /** Two rankings of one table show the same score at every position, whatever their tie rules. */
  lemma ScoresByPosition(a: seq<string>, b: seq<string>, z: map<string, int>)
    requires IsRanking(a, z) && IsRanking(b, z)
    ensures |a| == |b|
    ensures forall i | 0 <= i < |a| :: z[a[i]] == z[b[i]]
  {
    RankingLength(a, z);
    RankingLength(b, z);
    forall i | 0 <= i < |a| ensures z[a[i]] == z[b[i]] {
      NotHigherAt(a, b, z, i);
      NotHigherAt(b, a, z, i);
    }
  }

  // ---------------------------------------------------------------- the sorted set, highest first

  /** Members with equal scores are ordered as strings. */
  predicate StringLess(a: string, b: string) {
    if b == [] then false
    else if a == [] then true
    else a[0] < b[0] || (a[0] == b[0] && StringLess(a[1..], b[1..]))
  }

  lemma {:induction false} StringLessTotal(a: string, b: string)
    ensures a == b || StringLess(a, b) || StringLess(b, a)
    ensures !(StringLess(a, b) && StringLess(b, a))
    ensures a == b ==> !StringLess(a, b)
  {
    if a != [] && b != [] {
      StringLessTotal(a[1..], b[1..]);
      assert a == [a[0]] + a[1..] && b == [b[0]] + b[1..];
    }
  }

  lemma {:induction false} StringLessTransitive(a: string, b: string, c: string)
    requires StringLess(a, b) && StringLess(b, c)
    ensures StringLess(a, c)
  {
    if a != [] && a[0] == b[0] == c[0] {
      StringLessTransitive(a[1..], b[1..], c[1..]);
    }
  }

  /** `u` stands before `w` in the reversed sorted set. */
  predicate Ahead(z: map<string, int>, u: string, w: string)
    requires u in z && w in z
  {
    z[u] > z[w] || (z[u] == z[w] && StringLess(w, u))
  }

  predicate Leads(z: map<string, int>, u: string) {
    u in z && forall w | w in z && w != u :: Ahead(z, u, w)
  }

  lemma {:induction false} LeaderExists(z: map<string, int>)
    requires z.Keys != {}
    ensures exists u :: Leads(z, u)
    decreases z.Keys
  {
    var k := PickKey(z);
    var rest := Without(z, k);
    if rest.Keys == {} {
      forall w | w in z ensures w == k {
        assert w != k ==> w in rest.Keys;
      }
      assert Leads(z, k);
    } else {
      LeaderExists(rest);
      var u :| Leads(rest, u);
      StringLessTotal(u, k);
      if Ahead(z, u, k) {
        forall w | w in z && w != u ensures Ahead(z, u, w) {
          if w != k {
            assert w in rest && Ahead(rest, u, w);
          }
        }
        assert Leads(z, u);
      } else {
        forall w | w in z && w != k ensures Ahead(z, k, w) {
          if w != u {
            assert w in rest && Ahead(rest, u, w);
            if z[k] == z[u] == z[w] {
              StringLessTransitive(w, u, k);
            }
          }
        }
        assert Leads(z, k);
      }
    }
  }

  lemma LeaderUnique(z: map<string, int>, u: string, w: string)
    requires Leads(z, u) && Leads(z, w)
    ensures u == w
  {
    StringLessTotal(u, w);
  }

  /** The whole sorted set in reverse order; there is exactly one. */
  function RevOrder(z: map<string, int>): seq<string>
    decreases z.Keys
  {
    if z.Keys == {} then []
    else
      assert exists u :: Leads(z, u) by { LeaderExists(z); }
      assert forall u, w | Leads(z, u) && Leads(z, w) :: u == w by {
        forall u, w | Leads(z, u) && Leads(z, w) ensures u == w { LeaderUnique(z, u, w); }
      }
      var u :| u in z && Leads(z, u);
      [u] + RevOrder(Without(z, u))
  }

  lemma {:induction false} RevOrderIsRanking(z: map<string, int>)
    ensures IsRanking(RevOrder(z), z)
    decreases z.Keys
  {
    var order := RevOrder(z);
    if z.Keys != {} {
      var u := order[0];
      var rest := Without(z, u);
      assert Leads(z, u) && order == [u] + RevOrder(rest);
      RevOrderIsRanking(rest);
      forall i, j | 0 <= i < j < |order| ensures order[i] != order[j] && z[order[i]] >= z[order[j]] {
        assert order[j] in RevOrder(rest);
        if i > 0 {
          assert order[i] in RevOrder(rest);
        }
      }
      forall w ensures w in order <==> w in z {
        assert w in RevOrder(rest) <==> w in rest;
      }
    }
  }

  lemma RevOrderStep(z: map<string, int>) returns (u: string)
    requires RevOrder(z) != []
    ensures Leads(z, u) && RevOrder(z) == [u] + RevOrder(Without(z, u))
  {
    u := RevOrder(z)[0];
  }

  /** Every member stands before all later ones. */
  ghost predicate InOrder(z: map<string, int>, order: seq<string>) {
    && (forall i :: 0 <= i < |order| ==> order[i] in z)
    && (forall i, j :: 0 <= i < j < |order| ==> Ahead(z, order[i], order[j]))
  }

  lemma LeaderFirst(z: map<string, int>, u: string, order: seq<string>)
    requires Leads(z, u) && InOrder(Without(z, u), order)
    ensures InOrder(z, [u] + order)
  {
    var rest, all := Without(z, u), [u] + order;
    forall i | 0 <= i < |all| ensures all[i] in z {
      assert i > 0 ==> all[i] == order[i - 1] && order[i - 1] in rest;
    }
    forall i, j | 0 <= i < j < |all| ensures Ahead(z, all[i], all[j]) {
      assert all[j] == order[j - 1] && order[j - 1] in rest;
      if i > 0 {
        assert Ahead(rest, order[i - 1], order[j - 1]);
      }
    }
  }

  lemma {:induction false} RevOrderInOrder(z: map<string, int>)
    ensures InOrder(z, RevOrder(z))
    decreases z.Keys
  {
    if RevOrder(z) != [] {
      var u := RevOrderStep(z);
      RevOrderInOrder(Without(z, u));
      LeaderFirst(z, u, RevOrder(Without(z, u)));
    }
  }

  /** Equal scores stand in falling order of the names. */
  lemma RevOrderTies(z: map<string, int>, i: nat, j: nat)
    requires i < j < |RevOrder(z)|
    ensures RevOrder(z)[i] in z && RevOrder(z)[j] in z
    ensures z[RevOrder(z)[i]] == z[RevOrder(z)[j]] ==> StringLess(RevOrder(z)[j], RevOrder(z)[i])
  {
    RevOrderInOrder(z);
  }

  lemma PrefixHead(a: string, b: string, k: int)
    requires 0 < k <= |a| && k <= |b|
    ensures a[..k] == b[..k] ==> a[0] == b[0]
  {
    assert a[0] == a[..k][0] && b[0] == b[..k][0];
  }

  /** The order of strings: a proper prefix is less, and otherwise the first difference decides. */
  lemma {:induction false} StringLessMeaning(a: string, b: string)
    ensures StringLess(a, b) <==>
            exists k :: 0 <= k <= |a| && k < |b| && a[..k] == b[..k] && (k == |a| || a[k] < b[k])
  {
    if a != [] && b != [] && a[0] == b[0] {
      StringLessMeaning(a[1..], b[1..]);
      if StringLess(a[1..], b[1..]) {
        var k :| 0 <= k <= |a[1..]| && k < |b[1..]| && a[1..][..k] == b[1..][..k] && (k == |a[1..]| || a[1..][k] < b[1..][k]);
        assert a[..k + 1] == [a[0]] + a[1..][..k] && b[..k + 1] == [b[0]] + b[1..][..k];
      }
      if k :| 0 <= k <= |a| && k < |b| && a[..k] == b[..k] && (k == |a| || a[k] < b[k]) {
        assert k > 0;
        assert a[1..][..k - 1] == a[..k][1..] && b[1..][..k - 1] == b[..k][1..];
      }
    } else if b != [] {
      assert a[..0] == b[..0];
      forall k | 0 < k <= |a| && k < |b| ensures a[..k] == b[..k] ==> a[0] == b[0] {
        PrefixHead(a, b, k);
      }
    }
  }
}
