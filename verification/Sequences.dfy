/** Facts about sequences that more than one module needs. */
module Sequences {

  lemma Regroup<T>(a: seq<T>, b: seq<T>, c: seq<T>)
    ensures a + (b + c) == a + b + c
  {}

  function Elements<T(==)>(s: seq<T>): set<T> {
    set x | x in s
  }

  predicate Distinct<T(==)>(s: seq<T>) {
    forall i, j :: 0 <= i < j < |s| ==> s[i] != s[j]
  }

  lemma {:induction false} SizeOfDistinct<T>(s: seq<T>)
    requires Distinct(s)
    ensures |Elements(s)| == |s|
  {
    if s != [] {
      var front, last := s[..|s| - 1], s[|s| - 1];
      SizeOfDistinct(front);
      assert s == front + [last];
      assert Elements(s) == Elements(front) + {last};
    }
  }

  lemma FirstFalse(p: seq<bool>, n: nat) returns (i: nat)
    requires n < |p| && !p[n]
    ensures i <= n && !p[i] && forall j :: 0 <= j < i ==> p[j]
  {
    i := 0;
    while p[i]
      invariant i <= n && forall j :: 0 <= j < i ==> p[j]
      decreases n - i
    {
      i := i + 1;
    }
  }

  // ---------- cutting a sequence down ----------

  /** How many of the indices come before i. */
  ghost function Below(keep: set<nat>, i: nat): nat {
    if i == 0 then 0 else Below(keep, i - 1) + if i - 1 in keep then 1 else 0
  }

  /** r is what is left of s if only the elements at the indices `keep` stay, in their order. */
  ghost predicate Picks<T>(s: seq<T>, keep: set<nat>, r: seq<T>) {
    && (forall i :: i in keep ==> i < |s|) && |r| == |keep|
    && forall i :: i in keep ==> Below(keep, i) < |r| && r[Below(keep, i)] == s[i]
  }

  /** Counting the indices below a bound of theirs counts them all. */
  lemma {:induction false} BelowAll(keep: set<nat>, n: nat)
    requires forall i :: i in keep ==> i < n
    ensures Below(keep, n) == |keep|
  {
    if n == 0 {
      assert keep == {};
    } else {
      var rest := keep - {n - 1};
      BelowAll(rest, n - 1);
      BelowMore(rest, n - 1, n - 1);
      assert n - 1 in keep ==> keep == rest + {n - 1};
      assert n - 1 !in keep ==> keep == rest;
    }
  }

  lemma {:induction false} BelowMore(keep: set<nat>, n: nat, i: nat)
    requires i <= n
    ensures Below(keep + {n}, i) == Below(keep, i)
  {
    if i > 0 {
      BelowMore(keep, n, i - 1);
    }
  }

  /** The indices after the first, counted from there. */
  ghost function Later(keep: set<nat>): (r: set<nat>)
    ensures forall i: nat :: i in r <==> i + 1 in keep
  {
    set i | i in keep && i > 0 :: i - 1
  }

  lemma LaterWithout(keep: set<nat>, i: nat)
    requires i in keep && i > 0
    ensures i - 1 !in Later(keep - {i}) && Later(keep) == Later(keep - {i}) + {i - 1}
  {}

  lemma {:induction false} SizeOfLater(keep: set<nat>)
    ensures |keep| == |Later(keep)| + if 0 in keep then 1 else 0
    decreases |keep|
  {
    if i :| i in keep && i > 0 {
      LaterWithout(keep, i);
      SizeOfLater(keep - {i});
    } else {
      assert Later(keep) == {};
      assert keep == if 0 in keep then {0} else {};
    }
  }

  lemma {:induction false} BelowLater(keep: set<nat>, i: nat)
    ensures Below(keep, i + 1) == Below(Later(keep), i) + if 0 in keep then 1 else 0
  {
    if i > 0 {
      BelowLater(keep, i - 1);
    }
  }

  /** The picks after the first move by one place if the first is kept. */
  lemma {:induction false} PickedLater<T>(s: seq<T>, keep: set<nat>, r: seq<T>, i: nat)
    requires s != [] && Picks(s[1..], Later(keep), r) && i + 1 in keep
    ensures i + 1 < |s| && Below(Later(keep), i) < |r| && r[Below(Later(keep), i)] == s[i + 1]
    ensures Below(keep, i + 1) == Below(Later(keep), i) + if 0 in keep then 1 else 0
  {
    BelowLater(keep, i);
    assert i in Later(keep);
    assert s[1..][i] == s[i + 1];
  }

  /** One element more in front. */
  lemma {:induction false} PicksFront<T>(s: seq<T>, keep: set<nat>, r: seq<T>)
    requires s != [] && Picks(s[1..], Later(keep), r)
    ensures Picks(s, keep, (if 0 in keep then [s[0]] else []) + r)
  {
    SizeOfLater(keep);
    var all := (if 0 in keep then [s[0]] else []) + r;
    forall i | i in keep ensures i < |s| && Below(keep, i) < |all| && all[Below(keep, i)] == s[i] {
      if i > 0 {
        PickedLater(s, keep, r, i - 1);
      }
    }
  }

  /** One element more at the end. */
  lemma {:induction false} PicksBack<T>(s: seq<T>, keep: set<nat>, r: seq<T>, x: T)
    requires Picks(s, keep, r)
    ensures Picks(s + [x], keep, r) && Picks(s + [x], keep + {|s|}, r + [x])
  {
    var all := keep + {|s|};
    BelowAll(keep, |s|);
    BelowMore(keep, |s|, |s|);
    forall i | i in keep ensures Below(all, i) == Below(keep, i) {
      BelowMore(keep, |s|, i);
    }
    assert |all| == |keep| + 1;
  }
}
