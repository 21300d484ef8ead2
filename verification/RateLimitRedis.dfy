/** app/core/rate_limit.py, the Redis path: a sorted set per key, pruned, extended, counted and set to expire. */
module RateLimitRedis {
  import opened RateLimit
  import Sequences

  const NANOS: nat := 1_000_000_000

  /**
   A call as Redis sees it. `sec` is the score and the first half of the member, `ns` the second half; `at` is the
   instant, in nanoseconds, at which the pipeline runs at the server. Calls are listed in the order of their pipelines.
   */
  datatype RedisCall = RedisCall(key: Key, sec: nat, ns: nat, at: nat, limit: int)

  /** The members (sec, ns) of a key, scored by sec, and the instant after which the key is gone. */
  datatype Entry = Entry(members: set<(nat, nat)>, expireAt: nat)

  type Store = map<Key, Entry>

  function Live(store: Store, key: Key, at: nat): set<(nat, nat)> {
    if key in store && at <= store[key].expireAt then store[key].members else {}
  }

  /** zremrangebyscore(key, 0, floor) keeps the members scored above floor; scores are not negative. */
  function Above(members: set<(nat, nat)>, floor: int): set<(nat, nat)> {
    set m | m in members && m.0 > floor
  }

  function NextStore(store: Store, c: RedisCall): Store {
    store[c.key := Entry(Above(Live(store, c.key, c.at), c.sec - WINDOW) + {(c.sec, c.ns)}, c.at + WINDOW * NANOS)]
  }

  function StoreAfter(calls: seq<RedisCall>): Store {
    if calls == [] then map[] else NextStore(StoreAfter(calls[..|calls|-1]), calls[|calls|-1])
  }

  lemma CalledKeysStay(calls: seq<RedisCall>)
    requires calls != []
    ensures calls[|calls|-1].key in StoreAfter(calls)
  {}

  predicate RedisAdmits(calls: seq<RedisCall>, i: nat)
    requires i < |calls|
  {
    CalledKeysStay(calls[..i+1]);
    |StoreAfter(calls[..i+1])[calls[i].key].members| <= calls[i].limit
  }

  lemma LastCallStored(calls: seq<RedisCall>, c: RedisCall)
    ensures StoreAfter(calls + [c]) == NextStore(StoreAfter(calls), c)
    ensures RedisAdmits(calls + [c], |calls|) <==> |NextStore(StoreAfter(calls), c)[c.key].members| <= c.limit
  {
    var all := calls + [c];
    assert all[..|all|-1] == calls && all[..|calls|+1] == all;
  }

  lemma NextStoreColumns(store: Store, c: RedisCall)
    ensures NextStore(store, c).Keys == store.Keys + {c.key} && NextStore(store, c)[c.key].expireAt == c.at + 60_000_000_000
    ensures forall key :: key in store && key != c.key ==> NextStore(store, c)[key] == store[key]
    ensures forall m :: m in NextStore(store, c)[c.key].members <==>
      m == (c.sec, c.ns) || (m.0 + 60 > c.sec && c.key in store && c.at <= store[c.key].expireAt && m in store[c.key].members)
  {}

  class RedisLimiter {
    var store: Store
    ghost var history: seq<RedisCall>

    ghost predicate Valid()
      reads this
    {
      store == StoreAfter(history)
    }

    constructor ()
      ensures Valid() && history == []
    {
      store := map[];
      history := [];
    }

    /** The pipeline, command by command; the result is that of zcard. */
    method Execute(c: RedisCall) returns (count: nat)
      modifies this`store
      ensures store == NextStore(old(store), c) && count == |store[c.key].members|
      ensures store.Keys == old(store.Keys) + {c.key} && store[c.key].expireAt == c.at + 60_000_000_000
      ensures forall key :: key in old(store) && key != c.key ==> store[key] == old(store)[key]
      ensures forall m :: m in store[c.key].members <==>
        m == (c.sec, c.ns) || (m.0 + 60 > c.sec && c.key in old(store) && c.at <= old(store)[c.key].expireAt && m in old(store)[c.key].members)
    {
      NextStoreColumns(store, c);
      // an expired key is gone before the first command
      var members := if c.key in store && c.at <= store[c.key].expireAt then store[c.key].members else {};
      assert members == Live(store, c.key, c.at);
      members := Above(members, c.sec - WINDOW);                      // zremrangebyscore
      members := members + {(c.sec, c.ns)};                           // zadd
      count := |members|;                                             // zcard
      store := store[c.key := Entry(members, c.at + WINDOW * NANOS)]; // expire
    }

    /** The Redis path of check_rate_limit; false stands for RateLimitExceededException. */
    method Check(c: RedisCall, ownLimit: int) returns (admitted: bool)
      requires Valid()
      modifies this
      ensures Valid() && history == old(history) + [c.(limit := if c.limit == 0 then ownLimit else c.limit)]
      ensures admitted == RedisAdmits(history, |history| - 1)
      ensures c.key in store && (admitted <==> |store[c.key].members| <= if c.limit == 0 then ownLimit else c.limit)
    {
      var effective := if c.limit != 0 then c.limit else ownLimit;
      var count := Execute(c);
      ghost var call := c.(limit := effective);
      LimitNotStored(StoreAfter(history), LogAfter(InMemory(history)), c, effective);
      LastCallStored(history, call);
      history := history + [call];
      admitted := !(count > effective);
    }
  }

  // ---------- agreement with the in-memory path ----------

  function AsCall(c: RedisCall): Call {
    Call(c.key, c.sec, c.limit)
  }

  function InMemory(calls: seq<RedisCall>): seq<Call> {
    if calls == [] then [] else InMemory(calls[..|calls|-1]) + [AsCall(calls[|calls|-1])]
  }

  lemma {:induction false} InMemoryPrefix(calls: seq<RedisCall>, n: nat)
    requires n <= |calls|
    ensures |InMemory(calls)| == |calls| && InMemory(calls)[..n] == InMemory(calls[..n])
    ensures n < |calls| ==> InMemory(calls)[n] == AsCall(calls[n])
    decreases |calls|
  {
    if n == |calls| {
      assert calls[..n] == calls;
      if calls != [] {
        InMemoryPrefix(calls[..|calls|-1], |calls|-1);
      }
    } else {
      InMemoryPrefix(calls[..|calls|-1], n);
      assert calls[..|calls|-1][..n] == calls[..n];
    }
  }

  /** The stamps that a key's prunes have left, oldest first: the common abstraction of both stores. */
  function Kept(calls: seq<RedisCall>, key: Key): seq<(nat, nat)> {
    if calls == [] then []
    else
      var before, c := Kept(calls[..|calls|-1], key), calls[|calls|-1];
      if c.key == key then NewerStamps(before, c.sec - WINDOW) + [(c.sec, c.ns)] else before
  }

  function NewerStamps(s: seq<(nat, nat)>, floor: int): seq<(nat, nat)> {
    if s == [] then [] else (if s[0].0 > floor then [s[0]] else []) + NewerStamps(s[1..], floor)
  }

  function Firsts(s: seq<(nat, nat)>): (f: seq<nat>)
    ensures |f| == |s|
  {
    if s == [] then [] else [s[0].0] + Firsts(s[1..])
  }

  lemma {:induction false} FirstsConcat(x: seq<(nat, nat)>, y: seq<(nat, nat)>)
    ensures Firsts(x + y) == Firsts(x) + Firsts(y)
  {
    if x == [] {
      assert x + y == y;
    } else {
      FirstsConcat(x[1..], y);
      assert (x + y)[0] == x[0] && (x + y)[1..] == x[1..] + y;
      Sequences.Regroup([x[0].0], Firsts(x[1..]), Firsts(y));
    }
  }

  lemma {:induction false} FirstsNewer(s: seq<(nat, nat)>, floor: int)
    ensures Firsts(NewerStamps(s, floor)) == Newer(Firsts(s), floor)
  {
    if s != [] {
      FirstsNewer(s[1..], floor);
      if s[0].0 > floor {
        assert NewerStamps(s, floor)[1..] == NewerStamps(s[1..], floor);
      } else {
        assert NewerStamps(s, floor) == NewerStamps(s[1..], floor);
      }
    }
  }

  lemma {:induction false} NewerStampsFacts(s: seq<(nat, nat)>, floor: int)
    ensures forall m :: m in NewerStamps(s, floor) <==> m in s && m.0 > floor
    ensures Sequences.Distinct(s) ==> Sequences.Distinct(NewerStamps(s, floor))
  {
    if s != [] {
      NewerStampsFacts(s[1..], floor);
      assert forall m :: m in s <==> m == s[0] || m in s[1..];
      if Sequences.Distinct(s) && s[0].0 > floor {
        var rest := NewerStamps(s[1..], floor);
        forall i | 0 <= i < |rest| ensures s[0] != rest[i] {
          assert rest[i] in s[1..];
        }
        assert NewerStamps(s, floor) == [s[0]] + rest;
      }
    }
  }

  lemma PruneKeepsSeconds(kept: seq<(nat, nat)>, c: RedisCall)
    ensures Newer(Firsts(kept), c.sec - WINDOW) + [c.sec] == Firsts(NewerStamps(kept, c.sec - WINDOW) + [(c.sec, c.ns)])
  {
    FirstsNewer(kept, c.sec - WINDOW);
    FirstsConcat(NewerStamps(kept, c.sec - WINDOW), [(c.sec, c.ns)]);
    assert [(c.sec, c.ns)][1..] == [];
    assert Firsts([(c.sec, c.ns)]) == [c.sec];
  }

  /** One call keeps the in-memory list equal to the stamps' seconds. */
  lemma CallKeeps(log: Log, kept: seq<(nat, nat)>, c: RedisCall, key: Key)
    requires Stored(log, key) == Firsts(kept)
    ensures Stored(NextLog(log, AsCall(c)), key)
      == Firsts(if c.key == key then NewerStamps(kept, c.sec - WINDOW) + [(c.sec, c.ns)] else kept)
  {
    StoredNext(log, AsCall(c), key);
    if c.key == key {
      PruneKeepsSeconds(kept, c);
    }
  }

  lemma KeepsAfter(log: Log, kept: seq<(nat, nat)>, c: RedisCall, key: Key, log': Log, kept': seq<(nat, nat)>)
    requires Stored(log, key) == Firsts(kept) && log' == NextLog(log, AsCall(c))
    requires kept' == if c.key == key then NewerStamps(kept, c.sec - WINDOW) + [(c.sec, c.ns)] else kept
    ensures Stored(log', key) == Firsts(kept')
  {
    CallKeeps(log, kept, c, key);
  }

  lemma InMemoryNext(before: seq<RedisCall>, c: RedisCall)
    ensures InMemory(before + [c]) == InMemory(before) + [AsCall(c)]
  {
    assert (before + [c])[..|before|] == before;
  }

  lemma KeptNext(before: seq<RedisCall>, c: RedisCall, key: Key)
    ensures Kept(before + [c], key)
      == if c.key == key then NewerStamps(Kept(before, key), c.sec - WINDOW) + [(c.sec, c.ns)] else Kept(before, key)
  {
    assert (before + [c])[..|before|] == before;
  }

  /** The in-memory list is the stamps' seconds. */
  lemma {:induction false} MemoryKeeps(calls: seq<RedisCall>, key: Key)
    ensures Stored(LogAfter(InMemory(calls)), key) == Firsts(Kept(calls, key))
  {
    if calls != [] {
      var before, c := calls[..|calls|-1], calls[|calls|-1];
      assert calls == before + [c];
      MemoryKeeps(before, key);
      InMemoryNext(before, c);
      KeptNext(before, c, key);
      LogExtends(InMemory(before), AsCall(c));
      KeepsAfter(LogAfter(InMemory(before)), Kept(before, key), c, key, LogAfter(InMemory(calls)), Kept(calls, key));
    }
  }

  /** The store of a key holds the kept stamps, none of them twice, and expires 60 seconds after its last call. */
  ghost predicate Tracks(store: Store, calls: seq<RedisCall>, key: Key) {
    && Sequences.Distinct(Kept(calls, key))
    && (key in store <==> Called(calls, key))
    && (key !in store ==> Kept(calls, key) == [])
    && (key in store ==> store[key] == Entry(Sequences.Elements(Kept(calls, key)), LastAt(calls, key) + WINDOW * NANOS))
  }

  predicate Called(calls: seq<RedisCall>, key: Key) {
    exists i :: 0 <= i < |calls| && calls[i].key == key
  }

  /** When the last call of the key ran. */
  function LastAt(calls: seq<RedisCall>, key: Key): nat {
    if calls == [] then 0
    else if calls[|calls|-1].key == key then calls[|calls|-1].at
    else LastAt(calls[..|calls|-1], key)
  }

  /** The call comes more than 60 seconds after the last one of its key, so Redis has dropped the key. */
  predicate FindsExpired(before: seq<RedisCall>, c: RedisCall) {
    Called(before, c.key) && c.at > LastAt(before, c.key) + WINDOW * NANOS
  }

  /**
   The two ways in which the paths part: the key has expired although the in-memory list still has a stamp in the
   window, or the call's own member is one that the list still has.
   */
  predicate Undisturbed(before: seq<RedisCall>, c: RedisCall) {
    (FindsExpired(before, c) ==> InWindow(before, c) == []) && (c.sec, c.ns) !in InWindow(before, c)
  }

  /** The stamps of the key that are still in the window of the call. */
  function InWindow(before: seq<RedisCall>, c: RedisCall): seq<(nat, nat)> {
    NewerStamps(Kept(before, c.key), c.sec - WINDOW)
  }

  lemma WindowIsDistinct(before: seq<RedisCall>, c: RedisCall)
    requires Sequences.Distinct(Kept(before, c.key))
    ensures Sequences.Distinct(InWindow(before, c))
  {
    NewerStampsFacts(Kept(before, c.key), c.sec - WINDOW);
  }

  predicate AllUndisturbed(calls: seq<RedisCall>) {
    forall i :: 0 <= i < |calls| ==> Undisturbed(calls[..i], calls[i])
  }

  /** The length that each path compares with the limit at call i. */
  function RedisCount(calls: seq<RedisCall>, i: nat): nat
    requires i < |calls|
  {
    CalledKeysStay(calls[..i+1]);
    |StoreAfter(calls[..i+1])[calls[i].key].members|
  }

  function MemoryCount(calls: seq<RedisCall>, i: nat): nat
    requires i < |calls|
  {
    |Stored(LogAfter(InMemory(calls[..i+1])), calls[i].key)|
  }

  lemma CountsDecide(calls: seq<RedisCall>, i: nat)
    requires i < |calls|
    ensures RedisAdmits(calls, i) <==> RedisCount(calls, i) <= calls[i].limit
    ensures |InMemory(calls)| == |calls| && (Admits(InMemory(calls), i) <==> MemoryCount(calls, i) <= calls[i].limit)
  {
    InMemoryPrefix(calls, i + 1);
    InMemoryPrefix(calls, i);
  }

  lemma MemoryCountIsKept(calls: seq<RedisCall>, i: nat)
    requires i < |calls|
    ensures MemoryCount(calls, i)
      == |InWindow(calls[..i], calls[i])| + 1
  {
    MemoryKeeps(calls[..i+1], calls[i].key);
    assert calls[..i+1][..i] == calls[..i] && calls[..i+1][i] == calls[i];
  }

  lemma RedisCountIsStore(calls: seq<RedisCall>, i: nat)
    requires i < |calls|
    ensures RedisCount(calls, i) == |NextStore(StoreAfter(calls[..i]), calls[i])[calls[i].key].members|
  {
    assert calls[..i+1][..i] == calls[..i] && calls[..i+1][i] == calls[i];
  }

  lemma SizeOfOneMore<T>(s: set<T>, x: T)
    ensures |s + {x}| == |s| + 1 <==> x !in s
  {
    if x in s {
      assert s + {x} == s;
    }
  }

  lemma SizesAgreeIff<T>(kept: seq<T>, expired: bool, x: T)
    requires Sequences.Distinct(kept)
    ensures |(if expired then {} else Sequences.Elements(kept)) + {x}| == |kept| + 1 <==> (expired ==> kept == []) && x !in kept
  {
    Sequences.SizeOfDistinct(kept);
    SizeOfOneMore(if expired then {} else Sequences.Elements(kept), x);
  }

  /** What the prune leaves: all that is kept, or nothing at all once the key has expired. */
  lemma PruneLeaves(store: Store, before: seq<RedisCall>, c: RedisCall)
    requires Tracks(store, before, c.key)
    ensures Above(Live(store, c.key, c.at), c.sec - WINDOW)
      == if FindsExpired(before, c) then {} else Sequences.Elements(InWindow(before, c))
  {
    NewerStampsFacts(Kept(before, c.key), c.sec - WINDOW);
  }

  /** Where the store tracks the list so far, one call leaves as many entries in both exactly if it is undisturbed. */
  lemma CallAgreesIff(store: Store, before: seq<RedisCall>, c: RedisCall)
    requires Tracks(store, before, c.key)
    ensures |NextStore(store, c)[c.key].members| == |InWindow(before, c)| + 1 <==> Undisturbed(before, c)
  {
    WindowIsDistinct(before, c);
    MembersAfter(store, before, c);
    SizesAgreeIff(InWindow(before, c), FindsExpired(before, c), (c.sec, c.ns));
  }

  lemma MembersAfter(store: Store, before: seq<RedisCall>, c: RedisCall)
    requires Tracks(store, before, c.key)
    ensures NextStore(store, c)[c.key].members
      == (if FindsExpired(before, c) then {} else Sequences.Elements(InWindow(before, c))) + {(c.sec, c.ns)}
  {
    PruneLeaves(store, before, c);
  }

  /** An undisturbed call of the key keeps the store in step with the list. */
  lemma CallTracks(calls: seq<RedisCall>, c: RedisCall)
    requires Tracks(StoreAfter(calls), calls, c.key) && Undisturbed(calls, c)
    ensures Tracks(StoreAfter(calls + [c]), calls + [c], c.key)
  {
    var floor := c.sec - WINDOW;
    var kept := NewerStamps(Kept(calls, c.key), floor);
    NewerStampsFacts(Kept(calls, c.key), floor);
    assert (calls + [c])[..|calls|] == calls && (calls + [c])[|calls|] == c;
    assert Kept(calls + [c], c.key) == kept + [(c.sec, c.ns)];
    PruneLeaves(StoreAfter(calls), calls, c);
    assert Sequences.Elements(kept + [(c.sec, c.ns)]) == Sequences.Elements(kept) + {(c.sec, c.ns)};
    assert Called(calls + [c], c.key);
  }

  /** A call of another key changes nothing for this one. */
  lemma OtherTracks(calls: seq<RedisCall>, c: RedisCall, key: Key)
    requires Tracks(StoreAfter(calls), calls, key) && c.key != key
    ensures Tracks(StoreAfter(calls + [c]), calls + [c], key)
  {
    var all := calls + [c];
    assert all[..|calls|] == calls && all[|calls|] == c;
    assert Called(all, key) <==> Called(calls, key) by {
      if Called(calls, key) {
        var i :| 0 <= i < |calls| && calls[i].key == key;
        assert all[i].key == key;
      }
      if Called(all, key) {
        var i :| 0 <= i < |all| && all[i].key == key;
        assert calls[i].key == key;
      }
    }
  }

  lemma NextTracks(calls: seq<RedisCall>, c: RedisCall, key: Key)
    requires Tracks(StoreAfter(calls), calls, key) && Undisturbed(calls, c)
    ensures Tracks(StoreAfter(calls + [c]), calls + [c], key)
  {
    if c.key == key {
      CallTracks(calls, c);
    } else {
      OtherTracks(calls, c, key);
    }
  }

  lemma {:induction false} StoresTrack(calls: seq<RedisCall>, n: nat, key: Key)
    requires n <= |calls| && forall i :: 0 <= i < n ==> Undisturbed(calls[..i], calls[i])
    ensures Tracks(StoreAfter(calls[..n]), calls[..n], key)
  {
    if n > 0 {
      StoresTrack(calls, n - 1, key);
      assert calls[..n] == calls[..n-1] + [calls[n-1]];
      NextTracks(calls[..n-1], calls[n-1], key);
    }
  }

  lemma CountsAgreeAt(calls: seq<RedisCall>, i: nat)
    requires i < |calls| && forall j :: 0 <= j < i ==> Undisturbed(calls[..j], calls[j])
    ensures RedisCount(calls, i) == MemoryCount(calls, i) <==> Undisturbed(calls[..i], calls[i])
  {
    var before, c := calls[..i], calls[i];
    StoresTrack(calls, i, c.key);
    MemoryCountIsKept(calls, i);
    RedisCountIsStore(calls, i);
    CallAgreesIff(StoreAfter(before), before, c);
  }

  lemma FirstDisturbed(calls: seq<RedisCall>, n: nat) returns (i: nat)
    requires n < |calls| && !Undisturbed(calls[..n], calls[n])
    ensures i <= n && !Undisturbed(calls[..i], calls[i]) && forall j :: 0 <= j < i ==> Undisturbed(calls[..j], calls[j])
  {
    var fine := seq(|calls|, k requires 0 <= k < |calls| => Undisturbed(calls[..k], calls[k]));
    i := Sequences.FirstFalse(fine, n);
    forall j | 0 <= j < i ensures Undisturbed(calls[..j], calls[j]) {
      assert fine[j];
    }
  }

  /** Both paths keep equally many entries at every call if and only if every call is undisturbed. */
  lemma CountsAgreeIffUndisturbed(calls: seq<RedisCall>)
    ensures (forall i :: 0 <= i < |calls| ==> RedisCount(calls, i) == MemoryCount(calls, i)) <==> AllUndisturbed(calls)
  {
    if AllUndisturbed(calls) {
      forall i | 0 <= i < |calls| ensures RedisCount(calls, i) == MemoryCount(calls, i) {
        CountsAgreeAt(calls, i);
      }
    } else {
      var n :| 0 <= n < |calls| && !Undisturbed(calls[..n], calls[n]);
      var i := FirstDisturbed(calls, n);
      CountsAgreeAt(calls, i);
    }
  }

  /** The same calls with other limits. */
  function WithLimit(calls: seq<RedisCall>, limit: int): seq<RedisCall> {
    seq(|calls|, i requires 0 <= i < |calls| => calls[i].(limit := limit))
  }

  predicate AdmitAlike(calls: seq<RedisCall>, i: nat)
    requires i < |calls|
  {
    InMemoryPrefix(calls, 0);
    RedisAdmits(calls, i) <==> Admits(InMemory(calls), i)
  }

  /** What the two paths store of a call does not depend on its limit. */
  lemma LimitNotStored(store: Store, log: Log, c: RedisCall, limit: int)
    ensures NextStore(store, c.(limit := limit)) == NextStore(store, c)
    ensures NextLog(log, AsCall(c.(limit := limit))) == NextLog(log, AsCall(c))
  {}

  lemma {:induction false} LimitsNotStored(calls: seq<RedisCall>, limit: int)
    ensures StoreAfter(WithLimit(calls, limit)) == StoreAfter(calls)
    ensures LogAfter(InMemory(WithLimit(calls, limit))) == LogAfter(InMemory(calls))
  {
    if calls != [] {
      var before, c := calls[..|calls|-1], calls[|calls|-1];
      LimitsNotStored(before, limit);
      LimitNotStored(StoreAfter(before), LogAfter(InMemory(before)), c, limit);
      var others := WithLimit(calls, limit);
      assert others[..|calls|-1] == WithLimit(before, limit);
      LogExtends(InMemory(before), AsCall(c));
      LogExtends(InMemory(WithLimit(before, limit)), AsCall(c.(limit := limit)));
    }
  }

  lemma SameCounts(calls: seq<RedisCall>, limit: int, i: nat)
    requires i < |calls|
    ensures RedisCount(WithLimit(calls, limit), i) == RedisCount(calls, i)
    ensures MemoryCount(WithLimit(calls, limit), i) == MemoryCount(calls, i)
  {
    assert WithLimit(calls, limit)[..i+1] == WithLimit(calls[..i+1], limit);
    LimitsNotStored(calls[..i+1], limit);
  }

  /** So, whatever the limit is, both paths admit exactly the same calls if and only if every call is undisturbed. */
  lemma RedisAgreesWithMemoryIff(calls: seq<RedisCall>)
    ensures (forall limit, i :: 0 <= i < |calls| ==> AdmitAlike(WithLimit(calls, limit), i)) <==> AllUndisturbed(calls)
  {
    CountsAgreeIffUndisturbed(calls);
    if AllUndisturbed(calls) {
      forall limit, i | 0 <= i < |calls| ensures AdmitAlike(WithLimit(calls, limit), i) {
        SameCounts(calls, limit, i);
        CountsDecide(WithLimit(calls, limit), i);
      }
    } else {
      var i :| 0 <= i < |calls| && RedisCount(calls, i) != MemoryCount(calls, i);
      var limit := if RedisCount(calls, i) < MemoryCount(calls, i) then RedisCount(calls, i) else MemoryCount(calls, i);
      SameCounts(calls, limit, i);
      CountsDecide(WithLimit(calls, limit), i);
      assert !AdmitAlike(WithLimit(calls, limit), i);
    }
  }

  // ---------- calls that are undisturbed, and calls that are not ----------

  /** Each pipeline runs in the second of its stamp, and no two members are equal. */
  predicate Prompt(calls: seq<RedisCall>) {
    && (forall i :: 0 <= i < |calls| ==> calls[i].sec == calls[i].at / NANOS)
    && (forall i, j :: 0 <= i < j < |calls| ==> calls[i].ns != calls[j].ns)
    && (forall i, j :: 0 <= i <= j < |calls| ==> calls[i].at <= calls[j].at)
  }

  /** Sixty seconds later on the clock, the score is at or below the floor of the prune. */
  lemma SixtySecondsLater(early: nat, late: nat)
    requires early + WINDOW * NANOS < late
    ensures early / NANOS <= late / NANOS - WINDOW
  {}

  lemma {:induction false} KeptAreCalls(calls: seq<RedisCall>, key: Key)
    requires forall i, j :: 0 <= i <= j < |calls| ==> calls[i].at <= calls[j].at
    ensures forall m :: m in Kept(calls, key) ==>
      exists i :: 0 <= i < |calls| && calls[i].key == key && m == (calls[i].sec, calls[i].ns) && calls[i].at <= LastAt(calls, key)
  {
    if calls != [] {
      var before, c := calls[..|calls|-1], calls[|calls|-1];
      KeptAreCalls(before, key);
      NewerStampsFacts(Kept(before, key), c.sec - WINDOW);
      forall m | m in Kept(calls, key)
        ensures exists i :: 0 <= i < |calls| && calls[i].key == key && m == (calls[i].sec, calls[i].ns) && calls[i].at <= LastAt(calls, key)
      {
        if m in Kept(before, key) {
          var i :| 0 <= i < |before| && before[i].key == key && m == (before[i].sec, before[i].ns) && before[i].at <= LastAt(before, key);
          assert calls[i] == before[i];
        } else {
          assert m == (c.sec, c.ns) && calls[|calls|-1] == c;
        }
      }
    }
  }

  /** A prompt call finds its key expired only when every stamp has left the window: the expiry discards nothing. */
  lemma ExpiryLosesNothing(calls: seq<RedisCall>, i: nat)
    requires Prompt(calls) && i < |calls| && FindsExpired(calls[..i], calls[i])
    ensures NewerStamps(Kept(calls[..i], calls[i].key), calls[i].sec - WINDOW) == []
  {
    var before, c := calls[..i], calls[i];
    KeptAreCalls(before, c.key);
    forall m | m in Kept(before, c.key) ensures m.0 <= c.sec - WINDOW {
      var j :| 0 <= j < |before| && before[j].key == c.key && m == (before[j].sec, before[j].ns) && before[j].at <= LastAt(before, c.key);
      SixtySecondsLater(before[j].at, c.at);
      assert calls[j] == before[j];
    }
    NoneNewer(Kept(before, c.key), c.sec - WINDOW);
  }

  lemma {:induction false} NoneNewer(s: seq<(nat, nat)>, floor: int)
    requires forall m :: m in s ==> m.0 <= floor
    ensures NewerStamps(s, floor) == []
  {
    if s != [] {
      assert s[0] in s;
      NoneNewer(s[1..], floor);
    }
  }

  lemma PromptIsUndisturbed(calls: seq<RedisCall>)
    requires Prompt(calls)
    ensures AllUndisturbed(calls)
  {
    forall i | 0 <= i < |calls| ensures Undisturbed(calls[..i], calls[i]) {
      var before, c := calls[..i], calls[i];
      if FindsExpired(before, c) {
        ExpiryLosesNothing(calls, i);
      }
      NewerStampsFacts(Kept(before, c.key), c.sec - WINDOW);
      KeptAreCalls(before, c.key);
    }
  }

  lemma OneNewer(m: (nat, nat), floor: int)
    requires m.0 > floor
    ensures NewerStamps([m], floor) == [m]
  {
    assert [m][1..] == [] && NewerStamps([], floor) == [];
    assert [m][0] == m && [m] + [] == [m];
  }

  /** One call after another of the same key that is still in its window. */
  lemma SecondCall(c0: RedisCall, c1: RedisCall)
    requires c0.key == c1.key && c0.sec > c1.sec - WINDOW
    ensures Undisturbed([c0], c1) <==> c1.at <= c0.at + WINDOW * NANOS && (c1.sec, c1.ns) != (c0.sec, c0.ns)
    ensures AllUndisturbed([c0, c1]) ==> Undisturbed([c0], c1)
  {
    var k := c1.key;
    assert [c0][..0] == [] && [c0][0] == c0 && |[c0]| == 1;
    assert Kept([c0], k) == [] + [(c0.sec, c0.ns)] == [(c0.sec, c0.ns)];
    OneNewer((c0.sec, c0.ns), c1.sec - WINDOW);
    assert InWindow([c0], c1) == [(c0.sec, c0.ns)];
    assert LastAt([c0], k) == c0.at;
    assert Called([c0], k) by {
      assert [c0][0].key == k;
    }
    assert [c0, c1][..1] == [c0] && [c0, c1][1] == c1;
  }

  /** Stamped 59 seconds after the first call but run more than 60 after it, the second one finds the key gone. */
  lemma LagLosesAMember()
    ensures !AllUndisturbed([
      RedisCall("k", 0, 400_000_000, 500_000_000, 1),
      RedisCall("k", 59, 59_900_000_000, 60_600_000_000, 1)])
  {
    SecondCall(RedisCall("k", 0, 400_000_000, 500_000_000, 1), RedisCall("k", 59, 59_900_000_000, 60_600_000_000, 1));
  }

  /** Two calls stamped with the same nanosecond are one member: Redis counts them once. */
  lemma EqualStampsCollapse()
    ensures !AllUndisturbed([RedisCall("k", 0, 0, 0, 1), RedisCall("k", 0, 0, 0, 1)])
  {
    SecondCall(RedisCall("k", 0, 0, 0, 1), RedisCall("k", 0, 0, 0, 1));
  }
}
