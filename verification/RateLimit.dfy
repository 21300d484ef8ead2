/** app/core/rate_limit.py: the in-memory sliding window, and the Redis sorted set that it stands in for. */
module RateLimit {
  import Sequences

  type Key = string

  const WINDOW: nat := 60

  /** One call of check_rate_limit; `limit` is the effective limit. Times are whole seconds since the epoch. */
  datatype Call = Call(key: Key, at: nat, limit: int)

  type Log = map<Key, seq<nat>>

  /** [ts for ts in timestamps if ts > floor] */
  function Newer(ts: seq<nat>, floor: int): seq<nat> {
    if ts == [] then [] else (if ts[0] > floor then [ts[0]] else []) + Newer(ts[1..], floor)
  }

  function Stored(log: Log, key: Key): seq<nat> {
    if key in log then log[key] else []
  }

  function NextLog(log: Log, c: Call): Log {
    log[c.key := Newer(Stored(log, c.key), c.at - WINDOW) + [c.at]]
  }

  function LogAfter(calls: seq<Call>): Log {
    if calls == [] then map[] else NextLog(LogAfter(calls[..|calls|-1]), calls[|calls|-1])
  }

  /** Whether call i of the run is let through. */
  predicate Admits(calls: seq<Call>, i: nat)
    requires i < |calls|
  {
    |Stored(LogAfter(calls[..i+1]), calls[i].key)| <= calls[i].limit
  }

  /** One call more: what is stored, and what admits it. */
  lemma NextCall(calls: seq<Call>, c: Call)
    ensures LogAfter(calls + [c]) == NextLog(LogAfter(calls), c)
    ensures Admits(calls + [c], |calls|) <==> |Newer(Stored(LogAfter(calls), c.key), c.at - WINDOW) + [c.at]| <= c.limit
  {
    LogExtends(calls, c);
    assert (calls + [c])[..|calls| + 1] == calls + [c];
  }

  lemma LastCallDecides(calls: seq<Call>, c: Call, key: Key, now: nat)
    requires NonDecreasing(calls + [c]) && c.key == key && c.at == now
    ensures var all := calls + [c];
      Admits(all, |calls|) <==> |set i | 0 <= i < |all| && all[i].key == key && now - 60 < all[i].at| <= c.limit
  {
    LastOnTheClock(calls + [c], key, now);
  }

  class Limiter {
    var log: Log
    ghost var history: seq<Call>

    ghost predicate Valid()
      reads this
    {
      log == LogAfter(history)
    }

    constructor ()
      ensures Valid() && history == []
    {
      log := map[];
      history := [];
    }

    /**
     The in-memory path of check_rate_limit; false stands for RateLimitExceededException. A missing limit is 0 and
     means the limiter's own. Under a clock that never runs back, a call is admitted exactly if its key was called at
     most that often in the last minute, itself included.
     */
    method Check(key: Key, now: nat, limit: int, ownLimit: int) returns (admitted: bool)
      requires Valid()
      modifies this
      ensures Valid() && history == old(history) + [Call(key, now, if limit == 0 then ownLimit else limit)]
      ensures admitted == Admits(history, |history| - 1)
      ensures NonDecreasing(history) && limit == 0 ==>
        (admitted <==> |set i | 0 <= i < |history| && history[i].key == key && now - 60 < history[i].at| <= ownLimit)
      ensures NonDecreasing(history) && limit != 0 ==>
        (admitted <==> |set i | 0 <= i < |history| && history[i].key == key && now - 60 < history[i].at| <= limit)
    {
      var effective := if limit != 0 then limit else ownLimit;
      var timestamps := if key in log then log[key] else [];
      timestamps := Newer(timestamps, now - WINDOW);
      timestamps := timestamps + [now];
      log := log[key := timestamps];
      admitted := |timestamps| <= effective;
      ghost var c := Call(key, now, effective);
      NextCall(history, c);
      if NonDecreasing(history + [c]) {
        LastCallDecides(history, c, key, now);
      }
      history := history + [c];
    }
  }

  // ---------- the stored list is the window of the full history ----------

  /** The times of the calls under one key, rejected ones included. */
  function TimesOf(calls: seq<Call>, key: Key): seq<nat> {
    if calls == [] then []
    else TimesOf(calls[..|calls|-1], key) + (if calls[|calls|-1].key == key then [calls[|calls|-1].at] else [])
  }

  predicate NonDecreasing(calls: seq<Call>) {
    forall i, j :: 0 <= i <= j < |calls| ==> calls[i].at <= calls[j].at
  }

  lemma {:induction false} NewerConcat(x: seq<nat>, y: seq<nat>, floor: int)
    ensures Newer(x + y, floor) == Newer(x, floor) + Newer(y, floor)
  {
    if x == [] {
      assert x + y == y;
    } else {
      NewerConcat(x[1..], y, floor);
      assert (x + y)[0] == x[0] && (x + y)[1..] == x[1..] + y;
      Sequences.Regroup(if x[0] > floor then [x[0]] else [], Newer(x[1..], floor), Newer(y, floor));
    }
  }

  /** Pruning with an earlier floor first changes nothing. */
  lemma {:induction false} NewerTwice(x: seq<nat>, low: int, high: int)
    requires low <= high
    ensures Newer(Newer(x, low), high) == Newer(x, high)
  {
    if x != [] {
      NewerTwice(x[1..], low, high);
      if x[0] > low {
        assert Newer(x, low)[1..] == Newer(x[1..], low);
      } else {
        assert Newer(x, low) == Newer(x[1..], low);
      }
    }
  }

  /** Pruning and appending a call moves the window on. */
  lemma WindowMoves(times: seq<nat>, floor: int, now: nat)
    requires floor <= now - WINDOW
    ensures Newer(Newer(times, floor), now - WINDOW) + [now] == Newer(times + [now], now - WINDOW)
  {
    NewerTwice(times, floor, now - WINDOW);
    NewerConcat(times, [now], now - WINDOW);
    assert [now][1..] == [];
    assert Newer([now], now - WINDOW) == [now];
  }

  function LastOf(calls: seq<Call>, key: Key): nat {
    if calls == [] then 0
    else if calls[|calls|-1].key == key then calls[|calls|-1].at
    else LastOf(calls[..|calls|-1], key)
  }

  lemma {:induction false} LastIsEarlier(calls: seq<Call>, key: Key, now: nat)
    requires forall i :: 0 <= i < |calls| ==> calls[i].at <= now
    ensures LastOf(calls, key) <= now
  {
    if calls != [] {
      LastIsEarlier(calls[..|calls|-1], key, now);
    }
  }

  lemma StoredNext(log: Log, c: Call, key: Key)
    ensures Stored(NextLog(log, c), key)
      == if c.key == key then Newer(Stored(log, key), c.at - WINDOW) + [c.at] else Stored(log, key)
  {}

  /** One more call: its own key's list moves on, the others stay. */
  lemma WindowNext(log: Log, times: seq<nat>, floor: int, c: Call, key: Key)
    requires Stored(log, key) == Newer(times, floor) && floor <= c.at - WINDOW
    ensures Stored(NextLog(log, c), key) == if c.key == key then Newer(times + [c.at], c.at - WINDOW) else Newer(times, floor)
  {
    StoredNext(log, c, key);
    WindowMoves(times, floor, c.at);
  }

  lemma LogExtends(calls: seq<Call>, c: Call)
    ensures LogAfter(calls + [c]) == NextLog(LogAfter(calls), c)
  {
    assert (calls + [c])[..|calls|] == calls;
  }

  lemma TimesNext(before: seq<Call>, c: Call, key: Key)
    ensures TimesOf(before + [c], key) == if c.key == key then TimesOf(before, key) + [c.at] else TimesOf(before, key)
    ensures LastOf(before + [c], key) == if c.key == key then c.at else LastOf(before, key)
  {
    assert (before + [c])[..|before|] == before;
  }

  predicate IsWindow(log: Log, times: seq<nat>, last: nat, key: Key) {
    Stored(log, key) == Newer(times, last - WINDOW)
  }

  lemma NoneLater(before: seq<Call>, c: Call)
    requires NonDecreasing(before + [c])
    ensures NonDecreasing(before) && forall i :: 0 <= i < |before| ==> before[i].at <= c.at
  {
    var calls := before + [c];
    forall i, j | 0 <= i <= j < |before| ensures before[i].at <= before[j].at {
      assert calls[i].at <= calls[j].at;
    }
    forall i | 0 <= i < |before| ensures before[i].at <= c.at {
      assert calls[i].at <= calls[|before|].at;
    }
  }

  lemma WindowAfter(log: Log, times: seq<nat>, last: nat, c: Call, key: Key, log': Log, times': seq<nat>, last': nat)
    requires IsWindow(log, times, last, key) && last <= c.at && log' == NextLog(log, c)
    requires times' == if c.key == key then times + [c.at] else times
    requires last' == if c.key == key then c.at else last
    ensures IsWindow(log', times', last', key)
  {
    WindowNext(log, times, last - WINDOW, c, key);
  }

  /** Under a clock that never runs back, each key's list is its full call history cut to its last window. */
  lemma {:induction false} StoredIsWindow(calls: seq<Call>, key: Key)
    requires NonDecreasing(calls)
    ensures IsWindow(LogAfter(calls), TimesOf(calls, key), LastOf(calls, key), key)
  {
    if calls != [] {
      var before, c := calls[..|calls|-1], calls[|calls|-1];
      assert calls == before + [c];
      NoneLater(before, c);
      StoredIsWindow(before, key);
      LastIsEarlier(before, key, c.at);
      TimesNext(before, c, key);
      LogExtends(before, c);
      WindowAfter(LogAfter(before), TimesOf(before, key), LastOf(before, key), c, key,
        LogAfter(calls), TimesOf(calls, key), LastOf(calls, key));
    }
  }

  // ---------- counting calls in a window ----------

  /** How many of the calls fall under the key, in the half-open window (a, b]. */
  function CallsIn(calls: seq<Call>, key: Key, a: int, b: int): nat {
    if calls == [] then 0
    else CallsIn(calls[..|calls|-1], key, a, b)
         + (if calls[|calls|-1].key == key && a < calls[|calls|-1].at <= b then 1 else 0)
  }

  lemma {:induction false} WindowCount(calls: seq<Call>, key: Key, a: int, b: int)
    requires forall i :: 0 <= i < |calls| ==> calls[i].at <= b
    ensures |Newer(TimesOf(calls, key), a)| == CallsIn(calls, key, a, b)
  {
    if calls != [] {
      var before, c := calls[..|calls|-1], calls[|calls|-1];
      WindowCount(before, key, a, b);
      if c.key == key {
        NewerConcat(TimesOf(before, key), [c.at], a);
        assert Newer([c.at], a) == if c.at > a then [c.at] else [] by {
          assert [c.at][1..] == [];
        }
      } else {
        assert TimesOf(calls, key) == TimesOf(before, key);
      }
    }
  }

  /** A call is admitted exactly when, itself included, its key was called at most `limit` times in the last 60 seconds. */
  lemma AdmittedIffWithinLimit(calls: seq<Call>, i: nat)
    requires NonDecreasing(calls) && i < |calls|
    ensures Admits(calls, i) <==> CallsIn(calls[..i+1], calls[i].key, calls[i].at - WINDOW, calls[i].at) <= calls[i].limit
  {
    var prefix := calls[..i+1];
    assert prefix[|prefix|-1] == calls[i];
    StoredIsWindow(prefix, calls[i].key);
    assert LastOf(prefix, calls[i].key) == calls[i].at;
    forall j | 0 <= j < |prefix| ensures prefix[j].at <= calls[i].at {
      assert prefix[j] == calls[j];
    }
    WindowCount(prefix, calls[i].key, calls[i].at - WINDOW, calls[i].at);
  }

  ghost function WindowOf(calls: seq<Call>, key: Key, a: int, b: int): set<nat> {
    set i | 0 <= i < |calls| && calls[i].key == key && a < calls[i].at <= b
  }

  lemma WindowGrows(before: seq<Call>, c: Call, key: Key, a: int, b: int)
    ensures WindowOf(before + [c], key, a, b) == WindowOf(before, key, a, b) + if c.key == key && a < c.at <= b then {|before|} else {}
  {}

  lemma {:induction false} CallsInWindow(calls: seq<Call>, key: Key, a: int, b: int)
    ensures CallsIn(calls, key, a, b) == |WindowOf(calls, key, a, b)|
  {
    if calls != [] {
      var before, c := calls[..|calls|-1], calls[|calls|-1];
      assert calls == before + [c];
      CallsInWindow(before, key, a, b);
      WindowGrows(before, c, key, a, b);
    }
  }

  lemma LastMinute(calls: seq<Call>, key: Key, now: nat)
    requires forall i :: 0 <= i < |calls| ==> calls[i].at <= now
    ensures CallsIn(calls, key, now - WINDOW, now) == |set i | 0 <= i < |calls| && calls[i].key == key && now - 60 < calls[i].at|
  {
    CallsInWindow(calls, key, now - WINDOW, now);
    assert (set i | 0 <= i < |calls| && calls[i].key == key && now - 60 < calls[i].at)
      == WindowOf(calls, key, now - WINDOW, now);
  }

  /** What admits the latest call: how many calls of its key the last minute holds. */
  lemma LastOnTheClock(calls: seq<Call>, key: Key, now: nat)
    requires NonDecreasing(calls) && calls != [] && calls[|calls|-1].key == key && calls[|calls|-1].at == now
    ensures Admits(calls, |calls| - 1)
      <==> |set i | 0 <= i < |calls| && calls[i].key == key && now - 60 < calls[i].at| <= calls[|calls|-1].limit
  {
    AdmittedIffWithinLimit(calls, |calls| - 1);
    assert calls[..|calls|] == calls;
    LastMinute(calls, key, now);
  }

  // ---------- the limit over any window ----------

  /** How many admitted calls among the first n fall under the key in (a, b]. */
  function AdmittedIn(calls: seq<Call>, n: nat, key: Key, a: int, b: int): nat
    requires n <= |calls|
  {
    if n == 0 then 0
    else AdmittedIn(calls, n - 1, key, a, b)
         + (if calls[n-1].key == key && a < calls[n-1].at <= b && Admits(calls, n - 1) then 1 else 0)
  }

  lemma {:induction false} AdmittedAreCalls(calls: seq<Call>, n: nat, key: Key, a: int, b: int)
    requires n <= |calls|
    ensures AdmittedIn(calls, n, key, a, b) <= CallsIn(calls[..n], key, a, b)
  {
    if n > 0 {
      AdmittedAreCalls(calls, n - 1, key, a, b);
      assert calls[..n][..n-1] == calls[..n-1];
    }
  }

  /** A wider window holds at least as many calls. */
  lemma {:induction false} WiderWindow(calls: seq<Call>, key: Key, a: int, b: int, a': int, b': int)
    requires a' <= a && forall i :: 0 <= i < |calls| ==> calls[i].at <= b'
    ensures CallsIn(calls, key, a, b) <= CallsIn(calls, key, a', b')
  {
    if calls != [] {
      WiderWindow(calls[..|calls|-1], key, a, b, a', b');
    }
  }

  /** At most `limit` calls under one key are admitted in any 60 seconds of the run. */
  lemma {:induction false} AtMostLimitPerWindow(calls: seq<Call>, n: nat, key: Key, a: int, limit: nat)
    requires NonDecreasing(calls) && n <= |calls|
    requires forall i :: 0 <= i < n && calls[i].key == key ==> calls[i].limit <= limit
    ensures AdmittedIn(calls, n, key, a, a + WINDOW) <= limit
  {
    if n > 0 {
      var c := calls[n-1];
      if c.key == key && a < c.at <= a + WINDOW && Admits(calls, n - 1) {
        AdmittedIffWithinLimit(calls, n - 1);
        AdmittedAreCalls(calls, n, key, a, a + WINDOW);
        WiderWindow(calls[..n], key, a, a + WINDOW, c.at - WINDOW, c.at);
      } else {
        AtMostLimitPerWindow(calls, n - 1, key, a, limit);
      }
    }
  }

  // ---------- keys are independent ----------

  /** The calls under one key, in order. */
  function Only(calls: seq<Call>, key: Key): seq<Call> {
    if calls == [] then []
    else Only(calls[..|calls|-1], key) + (if calls[|calls|-1].key == key then [calls[|calls|-1]] else [])
  }

  lemma {:induction false} OtherKeysDoNotMatter(calls: seq<Call>, key: Key)
    ensures Stored(LogAfter(Only(calls, key)), key) == Stored(LogAfter(calls), key)
  {
    if calls != [] {
      var before, c := calls[..|calls|-1], calls[|calls|-1];
      OtherKeysDoNotMatter(before, key);
      if c.key == key {
        var only := Only(calls, key);
        assert only[..|only|-1] == Only(before, key) && only[|only|-1] == c;
      } else {
        assert Only(calls, key) == Only(before, key);
      }
    }
  }

  /** A call is admitted iff it would be if only its own key had ever been called. */
  lemma AdmissionIgnoresOtherKeys(calls: seq<Call>, i: nat)
    requires i < |calls|
    ensures var own := Only(calls[..i+1], calls[i].key);
      |own| > 0 && own[|own|-1] == calls[i] && (Admits(calls, i) <==> Admits(own, |own| - 1))
  {
    var prefix := calls[..i+1];
    var own := Only(prefix, calls[i].key);
    assert prefix[|prefix|-1] == calls[i];
    OtherKeysDoNotMatter(prefix, calls[i].key);
    assert own[..|own|] == own;
  }
}
