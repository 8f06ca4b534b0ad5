/** The fixed-window rate limiter of the request gate (middleware.ts,
    lines 4-27): a process-wide map from "ip:path" to the current window. */
module RateLimit {

  /** The window of one key: requests admitted in it so far, and the time
      (milliseconds) after which it has expired. */
  datatype Window = Window(count: int, resetTime: int)

  /** The rate-limit key: the client address, a colon, then the path. */
  function Key(ip: string, path: string): (k: string)
    ensures |k| == |ip| + 1 + |path|
    ensures k[..|ip|] == ip && k[|ip|] == ':' && k[|ip| + 1..] == path
  {
    ip + ":" + path
  }

  /** A call at time `now` starts a new window when the key has no record
      or its record is strictly past its reset time. */
  predicate OpensWindow(store: map<string, Window>, key: string, now: int)
  {
    key !in store || now > store[key].resetTime
  }

  /** The outcome of one check: admitted or not, and the store afterwards. */
  datatype Admission = Admission(allowed: bool, store: map<string, Window>)

  /** One call of the limiter as a function of the store before it.
      Only the entry of `key` may change, and after the call it exists. */
  function Admit(store: map<string, Window>, key: string, maxRequests: int, windowMs: int, now: int): (a: Admission)
    ensures a.store.Keys == store.Keys + {key}
    ensures forall k :: k in store && k != key ==> a.store[k] == store[k]
  {
    if OpensWindow(store, key, now) then
      Admission(true, store[key := Window(1, now + windowMs)])
    else if store[key].count >= maxRequests then
      Admission(false, store)
    else
      Admission(true, store[key := store[key].(count := store[key].count + 1)])
  }

  /** No record, or an expired one: a fresh window with count 1 and reset
      time `now + windowMs`, and the call is admitted. */
  lemma AdmitOpensFreshWindow(store: map<string, Window>, key: string, maxRequests: int, windowMs: int, now: int)
    requires OpensWindow(store, key, now)
    ensures var a := Admit(store, key, maxRequests, windowMs, now);
      a.allowed && a.store == store[key := Window(1, now + windowMs)]
  {
  }

  /** An active window whose count has reached the maximum: denied, and
      the store is left exactly as it was. */
  lemma AdmitDeniesExhausted(store: map<string, Window>, key: string, maxRequests: int, windowMs: int, now: int)
    requires !OpensWindow(store, key, now) && store[key].count >= maxRequests
    ensures Admit(store, key, maxRequests, windowMs, now) == Admission(false, store)
  {
  }

  /** An active window below the maximum: admitted, its count rises by
      exactly one and its reset time is kept. */
  lemma AdmitIncrements(store: map<string, Window>, key: string, maxRequests: int, windowMs: int, now: int)
    requires !OpensWindow(store, key, now) && store[key].count < maxRequests
    ensures var a := Admit(store, key, maxRequests, windowMs, now);
      a.allowed && a.store == store[key := Window(store[key].count + 1, store[key].resetTime)]
  {
  }

  /** Expiry is strict: at `now == resetTime` the old window still applies,
      so an exhausted key is still refused at that instant. */
  lemma ExpiryIsStrict(store: map<string, Window>, key: string, maxRequests: int, windowMs: int)
    requires key in store && store[key].count >= maxRequests
    ensures !Admit(store, key, maxRequests, windowMs, store[key].resetTime).allowed
    ensures Admit(store, key, maxRequests, windowMs, store[key].resetTime + 1).allowed
  {
  }

  /** For `maxRequests >= 1` the bound `1 <= count <= maxRequests` on the
      key's record is kept by every call, and an admitted call never leaves
      the record above the maximum, whatever was stored before. */
  lemma AdmitKeepsBound(store: map<string, Window>, key: string, maxRequests: int, windowMs: int, now: int)
    requires maxRequests >= 1
    ensures var a := Admit(store, key, maxRequests, windowMs, now);
      a.allowed ==> a.store[key].count <= maxRequests
    ensures var a := Admit(store, key, maxRequests, windowMs, now);
      (key in store ==> 1 <= store[key].count <= maxRequests) ==> 1 <= a.store[key].count <= maxRequests
  {
  }

  function Min(x: int, y: int): int
  {
    if x <= y then x else y
  }

  /** The per-call outcomes and the final store of a run of calls for one
      key, made one after another at the times `nows`. */
  datatype Trace = Trace(outcomes: seq<bool>, store: map<string, Window>)

  function Replay(store: map<string, Window>, key: string, maxRequests: int, windowMs: int, nows: seq<int>): (t: Trace)
    ensures |t.outcomes| == |nows|
    ensures t.store.Keys == if nows == [] then store.Keys else store.Keys + {key}
    decreases |nows|
  {
    if nows == [] then Trace([], store)
    else
      var a := Admit(store, key, maxRequests, windowMs, nows[0]);
      var rest := Replay(a.store, key, maxRequests, windowMs, nows[1..]);
      Trace([a.allowed] + rest.outcomes, rest.store)
  }

  /** Calls that all fall within the key's current window (none later than
      its reset time): exactly the first `maxRequests - count` of them are
      admitted, and the window ends with count `min(count + n, maxRequests)`
      (unchanged if it was already exhausted) and its original reset time. */
  lemma {:induction false} ReplayWithinWindow(store: map<string, Window>, key: string, maxRequests: int, windowMs: int, nows: seq<int>)
    requires key in store
    requires forall i :: 0 <= i < |nows| ==> nows[i] <= store[key].resetTime
    ensures var t := Replay(store, key, maxRequests, windowMs, nows);
      forall i :: 0 <= i < |nows| ==> t.outcomes[i] == (store[key].count + i < maxRequests)
    ensures var t := Replay(store, key, maxRequests, windowMs, nows);
      key in t.store && t.store[key].resetTime == store[key].resetTime &&
      t.store[key].count == if store[key].count >= maxRequests then store[key].count
                            else Min(store[key].count + |nows|, maxRequests)
    decreases |nows|
  {
    if nows != [] {
      var w := store[key];
      var a := Admit(store, key, maxRequests, windowMs, nows[0]);
      assert a.allowed == (w.count < maxRequests);
      assert a.store[key].resetTime == w.resetTime;
      assert a.store[key].count == if w.count < maxRequests then w.count + 1 else w.count;
      ReplayWithinWindow(a.store, key, maxRequests, windowMs, nows[1..]);
      var t := Replay(store, key, maxRequests, windowMs, nows);
      var rest := Replay(a.store, key, maxRequests, windowMs, nows[1..]);
      forall i | 1 <= i < |nows|
        ensures t.outcomes[i] == (w.count + i < maxRequests)
      {
        assert t.outcomes[i] == rest.outcomes[i - 1];
      }
    }
  }

  /** A run that opens a new window with its first call and whose later
      calls all come within `windowMs` of it: the first `maxRequests` calls
      are admitted and call `maxRequests + 1` and every later one is denied,
      so at most `maxRequests` calls are admitted in the window. */
  lemma {:induction false} WindowBudget(store: map<string, Window>, key: string, maxRequests: int, windowMs: int, nows: seq<int>)
    requires |nows| > 0 && OpensWindow(store, key, nows[0])
    requires forall i :: 0 < i < |nows| ==> nows[i] <= nows[0] + windowMs
    ensures var t := Replay(store, key, maxRequests, windowMs, nows);
      forall i :: 0 < i < |nows| ==> t.outcomes[i] == (i < maxRequests)
    ensures Replay(store, key, maxRequests, windowMs, nows).outcomes[0]
  {
    var a := Admit(store, key, maxRequests, windowMs, nows[0]);
    assert a.store[key] == Window(1, nows[0] + windowMs);
    ReplayWithinWindow(a.store, key, maxRequests, windowMs, nows[1..]);
    var t := Replay(store, key, maxRequests, windowMs, nows);
    var rest := Replay(a.store, key, maxRequests, windowMs, nows[1..]);
    forall i | 0 < i < |nows|
      ensures t.outcomes[i] == (i < maxRequests)
    {
      assert t.outcomes[i] == rest.outcomes[i - 1];
    }
  }

  /** A run of calls for one key never touches another key's window, so
      exhausting one budget leaves every other budget as it was. */
  lemma {:induction false} ReplayLeavesOtherKeys(store: map<string, Window>, key: string, maxRequests: int, windowMs: int, nows: seq<int>, other: string)
    requires other != key && other in store
    ensures var t := Replay(store, key, maxRequests, windowMs, nows);
      other in t.store && t.store[other] == store[other]
    decreases |nows|
  {
    if nows != [] {
      var a := Admit(store, key, maxRequests, windowMs, nows[0]);
      ReplayLeavesOtherKeys(a.store, key, maxRequests, windowMs, nows[1..], other);
    }
  }

  /** For a fixed client address, two different paths never share a key,
      so each full path has its own budget. */
  lemma KeySeparatesPaths(ip: string, path1: string, path2: string)
    requires path1 != path2
    ensures Key(ip, path1) != Key(ip, path2)
  {
  }

  /** If neither address contains '/' and both paths begin with '/', the
      key determines the (address, path) pair: the first '/' of the key
      sits right after the separating colon. */
  lemma KeyInjective(ip1: string, path1: string, ip2: string, path2: string)
    requires '/' !in ip1 && '/' !in ip2
    requires StartsWithSlash(path1) && StartsWithSlash(path2)
    requires Key(ip1, path1) == Key(ip2, path2)
    ensures ip1 == ip2 && path1 == path2
  {
  }

  predicate StartsWithSlash(path: string)
  {
    |path| > 0 && path[0] == '/'
  }

  /** The in-memory limiter: one map from key to window for the whole process. */
  class RateLimiter {
    var store: map<string, Window>

    constructor ()
      ensures store == map[]
    {
      store := map[];
    }

    /** `checkRateLimit`: the clock is the parameter `now`. */
    method Check(ip: string, path: string, maxRequests: int, windowMs: int, now: int) returns (allowed: bool)
      modifies this
      ensures var a := Admit(old(store), Key(ip, path), maxRequests, windowMs, now);
        allowed == a.allowed && store == a.store
    {
      var key := Key(ip, path);
      if key !in store || now > store[key].resetTime {
        store := store[key := Window(1, now + windowMs)];
        return true;
      }
      var record := store[key];
      if record.count >= maxRequests {
        return false;
      }
      store := store[key := record.(count := record.count + 1)];
      return true;
    }
  }
}
