/** The in-process rate limiter: fixed windows per key, with a lazy sweep
    (services/core/cmd/api/ratelimit.go). */
module RateLimiter {

  /** Whose requests are counted. */
  datatype Key = Key(client: string)

  datatype Window = Window(start: int, count: int)

  datatype State = State(hits: map<Key, Window>, swept: int)

  datatype Params = Params(limit: int, window: int)

  datatype Request = Request(key: Key, now: int)

  /** What the sweep keeps: windows that are still running. */
  function Running(p: Params, hits: map<Key, Window>, now: int): map<Key, Window> {
    map k | k in hits && now - hits[k].start < p.window :: hits[k]
  }

  /** One request against the windows. */
  function Count(p: Params, hits: map<Key, Window>, r: Request): (bool, map<Key, Window>) {
    if r.key !in hits || r.now - hits[r.key].start >= p.window then (true, hits[r.key := Window(r.now, 1)])
    else if hits[r.key].count >= p.limit then (false, hits)
    else (true, hits[r.key := hits[r.key].(count := hits[r.key].count + 1)])
  }

  function Allow(p: Params, s: State, r: Request): (bool, State) {
    var t := if r.now - s.swept > p.window then State(Running(p, s.hits, r.now), r.now) else s;
    var (ok, hits) := Count(p, t.hits, r);
    (ok, t.(hits := hits))
  }

  class Limiter {
    const p: Params
    var hits: map<Key, Window>
    var swept: int

    function Snapshot(): State
      reads this
    {
      State(hits, swept)
    }

    constructor (limit: int, window: int, swept: int)
      ensures p == Params(limit, window) && Snapshot() == State(map[], swept)
    {
      p := Params(limit, window);
      hits, this.swept := map[], swept;
    }

    /** Deletes the windows that are over. */
    method Sweep(now: int)
      modifies this
      ensures hits == Running(p, old(hits), now) && swept == now
    {
      var left, rest := hits.Keys, hits;
      while left != {}
        invariant left <= rest.Keys <= hits.Keys
        invariant hits == old(hits)
        invariant forall k | k in rest :: rest[k] == hits[k] && (k in left || now - rest[k].start < p.window)
        invariant forall k | k in hits && k !in rest :: now - hits[k].start >= p.window
        decreases left
      {
        var k :| k in left;
        left := left - {k};
        if now - rest[k].start >= p.window {
          rest := rest - {k};
        }
      }
      hits, swept := rest, now;
    }

    /** allowLocal */
    method AllowLocal(key: Key, now: int) returns (ok: bool)
      modifies this
      ensures (ok, Snapshot()) == Allow(p, old(Snapshot()), Request(key, now))
    {
      if now - swept > p.window {
        Sweep(now);
      }
      if key !in hits || now - hits[key].start >= p.window {
        hits := hits[key := Window(now, 1)];
        return true;
      }
      if hits[key].count >= p.limit {
        return false;
      }
      hits := hits[key := Window(hits[key].start, hits[key].count + 1)];
      return true;
    }
  }

  // ---- runs ----

  function After(p: Params, s: State, rs: seq<Request>): State {
    if rs == [] then s else Allow(p, After(p, s, rs[..|rs| - 1]), rs[|rs| - 1]).1
  }

  function Answers(p: Params, s: State, rs: seq<Request>): (r: seq<bool>)
    ensures |r| == |rs|
  {
    if rs == [] then []
    else
      var init := rs[..|rs| - 1];
      Answers(p, s, init) + [Allow(p, After(p, s, init), rs[|rs| - 1]).0]
  }

  /** The same without ever sweeping. */
  function PlainAfter(p: Params, hits: map<Key, Window>, rs: seq<Request>): map<Key, Window> {
    if rs == [] then hits else Count(p, PlainAfter(p, hits, rs[..|rs| - 1]), rs[|rs| - 1]).1
  }

  function PlainAnswers(p: Params, hits: map<Key, Window>, rs: seq<Request>): (r: seq<bool>)
    ensures |r| == |rs|
  {
    if rs == [] then []
    else
      var init := rs[..|rs| - 1];
      PlainAnswers(p, hits, init) + [Count(p, PlainAfter(p, hits, init), rs[|rs| - 1]).0]
  }

  predicate Monotone(rs: seq<Request>) { forall i, j | 0 <= i < j < |rs| :: rs[i].now <= rs[j].now }

  // ---- the sweep changes no answer ----

  /** Sweeping only ever drops windows that are over. */
  ghost predicate Swept(p: Params, swept: map<Key, Window>, plain: map<Key, Window>, now: int) {
    && (forall k | k in swept :: k in plain && swept[k] == plain[k])
    && (forall k | k in plain && k !in swept :: now - plain[k].start >= p.window)
  }

  lemma CountAlike(p: Params, swept: map<Key, Window>, plain: map<Key, Window>, r: Request)
    requires Swept(p, swept, plain, r.now)
    ensures var (a, s) := Count(p, swept, r);
      var (b, t) := Count(p, plain, r);
      a == b && Swept(p, s, t, r.now)
  {}

  lemma RunningSwept(p: Params, swept: map<Key, Window>, plain: map<Key, Window>, now: int)
    requires Swept(p, swept, plain, now)
    ensures Swept(p, Running(p, swept, now), plain, now)
  {}

  lemma LaterSwept(p: Params, swept: map<Key, Window>, plain: map<Key, Window>, now: int, later: int)
    requires Swept(p, swept, plain, now) && now <= later
    ensures Swept(p, swept, plain, later)
  {}

  /** With time that never goes back, a limiter that sweeps gives exactly the
      answers of one that never does. */
  lemma {:induction false} SweepIsInvisible(p: Params, swept: int, rs: seq<Request>)
    requires Monotone(rs)
    ensures Answers(p, State(map[], swept), rs) == PlainAnswers(p, map[], rs)
    ensures rs != [] ==> Swept(p, After(p, State(map[], swept), rs).hits, PlainAfter(p, map[], rs), rs[|rs| - 1].now)
  {
    hide Running, Count;
    if rs != [] {
      var n := |rs| - 1;
      var init, r := rs[..n], rs[n];
      var s, plain := After(p, State(map[], swept), init), PlainAfter(p, map[], init);
      SweepIsInvisible(p, swept, init);
      if init != [] {
        LaterSwept(p, s.hits, plain, init[n - 1].now, r.now);
      }
      assert Swept(p, s.hits, plain, r.now);
      RunningSwept(p, s.hits, plain, r.now);
      CountAlike(p, s.hits, plain, r);
      CountAlike(p, Running(p, s.hits, r.now), plain, r);
    }
  }

  // ---- at most twice the limit ----

  /** An admitted request: when, and in the window that started when. */
  datatype Admitted = Admitted(time: int, start: int)

  function Log(p: Params, rs: seq<Request>, key: Key): seq<Admitted> {
    if rs == [] then []
    else
      var init, r := rs[..|rs| - 1], rs[|rs| - 1];
      var (ok, hits) := Count(p, PlainAfter(p, map[], init), r);
      Log(p, init, key) + (if ok && r.key == key && key in hits then [Admitted(r.now, hits[key].start)] else [])
  }

  /** How many admitted requests were counted in the window from s. */
  function InWindow(log: seq<Admitted>, s: int): nat {
    if log == [] then 0 else InWindow(log[..|log| - 1], s) + (if log[|log| - 1].start == s then 1 else 0)
  }

  /** How many fall in a closed interval. */
  function Between(log: seq<Admitted>, from: int, to: int): nat {
    if log == [] then 0 else Between(log[..|log| - 1], from, to) + (if from <= log[|log| - 1].time <= to then 1 else 0)
  }

  ghost predicate EntriesOk(p: Params, log: seq<Admitted>) {
    && (forall i | 0 <= i < |log| :: log[i].start <= log[i].time < log[i].start + p.window)
    && (forall i, j | 0 <= i < j < |log| :: log[i].start == log[j].start || log[i].start + p.window <= log[j].start)
  }

  ghost predicate LogOk(p: Params, log: seq<Admitted>, hits: map<Key, Window>, key: Key, now: int) {
    && EntriesOk(p, log)
    && (forall s :: InWindow(log, s) <= p.limit)
    && (key !in hits ==> log == [])
    && (key in hits ==>
          && log != [] && log[|log| - 1].start == hits[key].start <= now
          && hits[key].count == InWindow(log, hits[key].start) >= 1)
  }

  lemma {:induction false} NotYet(log: seq<Admitted>, s: int)
    requires forall i | 0 <= i < |log| :: log[i].start < s
    ensures InWindow(log, s) == 0
  {
    if log != [] {
      NotYet(log[..|log| - 1], s);
    }
  }

  lemma OneMore(log: seq<Admitted>, e: Admitted)
    ensures forall s :: InWindow(log + [e], s) == InWindow(log, s) + (if e.start == s then 1 else 0)
    ensures forall from, to :: Between(log + [e], from, to) == Between(log, from, to) + (if from <= e.time <= to then 1 else 0)
  {}

  lemma {:induction false} LogKeeps(p: Params, rs: seq<Request>, key: Key)
    requires Monotone(rs) && p.limit >= 1 && p.window > 0
    ensures rs != [] ==> LogOk(p, Log(p, rs, key), PlainAfter(p, map[], rs), key, rs[|rs| - 1].now)
    ensures rs == [] ==> LogOk(p, [], map[], key, 0)
  {
    if rs != [] {
      var n := |rs| - 1;
      var init, r := rs[..n], rs[n];
      LogKeeps(p, init, key);
      var hits := PlainAfter(p, map[], init);
      var log := Log(p, init, key);
      var (ok, next) := Count(p, hits, r);
      if init != [] {
        assert init[n - 1].now <= r.now;
      }
      if ok && r.key == key {
        Admits(p, log, hits, key, r);
      } else {
        assert Log(p, rs, key) == log;
      }
    }
  }

  /** An admitted request extends the log in order. */
  lemma Admits(p: Params, log: seq<Admitted>, hits: map<Key, Window>, key: Key, r: Request)
    requires p.limit >= 1 && p.window > 0 && r.key == key && Count(p, hits, r).0
    requires LogOk(p, log, hits, key, r.now)
    ensures var next := Count(p, hits, r).1;
      LogOk(p, log + [Admitted(r.now, next[key].start)], next, key, r.now)
  {
    var next := Count(p, hits, r).1;
    var e := Admitted(r.now, next[key].start);
    OneMore(log, e);
    if key !in hits || r.now - hits[key].start >= p.window {
      forall i | 0 <= i < |log| ensures log[i].start + p.window <= r.now {
        assert i < |log| - 1 ==> log[i].start == log[|log| - 1].start || log[i].start + p.window <= log[|log| - 1].start;
      }
      NotYet(log, r.now);
    }
    var all := log + [e];
    forall i, j | 0 <= i < j < |all| ensures all[i].start == all[j].start || all[i].start + p.window <= all[j].start {
      if j == |log| && key in hits {
        assert i < |log| - 1 ==> log[i].start == log[|log| - 1].start || log[i].start + p.window <= log[|log| - 1].start;
      }
    }
  }

  /** Counting an interval by the two windows its entries can belong to. */
  lemma {:induction false} TwoWindows(log: seq<Admitted>, from: int, to: int, s: int, t: int)
    requires forall i | 0 <= i < |log| && from <= log[i].time <= to :: log[i].start == s || log[i].start == t
    ensures Between(log, from, to) <= InWindow(log, s) + InWindow(log, t)
  {
    if log != [] {
      TwoWindows(log[..|log| - 1], from, to, s, t);
    }
  }

  /** The first entry of an interval, if it has any. */
  lemma {:induction false} FirstBetween(log: seq<Admitted>, from: int, to: int) returns (i: nat)
    requires Between(log, from, to) > 0
    ensures i < |log| && from <= log[i].time <= to && forall k | 0 <= k < i :: !(from <= log[k].time <= to)
  {
    if Between(log[..|log| - 1], from, to) > 0 {
      i := FirstBetween(log[..|log| - 1], from, to);
    } else {
      i := |log| - 1;
      NoneBetween(log[..|log| - 1], from, to);
    }
  }

  lemma {:induction false} NoneBetween(log: seq<Admitted>, from: int, to: int)
    requires Between(log, from, to) == 0
    ensures forall k | 0 <= k < |log| :: !(from <= log[k].time <= to)
  {
    if log != [] {
      NoneBetween(log[..|log| - 1], from, to);
    }
  }

  /** Any entry of an interval no longer than a window belongs to the window of
      the first one or to one other window. */
  lemma AtMostTwoStarts(p: Params, log: seq<Admitted>, from: int, first: nat, other: nat, k: nat)
    requires EntriesOk(p, log) && p.window > 0 && first < other < |log| && first <= k < |log|
    requires from <= log[first].time <= from + p.window && from <= log[other].time <= from + p.window && from <= log[k].time <= from + p.window
    requires log[other].start != log[first].start
    ensures log[k].start == log[first].start || log[k].start == log[other].start
  {}

  lemma IntervalBound(p: Params, log: seq<Admitted>, from: int)
    requires EntriesOk(p, log) && p.window > 0 && p.limit >= 1 && forall s :: InWindow(log, s) <= p.limit
    ensures Between(log, from, from + p.window) <= 2 * p.limit
  {
    if Between(log, from, from + p.window) > 0 {
      var i := FirstBetween(log, from, from + p.window);
      var s := log[i].start;
      if o: nat :| i < o < |log| && from <= log[o].time <= from + p.window && log[o].start != s {
        forall k | 0 <= k < |log| && from <= log[k].time <= from + p.window ensures log[k].start == s || log[k].start == log[o].start {
          AtMostTwoStarts(p, log, from, i, o, k);
        }
        TwoWindows(log, from, from + p.window, s, log[o].start);
      } else {
        TwoWindows(log, from, from + p.window, s, s);
      }
    }
  }

  /** How many of a key's requests were let through in a closed interval. */
  function LetThrough(rs: seq<Request>, answers: seq<bool>, key: Key, from: int, to: int): nat
    requires |answers| == |rs|
  {
    if rs == [] then 0
    else
      var n := |rs| - 1;
      LetThrough(rs[..n], answers[..n], key, from, to)
      + (if answers[n] && rs[n].key == key && from <= rs[n].now <= to then 1 else 0)
  }

  lemma {:induction false} LogCounts(p: Params, rs: seq<Request>, key: Key, from: int, to: int)
    ensures LetThrough(rs, PlainAnswers(p, map[], rs), key, from, to) == Between(Log(p, rs, key), from, to)
  {
    if rs != [] {
      var n := |rs| - 1;
      var init, r := rs[..n], rs[n];
      LogCounts(p, init, key, from, to);
      var (ok, hits) := Count(p, PlainAfter(p, map[], init), r);
      assert PlainAnswers(p, map[], rs)[..n] == PlainAnswers(p, map[], init);
      if ok && r.key == key {
        OneMore(Log(p, init, key), Admitted(r.now, hits[key].start));
      } else {
        assert Log(p, rs, key) == Log(p, init, key);
      }
    }
  }

  /** The limiter as it runs: in any interval of one window's length, both ends
      included, at most twice the limit of any key's requests get through. */
  lemma AtMostTwiceTheLimit(p: Params, swept: int, rs: seq<Request>, key: Key, from: int)
    requires Monotone(rs) && p.limit >= 1 && p.window > 0
    ensures LetThrough(rs, Answers(p, State(map[], swept), rs), key, from, from + p.window) <= 2 * p.limit
  {
    hide Answers, PlainAnswers, LetThrough, Log, Between, EntriesOk, PlainAfter, Monotone;
    LogIsOk(p, rs, key);
    SweepIsInvisible(p, swept, rs);
    LogCounts(p, rs, key, from, from + p.window);
    IntervalBound(p, Log(p, rs, key), from);
  }

  lemma LogIsOk(p: Params, rs: seq<Request>, key: Key)
    requires Monotone(rs) && p.limit >= 1 && p.window > 0
    ensures EntriesOk(p, Log(p, rs, key)) && forall s :: InWindow(Log(p, rs, key), s) <= p.limit
  {
    hide PlainAfter, Monotone;
    LogKeeps(p, rs, key);
  }

  /** What the limiter answers follows from what it let through: a request is
      refused exactly when the limit has been let through in the key's last
      window and that window is still open; otherwise it is counted there, or in
      a new window that opens with it. */
  lemma DecidedByHistory(p: Params, swept: int, rs: seq<Request>)
    requires Monotone(rs) && rs != [] && p.limit >= 1 && p.window > 0
    ensures var n := |rs| - 1;
      var r := rs[n];
      var log := Log(p, rs[..n], r.key);
      var open := log != [] && r.now < log[|log| - 1].start + p.window;
      var refused := open && InWindow(log, log[|log| - 1].start) >= p.limit;
      && Answers(p, State(map[], swept), rs)[n] == !refused
      && Log(p, rs, r.key) ==
           if refused then log
           else log + [Admitted(r.now, if open then log[|log| - 1].start else r.now)]
  {
    hide Answers, EntriesOk;
    var n := |rs| - 1;
    SweepIsInvisible(p, swept, rs);
    LogKeeps(p, rs[..n], rs[n].key);
    assert rs[..n] == [] ==> PlainAfter(p, map[], rs[..n]) == map[];
  }

  /** The bound is reached: one hit opens a window, and around its end the rest
      of it and a whole new one fit into one window's length. */
  lemma TwiceIsReached(key: Key)
    ensures var p := Params(2, 10);
      var rs := [Request(key, 0), Request(key, 9), Request(key, 10), Request(key, 10)];
      && Monotone(rs) && LetThrough(rs, PlainAnswers(p, map[], rs), key, 0, 10) == 4
  {
    var p := Params(2, 10);
    var r0, r1, r2 := Request(key, 0), Request(key, 9), Request(key, 10);
    Next(p, [], r0);
    Next(p, [r0], r1);
    Next(p, [r0, r1], r2);
    Next(p, [r0, r1, r2], r2);
    assert [] + [r0] == [r0] && [r0] + [r1] == [r0, r1] && [r0, r1] + [r2] == [r0, r1, r2];
    assert [r0, r1, r2] + [r2] == [r0, r1, r2, r2];
    assert PlainAfter(p, map[], [r0])[key] == Window(0, 1);
    assert PlainAfter(p, map[], [r0, r1])[key] == Window(0, 2);
    assert PlainAfter(p, map[], [r0, r1, r2])[key] == Window(10, 1);
  }

  lemma Next(p: Params, rs: seq<Request>, r: Request)
    ensures PlainAfter(p, map[], rs + [r]) == Count(p, PlainAfter(p, map[], rs), r).1
    ensures LetThrough(rs + [r], PlainAnswers(p, map[], rs + [r]), r.key, 0, 10)
      == LetThrough(rs, PlainAnswers(p, map[], rs), r.key, 0, 10)
         + (if Count(p, PlainAfter(p, map[], rs), r).0 && 0 <= r.now <= 10 then 1 else 0)
  {}
}
