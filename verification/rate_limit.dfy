/**
 The fixed-window rate limiter: one Redis counter a key and a window, started by the first hit
 and expired a window later. A request is admitted when its sustained counter, and its burst
 counter if there is one, are within their ceilings; a Redis error admits it uncounted.
 */
module RateLimit {
  import opened Wrappers

  type Time = nat

  /** A counter exists from its first hit on. */
  type Hits = n: nat | n > 0 witness 1

  /** A counter whose EXPIRE was lost never expires. */
  datatype Counter = Counter(count: Hits, expiry: Option<Time>)

  datatype Redis = Down | Up(expireOk: bool)

  datatype Config = Config(name: string, limit: nat, window: nat, burst: nat, burstWindow: nat)

  datatype Request = Request(key: string, at: Time, sustained: Redis, burst: Redis)

  type Counters = map<string, Counter>

  predicate Running(c: Counter, now: Time) {
    c.expiry.None? || now < c.expiry.value
  }

  function Lookup(counters: Counters, key: string): Option<Counter> {
    if key in counters then Some(counters[key]) else None
  }

  datatype Hit = Hit(at: Time, expireOk: bool)

  /** INCR, and EXPIRE on the first hit of a window. */
  function Bump(c: Option<Counter>, window: nat, h: Hit): Counter {
    if c.Some? && Running(c.value, h.at) then Counter(c.value.count + 1, c.value.expiry)
    else Counter(1, if h.expireOk then Some(h.at + window) else None)
  }

  function SustainedKey(cfg: Config, key: string): string {
    "rl:" + cfg.name + ":s:" + key
  }

  function BurstKey(cfg: Config, key: string): string {
    "rl:" + cfg.name + ":b:" + key
  }

  /** The counters after a request, and whether it is admitted. */
  function Decide(cfg: Config, counters: Counters, r: Request): (Counters, bool) {
    if r.key == "" || r.sustained.Down? then (counters, true)
    else
      var s := SustainedKey(cfg, r.key);
      var c := Bump(Lookup(counters, s), cfg.window, Hit(r.at, r.sustained.expireOk));
      var counters1 := counters[s := c];
      if c.count > cfg.limit then (counters1, false)
      else if cfg.burst == 0 || r.burst.Down? then (counters1, true)
      else
        var b := BurstKey(cfg, r.key);
        var d := Bump(Lookup(counters1, b), cfg.burstWindow, Hit(r.at, r.burst.expireOk));
        (counters1[b := d], d.count <= cfg.burst)
  }

  class Limiter {
    var counters: Counters

    constructor ()
      ensures counters == map[]
    {
      counters := map[];
    }

    /** RedisRateLimiter.hit: a hit within a window never moves the window's end. */
    method HitKey(key: string, window: nat, now: Time, redis: Redis) returns (count: nat, ttl: nat, err: bool)
      modifies this
      ensures err <==> redis.Down?
      ensures err ==> counters == old(counters)
      ensures !err ==> counters == old(counters)[key := Bump(Lookup(old(counters), key), window, Hit(now, redis.expireOk))]
      ensures !err ==> count == counters[key].count
      ensures !err && key in old(counters) && Running(old(counters)[key], now) ==>
                counters[key].expiry == old(counters)[key].expiry && count == old(counters)[key].count + 1
    {
      if redis.Down? {
        return 0, 0, true;
      }
      var entry := Lookup(counters, key);
      if entry.Some? && !Running(entry.value, now) {
        entry := None;
      }
      count := if entry.Some? then entry.value.count + 1 else 1;
      counters := counters[key := Counter(count, if entry.Some? then entry.value.expiry else None)];
      if count == 1 {
        if redis.expireOk {
          counters := counters[key := Counter(count, Some(now + window))];
        }
        return count, window, false;
      }
      ttl := window;
      if counters[key].expiry.Some? && now <= counters[key].expiry.value {
        ttl := counters[key].expiry.value - now;
      }
      return count, ttl, false;
    }

    /** RedisRateLimiter.Limit */
    method Limit(cfg: Config, r: Request) returns (admitted: bool)
      modifies this
      ensures (counters, admitted) == Decide(cfg, old(counters), r)
    {
      if r.key == "" {
        return true;
      }
      var sustained, _, err := HitKey(SustainedKey(cfg, r.key), cfg.window, r.at, r.sustained);
      if err {
        return true;
      }
      if sustained > cfg.limit {
        return false;
      }
      if cfg.burst > 0 {
        var burst, _, burstErr := HitKey(BurstKey(cfg, r.key), cfg.burstWindow, r.at, r.burst);
        if burstErr {
          return true;
        }
        if burst > cfg.burst {
          return false;
        }
      }
      return true;
    }
  }

  // ---------------------------------------------------------------- one counter

  function One(b: bool): nat {
    if b then 1 else 0
  }

  /** The hits that find the counter within its ceiling. */
  function Passes(limit: nat, window: nat, c: Option<Counter>, hits: seq<Hit>): nat
    decreases |hits|
  {
    if hits == [] then 0
    else
      var c' := Bump(c, window, hits[0]);
      One(c'.count <= limit) + Passes(limit, window, Some(c'), hits[1..])
  }

  /** Times never go back, and all fall in [from, until). */
  predicate Within(hits: seq<Hit>, from: Time, until: Time) {
    hits == [] || (from <= hits[0].at < until && Within(hits[1..], hits[0].at, until))
  }

  function Room(limit: nat, c: Option<Counter>): nat {
    if c.Some? && c.value.count <= limit then limit - c.value.count else 0
  }

  /** As long as the window lasts, a counter passes no more than its ceiling leaves. */
  lemma {:induction false} OneWindow(limit: nat, window: nat, c: Counter, hits: seq<Hit>, from: Time, until: Time)
    requires Within(hits, from, until) && (c.expiry.Some? ==> until <= c.expiry.value)
    ensures Passes(limit, window, Some(c), hits) <= Room(limit, Some(c))
    decreases |hits|
  {
    if hits != [] {
      OneWindow(limit, window, Bump(Some(c), window, hits[0]), hits[1..], hits[0].at, until);
    }
  }

  lemma {:induction false} TwoWindows(
      limit: nat, window: nat, c: Option<Counter>, hits: seq<Hit>, start: Time, from: Time, until: Time)
    requires start <= from && until <= start + window && Within(hits, from, until)
    ensures Passes(limit, window, c, hits) <= Room(limit, c) + limit
    decreases |hits|
  {
    if hits != [] {
      var c' := Bump(c, window, hits[0]);
      if c.Some? && Running(c.value, hits[0].at) {
        TwoWindows(limit, window, Some(c'), hits[1..], start, hits[0].at, until);
      } else {
        OneWindow(limit, window, c', hits[1..], hits[0].at, until);
      }
    }
  }

  /** In any interval as long as the window, at most 2 * limit - 1 hits pass, whatever happened
      before it. */
  lemma {:induction false} IntervalBound(limit: nat, window: nat, c: Option<Counter>, hits: seq<Hit>, from: Time)
    requires Within(hits, from, from + window)
    ensures Passes(limit, window, c, hits) <= if limit == 0 then 0 else 2 * limit - 1
  {
    TwoWindows(limit, window, c, hits, from, from, from + window);
  }

  /** n hits at one time. */
  function Salvo(n: nat, at: Time): seq<Hit> {
    seq(n, i => Hit(at, true))
  }

  lemma {:induction false} SalvoPasses(limit: nat, window: nat, c: Counter, n: nat, at: Time, rest: seq<Hit>)
    requires Running(c, at) && c.count + n <= limit
    ensures Passes(limit, window, Some(c), Salvo(n, at) + rest) ==
            n + Passes(limit, window, Some(Counter(c.count + n, c.expiry)), rest)
    decreases n
  {
    var hits := Salvo(n, at) + rest;
    if n > 0 {
      assert hits[0] == Hit(at, true) && hits[1..] == Salvo(n - 1, at) + rest;
      SalvoPasses(limit, window, Counter(c.count + 1, c.expiry), n - 1, at, rest);
    } else {
      assert hits == rest;
    }
  }

  lemma {:induction false} SalvoIsWithin(n: nat, from: Time, at: Time, rest: seq<Hit>, until: Time)
    requires from <= at < until && Within(rest, at, until)
    ensures Within(Salvo(n, at) + rest, from, until)
    decreases n
  {
    var hits := Salvo(n, at) + rest;
    if n > 0 {
      SalvoIsWithin(n - 1, at, at, rest, until);
      assert hits[0] == Hit(at, true) && hits[1..] == Salvo(n - 1, at) + rest;
    } else {
      assert hits == rest;
      if rest != [] {
        assert Within(rest[1..], rest[0].at, until);
      }
    }
  }

  /** The bound is reached: one hit starts a window, limit - 1 come in its last instant and limit
      in the first instant of the next. */
  lemma {:induction false} IntervalBoundIsReached(limit: nat, window: nat)
    requires limit > 0 && window > 1
    ensures var first := Bump(None, window, Hit(0, true));
            var late := Salvo(limit - 1, window - 1) + Salvo(limit, window);
            && Within(late, window - 1, window - 1 + window)
            && Passes(limit, window, Some(first), late) == 2 * limit - 1
  {
    var first := Bump(None, window, Hit(0, true));
    var next := Salvo(limit, window);
    SalvoPasses(limit, window, first, limit - 1, window - 1, next);
    assert next[0] == Hit(window, true) && next[1..] == Salvo(limit - 1, window) + [];
    SalvoPasses(limit, window, Counter(1, Some(window + window)), limit - 1, window, []);
    assert next == Salvo(limit, window) + [];
    SalvoIsWithin(limit, window, window, [], window - 1 + window);
    SalvoIsWithin(limit - 1, window - 1, window - 1, next, window - 1 + window);
  }

  /** A counter that lost its EXPIRE and has reached its ceiling passes nothing ever again. */
  lemma {:induction false} LostExpiryLocksOut(
      limit: nat, window: nat, c: Counter, hits: seq<Hit>, from: Time, until: Time)
    requires c.expiry.None? && c.count >= limit && Within(hits, from, until)
    ensures Passes(limit, window, Some(c), hits) == 0
  {
    OneWindow(limit, window, c, hits, from, until);
  }

  /** A hit on a counter at its ceiling passes if and only if the window has an end and is over. */
  lemma {:induction false} FullCounterPassesExactly(limit: nat, window: nat, c: Counter, h: Hit)
    requires limit > 0 && c.count >= limit
    ensures Bump(Some(c), window, h).count <= limit <==> c.expiry.Some? && c.expiry.value <= h.at
  {
  }

  /** A counter at its ceiling passes another hit of a run if and only if its EXPIRE went through
      and some hit comes after the window it set: it resets cleanly then, and never otherwise. */
  lemma {:induction false} FullCounterResetsExactly(limit: nat, window: nat, c: Counter, hits: seq<Hit>)
    requires limit > 0 && c.count >= limit
    ensures Passes(limit, window, Some(c), hits) > 0 <==>
              c.expiry.Some? && exists i :: 0 <= i < |hits| && c.expiry.value <= hits[i].at
    decreases |hits|
  {
    if hits != [] {
      FullCounterPassesExactly(limit, window, c, hits[0]);
      var rest := hits[1..];
      if Bump(Some(c), window, hits[0]).count > limit {
        FullCounterResetsExactly(limit, window, Bump(Some(c), window, hits[0]), rest);
        assert hits == [hits[0]] + rest;
      } else {
        assert c.expiry.value <= hits[0].at;
      }
    }
  }

  // ---------------------------------------------------------------- a whole trace

  lemma {:induction false} KeysAreApart(cfg: Config, a: string, b: string)
    ensures SustainedKey(cfg, a) == SustainedKey(cfg, b) ==> a == b
    ensures BurstKey(cfg, a) == BurstKey(cfg, b) ==> a == b
    ensures SustainedKey(cfg, a) != BurstKey(cfg, b)
  {
    var n := |"rl:" + cfg.name|;
    assert SustainedKey(cfg, a)[n + 3..] == a && SustainedKey(cfg, b)[n + 3..] == b;
    assert BurstKey(cfg, a)[n + 3..] == a && BurstKey(cfg, b)[n + 3..] == b;
    assert SustainedKey(cfg, a)[n + 1] == 's' && BurstKey(cfg, b)[n + 1] == 'b';
  }

  predicate InOrder(reqs: seq<Request>, from: Time, until: Time) {
    reqs == [] || (from <= reqs[0].at < until && InOrder(reqs[1..], reqs[0].at, until))
  }

  /** Requests of the key admitted with the sustained counter up. */
  function SustainedAdmits(cfg: Config, counters: Counters, reqs: seq<Request>, key: string): nat
    decreases |reqs|
  {
    if reqs == [] then 0
    else
      var (counters', admitted) := Decide(cfg, counters, reqs[0]);
      One(reqs[0].key == key && admitted && reqs[0].sustained.Up?) + SustainedAdmits(cfg, counters', reqs[1..], key)
  }

  /** Requests of the key admitted with both counters up. */
  function BurstAdmits(cfg: Config, counters: Counters, reqs: seq<Request>, key: string): nat
    decreases |reqs|
  {
    if reqs == [] then 0
    else
      var (counters', admitted) := Decide(cfg, counters, reqs[0]);
      One(reqs[0].key == key && admitted && reqs[0].sustained.Up? && reqs[0].burst.Up?)
      + BurstAdmits(cfg, counters', reqs[1..], key)
  }

  /** The hits a trace makes on the key's sustained counter. */
  function SustainedHits(reqs: seq<Request>, key: string): seq<Hit> {
    if reqs == [] then []
    else
      (if reqs[0].key == key && reqs[0].sustained.Up? then [Hit(reqs[0].at, reqs[0].sustained.expireOk)] else [])
      + SustainedHits(reqs[1..], key)
  }

  /** The hits a trace makes on the key's burst counter: those the sustained counter let through. */
  function BurstHits(cfg: Config, counters: Counters, reqs: seq<Request>, key: string): seq<Hit>
    decreases |reqs|
  {
    if reqs == [] then []
    else
      var r := reqs[0];
      var c := Bump(Lookup(counters, SustainedKey(cfg, key)), cfg.window,
                    Hit(r.at, r.sustained.Up? && r.sustained.expireOk));
      (if r.key == key && r.sustained.Up? && r.burst.Up? && c.count <= cfg.limit
       then [Hit(r.at, r.burst.expireOk)] else [])
      + BurstHits(cfg, Decide(cfg, counters, r).0, reqs[1..], key)
  }

  lemma {:induction false} WidenStart(hits: seq<Hit>, earlier: Time, from: Time, until: Time)
    requires earlier <= from && Within(hits, from, until)
    ensures Within(hits, earlier, until)
  {
  }

  lemma {:induction false} SustainedHitsInOrder(reqs: seq<Request>, key: string, from: Time, until: Time)
    requires InOrder(reqs, from, until)
    ensures Within(SustainedHits(reqs, key), from, until)
    decreases |reqs|
  {
    if reqs != [] {
      var hits := SustainedHits(reqs[1..], key);
      SustainedHitsInOrder(reqs[1..], key, reqs[0].at, until);
      WidenStart(hits, from, reqs[0].at, until);
      assert [] + hits == hits;
      if reqs[0].key == key && reqs[0].sustained.Up? {
        assert ([Hit(reqs[0].at, reqs[0].sustained.expireOk)] + hits)[1..] == hits;
      }
    }
  }

  lemma {:induction false} BurstHitsInOrder(
      cfg: Config, counters: Counters, reqs: seq<Request>, key: string, from: Time, until: Time)
    requires InOrder(reqs, from, until)
    ensures Within(BurstHits(cfg, counters, reqs, key), from, until)
    decreases |reqs|
  {
    if reqs != [] {
      var counters' := Decide(cfg, counters, reqs[0]).0;
      var hits := BurstHits(cfg, counters', reqs[1..], key);
      BurstHitsInOrder(cfg, counters', reqs[1..], key, reqs[0].at, until);
      WidenStart(hits, from, reqs[0].at, until);
      assert [] + hits == hits;
      if reqs[0].burst.Up? {
        assert ([Hit(reqs[0].at, reqs[0].burst.expireOk)] + hits)[1..] == hits;
      }
    }
  }

  /** What a request does to one key's counters. */
  lemma {:induction false} DecideOnKey(cfg: Config, counters: Counters, r: Request, key: string)
    requires key != ""
    ensures var counters' := Decide(cfg, counters, r).0;
            && Lookup(counters', SustainedKey(cfg, key)) ==
               (if r.key == key && r.sustained.Up?
                then Some(Bump(Lookup(counters, SustainedKey(cfg, key)), cfg.window, Hit(r.at, r.sustained.expireOk)))
                else Lookup(counters, SustainedKey(cfg, key)))
            && (r.key != key || r.sustained.Down? || r.burst.Down? ==>
                  Lookup(counters', BurstKey(cfg, key)) == Lookup(counters, BurstKey(cfg, key)))
  {
    KeysAreApart(cfg, r.key, key);
    KeysAreApart(cfg, key, r.key);
  }

  lemma {:induction false} SustainedAdmitsPass(cfg: Config, counters: Counters, reqs: seq<Request>, key: string)
    requires key != ""
    ensures SustainedAdmits(cfg, counters, reqs, key)
            <= Passes(cfg.limit, cfg.window, Lookup(counters, SustainedKey(cfg, key)), SustainedHits(reqs, key))
    decreases |reqs|
  {
    if reqs != [] {
      var r, rest := reqs[0], SustainedHits(reqs[1..], key);
      DecideOnKey(cfg, counters, r, key);
      SustainedAdmitsPass(cfg, Decide(cfg, counters, r).0, reqs[1..], key);
      assert [] + rest == rest;
      if r.key == key && r.sustained.Up? {
        var hits := [Hit(r.at, r.sustained.expireOk)] + rest;
        assert hits[0] == Hit(r.at, r.sustained.expireOk) && hits[1..] == rest;
      }
    }
  }

  lemma {:induction false} BurstAdmitsPass(cfg: Config, counters: Counters, reqs: seq<Request>, key: string)
    requires key != "" && cfg.burst > 0
    ensures BurstAdmits(cfg, counters, reqs, key)
            <= Passes(cfg.burst, cfg.burstWindow, Lookup(counters, BurstKey(cfg, key)), BurstHits(cfg, counters, reqs, key))
    decreases |reqs|
  {
    if reqs != [] {
      var r := reqs[0];
      var counters' := Decide(cfg, counters, r).0;
      var rest := BurstHits(cfg, counters', reqs[1..], key);
      DecideOnKey(cfg, counters, r, key);
      KeysAreApart(cfg, key, key);
      BurstAdmitsPass(cfg, counters', reqs[1..], key);
      assert [] + rest == rest;
      if r.key == key && r.sustained.Up? && r.burst.Up? {
        var hits := [Hit(r.at, r.burst.expireOk)] + rest;
        assert hits[0] == Hit(r.at, r.burst.expireOk) && hits[1..] == rest;
      }
    }
  }

  function Final(cfg: Config, counters: Counters, reqs: seq<Request>): Counters
    decreases |reqs|
  {
    if reqs == [] then counters else Final(cfg, Decide(cfg, counters, reqs[0]).0, reqs[1..])
  }

  /** After any history, in any interval of length Window a key is admitted at most
      2 * Limit - 1 times, and in any interval of length BurstWindow at most 2 * Burst - 1 times,
      not counting the requests a Redis error let through. */
  lemma {:induction false} AdmissionBound(
      cfg: Config, history: seq<Request>, reqs: seq<Request>, key: string, from: Time)
    requires key != ""
    ensures InOrder(reqs, from, from + cfg.window) && cfg.limit > 0 ==>
              SustainedAdmits(cfg, Final(cfg, map[], history), reqs, key) <= 2 * cfg.limit - 1
    ensures InOrder(reqs, from, from + cfg.window) && cfg.limit == 0 ==>
              SustainedAdmits(cfg, Final(cfg, map[], history), reqs, key) == 0
    ensures InOrder(reqs, from, from + cfg.burstWindow) && cfg.burst > 0 ==>
              BurstAdmits(cfg, Final(cfg, map[], history), reqs, key) <= 2 * cfg.burst - 1
  {
    var counters := Final(cfg, map[], history);
    if InOrder(reqs, from, from + cfg.window) {
      SustainedHitsInOrder(reqs, key, from, from + cfg.window);
      SustainedAdmitsPass(cfg, counters, reqs, key);
      IntervalBound(cfg.limit, cfg.window, Lookup(counters, SustainedKey(cfg, key)), SustainedHits(reqs, key), from);
    }
    if InOrder(reqs, from, from + cfg.burstWindow) && cfg.burst > 0 {
      BurstHitsInOrder(cfg, counters, reqs, key, from, from + cfg.burstWindow);
      BurstAdmitsPass(cfg, counters, reqs, key);
      IntervalBound(cfg.burst, cfg.burstWindow, Lookup(counters, BurstKey(cfg, key)),
                    BurstHits(cfg, counters, reqs, key), from);
    }
  }

  // ---------------------------------------------------------------- who is admitted

  /** The hits of its current window that a counter holds. */
  function Held(counters: Counters, key: string, now: Time): nat {
    if key in counters && (counters[key].expiry.Some? ==> now < counters[key].expiry.value) then counters[key].count else 0
  }

  /** A request is admitted exactly when it has no key, its sustained counter cannot be reached, or
      it is within the ceiling of that counter, and within that of the burst counter if there is one
      and it can be reached. */
  lemma {:induction false} AdmittedExactly(cfg: Config, counters: Counters, r: Request)
    ensures Decide(cfg, counters, r).1 <==>
            || r.key == "" || r.sustained.Down?
            || (Held(counters, "rl:" + cfg.name + ":s:" + r.key, r.at) < cfg.limit
                && (cfg.burst == 0 || r.burst.Down?
                    || Held(counters, "rl:" + cfg.name + ":b:" + r.key, r.at) < cfg.burst))
  {
    KeysAreApart(cfg, r.key, r.key);
  }

  /** One hit more; the first of a window sets its end, and no other moves it. */
  predicate CountsHit(counters: Counters, counters': Counters, key: string, window: nat, h: Hit) {
    && key in counters' && counters'[key].count == Held(counters, key, h.at) + 1
    && counters'[key].expiry == if Held(counters, key, h.at) > 0 then counters[key].expiry
                                else if h.expireOk then Some(h.at + window) else None
  }

  /** What a request counts: the sustained counter when it can be reached; the burst counter when
      besides the sustained one let it pass; no other key's. */
  lemma {:induction false} CountedExactly(cfg: Config, counters: Counters, r: Request)
    ensures var counters', s, b := Decide(cfg, counters, r).0, "rl:" + cfg.name + ":s:" + r.key, "rl:" + cfg.name + ":b:" + r.key;
            && (forall key :: key != s && key != b ==> Lookup(counters', key) == Lookup(counters, key))
            && (if r.key != "" && r.sustained.Up?
                then CountsHit(counters, counters', s, cfg.window, Hit(r.at, r.sustained.expireOk))
                else Lookup(counters', s) == Lookup(counters, s))
            && (if r.key != "" && r.sustained.Up? && Held(counters, s, r.at) < cfg.limit && cfg.burst > 0 && r.burst.Up?
                then CountsHit(counters, counters', b, cfg.burstWindow, Hit(r.at, r.burst.expireOk))
                else Lookup(counters', b) == Lookup(counters, b))
  {
    KeysAreApart(cfg, r.key, r.key);
  }

  /** Requests of one key that reach their counter and set its expiry. */
  predicate Plain(reqs: seq<Request>, key: string) {
    forall i :: 0 <= i < |reqs| ==> reqs[i].key == key && reqs[i].sustained == Up(true)
  }

  lemma {:induction false} SameWindow(cfg: Config, counters: Counters, reqs: seq<Request>, key: string, i: nat)
    requires key != "" && cfg.burst == 0 && Plain(reqs, key) && i < |reqs|
    requires var s := "rl:" + cfg.name + ":s:" + key;
             && s in counters && counters[s].expiry.Some?
             && forall k :: 0 <= k < |reqs| ==> reqs[k].at < counters[s].expiry.value
    ensures Decide(cfg, Final(cfg, counters, reqs[..i]), reqs[i]).1 <==>
            counters["rl:" + cfg.name + ":s:" + key].count + i < cfg.limit
    decreases i
  {
    if i == 0 {
      AdmittedExactly(cfg, counters, reqs[0]);
    } else {
      CountedExactly(cfg, counters, reqs[0]);
      var counters' := Decide(cfg, counters, reqs[0]).0;
      hide Decide;
      SameWindow(cfg, counters', reqs[1..], key, i - 1);
      assert reqs[..i][1..] == reqs[1..][..i - 1];
    }
  }

  /** Of requests that come within one window of a counter that holds nothing yet, exactly the first
      Limit are admitted. */
  lemma {:induction false} FirstOfWindowAreAdmitted(
      cfg: Config, counters: Counters, reqs: seq<Request>, key: string, i: nat)
    requires key != "" && cfg.burst == 0 && Plain(reqs, key) && i < |reqs|
    requires Held(counters, "rl:" + cfg.name + ":s:" + key, reqs[0].at) == 0
    requires forall k :: 0 < k < |reqs| ==> reqs[k].at < reqs[0].at + cfg.window
    ensures Decide(cfg, Final(cfg, counters, reqs[..i]), reqs[i]).1 <==> i < cfg.limit
  {
    if i == 0 {
      AdmittedExactly(cfg, counters, reqs[0]);
    } else {
      CountedExactly(cfg, counters, reqs[0]);
      var counters' := Decide(cfg, counters, reqs[0]).0;
      hide Decide;
      SameWindow(cfg, counters', reqs[1..], key, i - 1);
      assert reqs[..i][1..] == reqs[1..][..i - 1];
    }
  }
}
