/** The per-connection rate limiter of the room server: a sliding log of allowed calls and a cooldown. */
module SlidingLimiter {
  import opened Wrappers
  import opened Histories
  import opened TimeLine

  datatype Config = Config(limit: u32, window: nat)

  datatype State = State(timestamps: seq<int>, cooldownUntil: Option<int>)

  datatype Decision = Decision(allowed: bool, shouldDrop: bool)

  const FRESH: State := State([], None)

  /** What is left of a log once its outdated front entries are gone: everything from the first
    entry still inside the window on. */
  function Evict(now: int, window: nat, ts: seq<int>): (kept: seq<int>)
    ensures |kept| <= |ts|
  {
    if ts == [] then []
    else
      var kept := Evict(now, window, ts[..|ts| - 1]);
      var last := ts[|ts| - 1];
      if kept != [] || Elapsed(now, last) <= window then kept + [last] else []
  }

  /** Popping an outdated front entry does not change what is left. */
  lemma {:induction false} EvictPop(now: int, window: nat, ts: seq<int>)
    requires ts != []
    ensures Evict(now, window, ts) == if Elapsed(now, ts[0]) > window then Evict(now, window, ts[1..]) else ts
  {
    if |ts| > 1 {
      var front := ts[..|ts| - 1];
      EvictPop(now, window, front);
      assert ts[1..][..|ts| - 2] == front[1..];
      assert ts == front + [ts[|ts| - 1]];
    }
  }

  predicate CoolingDown(st: State, now: int) {
    st.cooldownUntil.Some? && now < st.cooldownUntil.value
  }

  /** The log a check works on: emptied by leaving a cooldown, then evicted. */
  function Live(cfg: Config, st: State, now: int): seq<int> {
    Evict(now, cfg.window, if st.cooldownUntil.Some? then [] else st.timestamps)
  }

  /** The cast of a length to 32 bits. */
  function Truncated(n: nat): (r: u32)
    ensures n < 0x1_0000_0000 ==> r == n
  {
    if n < 0x1_0000_0000 then n else n % 0x1_0000_0000
  }

  function Decide(cfg: Config, st: State, now: int): (State, bool) {
    if CoolingDown(st, now) then (st, false)
    else
      var kept := Live(cfg, st, now);
      if Truncated(|kept|) >= cfg.limit
      then (State(kept, Some(now + cfg.window)), false)
      else (State(kept + [now], None), true)
  }

  class RateLimiter {
    const cfg: Config
    var timestamps: seq<int>
    var cooldownUntil: Option<int>

    ghost function Contents(): State
      reads this
    {
      State(timestamps, cooldownUntil)
    }

    constructor (cfg: Config)
      ensures this.cfg == cfg && Contents() == FRESH
    {
      this.cfg := cfg;
      timestamps, cooldownUntil := [], None;
    }

    method Check(now: int) returns (decision: Decision)
      modifies this
      ensures (Contents(), decision.allowed) == Decide(cfg, old(Contents()), now)
      ensures decision.shouldDrop == !decision.allowed
    {
      if cooldownUntil.Some? {
        if now < cooldownUntil.value {
          return Decision(false, true);
        }
        cooldownUntil, timestamps := None, [];
      }
      while timestamps != [] && Elapsed(now, timestamps[0]) > cfg.window
        invariant cooldownUntil == None
        invariant Evict(now, cfg.window, timestamps) == Live(cfg, old(Contents()), now)
        decreases |timestamps|
      {
        EvictPop(now, cfg.window, timestamps);
        timestamps := timestamps[1..];
      }
      if timestamps != [] {
        EvictPop(now, cfg.window, timestamps);
      }
      if Truncated(|timestamps|) >= cfg.limit {
        cooldownUntil := Some(now + cfg.window);
        return Decision(false, true);
      }
      timestamps := timestamps + [now];
      return Decision(true, false);
    }
  }

  // ---------- whole call histories ----------

  function After(cfg: Config, calls: Line): State {
    match calls
    case Start => FRESH
    case Then(before, now) => Decide(cfg, After(cfg, before), now).0
  }

  /** The times of the allowed calls, in order. */
  function Allowed(cfg: Config, calls: Line): Line {
    match calls
    case Start => Start
    case Then(before, now) =>
      if Decide(cfg, After(cfg, before), now).1 then Then(Allowed(cfg, before), now) else Allowed(cfg, before)
  }

  /** `kept` holds the newest entries of `a`. */
  predicate TailOf(kept: seq<int>, a: Line) {
    kept != [] ==> a.Then? && kept[|kept| - 1] == a.last && TailOf(kept[..|kept| - 1], a.past)
  }

  lemma TailNone(a: Line)
    ensures TailOf([], a)
  {
  }

  lemma TailAppend(kept: seq<int>, a: Line, now: int)
    requires TailOf(kept, a)
    ensures TailOf(kept + [now], Then(a, now))
  {
    assert (kept + [now])[..|kept|] == kept;
  }

  /** Evicting a tail of a sorted log leaves the tail of entries no older than `window`. */
  lemma {:induction false} EvictKeepsRecent(now: int, window: nat, ts: seq<int>, a: Line)
    requires TailOf(ts, a) && Sorted(a) && EndsBy(a, now)
    ensures var kept := Evict(now, window, ts);
      && TailOf(kept, a) && |kept| <= |ts| <= Length(a)
      && (|kept| < |ts| ==> now - Back(a, |kept|) > window)
      && (|kept| > 0 ==> now - Back(a, |kept| - 1) <= window)
  {
    if ts == [] {
    } else {
      var front := ts[..|ts| - 1];
      EvictKeepsRecent(now, window, front, a.past);
      TailAppend(Evict(now, window, front), a.past, a.last);
    }
  }

  /** What ties the limiter's log to the list `a` of all allowed times, as seen at time `t`: the log
    is a tail of `a`, and anything before it is at least `window` old. */
  predicate Linked(cfg: Config, st: State, a: Line, t: int) {
    var n := |st.timestamps|;
    && Sorted(a) && EndsBy(a, t)
    && n <= cfg.limit && n <= Length(a)
    && TailOf(st.timestamps, a)
    && (n < Length(a) ==> Back(a, n) + cfg.window <= t)
    && (st.cooldownUntil.Some? ==> EndsBy(a, st.cooldownUntil.value - cfg.window))
  }

  lemma LiveIsRecentTail(cfg: Config, st: State, a: Line, now: int)
    requires Linked(cfg, st, a, now) && !CoolingDown(st, now)
    ensures Linked(cfg, State(Live(cfg, st, now), None), a, now)
    ensures var n := |Live(cfg, st, now)|;
      n > 0 ==> now - Back(a, n - 1) <= cfg.window
  {
    hide TailOf, Evict;
    TailNone(a);
    EvictKeepsRecent(now, cfg.window, if st.cooldownUntil.Some? then [] else st.timestamps, a);
  }

  /** One check keeps the link, and an allowed call keeps the allowed times spaced. */
  lemma CheckKeepsLink(cfg: Config, st: State, a: Line, now: int)
    requires Linked(cfg, st, a, now) && Spaced(a, cfg.limit, cfg.window)
    ensures var (st', ok) := Decide(cfg, st, now);
      var a' := if ok then Then(a, now) else a;
      Linked(cfg, st', a', now) && Spaced(a', cfg.limit, cfg.window)
  {
    hide TailOf, Evict;
    if !CoolingDown(st, now) {
      LiveIsRecentTail(cfg, st, a, now);
      var kept := Live(cfg, st, now);
      if |kept| < cfg.limit {
        TailAppend(kept, a, now);
        if cfg.limit <= Length(a) {
          SortedBack(a, |kept|, cfg.limit - 1);
        }
      }
    }
  }

  lemma {:induction false} Reachable(cfg: Config, calls: Line, t: int)
    requires Sorted(calls) && EndsBy(calls, t)
    ensures Linked(cfg, After(cfg, calls), Allowed(cfg, calls), t)
    ensures Spaced(Allowed(cfg, calls), cfg.limit, cfg.window)
  {
    if calls.Start? {
    } else {
      Reachable(cfg, calls.past, calls.last);
      CheckKeepsLink(cfg, After(cfg, calls.past), Allowed(cfg, calls.past), calls.last);
    }
  }

  /** The sliding bound: the i-th and (i+limit)-th allowed calls are at least `window` apart, so no
    half-open interval of that length ever holds more than `limit` of them. */
  lemma SlidingWindowBound(cfg: Config, calls: Line, lo: int)
    requires Sorted(calls)
    ensures Spaced(Allowed(cfg, calls), cfg.limit, cfg.window)
    ensures CountIn(Allowed(cfg, calls), lo, lo + cfg.window) <= cfg.limit
  {
    hide Allowed, After, Linked;
    Reachable(cfg, calls, if calls.Then? then calls.last else 0);
    if cfg.limit >= 1 {
      SpacedCount(Allowed(cfg, calls), cfg.limit, cfg.window, lo);
    } else {
      ZeroLimitAllowsNothing(cfg, calls);
    }
  }

  lemma {:induction false} ZeroLimitAllowsNothing(cfg: Config, calls: Line)
    requires cfg.limit == 0
    ensures Allowed(cfg, calls) == Start
  {
    if calls.Start? {
    } else {
      ZeroLimitAllowsNothing(cfg, calls.past);
    }
  }

  // ---------- closed intervals ----------

  /** Some call made at `t` found a cooldown that ended exactly then, and forgot the log. */
  predicate ExitsAt(cfg: Config, calls: Line, t: int) {
    calls.Then? &&
    (ExitsAt(cfg, calls.past, t) || (calls.last == t && After(cfg, calls.past).cooldownUntil == Some(t)))
  }

  lemma {:induction false} NoExitAhead(cfg: Config, calls: Line, t: int)
    requires Sorted(calls) && EndsBy(calls, t - 1)
    ensures !ExitsAt(cfg, calls, t)
  {
    if calls.Start? {
    } else {
      NoExitAhead(cfg, calls.past, t);
    }
  }

  /** The log holds every allowed call from `lo` on. */
  predicate HoldsFrom(cfg: Config, st: State, a: Line, lo: int) {
    var n := |st.timestamps|;
    && Sorted(a) && n <= cfg.limit && n <= Length(a) && TailOf(st.timestamps, a)
    && (n < Length(a) ==> Back(a, n) < lo)
  }

  /** A check at `t` keeps the log complete from `t - window` on, unless it leaves a cooldown at `t`. */
  lemma CheckHoldsFrom(cfg: Config, st: State, a: Line, t: int)
    requires cfg.window > 0 && EndsBy(a, t) && HoldsFrom(cfg, st, a, t - cfg.window) && st.cooldownUntil != Some(t)
    requires CoolingDown(st, t) || st.cooldownUntil.None? || EndsBy(a, t - cfg.window - 1)
    ensures var (st', ok) := Decide(cfg, st, t);
      && HoldsFrom(cfg, st', if ok then Then(a, t) else a, t - cfg.window)
      && (st'.cooldownUntil.Some? ==> st'.cooldownUntil.value > t)
  {
    hide TailOf, Evict;
    if !CoolingDown(st, t) {
      TailNone(a);
      EvictKeepsRecent(t, cfg.window, if st.cooldownUntil.Some? then [] else st.timestamps, a);
      TailAppend(Live(cfg, st, t), a, t);
      var n := |Live(cfg, st, t)|;
      assert n < Length(a) ==> Back(Then(a, t), n + 1) < t - cfg.window;
    }
  }

  lemma {:induction false} HoldsWithoutExit(cfg: Config, calls: Line, t: int)
    requires cfg.window > 0 && Sorted(calls) && EndsBy(calls, t) && !ExitsAt(cfg, calls, t)
    ensures var st := After(cfg, calls);
      && HoldsFrom(cfg, st, Allowed(cfg, calls), t - cfg.window)
      && (calls.Then? && calls.last == t && st.cooldownUntil.Some? ==> st.cooldownUntil.value > t)
  {
    hide TailOf, Decide;
    if calls.Then? && calls.last == t {
      HoldsWithoutExit(cfg, calls.past, t);
      var before := if EndsBy(calls.past, t - 1) then t - 1 else t;
      Reachable(cfg, calls.past, before);
      CheckHoldsFrom(cfg, After(cfg, calls.past), Allowed(cfg, calls.past), t);
    } else {
      Reachable(cfg, calls, t - 1);
    }
  }

  /** A call that leaves a cooldown at `t` was preceded by no allowed call after `t - window`. */
  lemma {:induction false} ExitSplits(cfg: Config, calls: Line, t: int)
    requires cfg.window > 0 && Sorted(calls) && ExitsAt(cfg, calls, t)
    ensures CountIn(Allowed(cfg, calls), t - cfg.window + 1, t) == 0
  {
    hide Decide;
    if ExitsAt(cfg, calls.past, t) {
      ExitSplits(cfg, calls.past, t);
    } else {
      Reachable(cfg, calls.past, t);
      CountAfterEnd(Allowed(cfg, calls.past), t - cfg.window + 1, t);
    }
    NotBeforeExit(cfg, calls, t);
  }

  lemma {:induction false} NotBeforeExit(cfg: Config, calls: Line, t: int)
    requires Sorted(calls) && ExitsAt(cfg, calls, t)
    ensures calls.last >= t
  {
    if calls.last != t {
      NotBeforeExit(cfg, calls.past, t);
    }
  }

  /** How many allowed calls a closed interval of the window's length holds: never more than twice the
    limit; and more than the limit if and only if a call at its end left a cooldown that ended exactly
    then, and the calls allowed at the two end points alone exceed the limit. */
  lemma ClosedWindowBound(cfg: Config, calls: Line, lo: int)
    requires cfg.window > 0 && Sorted(calls)
    ensures var a, hi := Allowed(cfg, calls), lo + cfg.window;
      && CountIn(a, lo, hi + 1) <= 2 * cfg.limit
      && (CountIn(a, lo, hi + 1) > cfg.limit <==>
            ExitsAt(cfg, calls, hi) && CountIn(a, lo, lo + 1) + CountIn(a, hi, hi + 1) > cfg.limit)
  {
    hide Allowed, ExitsAt;
    var a, hi := Allowed(cfg, calls), lo + cfg.window;
    SlidingWindowBound(cfg, calls, lo);
    SlidingWindowBound(cfg, calls, hi);
    CountSplit(a, lo, hi, hi + 1);
    CountSplit(a, hi, hi + 1, hi + cfg.window);
    CountSplit(a, lo, lo + 1, hi);
    if ExitsAt(cfg, calls, hi) {
      ExitSplits(cfg, calls, hi);
    } else {
      ClosedWithoutExit(cfg, calls, hi);
    }
  }

  lemma {:induction false} ClosedWithoutExit(cfg: Config, calls: Line, t: int)
    requires cfg.window > 0 && Sorted(calls) && !ExitsAt(cfg, calls, t)
    ensures CountIn(Allowed(cfg, calls), t - cfg.window, t + 1) <= cfg.limit
  {
    hide Decide;
    if calls.Then? && calls.last > t {
      ClosedWithoutExit(cfg, calls.past, t);
    } else {
      HoldsWithoutExit(cfg, calls, t);
      CountNewest(Allowed(cfg, calls), t - cfg.window, t + 1, |After(cfg, calls).timestamps|);
    }
  }

  // ---------- the closed bound is met ----------

  /** Enough calls at 0 to fill the log, one more, and as many again the moment the cooldown ends. */
  function TwoBursts(cfg: Config): Line {
    Repeated(Then(Repeated(Start, cfg.limit, 0), 0), cfg.limit, cfg.window)
  }

  lemma {:induction false} EvictKeepsPresent(now: int, window: nat, n: nat)
    ensures Evict(now, window, seq(n, _ => now)) == seq(n, _ => now)
  {
    if n == 0 {
    } else {
      EvictKeepsPresent(now, window, n - 1);
      assert seq(n, _ => now)[..n - 1] == seq(n - 1, _ => now);
    }
  }

  /** A log that a check at `t` finds to hold `n` calls made just then takes one more. */
  lemma OneMore(cfg: Config, st: State, n: nat, t: int)
    requires n < cfg.limit && !CoolingDown(st, t)
    requires if st.cooldownUntil.Some? then n == 0 else st.timestamps == seq(n, _ => t)
    ensures Decide(cfg, st, t) == (State(seq(n + 1, _ => t), None), true)
  {
    EvictKeepsPresent(t, cfg.window, n);
    assert Live(cfg, st, t) == seq(n, _ => t);
    assert seq(n, _ => t) + [t] == seq(n + 1, _ => t);
  }

  /** From an empty log, or one about to be forgotten, a burst of up to `limit` calls is allowed whole. */
  lemma {:induction false} BurstIsAllowed(cfg: Config, calls: Line, n: nat, t: int)
    requires n <= cfg.limit
    requires var st := After(cfg, calls);
      if st.cooldownUntil.Some? then st.cooldownUntil.value <= t else st.timestamps == []
    ensures var burst := Repeated(calls, n, t);
      && Allowed(cfg, burst) == Repeated(Allowed(cfg, calls), n, t)
      && (n > 0 ==> After(cfg, burst) == State(seq(n, _ => t), None))
  {
    hide Decide;
    if n == 0 {
    } else {
      BurstIsAllowed(cfg, calls, n - 1, t);
      OneMore(cfg, After(cfg, Repeated(calls, n - 1, t)), n - 1, t);
    }
  }

  /** For every limit and window a closed interval holds twice the limit in some run. */
  lemma ClosedWindowCanHoldTwiceTheLimit(cfg: Config)
    requires cfg.limit >= 1 && cfg.window > 0
    ensures Sorted(TwoBursts(cfg))
    ensures CountIn(Allowed(cfg, TwoBursts(cfg)), 0, cfg.window + 1) == 2 * cfg.limit
  {
    var full := Repeated(Start, cfg.limit, 0);
    BurstIsAllowed(cfg, Start, cfg.limit, 0);
    EvictKeepsPresent(0, cfg.window, cfg.limit);
    SortedRepeated(Start, cfg.limit, 0);
    var blocked := Then(full, 0);
    assert After(cfg, blocked).cooldownUntil == Some(cfg.window) && Allowed(cfg, blocked) == Allowed(cfg, full);
    BurstIsAllowed(cfg, blocked, cfg.limit, cfg.window);
    SortedRepeated(blocked, cfg.limit, cfg.window);
    CountRepeated(Start, cfg.limit, 0, 0, cfg.window + 1);
    CountRepeated(Allowed(cfg, blocked), cfg.limit, cfg.window, 0, cfg.window + 1);
  }

  // ---------- the cooldown ----------

  /** State and verdicts after feeding further calls to a limiter in state `st`. */
  function Feed(cfg: Config, st: State, calls: Line): (State, History<bool>) {
    match calls
    case Start => (st, Start)
    case Then(before, now) =>
      var (mid, verdicts) := Feed(cfg, st, before);
      var (end, ok) := Decide(cfg, mid, now);
      (end, Then(verdicts, ok))
  }

  /** A rejection outside a cooldown at `now` is justified (`limit` calls were allowed during the
    closed interval of length `window` ending now), lasts exactly `window` whatever is called in
    between, is not extended by those calls, and ends with an allowed call. */
  lemma CooldownIsExact(cfg: Config, calls: Line, now: int, during: Line, next: int)
    requires Sorted(Then(calls, now))
    requires var st := After(cfg, calls); !CoolingDown(st, now) && !Decide(cfg, st, now).1
    requires Every(during, x => now <= x < now + cfg.window)
    requires next >= now + cfg.window
    ensures CountIn(Allowed(cfg, calls), now - cfg.window, now + 1) >= cfg.limit
    ensures var blocked := After(cfg, Then(calls, now));
      && Feed(cfg, blocked, during).0 == blocked
      && Every(Feed(cfg, blocked, during).1, ok => !ok)
      && Decide(cfg, blocked, next).1 == (cfg.limit >= 1)
  {
    hide TailOf, Evict;
    var st, a := After(cfg, calls), Allowed(cfg, calls);
    Reachable(cfg, calls, now);
    LiveIsRecentTail(cfg, st, a, now);
    CountNewest(a, now - cfg.window, now + 1, |Live(cfg, st, now)|);
    BlockedStaysBlocked(cfg, After(cfg, Then(calls, now)), now, during);
  }

  lemma {:induction false} BlockedStaysBlocked(cfg: Config, st: State, from: int, during: Line)
    requires st.cooldownUntil == Some(from + cfg.window)
    requires Every(during, x => from <= x < from + cfg.window)
    ensures Feed(cfg, st, during).0 == st && Every(Feed(cfg, st, during).1, ok => !ok)
  {
    if during.Start? {
    } else {
      BlockedStaysBlocked(cfg, st, from, during.past);
    }
  }

  // ---------- the log that never forgets ----------

  /** Reference limiter: keeps every allowed time since the last cooldown exit and counts the recent
    ones on every call. */
  datatype RefState = RefState(log: Line, cooldownUntil: Option<int>)

  function RefDecide(cfg: Config, st: RefState, now: int): (RefState, bool) {
    if st.cooldownUntil.Some? && now < st.cooldownUntil.value then (st, false)
    else
      var log := if st.cooldownUntil.Some? then Start else st.log;
      if CountIn(log, now - cfg.window, now + 1) >= cfg.limit
      then (RefState(log, Some(now + cfg.window)), false)
      else (RefState(Then(log, now), None), true)
  }

  function RefFeed(cfg: Config, calls: Line): (RefState, History<bool>) {
    match calls
    case Start => (RefState(Start, None), Start)
    case Then(before, now) =>
      var (mid, verdicts) := RefFeed(cfg, before);
      var (end, ok) := RefDecide(cfg, mid, now);
      (end, Then(verdicts, ok))
  }

  /** The evicting deque holds the tail of the full log; all it forgot is outside the window. */
  predicate Forgets(cfg: Config, st: State, full: RefState, t: int) {
    var n := |st.timestamps|;
    && st.cooldownUntil == full.cooldownUntil
    && Sorted(full.log) && EndsBy(full.log, t)
    && n <= cfg.limit && n <= Length(full.log)
    && TailOf(st.timestamps, full.log)
    && (n < Length(full.log) ==> t - Back(full.log, n) > cfg.window)
  }

  lemma SameVerdict(cfg: Config, st: State, full: RefState, now: int)
    requires Forgets(cfg, st, full, now)
    ensures Decide(cfg, st, now).1 == RefDecide(cfg, full, now).1
    ensures Forgets(cfg, Decide(cfg, st, now).0, RefDecide(cfg, full, now).0, now)
  {
    hide TailOf, Evict;
    if !CoolingDown(st, now) {
      var log := if st.cooldownUntil.Some? then Start else full.log;
      TailNone(log);
      EvictKeepsRecent(now, cfg.window, if st.cooldownUntil.Some? then [] else st.timestamps, log);
      var kept := Live(cfg, st, now);
      CountNewest(log, now - cfg.window, now + 1, |kept|);
      TailAppend(kept, log, now);
    }
  }

  /** On every non-decreasing call history the deque decides as the full log does, and its length
    never exceeds `limit`, so the truncating length cast never truncates. */
  lemma {:induction false} DequeDecidesAsFullLog(cfg: Config, calls: Line, t: int)
    requires Sorted(calls) && EndsBy(calls, t)
    ensures Feed(cfg, FRESH, calls).1 == RefFeed(cfg, calls).1
    ensures |Feed(cfg, FRESH, calls).0.timestamps| <= cfg.limit < 0x1_0000_0000
    ensures Forgets(cfg, Feed(cfg, FRESH, calls).0, RefFeed(cfg, calls).0, t)
  {
    if calls.Start? {
    } else {
      DequeDecidesAsFullLog(cfg, calls.past, calls.last);
      SameVerdict(cfg, Feed(cfg, FRESH, calls.past).0, RefFeed(cfg, calls.past).0, calls.last);
    }
  }
}
