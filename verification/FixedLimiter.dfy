/** The rate limiter of the syncer: one fixed window and counter per session. */
module FixedLimiter {
  import opened Wrappers
  import opened Histories
  import opened TimeLine
  import opened Streams

  /** The limit is non-zero in the source's type. */
  datatype Config = Config(limit: u32, window: nat)

  datatype Counter = Counter(windowStart: int, count: nat)

  datatype Decision = Allowed | RateLimited(kind: StreamKind)

  type Sessions = map<string, Counter>

  predicate ShouldReset(cfg: Config, counter: Counter, now: int) {
    Elapsed(now, counter.windowStart) >= cfg.window
  }

  /** One check on one session's counter, if it has one. */
  function Advance(cfg: Config, counter: Option<Counter>, now: int): (Counter, bool) {
    var base := if counter.Some? then counter.value else Counter(now, 0);
    var current := if ShouldReset(cfg, base, now) then Counter(now, 0) else base;
    if current.count < cfg.limit then (current.(count := current.count + 1), true) else (current, false)
  }

  function Lookup(st: Sessions, session: string): Option<Counter> {
    if session in st then Some(st[session]) else None
  }

  function CheckAndRecord(cfg: Config, st: Sessions, session: string, kind: StreamKind, now: int)
    : (Sessions, Decision)
  {
    var (counter, ok) := Advance(cfg, Lookup(st, session), now);
    (st[session := counter], if ok then Allowed else RateLimited(kind))
  }

  function Purged(cfg: Config, st: Sessions, now: int): Sessions {
    map s | s in st && (!ShouldReset(cfg, st[s], now) || st[s].count > 0) :: st[s]
  }

  class RateLimiter {
    const cfg: Config
    var sessions: Sessions

    constructor (cfg: Config)
      requires cfg.limit > 0
      ensures this.cfg == cfg && sessions == map[]
    {
      this.cfg := cfg;
      sessions := map[];
    }

    method Check(session: string, kind: StreamKind, now: int) returns (decision: Decision)
      modifies this
      ensures (sessions, decision) == CheckAndRecord(cfg, old(sessions), session, kind, now)
    {
      if session !in sessions {
        sessions := sessions[session := Counter(now, 0)];
      }
      if ShouldReset(cfg, sessions[session], now) {
        sessions := sessions[session := Counter(now, 0)];
      }
      var counter := sessions[session];
      assert sessions == old(sessions)[session := counter];
      if counter.count < cfg.limit {
        sessions := sessions[session := counter.(count := counter.count + 1)];
        assert sessions == old(sessions)[session := sessions[session]];
        decision := Decision.Allowed;
      } else {
        decision := RateLimited(kind);
      }
    }

    method PurgeInactive(now: int)
      modifies this
      ensures sessions == Purged(cfg, old(sessions), now)
    {
      sessions := map s | s in sessions
        && (!ShouldReset(cfg, sessions[s], now) || sessions[s].count > 0) :: sessions[s];
    }
  }

  // ---------- one session: the window bounds ----------

  /** The session's counter after calls at these times, and the times of its allowed calls. */
  function After(cfg: Config, calls: Line): Option<Counter> {
    match calls
    case Start => None
    case Then(before, now) => Some(Advance(cfg, After(cfg, before), now).0)
  }

  function Admitted(cfg: Config, calls: Line): Line {
    match calls
    case Start => Start
    case Then(before, now) =>
      if Advance(cfg, After(cfg, before), now).1 then Then(Admitted(cfg, before), now) else Admitted(cfg, before)
  }

  /** The times at which the session's window was opened. */
  function Windows(cfg: Config, calls: Line): Line {
    match calls
    case Start => Start
    case Then(before, now) =>
      var counter := After(cfg, before);
      if counter.None? || ShouldReset(cfg, counter.value, now) then Then(Windows(cfg, before), now)
      else Windows(cfg, before)
  }

  /** The newest `count` admitted calls share the current window, which the oldest of them opened; the
    ones before are earlier, and all but `limit` of those at least a whole window before it. */
  predicate Tracks(cfg: Config, counter: Counter, a: Line, t: int) {
    && 1 <= counter.count <= cfg.limit && counter.count <= Length(a)
    && Sorted(a) && EndsBy(a, t) && EndsBy(a, counter.windowStart + cfg.window - 1)
    && Back(a, counter.count - 1) == counter.windowStart
    && (counter.count < Length(a) ==> Back(a, counter.count) < counter.windowStart)
    && (counter.count + cfg.limit - 1 < Length(a) ==>
          Back(a, counter.count + cfg.limit - 1) + cfg.window <= counter.windowStart)
    && (counter.count + cfg.limit < Length(a) ==>
          Back(a, counter.count + cfg.limit) + cfg.window < counter.windowStart)
  }

  lemma AdvanceTracks(cfg: Config, counter: Counter, a: Line, now: int)
    requires cfg.window > 0 && Tracks(cfg, counter, a, now)
    ensures var (counter', ok) := Advance(cfg, Some(counter), now);
      Tracks(cfg, counter', if ok then Then(a, now) else a, now)
  {
    SortedBack(a, 0, counter.count - 1);
    if ShouldReset(cfg, counter, now) {
      if cfg.limit < Length(a) {
        SortedBack(a, counter.count, cfg.limit);
      }
      if cfg.limit - 1 < Length(a) {
        SortedBack(a, counter.count - 1, cfg.limit - 1);
      }
    }
  }

  /** An admitted call keeps the admitted times spaced: 2*limit - 1 positions are a window apart, and
    2*limit positions more than a window apart. */
  lemma TracksSpaces(cfg: Config, counter: Counter, a: Line, now: int)
    requires a.Then? && Tracks(cfg, counter, a, now)
    requires Spaced(a.past, 2 * cfg.limit - 1, cfg.window) && Spaced(a.past, 2 * cfg.limit, cfg.window + 1)
    ensures Spaced(a, 2 * cfg.limit - 1, cfg.window) && Spaced(a, 2 * cfg.limit, cfg.window + 1)
  {
    SortedBack(a, 0, counter.count - 1);
    if 2 * cfg.limit - 1 < Length(a) {
      SortedBack(a, counter.count + cfg.limit - 1, 2 * cfg.limit - 1);
    }
    if 2 * cfg.limit < Length(a) {
      SortedBack(a, counter.count + cfg.limit, 2 * cfg.limit);
    }
  }

  lemma {:induction false} Reachable(cfg: Config, calls: Line, t: int)
    requires cfg.limit > 0 && cfg.window > 0 && Sorted(calls) && EndsBy(calls, t)
    ensures var a := Admitted(cfg, calls);
      && (calls.Then? ==> Tracks(cfg, After(cfg, calls).value, a, t))
      && Sorted(a) && Spaced(a, 2 * cfg.limit - 1, cfg.window) && Spaced(a, 2 * cfg.limit, cfg.window + 1)
  {
    hide Tracks, Advance;
    if calls.Start? {
    } else {
      var before, now := calls.past, calls.last;
      Reachable(cfg, before, now);
      if before.Then? {
        AdvanceTracks(cfg, After(cfg, before).value, Admitted(cfg, before), now);
      } else {
        FirstCallTracks(cfg, now);
      }
      TracksLater(cfg, After(cfg, calls).value, Admitted(cfg, calls), now, t);
      if Advance(cfg, After(cfg, before), now).1 {
        TracksSpaces(cfg, After(cfg, calls).value, Admitted(cfg, calls), now);
      }
    }
  }

  lemma FirstCallTracks(cfg: Config, now: int)
    requires cfg.limit > 0 && cfg.window > 0
    ensures var (counter, ok) := Advance(cfg, None, now); ok && Tracks(cfg, counter, Then(Start, now), now)
  {
  }

  lemma TracksLater(cfg: Config, counter: Counter, a: Line, now: int, t: int)
    requires Tracks(cfg, counter, a, now) && now <= t
    ensures Tracks(cfg, counter, a, t) && Sorted(a)
  {
  }

  /** Successive windows open at least `window` apart, and the calls admitted during any of them number
    at most `limit`. */
  predicate WindowsHold(cfg: Config, windows: Line, a: Line) {
    windows.Then? ==>
      && EndsBy(windows.past, windows.last - cfg.window)
      && CountIn(a, windows.last, windows.last + cfg.window) <= cfg.limit
      && WindowsHold(cfg, windows.past, a)
  }

  /** The fixed-window bound. A closed interval of length `window` sees at most two windows, hence at
    most 2*limit admitted calls; a half-open one misses at least one call of the first window. */
  lemma FixedWindowBound(cfg: Config, calls: Line, lo: int)
    requires cfg.limit > 0 && Sorted(calls)
    ensures CountIn(Admitted(cfg, calls), lo, lo + cfg.window) <= 2 * cfg.limit - 1
    ensures cfg.window > 0 ==> CountIn(Admitted(cfg, calls), lo, lo + cfg.window + 1) <= 2 * cfg.limit
    ensures cfg.window > 0 ==> WindowsHold(cfg, Windows(cfg, calls), Admitted(cfg, calls))
  {
    var a := Admitted(cfg, calls);
    if cfg.window > 0 {
      var t := if calls.Then? then calls.last else 0;
      Reachable(cfg, calls, t);
      SpacedCount(a, 2 * cfg.limit - 1, cfg.window, lo);
      SpacedCount(a, 2 * cfg.limit, cfg.window + 1, lo);
      EachWindow(cfg, calls, t);
    } else {
      CountEmpty(a, lo);
    }
  }

  lemma {:induction false} CountEmpty(a: Line, lo: int)
    ensures CountIn(a, lo, lo) == 0
  {
    if a.Start? {
    } else {
      CountEmpty(a.past, lo);
    }
  }

  lemma {:induction false} EachWindow(cfg: Config, calls: Line, t: int)
    requires cfg.limit > 0 && cfg.window > 0 && Sorted(calls) && EndsBy(calls, t)
    ensures var windows, a := Windows(cfg, calls), Admitted(cfg, calls);
      && WindowsHold(cfg, windows, a)
      && (calls.Then? ==>
            var counter := After(cfg, calls).value;
            && windows.Then? && windows.last == counter.windowStart <= t
            && CountIn(a, windows.last, windows.last + cfg.window) <= counter.count <= cfg.limit)
  {
    if calls.Start? {
    } else {
      var before, now := calls.past, calls.last;
      EachWindow(cfg, before, now);
      Reachable(cfg, before, now);
      hide Spaced, CountIn, WindowsHold;
      var counter, windows, a := After(cfg, before), Windows(cfg, before), Admitted(cfg, before);
      if counter.None? || ShouldReset(cfg, counter.value, now) {
        OpenWindow(cfg, windows, a, now);
      } else {
        SameWindow(cfg, windows, a, now);
      }
    }
  }

  /** A call counts towards no window that was over before it. */
  lemma {:induction false} EarlierWindowsHold(cfg: Config, windows: Line, a: Line, now: int)
    requires WindowsHold(cfg, windows, a) && EndsBy(windows, now - cfg.window)
    ensures WindowsHold(cfg, windows, Then(a, now))
  {
    if windows.Start? {
    } else {
      EarlierWindowsHold(cfg, windows.past, a, now);
    }
  }

  lemma {:induction false} OpenWindow(cfg: Config, windows: Line, a: Line, now: int)
    requires cfg.limit > 0 && cfg.window > 0 && WindowsHold(cfg, windows, a)
    requires EndsBy(windows, now - cfg.window) && Sorted(a) && EndsBy(a, now - 1)
    ensures WindowsHold(cfg, Then(windows, now), Then(a, now))
    ensures CountIn(Then(a, now), now, now + cfg.window) == 1
  {
    CountNewest(a, now, now + cfg.window, 0);
    EarlierWindowsHold(cfg, windows, a, now);
  }

  lemma {:induction false} SameWindow(cfg: Config, windows: Line, a: Line, now: int)
    requires windows.Then? && WindowsHold(cfg, windows, a)
    requires windows.last <= now < windows.last + cfg.window
    ensures var count := CountIn(a, windows.last, windows.last + cfg.window);
      && CountIn(Then(a, now), windows.last, windows.last + cfg.window) == count + 1
      && (count < cfg.limit ==> WindowsHold(cfg, windows, Then(a, now)))
  {
    EarlierWindowsHold(cfg, windows.past, a, now);
  }

  // ---------- the exact verdicts ----------

  /** Reference limiter, on the times alone. A window opens at the first call, and then at every call that
    comes when the latest one is over. */
  function Openings(window: nat, calls: Line): Line {
    match calls
    case Start => Start
    case Then(before, now) =>
      var starts := Openings(window, before);
      if starts.Then? && now < starts.last + window then starts else Then(starts, now)
  }

  /** A call is let pass unless `limit` calls were already let pass during the window it falls into. */
  function LetPass(limit: u32, window: nat, calls: Line): Line {
    match calls
    case Start => Start
    case Then(before, now) =>
      var passed, start := LetPass(limit, window, before), Openings(window, calls).last;
      if CountIn(passed, start, start + window) < limit then Then(passed, now) else passed
  }

  /** A counter counts the admitted calls of its window. */
  lemma CounterCounts(cfg: Config, counter: Counter, a: Line, t: int)
    requires cfg.window > 0 && Tracks(cfg, counter, a, t)
    ensures CountIn(a, counter.windowStart, counter.windowStart + cfg.window) == counter.count
  {
    CountNewest(a, counter.windowStart, counter.windowStart + cfg.window, counter.count);
  }

  /** On every non-decreasing clock the limiter decides as the reference does: no call too many is admitted
    and none is refused without need. */
  lemma {:induction false} AdmitsExactly(cfg: Config, calls: Line)
    requires cfg.limit > 0 && Sorted(calls)
    ensures Admitted(cfg, calls) == LetPass(cfg.limit, cfg.window, calls)
    ensures Windows(cfg, calls) == Openings(cfg.window, calls)
    ensures calls.Then? ==> After(cfg, calls).value.windowStart == Openings(cfg.window, calls).last <= calls.last
  {
    if calls.Start? {
    } else {
      var before, now := calls.past, calls.last;
      AdmitsExactly(cfg, before);
      var a := Admitted(cfg, before);
      if cfg.window == 0 {
        CountEmpty(a, now);
      } else if before.Then? {
        Reachable(cfg, before, before.last);
        Reachable(cfg, before, now);
        CounterCounts(cfg, After(cfg, before).value, a, before.last);
        if Openings(cfg.window, before).last + cfg.window <= now {
          CountAfterEnd(a, now, now + cfg.window);
        }
      }
    }
  }

  /** A window is open at `now`, and `limit` calls were let pass during it already. */
  predicate Spent(cfg: Config, calls: Line, now: int) {
    var openings := Openings(cfg.window, calls);
    openings.Then? && var start := openings.last;
      start <= now < start + cfg.window
      && CountIn(LetPass(cfg.limit, cfg.window, calls), start, start + cfg.window) == cfg.limit
  }

  /** The verdict on one more call: it is refused if and only if the window it falls into is spent. */
  lemma RefusedExactly(cfg: Config, calls: Line, now: int)
    requires cfg.limit > 0 && Sorted(Then(calls, now))
    ensures Advance(cfg, After(cfg, calls), now).1 == !Spent(cfg, calls, now)
    ensures Admitted(cfg, Then(calls, now)) ==
      if Spent(cfg, calls, now) then Admitted(cfg, calls) else Then(Admitted(cfg, calls), now)
  {
    AdmitsExactly(cfg, calls);
    if cfg.window > 0 && calls.Then? {
      Reachable(cfg, calls, calls.last);
      CounterCounts(cfg, After(cfg, calls).value, Admitted(cfg, calls), calls.last);
    }
  }

  /** A whole burst of `limit` calls is admitted. */
  lemma {:induction false} BurstIsAdmitted(cfg: Config, n: nat, t: int)
    requires 0 < n <= cfg.limit
    ensures Admitted(cfg, Repeated(Start, n, t)) == Repeated(Start, n, t)
    ensures cfg.window > 0 ==> After(cfg, Repeated(Start, n, t)) == Some(Counter(t, n))
  {
    if n == 1 {
    } else {
      BurstIsAdmitted(cfg, n - 1, t);
    }
  }

  /** A window of length zero is always over: nothing is ever refused. */
  lemma {:induction false} ZeroWindowAdmitsAll(cfg: Config, calls: Line)
    requires cfg.limit > 0 && cfg.window == 0
    ensures Admitted(cfg, calls) == calls
  {
    if calls.Start? {
    } else {
      ZeroWindowAdmitsAll(cfg, calls.past);
    }
  }

  // ---------- many sessions ----------

  /** What may happen to a limiter: checks, the purge, and the removal of any one expired counter. */
  datatype Op =
    | Call(session: string, kind: StreamKind, at: int)
    | Purge(at: int)
    | Expire(session: string, at: int)

  predicate InOrder(ops: History<Op>) {
    ops.Then? ==> (ops.past.Then? ==> ops.past.last.at <= ops.last.at) && InOrder(ops.past)
  }

  function Apply(cfg: Config, st: Sessions, op: Op): Sessions {
    match op
    case Call(s, kind, now) => CheckAndRecord(cfg, st, s, kind, now).0
    case Purge(now) => Purged(cfg, st, now)
    case Expire(s, now) => if s in st && ShouldReset(cfg, st[s], now) then st - {s} else st
  }

  function Run(cfg: Config, ops: History<Op>): Sessions {
    match ops
    case Start => map[]
    case Then(before, op) => Apply(cfg, Run(cfg, before), op)
  }

  /** The decisions taken for the calls of session `s`, in order. */
  function Decisions(cfg: Config, ops: History<Op>, s: string): History<Decision> {
    match ops
    case Start => Start
    case Then(before, op) =>
      if op.Call? && op.session == s
      then Then(Decisions(cfg, before, s), CheckAndRecord(cfg, Run(cfg, before), s, op.kind, op.at).1)
      else Decisions(cfg, before, s)
  }

  /** The history with only the calls of session `s` left. */
  function Only(ops: History<Op>, s: string): History<Op> {
    match ops
    case Start => Start
    case Then(before, op) => if op.Call? && op.session == s then Then(Only(before, s), op) else Only(before, s)
  }

  /** No counter, or one whose window is over at `t`: both open a new window at the next call. */
  predicate Stale(cfg: Config, counter: Option<Counter>, t: int) {
    counter.None? || ShouldReset(cfg, counter.value, t)
  }

  predicate Alike(cfg: Config, c: Option<Counter>, d: Option<Counter>, t: int) {
    c == d || (Stale(cfg, c, t) && Stale(cfg, d, t))
  }

  lemma {:induction false} AlikeAlone(cfg: Config, ops: History<Op>, s: string, t: int)
    requires InOrder(ops) && (ops.Then? ==> ops.last.at <= t)
    ensures Alike(cfg, Lookup(Run(cfg, ops), s), Lookup(Run(cfg, Only(ops, s)), s), t)
    ensures Decisions(cfg, ops, s) == Decisions(cfg, Only(ops, s), s)
  {
    if ops.Start? {
    } else {
      AlikeAlone(cfg, ops.past, s, ops.last.at);
    }
  }

  /** Sessions do not interfere, and forgetting expired counters is invisible: the decisions for `s` in
    any time-ordered history, purges and removals of expired counters included, are those of a limiter
    that only ever saw the calls of `s`. */
  lemma SessionsDoNotInterfere(cfg: Config, ops: History<Op>, s: string)
    requires InOrder(ops)
    ensures Decisions(cfg, ops, s) == Decisions(cfg, Only(ops, s), s)
  {
    AlikeAlone(cfg, ops, s, if ops.Then? then ops.last.at else 0);
  }

  /** Every counter has admitted at least one call, so the purge, which spares counters above zero,
    never removes anything. */
  lemma {:induction false} PurgeRemovesNothing(cfg: Config, ops: History<Op>, now: int)
    requires cfg.limit > 0
    ensures forall s :: s in Run(cfg, ops) ==> 1 <= Run(cfg, ops)[s].count <= cfg.limit
    ensures Purged(cfg, Run(cfg, ops), now) == Run(cfg, ops)
  {
    if ops.Start? {
    } else {
      PurgeRemovesNothing(cfg, ops.past, now);
    }
  }

  /** The calls one session makes, as times: what the window bounds above speak about. */
  function TimesOf(ops: History<Op>, s: string): Line {
    match ops
    case Start => Start
    case Then(before, op) =>
      if op.Call? && op.session == s then Then(TimesOf(before, s), op.at) else TimesOf(before, s)
  }

  /** In a history of nothing but checks, session `s` has the counter its own calls alone produce. */
  lemma {:induction false} CounterOfSession(cfg: Config, ops: History<Op>, s: string)
    requires Every(ops, (op: Op) => op.Call?)
    ensures Lookup(Run(cfg, ops), s) == After(cfg, TimesOf(ops, s))
  {
    if ops.Start? {
    } else {
      CounterOfSession(cfg, ops.past, s);
    }
  }

  lemma {:induction false} OnlyIsCalls(ops: History<Op>, s: string)
    ensures Every(Only(ops, s), (op: Op) => op.Call?) && TimesOf(Only(ops, s), s) == TimesOf(ops, s)
  {
    if ops.Start? {
    } else {
      OnlyIsCalls(ops.past, s);
    }
  }

  lemma {:induction false} TimesInOrder(ops: History<Op>, s: string)
    requires InOrder(ops)
    ensures Sorted(TimesOf(ops, s)) && (ops.Then? ==> EndsBy(TimesOf(ops, s), ops.last.at))
  {
    if ops.Start? {
    } else {
      TimesInOrder(ops.past, s);
    }
  }

  /** Among many sessions, with purges and removals of expired counters at any time: a call of `s` is
    refused, under its own kind, if and only if the window it falls into is spent by earlier calls of `s`. */
  lemma DecidedExactly(cfg: Config, ops: History<Op>, s: string, kind: StreamKind, now: int)
    requires cfg.limit > 0 && InOrder(ops) && (ops.Then? ==> ops.last.at <= now)
    ensures CheckAndRecord(cfg, Run(cfg, ops), s, kind, now).1 ==
      if Spent(cfg, TimesOf(ops, s), now) then RateLimited(kind) else Allowed
  {
    AlikeAlone(cfg, ops, s, now);
    OnlyIsCalls(ops, s);
    CounterOfSession(cfg, Only(ops, s), s);
    TimesInOrder(ops, s);
    RefusedExactly(cfg, TimesOf(ops, s), now);
  }
}
