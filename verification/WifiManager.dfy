/**
 The station side of the WiFi manager: driver events, two one-shot timers and calls from
 other tasks move one context. The driver's answers are part of the events. Handlers,
 timer callbacks and the steps of a caller's scan are each atomic.
 */
module WifiManager {
  import opened Options

  const U32 := 0x1_0000_0000
  const U64 := 0x1_0000_0000_0000_0000

  const MIN_SCAN_INTERVAL_MS := 1000
  const MIN_CONNECTION_TIMEOUT_MS := 1000
  const MIN_RECONNECT_DELAY_MS := 1000
  const SHIFT_BOUND := 22

  type Uint32 = x: int | 0 <= x < U32

  datatype Config = Config(scanInterval: Uint32, connectionTimeout: Uint32, reconnectDelay: Uint32)

  function Max(a: int, b: int): int { if a < b then b else a }

  function Min(a: int, b: int): int { if a < b then a else b }

  /** The floors applied once, when the manager is initialised. */
  function Clamped(cfg: Config): Config {
    Config(Max(cfg.scanInterval, MIN_SCAN_INTERVAL_MS),
           Max(cfg.connectionTimeout, MIN_CONNECTION_TIMEOUT_MS),
           Max(cfg.reconnectDelay, MIN_RECONNECT_DELAY_MS))
  }

  // ---------------------------------------------------------------- the backoff

  function Pow2(n: nat): nat {
    if n == 0 then 1 else 2 * Pow2(n - 1)
  }

  function Cap(cfg: Config): int { Max(cfg.scanInterval, MIN_SCAN_INTERVAL_MS) }

  function Base(cfg: Config): int { Max(cfg.reconnectDelay, MIN_RECONNECT_DELAY_MS) }

  /** A 64-bit left shift. */
  function Shifted(x: nat, n: nat): nat {
    (x * Pow2(n)) % U64
  }

  /** The delay armed after `attempts` reconnect scans, in milliseconds. */
  function Delay(cfg: Config, attempts: nat): nat {
    Min(Shifted(Base(cfg), Min(attempts, SHIFT_BOUND)), Cap(cfg))
  }

  /** Doubling per attempt from the base up to the cap. */
  function Ideal(cfg: Config, attempts: nat): nat {
    Min(Base(cfg) * Pow2(attempts), Cap(cfg))
  }

  lemma {:induction false} Pow2Grows(a: nat, b: nat)
    requires a <= b
    ensures 1 <= Pow2(a) <= Pow2(b)
    decreases b - a, b
  {
    if a < b {
      Pow2Grows(a, b - 1);
    } else if a > 0 {
      Pow2Grows(a - 1, a - 1);
    }
  }

  lemma Pow2Bound()
    ensures Pow2(SHIFT_BOUND) == 0x40_0000
  {
    assert Pow2(4) == 16;
    assert Pow2(8) == 256;
    assert Pow2(12) == 4096;
    assert Pow2(16) == 65536;
    assert Pow2(20) == 0x10_0000;
  }

  lemma MulGrows(x: nat, a: nat, b: nat)
    requires a <= b
    ensures x * a <= x * b
  {
  }

  /** The shift loses no bits, and neither does the conversion to microseconds. */
  lemma NoOverflow(cfg: Config, attempts: nat)
    ensures Shifted(Base(cfg), Min(attempts, SHIFT_BOUND)) == Base(cfg) * Pow2(Min(attempts, SHIFT_BOUND))
    ensures Delay(cfg, attempts) * 1000 < U64
  {
    Pow2Bound();
    Pow2Grows(Min(attempts, SHIFT_BOUND), SHIFT_BOUND);
    MulGrows(Base(cfg), Pow2(Min(attempts, SHIFT_BOUND)), 0x40_0000);
  }

  lemma DelayBounds(cfg: Config, attempts: nat)
    ensures 1000 <= Delay(cfg, attempts) <= Cap(cfg)
  {
    NoOverflow(cfg, attempts);
    Pow2Grows(0, Min(attempts, SHIFT_BOUND));
    MulGrows(Base(cfg), 1, Pow2(Min(attempts, SHIFT_BOUND)));
  }

  lemma DelayGrows(cfg: Config, a: nat, b: nat)
    requires a <= b
    ensures Delay(cfg, a) <= Delay(cfg, b)
  {
    NoOverflow(cfg, a);
    NoOverflow(cfg, b);
    Pow2Grows(Min(a, SHIFT_BOUND), Min(b, SHIFT_BOUND));
    MulGrows(Base(cfg), Pow2(Min(a, SHIFT_BOUND)), Pow2(Min(b, SHIFT_BOUND)));
  }

  /** The bounded shift doubles up to the cap for every number of attempts exactly when the
      largest shift reaches the cap. */
  lemma DelayDoubles(cfg: Config)
    ensures (forall attempts: nat :: Delay(cfg, attempts) == Ideal(cfg, attempts)) <==>
            Base(cfg) * 0x40_0000 >= Cap(cfg)
  {
    Pow2Bound();
    if Base(cfg) * 0x40_0000 >= Cap(cfg) {
      forall attempts: nat ensures Delay(cfg, attempts) == Ideal(cfg, attempts) {
        NoOverflow(cfg, attempts);
        if attempts > SHIFT_BOUND {
          Pow2Grows(SHIFT_BOUND, attempts);
          MulGrows(Base(cfg), 0x40_0000, Pow2(attempts));
        }
      }
    } else {
      var attempts := SHIFT_BOUND + 1;
      NoOverflow(cfg, attempts);
      assert Pow2(attempts) == 2 * Pow2(SHIFT_BOUND);
      assert Delay(cfg, attempts) == Base(cfg) * 0x40_0000;
      assert Ideal(cfg, attempts) == Min(Base(cfg) * 0x80_0000, Cap(cfg));
      assert Delay(cfg, attempts) != Ideal(cfg, attempts);
    }
  }

  /** The bounds the configuration schema puts on a manager's intervals. */
  predicate WithinSchema(cfg: Config) {
    1000 <= cfg.scanInterval <= 3600000 && 1000 <= cfg.reconnectDelay <= 3600000
  }

  /** Every configuration within them doubles for any number of attempts. */
  lemma SchemaDoubles(cfg: Config, attempts: nat)
    requires WithinSchema(cfg)
    ensures Delay(cfg, attempts) == Ideal(cfg, attempts)
  {
    DelayDoubles(cfg);
  }

  /** The law of the delay, within those bounds: it begins with the configured one and doubles
      with every attempt until the interval between scans is reached. */
  lemma DelayLaw(cfg: Config, attempts: nat)
    requires WithinSchema(cfg)
    ensures Delay(cfg, 0) == if cfg.reconnectDelay <= cfg.scanInterval then cfg.reconnectDelay else cfg.scanInterval
    ensures Delay(cfg, attempts + 1) ==
            if 2 * Delay(cfg, attempts) <= cfg.scanInterval then 2 * Delay(cfg, attempts) else cfg.scanInterval
  {
    SchemaDoubles(cfg, 0);
    SchemaDoubles(cfg, attempts);
    SchemaDoubles(cfg, attempts + 1);
    assert Pow2(0) == 1 && Pow2(attempts + 1) == 2 * Pow2(attempts);
    DoubledCapped(cfg.reconnectDelay, Pow2(attempts), cfg.scanInterval);
  }

  lemma DoubledCapped(base: nat, p: nat, cap: nat)
    ensures Min(base * (2 * p), cap) == if 2 * Min(base * p, cap) <= cap then 2 * Min(base * p, cap) else cap
  {
    assert base * (2 * p) == 2 * (base * p);
  }

  /** Configured below the floors, an interval counts as a second. */
  lemma FloorsAreASecond(cfg: Config, attempts: nat)
    requires cfg.scanInterval <= 1000
    ensures Delay(cfg, attempts) == 1000
  {
    DelayBounds(cfg, attempts);
  }

  /** An interval just above 48 days with the smallest delay: the bound is reached first. */
  lemma DoublingStopsShort()
    ensures var cfg := Config(U32 - 1, 1000, 1000);
            !forall attempts: nat :: Delay(cfg, attempts) == Ideal(cfg, attempts)
  {
    DelayDoubles(Config(U32 - 1, 1000, 1000));
  }

  // ---------------------------------------------------------------- the state machine

  datatype Link = Disconnected | Connecting | Connected

  /** The context, and what the driver and the callers have going: `timer` is the delay the
      reconnect timer was armed with, `scanning` a manager's scan in flight, `finishing` and
      `rescheduling` callers on their way out of a scan of their own. */
  datatype Ctx = Ctx(
    link: Link, timer: Option<nat>, timeoutArmed: bool, attempts: Uint32, callerScan: bool,
    scanning: bool, finishing: nat, rescheduling: nat, stationUp: bool, asked: bool, announced: bool)

  /** Station mode entered, nothing asked for yet. */
  const Fresh := Ctx(Disconnected, None, false, 0, false, false, 0, 0, false, false, false)

  /** What a finished scan leads to: no records, no known network, or a network and the
      driver's answers to configuring and connecting. */
  datatype Found = Unreadable | NoneKnown | Best(configured: bool, connecting: bool)

  datatype Event =
    | ScanAndConnect(accepted: bool)
    | CallerScans
    | CallerWakes
    | CallerChecks
    | CallerReschedules
    | StaStart
    | StaConnected
    | StaDisconnected(roaming: bool)
    | ScanDone(managers: bool, found: Found)
    | GotIp
    | LostIp
    | ReconnectFires(accepted: bool)
    | TimeoutFires

  /** A scan can only start, and the driver only report a link, once the station is up; the
      station comes up once. */
  predicate CanHappen(c: Ctx, e: Event) {
    match e
    case ScanAndConnect(accepted) => accepted ==> c.stationUp
    case CallerScans => !c.callerScan
    case CallerWakes => c.callerScan
    case CallerChecks => c.finishing > 0
    case CallerReschedules => c.rescheduling > 0
    case StaStart => !c.stationUp
    case StaConnected => c.stationUp
    case StaDisconnected(_) => c.stationUp
    case ScanDone(managers, _) => c.stationUp && (managers ==> c.scanning)
    case GotIp => c.stationUp
    case LostIp => c.stationUp
    case ReconnectFires(accepted) => c.timer.Some? && (accepted ==> c.stationUp)
    case TimeoutFires => c.timeoutArmed
  }

  /** The delay to arm after so many reconnect scans. */
  type Backoff = nat -> nat

  function BackoffOf(cfg: Config): Backoff {
    (attempts: nat) => Delay(cfg, attempts)
  }

  ghost predicate Bounded(delay: Backoff, cap: nat) {
    forall a: nat :: 1000 <= delay(a) <= cap
  }

  ghost predicate Growing(delay: Backoff) {
    forall a: nat, b: nat :: a <= b ==> delay(a) <= delay(b)
  }

  lemma BackoffFacts(cfg: Config)
    ensures Bounded(BackoffOf(cfg), Cap(cfg)) && Growing(BackoffOf(cfg))
  {
    forall a: nat ensures 1000 <= BackoffOf(cfg)(a) <= Cap(cfg) {
      DelayBounds(cfg, a);
    }
    forall a: nat, b: nat | a <= b ensures BackoffOf(cfg)(a) <= BackoffOf(cfg)(b) {
      DelayGrows(cfg, a, b);
    }
  }

  function Schedule(delay: Backoff, c: Ctx): Ctx {
    c.(timer := Some(delay(c.attempts)))
  }

  function Connect(delay: Backoff, c: Ctx, found: Found): Ctx {
    if found == Best(true, true) then c.(link := Connecting, timeoutArmed := true)
    else Schedule(delay, c.(link := if found.Best? then Disconnected else c.link))
  }

  /** A 32-bit counter's next value. */
  function Incremented(x: Uint32): Uint32 {
    if x == U32 - 1 then 0 else x + 1
  }

  function ReconnectScan(delay: Backoff, c: Ctx, accepted: bool): Ctx {
    if c.link == Connecting then Schedule(delay, c)
    else if c.link != Disconnected then c
    else
      var counted := c.(attempts := Incremented(c.attempts));
      if accepted then counted.(scanning := true) else Schedule(delay, counted)
  }

  function Next(delay: Backoff, c: Ctx, e: Event): Ctx {
    match e
    case ScanAndConnect(accepted) =>
      if c.link == Connected then c.(asked := true)
      else if accepted then c.(asked := true, scanning := true)
      else Schedule(delay, c.(asked := true))
    case CallerScans => c.(callerScan := true)
    case CallerWakes => if c.callerScan then c.(callerScan := false, finishing := c.finishing + 1) else c
    case CallerChecks =>
      if c.finishing == 0 then c
      else c.(finishing := c.finishing - 1,
              rescheduling := if c.link == Disconnected then c.rescheduling + 1 else c.rescheduling)
    case CallerReschedules =>
      if c.rescheduling == 0 then c else Schedule(delay, c.(rescheduling := c.rescheduling - 1))
    case StaStart => c.(link := Disconnected, stationUp := true)
    case StaConnected => c.(timeoutArmed := true)
    case StaDisconnected(roaming) =>
      if roaming && c.link == Connected then c.(link := Connecting, timeoutArmed := true)
      else Schedule(delay, c.(link := Disconnected, timeoutArmed := false, announced := false))
    case ScanDone(managers, found) =>
      var done := if managers then c.(scanning := false) else c;
      if done.callerScan || done.link != Disconnected then done else Connect(delay, done, found)
    case GotIp => c.(link := Connected, attempts := 0, timeoutArmed := false, timer := None, announced := true)
    case LostIp => Schedule(delay, c.(link := Disconnected, announced := false))
    case ReconnectFires(accepted) => ReconnectScan(delay, c.(timer := None), accepted)
    case TimeoutFires => Schedule(delay, c.(link := Disconnected, timeoutArmed := false))
  }

  ghost predicate IsRun(delay: Backoff, c: Ctx, events: seq<Event>)
    decreases |events|
  {
    events == [] || (CanHappen(c, events[0]) && IsRun(delay, Next(delay, c, events[0]), events[1..]))
  }

  function Run(delay: Backoff, c: Ctx, events: seq<Event>): Ctx
    decreases |events|
  {
    if events == [] then c else Run(delay, Next(delay, c, events[0]), events[1..])
  }

  // ---------------------------------------------------------------- never wedged

  /** Something will take a disconnected station further. */
  predicate Pending(c: Ctx) {
    c.timer.Some? || c.scanning || c.callerScan || c.finishing > 0 || c.rescheduling > 0
  }

  ghost predicate NotWedged(c: Ctx, cap: nat) {
    && (c.link == Connecting ==> c.timeoutArmed)
    && (c.asked && c.link == Disconnected ==> Pending(c))
    && (!c.stationUp ==> c.link == Disconnected && !c.timeoutArmed)
    && (c.link == Connected ==> c.announced)
    && (c.timer.Some? ==> 1000 <= c.timer.value <= cap)
  }

  lemma ReconnectKeeps(delay: Backoff, c: Ctx, accepted: bool, cap: nat)
    requires Bounded(delay, cap) && NotWedged(c, cap) && CanHappen(c, ReconnectFires(accepted))
    ensures NotWedged(ReconnectScan(delay, c.(timer := None), accepted), cap)
  {
  }

  lemma ScanKeeps(delay: Backoff, c: Ctx, managers: bool, found: Found, cap: nat)
    requires Bounded(delay, cap) && NotWedged(c, cap) && CanHappen(c, ScanDone(managers, found))
    ensures NotWedged(Next(delay, c, ScanDone(managers, found)), cap)
  {
  }

  lemma DriverKeeps(delay: Backoff, c: Ctx, e: Event, cap: nat)
    requires Bounded(delay, cap) && NotWedged(c, cap) && CanHappen(c, e)
    requires e.StaStart? || e.StaConnected? || e.StaDisconnected? || e.GotIp? || e.LostIp? || e.TimeoutFires?
    ensures NotWedged(Next(delay, c, e), cap)
  {
  }

  lemma CallKeeps(delay: Backoff, c: Ctx, e: Event, cap: nat)
    requires Bounded(delay, cap) && NotWedged(c, cap) && CanHappen(c, e)
    requires e.ScanAndConnect? || e.CallerScans? || e.CallerWakes? || e.CallerChecks? || e.CallerReschedules?
    ensures NotWedged(Next(delay, c, e), cap)
  {
  }

  lemma StepKeeps(delay: Backoff, c: Ctx, e: Event, cap: nat)
    requires Bounded(delay, cap) && NotWedged(c, cap) && CanHappen(c, e)
    ensures NotWedged(Next(delay, c, e), cap)
  {
    match e
    case ReconnectFires(accepted) => ReconnectKeeps(delay, c, accepted, cap);
    case ScanDone(managers, found) => ScanKeeps(delay, c, managers, found, cap);
    case ScanAndConnect(_) => CallKeeps(delay, c, e, cap);
    case CallerScans => CallKeeps(delay, c, e, cap);
    case CallerWakes => CallKeeps(delay, c, e, cap);
    case CallerChecks => CallKeeps(delay, c, e, cap);
    case CallerReschedules => CallKeeps(delay, c, e, cap);
    case _ => DriverKeeps(delay, c, e, cap);
  }

  /** Why the station must come up before the link does: its start event, seen later, would
      drop a connected station without arming anything. */
  lemma LateStartWouldWedge(delay: Backoff, cap: nat)
    ensures exists c :: NotWedged(c, cap) && c.stationUp && !NotWedged(Next(delay, c, StaStart), cap)
  {
    var c := Fresh.(asked := true, stationUp := true, link := Connected, announced := true);
    assert NotWedged(c, cap) && !Pending(Next(delay, c, StaStart));
  }

  /** A run one event longer. */
  lemma {:induction false} RunThen(delay: Backoff, c: Ctx, events: seq<Event>, e: Event)
    requires IsRun(delay, c, events)
    ensures IsRun(delay, c, events + [e]) <==> CanHappen(Run(delay, c, events), e)
    ensures Run(delay, c, events + [e]) == Next(delay, Run(delay, c, events), e)
    decreases |events|
  {
    if events == [] {
      assert [e][1..] == [];
    } else {
      assert (events + [e])[1..] == events[1..] + [e];
      RunThen(delay, Next(delay, c, events[0]), events[1..], e);
    }
  }

  lemma {:induction false} RunPrefix(delay: Backoff, c: Ctx, events: seq<Event>, k: nat)
    requires IsRun(delay, c, events) && k <= |events|
    ensures IsRun(delay, c, events[..k])
    decreases |events|
  {
    if k > 0 {
      assert events[..k][1..] == events[1..][..k - 1];
      RunPrefix(delay, Next(delay, c, events[0]), events[1..], k - 1);
    }
  }

  /** The context after the first `k` events. */
  function At(cfg: Config, events: seq<Event>, k: nat): Ctx
    requires k <= |events|
  {
    Run(BackoffOf(cfg), Fresh, events[..k])
  }

  /** What holds of every context a run goes through. */
  ghost predicate Reachable(c: Ctx, cap: nat) {
    NotWedged(c, cap) && (c.announced ==> c.stationUp)
  }

  lemma StepReachable(delay: Backoff, c: Ctx, e: Event, cap: nat)
    requires Bounded(delay, cap) && Reachable(c, cap) && CanHappen(c, e)
    ensures Reachable(Next(delay, c, e), cap)
  {
    StepKeeps(delay, c, e, cap);
  }

  lemma {:induction false} RunReaches(cfg: Config, events: seq<Event>)
    requires IsRun(BackoffOf(cfg), Fresh, events)
    ensures Reachable(Run(BackoffOf(cfg), Fresh, events), Cap(cfg))
    decreases |events|
  {
    BackoffFacts(cfg);
    if events != [] {
      var last := |events| - 1;
      RunPrefix(BackoffOf(cfg), Fresh, events, last);
      RunReaches(cfg, events[..last]);
      assert events == events[..last] + [events[last]];
      RunThen(BackoffOf(cfg), Fresh, events[..last], events[last]);
      StepReachable(BackoffOf(cfg), Run(BackoffOf(cfg), Fresh, events[..last]), events[last], Cap(cfg));
    }
  }

  /** Over every run: a connecting station has its timeout armed, and once a connection has
      been asked for, a disconnected one has its retry armed, a scan in flight or a
      caller's scan under way; no armed retry is shorter than a second. */
  lemma NeverWedgedFromStart(cfg: Config, events: seq<Event>)
    requires IsRun(BackoffOf(cfg), Fresh, events)
    ensures var c := Run(BackoffOf(cfg), Fresh, events);
            && (c.link == Connecting ==> c.timeoutArmed)
            && (c.asked && c.link == Disconnected ==> Pending(c))
            && (c.timer.Some? ==> 1000 <= c.timer.value <= Cap(cfg))
  {
    RunReaches(cfg, events);
  }

  lemma PrefixThen(delay: Backoff, c: Ctx, events: seq<Event>, k: nat)
    requires IsRun(delay, c, events) && k < |events|
    ensures IsRun(delay, c, events[..k]) && CanHappen(Run(delay, c, events[..k]), events[k])
    ensures Run(delay, c, events[..k + 1]) == Next(delay, Run(delay, c, events[..k]), events[k])
  {
    RunPrefix(delay, c, events, k);
    RunPrefix(delay, c, events, k + 1);
    assert events[..k + 1] == events[..k] + [events[k]];
    RunThen(delay, c, events[..k], events[k]);
  }

  lemma StepOf(cfg: Config, events: seq<Event>, k: nat)
    requires IsRun(BackoffOf(cfg), Fresh, events) && k < |events|
    ensures Reachable(At(cfg, events, k), Cap(cfg)) && CanHappen(At(cfg, events, k), events[k])
    ensures At(cfg, events, k + 1) == Next(BackoffOf(cfg), At(cfg, events, k), events[k])
  {
    PrefixThen(BackoffOf(cfg), Fresh, events, k);
    RunReaches(cfg, events[..k]);
  }

  /** The events that take away a link there is or is being made. */
  predicate Loses(c: Ctx, e: Event) {
    e == LostIp || e == TimeoutFires || (e.StaDisconnected? && !(e.roaming && c.link == Connected))
  }

  lemma OthersKeepLink(delay: Backoff, c: Ctx, e: Event, cap: nat)
    requires Reachable(c, cap) && CanHappen(c, e) && c.link != Disconnected && !Loses(c, e)
    ensures Next(delay, c, e).link != Disconnected
  {
  }

  lemma LossArms(delay: Backoff, c: Ctx, e: Event, cap: nat)
    requires Reachable(c, cap) && CanHappen(c, e) && c.link != Disconnected
    ensures Next(delay, c, e).link == Disconnected <==> Loses(c, e)
    ensures var d := Next(delay, c, e);
            d.link == Disconnected ==> d.timer == Some(delay(d.attempts)) && d.attempts == c.attempts
  {
    if !Loses(c, e) {
      OthersKeepLink(delay, c, e, cap);
    }
  }

  /** Whenever a run leaves the station without a connection it had or was making, the
      retry is armed with the delay for the scans attempted so far. */
  lemma EveryLossIsRetried(cfg: Config, events: seq<Event>, k: nat)
    requires IsRun(BackoffOf(cfg), Fresh, events) && k < |events|
    requires At(cfg, events, k).link != Disconnected && At(cfg, events, k + 1).link == Disconnected
    ensures var c := At(cfg, events, k + 1); c.timer == Some(Delay(cfg, c.attempts))
    ensures events[k] == LostIp || events[k] == TimeoutFires || events[k].StaDisconnected?
  {
    StepOf(cfg, events, k);
    LossArms(BackoffOf(cfg), At(cfg, events, k), events[k], Cap(cfg));
  }

  lemma ReconnectKeepsRetry(delay: Backoff, c: Ctx, accepted: bool)
    ensures var d := Next(delay, c, ReconnectFires(accepted));
            && (d.timer.None? ==> d.link == Connected || (d.link == Disconnected && d.scanning))
            && (d.timer.Some? ==> d.timer == Some(delay(d.attempts)))
  {
  }

  lemma ScanKeepsRetry(delay: Backoff, c: Ctx, managers: bool, found: Found)
    ensures var d := Next(delay, c, ScanDone(managers, found));
            d.timer == c.timer || d.timer == Some(delay(d.attempts))
  {
  }

  /** Results are used only by a disconnected station no caller's scan is waiting for: then it
      connects, or the retry is armed; otherwise they change nothing but that the manager's
      own scan is over. */
  lemma ResultsAreFor(delay: Backoff, c: Ctx, managers: bool, found: Found)
    ensures var d := Next(delay, c, ScanDone(managers, found));
            var done := c.(scanning := c.scanning && !managers);
            d == if c.callerScan || c.link != Disconnected then done
                 else if found == Best(true, true) then done.(link := Connecting, timeoutArmed := true)
                 else done.(timer := Some(delay(c.attempts)))
  {
  }

  lemma StepKeepsRetry(delay: Backoff, c: Ctx, e: Event)
    ensures var d := Next(delay, c, e);
            c.timer.Some? && d.timer.None? ==> d.link == Connected || (d.link == Disconnected && d.scanning)
    ensures var d := Next(delay, c, e); d.timer.Some? && d.timer != c.timer ==> d.timer == Some(delay(d.attempts))
  {
    match e
    case ReconnectFires(accepted) => ReconnectKeepsRetry(delay, c, accepted);
    case ScanDone(managers, found) => ScanKeepsRetry(delay, c, managers, found);
    case _ =>
  }

  /** An armed retry goes away only for a link that is up or a scan in flight, and one that
      is armed or armed anew has the delay for the scans attempted so far. */
  lemma RetryIsKept(cfg: Config, events: seq<Event>, k: nat)
    requires IsRun(BackoffOf(cfg), Fresh, events) && k < |events|
    ensures var c, d := At(cfg, events, k), At(cfg, events, k + 1);
            && (c.timer.Some? && d.timer.None? ==> d.link == Connected || (d.link == Disconnected && d.scanning))
            && (d.timer.Some? && d.timer != c.timer ==> d.timer == Some(Delay(cfg, d.attempts)))
  {
    StepOf(cfg, events, k);
    StepKeepsRetry(BackoffOf(cfg), At(cfg, events, k), events[k]);
  }

  // ---------------------------------------------------------------- never stopped for good

  /** What the manager's own timers, scans and callers bring about, without a new request. */
  predicate Unprompted(e: Event) {
    e.CallerWakes? || e.CallerChecks? || e.CallerReschedules? || e.ReconnectFires? || e.ScanDone?
  }

  /** What moves a disconnected station on when the driver accepts what it is asked. */
  function MovesOn(c: Ctx): Event {
    if c.callerScan then CallerWakes
    else if c.scanning then ScanDone(true, Best(true, true))
    else if c.timer.Some? then ReconnectFires(true)
    else if c.rescheduling > 0 then CallerReschedules
    else CallerChecks
  }

  function StepsToAttempt(c: Ctx): nat {
    if c.link == Connecting then 0
    else
      (if c.callerScan then 1 else 0)
      + if c.scanning then 1 else if c.timer.Some? then 2 else if c.rescheduling > 0 then 3 else 4
  }

  lemma MovesOnHelps(delay: Backoff, c: Ctx)
    requires c.stationUp && c.link == Disconnected && Pending(c)
    ensures var d := Next(delay, c, MovesOn(c));
            && CanHappen(c, MovesOn(c)) && d.stationUp && StepsToAttempt(d) < StepsToAttempt(c)
            && (d.link == Connecting || (d.link == Disconnected && Pending(d)))
  {
  }

  /** From a disconnected station with something pending, at most five events that nobody
      has to ask for lead to a connection attempt. */
  lemma {:induction false} LeadsToAttempt(delay: Backoff, c: Ctx) returns (events: seq<Event>)
    requires c.stationUp && (c.link == Connecting || (c.link == Disconnected && Pending(c)))
    ensures IsRun(delay, c, events) && Run(delay, c, events).link == Connecting
    ensures |events| <= StepsToAttempt(c) && forall e :: e in events ==> Unprompted(e)
    decreases StepsToAttempt(c)
  {
    if c.link == Connecting {
      return [];
    }
    MovesOnHelps(delay, c);
    var rest := LeadsToAttempt(delay, Next(delay, c, MovesOn(c)));
    events := [MovesOn(c)] + rest;
    assert events[1..] == rest;
  }

  /** However a run went, a station that was asked to connect and is not connected gets to
      try again: at most five unprompted events away. */
  lemma TriesAgain(cfg: Config, events: seq<Event>)
    requires IsRun(BackoffOf(cfg), Fresh, events)
    ensures var c := Run(BackoffOf(cfg), Fresh, events);
            c.asked && c.stationUp && c.link != Connected ==>
              exists more :: && |more| <= 5 && (forall e :: e in more ==> Unprompted(e))
                             && IsRun(BackoffOf(cfg), c, more) && Run(BackoffOf(cfg), c, more).link == Connecting
  {
    RunReaches(cfg, events);
    var c := Run(BackoffOf(cfg), Fresh, events);
    if c.asked && c.stationUp && c.link != Connected {
      var more := LeadsToAttempt(BackoffOf(cfg), c);
    }
  }

  // ---------------------------------------------------------------- what subscribers are told

  /** Something that happened is later than everything that would undo it. */
  ghost predicate Since(events: seq<Event>, on: (seq<Event>, Event) -> bool, off: (seq<Event>, Event) -> bool) {
    exists i :: 0 <= i < |events| && on(events[..i], events[i]) && NoneSince(events, i, off)
  }

  ghost predicate NoneSince(events: seq<Event>, i: int, off: (seq<Event>, Event) -> bool) {
    forall j :: 0 <= j && i < j < |events| ==> !off(events[..j], events[j])
  }

  /** Since the last address nothing has ended the link. */
  ghost predicate LinkIsUp(events: seq<Event>) {
    Since(events, (before, e) => e == GotIp, (before, e) => e == LostIp || e == TimeoutFires || e.StaDisconnected?)
  }

  ghost predicate CallerWaits(events: seq<Event>) {
    Since(events, (before, e) => e == CallerScans, (before, e) => e == CallerWakes)
  }

  /** The subscribers are told that the link is down: a lost address, or a disconnect other
      than a roam from a link that is up. */
  ghost predicate TellsDown(before: seq<Event>, e: Event) {
    e == LostIp || (e.StaDisconnected? && !(e.roaming && LinkIsUp(before)))
  }

  /** The last thing the subscribers were told is that the link is up. */
  ghost predicate ToldUp(events: seq<Event>) {
    Since(events, (before, e) => e == GotIp, (before, e) => TellsDown(before, e))
  }

  /** A scan that starts a connection attempt when the station is disconnected. */
  ghost predicate Attempts(before: seq<Event>, e: Event) {
    e.ScanDone? && e.found == Best(true, true) && !CallerWaits(before)
  }

  /** A timeout while the subscribers thought the link up, and since then no address, no
      word to them and no new attempt. */
  ghost predicate LostSilently(events: seq<Event>) {
    Since(events, (before, e) => e == TimeoutFires && ToldUp(before),
          (before, e) => e == GotIp || TellsDown(before, e) || Attempts(before, e))
  }

  predicate Silent(c: Ctx) {
    c.link == Disconnected && c.announced
  }

  lemma SinceThen(events: seq<Event>, e: Event, on: (seq<Event>, Event) -> bool, off: (seq<Event>, Event) -> bool)
    ensures Since(events + [e], on, off) <==> on(events, e) || (Since(events, on, off) && !off(events, e))
  {
    var longer := events + [e];
    assert forall i | 0 <= i <= |events| :: longer[..i] == events[..i];
    assert longer[..|events|] == events;
    if on(events, e) {
      assert longer[|events|] == e && NoneSince(longer, |events|, off);
    } else if Since(events, on, off) && !off(events, e) {
      var i :| 0 <= i < |events| && on(events[..i], events[i]) && NoneSince(events, i, off);
      assert longer[i] == events[i] && NoneSince(longer, i, off);
    }
    if Since(longer, on, off) && !on(events, e) {
      var i :| 0 <= i < |longer| && on(longer[..i], longer[i]) && NoneSince(longer, i, off);
      assert i < |events|;
      assert !off(longer[..|events|], longer[|events|]);
      forall j | 0 <= j && i < j < |events| ensures !off(events[..j], events[j]) {
        assert !off(longer[..j], longer[j]);
      }
      assert NoneSince(events, i, off);
    }
  }

  /** A station that was not lost silently becomes so exactly at a timeout while its
      subscribers think the link is up. */
  lemma SilentStep(delay: Backoff, c: Ctx, e: Event, cap: nat)
    requires Reachable(c, cap) && CanHappen(c, e) && !Silent(c)
    ensures Silent(Next(delay, c, e)) <==> e == TimeoutFires && c.announced
  {
  }

  /** The context says what the events say. */
  ghost predicate Tracks(c: Ctx, events: seq<Event>) {
    && (c.link == Connected <==> LinkIsUp(events))
    && (c.callerScan <==> CallerWaits(events))
    && (c.announced <==> ToldUp(events))
    && (Silent(c) <==> LostSilently(events))
  }

  lemma EventsThen(events: seq<Event>, e: Event)
    ensures LinkIsUp(events + [e]) <==>
            e == GotIp || (LinkIsUp(events) && e != LostIp && e != TimeoutFires && !e.StaDisconnected?)
    ensures CallerWaits(events + [e]) <==> e == CallerScans || (CallerWaits(events) && e != CallerWakes)
    ensures ToldUp(events + [e]) <==> e == GotIp || (ToldUp(events) && !TellsDown(events, e))
    ensures LostSilently(events + [e]) <==>
            || (e == TimeoutFires && ToldUp(events))
            || (LostSilently(events) && e != GotIp && !TellsDown(events, e) && !Attempts(events, e))
  {
    SinceThen(events, e, (before, e) => e == GotIp,
              (before, e) => e == LostIp || e == TimeoutFires || e.StaDisconnected?);
    SinceThen(events, e, (before, e) => e == CallerScans, (before, e) => e == CallerWakes);
    SinceThen(events, e, (before, e) => e == GotIp, (before, e) => TellsDown(before, e));
    SinceThen(events, e, (before, e) => e == TimeoutFires && ToldUp(before),
              (before, e) => e == GotIp || TellsDown(before, e) || Attempts(before, e));
  }

  lemma StepTracks(delay: Backoff, c: Ctx, events: seq<Event>, e: Event, cap: nat)
    requires Reachable(c, cap) && CanHappen(c, e) && Tracks(c, events)
    ensures Tracks(Next(delay, c, e), events + [e])
  {
    EventsThen(events, e);
    assert TellsDown(events, e) <==> e == LostIp || (e.StaDisconnected? && !(e.roaming && c.link == Connected));
    assert Attempts(events, e) <==> e.ScanDone? && e.found == Best(true, true) && !c.callerScan;
  }

  /** After any run the events alone tell whether the link is up, what the subscribers were
      last told, and whether the station is disconnected while they believe the link is up. */
  lemma {:induction false} SilentLoss(cfg: Config, events: seq<Event>)
    requires IsRun(BackoffOf(cfg), Fresh, events)
    ensures Tracks(Run(BackoffOf(cfg), Fresh, events), events)
    decreases |events|
  {
    if events != [] {
      var last := |events| - 1;
      RunPrefix(BackoffOf(cfg), Fresh, events, last);
      SilentLoss(cfg, events[..last]);
      StepOf(cfg, events, last);
      assert events == events[..last] + [events[last]] && events[..last + 1] == events;
      StepTracks(BackoffOf(cfg), At(cfg, events, last), events[..last], events[last], Cap(cfg));
    }
  }

  /** A roam that times out, or a second report of a link already up that times out, loses
      the link silently; a disconnect the driver reports later tells the subscribers. */
  lemma SilentTraces(delay: Backoff, c: Ctx)
    requires c.stationUp && c.link == Connected && c.announced
    ensures var events := [StaDisconnected(true), TimeoutFires];
            IsRun(delay, c, events) && Silent(Run(delay, c, events))
    ensures var events := [StaConnected, TimeoutFires]; IsRun(delay, c, events) && Silent(Run(delay, c, events))
    ensures var events := [StaDisconnected(true), TimeoutFires, StaDisconnected(false)];
            IsRun(delay, c, events) && !Run(delay, c, events).announced
  {
    RunOfTwo(delay, c, StaDisconnected(true), TimeoutFires);
    RunOfTwo(delay, c, StaConnected, TimeoutFires);
    RunThen(delay, c, [StaDisconnected(true), TimeoutFires], StaDisconnected(false));
    assert [StaDisconnected(true), TimeoutFires] + [StaDisconnected(false)]
           == [StaDisconnected(true), TimeoutFires, StaDisconnected(false)];
  }

  lemma RunOfTwo(delay: Backoff, c: Ctx, e: Event, f: Event)
    ensures Run(delay, c, [e, f]) == Next(delay, Next(delay, c, e), f)
    ensures IsRun(delay, c, [e, f]) <==> CanHappen(c, e) && CanHappen(Next(delay, c, e), f)
  {
    var d := Next(delay, c, e);
    assert [e, f][1..] == [f] && [f][1..] == [];
    assert Run(delay, d, [f]) == Run(delay, Next(delay, d, f), []);
    assert IsRun(delay, d, [f]) <==> CanHappen(d, f);
  }

  // ---------------------------------------------------------------- pacing of a long outage

  function Attempted(c: Ctx, e: Event): nat {
    if e.ReconnectFires? && c.link == Disconnected then 1 else 0
  }

  /** The reconnect scans attempted during a run. */
  function Scans(delay: Backoff, c: Ctx, events: seq<Event>): nat
    decreases |events|
  {
    if events == [] then 0
    else Attempted(c, events[0]) + Scans(delay, Next(delay, c, events[0]), events[1..])
  }

  predicate Paced(delay: Backoff, c: Ctx, least: nat) {
    && least <= delay(c.attempts)
    && (c.timer.Some? ==> least <= c.timer.value <= delay(c.attempts))
  }

  lemma ReconnectPaced(delay: Backoff, c: Ctx, accepted: bool, least: nat)
    requires Growing(delay) && Paced(delay, c, least) && (c.link == Disconnected ==> c.attempts + 1 < U32)
    ensures var d := ReconnectScan(delay, c.(timer := None), accepted);
            d.attempts == c.attempts + (if c.link == Disconnected then 1 else 0) && Paced(delay, d, least)
  {
    assert delay(c.attempts) <= delay(c.attempts + 1);
  }

  lemma ScanCounts(delay: Backoff, c: Ctx, managers: bool, found: Found)
    ensures Next(delay, c, ScanDone(managers, found)).attempts == c.attempts
  {
  }

  lemma OthersCount(delay: Backoff, c: Ctx, e: Event)
    requires e != GotIp && !e.ReconnectFires?
    ensures Next(delay, c, e).attempts == c.attempts
  {
    if e.ScanDone? {
      ScanCounts(delay, c, e.managers, e.found);
    }
  }

  lemma StepPaced(delay: Backoff, c: Ctx, e: Event, least: nat)
    requires Growing(delay) && Paced(delay, c, least) && e != GotIp && c.attempts + Attempted(c, e) < U32
    ensures var d := Next(delay, c, e); d.attempts == c.attempts + Attempted(c, e) && Paced(delay, d, least)
  {
    if e.ReconnectFires? {
      ReconnectPaced(delay, c, e.accepted, least);
    } else {
      OthersCount(delay, c, e);
      StepKeepsRetry(delay, c, e);
      PacedAgain(delay, c, Next(delay, c, e), least);
    }
  }

  lemma PacedAgain(delay: Backoff, c: Ctx, d: Ctx, least: nat)
    requires Paced(delay, c, least) && d.attempts == c.attempts
    requires d.timer.Some? && d.timer != c.timer ==> d.timer == Some(delay(d.attempts))
    ensures Paced(delay, d, least)
  {
  }

  /** Between two addresses, as long as the 32-bit counter does not wrap: it counts the
      reconnect scans attempted, and no retry is armed with a shorter delay than before. */
  lemma {:induction false} DelaysOnlyGrow(delay: Backoff, c: Ctx, events: seq<Event>, least: nat)
    requires GotIp !in events && c.attempts + Scans(delay, c, events) < U32
    requires Growing(delay) && Paced(delay, c, least)
    ensures var d := Run(delay, c, events); d.attempts == c.attempts + Scans(delay, c, events) && Paced(delay, d, least)
    decreases |events|
  {
    if events != [] {
      var d := Next(delay, c, events[0]);
      StepPaced(delay, c, events[0], least);
      DelaysOnlyGrow(delay, d, events[1..], least);
    }
  }

  lemma RetriesSlowDown(cfg: Config, c: Ctx, events: seq<Event>)
    requires GotIp !in events && c.attempts + Scans(BackoffOf(cfg), c, events) < U32
    requires c.timer.Some? && c.timer.value <= Delay(cfg, c.attempts)
    ensures var d := Run(BackoffOf(cfg), c, events);
            d.timer.Some? ==> c.timer.value <= d.timer.value <= Delay(cfg, d.attempts)
  {
    BackoffFacts(cfg);
    DelaysOnlyGrow(BackoffOf(cfg), c, events, c.timer.value);
  }

  /** A whole outage: from a context without a retry and without attempts, as a start or an
      address leaves it, no retry is armed with a shorter delay than one before it. */
  lemma OutageSlowsDown(cfg: Config, c: Ctx, middle: seq<Event>, last: seq<Event>)
    requires c.timer == None && c.attempts == 0 && GotIp !in middle && GotIp !in last
    requires var a := Run(BackoffOf(cfg), c, middle);
             Scans(BackoffOf(cfg), c, middle) + Scans(BackoffOf(cfg), a, last) < U32
    ensures var a := Run(BackoffOf(cfg), c, middle); var b := Run(BackoffOf(cfg), a, last);
            && a.attempts == Scans(BackoffOf(cfg), c, middle)
            && (a.timer.Some? ==> a.timer.value <= Delay(cfg, a.attempts))
            && (a.timer.Some? && b.timer.Some? ==> a.timer.value <= b.timer.value <= Delay(cfg, b.attempts))
  {
    BackoffFacts(cfg);
    DelaysOnlyGrow(BackoffOf(cfg), c, middle, Delay(cfg, 0));
    var a := Run(BackoffOf(cfg), c, middle);
    if a.timer.Some? {
      RetriesSlowDown(cfg, a, last);
    }
  }

  /** Where an outage begins in a run: at the start, or at any address. */
  lemma OutageBegins(cfg: Config, events: seq<Event>)
    requires IsRun(BackoffOf(cfg), Fresh, events)
    ensures Fresh.timer == None && Fresh.attempts == 0
    ensures var c := Run(BackoffOf(cfg), Fresh, events + [GotIp]); c.timer == None && c.attempts == 0
  {
    RunThen(BackoffOf(cfg), Fresh, events, GotIp);
  }

  // ---------------------------------------------------------------- choosing a network

  datatype AccessPoint = AccessPoint(ssid: string, rssi: int)

  datatype Network = Network(ssid: string, priority: nat)

  const RSSI_FLOOR := -100

  predicate IsKnown(ap: AccessPoint, nets: seq<Network>) {
    exists k :: 0 <= k < |nets| && nets[k].ssid == ap.ssid
  }

  /** A known network is heard above the floor. */
  predicate Hears(aps: seq<AccessPoint>, nets: seq<Network>) {
    exists i :: 0 <= i < |aps| && IsKnown(aps[i], nets) && aps[i].rssi > RSSI_FLOOR
  }

  predicate Visible(k: int, aps: seq<AccessPoint>, nets: seq<Network>)
    requires 0 <= k < |nets|
  {
    exists i :: 0 <= i < |aps| && aps[i].ssid == nets[k].ssid && aps[i].rssi > RSSI_FLOOR
  }

  /** Access point `i` is of a known network, above the floor and heard best, the first such. */
  predicate IsLoudest(i: int, aps: seq<AccessPoint>, nets: seq<Network>) {
    && 0 <= i < |aps| && IsKnown(aps[i], nets) && aps[i].rssi > RSSI_FLOOR
    && forall j :: 0 <= j < |aps| && IsKnown(aps[j], nets) ==>
         aps[j].rssi <= aps[i].rssi && (j < i ==> aps[j].rssi < aps[i].rssi)
  }

  /** The first network of that name. */
  predicate IsFirst(best: int, nets: seq<Network>, ssid: string) {
    0 <= best < |nets| && nets[best].ssid == ssid && forall k :: 0 <= k < best ==> nets[k].ssid != ssid
  }

  /** Network `best` is that of the best heard access point. */
  predicate IsBest(best: int, aps: seq<AccessPoint>, nets: seq<Network>) {
    exists i :: 0 <= i < |aps| && IsLoudest(i, aps, nets) && IsFirst(best, nets, aps[i].ssid)
  }

  /** What the loops have found among the first `n` access points. */
  predicate BestSoFar(best: int, rssi: int, from: int, n: int, aps: seq<AccessPoint>, nets: seq<Network>)
    requires n <= |aps|
  {
    if best == -1 then
      rssi == RSSI_FLOOR && forall j :: 0 <= j < n && IsKnown(aps[j], nets) ==> aps[j].rssi <= RSSI_FLOOR
    else
      && 0 <= from < n && aps[from].rssi == rssi > RSSI_FLOOR && IsFirst(best, nets, aps[from].ssid)
      && forall j :: 0 <= j < n && IsKnown(aps[j], nets) ==>
           aps[j].rssi <= rssi && (j < from ==> aps[j].rssi < rssi)
  }

  /** A single network is heard at anything above -100 dBm. */
  lemma FaintestHeard(ssid: string, priority: nat, rssi: int)
    ensures Hears([AccessPoint(ssid, rssi)], [Network(ssid, priority)]) <==> rssi > -100
  {
    var aps, nets := [AccessPoint(ssid, rssi)], [Network(ssid, priority)];
    assert nets[0].ssid == aps[0].ssid && IsKnown(aps[0], nets);
  }

  method SelectBest(aps: seq<AccessPoint>, nets: seq<Network>) returns (best: int)
    ensures if Hears(aps, nets) then IsBest(best, aps, nets) else best == -1
  {
    best := -1;
    var bestRssi := RSSI_FLOOR;
    var i := 0;
    ghost var from := -1;
    while i < |aps|
      invariant 0 <= i <= |aps| && -1 <= best < |nets|
      invariant BestSoFar(best, bestRssi, from, i, aps, nets)
    {
      ghost var before, beforeRssi, beforeFrom := best, bestRssi, from;
      var k := 0;
      while k < |nets|
        invariant 0 <= k <= |nets| && -1 <= best < |nets|
        invariant if best == before && bestRssi == beforeRssi && from == beforeFrom
                  then aps[i].rssi <= bestRssi || forall l :: 0 <= l < k ==> nets[l].ssid != aps[i].ssid
                  else
                    && from == i && bestRssi == aps[i].rssi > beforeRssi
                    && best < k && IsFirst(best, nets, aps[i].ssid)
      {
        if nets[k].ssid == aps[i].ssid && aps[i].rssi > bestRssi {
          bestRssi, best, from := aps[i].rssi, k, i;
        }
        k := k + 1;
      }
      i := i + 1;
    }
    assert best != -1 ==> IsLoudest(from, aps, nets);
  }

  /** What the documentation promises: of the visible networks, one of the highest priority. */
  predicate HighestPriority(best: int, aps: seq<AccessPoint>, nets: seq<Network>) {
    && 0 <= best < |nets| && Visible(best, aps, nets)
    && forall k :: 0 <= k < |nets| && Visible(k, aps, nets) ==> nets[k].priority <= nets[best].priority
  }

  /** In one scan, the choice keeps the promise exactly when the best heard access point's
      network has the highest priority of those heard at all. */
  lemma ChoiceHasPriority(i: int, best: int, aps: seq<AccessPoint>, nets: seq<Network>)
    requires IsLoudest(i, aps, nets) && IsFirst(best, nets, aps[i].ssid)
    ensures HighestPriority(best, aps, nets) <==>
            forall j, k :: && 0 <= j < |aps| && aps[j].rssi > RSSI_FLOOR
                           && 0 <= k < |nets| && nets[k].ssid == aps[j].ssid ==>
              nets[k].priority <= nets[best].priority
  {
    assert Visible(best, aps, nets);
  }

  /** The first entry of its name. */
  predicate FirstOfName(k: int, nets: seq<Network>) {
    0 <= k < |nets| && IsFirst(k, nets, nets[k].ssid)
  }

  /** In every scan, exactly when no entry's priority is above that of an entry that can be
      chosen: for networks of different names, when all priorities are the same. */
  lemma PriorityAlwaysWins(nets: seq<Network>)
    ensures (forall aps, best :: IsBest(best, aps, nets) ==> HighestPriority(best, aps, nets)) <==>
            (forall k, l :: FirstOfName(k, nets) && 0 <= l < |nets| ==> nets[l].priority <= nets[k].priority)
  {
    if forall k, l :: FirstOfName(k, nets) && 0 <= l < |nets| ==> nets[l].priority <= nets[k].priority {
      forall aps, best | IsBest(best, aps, nets) ensures HighestPriority(best, aps, nets) {
        assert FirstOfName(best, nets) && Visible(best, aps, nets);
      }
    } else {
      var k, l :| FirstOfName(k, nets) && 0 <= l < |nets| && nets[l].priority > nets[k].priority;
      var aps := LowerPriorityWins(nets, k, l);
      assert IsBest(k, aps, nets) && !HighestPriority(k, aps, nets);
    }
  }

  /** A scan in which the network of lower priority, being nearer, is chosen. */
  lemma LowerPriorityWins(nets: seq<Network>, k: int, l: int) returns (aps: seq<AccessPoint>)
    requires FirstOfName(k, nets) && 0 <= l < |nets| && nets[l].priority > nets[k].priority
    ensures aps == [AccessPoint(nets[k].ssid, -40), AccessPoint(nets[l].ssid, -60)]
    ensures IsBest(k, aps, nets) && !HighestPriority(k, aps, nets)
  {
    aps := [AccessPoint(nets[k].ssid, -40), AccessPoint(nets[l].ssid, -60)];
    assert IsKnown(aps[0], nets) && IsLoudest(0, aps, nets);
    assert aps[1].ssid == nets[l].ssid && Visible(l, aps, nets);
  }

  /** What the scan's records and the driver's answers amount to. */
  function FoundOf(records: Option<seq<AccessPoint>>, nets: seq<Network>, configured: bool, connecting: bool): Found {
    match records
    case None => Unreadable
    case Some(aps) => if Hears(aps, nets) then Best(configured, connecting) else NoneKnown
  }

  // ---------------------------------------------------------------- the component

  /** The source's context; `trace` records every event in order. */
  class Manager {
    const cfg: Config
    const nets: seq<Network>
    var link: Link
    var timer: Option<nat>
    var timeoutArmed: bool
    var attempts: Uint32
    var callerScan: bool
    var scanning: bool
    var finishing: nat
    var rescheduling: nat
    var stationUp: bool
    var asked: bool
    var announced: bool
    /** The milliseconds the connect timeout was last armed with. */
    var timeout: nat
    /** The network the driver was last configured for, by its place in `nets`. */
    var target: Option<nat>
    ghost var trace: seq<Event>

    ghost function Abstract(): Ctx
      reads this
    {
      Ctx(link, timer, timeoutArmed, attempts, callerScan, scanning, finishing, rescheduling, stationUp, asked,
          announced)
    }

    /** The context is where the recorded run leads. */
    ghost predicate Valid()
      reads this
    {
      && IsRun(BackoffOf(cfg), Fresh, trace) && Run(BackoffOf(cfg), Fresh, trace) == Abstract()
      && (timeoutArmed ==> timeout == cfg.connectionTimeout)
    }

    /** One more event of the run, and the context it leads to. */
    twostate predicate Took(e: Event)
      reads this
    {
      && Valid() && trace == old(trace) + [e] && Abstract() == Next(BackoffOf(cfg), old(Abstract()), e)
      && (target == old(target) || e.ScanDone?)
    }

    ghost method Record(e: Event)
      requires IsRun(BackoffOf(cfg), Fresh, trace) && CanHappen(Run(BackoffOf(cfg), Fresh, trace), e)
      requires Abstract() == Next(BackoffOf(cfg), Run(BackoffOf(cfg), Fresh, trace), e)
      requires timeoutArmed ==> timeout == cfg.connectionTimeout
      modifies this`trace
      ensures Valid() && trace == old(trace) + [e]
    {
      RunThen(BackoffOf(cfg), Fresh, trace, e);
      trace := trace + [e];
    }

    /** Whatever happened to a manager, it is not wedged, its retry keeps to the bounds, and
        what it last told its subscribers is what its events say. */
    lemma Sound()
      requires Valid()
      ensures Reachable(Abstract(), Cap(cfg)) && Tracks(Abstract(), trace)
    {
      RunReaches(cfg, trace);
      SilentLoss(cfg, trace);
    }

    constructor (cfg: Config, nets: seq<Network>)
      ensures this.cfg == Clamped(cfg) && this.nets == nets && Valid() && trace == []
      ensures this.cfg.scanInterval == if cfg.scanInterval < 1000 then 1000 else cfg.scanInterval
      ensures this.cfg.connectionTimeout == if cfg.connectionTimeout < 1000 then 1000 else cfg.connectionTimeout
      ensures this.cfg.reconnectDelay == if cfg.reconnectDelay < 1000 then 1000 else cfg.reconnectDelay
      ensures Abstract() == Ctx(Disconnected, None, false, 0, false, false, 0, 0, false, false, false) && target == None
    {
      this.cfg := Config(if cfg.scanInterval < MIN_SCAN_INTERVAL_MS then MIN_SCAN_INTERVAL_MS else cfg.scanInterval,
                         if cfg.connectionTimeout < MIN_CONNECTION_TIMEOUT_MS then MIN_CONNECTION_TIMEOUT_MS
                         else cfg.connectionTimeout,
                         if cfg.reconnectDelay < MIN_RECONNECT_DELAY_MS then MIN_RECONNECT_DELAY_MS
                         else cfg.reconnectDelay);
      this.nets := nets;
      link, timer, timeoutArmed, attempts := Disconnected, None, false, 0;
      callerScan, scanning, finishing, rescheduling := false, false, 0, 0;
      stationUp, asked, announced, trace := false, false, false, [];
      timeout, target := 0, None;
    }

    /** The retry, armed with the delay for the scans attempted so far. */
    method ScheduleReconnect()
      modifies this`timer
      ensures Abstract() == Schedule(BackoffOf(cfg), old(Abstract())) && timer == Some(Delay(cfg, attempts))
      ensures timer.Some? && 1000 <= timer.value <= Cap(cfg)
    {
      var cap := if cfg.scanInterval < MIN_SCAN_INTERVAL_MS then MIN_SCAN_INTERVAL_MS else cfg.scanInterval;
      var delay: nat := cfg.reconnectDelay;
      if delay < MIN_RECONNECT_DELAY_MS {
        delay := MIN_RECONNECT_DELAY_MS;
      }
      var shift := if attempts < SHIFT_BOUND then attempts else SHIFT_BOUND;
      delay := Shifted(delay, shift);
      if delay > cap {
        delay := cap;
      }
      timer := Some(delay);
      DelayBounds(cfg, attempts);
    }

    method ScanAndConnectCall(accepted: bool) returns (ok: bool)
      requires Valid() && (accepted ==> stationUp)
      modifies this
      ensures Took(ScanAndConnect(accepted))
      ensures ok <==> old(link) != Connected && accepted
      ensures Abstract() == if ok then old(Abstract()).(asked := true, scanning := true)
                            else if old(link) == Connected then old(Abstract()).(asked := true)
                            else old(Abstract()).(asked := true, timer := Some(Delay(cfg, attempts)))
    {
      asked := true;
      if link != Connected {
        if accepted {
          scanning := true;
        } else {
          ScheduleReconnect();
        }
      }
      ok := link != Connected && accepted;
      Record(ScanAndConnect(accepted));
    }

    /** A caller's own scan: refused while another is running, otherwise flagged before it
        starts. */
    method BeginCallerScan() returns (ok: bool)
      requires Valid()
      modifies this`callerScan, this`trace
      ensures ok <==> !old(callerScan)
      ensures ok ==> Took(CallerScans) && callerScan
      ensures !ok ==> unchanged(this)
    {
      if callerScan {
        return false;
      }
      callerScan := true;
      Record(CallerScans);
      return true;
    }

    method WakeCaller()
      requires Valid() && callerScan
      modifies this
      ensures Took(CallerWakes)
      ensures Abstract() == old(Abstract()).(callerScan := false, finishing := old(finishing) + 1)
    {
      callerScan := false;
      finishing := finishing + 1;
      Record(CallerWakes);
    }

    method CallerChecksLink()
      requires Valid() && finishing > 0
      modifies this
      ensures Took(CallerChecks)
      ensures link == old(link) && finishing == old(finishing) - 1
      ensures rescheduling == old(rescheduling) + if link == Disconnected then 1 else 0
    {
      finishing := finishing - 1;
      if link == Disconnected {
        rescheduling := rescheduling + 1;
      }
      Record(CallerChecks);
    }

    method CallerPutsRetryBack()
      requires Valid() && rescheduling > 0
      modifies this
      ensures Took(CallerReschedules)
      ensures Abstract() == old(Abstract()).(rescheduling := old(rescheduling) - 1, timer := Some(Delay(cfg, attempts)))
    {
      rescheduling := rescheduling - 1;
      ScheduleReconnect();
      Record(CallerReschedules);
    }

    /** What the retry's callback runs. */
    method StartReconnectScan(accepted: bool)
      modifies this`timer, this`attempts, this`scanning
      ensures attempts == if link == Disconnected then Incremented(old(attempts)) else old(attempts)
      ensures scanning == (old(scanning) || (link == Disconnected && accepted))
      ensures timer == if link == Connected || (link == Disconnected && accepted) then old(timer)
                       else Some(Delay(cfg, attempts))
    {
      if link == Connecting {
        ScheduleReconnect();
        return;
      }
      if link != Disconnected {
        return;
      }
      attempts := if attempts == U32 - 1 then 0 else attempts + 1;
      if accepted {
        scanning := true;
      } else {
        ScheduleReconnect();
      }
    }

    /** A retry that fires either looks for a network or is armed again. */
    method ReconnectTimer(accepted: bool)
      requires Valid() && timer.Some? && (accepted ==> stationUp)
      modifies this`timer, this`attempts, this`scanning, this`trace
      ensures Took(ReconnectFires(accepted))
      ensures attempts == if link == Disconnected then Incremented(old(attempts)) else old(attempts)
      ensures scanning == (old(scanning) || (link == Disconnected && accepted))
      ensures timer == if link == Connected || (link == Disconnected && accepted) then None
                       else Some(Delay(cfg, attempts))
    {
      timer := None;
      StartReconnectScan(accepted);
      Record(ReconnectFires(accepted));
    }

    /** The attempt is over and will be retried; the subscribers hear nothing of it. */
    method ConnectTimeout()
      requires Valid() && timeoutArmed
      modifies this
      ensures Took(TimeoutFires)
      ensures Abstract() == old(Abstract()).(link := Disconnected, timeoutArmed := false,
                                             timer := Some(Delay(cfg, attempts)))
    {
      timeoutArmed := false;
      link := Disconnected;
      ScheduleReconnect();
      Record(TimeoutFires);
    }

    method ConnectToBest(best: int, configured: bool, connecting: bool)
      requires 0 <= best < |nets| && (timeoutArmed ==> timeout == cfg.connectionTimeout)
      modifies this
      ensures Abstract() == Connect(BackoffOf(cfg), old(Abstract()), Best(configured, connecting))
      ensures trace == old(trace) && (timeoutArmed ==> timeout == cfg.connectionTimeout)
      ensures target == if configured then Some(best) else old(target)
    {
      link := Connecting;
      if !configured {
        link := Disconnected;
        ScheduleReconnect();
        return;
      }
      target := Some(best);
      if !connecting {
        link := Disconnected;
        ScheduleReconnect();
        return;
      }
      timeoutArmed, timeout := true, cfg.connectionTimeout;
    }

    method ConnectFromScanResults(records: Option<seq<AccessPoint>>, configured: bool, connecting: bool)
      requires timeoutArmed ==> timeout == cfg.connectionTimeout
      modifies this
      ensures Abstract() == Connect(BackoffOf(cfg), old(Abstract()), FoundOf(records, nets, configured, connecting))
      ensures trace == old(trace) && (timeoutArmed ==> timeout == cfg.connectionTimeout)
      ensures records.Some? && Hears(records.value, nets) && configured ==>
                target.Some? && IsBest(target.value, records.value, nets)
      ensures records.None? || !Hears(records.value, nets) || !configured ==> target == old(target)
    {
      if records.None? {
        ScheduleReconnect();
        return;
      }
      var best := SelectBest(records.value, nets);
      if best >= 0 {
        ConnectToBest(best, configured, connecting);
      } else {
        ScheduleReconnect();
      }
    }

    method OnStaStart()
      requires Valid() && !stationUp
      modifies this
      ensures Took(StaStart) && Abstract() == old(Abstract()).(link := Disconnected, stationUp := true)
    {
      stationUp := true;
      link := Disconnected;
      Record(StaStart);
    }

    method OnStaConnected()
      requires Valid() && stationUp
      modifies this
      ensures Took(StaConnected) && Abstract() == old(Abstract()).(timeoutArmed := true)
      ensures timeout == cfg.connectionTimeout
    {
      timeoutArmed, timeout := true, cfg.connectionTimeout;
      Record(StaConnected);
    }

    /** A roam from a link that is up is waited for; any other disconnect is retried and the
        subscribers are told. */
    method OnStaDisconnected(roaming: bool)
      requires Valid() && stationUp
      modifies this
      ensures Took(StaDisconnected(roaming))
      ensures Abstract() ==
              if roaming && old(link) == Connected then old(Abstract()).(link := Connecting, timeoutArmed := true)
              else old(Abstract()).(link := Disconnected, timeoutArmed := false, announced := false,
                                    timer := Some(Delay(cfg, attempts)))
      ensures roaming && old(link) == Connected ==> timeout == cfg.connectionTimeout
    {
      var wasUp := link == Connected;
      if roaming && wasUp {
        link := Connecting;
        timeoutArmed, timeout := true, cfg.connectionTimeout;
      } else {
        link := Disconnected;
        timeoutArmed := false;
        ScheduleReconnect();
        announced := false;
      }
      Record(StaDisconnected(roaming));
    }

    /** The results go to a caller's scan, or to a disconnected station, which then connects
        or retries; otherwise they are dropped. */
    method OnScanDone(managers: bool, records: Option<seq<AccessPoint>>, configured: bool, connecting: bool)
      requires Valid() && stationUp && (managers ==> scanning)
      modifies this
      ensures Took(ScanDone(managers, FoundOf(records, nets, configured, connecting)))
      ensures !callerScan && old(link) == Disconnected ==>
                if link == Disconnected then timer.Some? else link == Connecting && timeoutArmed
      ensures callerScan || old(link) != Disconnected ==>
                link == old(link) && timer == old(timer) && target == old(target)
      ensures !callerScan && old(link) == Disconnected && records.Some? && Hears(records.value, nets) && configured ==>
                target.Some? && IsBest(target.value, records.value, nets)
    {
      if managers {
        scanning := false;
      }
      if !callerScan && link == Disconnected {
        ConnectFromScanResults(records, configured, connecting);
      }
      Record(ScanDone(managers, FoundOf(records, nets, configured, connecting)));
    }

    method OnGotIp()
      requires Valid() && stationUp
      modifies this
      ensures Took(GotIp)
      ensures Abstract() == old(Abstract()).(link := Connected, attempts := 0, timeoutArmed := false, timer := None,
                                             announced := true)
    {
      link := Connected;
      attempts := 0;
      announced := true;
      timeoutArmed := false;
      timer := None;
      Record(GotIp);
    }

    method OnLostIp()
      requires Valid() && stationUp
      modifies this
      ensures Took(LostIp)
      ensures Abstract() == old(Abstract()).(link := Disconnected, announced := false,
                                             timer := Some(Delay(cfg, attempts)))
    {
      link := Disconnected;
      ScheduleReconnect();
      announced := false;
      Record(LostIp);
    }
  }
}
