/**
 The liveness watcher: a tick that judges progress, one probe at a time, and a verdict after
 enough consecutive misses. Safety over any order of events, then two timed results: a dead
 daemon is found within a bound, and a daemon that says anything is not declared dead.
 */
module RpcHeartbeat {
  import opened Lru

  datatype Config = Config(idleMs: nat, probeTimeoutMs: nat, maxMisses: nat, tickMs: nat, stallGraceMs: nat)

  const Defaults := Config(30_000, 15_000, 3, 10_000, 60_000)

  const ASSUMED_MIN_BYTES_PER_MS := 8

  datatype OldestCall = OldestCall(ageMs: int, requestBytes: nat)
  datatype Reading = Reading(backlog: nat, msSinceLastByte: int, oldest: Option<OldestCall>)

  /** `lastBacklog` None is the initial infinity. */
  datatype Beat = Beat(timer: Option<int>, probing: bool, misses: nat, stopped: bool, lastBacklog: Option<nat>)

  const Fresh := Beat(None, false, 0, false, None)

  predicate Draining(last: Option<nat>, r: Reading) {
    r.backlog > 0 && (last.None? || r.backlog < last.value)
  }

  /** Still inside its grace; the allowance is bytes over the assumed throughput, compared without rounding. */
  predicate WithinGrace(cfg: Config, call: OldestCall) {
    ASSUMED_MIN_BYTES_PER_MS * call.ageMs < ASSUMED_MIN_BYTES_PER_MS * cfg.stallGraceMs + call.requestBytes
  }

  predicate MakingProgress(cfg: Config, last: Option<nat>, r: Reading) {
    Draining(last, r) || r.msSinceLastByte < cfg.idleMs || (r.oldest.Some? && WithinGrace(cfg, r.oldest.value))
  }

  /** How a probe ends. `Unanswered` is the time limit, a failed write or a closed stream. */
  datatype Outcome = Resolved | ErrorReply | Unanswered

  datatype Event = Start(now: int) | Stop | Tick(now: int, reading: Reading) | ProbeEnds(now: int, outcome: Outcome)

  /** What the outside sees happen; a miss and the verdict say how their probe ended. */
  datatype Seen = Nothing | Progress | Probed | Answered | Missed(how: Outcome) | Died(how: Outcome)

  function Schedule(cfg: Config, b: Beat, now: int): Beat {
    if b.stopped then b else b.(timer := Some(now + cfg.tickMs))
  }

  function Step(cfg: Config, b: Beat, e: Event): (Beat, Seen) {
    match e
    case Start(now) => (if b.timer.Some? then b else Schedule(cfg, b, now), Nothing)
    case Stop => (b.(stopped := true, timer := None), Nothing)
    case Tick(now, r) =>
      var fired := b.(timer := None);
      if b.stopped then (fired, Nothing)
      else if b.probing then (Schedule(cfg, fired, now), Nothing)
      else if MakingProgress(cfg, b.lastBacklog, r) then
        (Schedule(cfg, fired.(misses := 0, lastBacklog := Some(r.backlog)), now), Progress)
      else (fired.(probing := true, lastBacklog := Some(r.backlog)), Probed)
    case ProbeEnds(now, outcome) =>
      if !b.probing then (b, Nothing)
      else if outcome.Resolved? then (Schedule(cfg, b.(misses := 0, probing := false), now), Answered)
      else if b.stopped then (b.(probing := false), Nothing)
      else if b.misses + 1 >= cfg.maxMisses then (b.(misses := b.misses + 1, probing := false, stopped := true, timer := None), Died(outcome))
      else (Schedule(cfg, b.(misses := b.misses + 1, probing := false), now), Missed(outcome))
  }

  /**
   When a tick sends a probe, in plain numbers: a running watch with no probe out, nothing queued that went
   out since the last look, the idle time up, and no call that could still be running at 8 bytes a millisecond.
   Whenever a tick looks at the line, it remembers the backlog.
   */
  lemma ProbedExactly(cfg: Config, b: Beat, now: int, r: Reading)
    ensures Step(cfg, b, Tick(now, r)).1 == Probed <==>
              && !b.stopped && !b.probing
              && (r.backlog == 0 || (b.lastBacklog.Some? && r.backlog >= b.lastBacklog.value))
              && r.msSinceLastByte >= cfg.idleMs
              && (r.oldest.None? || 8 * r.oldest.value.ageMs >= 8 * cfg.stallGraceMs + r.oldest.value.requestBytes)
    ensures Step(cfg, b, Tick(now, r)).1 == Probed ==> Step(cfg, b, Tick(now, r)).0.probing && Step(cfg, b, Tick(now, r)).0.misses == b.misses
    ensures !b.stopped && !b.probing ==> Step(cfg, b, Tick(now, r)).0.lastBacklog == Some(r.backlog)
    ensures !b.stopped && !b.probing && Step(cfg, b, Tick(now, r)).1 != Probed ==> Step(cfg, b, Tick(now, r)).0.misses == 0
  {
  }

  function Run(cfg: Config, b: Beat, events: seq<Event>): (Beat, seq<Seen>)
    decreases |events|
  {
    if events == [] then (b, [])
    else
      var (b1, seen) := Step(cfg, b, events[0]);
      var (b2, rest) := Run(cfg, b1, events[1..]);
      (b2, [seen] + rest)
  }

  // ---------------------------------------------------------------- safety, any order of events

  /** Misses at the end of a record, progress and answers breaking the run. */
  function MissesSince(record: seq<Seen>): nat {
    if record == [] then 0
    else
      match record[|record| - 1]
      case Missed(_) => MissesSince(record[..|record| - 1]) + 1
      case Died(_) => MissesSince(record[..|record| - 1]) + 1
      case Progress => 0
      case Answered => 0
      case _ => MissesSince(record[..|record| - 1])
  }

  ghost predicate Deaths(record: seq<Seen>, k: nat) {
    k < |record| && record[k].Died?
  }

  /** The counter is the record's count, and a recorded death has stopped the watcher. */
  ghost predicate Honest(cfg: Config, b: Beat, record: seq<Seen>) {
    && b.misses == MissesSince(record)
    && (!b.stopped ==> b.misses < cfg.maxMisses || b.misses == 0)
    && (forall k | Deaths(record, k) :: b.stopped && MissesSince(record[..k + 1]) >= cfg.maxMisses)
    && (forall j, k | Deaths(record, j) && Deaths(record, k) :: j == k)
  }

  lemma StepHonest(cfg: Config, b: Beat, record: seq<Seen>, e: Event)
    requires Honest(cfg, b, record)
    ensures Honest(cfg, Step(cfg, b, e).0, record + [Step(cfg, b, e).1])
    ensures b.stopped ==> Step(cfg, b, e).0.stopped && !Step(cfg, b, e).1.Died?
  {
    var (b', seen) := Step(cfg, b, e);
    OneMoreSeen(record, seen);
    assert b'.misses == MissesSince(record + [seen]);
    assert seen.Died? ==> !b.stopped && b'.stopped && b'.misses >= cfg.maxMisses;
    DeathsAfter(cfg, b, record, b', seen);
  }

  lemma {:induction false} OneMoreSeen(record: seq<Seen>, seen: Seen)
    ensures MissesSince(record + [seen]) ==
              match seen {
                case Missed(_) => MissesSince(record) + 1
                case Died(_) => MissesSince(record) + 1
                case Progress => 0
                case Answered => 0
                case _ => MissesSince(record)
              }
  {
    assert (record + [seen])[..|record|] == record;
  }

  lemma {:induction false} DeathsAfter(cfg: Config, b: Beat, record: seq<Seen>, b': Beat, seen: Seen)
    requires Honest(cfg, b, record) && (b.stopped ==> b'.stopped)
    requires seen.Died? ==> !b.stopped && b'.stopped && MissesSince(record + [seen]) >= cfg.maxMisses
    ensures var record' := record + [seen];
            && (forall k | Deaths(record', k) :: b'.stopped && MissesSince(record'[..k + 1]) >= cfg.maxMisses)
            && (forall j, k | Deaths(record', j) && Deaths(record', k) :: j == k)
  {
    var record' := record + [seen];
    assert record'[..|record'|] == record';
    forall k: nat | Deaths(record', k)
      ensures b'.stopped && MissesSince(record'[..k + 1]) >= cfg.maxMisses && (if k < |record| then Deaths(record, k) else k == |record| && seen.Died?)
    {
      if k < |record| {
        assert Deaths(record, k);
        assert record'[..k + 1] == record[..k + 1];
      }
    }
  }

  /**
   In any order of ticks, probe results, starts and stops: a verdict comes at most once, only after
   `maxMisses` failed probes with no progress and no answer between them, and never after a stop.
   An error reply is such a failure.
   */
  lemma {:induction false} RunHonest(cfg: Config, b: Beat, record: seq<Seen>, events: seq<Event>)
    requires Honest(cfg, b, record)
    ensures var (end, seen) := Run(cfg, b, events);
            && Honest(cfg, end, record + seen)
            && |seen| == |events|
            && (forall j, k | 0 <= j < k < |events| && events[j] == Stop :: !seen[k].Died?)
            && (b.stopped ==> end.stopped && forall k | 0 <= k < |seen| :: !seen[k].Died?)
    decreases |events|
  {
    if events == [] {
      assert record + [] == record;
    } else {
      var (b1, first) := Step(cfg, b, events[0]);
      var (end, rest) := Run(cfg, b1, events[1..]);
      StepHonest(cfg, b, record, events[0]);
      RunHonest(cfg, b1, record + [first], events[1..]);
      assert record + [first] + rest == record + ([first] + rest);
      var seen := [first] + rest;
      forall j, k | 0 <= j < k < |events| && events[j] == Stop ensures !seen[k].Died? {
        assert seen[k] == rest[k - 1];
        if j > 0 { assert events[1..][j - 1] == Stop; }
      }
    }
  }

  /** Exactly which event gives the verdict: the last failure of such a streak, however each of them failed. */
  lemma {:induction false} VerdictExactly(cfg: Config, b: Beat, record: seq<Seen>, e: Event)
    requires Honest(cfg, b, record)
    ensures Step(cfg, b, e).1.Died? <==>
              && e.ProbeEnds? && !e.outcome.Resolved? && b.probing && !b.stopped
              && MissesSince(record + [Missed(e.outcome)]) >= cfg.maxMisses
  {
    if e.ProbeEnds? { assert (record + [Missed(e.outcome)])[..|record|] == record; }
  }

  /** A tick that sends a probe, and that probe ending, once for each outcome. */
  function Probes(outcomes: seq<Outcome>, idle: Reading): seq<Event> {
    if outcomes == [] then [] else [Tick(0, idle), ProbeEnds(0, outcomes[0])] + Probes(outcomes[1..], idle)
  }

  lemma {:induction false} TwoSteps(cfg: Config, b: Beat, x: Event, y: Event, rest: seq<Event>)
    ensures var (b1, s1) := Step(cfg, b, x);
            var (b2, s2) := Step(cfg, b1, y);
            var (b3, s3) := Run(cfg, b2, rest);
            Run(cfg, b, [x, y] + rest) == (b3, [s1, s2] + s3)
  {
    var all := [x, y] + rest;
    assert all[1..] == [y] + rest && ([y] + rest)[1..] == rest;
    var (b1, s1) := Step(cfg, b, x);
    var (b2, s2) := Step(cfg, b1, y);
    var (b3, s3) := Run(cfg, b2, rest);
    assert Run(cfg, b1, [y] + rest) == (b3, [s2] + s3);
    assert [s1] + ([s2] + s3) == [s1, s2] + s3;
  }

  /**
   A daemon that answers is declared dead: on an idle line any `maxMisses` failures in a row give the
   verdict, in particular when the last of the probes was answered, with an error.
   */
  lemma {:induction false} AnyFailuresKill(cfg: Config, b: Beat, outcomes: seq<Outcome>, idle: Reading)
    requires !b.stopped && !b.probing && outcomes != [] && b.misses + |outcomes| == cfg.maxMisses
    requires forall i | 0 <= i < |outcomes| :: !outcomes[i].Resolved?
    requires idle.backlog == 0 && idle.oldest.None? && idle.msSinceLastByte >= cfg.idleMs
    ensures var (end, seen) := Run(cfg, b, Probes(outcomes, idle));
            end.stopped && seen != [] && seen[|seen| - 1] == Died(outcomes[|outcomes| - 1])
    decreases |outcomes|
  {
    var x, y, rest := Tick(0, idle), ProbeEnds(0, outcomes[0]), Probes(outcomes[1..], idle);
    TwoSteps(cfg, b, x, y, rest);
    var (b1, s1) := Step(cfg, b, x);
    var (b2, s2) := Step(cfg, b1, y);
    if |outcomes| == 1 {
      assert outcomes[1..] == [] && Run(cfg, b2, rest) == (b2, []);
    } else {
      AnyFailuresKill(cfg, b2, outcomes[1..], idle);
      assert outcomes[1..][|outcomes| - 2] == outcomes[|outcomes| - 1];
    }
  }

  lemma FreshHonest(cfg: Config)
    ensures Honest(cfg, Fresh, [])
  {
  }

  // ---------------------------------------------------------------- time

  /** When a probe sent at some instant ends, and how. */
  datatype ProbeResult = ProbeResult(at: int, outcome: Outcome)

  /** The connection as functions of time. */
  datatype World = World(
    lastByteAt: int -> int,
    backlog: int -> nat,
    oldest: int -> Option<(int, nat)>,   // when the oldest pending call other than a probe was sent, and its size
    probe: int -> ProbeResult)

  /** What a tick that may probe reads: no probe is out then, and an abandoned one has left no call behind. */
  function ReadAt(w: World, t: int): Reading {
    Reading(w.backlog(t), t - w.lastByteAt(t),
            match w.oldest(t) case None => None case Some(call) => Some(OldestCall(t - call.0, call.1)))
  }

  /** A probe is abandoned when its time is up. */
  function ProbeEnd(cfg: Config, w: World, t: int): ProbeResult {
    if t <= w.probe(t).at < t + cfg.probeTimeoutMs then w.probe(t) else ProbeResult(t + cfg.probeTimeoutMs, Unanswered)
  }

  /** The watcher between events: its next tick is due, or it has given its verdict. */
  datatype Watch = Waiting(due: int, misses: nat, lastBacklog: Option<nat>) | Dead(at: int)

  /** From one tick to the next, timers firing on time. */
  function NextTick(cfg: Config, w: World, s: Watch): Watch {
    match s
    case Dead(_) => s
    case Waiting(due, misses, last) =>
      var backlog := Some(w.backlog(due));
      if MakingProgress(cfg, last, ReadAt(w, due)) then Waiting(due + cfg.tickMs, 0, backlog)
      else Concluded(cfg, ProbeEnd(cfg, w, due), misses, backlog)
  }

  /** The watcher once its probe has ended. */
  function Concluded(cfg: Config, end: ProbeResult, misses: nat, backlog: Option<nat>): Watch {
    if end.outcome.Resolved? then Waiting(end.at + cfg.tickMs, 0, backlog)
    else if misses + 1 >= cfg.maxMisses then Dead(end.at)
    else Waiting(end.at + cfg.tickMs, misses + 1, backlog)
  }

  /** The timed step is the event steps of one tick and its probe, run on the clock. */
  lemma NextTickIsSteps(cfg: Config, w: World, due: int, misses: nat, last: Option<nat>)
    ensures var b := Beat(Some(due), false, misses, false, last);
            var (b1, seen1) := Step(cfg, b, Tick(due, ReadAt(w, due)));
            var end := ProbeEnd(cfg, w, due);
            var (b2, seen2) := if seen1 == Probed then Step(cfg, b1, ProbeEnds(end.at, end.outcome)) else (b1, seen1);
            match NextTick(cfg, w, Waiting(due, misses, last))
            case Waiting(due', misses', last') => b2 == Beat(Some(due'), false, misses', false, last') && !seen2.Died?
            case Dead(at) => b2.stopped && seen2.Died? && at == end.at
  {
  }

  function After(cfg: Config, w: World, s: Watch, n: nat): Watch {
    if n == 0 then s else NextTick(cfg, w, After(cfg, w, s, n - 1))
  }

  lemma {:induction false} AfterShift(cfg: Config, w: World, s: Watch, n: nat)
    ensures After(cfg, w, s, n + 1) == After(cfg, w, NextTick(cfg, w, s), n)
  {
    if n > 0 { AfterShift(cfg, w, s, n - 1); }
  }

  // ---------------------------------------------------------------- bounded detection

  /**
   From time `from` on nothing arrives, no probe is resolved, the backlog never shrinks, and every signal
   of life has run out by `expiry`: the idle time, and the grace of any call, probes aside, that is the oldest.
   */
  ghost predicate Silent(cfg: Config, w: World, from: int, expiry: int) {
    && (forall t | t >= from :: w.lastByteAt(t) + cfg.idleMs <= expiry)
    && (forall t | t >= from :: !w.probe(t).outcome.Resolved?)
    && (forall s, t | from <= s <= t :: w.backlog(s) <= w.backlog(t))
    && (forall t | t >= from && w.oldest(t).Some? ::
          ASSUMED_MIN_BYTES_PER_MS * (w.oldest(t).value.0 + cfg.stallGraceMs) + w.oldest(t).value.1
          <= ASSUMED_MIN_BYTES_PER_MS * expiry)
  }

  /** How late the verdict can still be, from a tick whose backlog comparison is meaningful. */
  function Deadline(cfg: Config, due: int, misses: nat, expiry: int): int {
    var full := cfg.maxMisses * (cfg.probeTimeoutMs + cfg.tickMs);
    if due < expiry then expiry + full
    else due + (cfg.maxMisses - misses) * (cfg.probeTimeoutMs + cfg.tickMs) - cfg.tickMs
  }

  lemma {:induction false} DeadByDeadline(cfg: Config, w: World, from: int, expiry: int, due: int, misses: nat, last: nat)
    returns (n: nat)
    requires Silent(cfg, w, from, expiry) && due >= from && cfg.tickMs > 0 && misses < cfg.maxMisses
    requires last <= w.backlog(due)
    ensures var end := After(cfg, w, Waiting(due, misses, Some(last)), n);
            && end.Dead? && end.at <= Deadline(cfg, due, misses, expiry)
    decreases if due < expiry then expiry - due else 0, cfg.maxMisses - misses
  {
    var s := Waiting(due, misses, Some(last));
    var next := NextTick(cfg, w, s);
    var r := ReadAt(w, due);
    assert !Draining(Some(last), r);
    if next.Dead? {
      n := 1;
      assert After(cfg, w, s, 0) == s;
      DeadlineStep(cfg, due, misses, expiry, next.at);
    } else {
      assert w.backlog(due) <= w.backlog(next.due);
      var m := DeadByDeadline(cfg, w, from, expiry, next.due, next.misses, w.backlog(due));
      n := m + 1;
      AfterShift(cfg, w, s, m);
      DeadlineShrinks(cfg, due, misses, next.due, next.misses, expiry);
    }
  }

  lemma MulStep(n: nat, u: nat)
    ensures (n + 1) * u == n * u + u
  {
  }

  lemma {:induction false} MulMonotone(m: nat, n: nat, u: nat)
    requires m <= n
    ensures m * u <= n * u
    decreases n - m
  {
    if m < n {
      MulStep(m, u);
      MulMonotone(m + 1, n, u);
    }
  }

  lemma DeadlineStep(cfg: Config, due: int, misses: nat, expiry: int, at: int)
    requires misses < cfg.maxMisses && at <= due + cfg.probeTimeoutMs
    ensures at <= Deadline(cfg, due, misses, expiry)
  {
    var u := cfg.probeTimeoutMs + cfg.tickMs;
    MulMonotone(1, cfg.maxMisses - misses, u);
    MulMonotone(1, cfg.maxMisses, u);
  }

  lemma DeadlineShrinks(cfg: Config, due: int, misses: nat, due': int, misses': nat, expiry: int)
    requires misses < cfg.maxMisses && misses' < cfg.maxMisses
    requires (due < expiry && misses' == 0 && due' == due + cfg.tickMs)
             || (misses' == misses + 1 && due <= due' <= due + cfg.probeTimeoutMs + cfg.tickMs)
    ensures Deadline(cfg, due', misses', expiry) <= Deadline(cfg, due, misses, expiry)
  {
    var u := cfg.probeTimeoutMs + cfg.tickMs;
    MulStep(cfg.maxMisses - misses - 1, u);
    MulMonotone(cfg.maxMisses - misses, cfg.maxMisses, u);
  }

  /**
   Bounded detection. Once everything is silent and the watcher waits for its next tick, the verdict
   comes within `maxMisses` rounds of tick and probe timeout after the later of the next tick and the
   moment the last signal of life runs out. The first tick may still mistake an old backlog for draining.
   */
  lemma DeadDaemonDetected(cfg: Config, w: World, from: int, expiry: int, due: int, misses: nat, last: Option<nat>)
    returns (n: nat)
    requires Silent(cfg, w, from, expiry) && due >= from && cfg.tickMs > 0 && misses < cfg.maxMisses
    ensures var end := After(cfg, w, Waiting(due, misses, last), n);
            && end.Dead?
            && end.at <= (if due < expiry then expiry else due) + cfg.maxMisses * (cfg.probeTimeoutMs + cfg.tickMs)
  {
    var u := cfg.probeTimeoutMs + cfg.tickMs;
    MulMonotone(cfg.maxMisses - misses, cfg.maxMisses, u);
    var s := Waiting(due, misses, last);
    if last.Some? && last.value <= w.backlog(due) {
      n := DeadByDeadline(cfg, w, from, expiry, due, misses, last.value);
    } else {
      var next := NextTick(cfg, w, s);
      if next.Dead? {
        n := 1;
        assert After(cfg, w, s, 0) == s;
        MulMonotone(1, cfg.maxMisses, u);
      } else {
        assert w.backlog(due) <= w.backlog(next.due);
        var m := DeadByDeadline(cfg, w, from, expiry, next.due, next.misses, w.backlog(due));
        n := m + 1;
        AfterShift(cfg, w, s, m);
        FirstTick(cfg, due, misses, next.due, next.misses, expiry);
      }
    }
  }

  /** The same with a probe in flight when silence begins: the next tick follows that probe's end. */
  lemma DeadDaemonDetectedMidProbe(cfg: Config, w: World, from: int, expiry: int, sent: int, misses: nat)
    returns (n: nat)
    requires Silent(cfg, w, from, expiry) && cfg.tickMs > 0 && misses < cfg.maxMisses
    requires sent <= from <= ProbeEnd(cfg, w, sent).at && !ProbeEnd(cfg, w, sent).outcome.Resolved?
    ensures var end := After(cfg, w, Concluded(cfg, ProbeEnd(cfg, w, sent), misses, Some(w.backlog(sent))), n);
            var due := ProbeEnd(cfg, w, sent).at + cfg.tickMs;
            && end.Dead?
            && end.at <= (if due < expiry then expiry else due) + cfg.maxMisses * (cfg.probeTimeoutMs + cfg.tickMs)
  {
    var end := ProbeEnd(cfg, w, sent);
    if misses + 1 >= cfg.maxMisses {
      n := 0;
      MulMonotone(0, cfg.maxMisses, cfg.probeTimeoutMs + cfg.tickMs);
    } else {
      n := DeadDaemonDetected(cfg, w, from, expiry, end.at + cfg.tickMs, misses + 1, Some(w.backlog(sent)));
    }
  }

  lemma FirstTick(cfg: Config, due: int, misses: nat, due': int, misses': nat, expiry: int)
    requires misses < cfg.maxMisses && misses' < cfg.maxMisses
    requires (misses' == 0 && due' == due + cfg.tickMs) || (misses' == misses + 1 && due <= due' <= due + cfg.probeTimeoutMs + cfg.tickMs)
    ensures Deadline(cfg, due', misses', expiry) <=
            (if due < expiry then expiry else due) + cfg.maxMisses * (cfg.probeTimeoutMs + cfg.tickMs)
  {
    var u := cfg.probeTimeoutMs + cfg.tickMs;
    if misses' == misses + 1 {
      DeadlineShrinks(cfg, due, misses, due', misses', expiry);
      MulMonotone(cfg.maxMisses - misses, cfg.maxMisses, u);
    }
  }

  // ---------------------------------------------------------------- no false alarm

  /** `lastByteAt` is the latest arrival so far: it is in the past and only an arrival moves it. */
  ghost predicate ByteClock(w: World) {
    && (forall t :: w.lastByteAt(t) <= t)
    && (forall s, t | s <= t && w.lastByteAt(t) <= s :: w.lastByteAt(s) == w.lastByteAt(t))
  }

  /**
   The current run of misses, from its first probe at `first` to its latest at `latest`:
   no byte has arrived since an idle time before the first.
   */
  ghost predicate QuietStreak(cfg: Config, w: World, s: Watch, first: int, latest: int) {
    s.Waiting? && s.misses > 0 ==>
      && first <= latest && latest + cfg.tickMs <= s.due <= latest + cfg.probeTimeoutMs + cfg.tickMs
      && w.lastByteAt(latest) <= first - cfg.idleMs
      && latest - first >= (s.misses - 1) * cfg.tickMs
  }

  /** What a verdict, or the run of misses so far, says about the wire. */
  ghost predicate Quiet(cfg: Config, w: World, s: Watch, first: int, latest: int) {
    match s
    case Waiting(_, _, _) => QuietStreak(cfg, w, s, first, latest)
    case Dead(at) =>
      && first <= latest <= at <= latest + cfg.probeTimeoutMs
      && w.lastByteAt(latest) <= first - cfg.idleMs
      && latest - first >= (cfg.maxMisses - 1) * cfg.tickMs
  }

  lemma QuietStep(cfg: Config, w: World, s: Watch, first: int, latest: int) returns (first': int, latest': int)
    requires ByteClock(w) && cfg.probeTimeoutMs + cfg.tickMs <= cfg.idleMs && cfg.maxMisses > 0
    requires Quiet(cfg, w, s, first, latest)
    ensures Quiet(cfg, w, NextTick(cfg, w, s), first', latest')
  {
    first', latest' := first, latest;
    if s.Waiting? && !MakingProgress(cfg, s.lastBacklog, ReadAt(w, s.due)) {
      first', latest' := if s.misses == 0 then s.due else first, s.due;
      StreakGrows(cfg, w, s, first, latest);
    }
  }

  /**
   No false alarm. If a round of probe and tick fits into the idle time, a verdict means that no byte,
   whatever it carried, arrived from an idle time before the first of the missed probes until the last
   of them was sent, a stretch of at least `maxMisses - 1` ticks more than the idle time.
   */
  lemma {:induction false} VerdictMeansSilence(cfg: Config, w: World, s: Watch, n: nat) returns (first: int, latest: int)
    requires ByteClock(w) && cfg.probeTimeoutMs + cfg.tickMs <= cfg.idleMs && cfg.maxMisses > 0
    requires s.Waiting? && s.misses == 0
    ensures Quiet(cfg, w, After(cfg, w, s, n), first, latest)
  {
    if n == 0 {
      first, latest := 0, 0;
    } else {
      first, latest := VerdictMeansSilence(cfg, w, s, n - 1);
      first, latest := QuietStep(cfg, w, After(cfg, w, s, n - 1), first, latest);
    }
  }

  lemma StreakGrows(cfg: Config, w: World, s: Watch, first: int, latest: int)
    requires ByteClock(w) && cfg.probeTimeoutMs + cfg.tickMs <= cfg.idleMs && cfg.maxMisses > 0
    requires s.Waiting? && QuietStreak(cfg, w, s, first, latest)
    requires !MakingProgress(cfg, s.lastBacklog, ReadAt(w, s.due))
    ensures var first' := if s.misses == 0 then s.due else first;
            var next := NextTick(cfg, w, s);
            && w.lastByteAt(s.due) <= first' - cfg.idleMs && first' <= s.due
            && s.due - first' >= s.misses * cfg.tickMs
            && (next.Waiting? ==> QuietStreak(cfg, w, next, first', s.due))
            && (next.Dead? ==> s.due <= next.at <= s.due + cfg.probeTimeoutMs && s.misses >= cfg.maxMisses - 1
                               && s.due - first' >= (cfg.maxMisses - 1) * cfg.tickMs)
  {
    var first' := if s.misses == 0 then s.due else first;
    assert w.lastByteAt(s.due) <= s.due - cfg.idleMs;
    if s.misses > 0 {
      assert w.lastByteAt(s.due) <= latest;
      assert w.lastByteAt(latest) == w.lastByteAt(s.due);
      MulStep(s.misses - 1, cfg.tickMs);
    }
    if s.misses >= cfg.maxMisses - 1 {
      MulMonotone(cfg.maxMisses - 1, s.misses, cfg.tickMs);
    }
  }

  /** A reply, error or not, is a byte arriving. */
  ghost predicate RepliesArrive(cfg: Config, w: World) {
    forall t :: !ProbeEnd(cfg, w, t).outcome.Unanswered? ==> w.lastByteAt(ProbeEnd(cfg, w, t).at) == ProbeEnd(cfg, w, t).at
  }

  /** An error reply that does not give the verdict makes the next tick see progress. */
  lemma ErrorReplyEndsStreak(cfg: Config, w: World, s: Watch)
    requires ByteClock(w) && RepliesArrive(cfg, w) && cfg.probeTimeoutMs + cfg.tickMs <= cfg.idleMs
    requires s.Waiting? && !MakingProgress(cfg, s.lastBacklog, ReadAt(w, s.due))
    requires ProbeEnd(cfg, w, s.due).outcome.ErrorReply? && NextTick(cfg, w, s).Waiting?
    ensures var next := NextTick(cfg, w, s); MakingProgress(cfg, next.lastBacklog, ReadAt(w, next.due))
  {
    var end, due := ProbeEnd(cfg, w, s.due), NextTick(cfg, w, s).due;
    assert due == end.at + cfg.tickMs && w.lastByteAt(end.at) == end.at;
    assert w.lastByteAt(due) >= end.at by {
      if w.lastByteAt(due) <= end.at { assert w.lastByteAt(end.at) == w.lastByteAt(due); }
    }
  }

  /** The misses counted at a tick are the failures of the ticks just before it. */
  lemma OneMissBack(cfg: Config, w: World, s: Watch, n: nat)
    requires s.Waiting? && s.misses == 0 && After(cfg, w, s, n).Waiting? && After(cfg, w, s, n).misses > 0
    ensures n > 0
    ensures var before := After(cfg, w, s, n - 1);
            && before.Waiting? && before.misses + 1 == After(cfg, w, s, n).misses
            && !MakingProgress(cfg, before.lastBacklog, ReadAt(w, before.due))
            && !ProbeEnd(cfg, w, before.due).outcome.Resolved?
  {
    assert n == 0 ==> After(cfg, w, s, n) == s;
  }

  /** The line shows no sign of life at `t`: backlog, last byte and oldest call, in plain numbers. */
  ghost predicate NoSign(cfg: Config, w: World, t: int, lastBacklog: Option<nat>) {
    && (w.backlog(t) == 0 || (lastBacklog.Some? && w.backlog(t) >= lastBacklog.value))
    && t - w.lastByteAt(t) >= cfg.idleMs
    && (w.oldest(t).None? || 8 * (t - w.oldest(t).value.0) >= 8 * cfg.stallGraceMs + w.oldest(t).value.1)
  }

  /** The `k`-th tick from `s` saw no sign of life since the tick before it, and its probe failed. */
  ghost predicate StalledTick(cfg: Config, w: World, s: Watch, k: nat) {
    && s.Waiting? && After(cfg, w, s, k).Waiting?
    && (k > 0 ==> After(cfg, w, s, k - 1).Waiting?)
    && NoSign(cfg, w, After(cfg, w, s, k).due, if k == 0 then s.lastBacklog else Some(w.backlog(After(cfg, w, s, k - 1).due)))
    && !ProbeEnd(cfg, w, After(cfg, w, s, k).due).outcome.Resolved?
  }

  lemma {:induction false} NoProgressIsStalled(cfg: Config, w: World, s: Watch, k: nat)
    requires s.Waiting? && After(cfg, w, s, k).Waiting? && !ProbeEnd(cfg, w, After(cfg, w, s, k).due).outcome.Resolved?
    requires !MakingProgress(cfg, After(cfg, w, s, k).lastBacklog, ReadAt(w, After(cfg, w, s, k).due))
    ensures StalledTick(cfg, w, s, k)
  {
    assert k == 0 ==> After(cfg, w, s, k) == s;
  }

  lemma {:induction false} StreakStalled(cfg: Config, w: World, s: Watch, n: nat)
    requires s.Waiting? && s.misses == 0 && After(cfg, w, s, n).Waiting?
    ensures After(cfg, w, s, n).misses <= n
    ensures forall k: nat | n - After(cfg, w, s, n).misses <= k < n :: StalledTick(cfg, w, s, k)
    decreases n
  {
    if After(cfg, w, s, n).misses > 0 {
      OneMissBack(cfg, w, s, n);
      NoProgressIsStalled(cfg, w, s, n - 1);
      StreakStalled(cfg, w, s, n - 1);
    }
  }

  /**
   What a verdict means: at each of the last `maxMisses` ticks before it nothing had gone out, nothing had
   come in for the idle time, no call was inside its grace, and the probe then sent failed.
   */
  lemma {:induction false} VerdictMeansStalled(cfg: Config, w: World, s: Watch, n: nat) returns (m: nat)
    requires s.Waiting? && s.misses == 0 && cfg.maxMisses > 0 && After(cfg, w, s, n).Dead?
    ensures m < n && cfg.maxMisses <= m + 1 && After(cfg, w, s, m).Waiting? && After(cfg, w, s, m + 1) == After(cfg, w, s, n)
    ensures StalledTick(cfg, w, s, m)
    ensures forall k: nat | m + 1 - cfg.maxMisses <= k <= m :: StalledTick(cfg, w, s, k)
  {
    m := n - 1;
    if After(cfg, w, s, m).Dead? {
      m := VerdictMeansStalled(cfg, w, s, n - 1);
    } else {
      StreakStalled(cfg, w, s, m);
      NoProgressIsStalled(cfg, w, s, m);
    }
  }

  /** A long upload is safe: while some call is inside its grace at every tick, no verdict falls, whatever the probes do. */
  lemma {:induction false} CallInGraceHoldsOff(cfg: Config, w: World, s: Watch, n: nat)
    requires s.Waiting? && s.misses == 0 && cfg.maxMisses > 0
    requires forall t :: w.oldest(t).Some? && 8 * (t - w.oldest(t).value.0) < 8 * cfg.stallGraceMs + w.oldest(t).value.1
    ensures After(cfg, w, s, n).Waiting?
  {
    assert forall k :: !StalledTick(cfg, w, s, k);
    if After(cfg, w, s, n).Dead? { var _ := VerdictMeansStalled(cfg, w, s, n); }
  }

  /** How the probe of the `k`-th tick from `s` ended. */
  ghost predicate FailedSilently(cfg: Config, w: World, s: Watch, k: nat) {
    After(cfg, w, s, k).Waiting? && ProbeEnd(cfg, w, After(cfg, w, s, k).due).outcome.Unanswered?
  }

  /** Every failure of the streak before tick `n` was silence, if that tick sees no progress either. */
  lemma {:induction false} EarlierMissesSilent(cfg: Config, w: World, s: Watch, n: nat)
    requires ByteClock(w) && RepliesArrive(cfg, w) && cfg.probeTimeoutMs + cfg.tickMs <= cfg.idleMs
    requires s.Waiting? && s.misses == 0 && After(cfg, w, s, n).Waiting?
    requires !MakingProgress(cfg, After(cfg, w, s, n).lastBacklog, ReadAt(w, After(cfg, w, s, n).due))
    ensures After(cfg, w, s, n).misses <= n
    ensures SilentFrom(cfg, w, s, n - After(cfg, w, s, n).misses, n)
    decreases n
  {
    if After(cfg, w, s, n).misses > 0 {
      OneMissBack(cfg, w, s, n);
      LastMissSilent(cfg, w, s, n);
      EarlierMissesSilent(cfg, w, s, n - 1);
      OneMoreSilent(cfg, w, s, n - After(cfg, w, s, n).misses, n);
    }
  }

  ghost predicate SilentFrom(cfg: Config, w: World, s: Watch, first: int, n: nat) {
    forall k: nat | first <= k < n :: FailedSilently(cfg, w, s, k)
  }

  lemma OneMoreSilent(cfg: Config, w: World, s: Watch, first: int, n: nat)
    requires n > 0 && SilentFrom(cfg, w, s, first, n - 1) && FailedSilently(cfg, w, s, n - 1)
    ensures SilentFrom(cfg, w, s, first, n)
  {
  }

  lemma {:induction false} LastMissSilent(cfg: Config, w: World, s: Watch, n: nat)
    requires ByteClock(w) && RepliesArrive(cfg, w) && cfg.probeTimeoutMs + cfg.tickMs <= cfg.idleMs
    requires s.Waiting? && s.misses == 0 && After(cfg, w, s, n).Waiting? && After(cfg, w, s, n).misses > 0
    requires !MakingProgress(cfg, After(cfg, w, s, n).lastBacklog, ReadAt(w, After(cfg, w, s, n).due))
    ensures n > 0 && FailedSilently(cfg, w, s, n - 1)
  {
    OneMissBack(cfg, w, s, n);
    var before := After(cfg, w, s, n - 1);
    if ProbeEnd(cfg, w, before.due).outcome.ErrorReply? { ErrorReplyEndsStreak(cfg, w, before); }
  }

  /**
   Which streaks give a verdict in time. If a round of probe and tick fits into the idle time, all probes
   of the streak but the last went unanswered; so the verdict's "probes unanswered" is true if and only
   if the last one did not get an error reply.
   */
  lemma OnlyTheLastMayBeRefused(cfg: Config, w: World, s: Watch, n: nat)
    requires ByteClock(w) && RepliesArrive(cfg, w) && cfg.probeTimeoutMs + cfg.tickMs <= cfg.idleMs && cfg.maxMisses > 0
    requires s.Waiting? && s.misses == 0 && After(cfg, w, s, n).Waiting? && After(cfg, w, s, n + 1).Dead?
    ensures n + 1 >= cfg.maxMisses
    ensures forall k: nat | n + 1 - cfg.maxMisses <= k < n :: FailedSilently(cfg, w, s, k)
    ensures (forall k: nat | n + 1 - cfg.maxMisses <= k <= n :: FailedSilently(cfg, w, s, k))
            <==> !ProbeEnd(cfg, w, After(cfg, w, s, n).due).outcome.ErrorReply?
  {
    EarlierMissesSilent(cfg, w, s, n);
    assert FailedSilently(cfg, w, s, n) <==> ProbeEnd(cfg, w, After(cfg, w, s, n).due).outcome.Unanswered?;
  }

  // ---------------------------------------------------------------- the watcher object

  class RpcHeartbeat {
    const cfg: Config
    var timer: Option<int>
    var probing: bool
    var misses: nat
    var stopped: bool
    var lastBacklog: Option<nat>
    /** Everything seen so far; `onDead` is called exactly when a `Died` is recorded. */
    ghost var record: seq<Seen>

    ghost function Now(): Beat
      reads this
    {
      Beat(timer, probing, misses, stopped, lastBacklog)
    }

    ghost predicate Valid()
      reads this
    {
      Honest(cfg, Now(), record)
    }

    constructor (cfg: Config := Defaults)
      ensures Valid() && Now() == Fresh && record == [] && this.cfg == cfg
    {
      this.cfg := cfg;
      timer, probing, misses, stopped, lastBacklog := None, false, 0, false, None;
      record := [];
    }

    method ScheduleTick(now: int)
      modifies this`timer
      ensures Now() == Schedule(cfg, old(Now()), now)
    {
      if stopped { return; }
      timer := Some(now + cfg.tickMs);
    }

    method StartWatching(now: int)
      requires Valid()
      modifies this
      ensures Valid() && Now() == Step(cfg, old(Now()), Start(now)).0 && record == old(record) + [Nothing]
      ensures timer == if old(timer).Some? || stopped then old(timer) else Some(now + cfg.tickMs)
      ensures stopped == old(stopped) && probing == old(probing) && misses == old(misses)
    {
      StepHonest(cfg, Now(), record, Start(now));
      record := record + [Nothing];
      if timer.Some? || stopped { return; }
      ScheduleTick(now);
    }

    method StopWatching()
      requires Valid()
      modifies this
      ensures Valid() && Now() == Step(cfg, old(Now()), Stop).0 && stopped && timer == None && record == old(record) + [Nothing]
    {
      StepHonest(cfg, Now(), record, Stop);
      record := record + [Nothing];
      stopped := true;
      timer := None;
    }

    /** Also remembers the backlog for the next comparison. */
    method IsMakingProgress(r: Reading) returns (progress: bool)
      modifies this`lastBacklog
      ensures progress == MakingProgress(cfg, old(lastBacklog), r) && lastBacklog == Some(r.backlog)
      ensures progress <==>
                || (r.backlog > 0 && (old(lastBacklog).None? || r.backlog < old(lastBacklog).value))
                || r.msSinceLastByte < cfg.idleMs
                || (r.oldest.Some? && 8 * r.oldest.value.ageMs < 8 * cfg.stallGraceMs + r.oldest.value.requestBytes)
    {
      var draining := r.backlog > 0 && (lastBacklog.None? || r.backlog < lastBacklog.value);
      lastBacklog := Some(r.backlog);
      if draining { return true; }
      if r.msSinceLastByte < cfg.idleMs { return true; }
      if r.oldest.None? { return false; }
      return WithinGrace(cfg, r.oldest.value);
    }

    /** The timer fires: reschedule, or send a probe. */
    method OnTick(now: int, r: Reading) returns (probe: bool)
      requires Valid()
      modifies this
      ensures Valid() && Now() == Step(cfg, old(Now()), Tick(now, r)).0
      ensures record == old(record) + [Step(cfg, old(Now()), Tick(now, r)).1] && (probe <==> record[|record| - 1] == Probed)
      ensures probe <==>
                && !old(stopped) && !old(probing)
                && (r.backlog == 0 || (old(lastBacklog).Some? && r.backlog >= old(lastBacklog).value))
                && r.msSinceLastByte >= cfg.idleMs
                && (r.oldest.None? || 8 * r.oldest.value.ageMs >= 8 * cfg.stallGraceMs + r.oldest.value.requestBytes)
    {
      ProbedExactly(cfg, Now(), now, r);
      StepHonest(cfg, Now(), record, Tick(now, r));
      record := record + [Step(cfg, Now(), Tick(now, r)).1];
      timer := None;
      if stopped { return false; }
      if probing {
        ScheduleTick(now);
        return false;
      }
      var progress := IsMakingProgress(r);
      if progress {
        misses := 0;
        ScheduleTick(now);
        return false;
      }
      probing := true;
      return true;
    }

    /** The probe in flight resolves, is refused, or is abandoned at its deadline. */
    method OnProbeEnd(now: int, outcome: Outcome) returns (dead: bool)
      requires Valid() && probing
      modifies this
      ensures Valid() && Now() == Step(cfg, old(Now()), ProbeEnds(now, outcome)).0
      ensures record == old(record) + [Step(cfg, old(Now()), ProbeEnds(now, outcome)).1] && (dead <==> record[|record| - 1].Died?)
    {
      StepHonest(cfg, Now(), record, ProbeEnds(now, outcome));
      record := record + [Step(cfg, Now(), ProbeEnds(now, outcome)).1];
      probing := false;
      if outcome.Resolved? {
        misses := 0;
      } else {
        if stopped { return false; }
        misses := misses + 1;
        if misses >= cfg.maxMisses {
          stopped := true;
          timer := None;
          return true;
        }
      }
      ScheduleTick(now);
      return false;
    }
  }
}
