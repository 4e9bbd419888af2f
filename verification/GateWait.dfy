/** Waiting for a gate: a doubling, capped back-off against a deadline. Durations are nanoseconds. */
module GateWait {
  import opened Text
  import opened Protocol

  const SECOND: int := 1_000_000_000
  const MINUTE: int := 60 * SECOND
  const MAX_SLEEP: int := 15 * SECOND
  const TWO_62: int := 0x4000_0000_0000_0000
  const TWO_63: int := 0x8000_0000_0000_0000
  const TWO_64: int := 0x1_0000_0000_0000_0000

  // ----- timing -----

  datatype Timing = Timing(preMaxWait: int, postMaxWait: int, pingInterval: int, dbInterval: int, graceAfterReady: int)

  const DEFAULT_TIMING := Timing(5 * MINUTE, 12 * MINUTE, 5 * SECOND, 10 * SECOND, 10 * SECOND)

  /** A positive duration in the annotation, or what was there before. */
  function ReadDuration(annotations: map<string, string>, key: string, parse: string -> Option<int>, was: int): int {
    if key in annotations && TrimSpace(annotations[key]) != "" then
      match parse(annotations[key])
      case Some(d) => if d > 0 then d else was
      case None => was
    else was
  }

  ghost predicate Positive(t: Timing) {
    t.preMaxWait > 0 && t.postMaxWait > 0 && t.pingInterval > 0 && t.dbInterval > 0
  }

  /** Whatever the annotations hold, waits and intervals stay positive. */
  function ReadTiming(annotations: map<string, string>, parse: string -> Option<int>, def: Timing): (t: Timing)
    ensures Positive(def) ==> Positive(t)
    ensures t.graceAfterReady == def.graceAfterReady
  {
    Timing(
      ReadDuration(annotations, "ravendb.io/upgrade-pre-wait", parse, def.preMaxWait),
      ReadDuration(annotations, "ravendb.io/upgrade-post-wait", parse, def.postMaxWait),
      ReadDuration(annotations, "ravendb.io/upgrade-ping-interval", parse, def.pingInterval),
      ReadDuration(annotations, "ravendb.io/upgrade-db-interval", parse, def.dbInterval),
      def.graceAfterReady)
  }

  /** The annotation holds a text that is not blank and reads as the positive duration d. */
  ghost predicate Says(annotations: map<string, string>, key: string, parse: string -> Option<int>, d: int) {
    key in annotations && !Blank(annotations[key]) && parse(annotations[key]) == Some(d) && d > 0
  }

  /** A field follows its annotation when that says a duration, and is the default otherwise. */
  ghost predicate Follows(field: int, annotations: map<string, string>, key: string, parse: string -> Option<int>, def: int) {
    && (forall d | Says(annotations, key, parse, d) :: field == d)
    && ((forall d :: !Says(annotations, key, parse, d)) ==> field == def)
  }

  /** Each of the four annotations sets its own field, whatever the others hold, and only by a positive
      duration; the grace period is not to be annotated. */
  lemma TimingFollowsAnnotations(annotations: map<string, string>, parse: string -> Option<int>, def: Timing)
    ensures var t := ReadTiming(annotations, parse, def);
            && Follows(t.preMaxWait, annotations, "ravendb.io/upgrade-pre-wait", parse, def.preMaxWait)
            && Follows(t.postMaxWait, annotations, "ravendb.io/upgrade-post-wait", parse, def.postMaxWait)
            && Follows(t.pingInterval, annotations, "ravendb.io/upgrade-ping-interval", parse, def.pingInterval)
            && Follows(t.dbInterval, annotations, "ravendb.io/upgrade-db-interval", parse, def.dbInterval)
            && t.graceAfterReady == def.graceAfterReady
  {
    hide Follows;
    DurationFollows(annotations, "ravendb.io/upgrade-pre-wait", parse, def.preMaxWait);
    DurationFollows(annotations, "ravendb.io/upgrade-post-wait", parse, def.postMaxWait);
    DurationFollows(annotations, "ravendb.io/upgrade-ping-interval", parse, def.pingInterval);
    DurationFollows(annotations, "ravendb.io/upgrade-db-interval", parse, def.dbInterval);
  }

  lemma DurationFollows(annotations: map<string, string>, key: string, parse: string -> Option<int>, def: int)
    ensures Follows(ReadDuration(annotations, key, parse, def), annotations, key, parse, def)
  {
    hide TrimSpace, Blank;
    if key in annotations {
      TrimsToNothing(annotations[key]);
      var d := parse(annotations[key]);
      if d.Some? && d.value > 0 && !Blank(annotations[key]) {
        assert Says(annotations, key, parse, d.value);
      }
    }
  }

  function MaxWaitFor(t: Timing, phase: Phase): int { if phase.Pre? then t.preMaxWait else t.postMaxWait }

  function IntervalFor(t: Timing, gate: Gate): int { if gate.Databases? then t.dbInterval else t.pingInterval }

  // ----- the sleeps -----

  /** Two's-complement 64-bit arithmetic. */
  function Wrap64(x: int): int { (x + TWO_63) % TWO_64 - TWO_63 }

  function NextSleep(s: int): int {
    var d := Wrap64(s * 2);
    if d > MAX_SLEEP then MAX_SLEEP else d
  }

  function SleepAt(interval: int, k: nat): int {
    if k == 0 then interval else NextSleep(SleepAt(interval, k - 1))
  }

  function Pow2(k: nat): nat { if k == 0 then 1 else 2 * Pow2(k - 1) }

  function Max(a: int, b: int): int { if a >= b then a else b }

  function Min(a: int, b: int): int { if a <= b then a else b }

  /** The first sleep is the interval; the k-th after that is 2^k intervals, capped at 15 seconds. */
  function IntendedSleep(interval: int, k: nat): int {
    if k == 0 then interval else Min(Pow2(k) * interval, 15_000_000_000)
  }

  lemma WrapSmall(x: int)
    requires -TWO_63 <= x < TWO_63
    ensures Wrap64(x) == x
  {
  }

  lemma WrapLarge(x: int)
    requires TWO_63 <= x < TWO_64
    ensures Wrap64(x) == x - TWO_64
  {
    assert (x + TWO_63) == (x - TWO_63) + TWO_64;
  }

  lemma {:induction false} SleepClosedForm(interval: int, k: nat)
    requires 0 < interval < TWO_62
    ensures SleepAt(interval, k) == IntendedSleep(interval, k)
    ensures 0 < SleepAt(interval, k) < TWO_62
  {
    hide Wrap64;
    if k > 0 {
      SleepClosedForm(interval, k - 1);
      WrapSmall(SleepAt(interval, k - 1) * 2);
      assert Pow2(k) * interval == 2 * (Pow2(k - 1) * interval);
    }
  }

  /** The doubling never overflows 64 bits, and the sleeps are the intended ones, exactly when the
      interval is below 2^62 nanoseconds. */
  lemma SleepsAsIntendedIff(interval: int)
    requires 0 < interval < TWO_63
    ensures (forall k: nat :: SleepAt(interval, k) == IntendedSleep(interval, k)) <==> interval < TWO_62
  {
    if interval < TWO_62 {
      forall k: nat ensures SleepAt(interval, k) == IntendedSleep(interval, k) {
        SleepClosedForm(interval, k);
      }
    } else {
      WrapLarge(interval * 2);
      assert Pow2(1) == 2 * Pow2(0) == 2;
      assert SleepAt(interval, 1) == NextSleep(SleepAt(interval, 0)) < 0;
      assert IntendedSleep(interval, 1) == MAX_SLEEP;
    }
  }

  function Step(interval: int): int { Min(interval, 15_000_000_000) }

  lemma {:induction false} SleepAtLeastStep(interval: int, k: nat)
    requires 0 < interval < TWO_62
    ensures SleepAt(interval, k) >= Step(interval)
  {
    hide Wrap64;
    if k > 0 {
      SleepAtLeastStep(interval, k - 1);
      SleepClosedForm(interval, k - 1);
      WrapSmall(SleepAt(interval, k - 1) * 2);
    }
  }

  lemma SleepUnfolds(interval: int, k: nat)
    ensures SleepAt(interval, 0) == interval
    ensures k > 0 ==> SleepAt(interval, k) == NextSleep(SleepAt(interval, k - 1))
  {
  }

  // ----- the loop -----

  datatype Answer = Ok | Blocked(info: string) | HardError(err: string)

  datatype GateState = GateStart | GatePass | GateBlock | GateTimeout

  datatype WaitResult = Opened | GaveUp(info: string)

  /** What the loop observes in its k-th round: whether the context is cancelled, the gate's answer,
      and the time since the start when the deadline is looked at. */
  datatype Surroundings = Surroundings(cancelled: nat -> bool, answer: nat -> Answer, elapsed: nat -> int, cancelText: string)

  /** A clock that never cuts a sleep short and moves on from one round to the next. A sleep that is not
      positive ends at once. */
  ghost predicate Monotone(s: Surroundings, interval: int) {
    s.elapsed(0) >= 0 && forall k: nat :: s.elapsed(k + 1) >= s.elapsed(k) + Max(SleepAt(interval, k), 1)
  }

  predicate Stops(s: Surroundings, maxWait: int, k: nat) {
    s.cancelled(k) || !s.answer(k).Blocked? || s.elapsed(k) >= maxWait
  }

  /** The round in which a wait ends. */
  ghost predicate EndsIn(s: Surroundings, maxWait: int, round: nat) {
    Stops(s, maxWait, round) && forall k: nat | k < round :: !Stops(s, maxWait, k)
  }

  function Repeat(n: nat): seq<GateState> { seq(n, _ => GateBlock) }

  function OrTimeout(info: string): string { if info == "" then "timeout" else info }

  /** The verdict in the round that ends the wait, and the events announced for it. */
  function Verdict(s: Surroundings, k: nat): (WaitResult, seq<GateState>) {
    if s.cancelled(k) then (GaveUp(OrTimeout(s.cancelText)), [GateTimeout])
    else match s.answer(k)
      case HardError(err) => (GaveUp(err), [GateBlock])
      case Ok => (Opened, [GatePass])
      case Blocked(info) => (GaveUp(if info == "" then "timeout" else info + " (timeout)"), [GateBlock, GateTimeout])
  }

  lemma {:induction false} ElapsedGrows(s: Surroundings, interval: int, k: nat)
    requires 0 < interval < TWO_62 && Monotone(s, interval)
    ensures s.elapsed(k) >= k * Step(interval)
  {
    if k > 0 {
      ElapsedGrows(s, interval, k - 1);
      SleepAtLeastStep(interval, k - 1);
      assert s.elapsed((k - 1) + 1) >= s.elapsed(k - 1) + Max(SleepAt(interval, k - 1), 1);
      assert k * Step(interval) == (k - 1) * Step(interval) + Step(interval);
    }
  }

  /** The wait ends in the first round that is cancelled, answers other than blocked, or is past the
      deadline, with that round's verdict. It sleeps once between any two rounds, for the time of
      the back-off. */
  method Wait(interval: int, maxWait: int, s: Surroundings)
    returns (r: WaitResult, round: nat, slept: seq<int>, emitted: seq<GateState>)
    requires Monotone(s, interval)
    ensures EndsIn(s, maxWait, round)
    ensures r == Verdict(s, round).0
    ensures emitted == [GateStart] + Repeat(round) + Verdict(s, round).1
    ensures |slept| == round && forall k | 0 <= k < round :: slept[k] == SleepAt(interval, k)
  {
    hide Wrap64, SleepAt;
    emitted := [GateStart];
    slept := [];
    round := 0;
    SleepUnfolds(interval, 0);
    assert [GateStart] + Repeat(0) == [GateStart];
    var sleep := interval;
    while true
      invariant forall k: nat | k < round :: !Stops(s, maxWait, k)
      invariant sleep == SleepAt(interval, round)
      invariant emitted == [GateStart] + Repeat(round)
      invariant |slept| == round && forall k | 0 <= k < round :: slept[k] == SleepAt(interval, k)
      decreases maxWait - s.elapsed(round)
    {
      if s.cancelled(round) {
        emitted := emitted + [GateTimeout];
        return GaveUp(OrTimeout(s.cancelText)), round, slept, emitted;
      }
      match s.answer(round)
      case HardError(err) =>
        emitted := emitted + [GateBlock];
        return GaveUp(err), round, slept, emitted;
      case Ok =>
        emitted := emitted + [GatePass];
        return Opened, round, slept, emitted;
      case Blocked(info) =>
        emitted := emitted + [GateBlock];
        if s.elapsed(round) >= maxWait {
          emitted := emitted + [GateTimeout];
          return GaveUp(if info == "" then "timeout" else info + " (timeout)"), round, slept, emitted;
        }
        slept := slept + [sleep];
        SleepUnfolds(interval, round + 1);
        assert s.elapsed(round + 1) >= s.elapsed(round) + Max(SleepAt(interval, round), 1);
        assert [GateStart] + Repeat(round) + [GateBlock] == [GateStart] + Repeat(round + 1);
        sleep := Wrap64(sleep * 2);
        if sleep > MAX_SLEEP {
          sleep := MAX_SLEEP;
        }
        round := round + 1;
    }
  }

  function CeilDiv(a: int, b: int): int
    requires b > 0
  {
    (a + b - 1) / b
  }

  lemma CeilDivBound(n: int, a: int, b: int)
    requires b > 0 && n * b < a
    ensures n + 1 <= CeilDiv(a, b)
  {
    var q := (a + b - 1) / b;
    assert a + b - 1 < q * b + b;
    assert n * b < q * b;
    MulCancel(n, q, b);
  }

  lemma MulCancel(x: int, y: int, b: int)
    requires b > 0 && x * b < y * b
    ensures x < y
  {
    assert (y - x) * b > 0;
  }

  /** Bounds on a wait. Unless it is cancelled or meets a hard error it never gives up before maxWait,
      and for an interval that does not overflow it makes at most ceil(maxWait / min(interval, 15s)) + 1
      checks. */
  lemma WaitBounds(interval: int, maxWait: int, s: Surroundings, round: nat)
    requires interval > 0 && maxWait >= 0 && Monotone(s, interval) && EndsIn(s, maxWait, round)
    ensures interval < TWO_62 ==> round <= CeilDiv(maxWait, Step(interval))
    ensures Verdict(s, round).0.GaveUp? && !s.cancelled(round) && !s.answer(round).HardError? ==> s.elapsed(round) >= maxWait
    ensures Verdict(s, round).0 == Opened <==> !s.cancelled(round) && s.answer(round) == Ok
  {
    if round > 0 && interval < TWO_62 {
      ElapsedGrows(s, interval, round - 1);
      assert !Stops(s, maxWait, round - 1);
      CeilDivBound(round - 1, maxWait, Step(interval));
    }
  }

  /** What the last round announces and answers: a pass for an open gate, a hard error as it is, a
      timeout when cancelled or past the deadline, with the last check's information. */
  lemma VerdictMeans(s: Surroundings, k: nat)
    ensures var (r, events) := Verdict(s, k);
            && (GatePass in events <==> r == Opened)
            && (GateTimeout in events <==> s.cancelled(k) || s.answer(k).Blocked?)
            && (GateBlock in events <==> !s.cancelled(k) && s.answer(k) != Ok)
            && (!s.cancelled(k) && s.answer(k).HardError? ==> r == GaveUp(s.answer(k).err))
            && (!s.cancelled(k) && s.answer(k).Blocked? ==> r.GaveUp? && s.answer(k).info <= r.info)
            && (s.cancelled(k) && s.cancelText != "" ==> r == GaveUp(s.cancelText))
            && (r.GaveUp? && (s.cancelled(k) || s.answer(k).Blocked?) ==> r.info != "")
  {
  }

  /** The same for the waits of an upgrade: whatever the cluster's annotations say, the defaults they are
      read over make every wait of either phase bounded by its own limit and interval. */
  lemma UpgradeWaitBounds(annotations: map<string, string>, parse: string -> Option<int>, phase: Phase, gate: Gate,
                          s: Surroundings, round: nat)
    requires var t := ReadTiming(annotations, parse, DEFAULT_TIMING);
             Monotone(s, IntervalFor(t, gate)) && EndsIn(s, MaxWaitFor(t, phase), round)
    ensures var t := ReadTiming(annotations, parse, DEFAULT_TIMING);
            var interval, maxWait := IntervalFor(t, gate), MaxWaitFor(t, phase);
            && interval > 0 && maxWait > 0
            && (interval < TWO_62 ==> round <= CeilDiv(maxWait, Step(interval)))
            && (Verdict(s, round).0.GaveUp? && !s.cancelled(round) && !s.answer(round).HardError? ==> s.elapsed(round) >= maxWait)
  {
    hide Verdict, Stops, Monotone, CeilDiv, ReadDuration;
    assert Positive(DEFAULT_TIMING);
    var t := ReadTiming(annotations, parse, DEFAULT_TIMING);
    WaitBounds(IntervalFor(t, gate), MaxWaitFor(t, phase), s, round);
  }

  /** Without annotations a failing gate is asked at most 61 times before a node is touched and 145 times
      after, and the database gate at most 31 and 73 times. */
  lemma DefaultWaitBounds(parse: string -> Option<int>, phase: Phase, gate: Gate, s: Surroundings, round: nat)
    requires Monotone(s, IntervalFor(DEFAULT_TIMING, gate)) && EndsIn(s, MaxWaitFor(DEFAULT_TIMING, phase), round)
    ensures round + 1 <= if gate.Databases? then (if phase.Pre? then 31 else 73) else if phase.Pre? then 61 else 145
  {
    hide Verdict, Stops, Monotone;
    UpgradeWaitBounds(map[], parse, phase, gate, s, round);
  }
}
