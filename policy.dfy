/**
 The scaling decision of one poll tick: the hysteresis thresholds, the
 per-direction cooldown, the proportional step, and evaluate_scaling as a
 function of the configuration, the scaling state and the clock, together
 with the bookkeeping the main loop does after an action.
 */
module Policy {
  import opened Settings
  import opened History

  function Min(a: int, b: int): int { if a <= b then a else b }
  function Max(a: int, b: int): int { if a >= b then a else b }

  /** The value of ScalingState: both last-scale times (0 meaning never) and the breach history. */
  datatype Snapshot = Snapshot(lastUp: real, lastDown: real, history: seq<Breach>)

  /** The state the loop starts with. */
  const Initial := Snapshot(0.0, 0.0, [])

  /** What a tick returns: "up" or "down" with the new count, or "none" with the current one. */
  datatype Action = Scale(dir: Dir) | NoScale
  datatype Decision = Decision(action: Action, count: int)

  function Hold(current: int): Decision {
    Decision(NoScale, current)
  }

  /** The decision and the breach history a tick leaves behind. */
  datatype Evaluation = Evaluation(decision: Decision, history: seq<Breach>)

  // ---------------------------------------------------------------- thresholds

  /**
   should_scale_up: demand strictly above the scale-up ratio of the capacity;
   under a valid configuration that takes at least one job of demand.
   */
  function ShouldScaleUp(cfg: Config, demand: int, current: int): (breach: bool)
    ensures breach && ValidConfig(cfg) && 0 <= current ==> demand >= 1
  {
    assert ValidConfig(cfg) && 0 <= current ==> 0.0 <= current as real * cfg.scaleUpThreshold;
    demand as real > current as real * cfg.scaleUpThreshold
  }

  /**
   should_scale_down: demand strictly below the scale-down ratio of the
   capacity; under a valid configuration that takes at least one instance.
   */
  function ShouldScaleDown(cfg: Config, demand: int, current: int): (breach: bool)
    ensures breach && ValidConfig(cfg) && 0 <= demand ==> current >= 1
  {
    demand as real < current as real * cfg.scaleDownThreshold
  }

  /**
   More demand never withdraws an upward breach and less demand never
   withdraws a downward one; with the scale-down ratio not above the scale-up
   ratio, no demand breaches both ways.
   */
  lemma {:induction false} ThresholdFacts(cfg: Config, demand: int, more: int, current: int)
    requires ValidConfig(cfg) && 0 <= current && demand <= more
    ensures ShouldScaleUp(cfg, demand, current) ==> ShouldScaleUp(cfg, more, current)
    ensures ShouldScaleDown(cfg, more, current) ==> ShouldScaleDown(cfg, demand, current)
    ensures cfg.scaleDownThreshold <= cfg.scaleUpThreshold
        ==> !(ShouldScaleUp(cfg, demand, current) && ShouldScaleDown(cfg, demand, current))
  {
    if cfg.scaleDownThreshold <= cfg.scaleUpThreshold {
      var c := current as real;
      assert 0.0 <= c * (cfg.scaleUpThreshold - cfg.scaleDownThreshold);
      assert c * cfg.scaleDownThreshold <= c * cfg.scaleUpThreshold;
    }
  }

  // ---------------------------------------------------------------- cooldown

  function LastScale(s: Snapshot, d: Dir): real {
    if d == Up then s.lastUp else s.lastDown
  }

  function Cooldown(cfg: Config, d: Dir): int {
    if d == Up then cfg.scaleUpCooldown else cfg.scaleDownCooldown
  }

  /**
   is_cooldown_active: a direction that never scaled has no cooldown;
   otherwise the cooldown lasts until its own cooldown period has elapsed
   since that direction's last scaling.
   */
  function IsCooldownActive(cfg: Config, s: Snapshot, d: Dir, now: real): (active: bool)
    ensures active <==> LastScale(s, d) != 0.0 && now < LastScale(s, d) + Cooldown(cfg, d) as real
  {
    if d == Up then
      if s.lastUp == 0.0 then false else now - s.lastUp < cfg.scaleUpCooldown as real
    else
      if s.lastDown == 0.0 then false else now - s.lastDown < cfg.scaleDownCooldown as real
  }

  /**
   Each direction's cooldown reads only that direction's timestamp: the other
   direction's last scaling and the breach history never block it. Once the
   cooldown is over it stays over while the timestamp is unchanged.
   */
  lemma CooldownIsPerDirection(cfg: Config, s: Snapshot, t: Snapshot, d: Dir, now: real, later: real)
    requires LastScale(s, d) == LastScale(t, d)
    requires now <= later
    ensures IsCooldownActive(cfg, s, d, now) == IsCooldownActive(cfg, t, d, now)
    ensures LastScale(s, d) == 0.0 ==> !IsCooldownActive(cfg, s, d, now)
    ensures !IsCooldownActive(cfg, s, d, now) ==> !IsCooldownActive(cfg, s, d, later)
  {
  }

  // ---------------------------------------------------------------- step size

  /** Python's int() on a float: rounds toward zero. */
  function Trunc(x: real): (n: int)
    ensures 0.0 <= x ==> n as real <= x < n as real + 1.0
    ensures x <= 0.0 ==> n as real - 1.0 < x <= n as real
  {
    if x >= 0.0 then x.Floor else -((-x).Floor)
  }

  /** Raising the truncated share to at least 1 gives what raising the floor would. */
  lemma TruncAgreesWithFloorAboveOne(x: real)
    ensures Max(Trunc(x), 1) == Max(x.Floor, 1)
  {
  }

  /**
   A step is the given share of the gap, truncated, raised to at least 1 and
   capped at `cap`: it never exceeds the cap, is at least 1 whenever the cap
   allows, is larger than 1 only when the share is at least that large, and
   below the cap only the fraction is lost to truncation.
   */
  function ProportionalStep(gap: int, proportion: real, cap: int): (step: int)
    ensures step <= cap
    ensures 1 <= cap ==> 1 <= step
    ensures step > 1 ==> step as real <= gap as real * proportion
    ensures 1.0 <= gap as real * proportion && step < cap ==> gap as real * proportion < step as real + 1.0
  {
    Min(Max(Trunc(gap as real * proportion), 1), cap)
  }

  function UpStep(cfg: Config, demand: int, current: int): int {
    ProportionalStep(demand - current, cfg.scaleUpProportion, cfg.scaleUpStep)
  }

  function DownStep(cfg: Config, demand: int, current: int): int {
    ProportionalStep(current - demand, cfg.scaleDownProportion, cfg.scaleDownStep)
  }

  /**
   The decision once a breach has cleared the score and the cooldown: move by
   the step, capped at MAX going up and at MIN going down, or hold when the cap
   leaves no room to move.
   */
  function Act(cfg: Config, d: Dir, demand: int, current: int): Decision {
    if d == Up then
      var n := Min(current + UpStep(cfg, demand, current), cfg.maxInstances);
      if n > current then Decision(Scale(Up), n) else Hold(current)
    else
      var n := Max(current - DownStep(cfg, demand, current), cfg.minInstances);
      if n < current then Decision(Scale(Down), n) else Hold(current)
  }

  // ---------------------------------------------------------------- one tick

  function WindowStart(cfg: Config, now: real): real {
    now - (cfg.stabilizationWindowMinutes * 60) as real
  }

  /** The history after record_breach and the pruning in calculate_breach_score. */
  function RecordAndPrune(cfg: Config, s: Snapshot, d: Dir, now: real): seq<Breach> {
    Filter(s.history + [Breach(now, d)], After(WindowStart(cfg, now)))
  }

  /** The breach branch of evaluate_scaling for direction `d`. */
  function OnBreach(cfg: Config, decay: real -> real, s: Snapshot, d: Dir, demand: int, current: int, now: real): Evaluation
    requires ValidConfig(cfg)
  {
    var h := RecordAndPrune(cfg, s, d, now);
    var score := Score(h, d, now, cfg.decayHalfLifeSeconds, decay);
    if score < cfg.breachThreshold then Evaluation(Hold(current), h)
    else if IsCooldownActive(cfg, s, d, now) then Evaluation(Hold(current), h)
    else Evaluation(Act(cfg, d, demand, current), h)
  }

  /** evaluate_scaling, with every read of the clock in one tick taken as `now`. */
  function Evaluate(cfg: Config, decay: real -> real, s: Snapshot, demand: int, current: int, now: real): Evaluation
    requires ValidConfig(cfg)
  {
    if ShouldScaleUp(cfg, demand, current) then OnBreach(cfg, decay, s, Up, demand, current, now)
    else if ShouldScaleDown(cfg, demand, current) then OnBreach(cfg, decay, s, Down, demand, current, now)
    else Evaluation(Hold(current), s.history)
  }

  /** The direction a tick breaches in, "up" taking precedence. */
  function BreachDir(cfg: Config, demand: int, current: int): Dir
    requires ShouldScaleUp(cfg, demand, current) || ShouldScaleDown(cfg, demand, current)
  {
    if ShouldScaleUp(cfg, demand, current) then Up else Down
  }

  /**
   A breach in a direction appends exactly one entry (now, that direction) to
   the pruned history, "up" being tested first; a tick that breaches neither
   way holds at the current count and leaves the history untouched.
   */
  lemma {:induction false} EvaluateRecordsBreach(cfg: Config, decay: real -> real, s: Snapshot, demand: int, current: int, now: real)
    requires ValidConfig(cfg)
    ensures var e := Evaluate(cfg, decay, s, demand, current, now);
      if ShouldScaleUp(cfg, demand, current) || ShouldScaleDown(cfg, demand, current) then
        e.history == Filter(s.history, After(WindowStart(cfg, now))) + [Breach(now, BreachDir(cfg, demand, current))]
      else
        e == Evaluation(Hold(current), s.history)
  {
    if ShouldScaleUp(cfg, demand, current) || ShouldScaleDown(cfg, demand, current) {
      var d := BreachDir(cfg, demand, current);
      FilterSnoc(s.history, Breach(now, d), After(WindowStart(cfg, now)));
    }
  }

  /**
   After a tick, no entry of the history is at or before the window start, and
   the entries that remain are exactly the in-window ones of both directions,
   with their multiplicities.
   */
  lemma {:induction false} EvaluatePrunes(cfg: Config, decay: real -> real, s: Snapshot, demand: int, current: int, now: real, x: Breach)
    requires ValidConfig(cfg)
    requires ShouldScaleUp(cfg, demand, current) || ShouldScaleDown(cfg, demand, current)
    ensures var h := Evaluate(cfg, decay, s, demand, current, now).history;
      && (forall i :: 0 <= i < |h| ==> h[i].ts > WindowStart(cfg, now))
      && multiset(h)[x] == if x.ts > WindowStart(cfg, now) then multiset(s.history + [Breach(now, BreachDir(cfg, demand, current))])[x] else 0
  {
    var d := BreachDir(cfg, demand, current);
    FilterCounts(s.history + [Breach(now, d)], After(WindowStart(cfg, now)), x);
  }

  /** The score a tick compares with BREACH_THRESHOLD, for the direction it breaches in. */
  function TickScore(cfg: Config, decay: real -> real, s: Snapshot, demand: int, current: int, now: real): real
    requires ValidConfig(cfg)
    requires ShouldScaleUp(cfg, demand, current) || ShouldScaleDown(cfg, demand, current)
  {
    Score(Evaluate(cfg, decay, s, demand, current, now).history, BreachDir(cfg, demand, current), now,
          cfg.decayHalfLifeSeconds, decay)
  }

  /**
   A tick scales in a direction only when it breached that way, the score of
   that direction reached BREACH_THRESHOLD and that direction's cooldown is
   over; a breach that clears the threshold during the cooldown holds at the
   current count and still leaves its entry recorded.
   */
  lemma {:induction false} EvaluateGates(cfg: Config, decay: real -> real, s: Snapshot, demand: int, current: int, now: real)
    requires ValidConfig(cfg)
    ensures var e := Evaluate(cfg, decay, s, demand, current, now);
      e.decision.action.Scale? ==>
        && (ShouldScaleUp(cfg, demand, current) || ShouldScaleDown(cfg, demand, current))
        && e.decision.action.dir == BreachDir(cfg, demand, current)
        && TickScore(cfg, decay, s, demand, current, now) >= cfg.breachThreshold
        && !IsCooldownActive(cfg, s, e.decision.action.dir, now)
    ensures var e := Evaluate(cfg, decay, s, demand, current, now);
      (ShouldScaleUp(cfg, demand, current) || ShouldScaleDown(cfg, demand, current)) &&
      IsCooldownActive(cfg, s, BreachDir(cfg, demand, current), now) ==>
        && e.decision == Hold(current)
        && |e.history| > 0
        && e.history[|e.history| - 1] == Breach(now, BreachDir(cfg, demand, current))
  {
    if ShouldScaleUp(cfg, demand, current) || ShouldScaleDown(cfg, demand, current) {
      EvaluateRecordsBreach(cfg, decay, s, demand, current, now);
    }
  }

  /**
   Under a valid configuration a step up stays above the current count and
   within both the step cap and MAX_INSTANCES, a step down stays below the
   current count and within both the step cap and MIN_INSTANCES, and every
   "none" result carries the current count unchanged.
   */
  lemma {:induction false} EvaluateStepBounds(cfg: Config, decay: real -> real, s: Snapshot, demand: int, current: int, now: real)
    requires ValidConfig(cfg)
    ensures var r := Evaluate(cfg, decay, s, demand, current, now).decision;
      && (r.action == Scale(Up) ==> current < r.count <= Min(current + cfg.scaleUpStep, cfg.maxInstances))
      && (r.action == Scale(Down) ==> Max(current - cfg.scaleDownStep, cfg.minInstances) <= r.count < current)
      && (r.action == NoScale ==> r.count == current)
  {
    var r := Evaluate(cfg, decay, s, demand, current, now).decision;
    if r.action.Scale? {
      EvaluateGates(cfg, decay, s, demand, current, now);
      assert r == Act(cfg, r.action.dir, demand, current);
    }
  }

  /**
   From a count within [MIN_INSTANCES, MAX_INSTANCES] every tick lands within
   the bounds again; at MAX a tick never scales up and at MIN it never scales down.
   */
  lemma {:induction false} EvaluateStaysInBounds(cfg: Config, decay: real -> real, s: Snapshot, demand: int, current: int, now: real)
    requires ValidConfig(cfg)
    ensures var r := Evaluate(cfg, decay, s, demand, current, now).decision;
      cfg.minInstances <= current <= cfg.maxInstances ==> cfg.minInstances <= r.count <= cfg.maxInstances
    ensures var r := Evaluate(cfg, decay, s, demand, current, now).decision;
      && (current >= cfg.maxInstances ==> r.action != Scale(Up))
      && (current <= cfg.minInstances ==> r.action != Scale(Down))
  {
    EvaluateStepBounds(cfg, decay, s, demand, current, now);
  }

  /**
   A breaching tick whose score reached BREACH_THRESHOLD outside its
   direction's cooldown does scale: up to min(current + step, MAX) while below
   MAX, down to max(current - step, MIN) while above MIN; with the cap already
   reached it holds at the current count.
   */
  lemma {:induction false} EvaluateActs(cfg: Config, decay: real -> real, s: Snapshot, demand: int, current: int, now: real)
    requires ValidConfig(cfg)
    ensures var r := Evaluate(cfg, decay, s, demand, current, now).decision;
      && ShouldScaleUp(cfg, demand, current)
      && Score(RecordAndPrune(cfg, s, Up, now), Up, now, cfg.decayHalfLifeSeconds, decay) >= cfg.breachThreshold
      && !IsCooldownActive(cfg, s, Up, now)
      ==>
        if current < cfg.maxInstances
        then r == Decision(Scale(Up), Min(current + UpStep(cfg, demand, current), cfg.maxInstances))
        else r == Hold(current)
    ensures var r := Evaluate(cfg, decay, s, demand, current, now).decision;
      && !ShouldScaleUp(cfg, demand, current)
      && ShouldScaleDown(cfg, demand, current)
      && Score(RecordAndPrune(cfg, s, Down, now), Down, now, cfg.decayHalfLifeSeconds, decay) >= cfg.breachThreshold
      && !IsCooldownActive(cfg, s, Down, now)
      ==>
        if current > cfg.minInstances
        then r == Decision(Scale(Down), Max(current - DownStep(cfg, demand, current), cfg.minInstances))
        else r == Hold(current)
  {
  }

  // ---------------------------------------------------------------- after an action

  /**
   The bookkeeping main does once evaluate_scaling returned an action: the
   direction taken gets `now` as its last-scale time and loses all its breach
   entries; a "none" result changes nothing.
   */
  function AfterAction(s: Snapshot, r: Decision, now: real): Snapshot {
    match r.action
    case NoScale => s
    case Scale(Up) => Snapshot(now, s.lastDown, Filter(s.history, Except(Up)))
    case Scale(Down) => Snapshot(s.lastUp, now, Filter(s.history, Except(Down)))
  }

  /**
   After an action in direction `d` only `d`'s last-scale time is set, no entry
   of direction `d` is left, and the entries of the other direction are kept
   exactly, in their original order.
   */
  lemma {:induction false} AfterActionClearsDirection(s: Snapshot, d: Dir, count: int, now: real)
    ensures var t := AfterAction(s, Decision(Scale(d), count), now);
      && LastScale(t, d) == now
      && LastScale(t, Other(d)) == LastScale(s, Other(d))
      && Filter(t.history, Only(d)) == []
      && Filter(t.history, Only(Other(d))) == Filter(s.history, Only(Other(d)))
  {
    var t := AfterAction(s, Decision(Scale(d), count), now);
    assert t.history == Filter(s.history, Except(d));
    FilterCommute(s.history, Except(d), Only(d));
    FilterDropsAll(Filter(s.history, Only(d)), Except(d));
    FilterFilter(s.history, Except(d), Only(Other(d)));
  }

  /**
   No thrash inside a cooldown: after scaling in direction `d` at time `t`
   (not the "never" sentinel 0), no tick before `t` plus `d`'s cooldown scales
   in direction `d` again, whatever the demand.
   */
  lemma {:induction false} NoRepeatWithinCooldown(
    cfg: Config, decay: real -> real, s: Snapshot, d: Dir, count: int, t: real,
    demand: int, current: int, now: real)
    requires ValidConfig(cfg)
    requires t != 0.0 && now < t + Cooldown(cfg, d) as real
    ensures Evaluate(cfg, decay, AfterAction(s, Decision(Scale(d), count), t), demand, current, now).decision.action
         != Scale(d)
  {
    var s' := AfterAction(s, Decision(Scale(d), count), t);
    AfterActionClearsDirection(s, d, count, t);
    EvaluateGates(cfg, decay, s', demand, current, now);
  }

  /**
   With no breach of direction `d` in the history, the breach a tick records
   in direction `d` is the only one its score sums, and it scores exactly 1.
   */
  lemma {:induction false} LoneBreachScoresOne(cfg: Config, decay: real -> real, s: Snapshot, d: Dir, now: real)
    requires ValidConfig(cfg) && IsHalvingDecay(decay)
    requires Filter(s.history, Only(d)) == []
    ensures Score(RecordAndPrune(cfg, s, d, now), d, now, cfg.decayHalfLifeSeconds, decay) == 1.0
  {
    var start := WindowStart(cfg, now);
    var hl := cfg.decayHalfLifeSeconds;
    var pruned := Filter(s.history, After(start));
    FilterSnoc(s.history, Breach(now, d), After(start));
    assert RecordAndPrune(cfg, s, d, now) == pruned + [Breach(now, d)];
    FilterCommute(s.history, After(start), Only(d));
    assert Filter(pruned, Only(d)) == [] by {
      assert Filter(pruned, Only(d)) == Filter(Filter(s.history, Only(d)), After(start));
      assert Filter([], After(start)) == [];
    }
    ScoreOnlyMatching(pruned, d, now, hl, decay);
    NewBreachScoresOne(pruned, d, now, hl, decay);
  }

  /**
   Fresh evidence after an action: with no breach of direction `d` left in
   the history (as after an action in `d`), the breach a tick records scores
   exactly 1, so with BREACH_THRESHOLD above 1 that tick cannot scale in `d`.
   */
  lemma {:induction false} FirstBreachScoresOne(cfg: Config, decay: real -> real, s: Snapshot, demand: int, current: int, now: real)
    requires ValidConfig(cfg) && IsHalvingDecay(decay)
    requires ShouldScaleUp(cfg, demand, current) || ShouldScaleDown(cfg, demand, current)
    requires Filter(s.history, Only(BreachDir(cfg, demand, current))) == []
    ensures TickScore(cfg, decay, s, demand, current, now) == 1.0
    ensures cfg.breachThreshold > 1.0 ==> Evaluate(cfg, decay, s, demand, current, now).decision == Hold(current)
  {
    var d := BreachDir(cfg, demand, current);
    LoneBreachScoresOne(cfg, decay, s, d, now);
    assert Evaluate(cfg, decay, s, demand, current, now) == OnBreach(cfg, decay, s, d, demand, current, now);
  }
}
