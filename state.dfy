/**
 ScalingState, the one mutable object of the autoscaler, and the operations
 that update it in place: recording a breach, pruning and scoring the history,
 evaluating a tick, and the bookkeeping of the main loop after an action.
 */
module State {
  import opened Settings
  import opened History
  import opened Policy

  class ScalingState {
    var lastUp: real            // last_scale_up_time, 0 meaning never
    var lastDown: real          // last_scale_down_time, 0 meaning never
    var history: seq<Breach>    // breach_history, oldest first

    /** The value the fields hold. */
    function View(): Snapshot
      reads this
    {
      Snapshot(lastUp, lastDown, history)
    }

    constructor ()
      ensures View() == Initial
    {
      lastUp, lastDown, history := 0.0, 0.0, [];
    }

    /** record_breach: appends (now, d) to the end of the history. */
    method RecordBreach(d: Dir, now: real)
      modifies this`history
      ensures history == old(history) + [Breach(now, d)]
    {
      history := history + [Breach(now, d)];
    }

    /**
     calculate_breach_score: drops every entry at or before the window start,
     keeping the rest in order, then sums the decayed weights of the remaining
     entries of direction `d`.
     */
    method CalculateBreachScore(cfg: Config, decay: real -> real, d: Dir, now: real) returns (score: real)
      requires ValidConfig(cfg)
      modifies this`history
      ensures history == Filter(old(history), After(WindowStart(cfg, now)))
      ensures score == Score(history, d, now, cfg.decayHalfLifeSeconds, decay)
    {
      var windowStart := now - (cfg.stabilizationWindowMinutes * 60) as real;
      history := Filter(history, After(windowStart));
      var h := history;
      score := 0.0;
      for i := 0 to |h|
        invariant history == h
        invariant score == Score(h[..i], d, now, cfg.decayHalfLifeSeconds, decay)
      {
        assert h[..i + 1] == h[..i] + [h[i]];
        ScoreSnoc(h[..i], h[i], d, now, cfg.decayHalfLifeSeconds, decay);
        var entry := h[i];
        if entry.dir == d {
          var age := now - entry.ts;
          score := score + decay(age / cfg.decayHalfLifeSeconds);
        }
      }
      assert h[..|h|] == h;
    }

    /** evaluate_scaling: one tick of the decision, recording and pruning breaches on the way. */
    method EvaluateScaling(cfg: Config, decay: real -> real, demand: int, current: int, now: real)
      returns (decision: Decision)
      requires ValidConfig(cfg)
      modifies this`history
      ensures Evaluation(decision, history) == Evaluate(cfg, decay, old(View()), demand, current, now)
    {
      if ShouldScaleUp(cfg, demand, current) {
        RecordBreach(Up, now);
        var score := CalculateBreachScore(cfg, decay, Up, now);
        if score >= cfg.breachThreshold {
          if IsCooldownActive(cfg, View(), Up, now) {
            return Hold(current);
          }
          var step := UpStep(cfg, demand, current);
          var newCount := Min(current + step, cfg.maxInstances);
          if newCount > current {
            return Decision(Scale(Up), newCount);
          }
        }
      } else if ShouldScaleDown(cfg, demand, current) {
        RecordBreach(Down, now);
        var score := CalculateBreachScore(cfg, decay, Down, now);
        if score >= cfg.breachThreshold {
          if IsCooldownActive(cfg, View(), Down, now) {
            return Hold(current);
          }
          var step := DownStep(cfg, demand, current);
          var newCount := Max(current - step, cfg.minInstances);
          if newCount < current {
            return Decision(Scale(Down), newCount);
          }
        }
      }
      return Hold(current);
    }

    /**
     The main loop's bookkeeping after evaluate_scaling: on "up" or "down" it
     sets that direction's last-scale time and clears that direction's breaches.
     */
    method RecordAction(decision: Decision, now: real)
      modifies this
      ensures View() == AfterAction(old(View()), decision, now)
    {
      if decision.action != NoScale {
        if decision.action == Scale(Up) {
          lastUp := now;
        } else {
          lastDown := now;
        }
        history := Filter(history, Except(decision.action.dir));
      }
    }
  }

  /**
   The part of one iteration of the main loop that touches the scaling state:
   evaluate at `now`, then, after the capacity update, do the bookkeeping at
   `appliedAt`. When the update raises a request error (`raised`), the
   bookkeeping is skipped, and the breach recorded and the pruning done by the
   evaluation are all that remain.
   */
  method ControlTick(
    state: ScalingState, cfg: Config, decay: real -> real, demand: int, current: int,
    now: real, raised: bool, appliedAt: real)
    returns (decision: Decision)
    requires ValidConfig(cfg)
    modifies state
    ensures var e := Evaluate(cfg, decay, old(state.View()), demand, current, now);
      var evaluated := old(state.View()).(history := e.history);
      && decision == e.decision
      && (raised && decision.action != NoScale ==> state.View() == evaluated)
      && (!raised || decision.action == NoScale ==> state.View() == AfterAction(evaluated, decision, appliedAt))
  {
    decision := state.EvaluateScaling(cfg, decay, demand, current, now);
    if decision.action == NoScale || !raised {
      state.RecordAction(decision, appliedAt);
    }
  }
}
