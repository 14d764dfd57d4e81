# Runner autoscaler: the scaling decision engine

This project models the decision core of a GitHub Actions runner autoscaler
for DigitalOcean App Platform (`autoscaler/autoscaler.py`). Every poll tick
the autoscaler turns a job demand and the current instance count of the
runner worker into `("up", n)`, `("down", n)` or `("none", current)`.

- **Thresholds.** Hysteresis ratios decide whether a tick breaches upward
  (`demand > current * SCALE_UP_THRESHOLD`) or downward
  (`demand < current * SCALE_DOWN_THRESHOLD`). Upward is tested first.
- **Breach history.** Each breach is appended to a history of
  `(timestamp, direction)` entries. The history is pruned to the
  stabilization window every time it is scored.
- **Breach score.** The score is the sum of the exponentially decayed
  weights of the in-window breaches of one direction.
- **Action.** The engine acts only when the score reaches `BREACH_THRESHOLD`
  and that direction's own cooldown is over. The step is a truncated
  proportion of the gap, between 1 and the step cap. Going up it is capped
  at `MAX_INSTANCES`; going down at `MIN_INSTANCES`.
- **Bookkeeping.** After an action the main loop stamps that direction's
  last-scale time and clears that direction's breaches.

Modules:

- `Settings` (settings.dfy): the configuration record, its defaults, and
  `validate_config` as the list of error messages it builds.
- `History` (history.dfy): breach entries; the filters over the history
  (window pruning, clearing one direction, selecting one direction); the
  decayed score.
- `Policy` (policy.dfy): thresholds, cooldown and step sizing. It holds
  `evaluate_scaling` as the pure function `Evaluate` over a `Snapshot`
  (the value of the scaling state), and the main loop's bookkeeping as
  `AfterAction`.
- `State` (state.dfy): `ScalingState` as a class whose methods update its
  fields in place. Each method is proved equal to the functions above.
  `ControlTick` is the state-touching part of one main-loop iteration.
- `Jobs` (jobs.dfy): the job and runner predicates. These are
  `is_self_hosted_job`, `is_our_runner`, the job-counting loop of
  `get_job_demand` and the dead-runner selection of `cleanup_dead_runners`.

Inputs the source takes from its environment are parameters here:

- **Clock.** `time.time()` becomes a `now: real` argument. One tick reads
  the clock once, and the bookkeeping after an action reads it once more
  (`appliedAt`).
- **Configuration.** The environment variables become a `Config` value.
- **Decay.** The weight `0.5 ** x` becomes a `decay: real -> real` argument.
  The ghost predicate `IsHalvingDecay` constrains it: weight 1 at age 0,
  0.5 after one half-life, within (0, 1] for every age that is not
  negative, and non-increasing.

Three behaviours of the code that are easy to misread:

- **Truncation.** The step is truncated toward zero with `int()`.
  `TruncAgreesWithFloorAboveOne` shows that after raising the step to at
  least 1, truncation and floor agree.
- **Clamping.** The target is capped on one side only: at MAX going up and
  at MIN going down. A target within `[MIN_INSTANCES, MAX_INSTANCES]` is
  therefore guaranteed only when the current count already lies in that
  range (`EvaluateStaysInBounds`).
- **Cooldown after a failed update.** When `scale_worker` returns False
  (the worker is missing from the app spec, or the read-back count differs),
  the main loop ignores that result: the cooldown timestamp is still set and
  the direction's breaches are still cleared. When the update raises a
  request error instead, the bookkeeping is skipped and the tick leaves only
  the breach it recorded (`ControlTick`'s `raised` case).

## Model

| member | source | states |
|---|---|---|
| Settings.TimingErrors | autoscaler/autoscaler.py:75-84 | the MIN>MAX, negative MIN, negative cooldown and non-positive poll-interval messages appear exactly when their bound fails |
| Settings.StepErrors | autoscaler/autoscaler.py:85-92 | the step < 1, non-positive scale-up threshold and negative scale-down threshold messages appear exactly when their bound fails |
| Settings.StabilizationErrors | autoscaler/autoscaler.py:93-102 | the window, half-life, breach-threshold and proportion-outside-(0,1] messages appear exactly when their bound fails |
| Settings.ConfigErrors | autoscaler/autoscaler.py:71-107 | the error list holds exactly the messages of the three groups and is empty iff every configuration bound holds |
| Settings.ValidConfig | autoscaler/autoscaler.py:71-102 | the conjunction of every bound validate_config checks; ConfigErrors is proved empty exactly when it holds |
| Settings.ValidateConfig | autoscaler/autoscaler.py:104-107 | startup passes iff the configuration satisfies every bound, and exits otherwise |
| Settings.ValidationExamples | autoscaler/test_autoscaler.py:714-784 | the defaults pass, and MIN>MAX, negative MIN, negative cooldown, zero poll interval, zero step and proportions 0 and 1.5 are refused |
| Jobs.IsSelfHostedJob | autoscaler/autoscaler.py:110-113 | a job targets self-hosted runners iff "self-hosted" is among its labels; a job without labels does not |
| Jobs.StartsWith | autoscaler/autoscaler.py:129 | the character-by-character prefix test agrees with sequence prefix |
| Jobs.IsOurRunner | autoscaler/autoscaler.py:116-129 | a missing or empty name is never ours; with an empty prefix every other name is; otherwise iff the prefix begins the name |
| Jobs.RunnerNameExamples | autoscaler/test_autoscaler.py:54-80 | matching and bare prefixes accepted; other names, upper-case names, None and "" refused; empty prefix accepts any name |
| Jobs.QueuedDemand | autoscaler/autoscaler.py:206-209 | counts the queued self-hosted jobs, never more than there are jobs |
| Jobs.RunningDemand | autoscaler/autoscaler.py:210-213 | counts the in-progress jobs on our runners, never more than there are jobs |
| Jobs.CountDemand | autoscaler/autoscaler.py:202-213 | the loop counts queued self-hosted jobs and in-progress jobs on our runners, and the total never exceeds the number of jobs |
| Jobs.DemandAtMostJobs | autoscaler/autoscaler.py:206-213 | the queued and in-progress branches are exclusive, so no job is counted twice |
| Jobs.DemandAppend | autoscaler/autoscaler.py:182-213 | demand over the jobs of several runs is the sum of the demand of each |
| Jobs.DeadRunners | autoscaler/autoscaler.py:481-488 | every selected runner is offline, not busy, has a non-zero id and comes from the input; every such runner of the input is selected |
| Jobs.DeadRunnersAppend | autoscaler/autoscaler.py:481-488 | selection keeps listing order: the dead runners of a + b are those of a followed by those of b |
| History.Filter | autoscaler/autoscaler.py:319-321 | a filtered history is no longer than the original and every entry it keeps satisfies the criterion |
| History.FilterAppend | autoscaler/autoscaler.py:319-321 | filtering distributes over concatenation, so kept entries stay in their original order |
| History.FilterCounts | autoscaler/autoscaler.py:319-321 | filtering keeps each kept entry with its multiplicity and drops every other entry |
| History.FilterKeepsAll | autoscaler/autoscaler.py:319-321 | a history whose every entry passes the criterion is unchanged |
| History.FilterDropsAll | autoscaler/autoscaler.py:551-553 | a history none of whose entries passes the criterion becomes empty |
| History.FilterFilter | autoscaler/autoscaler.py:319-321 | filtering with a weaker then a stricter criterion equals filtering with the stricter one |
| History.FilterCommute | autoscaler/autoscaler.py:551-553 | window pruning and clearing a direction can be done in either order |
| History.PruningIsIdempotent | autoscaler/autoscaler.py:315-321 | pruning again at the same now removes nothing; pruning with a later window start equals pruning with that window alone |
| History.Weight | autoscaler/autoscaler.py:326-328 | a breach not in the future weighs within (0,1]; one recorded at now weighs exactly 1; one a half-life old weighs one half |
| History.Score | autoscaler/autoscaler.py:323-331 | sums the weights of the direction's entries oldest first; with every entry at or before now the score lies in [0, number of entries] |
| History.ScoreAppend | autoscaler/autoscaler.py:323-331 | the score of a concatenation is the sum of the scores |
| History.ScoreBounds | autoscaler/autoscaler.py:323-331 | with all timestamps at or before now, 0 <= score <= number of entries of the direction, and the score is positive when there is one |
| History.ScoreOnlyMatching | autoscaler/autoscaler.py:324-325 | only entries of the scored direction contribute; with none the score is 0 |
| History.NewBreachScoresOne | autoscaler/autoscaler.py:334-336 | a breach recorded at now adds exactly 1.0 to its direction's score at now |
| History.ContributionDecays | autoscaler/autoscaler.py:326-329 | what one breach adds to a pruned score can only shrink as time passes and the window moves on |
| History.ScoreDecaysOverTime | autoscaler/autoscaler.py:315-331 | scoring the same breaches later, with the window moved on, never gives a higher score |
| Policy.ShouldScaleUp | autoscaler/autoscaler.py:297-300 | breach iff demand > current * SCALE_UP_THRESHOLD; under a valid configuration a breach needs demand of at least 1 |
| Policy.ShouldScaleDown | autoscaler/autoscaler.py:303-306 | breach iff demand < current * SCALE_DOWN_THRESHOLD; under a valid configuration a breach needs at least one instance |
| Policy.ThresholdFacts | autoscaler/autoscaler.py:297-306 | more demand keeps an up breach, less demand keeps a down breach; with down ratio <= up ratio no demand breaches both ways |
| Policy.IsCooldownActive | autoscaler/autoscaler.py:339-352 | a direction never scaled (time 0) has no cooldown; otherwise the cooldown lasts until its own period has elapsed since its own last scaling |
| Policy.CooldownIsPerDirection | autoscaler/autoscaler.py:339-352 | a direction's cooldown depends only on that direction's timestamp, and once over stays over |
| Policy.Trunc | autoscaler/autoscaler.py:389 | int() truncates toward zero: the result is within 1 of x, on x's side of zero |
| Policy.TruncAgreesWithFloorAboveOne | autoscaler/autoscaler.py:389 | max(int(x), 1) equals max(floor(x), 1) |
| Policy.ProportionalStep | autoscaler/autoscaler.py:387-389 | the step never exceeds its cap, is at least 1 when the cap allows, exceeds 1 only up to the proportional share, and below the cap loses only the truncated fraction |
| Policy.Act | autoscaler/autoscaler.py:386-420 | defines the acting step: up to min(current+step, MAX) if above current, down to max(current-step, MIN) if below, else hold; its meaning is stated by EvaluateActs and EvaluateStepBounds |
| Policy.OnBreach | autoscaler/autoscaler.py:372-420 | defines one direction's breach branch: record and prune, hold below BREACH_THRESHOLD or in cooldown, otherwise Act; stated by EvaluateGates and EvaluateActs |
| Policy.Evaluate | autoscaler/autoscaler.py:355-426 | defines evaluate_scaling on a snapshot, up tested before down; its meaning is stated by the Evaluate* lemmas below |
| Policy.EvaluateRecordsBreach | autoscaler/autoscaler.py:372-426 | a tick breaching a way (up first) leaves the pruned old history plus exactly one entry (now, that way); a tick breaching neither way returns ("none", current) with the history untouched |
| Policy.EvaluatePrunes | autoscaler/autoscaler.py:315-321 | after a breaching tick every entry is newer than the window start, and the survivors are exactly the in-window entries with their multiplicities |
| Policy.EvaluateGates | autoscaler/autoscaler.py:381-410 | an action needs a breach in its direction, a score >= BREACH_THRESHOLD and an inactive cooldown; a breach during the cooldown returns ("none", current) with the breach kept |
| Policy.EvaluateActs | autoscaler/autoscaler.py:381-420 | a breaching tick with score >= BREACH_THRESHOLD and no active cooldown returns ("up", min(current+step, MAX)) when below MAX and ("down", max(current-step, MIN)) when above MIN, otherwise ("none", current) |
| Policy.EvaluateStepBounds | autoscaler/autoscaler.py:387-426 | "up" implies current < n <= min(current+SCALE_UP_STEP, MAX); "down" implies max(current-SCALE_DOWN_STEP, MIN) <= n < current; "none" carries current |
| Policy.EvaluateStaysInBounds | autoscaler/autoscaler.py:390-420 | from a count within [MIN, MAX] the result stays within it; at MAX no "up", at MIN no "down" |
| Policy.AfterAction | autoscaler/autoscaler.py:545-553 | defines the bookkeeping on a snapshot; its meaning is stated by AfterActionClearsDirection |
| Policy.AfterActionClearsDirection | autoscaler/autoscaler.py:545-553 | after an action only that direction's time is set to now, no entry of that direction remains, and the other direction's entries are kept in order |
| Policy.NoRepeatWithinCooldown | autoscaler/autoscaler.py:546-549 | after acting in a direction at a non-zero time, no tick within that direction's cooldown acts that way again |
| Policy.LoneBreachScoresOne | autoscaler/autoscaler.py:319-336 | with no entry of a direction in the history, recording and pruning leaves a score of exactly 1 for that direction |
| Policy.FirstBreachScoresOne | autoscaler/autoscaler.py:550-553 | with no entry of a direction left, a tick's new breach scores exactly 1, so with BREACH_THRESHOLD > 1 it cannot act |
| State.ScalingState.constructor | autoscaler/autoscaler.py:132-139 | a new state has both times 0 and an empty history |
| State.ScalingState.RecordBreach | autoscaler/autoscaler.py:334-336 | appends (now, direction) to the end of the history and changes nothing else |
| State.ScalingState.CalculateBreachScore | autoscaler/autoscaler.py:309-331 | the history becomes its in-window entries in order, and the loop returns the decayed score of the direction over them |
| State.ScalingState.EvaluateScaling | autoscaler/autoscaler.py:355-426 | decision and new history are those of Evaluate on the old state; timestamps are unchanged |
| State.ScalingState.RecordAction | autoscaler/autoscaler.py:542-553 | the state becomes AfterAction of the old state: on "up"/"down" that time is set and that direction's breaches cleared; "none" changes nothing |
| State.ControlTick | autoscaler/autoscaler.py:540-558 | one loop iteration's decision is Evaluate's; the state then gets the bookkeeping, unless scale_worker raised a request error, in which case only the evaluation's history change remains |

## Left out

- HTTP calls are not modelled. This covers `get_job_demand`'s requests,
  `get_current_instance_count`, `scale_worker` (its PUT and read-back),
  `get_runners` and `delete_runner`. These talk to the GitHub and
  DigitalOcean APIs.
- Demand and the current count are therefore parameters. The job-counting
  loop is modelled over a list of jobs, without the per-run requests and
  their skipped runs. The selection of dead runners is modelled, but not
  their deletion or the count of deletions.
- The main loop is not modelled beyond one iteration's effect on the
  scaling state (`State.ControlTick`): its endless repetition, `time.sleep`
  and logging are left out, and of its exception handling only the skipped
  bookkeeping after a request error raised by `scale_worker` is kept. Environment-variable parsing becomes a
  `Config` value.
- Floating-point behaviour is not modelled. Ratios, proportions and times
  are exact reals, and `0.5 ** x` is any function meeting `IsHalvingDecay`.
  The worked scores of particular decay values (e.g. 1 + 0.977 + 0.955 for
  three breaches a second apart) therefore cannot be stated. What the model
  states instead is that a fresh breach weighs 1, a breach one half-life old
  weighs 0.5, and weights never grow with age.
- Policy.Evaluate reads the clock once per tick. The source reads it
  separately in `record_breach`, `calculate_breach_score` and
  `is_cooldown_active`, moments apart.
- Integer widths play no part. Python integers are unbounded, like Dafny's.
- Dynamic typing of JSON values is not modelled: for example, a "labels"
  key holding null would raise in the source. Jobs and runners are typed
  records.
- The time-0 sentinel is kept as in the source. A scaling action stamped
  at exactly time 0 would read as "never scaled", so
  `Policy.NoRepeatWithinCooldown` requires a non-zero action time.
