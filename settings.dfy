/**
 The autoscaler's static configuration: the values read once from the
 environment at startup, and the startup validation that makes the process
 exit when any of them is out of bounds.
 */
module Settings {

  /**
   The scaling configuration; field by field the environment variables of the
   same name. RUNNER_NAME_PREFIX is not here: the job rules take it as a parameter.
   */
  datatype Config = Config(
    minInstances: int,
    maxInstances: int,
    pollInterval: int,
    scaleUpCooldown: int,            // seconds
    scaleDownCooldown: int,          // seconds
    scaleUpThreshold: real,          // demand/capacity ratio above which to scale up
    scaleDownThreshold: real,        // demand/capacity ratio below which to scale down
    scaleUpStep: int,                // largest step up
    scaleDownStep: int,              // largest step down
    scaleUpProportion: real,         // fraction of the deficit to add
    scaleDownProportion: real,       // fraction of the excess to remove
    stabilizationWindowMinutes: int,
    decayHalfLifeSeconds: real,
    breachThreshold: real)

  /** The configuration when no environment variable overrides a default. */
  const Defaults := Config(1, 5, 60, 60, 180, 1.5, 0.25, 2, 1, 0.5, 0.5, 3, 30.0, 2.0)

  /** One message of the startup validation. */
  datatype ConfigError =
    | MinAboveMax
    | NegativeMin
    | NegativeUpCooldown
    | NegativeDownCooldown
    | NonPositivePollInterval
    | UpStepBelowOne
    | DownStepBelowOne
    | NonPositiveUpThreshold
    | NegativeDownThreshold
    | NonPositiveWindow
    | NonPositiveHalfLife
    | NonPositiveBreachThreshold
    | UpProportionOutOfRange
    | DownProportionOutOfRange

  /** The bounds every configuration must satisfy for the autoscaler to start. */
  predicate ValidConfig(c: Config) {
    && 0 <= c.minInstances <= c.maxInstances
    && 0 <= c.scaleUpCooldown
    && 0 <= c.scaleDownCooldown
    && 0 < c.pollInterval
    && 1 <= c.scaleUpStep
    && 1 <= c.scaleDownStep
    && 0.0 < c.scaleUpThreshold
    && 0.0 <= c.scaleDownThreshold
    && 0 < c.stabilizationWindowMinutes
    && 0.0 < c.decayHalfLifeSeconds
    && 0.0 < c.breachThreshold
    && 0.0 < c.scaleUpProportion <= 1.0
    && 0.0 < c.scaleDownProportion <= 1.0
  }

  function Check(failed: bool, e: ConfigError): (errs: seq<ConfigError>)
    ensures forall x :: x in errs <==> failed && x == e
  {
    if failed then [e] else []
  }

  /** The checks on instance bounds, cooldowns and poll interval, in source order. */
  function TimingErrors(c: Config): (errs: seq<ConfigError>)
    ensures MinAboveMax in errs <==> c.minInstances > c.maxInstances
    ensures NegativeMin in errs <==> c.minInstances < 0
    ensures NegativeUpCooldown in errs <==> c.scaleUpCooldown < 0
    ensures NegativeDownCooldown in errs <==> c.scaleDownCooldown < 0
    ensures NonPositivePollInterval in errs <==> c.pollInterval <= 0
    ensures forall x :: x in errs ==> x in {MinAboveMax, NegativeMin, NegativeUpCooldown, NegativeDownCooldown, NonPositivePollInterval}
  {
    Check(c.minInstances > c.maxInstances, MinAboveMax)
    + Check(c.minInstances < 0, NegativeMin)
    + Check(c.scaleUpCooldown < 0, NegativeUpCooldown)
    + Check(c.scaleDownCooldown < 0, NegativeDownCooldown)
    + Check(c.pollInterval <= 0, NonPositivePollInterval)
  }

  /** The checks on step sizes and thresholds, in source order. */
  function StepErrors(c: Config): (errs: seq<ConfigError>)
    ensures UpStepBelowOne in errs <==> c.scaleUpStep < 1
    ensures DownStepBelowOne in errs <==> c.scaleDownStep < 1
    ensures NonPositiveUpThreshold in errs <==> c.scaleUpThreshold <= 0.0
    ensures NegativeDownThreshold in errs <==> c.scaleDownThreshold < 0.0
    ensures forall x :: x in errs ==> x in {UpStepBelowOne, DownStepBelowOne, NonPositiveUpThreshold, NegativeDownThreshold}
  {
    Check(c.scaleUpStep < 1, UpStepBelowOne)
    + Check(c.scaleDownStep < 1, DownStepBelowOne)
    + Check(c.scaleUpThreshold <= 0.0, NonPositiveUpThreshold)
    + Check(c.scaleDownThreshold < 0.0, NegativeDownThreshold)
  }

  /** The checks on the stabilization settings and proportions, in source order. */
  function StabilizationErrors(c: Config): (errs: seq<ConfigError>)
    ensures NonPositiveWindow in errs <==> c.stabilizationWindowMinutes <= 0
    ensures NonPositiveHalfLife in errs <==> c.decayHalfLifeSeconds <= 0.0
    ensures NonPositiveBreachThreshold in errs <==> c.breachThreshold <= 0.0
    ensures UpProportionOutOfRange in errs <==> !(0.0 < c.scaleUpProportion <= 1.0)
    ensures DownProportionOutOfRange in errs <==> !(0.0 < c.scaleDownProportion <= 1.0)
    ensures forall x :: x in errs ==> x in {NonPositiveWindow, NonPositiveHalfLife, NonPositiveBreachThreshold, UpProportionOutOfRange, DownProportionOutOfRange}
  {
    Check(c.stabilizationWindowMinutes <= 0, NonPositiveWindow)
    + Check(c.decayHalfLifeSeconds <= 0.0, NonPositiveHalfLife)
    + Check(c.breachThreshold <= 0.0, NonPositiveBreachThreshold)
    + Check(!(0.0 < c.scaleUpProportion <= 1.0), UpProportionOutOfRange)
    + Check(!(0.0 < c.scaleDownProportion <= 1.0), DownProportionOutOfRange)
  }

  /**
   The error list validate_config builds, in the order it checks the bounds.
   Each message is present exactly when its bound fails, and the list is
   empty exactly when the configuration is valid.
   */
  function ConfigErrors(c: Config): (errs: seq<ConfigError>)
    ensures forall x :: x in errs <==> x in TimingErrors(c) || x in StepErrors(c) || x in StabilizationErrors(c)
    ensures errs == [] <==> ValidConfig(c)
  {
    TimingErrors(c) + StepErrors(c) + StabilizationErrors(c)
  }

  /** validate_config: true when startup proceeds, false when the process exits with status 1. */
  function ValidateConfig(c: Config): (passes: bool)
    ensures passes <==> ValidConfig(c)
  {
    ConfigErrors(c) == []
  }

  /** The defaults pass validation, and each of the failing settings the tests try is refused. */
  lemma ValidationExamples()
    ensures ValidateConfig(Defaults)
    ensures !ValidateConfig(Defaults.(minInstances := 10, maxInstances := 5))
    ensures !ValidateConfig(Defaults.(minInstances := -1))
    ensures !ValidateConfig(Defaults.(scaleUpCooldown := -1))
    ensures !ValidateConfig(Defaults.(pollInterval := 0))
    ensures !ValidateConfig(Defaults.(scaleUpStep := 0))
    ensures !ValidateConfig(Defaults.(scaleUpProportion := 0.0))
    ensures !ValidateConfig(Defaults.(scaleUpProportion := 1.5))
  {
  }
}
