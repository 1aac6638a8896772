/** The tunable parameters of one signal's memory (`MemoryConfig`). */
module Config {

  datatype MemoryConfig = MemoryConfig(
    signal: string,
    alpha: real, decay: real, show: real, hide_: real, prior: real, floorFrac: real,
    tauMerge: real, tauFamily: real,
    baseAlpha: real, devK: real, madFloor: real, baseMinN: nat)

  const DEFAULTS := MemoryConfig("psi_io", 0.4, 0.1, 0.6, 0.25, 0.2, 0.4, 0.85, 0.6, 0.05, 4.0, 0.01, 12)

  /** One step of a confidence towards 1. */
  function Rise(alpha: real, x: real): real {
    x + alpha * (1.0 - x)
  }

  /** What a factor leaves of a confidence. */
  function Fall(keep: real, x: real): real {
    x * keep
  }

  /** The ranges of the edge parameters. */
  predicate EdgeRanges(c: MemoryConfig) {
    && 0.0 <= c.alpha <= 1.0 && 0.0 <= c.decay <= 1.0
    && 0.0 <= c.hide_ <= c.show
    && 0.0 <= c.floorFrac <= 1.0 && 0.0 <= c.prior <= 1.0
  }

  /** The lowest floor a confirmation teaches. */
  function FirstFloor(c: MemoryConfig): real {
    Fall(c.floorFrac, c.alpha)
  }

  /** What the edge memory needs of its parameters: one confirmation from the lowest floor reaches the prior. */
  predicate EdgeConfig(c: MemoryConfig) {
    EdgeRanges(c) && c.prior <= Rise(c.alpha, FirstFloor(c))
  }

  /** What the case library needs of its thresholds. */
  predicate CaseConfig(c: MemoryConfig) {
    0.0 < c.tauFamily <= c.tauMerge <= 1.0
  }

  /** What the baselines need of their parameters. */
  predicate BaselineConfig(c: MemoryConfig) {
    0.0 <= c.baseAlpha <= 1.0 && 0.0 <= c.devK && 0.0 < c.madFloor
  }

  lemma DefaultsAreValid()
    ensures EdgeConfig(DEFAULTS) && CaseConfig(DEFAULTS) && BaselineConfig(DEFAULTS)
  {
  }
}
