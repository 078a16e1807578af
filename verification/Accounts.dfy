/** The sample accounts of rate_t (soxr-sys/src/cr.c, lines 515-547). */
module Accounts {
  import opened Streams

  /** The samples owed for n input samples, line 544. */
  function Due(ratio: real, n: int): int
    requires ratio > 0.0
  {
    (n as real / ratio + 0.5).Floor
  }

  /** How many samples a request for n0 still stands for, lines 517 and 536. */
  function Asked(flushing: bool, samplesOut: int, n0: nat): int {
    if flushing then Min(-samplesOut, n0) else n0
  }
}
