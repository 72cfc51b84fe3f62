module Basics {
  // Types that several modules share.

  datatype Option<+T> = None | Some(value: T)

  type Token = int

  /** Weights and caps. */
  type Positive = n: nat | n >= 1 witness 1
}
