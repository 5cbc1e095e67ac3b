/** The SETTINGS block at the top of buysell.py, plus the moving-average window type. */
module Settings {

  /** A moving-average window: pandas refuses a span below 1, and both windows used are positive. */
  type Window = w: nat | w >= 1 witness 1

  /** A BTC/ETH ratio: the quotient of two positive exchange prices. */
  type Ratio = r: real | r > 0.0 witness 1.0

  /** Shakepay's spread, charged on every proposed swap. */
  const FEE: real := 0.015

  const SHORT_WINDOW: Window := 10

  const LONG_WINDOW: Window := 50

  /** Exponential (true) or simple (false) moving averages. */
  const USE_EMA: bool := true

  /** Seconds slept after a loop iteration that completed. */
  const CHECK_INTERVAL: nat := 3600

  /** Seconds slept after a loop iteration that raised. */
  const ERROR_DELAY: nat := 60
}
