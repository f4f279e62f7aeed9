/**
  The timing constants of helper/utils.py, in seconds, and the orderings
  between them that the file's comments state.
 */
module Settings {

  const STREAM_CLOSE_TIMEOUT: nat := 5
  const INTERVAL_BETWEEN_VISIT: nat := 1
  const WAIT_AFTER_DUMP: nat := 5

  const INTERVAL_WAIT_FOR_LAUNCH: nat := 30
  const INTERVAL_WAIT_AFTER_RESTART: nat := 20
  const INTERVAL_WHEN_TOR_LAUNCH_ERROR: nat := 1

  const WAIT_FOR_VISIT: nat := 120
  const WAIT_FOR_VISIT_ONION: nat := 240

  /** The timeout the browser driver and the packet capture enforce themselves. */
  const SOFT_VISIT_TIMEOUT: nat := 200
  /** The signal-based deadline that backs up the soft one. */
  const HARD_VISIT_TIMEOUT: nat := SOFT_VISIT_TIMEOUT + 10

  /** The comment above the two visit waits: both must stay below the soft timeout. */
  predicate VisitWaitsBelowSoftTimeout() {
    WAIT_FOR_VISIT < SOFT_VISIT_TIMEOUT && WAIT_FOR_VISIT_ONION < SOFT_VISIT_TIMEOUT
  }

  /** The hard deadline is ten seconds after the soft one, so the soft one gets to fire first. */
  lemma HardTimeoutFollowsSoft()
    ensures HARD_VISIT_TIMEOUT == SOFT_VISIT_TIMEOUT + 10
    ensures SOFT_VISIT_TIMEOUT < HARD_VISIT_TIMEOUT
  {
  }

  /** The ordinary visit wait respects the comment. */
  lemma OrdinaryWaitBelowSoftTimeout()
    ensures WAIT_FOR_VISIT < SOFT_VISIT_TIMEOUT
  {
  }

  /** The onion visit wait does not: 240 seconds is past the 200-second soft timeout. */
  lemma OnionWaitBreaksTheComment()
    ensures SOFT_VISIT_TIMEOUT < WAIT_FOR_VISIT_ONION
    ensures !VisitWaitsBelowSoftTimeout()
  {
  }
}
