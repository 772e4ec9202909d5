/**
 * capabilities/pepr-store-demo/helpers.ts: the demo capability's own copy of
 * `sleep` and `untilTrue`, character for character the loop of
 * capabilities/helpers/helpers.ts, so it runs the same poll.
 */
module StoreDemoHelpers {
  import opened Results
  import opened Helpers

  /** `untilTrue(predicate)` of the demo capability. */
  method UntilTrue(answers: seq<Answer>) returns (log: seq<Step>, thrown: Option<string>)
    requires Settles(answers)
    ensures Poll(log, thrown) == Polled(answers)
  {
    log, thrown := Helpers.UntilTrue(answers);
  }
}
