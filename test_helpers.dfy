/**
 * capabilities/test.helpers.ts: `sleep` and `waitFor`, the poll loop of
 * capabilities/helpers/helpers.ts under another name.
 */
module TestHelpers {
  import opened Results
  import opened Helpers

  /** `waitFor(pred)`: the same break-or-sleep loop as `untilTrue`. */
  method WaitFor(answers: seq<Answer>) returns (log: seq<Step>, thrown: Option<string>)
    requires Settles(answers)
    ensures Poll(log, thrown) == Polled(answers)
  {
    log, thrown := Helpers.UntilTrue(answers);
  }
}
