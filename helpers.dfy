/**
 * Time units and the poll loop of capabilities/helpers/helpers.ts: `secs`,
 * `mins`, the millisecond delay `sleep` hands to `setTimeout`, and
 * `untilTrue`, which asks a predicate until it answers true and sleeps one
 * second after every false answer.
 *
 * Durations are whole numbers of the source's unit; the predicate is a
 * script of the answers it gives, one per call.
 */
module Helpers {
  import opened Results

  /** `secs(n)`: `n` seconds in milliseconds. */
  function Secs(n: int): (ms: int)
    ensures ms % 1000 == 0 && ms / 1000 == n
  {
    n * 1000
  }

  /** `mins(n)`: `n` times a minute's worth of milliseconds. */
  function Mins(n: int): (ms: int)
    ensures ms % 60000 == 0 && ms / 60000 == n
  {
    n * Secs(60)
  }

  /** The delay `sleep(seconds)` passes to `setTimeout`. */
  function SleepMs(seconds: int): int {
    seconds * 1000
  }

  /** A minute is sixty seconds: `mins(n)` is `secs(60 * n)`. */
  lemma MinsAreSixtySecs(n: int)
    ensures Mins(n) == Secs(60 * n)
  {
  }

  /** `sleep(s)` waits exactly `secs(s)` milliseconds. */
  lemma SleepWaitsSecs(s: int)
    ensures SleepMs(s) == Secs(s)
  {
  }

  /** The values the source's table of examples expects. */
  lemma UnitExamples()
    ensures Secs(1) == 1000 && Secs(30) == 30000 && Secs(300) == 300000
    ensures Mins(1) == 60000 && Mins(2) == 120000 && Mins(5) == 300000
  {
  }

  /** One call of the predicate: it resolves true, resolves false, or rejects. */
  datatype Answer = Yes | No | Rejected(reason: string)

  /** What the loop does, in order: call the predicate, or sleep. */
  datatype Step = Ask | Pause(ms: int)

  /** A finished run: its steps, and the rejection it propagates, if any. */
  datatype Poll = Poll(log: seq<Step>, thrown: Option<string>)

  /**
   * The loop has no attempt bound: it finishes only if some call answers
   * other than false.
   */
  predicate Settles(answers: seq<Answer>) {
    exists i :: 0 <= i < |answers| && answers[i] != No
  }

  /** The call the loop stops at: the first answer that is not false. */
  function FirstDecisive(answers: seq<Answer>): (k: nat)
    requires Settles(answers)
    ensures k < |answers| && answers[k] != No
    ensures forall i :: 0 <= i < k ==> answers[i] == No
  {
    if answers[0] != No then 0
    else
      assert Settles(answers[1..]) by {
        var i :| 0 <= i < |answers| && answers[i] != No;
        assert answers[1..][i - 1] == answers[i];
      }
      var k := FirstDecisive(answers[1..]);
      assert forall i :: 1 <= i < |answers| ==> answers[1..][i - 1] == answers[i];
      1 + k
  }

  /** The pair of steps a false answer costs: the call, then `sleep(1)`. */
  const Retry := [Ask, Pause(SleepMs(1))]

  /**
   * The run `while (true) { if (await predicate()) { break } await sleep(1) }`
   * makes: one call per answer up to the first one that is not false, a
   * one-second sleep after each false answer and none after the last call; a
   * rejection escapes the loop, since nothing catches it.
   */
  function Polled(answers: seq<Answer>): (p: Poll)
    requires Settles(answers)
    ensures |p.log| == 2 * FirstDecisive(answers) + 1
    ensures forall i :: 0 <= i < |p.log| ==> p.log[i] == (if i % 2 == 0 then Ask else Pause(1000))
    ensures p.thrown.Some? <==> answers[FirstDecisive(answers)].Rejected?
    ensures p.thrown.Some? ==> p.thrown.value == answers[FirstDecisive(answers)].reason
  {
    match answers[0]
    case Yes => Poll([Ask], None)
    case Rejected(reason) => Poll([Ask], Some(reason))
    case No =>
      var rest := Polled(answers[1..]);
      assert FirstDecisive(answers) == 1 + FirstDecisive(answers[1..]);
      Poll(Retry + rest.log, rest.thrown)
  }

  /** Answers after the first decisive one are never asked for. */
  lemma {:induction false} PolledIgnoresLaterAnswers(answers: seq<Answer>, more: seq<Answer>)
    requires Settles(answers)
    ensures Settles(answers + more)
    ensures Polled(answers + more) == Polled(answers)
  {
    var k := FirstDecisive(answers);
    assert (answers + more)[k] == answers[k];
    if answers[0] == No {
      assert (answers + more)[1..] == answers[1..] + more;
      PolledIgnoresLaterAnswers(answers[1..], more);
    }
  }

  /** The number of one-second sleeps a run performs. */
  function Sleeps(log: seq<Step>): (n: nat)
    ensures n <= |log|
  {
    if log == [] then 0
    else (if log[0] == Pause(1000) then 1 else 0) + Sleeps(log[1..])
  }

  /** The loop sleeps once per false answer. */
  lemma {:induction false} SleepsOncePerFalse(answers: seq<Answer>)
    requires Settles(answers)
    ensures Sleeps(Polled(answers).log) == FirstDecisive(answers)
  {
    if answers[0] == No {
      var rest := Polled(answers[1..]).log;
      SleepsOncePerFalse(answers[1..]);
      assert Polled(answers).log == Retry + rest;
      SleepsAfterRetry(rest);
    }
  }

  lemma SleepsAfterRetry(log: seq<Step>)
    ensures Sleeps(Retry + log) == 1 + Sleeps(log)
  {
    assert (Retry + log)[1..] == [Pause(1000)] + log;
    assert ([Pause(1000)] + log)[1..] == log;
  }

  /** The last step of a run is a call: the loop never sleeps after the answer that ends it. */
  lemma PolledEndsWithAsk(answers: seq<Answer>)
    requires Settles(answers)
    ensures Polled(answers).log[|Polled(answers).log| - 1] == Ask
  {
    var k := FirstDecisive(answers);
    assert |Polled(answers).log| - 1 == 2 * k && (2 * k) % 2 == 0;
  }

  /**
   * `untilTrue(predicate)`: asks until an answer is true, sleeping one
   * second after each false one; a rejection leaves the loop at once.
   */
  method UntilTrue(answers: seq<Answer>) returns (log: seq<Step>, thrown: Option<string>)
    requires Settles(answers)
    ensures Poll(log, thrown) == Polled(answers)
  {
    log := [];
    var j := 0;
    while true
      invariant j <= FirstDecisive(answers)
      invariant |log| == 2 * j
      invariant forall i :: 0 <= i < |log| ==> log[i] == (if i % 2 == 0 then Ask else Pause(1000))
      decreases FirstDecisive(answers) - j
    {
      log := log + [Ask];
      match answers[j]
      case Yes =>
        thrown := None;
        break;
      case Rejected(reason) =>
        thrown := Some(reason);
        break;
      case No =>
        log := log + [Pause(SleepMs(1))];
        j := j + 1;
    }
    assert j == FirstDecisive(answers);
  }
}
