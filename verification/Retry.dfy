/** The retransmission loop of SendPacketWithRetry and RequestWithRetryByPacket in discrete time. */
module Retry {
  import opened Basics

  datatype Outcome = Answered | TimedOut

  /** time.Second * time.Duration(seconds): whole seconds only, here in milliseconds. */
  function WaitMillis(seconds: real): (w: int)
    requires seconds >= 0.0
    ensures w % 1000 == 0 && w as real <= seconds * 1000.0 < w as real + 1000.0
  {
    seconds.Floor * 1000
  }

  /** time.Millisecond * time.Duration(seconds * 1000). */
  function RetryMillis(seconds: real): (r: int)
    requires seconds >= 0.0
    ensures r as real <= seconds * 1000.0 < r as real + 1.0
  {
    (seconds * 1000.0).Floor
  }

  function Min(a: nat, b: nat): nat { if a <= b then a else b }

  /** When the loop ends: at the answer, but no later than the timeout. */
  function EndTime(wait: nat, answer: Option<nat>): nat {
    if answer.Some? then Min(answer.value, wait) else wait
  }

  /** One call. `answer` is when its channel is closed; the retry timer starts afresh in every
      round, the timeout only once; among several ready cases select takes any. A retry interval
      that is not positive is always over, so any number of copies may go out at any time. */
  method SendLoop(retry: int, wait: nat, answer: Option<nat>) returns (sent: nat, at: nat, outcome: Outcome)
    ensures at <= wait && (answer.Some? && answer.value < wait ==> at == answer.value)
    ensures answer.None? || answer.value >= wait ==> at == wait
    ensures outcome == Answered ==> answer.Some? && answer.value <= wait
    ensures outcome == TimedOut ==> answer.None? || answer.value >= wait
    ensures retry > 0 ==> sent <= 1 + at / retry
    ensures retry > 0 && at > 0 ==> sent >= 1 + (at - 1) / retry
    ensures sent >= 1
  {
    sent := 1;
    var now := 0;
    while true
      invariant 0 <= now <= EndTime(wait, answer) && sent >= 1
      invariant retry > 0 ==> now == (sent - 1) * retry
      decreases wait - now
    {
      if retry <= 0 {
        var copies: nat :| true;
        sent := sent + copies;
      }
      var pause := if retry > 0 then retry else 1;
      at := Min(now + pause, EndTime(wait, answer));
      if
      case answer.Some? && answer.value <= at =>
        if retry > 0 { Copies(sent, retry, now, at); }
        return sent, at, Answered;
      case now + pause <= at =>
        sent := if retry > 0 then sent + 1 else sent;
        now := now + pause;
      case wait <= at =>
        if retry > 0 { Copies(sent, retry, now, at); }
        return sent, at, TimedOut;
    }
  }

  /** A loop whose last retry was at `now` and that ends before another one is due. */
  lemma Copies(sent: nat, retry: nat, now: nat, at: nat)
    requires retry > 0 && sent >= 1 && now == (sent - 1) * retry && now <= at <= now + retry
    ensures sent <= 1 + at / retry
    ensures at > 0 ==> sent >= 1 + (at - 1) / retry
  {
    Quotient(at, retry, sent - 1);
    if at > 0 { Below(at - 1, retry, sent); }
  }

  lemma Quotient(n: nat, d: nat, q: nat)
    requires d > 0 && q * d <= n
    ensures q <= n / d
  {
    assert n == (n / d) * d + n % d;
    assert (n / d + 1) * d == (n / d) * d + d;
    Cancel(q, n / d + 1, d);
  }

  lemma Cancel(a: nat, b: nat, d: nat)
    requires a * d < b * d
    ensures a < b
  {
  }

  lemma Below(n: nat, d: nat, q: nat)
    requires d > 0 && n < q * d
    ensures n / d < q
  {
  }
}
