/** What the submit handler's bounded retry loop does, as a function of the
    responses the create calls receive. */
module Submission {
  import opened Text

  /** `maxRetries`: the number of create calls one submit may make. */
  const MaxRetries: nat := 3

  datatype Severity = SuccessSeverity | ErrorSeverity | WarningSeverity

  /** One snackbar the handler shows. */
  datatype Notice =
    | RetryWarning(attempt: nat)   // a failed call that will be retried
    | Submitted                    // the create call was answered with an ok status
    | AllFailed(attempts: nat)     // the last allowed call failed too

  function SeverityOf(n: Notice): Severity {
    match n
    case RetryWarning(_) => WarningSeverity
    case Submitted => SuccessSeverity
    case AllFailed(_) => ErrorSeverity
  }

  /** The snackbar text; the numbers are rendered in decimal as a template literal does. */
  function Message(n: Notice): string {
    match n
    case RetryWarning(k) => "Attempt " + NatToString(k) + " failed. API service may be down. Retrying..."
    case Submitted => "Contact submitted successfully!"
    case AllFailed(m) => "All " + NatToString(m) + " attempts failed. Please try again later."
  }

  /** Whether create call number `i` (counting from 0) is answered with an ok
      status. A non-ok status, a network error and the per-call timeout are
      all `false`; a call beyond the listed outcomes gets no answer. */
  predicate Responds(outcomes: seq<bool>, i: nat) {
    i < |outcomes| && outcomes[i]
  }

  /** The first call, from `from` on, that is answered with an ok status, or
      `MaxRetries` if none of the allowed calls is. */
  function FirstOk(outcomes: seq<bool>, from: nat): (k: nat)
    requires from <= MaxRetries
    ensures from <= k <= MaxRetries
    ensures forall i :: from <= i < k ==> !Responds(outcomes, i)
    ensures k < MaxRetries ==> Responds(outcomes, k)
    decreases MaxRetries - from
  {
    if from == MaxRetries || Responds(outcomes, from) then from
    else FirstOk(outcomes, from + 1)
  }

  /** `n` copies of `x`: the same draft posted by every call. */
  function Repeat<T>(x: T, n: nat): (r: seq<T>)
    ensures |r| == n && forall i :: 0 <= i < n ==> r[i] == x
  {
    seq(n, _ => x)
  }

  /** The warnings for failed calls 1 to `n`. */
  function Warnings(n: nat): (r: seq<Notice>)
    ensures |r| == n && forall i :: 0 <= i < n ==> r[i] == RetryWarning(i + 1)
  {
    seq(n, i requires 0 <= i < n => RetryWarning(i + 1))
  }

  lemma RepeatSnoc<T>(x: T, n: nat)
    ensures Repeat(x, n) + [x] == Repeat(x, n + 1)
  {
  }

  lemma WarningsSnoc(n: nat)
    ensures Warnings(n) + [RetryWarning(n + 1)] == Warnings(n + 1)
  {
  }

  /** The outcome of one submit of a valid draft: how many create calls are
      made, the snackbars shown in order, and whether the draft was accepted. */
  datatype Report = Report(calls: nat, notices: seq<Notice>, succeeded: bool)

  /** The retry loop's effect: calls stop at the first ok answer and never
      exceed `MaxRetries`; the submit succeeds exactly when one of the allowed
      calls is answered with an ok status. */
  function Retry(outcomes: seq<bool>): (r: Report)
    ensures 1 <= r.calls <= MaxRetries
    ensures |r.notices| == r.calls
    ensures r.succeeded <==> exists i :: 0 <= i < MaxRetries && Responds(outcomes, i)
  {
    var k := FirstOk(outcomes, 0);
    if k < MaxRetries then Report(k + 1, Warnings(k) + [Submitted], true)
    else Report(MaxRetries, Warnings(MaxRetries - 1) + [AllFailed(MaxRetries)], false)
  }

  /** Every call but the last failed, and the last one decided the outcome. */
  lemma RetryStopsAtFirstOk(outcomes: seq<bool>)
    ensures var r := Retry(outcomes);
            (forall i :: 0 <= i < r.calls - 1 ==> !Responds(outcomes, i))
            && (r.succeeded <==> Responds(outcomes, r.calls - 1))
            && (!r.succeeded ==> r.calls == MaxRetries)
  {
    var k := FirstOk(outcomes, 0);
    assert k < MaxRetries ==> Retry(outcomes).calls - 1 == k;
  }

  /** Failures before the last call each give a warning naming their attempt
      number; the last notice is the success message or, after `MaxRetries`
      failures, the final error. */
  lemma RetryNotices(outcomes: seq<bool>)
    ensures var r := Retry(outcomes);
            (forall i :: 0 <= i < r.calls - 1 ==> r.notices[i] == RetryWarning(i + 1))
            && r.notices[r.calls - 1] == (if r.succeeded then Submitted else AllFailed(MaxRetries))
  {
  }

  /** Two failures and then an ok answer: three calls, two warnings, success. */
  lemma FailTwiceThenSucceed()
    ensures Retry([false, false, true])
            == Report(3, [RetryWarning(1), RetryWarning(2), Submitted], true)
  {
    assert FirstOk([false, false, true], 0) == 2;
  }

  /** No ok answer at all: three calls, two warnings, the final error. */
  lemma AlwaysFail(outcomes: seq<bool>)
    requires forall i :: 0 <= i < |outcomes| ==> !outcomes[i]
    ensures Retry(outcomes)
            == Report(3, [RetryWarning(1), RetryWarning(2), AllFailed(3)], false)
  {
    assert FirstOk(outcomes, 0) == 3;
  }

  /** The snackbars' severities and texts: a numbered warning for a failed
      attempt that is retried, and the final error naming `maxRetries`. */
  lemma NoticeTexts()
    ensures SeverityOf(RetryWarning(1)) == WarningSeverity
    ensures Message(RetryWarning(1)) == "Attempt 1" + " failed. API service may be down. Retrying..."
    ensures SeverityOf(Submitted) == SuccessSeverity
    ensures Message(Submitted) == "Contact submitted successfully!"
    ensures SeverityOf(AllFailed(MaxRetries)) == ErrorSeverity
    ensures Message(AllFailed(MaxRetries)) == "All 3" + " attempts failed. Please try again later."
  {
    assert NatToString(1) == "1";
    assert NatToString(3) == "3";
    assert "Attempt " + "1" == "Attempt 1";
    assert "All " + "3" == "All 3";
  }
}
