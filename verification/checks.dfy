/** The two ways the welcome validators report failed checks: the DTO validators collect the
    message of every failed check, the request middleware answers with the first one. */
module Checks {
  /** One check of a validator: whether it failed, and the message it reports. */
  datatype Check = Check(failed: bool, message: string)

  /** A middleware's answer: pass the request on, or reject it with one error. */
  datatype Verdict = Next | Reject(error: string)

  /** The messages of the failed checks, in check order. */
  function Failures(checks: seq<Check>): (errors: seq<string>)
    ensures |errors| <= |checks|
    ensures errors == [] <==> forall i :: 0 <= i < |checks| ==> !checks[i].failed
  {
    if checks == [] then [] else Report(checks[0]) + Failures(checks[1..])
  }

  /** The message of one check, if it failed. */
  function Report(check: Check): (errors: seq<string>)
    ensures errors == [] <==> !check.failed
    ensures check.failed ==> errors == [check.message]
  {
    if check.failed then [check.message] else []
  }

  lemma FailuresOfTwo(a: Check, b: Check)
    ensures Failures([a, b]) == Report(a) + Report(b)
  {
    assert [a, b][1..] == [b];
    assert [b][1..] == [];
  }

  lemma FailuresOfThree(a: Check, b: Check, c: Check)
    ensures Failures([a, b, c]) == Report(a) + Report(b) + Report(c)
  {
    assert [a, b, c][1..] == [b, c];
    FailuresOfTwo(b, c);
  }

  lemma FailuresOfFour(a: Check, b: Check, c: Check, d: Check)
    ensures Failures([a, b, c, d]) == Report(a) + Report(b) + Report(c) + Report(d)
  {
    assert [a, b, c, d][1..] == [b, c, d];
    FailuresOfThree(b, c, d);
  }

  /** The answer of an early-return chain of checks. */
  function FirstFailure(checks: seq<Check>): (v: Verdict)
    ensures v.Next? <==> forall i :: 0 <= i < |checks| ==> !checks[i].failed
  {
    if checks == [] then Next
    else if checks[0].failed then Reject(checks[0].message)
    else FirstFailure(checks[1..])
  }

  lemma FirstFailureCons(c: Check, rest: seq<Check>)
    ensures FirstFailure([c] + rest) == if c.failed then Reject(c.message) else FirstFailure(rest)
  {
    assert ([c] + rest)[1..] == rest;
  }

  /** Run `first`, and `rest` only when `first` passed. */
  function Then(first: Verdict, rest: Verdict): (v: Verdict)
    ensures v.Next? <==> first.Next? && rest.Next?
  {
    if first.Reject? then first else rest
  }

  lemma {:induction false} FailuresAppend(a: seq<Check>, b: seq<Check>)
    ensures Failures(a + b) == Failures(a) + Failures(b)
  {
    if a != [] {
      assert (a + b)[1..] == a[1..] + b;
      FailuresAppend(a[1..], b);
    } else {
      assert a + b == b;
    }
  }

  lemma {:induction false} FirstFailureAppend(a: seq<Check>, b: seq<Check>)
    ensures FirstFailure(a + b) == Then(FirstFailure(a), FirstFailure(b))
  {
    if a != [] {
      assert (a + b)[1..] == a[1..] + b;
      FirstFailureAppend(a[1..], b);
    } else {
      assert a + b == b;
    }
  }

  /** A chain that stops at the first failure reports the first message the collecting
      validator would list. */
  lemma {:induction false} FirstIsHeadOfFailures(checks: seq<Check>)
    ensures FirstFailure(checks).Reject? <==> Failures(checks) != []
    ensures FirstFailure(checks).Reject? ==> FirstFailure(checks).error == Failures(checks)[0]
  {
    if checks != [] {
      FirstIsHeadOfFailures(checks[1..]);
    }
  }

  /** With distinct messages, each failed check contributes its message exactly once and a
      passed one not at all. */
  lemma {:induction false} FailuresCount(checks: seq<Check>, i: int)
    requires 0 <= i < |checks|
    requires forall j, k :: 0 <= j < k < |checks| ==> checks[j].message != checks[k].message
    ensures multiset(Failures(checks))[checks[i].message] == if checks[i].failed then 1 else 0
  {
    var m := checks[i].message;
    if i == 0 {
      FailuresCountZero(checks[1..], m);
    } else {
      FailuresCount(checks[1..], i - 1);
      assert checks[1..][i - 1] == checks[i];
    }
  }

  lemma {:induction false} FailuresCountZero(checks: seq<Check>, m: string)
    requires forall j :: 0 <= j < |checks| ==> checks[j].message != m
    ensures multiset(Failures(checks))[m] == 0
  {
    if checks != [] {
      FailuresCountZero(checks[1..], m);
    }
  }
}
