/** Client-side form validation as the forms write it: a fixed sequence of checks, tried in
    order, where the first one that fails decides the message and stops the submission. */
module Validation {
  import opened Common

  /** One check: whether the form passes it, and what the user is told when it does not. */
  datatype Check = Check(passes: bool, message: string)

  /** The message of the first failing check, or `None` when every check passes. */
  function FirstFailure(checks: seq<Check>): (failure: Option<string>)
    ensures failure.None? <==> forall i :: 0 <= i < |checks| ==> checks[i].passes
    ensures failure.Some? ==>
      exists i :: 0 <= i < |checks| && FailsFirst(checks, i) && failure.value == checks[i].message
  {
    if checks == [] then None
    else if !checks[0].passes then
      assert FailsFirst(checks, 0);
      Some(checks[0].message)
    else
      var rest := FirstFailure(checks[1..]);
      if rest.Some? then
        var i :| 0 <= i < |checks[1..]| && FailsFirst(checks[1..], i) &&
          rest.value == checks[1..][i].message;
        assert FailsFirst(checks, i + 1);
        rest
      else
        assert forall i :: 1 <= i < |checks| ==> checks[1..][i - 1] == checks[i];
        rest
  }

  /** Check `i` fails and every check before it passes. */
  predicate FailsFirst(checks: seq<Check>, i: int)
  {
    0 <= i < |checks| && !checks[i].passes && forall j :: 0 <= j < i ==> checks[j].passes
  }

  /** When check `i` is the first to fail, its message is the one reported. */
  lemma FirstFailureIs(checks: seq<Check>, i: int)
    requires FailsFirst(checks, i)
    ensures FirstFailure(checks) == Some(checks[i].message)
  {
    var f := FirstFailure(checks);
    var k :| 0 <= k < |checks| && FailsFirst(checks, k) && f.value == checks[k].message;
    assert k == i;
  }
}
