/** What express-validator's `validationResult(req)` reports: the message of
    every validator in the chain that failed, in the order they are declared. */
module Validation {

  datatype Check = Check(passes: bool, message: string)

  function Failures(checks: seq<Check>): (errs: seq<string>)
    ensures errs == [] <==> forall i :: 0 <= i < |checks| ==> checks[i].passes
    ensures |errs| <= |checks|
    ensures forall m :: m in errs ==> exists i :: 0 <= i < |checks| && !checks[i].passes && checks[i].message == m
  {
    if checks == [] then []
    else
      var rest := Failures(checks[1..]);
      assert forall i :: 1 <= i < |checks| ==> checks[i] == checks[1..][i - 1];
      if checks[0].passes then rest else [checks[0].message] + rest
  }
}
