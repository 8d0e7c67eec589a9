/** Where the domain part of an address starts. */
module Addresses {

  /** strrchr() for '@': the position of the last one, or -1. */
  function LastAt(s: string): (n: int)
    ensures -1 <= n < |s| && (n >= 0 ==> s[n] == '@') && forall i :: n < i < |s| ==> s[i] != '@'
  {
    if s == "" then -1 else if s[|s| - 1] == '@' then |s| - 1 else LastAt(s[..|s| - 1])
  }
}
