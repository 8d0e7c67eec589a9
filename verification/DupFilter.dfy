/** The bounded duplicate filter (src/global/been_here.c). */
module DupFilter {

  /** Case folding, character by character. */
  function Fold(fold: char -> char, s: string): (r: string)
    ensures |r| == |s| && forall i :: 0 <= i < |s| ==> r[i] == fold(s[i])
  {
    seq(|s|, i requires 0 <= i < |s| => fold(s[i]))
  }

  class BeenHere {
    const limit: int
    const folds: bool
    const fold: char -> char
    var table: set<string>

    /** The key under which a string is remembered. */
    function Key(s: string): string { if folds then Fold(fold, s) else s }

    constructor (limit: int, folds: bool, fold: char -> char)
      ensures this.limit == limit && this.folds == folds && this.fold == fold && table == {}
    {
      this.limit, this.folds, this.fold, table := limit, folds, fold, {};
    }

    /** been_here_check_fixed: a query only. */
    predicate Check(s: string)
      reads this
    {
      Key(s) in table
    }

    /** been_here_fixed: a string that is not found is remembered while there is room. */
    method Fixed(s: string) returns (seen: bool)
      modifies this
      ensures seen == (Key(s) in old(table))
      ensures table == if seen || (0 < limit <= |old(table)|) then old(table) else old(table) + {Key(s)}
      ensures limit > 0 && |old(table)| <= limit ==> |table| <= limit
    {
      var k := Key(s);
      if k in table { return true; }
      if limit <= 0 || limit > |table| { table := table + {k}; }
      seen := false;
    }
  }
}
