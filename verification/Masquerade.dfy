/** Address masquerading (src/cleanup/cleanup_masquerade.c): a domain is replaced by the first
    listed parent domain, unless that one is listed with a negation. */
module Masquerade {
  import opened Addresses
  import opened DupFilter

  // ----- Patterns -----

  /** The domain of a pattern, behind any number of exclamation marks. */
  function Name(pattern: string): string {
    if pattern != "" && pattern[0] == '!' then Name(pattern[1..]) else pattern
  }

  /** An odd number of exclamation marks. */
  predicate Negated(pattern: string) {
    pattern != "" && pattern[0] == '!' && !Negated(pattern[1..])
  }

  predicate IsParent(m: string, d: string) {
    |m| < |d| && d[|d| - |m| - 1] == '.' && d[|d| - |m|..] == m
  }

  predicate Covers(m: string, d: string) { m != "" && (m == d || IsParent(m, d)) }

  /** The position of the first pattern for this domain, or the length of the list. */
  function First(fold: char -> char, patterns: seq<string>, d: string): (n: nat)
    ensures n <= |patterns|
    ensures n < |patterns| ==> Covers(Fold(fold, Name(patterns[n])), d)
    ensures forall i :: 0 <= i < n ==> !Covers(Fold(fold, Name(patterns[i])), d)
  {
    if patterns == [] || Covers(Fold(fold, Name(patterns[0])), d) then 0 else 1 + First(fold, patterns[1..], d)
  }

  /** What masquerading gives. */
  function Masqueraded(fold: char -> char, patterns: seq<string>, excluded: string -> bool, addr: string): string {
    var at := LastAt(addr);
    if at < 0 || excluded(addr[..at]) then addr else
      var d := Fold(fold, addr[at + 1..]);
      var n := First(fold, patterns, d);
      if n == |patterns| || Negated(patterns[n]) || Fold(fold, Name(patterns[n])) == d then addr
      else addr[..at + 1] + Fold(fold, Name(patterns[n]))
  }

  /** Each exclamation mark changes what the pattern is for. */
  method Strip(pattern: string) returns (masq: string, truncate: bool)
    ensures masq == Name(pattern) && truncate == !Negated(pattern)
  {
    masq, truncate := pattern, true;
    while masq != "" && masq[0] == '!'
      invariant Name(masq) == Name(pattern)
      invariant Negated(pattern) == (truncate == Negated(masq))
      decreases |masq|
    {
      truncate := !truncate;
      masq := masq[1..];
    }
  }

  lemma FirstNext(fold: char -> char, patterns: seq<string>, d: string, i: nat)
    requires i < |patterns|
    ensures First(fold, patterns[i..], d)
         == if Covers(Fold(fold, Name(patterns[i])), d) then 0 else 1 + First(fold, patterns[i + 1..], d)
  {
    assert patterns[i..][1..] == patterns[i + 1..];
  }

  /** The address buffer. */
  class Address {
    var text: string

    /** cleanup_masquerade_external */
    method External(fold: char -> char, patterns: seq<string>, excluded: string -> bool) returns (rewritten: bool)
      modifies this
      ensures text == Masqueraded(fold, patterns, excluded, old(text))
      ensures rewritten <==> text != old(text)
    {
      hide First, Name, Negated, LastAt, Fold;
      rewritten := false;
      var at := LastAt(text);
      if at < 0 { return; }
      var name := text[..at];
      var domain := Fold(fold, text[at + 1..]);
      if excluded(name) { return; }
      var i := 0;
      while i < |patterns|
        invariant i <= |patterns| && text == old(text)
        invariant First(fold, patterns, domain) == i + First(fold, patterns[i..], domain)
      {
        var masq, truncate := Strip(patterns[i]);
        masq := Fold(fold, masq);
        FirstNext(fold, patterns, domain, i);
        if |masq| == 0 { i := i + 1; continue; }
        if |masq| == |domain| {
          if masq == domain { break; }
        } else if |masq| < |domain| {
          var parent := domain[|domain| - |masq|..];
          if domain[|domain| - |masq| - 1] == '.' && masq == parent {
            if truncate {
              text := name + "@" + masq;
              rewritten := true;
            }
            return;
          }
        }
        i := i + 1;
      }
    }
  }

  // ----- Which addresses are changed -----

  /** A list entry: so many exclamation marks in front of a name. */
  datatype Listed = Listed(marks: nat, name: string)

  function Marks(n: nat): string { if n == 0 then "" else "!" + Marks(n - 1) }

  predicate PlainName(p: Listed) { p.name == "" || p.name[0] != '!' }

  function Written(list: seq<Listed>): (r: seq<string>)
    ensures |r| == |list|
  {
    seq(|list|, i requires 0 <= i < |list| => Marks(list[i].marks) + list[i].name)
  }

  lemma {:induction false} MarksAre(n: nat, name: string)
    requires name == "" || name[0] != '!'
    ensures Name(Marks(n) + name) == name
    ensures Negated(Marks(n) + name) <==> n % 2 == 1
  {
    if n == 0 {
      assert Marks(n) + name == name;
    } else {
      assert (Marks(n) + name)[1..] == Marks(n - 1) + name;
      MarksAre(n - 1, name);
    }
  }

  /** The domain is this name, or ends with it behind a dot. */
  ghost predicate Under(name: string, domain: string) {
    name != "" && (domain == name || exists sub: string :: domain == sub + "." + name)
  }

  /** The first listed name that the folded domain is under. */
  ghost predicate FirstUnder(fold: char -> char, list: seq<Listed>, d: string, n: nat) {
    && n < |list| && Under(Fold(fold, list[n].name), d)
    && forall i :: 0 <= i < n ==> !Under(Fold(fold, list[i].name), d)
  }

  lemma UnderIff(name: string, domain: string)
    ensures Under(name, domain) <==> Covers(name, domain)
    ensures Under(name, domain) && name != domain ==> IsParent(name, domain)
  {
    if sub: string :| domain == sub + "." + name {
      assert domain[|sub|] == '.' && domain[|sub| + 1..] == name;
    }
    if IsParent(name, domain) {
      var k := |domain| - |name| - 1;
      assert domain == domain[..k] + "." + name;
    }
  }

  /** An address changes exactly if it has a domain part, its local part is not excluded, and the
      first listed name that is the folded domain or a parent of it is a proper parent without
      negation; the domain part then becomes that name. */
  lemma MasqueradedIff(fold: char -> char, list: seq<Listed>, excluded: string -> bool, user: string, domain: string)
    requires '@' !in domain && forall i :: 0 <= i < |list| ==> PlainName(list[i])
    ensures var to := Masqueraded(fold, Written(list), excluded, user + "@" + domain); var d := Fold(fold, domain);
            && (excluded(user) ==> to == user + "@" + domain)
            && ((forall n: nat :: !FirstUnder(fold, list, d, n)) ==> to == user + "@" + domain)
            && (forall n: nat :: !excluded(user) && FirstUnder(fold, list, d, n) ==>
                  to == user + "@" + if Fold(fold, list[n].name) != d && list[n].marks % 2 == 0
                                     then Fold(fold, list[n].name) else domain)
  {
    hide Under, Covers, Fold, LastAt, Name, Negated, IsParent, Marks;
    var addr, ps, d := user + "@" + domain, Written(list), Fold(fold, domain);
    assert addr[|user|] == '@' && forall i :: |user| < i < |addr| ==> addr[i] == domain[i - |user| - 1];
    LastAtIs(addr, |user|);
    assert addr[..|user|] == user && addr[|user| + 1..] == domain && addr[..|user| + 1] == user + "@";
    forall i | 0 <= i < |list|
      ensures Name(ps[i]) == list[i].name && (Negated(ps[i]) <==> list[i].marks % 2 == 1)
      ensures Under(Fold(fold, list[i].name), d) <==> Covers(Fold(fold, Name(ps[i])), d)
    {
      MarksAre(list[i].marks, list[i].name);
      UnderIff(Fold(fold, list[i].name), d);
    }
    forall n: nat | FirstUnder(fold, list, d, n) ensures First(fold, ps, d) == n { FirstAt(fold, ps, d, n); }
    var n := First(fold, ps, d);
    if n < |ps| { assert FirstUnder(fold, list, d, n); }
  }

  /** Without an '@' nothing changes. */
  lemma NoDomainKept(fold: char -> char, patterns: seq<string>, excluded: string -> bool, addr: string)
    requires '@' !in addr
    ensures Masqueraded(fold, patterns, excluded, addr) == addr
  {
    assert LastAt(addr) < 0;
  }

  // ----- Masquerading twice -----

  lemma ParentOfParent(m: string, n: string, d: string)
    requires IsParent(m, n) && IsParent(n, d)
    ensures IsParent(m, d)
  {
    var k := |d| - |n|;
    assert n == d[k..];
    assert n[|n| - |m|..] == d[|d| - |m|..];
    assert n[|n| - |m| - 1] == d[|d| - |m| - 1];
  }

  /** A name that no earlier pattern covers has no parent that an earlier pattern covers. */
  lemma FirstOfParent(fold: char -> char, patterns: seq<string>, d: string)
    requires var n := First(fold, patterns, d); n < |patterns| && IsParent(Fold(fold, Name(patterns[n])), d)
    ensures var n := First(fold, patterns, d); First(fold, patterns, Fold(fold, Name(patterns[n]))) == n
  {
    var n := First(fold, patterns, d);
    var m := Fold(fold, Name(patterns[n]));
    var k := First(fold, patterns, m);
    forall i | 0 <= i < n ensures !Covers(Fold(fold, Name(patterns[i])), m) {
      var p := Fold(fold, Name(patterns[i]));
      if IsParent(p, m) { ParentOfParent(p, m, d); }
    }
    assert Covers(m, m);
    FirstAt(fold, patterns, m, n);
  }

  lemma {:induction false} FirstAt(fold: char -> char, patterns: seq<string>, d: string, n: nat)
    requires n < |patterns| && Covers(Fold(fold, Name(patterns[n])), d)
    requires forall i :: 0 <= i < n ==> !Covers(Fold(fold, Name(patterns[i])), d)
    ensures First(fold, patterns, d) == n
  {
    hide Covers;
    if n > 0 { FirstAt(fold, patterns[1..], d, n - 1); }
  }

  /** Case folding keeps '@' apart from other characters, and folding again changes nothing. */
  ghost predicate FoldOk(fold: char -> char) {
    forall c :: fold(fold(c)) == fold(c) && (fold(c) == '@' <==> c == '@')
  }

  lemma FoldTwice(fold: char -> char, s: string)
    requires FoldOk(fold)
    ensures Fold(fold, Fold(fold, s)) == Fold(fold, s)
  {
  }

  lemma LastAtIs(s: string, n: nat)
    requires n < |s| && s[n] == '@' && forall i :: n < i < |s| ==> s[i] != '@'
    ensures LastAt(s) == n
  {
  }

  /** A parent of the domain part has no '@'. */
  lemma NoAtInParent(fold: char -> char, addr: string, m: string)
    requires FoldOk(fold) && LastAt(addr) >= 0 && IsParent(m, Fold(fold, addr[LastAt(addr) + 1..]))
    ensures '@' !in m
  {
    var rest := addr[LastAt(addr) + 1..];
    var d := Fold(fold, rest);
    forall i | 0 <= i < |m| ensures m[i] != '@' {
      assert m[i] == d[|d| - |m| + i] == fold(rest[|d| - |m| + i]);
      assert rest[|d| - |m| + i] == addr[LastAt(addr) + 1 + |d| - |m| + i];
    }
  }

  /** What masquerading keeps: the local part, and a domain that is the old one or a listed proper
      parent of it that is not negated. */
  lemma Masquerades(fold: char -> char, patterns: seq<string>, excluded: string -> bool, addr: string)
    requires FoldOk(fold)
    ensures var to := Masqueraded(fold, patterns, excluded, addr); var at := LastAt(addr);
            && LastAt(to) == at
            && (at >= 0 ==> to[..at] == addr[..at])
            && (at >= 0 && excluded(addr[..at]) ==> to == addr)
            && (to != addr ==> at >= 0 && IsParent(to[at + 1..], Fold(fold, addr[at + 1..])))
            && (to != addr ==> exists i :: 0 <= i < |patterns| && !Negated(patterns[i]) && to[at + 1..] == Fold(fold, Name(patterns[i])))
  {
    hide Fold, LastAt, FoldOk, Name, Negated;
    var at := LastAt(addr);
    var to := Masqueraded(fold, patterns, excluded, addr);
    if to != addr {
      var n := First(fold, patterns, Fold(fold, addr[at + 1..]));
      var p := Fold(fold, Name(patterns[n]));
      assert to == addr[..at + 1] + p && to[at + 1..] == p && to[..at] == addr[..at];
      NoAtInParent(fold, addr, p);
      LastAtIs(to, at);
    }
  }

  /** A second pass changes nothing, whatever the list and the order of its patterns. */
  lemma Idempotent(fold: char -> char, patterns: seq<string>, excluded: string -> bool, addr: string)
    requires FoldOk(fold)
    ensures var once := Masqueraded(fold, patterns, excluded, addr);
            Masqueraded(fold, patterns, excluded, once) == once
  {
    hide Fold, LastAt, Name, Negated, FoldOk;
    var once := Masqueraded(fold, patterns, excluded, addr);
    if once != addr {
      var at := LastAt(addr);
      var d := Fold(fold, addr[at + 1..]);
      var n := First(fold, patterns, d);
      Masquerades(fold, patterns, excluded, addr);
      FoldTwice(fold, Name(patterns[n]));
      assert once[at + 1..] == Fold(fold, Name(patterns[n]));
      FirstOfParent(fold, patterns, d);
    }
  }
}
