/** DNS lookups (src/dns/dns_lookup.c): following aliases while keeping track of DNSSEC, and
    lookups of several record types with one overall status. */
module DnsLookup {

  // Status codes (dns.h); a greater one has precedence.
  const RECURSE := -7
  const NOTFOUND := -6
  const NULLMX := -5
  const FAIL := -4
  const INVAL := -3
  const RETRY := -2
  const POLICY := -1
  const OK := 0

  const NXDOMAIN := 3

  const T_ANY := 255
  const T_CNAME := 5
  const T_SOA := 6
  const T_MX := 15

  datatype Rr = Rr(typ: int, data: string, dnssecValid: bool)

  /** One record of a reply: its type, and what decoding it gives, as a resource and as an alias. */
  datatype Answer =
    | Broken(status: int)
    | Answer(typ: int, status: int, data: string, aliasStatus: int, alias: string)

  /** A reply.  The answer section comes before the authority section. */
  datatype Reply = Reply(status: int, rcode: int, why: string, ad: bool, readable: bool,
                         records: seq<Answer>, answers: nat, authority: nat)

  /** What the resolver replies to a query for a name, with or without DNSSEC, at each attempt. */
  type Net = (nat, string, bool) -> Reply

  /** What the library calls can return. */
  predicate Sane(r: Reply) {
    && r.answers <= |r.records| && r.authority <= |r.records|
    && r.status in {OK, NOTFOUND, FAIL, RETRY}
    && forall i :: 0 <= i < |r.records| ==>
         match r.records[i]
         case Broken(s) => s == RETRY || s == INVAL
         case Answer(_, s, _, a, _) => s in {OK, NULLMX, RETRY, INVAL} && a in {OK, RETRY, INVAL}
  }

  // ----- The answers in one reply -----

  predicate Wanted(typ: int, a: Answer) { a.Answer? && (typ == a.typ || typ == T_ANY) }

  predicate IsAlias(typ: int, a: Answer) { a.Answer? && !Wanted(typ, a) && a.typ == T_CNAME }

  /** The answer makes the whole reply unusable. */
  predicate Corrupt(typ: int, collect: bool, a: Answer) {
    a.Broken? || (Wanted(typ, a) && collect && a.status == NULLMX) || (IsAlias(typ, a) && a.aliasStatus != OK)
  }

  /** The resources among some answers, in order. */
  function Resources(typ: int, s: seq<Answer>, valid: bool): (r: seq<Rr>)
    ensures forall i :: 0 <= i < |r| ==> r[i].dnssecValid == valid
    ensures |r| <= |s|
  {
    if s == [] then [] else
      var a := s[|s| - 1];
      Resources(typ, s[..|s| - 1], valid) + if Wanted(typ, a) && a.status == OK then [Rr(a.typ, a.data, valid)] else []
  }

  /** The last alias among some answers. */
  function Alias(typ: int, s: seq<Answer>, none: string): string {
    if s == [] then none
    else if IsAlias(typ, s[|s| - 1]) then s[|s| - 1].alias
    else Alias(typ, s[..|s| - 1], none)
  }

  predicate HasAlias(typ: int, s: seq<Answer>) { exists i :: 0 <= i < |s| && IsAlias(typ, s[i]) }

  predicate HasResource(typ: int, collect: bool, s: seq<Answer>) {
    exists i :: 0 <= i < |s| && Wanted(typ, s[i]) && (collect ==> s[i].status == OK)
  }

  predicate Intact(typ: int, collect: bool, s: seq<Answer>) {
    forall i :: 0 <= i < |s| ==> !Corrupt(typ, collect, s[i])
  }

  /** The status for a corrupt answer. */
  function Blame(typ: int, a: Answer): int {
    if a.Broken? then a.status else if Wanted(typ, a) then NULLMX else a.aliasStatus
  }

  /** The status for the first corrupt answer, if there is one. */
  function Damage(typ: int, collect: bool, s: seq<Answer>): int {
    if s == [] then OK else
      var before := Damage(typ, collect, s[..|s| - 1]);
      if before == OK && Corrupt(typ, collect, s[|s| - 1]) then Blame(typ, s[|s| - 1]) else before
  }

  /** The status when nothing usable is found: the last failure, but a temporary one stays. */
  function Missing(typ: int, s: seq<Answer>): int {
    if s == [] then NOTFOUND else
      var before := Missing(typ, s[..|s| - 1]);
      if before != RETRY && Wanted(typ, s[|s| - 1]) then s[|s| - 1].status else before
  }

  /** The status of a reply as a whole. */
  function Outcome(typ: int, collect: bool, readable: bool, s: seq<Answer>): int {
    if !readable then RETRY
    else if !Intact(typ, collect, s) then Damage(typ, collect, s)
    else if HasResource(typ, collect, s) then OK
    else if HasAlias(typ, s) then RECURSE
    else Missing(typ, s)
  }

  /** dns_get_answer, over the first answers of a reply.  All of them are usable or none is
      returned; a resource is trusted only if this reply and those before it were secure. */
  method GetAnswer(r: Reply, count: nat, typ: int, collect: bool, ad: bool, name: string, secure: bool)
    returns (status: int, list: seq<Rr>, cname: string, maybeSecure: bool)
    requires Sane(r) && count <= |r.records|
    ensures var s := r.records[..count];
            && status == Outcome(typ, collect, r.readable, s)
            && (status == RECURSE ==> cname == Alias(typ, s, name) && maybeSecure == (secure && ad))
            && list == if status == OK && collect then Resources(typ, s, secure && ad) else []
    ensures status in {OK, RECURSE, NOTFOUND, NULLMX, RETRY, INVAL}
  {
    hide Resources, Alias, HasResource, HasAlias, Intact, Damage, Missing;
    NoAnswers(typ, collect, secure && ad, name);
    status, list, cname, maybeSecure := NOTFOUND, [], name, secure;
    if !r.readable { return RETRY, [], cname, maybeSecure; }
    var found, aliases := false, false;
    var i := 0;
    ghost var s := r.records[..count];
    while i < count
      invariant i <= count && Intact(typ, collect, s[..i])
      invariant found == HasResource(typ, collect, s[..i]) && aliases == HasAlias(typ, s[..i])
      invariant cname == Alias(typ, s[..i], name)
      invariant maybeSecure == (secure && (ad || !aliases))
      invariant list == if collect then Resources(typ, s[..i], secure && ad) else []
      invariant found || list == []
      invariant status in {NOTFOUND, RETRY, INVAL} && Damage(typ, collect, s[..i]) == OK
      invariant !found ==> status == Missing(typ, s[..i])
    {
      var a := r.records[i];
      assert s[..i + 1] == s[..i] + [a];
      HasNext(typ, collect, s[..i], a);
      ResourcesNext(typ, s[..i], a, secure && ad);
      if a.Broken? { FirstDamage(typ, collect, s, i); return a.status, [], cname, maybeSecure; }
      if typ == a.typ || typ == T_ANY {
        if collect {
          if a.status == OK {
            found := true;
            list := list + [Rr(a.typ, a.data, maybeSecure && ad)];
          } else if a.status == NULLMX {
            FirstDamage(typ, collect, s, i);
            return NULLMX, [], cname, maybeSecure;
          } else if status != RETRY {
            status := a.status;
          }
        } else {
          found := true;
        }
      } else if a.typ == T_CNAME {
        aliases := true;
        if a.aliasStatus != OK { FirstDamage(typ, collect, s, i); return a.aliasStatus, [], cname, maybeSecure; }
        cname := a.alias;
        if !ad { maybeSecure := false; }
      }
      i := i + 1;
    }
    assert s[..i] == s;
    if found { status := OK; } else if aliases { status := RECURSE; }
  }

  lemma NoAnswers(typ: int, collect: bool, valid: bool, none: string)
    ensures Resources(typ, [], valid) == [] && Alias(typ, [], none) == none
    ensures !HasResource(typ, collect, []) && !HasAlias(typ, []) && Intact(typ, collect, [])
    ensures Damage(typ, collect, []) == OK && Missing(typ, []) == NOTFOUND
  {
  }

  lemma HasNext(typ: int, collect: bool, s: seq<Answer>, a: Answer)
    ensures HasResource(typ, collect, s + [a]) == (HasResource(typ, collect, s) || (Wanted(typ, a) && (collect ==> a.status == OK)))
    ensures HasAlias(typ, s + [a]) == (HasAlias(typ, s) || IsAlias(typ, a))
    ensures Intact(typ, collect, s + [a]) == (Intact(typ, collect, s) && !Corrupt(typ, collect, a))
    ensures Damage(typ, collect, s) == OK && !Corrupt(typ, collect, a) ==> Damage(typ, collect, s + [a]) == OK
    ensures Missing(typ, s + [a]) == if Missing(typ, s) != RETRY && Wanted(typ, a) then a.status else Missing(typ, s)
  {
    assert (s + [a])[..|s|] == s;
    var t := s + [a];
    assert t[|s|] == a && forall i :: 0 <= i < |s| ==> t[i] == s[i];
  }

  lemma ResourcesNext(typ: int, s: seq<Answer>, a: Answer, valid: bool)
    ensures Resources(typ, s + [a], valid)
         == Resources(typ, s, valid) + if Wanted(typ, a) && a.status == OK then [Rr(a.typ, a.data, valid)] else []
    ensures forall none :: Alias(typ, s + [a], none) == if IsAlias(typ, a) then a.alias else Alias(typ, s, none)
  {
    assert (s + [a])[..|s|] == s;
  }

  lemma {:induction false} ResourcesOf(typ: int, s: seq<Answer>, valid: bool)
    ensures forall x :: x in Resources(typ, s, valid) ==> typ == T_ANY || x.typ == typ
    ensures HasResource(typ, true, s) ==> Resources(typ, s, valid) != []
  {
    if s != [] {
      var n := |s| - 1;
      assert s == s[..n] + [s[n]];
      HasNext(typ, true, s[..n], s[n]);
      ResourcesOf(typ, s[..n], valid);
    }
  }

  lemma {:induction false} FirstDamage(typ: int, collect: bool, s: seq<Answer>, i: nat)
    requires i < |s| && Intact(typ, collect, s[..i]) && Corrupt(typ, collect, s[i]) && Blame(typ, s[i]) != OK
    requires Damage(typ, collect, s[..i]) == OK
    ensures !Intact(typ, collect, s) && Damage(typ, collect, s) == Blame(typ, s[i])
    decreases |s|
  {
    var n := |s| - 1;
    if i < n {
      assert s[..n][..i] == s[..i];
      FirstDamage(typ, collect, s[..n], i);
    } else {
      assert s[..n] == s[..i];
    }
  }

  /** A record that was decoded (0), of the wanted type, or of any when all types (255) are wanted. */
  predicate UsableOne(typ: int, a: Answer) { a.Answer? && (a.typ == typ || typ == 255) && a.status == 0 }

  /** The resources of some answers are those of the first part, then those of the second; a single
      answer is one if it is usable. */
  lemma {:induction false} ResourcesConcat(typ: int, s: seq<Answer>, t: seq<Answer>, valid: bool)
    ensures Resources(typ, s + t, valid) == Resources(typ, s, valid) + Resources(typ, t, valid)
    ensures forall a: Answer ::
              Resources(typ, [a], valid) == if UsableOne(typ, a) then [Rr(a.typ, a.data, valid)] else []
  {
    hide Resources, Wanted;
    forall a: Answer
      ensures Resources(typ, [a], valid) == if UsableOne(typ, a) then [Rr(a.typ, a.data, valid)] else []
    {
      ResourcesOne(typ, a, valid);
    }
    ResourcesNone(typ, valid);
    if t == [] {
      assert s + t == s;
    } else {
      var n := |t| - 1;
      assert t == t[..n] + [t[n]] && s + t == s + t[..n] + [t[n]];
      ResourcesConcat(typ, s, t[..n], valid);
      ResourcesNext(typ, t[..n], t[n], valid);
      ResourcesNext(typ, s + t[..n], t[n], valid);
    }
  }

  lemma ResourcesNone(typ: int, valid: bool)
    ensures Resources(typ, [], valid) == []
  {
  }

  lemma ResourcesOne(typ: int, a: Answer, valid: bool)
    ensures Resources(typ, [a], valid) == if UsableOne(typ, a) then [Rr(a.typ, a.data, valid)] else []
  {
    assert [a][..0] == [];
  }

  /** The name to go on with is that of the last alias (type 5) among some answers, for a query that does
      not ask for aliases itself. */
  lemma {:induction false} LastAlias(typ: int, s: seq<Answer>, none: string, i: nat)
    requires i <= |s| && forall j :: i <= j < |s| ==> !(s[j].Answer? && s[j].typ == 5)
    requires typ != 5 && typ != 255
    ensures Alias(typ, s, none) == if i > 0 && s[i - 1].Answer? && s[i - 1].typ == 5 then s[i - 1].alias else Alias(typ, s[..i], none)
    ensures i == 0 ==> Alias(typ, s, none) == none
  {
    if i < |s| {
      LastAlias(typ, s[..|s| - 1], none, i);
      assert s[..|s| - 1][..i] == s[..i];
    } else {
      assert s[..i] == s;
    }
  }

  /** A temporary failure of any wanted resource makes the reply one that may be tried again; the
      name is reported as not found only if nothing of the kind was there. */
  lemma {:induction false} MissingIs(typ: int, s: seq<Answer>)
    requires forall i :: 0 <= i < |s| && Wanted(typ, s[i]) ==> s[i].status in {NULLMX, RETRY, INVAL}
    ensures Missing(typ, s) == RETRY <==> exists i :: 0 <= i < |s| && Wanted(typ, s[i]) && s[i].status == RETRY
    ensures Missing(typ, s) == NOTFOUND <==> forall i :: 0 <= i < |s| ==> !Wanted(typ, s[i])
    ensures Missing(typ, s) != RETRY ==>
              forall i :: 0 <= i < |s| && Wanted(typ, s[i]) && (forall j :: i < j < |s| ==> !Wanted(typ, s[j])) ==> Missing(typ, s) == s[i].status
  {
    if s != [] {
      var n := |s| - 1;
      MissingIs(typ, s[..n]);
      assert forall i :: 0 <= i < n ==> s[..n][i] == s[i];
      if Missing(typ, s) != RETRY {
        forall i | 0 <= i < |s| && Wanted(typ, s[i]) && (forall j :: i < j < |s| ==> !Wanted(typ, s[j]))
          ensures Missing(typ, s) == s[i].status
        {
          if i < n { assert Wanted(typ, s[..n][i]); }
        }
      }
    }
  }

  // ----- Following aliases -----

  const MAX_HOPS := 10

  /** The name that is looked up after so many aliases, and whether all replies on the way were
      asked for with DNSSEC and had the AD bit. */
  function Hop(net: Net, typ: int, name: string, dnssec: bool, i: nat): (string, bool) {
    if i == 0 then (name, dnssec) else
      var (n, s) := Hop(net, typ, name, dnssec, i - 1);
      var r := net(i - 1, n, s);
      (Alias(typ, Section(r), n), s && r.ad)
  }

  function Section(r: Reply): seq<Answer> { if r.answers <= |r.records| then r.records[..r.answers] else [] }

  function ReplyAt(net: Net, typ: int, name: string, dnssec: bool, i: nat): Reply {
    var (n, s) := Hop(net, typ, name, dnssec, i);
    net(i, n, s)
  }

  /** Trusted: this reply and all before it were secure. */
  predicate Trusted(net: Net, typ: int, name: string, dnssec: bool, i: nat) { Hop(net, typ, name, dnssec, i + 1).1 }

  /** Per record, what the reply filter says. */
  datatype Verdict = Keep | Drop | Bad

  function Filtered(list: seq<Rr>, verdict: Rr -> Verdict): (r: seq<Rr>)
    ensures forall x :: x in r ==> x in list && verdict(x).Keep?
    ensures forall x :: x in list && verdict(x).Keep? ==> x in r
  {
    if list == [] then []
    else (if verdict(list[0]).Keep? then [list[0]] else []) + Filtered(list[1..], verdict)
  }

  /** What the filter keeps, in order. */
  lemma {:induction false} FilteredConcat(a: seq<Rr>, b: seq<Rr>, verdict: Rr -> Verdict)
    ensures Filtered(a + b, verdict) == Filtered(a, verdict) + Filtered(b, verdict)
    ensures forall x: Rr :: Filtered([x], verdict) == if verdict(x).Keep? then [x] else []
  {
    hide Filtered;
    FilteredNone(verdict);
    forall x: Rr ensures Filtered([x], verdict) == if verdict(x).Keep? then [x] else [] {
      FilteredStep([x], verdict);
      assert [x][1..] == [];
    }
    if a == [] {
      assert a + b == b;
    } else {
      FilteredStep(a, verdict);
      FilteredStep(a + b, verdict);
      FilteredConcat(a[1..], b, verdict);
      var x := if verdict(a[0]).Keep? then [a[0]] else [];
      assert (a + b)[1..] == a[1..] + b;
      assert x + (Filtered(a[1..], verdict) + Filtered(b, verdict)) == x + Filtered(a[1..], verdict) + Filtered(b, verdict);
    }
  }

  lemma FilteredNone(verdict: Rr -> Verdict)
    ensures Filtered([], verdict) == []
  {
  }

  lemma FilteredStep(list: seq<Rr>, verdict: Rr -> Verdict)
    requires list != []
    ensures Filtered(list, verdict) == (if verdict(list[0]).Keep? then [list[0]] else []) + Filtered(list[1..], verdict)
  {
  }

  /** The status that the reply filter gives. */
  ghost function FilterStatus(found: seq<Rr>, verdict: Rr -> Verdict): int {
    if exists x :: x in found && verdict(x).Bad? then RETRY
    else if forall x :: x in found ==> verdict(x).Drop? then POLICY
    else OK
  }

  method FilterReply(found: seq<Rr>, verdict: Rr -> Verdict) returns (status: int, list: seq<Rr>)
    ensures status == FilterStatus(found, verdict)
    ensures list == if status == OK then Filtered(found, verdict) else []
    ensures status == OK ==> list != []
  {
    if x :| x in found && verdict(x).Bad? { return RETRY, []; }
    list := Filtered(found, verdict);
    status := if list == [] then POLICY else OK;
    if list != [] { assert list[0] in list; }
  }

  lemma SaneSections(r: Reply)
    requires Sane(r)
    ensures r.answers <= |r.records| && r.authority <= |r.records| && r.status in {OK, NOTFOUND, FAIL, RETRY}
  {
  }

  /** What the last reply that is followed means for the result.  A reply that says that nothing
      was found may come with negative-caching data from its first records. */
  ghost predicate Ends(r: Reply, typ: int, collect: bool, trusted: bool, verdict: Rr -> Verdict, hops: nat, status: int, list: seq<Rr>) {
    if r.status != OK then
      var n := if r.status == NOTFOUND && r.authority <= |r.records| then r.authority else 0;
      && status == r.status
      && list == if n > 0 && collect && Outcome(T_SOA, collect, r.readable, r.records[..n]) == OK
                 then Resources(T_SOA, r.records[..n], trusted) else []
    else
      var o := Outcome(typ, collect, r.readable, Section(r));
      var found := Resources(typ, Section(r), trusted);
      if o == RECURSE then hops == 10 && status == NOTFOUND && list == []
      else if o == OK && collect then
        status == FilterStatus(found, verdict) && list == if status == OK then Filtered(found, verdict) else []
      else status == o && list == []
  }

  /** dns_lookup_x.  At most ten replies are followed.  Resources come with success, or, as
      negative-caching data, with a reply that says that there are none; they are marked as
      trusted exactly if every reply on the way to them was secure. */
  method Lookup(net: Net, name: string, valid: bool, typ: int, dnssec: bool, collect: bool, verdict: Rr -> Verdict)
    returns (status: int, rcode: int, list: seq<Rr>, hops: nat)
    requires forall i, n, s :: Sane(net(i, n, s))
    ensures !valid ==> hops == 0 && status == NOTFOUND && rcode == NXDOMAIN && list == []
    ensures valid ==> 1 <= hops <= 10 && rcode == ReplyAt(net, typ, name, dnssec, hops - 1).rcode
    ensures forall i :: 0 <= i < hops - 1 ==> Redirects(ReplyAt(net, typ, name, dnssec, i), typ, collect)
    ensures hops > 0 ==> forall x :: x in list ==> x.dnssecValid == Trusted(net, typ, name, dnssec, hops - 1)
    ensures valid ==>
      Ends(ReplyAt(net, typ, name, dnssec, hops - 1), typ, collect, Trusted(net, typ, name, dnssec, hops - 1), verdict,
           hops, status, list)
    ensures list != [] ==> status == OK || status == NOTFOUND
    ensures status == OK && collect ==> list != [] && forall x :: x in list ==> verdict(x).Keep? && (typ == T_ANY || x.typ == typ)
    ensures status != RECURSE
  {
    hide Outcome, Resources, Alias, Sane;
    status, rcode, list, hops := NOTFOUND, NXDOMAIN, [], 0;
    if !valid { return; }
    var current, flag, maybeSecure := name, dnssec, true;
    while hops < MAX_HOPS
      invariant hops <= MAX_HOPS && list == [] && maybeSecure == (hops == 0 || flag)
      invariant (current, flag) == Hop(net, typ, name, dnssec, hops)
      invariant forall i :: 0 <= i < hops ==> Redirects(ReplyAt(net, typ, name, dnssec, i), typ, collect)
      invariant hops > 0 ==> rcode == ReplyAt(net, typ, name, dnssec, hops - 1).rcode
    {
      var r := net(hops, current, flag);
      assert r == ReplyAt(net, typ, name, dnssec, hops) && Sane(r);
      SaneSections(r);
      var ad := flag && r.ad;
      hops, rcode := hops + 1, r.rcode;
      if r.status != OK {
        if r.status == NOTFOUND && r.authority > 0 {
          var _, soa, _, _ := GetAnswer(r, r.authority, T_SOA, collect, ad, current, maybeSecure);
          list := soa;
        }
        return r.status, rcode, list, hops;
      }
      var cname;
      status, list, cname, maybeSecure := GetAnswer(r, r.answers, typ, collect, ad, current, maybeSecure);
      if status == OK {
        if collect {
          ResourcesOf(typ, Section(r), Trusted(net, typ, name, dnssec, hops - 1));
          status, list := FilterReply(list, verdict);
        }
        return;
      }
      if status != RECURSE { return; }
      if !maybeSecure { flag := false; }
      current := cname;
    }
    status := NOTFOUND;
  }

  /** The reply holds an alias and nothing that was asked for. */
  predicate Redirects(r: Reply, typ: int, collect: bool) {
    r.status == OK && Outcome(typ, collect, r.readable, Section(r)) == RECURSE
  }

  /** A record is trusted exactly if DNSSEC was asked for and its own reply and every reply that
      was followed before it had the AD bit. */
  lemma {:induction false} TrustedIff(net: Net, typ: int, name: string, dnssec: bool, i: nat)
    ensures Trusted(net, typ, name, dnssec, i) <==> dnssec && forall j :: 0 <= j <= i ==> ReplyAt(net, typ, name, dnssec, j).ad
  {
    if i > 0 { TrustedIff(net, typ, name, dnssec, i - 1); }
    assert Trusted(net, typ, name, dnssec, i) == (Hop(net, typ, name, dnssec, i).1 && ReplyAt(net, typ, name, dnssec, i).ad);
  }

  // ----- Several types -----

  /** The result of one lookup. */
  datatype Result = Result(status: int, rcode: int, why: string, list: seq<Rr>)

  /** Which results end the series. */
  datatype Stops = Stops(ok: bool, inval: bool, nullMx: bool, mxPolicy: bool)

  predicate Final(stops: Stops, typ: int, status: int) {
    || (status == OK && stops.ok)
    || (status == INVAL && stops.inval)
    || (status == POLICY && typ == T_MX && stops.mxPolicy)
    || (status == NULLMX && stops.nullMx)
  }

  /** The types in front of the terminator. */
  function BeforeZero(types: seq<int>): seq<int> {
    if types == [] || types[0] == 0 then [] else [types[0]] + BeforeZero(types[1..])
  }

  /** The results of the queries that are made: up to the first one that ends the series. */
  function Made(ask: int -> Result, types: seq<int>, stops: Stops): (r: seq<Result>)
    ensures types != [] ==> r != []
  {
    if types == [] then [] else
      [ask(types[0])] + if Final(stops, types[0], ask(types[0]).status) then [] else Made(ask, types[1..], stops)
  }

  /** This result for a record type stops the series: success (0), an invalid reply (-3), a null MX
      (-5), or, for a query for MX records (15), a policy decision (-1), as far as asked for. */
  predicate Stopping(stops: Stops, typ: int, status: int) {
    || (stops.ok && status == 0) || (stops.inval && status == -3) || (stops.nullMx && status == -5)
    || (stops.mxPolicy && status == -1 && typ == 15)
  }

  /** The queries that are made: one for each type in front of the first zero, in order, up to and
      including the first one whose result stops the series. */
  lemma {:induction false} MadeStops(ask: int -> Result, types: seq<int>, stops: Stops)
    ensures var made := Made(ask, BeforeZero(types), stops); var n := |made|;
            && n <= |types|
            && (forall i :: 0 <= i < n ==> types[i] != 0 && made[i] == ask(types[i]))
            && (forall i :: 0 <= i < n - 1 ==> !Stopping(stops, types[i], ask(types[i]).status))
            && (n == |types| || types[n] == 0 || (n > 0 && Stopping(stops, types[n - 1], ask(types[n - 1]).status)))
  {
    hide Stopping, Final;
    if types != [] && types[0] != 0 {
      StoppingIs(stops, types[0], ask(types[0]).status);
      MadeStops(ask, types[1..], stops);
      var rest := BeforeZero(types[1..]);
      assert BeforeZero(types)[1..] == rest;
      var made, t := Made(ask, BeforeZero(types), stops), Made(ask, rest, stops);
      if !Final(stops, types[0], ask(types[0]).status) {
        assert made == [ask(types[0])] + t;
        if types[1..] == [] || types[1] == 0 { assert t == []; } else { assert t != []; }
        forall i | 0 <= i < |made| ensures types[i] != 0 && made[i] == ask(types[i]) {
          if i > 0 { assert made[i] == t[i - 1] && types[i] == types[1..][i - 1]; }
        }
        forall i | 0 <= i < |made| - 1 ensures !Stopping(stops, types[i], ask(types[i]).status) {
          if i > 0 { assert types[i] == types[1..][i - 1]; }
        }
      }
    }
  }

  lemma StoppingIs(stops: Stops, typ: int, status: int)
    ensures Stopping(stops, typ, status) == Final(stops, typ, status)
  {
  }

  /** The records of all queries, one list behind the other. */
  lemma {:induction false} ListsConcat(a: seq<Result>, b: seq<Result>)
    ensures Lists(a + b) == Lists(a) + Lists(b)
    ensures forall r: Result :: Lists([r]) == r.list
  {
    forall r: Result ensures Lists([r]) == r.list { assert [r][1..] == []; }
    if a == [] {
      assert a + b == b;
    } else {
      assert (a + b)[1..] == a[1..] + b;
      ListsConcat(a[1..], b);
    }
  }

  function Lists(results: seq<Result>): seq<Rr> {
    if results == [] then [] else results[0].list + Lists(results[1..])
  }

  /** The last of the results with the greatest status. */
  predicate Best(results: seq<Result>, k: nat) {
    && k < |results|
    && (forall j :: 0 <= j < |results| ==> results[j].status <= results[k].status)
    && (forall j :: k < j < |results| ==> results[j].status < results[k].status)
  }

  /** dns_lookup_rv, and dns_lookup_rl with its arguments as the vector: the types end with zero.
      The reason of a failed lookup overwrites the one before it in the same buffer. */
  method LookupTypes(ask: int -> Result, types: seq<int>, stops: Stops)
    returns (status: int, rcode: int, why: string, list: seq<Rr>)
    requires exists i :: 0 <= i < |types| && types[i] == 0
    requires forall t :: INT_MIN < ask(t).status <= OK
    ensures var made := Made(ask, BeforeZero(types), stops);
            && list == Lists(made)
            && (made == [] ==> status == NOTFOUND)
            && (made != [] ==> Leads(made, status, rcode, why))
  {
    hide Made, BeforeZero, Final, Lists, Leads, Cat;
    NothingMade();
    status, rcode, why, list := NOTFOUND, 0, "", [];
    var hprefStatus, hprefRcode, hprefWhy := INT_MIN, 0, "";
    var i, typ := 1, types[0];
    ghost var made := Made(ask, BeforeZero(types), stops);
    assert types[0..] == types;
    MadeAt(ask, types, 0, stops);
    if typ == 0 { return; }
    CatNone(made);
    ghost var before: seq<Result> := [];
    ghost var end: nat :| end < |types| && types[end] == 0;
    while true
      invariant 1 <= i <= end && typ == types[i - 1] && typ != 0
      invariant made == Cat(before, Made(ask, BeforeZero(types[i - 1..]), stops))
      invariant list == Lists(before)
      invariant Leads(before, hprefStatus, hprefRcode, hprefWhy)
      decreases end - i
    {
      var next := types[i];
      MadeAt(ask, types, i - 1, stops);
      MadeAt(ask, types, i, stops);
      var r := ask(typ);
      LeadsNext(before, r, hprefStatus, hprefRcode, hprefWhy);
      ListsNext(before, r);
      status, rcode, list := r.status, r.rcode, list + r.list;
      if status != OK { why := r.why; }
      ghost var rest := Made(ask, BeforeZero(types[i..]), stops);
      if Final(stops, typ, status) || next == 0 {
        Regroup(before, r, []);
        before := Cat(before, [r]);
        break;
      }
      Regroup(before, r, rest);
      before := Cat(before, [r]);
      if status >= hprefStatus {
        hprefStatus, hprefRcode := status, rcode;
        if status != OK { hprefWhy := why; }
      }
      i, typ := i + 1, next;
    }
    if status < hprefStatus {
      status, rcode := hprefStatus, hprefRcode;
      if status != OK { why := hprefWhy; }
    }
  }

  /** These are the status, the rcode and the reason of the best of the results. */
  ghost predicate Leads(results: seq<Result>, status: int, rcode: int, why: string) {
    if results == [] then status == INT_MIN else
      exists k: nat :: Best(results, k) && status == results[k].status && rcode == results[k].rcode
                       && (status != OK ==> why == results[k].why)
  }

  function Cat(a: seq<Result>, b: seq<Result>): seq<Result> { a + b }

  lemma Regroup(a: seq<Result>, x: Result, b: seq<Result>)
    ensures Cat(a, Cat([x], b)) == Cat(Cat(a, [x]), b)
    ensures Cat(a, Cat([x], [])) == Cat(a, [x])
    ensures Cat(a, [x]) != []
  {
  }

  lemma CatNone(a: seq<Result>)
    ensures Cat([], a) == a
  {
  }

  lemma NothingMade()
    ensures Lists([]) == [] && Leads([], INT_MIN, 0, "")
  {
  }

  lemma LeadsNext(before: seq<Result>, r: Result, status: int, rcode: int, why: string)
    requires Leads(before, status, rcode, why) && INT_MIN < r.status
    ensures if r.status >= status then forall w :: (r.status != OK ==> w == r.why) ==> Leads(Cat(before, [r]), r.status, r.rcode, w)
            else forall w :: (status != OK ==> w == why) ==> Leads(Cat(before, [r]), status, rcode, w)
  {
    var now := before + [r];
    if before == [] {
      assert Best(now, 0);
    } else {
      var k: nat :| Best(before, k) && status == before[k].status && rcode == before[k].rcode && (status != OK ==> why == before[k].why);
      if r.status >= status { assert Best(now, |before|); } else { assert Best(now, k); }
    }
  }

  const INT_MIN := -0x8000_0000

  lemma MadeAt(ask: int -> Result, types: seq<int>, i: nat, stops: Stops)
    requires i < |types|
    ensures Made(ask, BeforeZero(types[i..]), stops)
         == if types[i] == 0 then [] else
              Cat([ask(types[i])], if Final(stops, types[i], ask(types[i]).status) then [] else Made(ask, BeforeZero(types[i + 1..]), stops))
  {
    assert types[i..][1..] == types[i + 1..];
    if types[i] != 0 {
      var rest := BeforeZero(types[i + 1..]);
      assert BeforeZero(types[i..]) == [types[i]] + rest;
      assert ([types[i]] + rest)[1..] == rest;
    }
  }

  lemma {:induction false} ListsNext(before: seq<Result>, r: Result)
    ensures Lists(Cat(before, [r])) == Lists(before) + r.list
  {
    if before == [] {
      assert (before + [r])[1..] == [];
    } else {
      assert (before + [r])[1..] == before[1..] + [r];
      ListsNext(before[1..], r);
    }
  }
}
