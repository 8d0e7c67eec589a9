/** Virtual alias expansion (src/cleanup/cleanup_map1n.c): a list of addresses is rewritten in
    place until every address on it has no mapping or expanded into itself. */
module AliasExpansion {
  import opened DupFilter

  type Address = string

  /** A map lookup: the addresses found, nothing, or a lookup error. */
  datatype Lookup = Found(list: seq<Address>) | Missing | Failed

  /** virtual_alias_expansion_limit, _recursion_limit and _address_length_limit. */
  datatype Bounds = Bounds(expansion: int, recursion: int, length: int)

  datatype Outcome = Expanded | Deferred | WriteError

  predicate Same(fold: char -> char, a: Address, b: Address) { Fold(fold, a) == Fold(fold, b) }

  predicate Has(fold: char -> char, list: seq<Address>, a: Address) {
    exists i :: 0 <= i < |list| && Same(fold, list[i], a)
  }

  /** The map does not distinguish addresses that differ in case only. */
  ghost predicate Respects(fold: char -> char, m: Address -> Lookup) {
    forall a, b :: Same(fold, a, b) ==> SameLookup(fold, m(a), m(b))
  }

  predicate SameLookup(fold: char -> char, p: Lookup, q: Lookup) {
    match (p, q)
    case (Found(s), Found(t)) => |s| == |t| && forall i :: 0 <= i < |s| ==> Same(fold, s[i], t[i])
    case (Missing, Missing) => true
    case (Failed, Failed) => true
    case _ => false
  }

  // ----- What expansion should give -----

  /** Each address on the path is among those that the one before it maps to. */
  ghost predicate IsPath(m: Address -> Lookup, p: seq<Address>) {
    && p != []
    && forall i :: 0 <= i < |p| - 1 ==> Step(m, p[i], p[i + 1])
  }

  predicate Step(m: Address -> Lookup, a: Address, b: Address) { m(a).Found? && b in m(a).list }

  ghost predicate Reachable(m: Address -> Lookup, a: Address, b: Address) {
    exists p :: IsPath(m, p) && p[0] == a && p[|p| - 1] == b
  }

  predicate MapsToItself(fold: char -> char, m: Address -> Lookup, a: Address) {
    m(a).Found? && Has(fold, m(a).list, a)
  }

  /** Addresses that are not expanded further: no mapping, or one that contains the address. */
  predicate Terminal(fold: char -> char, m: Address -> Lookup, a: Address) {
    m(a).Missing? || MapsToItself(fold, m, a)
  }

  lemma ReachSelf(m: Address -> Lookup, a: Address)
    ensures Reachable(m, a, a)
  {
    assert IsPath(m, [a]) && [a][0] == a && [a][|[a]| - 1] == a;
  }

  lemma ReachStep(m: Address -> Lookup, a: Address, b: Address, c: Address)
    requires Reachable(m, a, b) && Step(m, b, c)
    ensures Reachable(m, a, c)
  {
    var p :| IsPath(m, p) && p[0] == a && p[|p| - 1] == b;
    var q := p + [c];
    forall i | 0 <= i < |q| - 1 ensures Step(m, q[i], q[i + 1]) {
      if i < |p| - 1 { assert Step(m, p[i], p[i + 1]); }
    }
    assert IsPath(m, q) && q[0] == a && q[|q| - 1] == c;
  }

  lemma TerminalSame(fold: char -> char, m: Address -> Lookup, a: Address, b: Address)
    requires Respects(fold, m) && Same(fold, a, b)
    ensures Terminal(fold, m, a) <==> Terminal(fold, m, b)
  {
    assert SameLookup(fold, m(a), m(b));
    if m(a).Found? {
      if i :| 0 <= i < |m(a).list| && Same(fold, m(a).list[i], a) { assert Same(fold, m(b).list[i], b); }
      if i :| 0 <= i < |m(b).list| && Same(fold, m(b).list[i], b) { assert Same(fold, m(a).list[i], a); }
    }
  }

  // ----- The invariant of the worklist -----

  ghost predicate OnList(fold: char -> char, argv: seq<Address>, a: Address) {
    exists i :: 0 <= i < |argv| && Same(fold, argv[i], a)
  }

  /** Was expanded, or is on the list. */
  ghost predicate Covered(fold: char -> char, done: set<Address>, argv: seq<Address>, a: Address) {
    (exists x :: x in done && Same(fold, x, a)) || OnList(fold, argv, a)
  }

  /** Everything on the list is reachable; what was expanded has its successors covered; what
      expanded into itself is remembered and stays on the list. */
  ghost predicate Work(fold: char -> char, m: Address -> Lookup, addr: Address,
                       argv: seq<Address>, done: set<Address>, been: set<string>) {
    && argv != [] && Covered(fold, done, argv, addr)
    && (forall i :: 0 <= i < |argv| ==> Reachable(m, addr, argv[i]))
    && (forall x :: x in done ==> m(x).Found? && forall i :: 0 <= i < |m(x).list| ==> Covered(fold, done, argv, m(x).list[i]))
    && (forall x :: x in done && Has(fold, m(x).list, x) ==> Fold(fold, x) in been)
    && (forall k :: k in been ==> exists x :: x in done && Has(fold, m(x).list, x) && Fold(fold, x) == k && OnList(fold, argv, x))
  }

  /** The address at this position needs no more work. */
  ghost predicate Settled(fold: char -> char, m: Address -> Lookup, been: set<string>, a: Address) {
    Fold(fold, a) in been || m(a).Missing?
  }

  /** The list with position p replaced by a lookup result. */
  function Rewritten(argv: seq<Address>, p: nat, list: seq<Address>): seq<Address>
    requires p < |argv|
  {
    if list == [] then argv else argv[p := list[0]] + list[1..]
  }

  // ----- One lookup -----

  lemma CoveredStep(fold: char -> char, argv: seq<Address>, p: nat, list: seq<Address>, done: set<Address>, a: Address)
    requires p < |argv| && list != [] && Covered(fold, done, argv, a)
    ensures Covered(fold, done + {argv[p]}, Rewritten(argv, p, list), a)
  {
    var done', argv' := done + {argv[p]}, Rewritten(argv, p, list);
    if x :| x in done && Same(fold, x, a) {
      assert x in done';
    } else {
      var i :| 0 <= i < |argv| && Same(fold, argv[i], a);
      if i == p { assert argv[p] in done'; } else { assert argv'[i] == argv[i]; }
    }
  }

  lemma NewOnList(fold: char -> char, argv: seq<Address>, p: nat, list: seq<Address>, i: nat)
    requires p < |argv| && i < |list|
    ensures OnList(fold, Rewritten(argv, p, list), list[i])
  {
    var argv' := Rewritten(argv, p, list);
    assert argv'[if i == 0 then p else |argv| + i - 1] == list[i];
  }

  /** One expansion keeps the invariant of the worklist. */
  lemma WorkStep(fold: char -> char, m: Address -> Lookup, addr: Address,
                 argv: seq<Address>, p: nat, done: set<Address>, been: set<string>)
    requires Work(fold, m, addr, argv, done, been) && p < |argv|
    requires m(argv[p]).Found? && m(argv[p]).list != [] && Fold(fold, argv[p]) !in been
    ensures var x := argv[p]; var list := m(x).list;
            Work(fold, m, addr, Rewritten(argv, p, list), done + {x},
                 if Has(fold, list, x) then been + {Fold(fold, x)} else been)
  {
    hide Same, Reachable;
    var x := argv[p];
    var list := m(x).list;
    var argv', done' := Rewritten(argv, p, list), done + {x};
    var been' := if Has(fold, list, x) then been + {Fold(fold, x)} else been;
    CoveredStep(fold, argv, p, list, done, addr);
    forall i | 0 <= i < |argv'| ensures Reachable(m, addr, argv'[i]) {
      if i == p || i >= |argv| {
        assert argv'[i] == list[if i == p then 0 else i - |argv| + 1];
        ReachStep(m, addr, x, argv'[i]);
      }
    }
    forall y, i | y in done' && 0 <= i < |m(y).list| ensures m(y).Found? && Covered(fold, done', argv', m(y).list[i]) {
      if y in done {
        CoveredStep(fold, argv, p, list, done, m(y).list[i]);
      } else {
        NewOnList(fold, argv, p, list, i);
      }
    }
    WorkBeen(fold, m, addr, argv, p, done, been);
  }

  lemma WorkBeen(fold: char -> char, m: Address -> Lookup, addr: Address,
                 argv: seq<Address>, p: nat, done: set<Address>, been: set<string>)
    requires Work(fold, m, addr, argv, done, been) && p < |argv|
    requires m(argv[p]).Found? && m(argv[p]).list != [] && Fold(fold, argv[p]) !in been
    ensures var x := argv[p]; var list := m(x).list; var argv', done' := Rewritten(argv, p, list), done + {x};
            var been' := if Has(fold, list, x) then been + {Fold(fold, x)} else been;
            forall k :: k in been' ==>
              exists y :: y in done' && Has(fold, m(y).list, y) && Fold(fold, y) == k && OnList(fold, argv', y)
  {
    hide Covered, Reachable;
    var x := argv[p];
    var list := m(x).list;
    var argv', done' := Rewritten(argv, p, list), done + {x};
    var been' := if Has(fold, list, x) then been + {Fold(fold, x)} else been;
    forall k | k in been'
      ensures exists y :: y in done' && Has(fold, m(y).list, y) && Fold(fold, y) == k && OnList(fold, argv', y)
    {
      if k in been {
        var y :| y in done && Has(fold, m(y).list, y) && Fold(fold, y) == k && OnList(fold, argv, y);
        var i :| 0 <= i < |argv| && Same(fold, argv[i], y);
        assert argv'[i] == argv[i];
        assert y in done' && OnList(fold, argv', y);
      } else {
        var i :| 0 <= i < |list| && Same(fold, list[i], x);
        NewOnList(fold, argv, p, list, i);
        assert x in done' && OnList(fold, argv', x);
      }
    }
  }

  // ----- The result -----

  /** The addresses that are reachable and terminal, up to case. */
  ghost predicate Correct(fold: char -> char, m: Address -> Lookup, addr: Address, argv: seq<Address>) {
    && (forall i :: 0 <= i < |argv| ==> Reachable(m, addr, argv[i]) && Terminal(fold, m, argv[i]))
    && (forall t :: Reachable(m, addr, t) && Terminal(fold, m, t) ==> OnList(fold, argv, t))
  }

  /** An address that is settled on the list is terminal. */
  lemma SettledTerminal(fold: char -> char, m: Address -> Lookup, addr: Address,
                        argv: seq<Address>, done: set<Address>, been: set<string>, i: nat)
    requires Respects(fold, m) && Work(fold, m, addr, argv, done, been)
    requires i < |argv| && Settled(fold, m, been, argv[i])
    ensures Terminal(fold, m, argv[i])
  {
    hide Fold, Covered, Reachable, Has;
    if !m(argv[i]).Missing? {
      var x :| x in done && Has(fold, m(x).list, x) && Fold(fold, x) == Fold(fold, argv[i]) && OnList(fold, argv, x);
      hide Respects, Work;
      TerminalSame(fold, m, x, argv[i]);
    }
  }

  lemma OnListSame(fold: char -> char, argv: seq<Address>, a: Address, b: Address)
    requires OnList(fold, argv, a) && Same(fold, a, b)
    ensures OnList(fold, argv, b)
  {
    hide Fold;
    var i :| 0 <= i < |argv| && Same(fold, argv[i], a);
    assert Same(fold, argv[i], b);
  }

  /** A terminal address that was expanded is on the list. */
  lemma TerminalListed(fold: char -> char, m: Address -> Lookup, addr: Address,
                       argv: seq<Address>, done: set<Address>, been: set<string>, t: Address)
    requires Respects(fold, m) && Work(fold, m, addr, argv, done, been)
    requires Terminal(fold, m, t) && Covered(fold, done, argv, t)
    ensures OnList(fold, argv, t)
  {
    hide Fold, Reachable, Has, OnList, Respects;
    if x :| x in done && Same(fold, x, t) {
      TerminalSame(fold, m, x, t);
      assert Has(fold, m(x).list, x);
      var y :| y in done && Has(fold, m(y).list, y) && Fold(fold, y) == Fold(fold, x) && OnList(fold, argv, y);
      OnListSame(fold, argv, y, t);
    }
  }

  /** When every address is settled, the list is sound and complete. */
  lemma WorkDone(fold: char -> char, m: Address -> Lookup, addr: Address,
                 argv: seq<Address>, done: set<Address>, been: set<string>)
    requires Respects(fold, m) && Work(fold, m, addr, argv, done, been)
    requires forall i :: 0 <= i < |argv| ==> Settled(fold, m, been, argv[i])
    ensures Correct(fold, m, addr, argv)
  {
    hide Work, Respects, Settled, Terminal, OnList, Fold;
    forall i | 0 <= i < |argv| ensures Reachable(m, addr, argv[i]) && Terminal(fold, m, argv[i]) {
      WorkReaches(fold, m, addr, argv, done, been, i);
      SettledTerminal(fold, m, addr, argv, done, been, i);
    }
    forall t | Reachable(m, addr, t) && Terminal(fold, m, t) ensures OnList(fold, argv, t) {
      var p :| IsPath(m, p) && p[0] == addr && p[|p| - 1] == t;
      CoveredPath(fold, m, addr, argv, done, been, p);
      TerminalListed(fold, m, addr, argv, done, been, t);
    }
  }

  lemma {:induction false} CoveredPath(fold: char -> char, m: Address -> Lookup, addr: Address,
                                       argv: seq<Address>, done: set<Address>, been: set<string>, p: seq<Address>)
    requires Respects(fold, m) && Work(fold, m, addr, argv, done, been)
    requires forall i :: 0 <= i < |argv| ==> Settled(fold, m, been, argv[i])
    requires IsPath(m, p) && p[0] == addr
    ensures Covered(fold, done, argv, p[|p| - 1])
    decreases |p|
  {
    var n := |p| - 1;
    if n > 0 {
      var q := p[..n];
      assert IsPath(m, q) by { forall i | 0 <= i < |q| - 1 ensures Step(m, q[i], q[i + 1]) { assert Step(m, p[i], p[i + 1]); } }
      CoveredPath(fold, m, addr, argv, done, been, q);
      assert Step(m, p[n - 1], p[n]);
      CoveredNext(fold, m, addr, argv, done, been, p[n - 1], p[n]);
    }
  }

  lemma CoveredNext(fold: char -> char, m: Address -> Lookup, addr: Address,
                    argv: seq<Address>, done: set<Address>, been: set<string>, a: Address, b: Address)
    requires Respects(fold, m) && Work(fold, m, addr, argv, done, been)
    requires forall i :: 0 <= i < |argv| ==> Settled(fold, m, been, argv[i])
    requires Covered(fold, done, argv, a) && Step(m, a, b)
    ensures Covered(fold, done, argv, b)
  {
    assert exists x :: x in done && Same(fold, x, a) by {
      if i :| 0 <= i < |argv| && Same(fold, argv[i], a) {
        assert SameLookup(fold, m(argv[i]), m(a));
        assert Settled(fold, m, been, argv[i]);
      }
    }
    var x :| x in done && Same(fold, x, a);
    assert SameLookup(fold, m(x), m(a));
    var i :| 0 <= i < |m(a).list| && m(a).list[i] == b;
    assert Same(fold, m(x).list[i], b);
    assert Covered(fold, done, argv, m(x).list[i]);
  }

  // ----- When expansion fails -----

  /** Some lookup on the way is an error. */
  ghost predicate FailsAt(m: Address -> Lookup, addr: Address, a: Address) { Reachable(m, addr, a) && m(a).Failed? }

  /** A chain of mappings, in which no address that maps to itself is mapped again. */
  ghost predicate IsChain(fold: char -> char, m: Address -> Lookup, p: seq<Address>) {
    && IsPath(m, p)
    && forall i, j :: 0 <= i < j < |p| - 1 && MapsToItself(fold, m, p[i]) ==> !Same(fold, p[i], p[j])
  }

  /** The number of addresses that a expands to with chains of at most f mappings, when what is
      found twice counts twice and what maps to itself is left alone. */
  function Leaves(fold: char -> char, m: Address -> Lookup, a: Address, f: nat): (n: nat)
    ensures n >= 1
    decreases f, 0
  {
    if f == 0 || !m(a).Found? || m(a).list == [] then 1 else LeavesAll(fold, m, a, m(a).list, f - 1)
  }

  function LeavesAll(fold: char -> char, m: Address -> Lookup, a: Address, list: seq<Address>, f: nat): (n: nat)
    ensures n >= |list|
    decreases f, |list|
  {
    if list == [] then 0
    else (if Same(fold, list[0], a) then 1 else Leaves(fold, m, list[0], f)) + LeavesAll(fold, m, a, list[1..], f)
  }

  function Depth(b: Bounds): nat { if b.recursion < 0 then 0 else b.recursion }

  /** What can make expansion give up: an overlong result, an empty result, a chain of more
      addresses than the recursion limit, or more addresses in all than the expansion limit. */
  ghost predicate Excessive(fold: char -> char, m: Address -> Lookup, addr: Address, b: Bounds) {
    || (exists a :: Overlong(m, addr, b, a))
    || (exists a :: Hollow(m, addr, a))
    || (exists p :: Deep(fold, m, addr, b, p))
    || Leaves(fold, m, addr, Depth(b)) > b.expansion
  }

  ghost predicate Overlong(m: Address -> Lookup, addr: Address, b: Bounds, a: Address) {
    Reachable(m, addr, a) && m(a).Found? && exists i :: 0 <= i < |m(a).list| && |m(a).list[i]| > b.length
  }

  ghost predicate Hollow(m: Address -> Lookup, addr: Address, a: Address) { Reachable(m, addr, a) && m(a) == Found([]) }

  ghost predicate Deep(fold: char -> char, m: Address -> Lookup, addr: Address, b: Bounds, p: seq<Address>) {
    IsChain(fold, m, p) && p[0] == addr && |p| > b.recursion
  }

  // ----- How each address on the list came about -----

  /** The chain by which an address on the list was found; what maps to itself is remembered. */
  ghost predicate Branch(fold: char -> char, m: Address -> Lookup, addr: Address, been: set<string>, a: Address, c: seq<Address>) {
    && IsChain(fold, m, c) && c[0] == addr && c[|c| - 1] == a
    && forall i :: 0 <= i < |c| - 1 && MapsToItself(fold, m, c[i]) ==> Fold(fold, c[i]) in been
  }

  /** How many addresses the last one of a chain can still become. */
  ghost function Pot(fold: char -> char, m: Address -> Lookup, been: set<string>, c: seq<Address>, d: nat): (n: nat)
    ensures n >= 1
  {
    if c == [] || Fold(fold, c[|c| - 1]) in been || |c| > d then 1
    else Leaves(fold, m, c[|c| - 1], d + 1 - |c|)
  }

  ghost function Total(fold: char -> char, m: Address -> Lookup, been: set<string>, cs: seq<seq<Address>>, d: nat): (n: nat)
    ensures n >= |cs|
  {
    if cs == [] then 0
    else Total(fold, m, been, cs[..|cs| - 1], d) + Pot(fold, m, been, cs[|cs| - 1], d)
  }

  ghost predicate Tree(fold: char -> char, m: Address -> Lookup, addr: Address, b: Bounds,
                       argv: seq<Address>, been: set<string>, cs: seq<seq<Address>>) {
    && |cs| == |argv|
    && (forall i :: 0 <= i < |cs| ==> Branch(fold, m, addr, been, argv[i], cs[i]))
    && Total(fold, m, been, cs, Depth(b)) <= Leaves(fold, m, addr, Depth(b))
  }

  lemma {:induction false} TotalConcat(fold: char -> char, m: Address -> Lookup, been: set<string>,
                                       a: seq<seq<Address>>, b: seq<seq<Address>>, d: nat)
    ensures Total(fold, m, been, a + b, d) == Total(fold, m, been, a, d) + Total(fold, m, been, b, d)
  {
    hide Pot;
    if b == [] {
      assert a + b == a;
    } else {
      TotalConcat(fold, m, been, a, b[..|b| - 1], d);
      assert (a + b)[..|a + b| - 1] == a + b[..|b| - 1];
    }
  }

  lemma TotalOne(fold: char -> char, m: Address -> Lookup, been: set<string>, c: seq<Address>, d: nat)
    ensures Total(fold, m, been, [c], d) == Pot(fold, m, been, c, d)
  {
    hide Pot;
    assert [c][..0] == [];
  }

  /** Nothing grows when more is remembered. */
  lemma {:induction false} TotalLess(fold: char -> char, m: Address -> Lookup, been: set<string>, been': set<string>,
                                     cs: seq<seq<Address>>, d: nat)
    requires been <= been'
    ensures Total(fold, m, been', cs, d) <= Total(fold, m, been, cs, d)
  {
    if cs != [] { TotalLess(fold, m, been, been', cs[..|cs| - 1], d); }
  }

  function Extended(c: seq<Address>, list: seq<Address>): (r: seq<seq<Address>>)
    ensures |r| == |list|
  {
    seq(|list|, i requires 0 <= i < |list| => c + [list[i]])
  }

  lemma {:induction false} ExtendedTotal(fold: char -> char, m: Address -> Lookup, been: set<string>,
                                         c: seq<Address>, x: Address, list: seq<Address>, d: nat)
    requires 0 < |c| <= d && (Has(fold, list, x) ==> Fold(fold, x) in been)
    ensures Total(fold, m, been, Extended(c, list), d) <= LeavesAll(fold, m, x, list, d - |c|)
    decreases |list|
  {
    hide Leaves, Has;
    if list != [] {
      var t := list[1..];
      HasParts(fold, list, x);
      ExtendedTotal(fold, m, been, c, x, t, d);
      assert Extended(c, list) == [c + [list[0]]] + Extended(c, t);
      TotalConcat(fold, m, been, [c + [list[0]]], Extended(c, t), d);
      TotalOne(fold, m, been, c + [list[0]], d);
      assert (c + [list[0]])[|c|] == list[0];
      PotLeaves(fold, m, been, c + [list[0]], d);
    }
  }

  lemma HasParts(fold: char -> char, list: seq<Address>, x: Address)
    requires list != []
    ensures Same(fold, list[0], x) ==> Has(fold, list, x)
    ensures Has(fold, list[1..], x) ==> Has(fold, list, x)
  {
    hide Same;
    if i :| 0 <= i < |list[1..]| && Same(fold, list[1..][i], x) { assert Same(fold, list[i + 1], x); }
  }

  lemma PotLeaves(fold: char -> char, m: Address -> Lookup, been: set<string>, c: seq<Address>, d: nat)
    requires 0 < |c| <= d + 1
    ensures Fold(fold, c[|c| - 1]) in been ==> Pot(fold, m, been, c, d) == 1
    ensures Pot(fold, m, been, c, d) <= Leaves(fold, m, c[|c| - 1], d + 1 - |c|)
  {
  }

  /** The address at the end of a chain may be mapped: the chain goes on. */
  lemma BranchNext(fold: char -> char, m: Address -> Lookup, addr: Address, been: set<string>, been': set<string>,
                   c: seq<Address>, x: Address, y: Address)
    requires Branch(fold, m, addr, been, x, c) && Step(m, x, y) && Fold(fold, x) !in been && been <= been'
    requires Has(fold, m(x).list, x) ==> Fold(fold, x) in been'
    ensures Branch(fold, m, addr, been', y, c + [y])
  {
    hide Has, Fold;
    var q := c + [y];
    forall i | 0 <= i < |q| - 1 ensures Step(m, q[i], q[i + 1]) {
      if i < |c| - 1 { assert Step(m, c[i], c[i + 1]); }
    }
    forall i, j | 0 <= i < j < |q| - 1 && MapsToItself(fold, m, q[i]) ensures !Same(fold, q[i], q[j]) {
      if j == |c| - 1 { assert Fold(fold, c[i]) in been; }
    }
  }

  lemma BranchKept(fold: char -> char, m: Address -> Lookup, addr: Address, been: set<string>, been': set<string>,
                   a: Address, c: seq<Address>)
    requires Branch(fold, m, addr, been, a, c) && been <= been'
    ensures Branch(fold, m, addr, been', a, c)
  {
  }

  /** The chains after the address at position p was mapped. */
  function Grown(cs: seq<seq<Address>>, p: nat, list: seq<Address>): seq<seq<Address>>
    requires p < |cs| && list != []
  {
    cs[p := cs[p] + [list[0]]] + Extended(cs[p], list)[1..]
  }

  lemma GrownTotal(fold: char -> char, m: Address -> Lookup, been: set<string>, been': set<string>,
                   cs: seq<seq<Address>>, p: nat, list: seq<Address>, d: nat)
    requires p < |cs| && list != [] && been <= been' && 0 < |cs[p]| <= d
    requires var x := cs[p][|cs[p]| - 1]; m(x) == Found(list) && Fold(fold, x) !in been && (Has(fold, list, x) ==> Fold(fold, x) in been')
    ensures Total(fold, m, been', Grown(cs, p, list), d) <= Total(fold, m, been, cs, d)
  {
    hide Fold, Has, Pot;
    var c := cs[p];
    var x, e := c[|c| - 1], Extended(c, list);
    var a, z := cs[..p], cs[p + 1..];
    assert cs == a + [c] + z;
    assert e == [e[0]] + e[1..] && Grown(cs, p, list) == a + [e[0]] + z + e[1..];
    TotalConcat(fold, m, been, a + [c], z, d);
    TotalConcat(fold, m, been, a, [c], d);
    TotalConcat(fold, m, been', a + [e[0]] + z, e[1..], d);
    TotalConcat(fold, m, been', a + [e[0]], z, d);
    TotalConcat(fold, m, been', a, [e[0]], d);
    TotalConcat(fold, m, been', [e[0]], e[1..], d);
    TotalLess(fold, m, been, been', a, d);
    TotalLess(fold, m, been, been', z, d);
    TotalOne(fold, m, been, c, d);
    ExtendedTotal(fold, m, been', c, x, list, d);
    PotIs(fold, m, been, c, d);
  }

  lemma PotIs(fold: char -> char, m: Address -> Lookup, been: set<string>, c: seq<Address>, d: nat)
    requires 0 < |c| <= d
    requires var x := c[|c| - 1]; Fold(fold, x) !in been && m(x).Found? && m(x).list != []
    ensures var x := c[|c| - 1]; Pot(fold, m, been, c, d) == LeavesAll(fold, m, x, m(x).list, d - |c|)
  {
  }

  lemma TreeStep(fold: char -> char, m: Address -> Lookup, addr: Address, b: Bounds, argv: seq<Address>, p: nat,
                 been: set<string>, cs: seq<seq<Address>>)
    requires Tree(fold, m, addr, b, argv, been, cs) && p < |argv| && !Excessive(fold, m, addr, b)
    requires m(argv[p]).Found? && m(argv[p]).list != [] && Fold(fold, argv[p]) !in been
    ensures var x := argv[p]; var list := m(x).list;
            && |cs| == |argv|
            && Tree(fold, m, addr, b, Rewritten(argv, p, list),
                    if Has(fold, list, x) then been + {Fold(fold, x)} else been, Grown(cs, p, list))
  {
    hide Fold, Has, Leaves, Total, Branch;
    var x := argv[p];
    var list, c := m(x).list, cs[p];
    var been' := if Has(fold, list, x) then been + {Fold(fold, x)} else been;
    var argv', cs' := Rewritten(argv, p, list), Grown(cs, p, list);
    forall i | 0 <= i < |cs'| ensures Branch(fold, m, addr, been', argv'[i], cs'[i]) {
      if i < |argv| && i != p {
        BranchKept(fold, m, addr, been, been', argv[i], cs[i]);
      } else {
        var k := if i == p then 0 else i - |argv| + 1;
        assert argv'[i] == list[k] && cs'[i] == c + [list[k]];
        BranchNext(fold, m, addr, been, been', c, x, list[k]);
      }
    }
    ShortChain(fold, m, addr, b, been, x, c);
    GrownTotal(fold, m, been, been', cs, p, list, Depth(b));
  }

  lemma ShortChain(fold: char -> char, m: Address -> Lookup, addr: Address, b: Bounds, been: set<string>, x: Address, c: seq<Address>)
    requires Branch(fold, m, addr, been, x, c) && !Excessive(fold, m, addr, b)
    ensures 0 < |c| <= Depth(b) && |c| <= b.recursion && c[|c| - 1] == x
  {
    hide Has, Fold, Leaves, Same;
    assert !Deep(fold, m, addr, b, c);
  }

  lemma TreeStart(fold: char -> char, m: Address -> Lookup, addr: Address, b: Bounds)
    requires !Excessive(fold, m, addr, b)
    ensures Tree(fold, m, addr, b, [addr], {}, [[addr]])
  {
    hide Has, Fold, Leaves;
    TotalOne(fold, m, {}, [addr], Depth(b));
    assert Branch(fold, m, addr, {}, addr, [addr]);
    ShortChain(fold, m, addr, b, {}, addr, [addr]);
    PotLeaves(fold, m, {}, [addr], Depth(b));
  }

  /** What must hold of the list unless expansion may give up. */
  ghost predicate Measured(fold: char -> char, m: Address -> Lookup, addr: Address, b: Bounds,
                           argv: seq<Address>, been: set<string>, cs: seq<seq<Address>>, p: nat, count: int) {
    !Excessive(fold, m, addr, b) ==> Tree(fold, m, addr, b, argv, been, cs) && (p < |cs| ==> |cs[p]| > count)
  }

  lemma MeasuredNext(fold: char -> char, m: Address -> Lookup, addr: Address, b: Bounds, argv: seq<Address>, p: nat,
                     been: set<string>, cs: seq<seq<Address>>, count: int) returns (cs': seq<seq<Address>>)
    requires Measured(fold, m, addr, b, argv, been, cs, p, count) && p < |argv| && Reachable(m, addr, argv[p])
    requires m(argv[p]).Found? && Fold(fold, argv[p]) !in been
    ensures var x := argv[p]; var list := m(x).list;
            Measured(fold, m, addr, b, Rewritten(argv, p, list),
                     been + if Has(fold, list, x) then {Fold(fold, x)} else {}, cs', p, count + 1)
  {
    hide Fold, Has, Tree, Excessive, Reachable;
    var x := argv[p];
    var list := m(x).list;
    cs' := cs;
    if !Excessive(fold, m, addr, b) {
      if list == [] {
        HollowExceeds(fold, m, addr, b, x);
      } else {
        TreeStep(fold, m, addr, b, argv, p, been, cs);
        cs' := Grown(cs, p, list);
        assert been + {} == been;
      }
    }
  }

  lemma HollowExceeds(fold: char -> char, m: Address -> Lookup, addr: Address, b: Bounds, a: Address)
    requires Reachable(m, addr, a) && m(a) == Found([])
    ensures Excessive(fold, m, addr, b)
  {
    hide Reachable, Leaves;
    assert Hollow(m, addr, a);
  }

  lemma MeasuredStart(fold: char -> char, m: Address -> Lookup, addr: Address, b: Bounds)
    ensures Measured(fold, m, addr, b, [addr], {}, [[addr]], 0, 0)
  {
    hide Excessive, Tree;
    if !Excessive(fold, m, addr, b) { TreeStart(fold, m, addr, b); }
  }

  lemma MeasuredArg(fold: char -> char, m: Address -> Lookup, addr: Address, b: Bounds, argv: seq<Address>, p: nat,
                    been: set<string>, cs: seq<seq<Address>>, q: nat, count: int)
    requires Measured(fold, m, addr, b, argv, been, cs, p, count)
    ensures Measured(fold, m, addr, b, argv, been, cs, q, 0)
  {
    hide Excessive, Total, Has, Fold;
    if !Excessive(fold, m, addr, b) && q < |cs| { assert Branch(fold, m, addr, been, argv[q], cs[q]); }
  }

  lemma TooDeep(fold: char -> char, m: Address -> Lookup, addr: Address, b: Bounds, argv: seq<Address>, p: nat,
                been: set<string>, cs: seq<seq<Address>>, count: int)
    requires Measured(fold, m, addr, b, argv, been, cs, p, count) && p < |argv| && count >= b.recursion
    ensures Excessive(fold, m, addr, b)
  {
    hide Excessive, Total, Has, Fold;
    if !Excessive(fold, m, addr, b) {
      assert Branch(fold, m, addr, been, argv[p], cs[p]);
      ShortChain(fold, m, addr, b, been, argv[p], cs[p]);
    }
  }

  lemma TooMany(fold: char -> char, m: Address -> Lookup, addr: Address, b: Bounds, argv: seq<Address>, p: nat,
                been: set<string>, cs: seq<seq<Address>>, count: int)
    requires Measured(fold, m, addr, b, argv, been, cs, p, count) && |argv| > b.expansion
    ensures Excessive(fold, m, addr, b)
  {
    hide Leaves, Has, Fold, Branch, Deep, Hollow, Overlong;
  }

  lemma WorkReaches(fold: char -> char, m: Address -> Lookup, addr: Address,
                    argv: seq<Address>, done: set<Address>, been: set<string>, p: nat)
    requires Work(fold, m, addr, argv, done, been) && p < |argv|
    ensures Reachable(m, addr, argv[p])
  {
  }

  // ----- The algorithm -----

  /** Takes over a lookup result: the first address replaces the old one, the others go to the
      end, and an address that expands into itself is remembered.  Stops at an overlong address. */
  method TakeResult(argv: seq<Address>, p: nat, list: seq<Address>, been: BeenHere, length: int)
    returns (ok: bool, next: seq<Address>)
    requires p < |argv| && been.folds && been.limit == 0
    modifies been
    ensures ok <==> forall i :: 0 <= i < |list| ==> |list[i]| <= length
    ensures ok ==> next == Rewritten(argv, p, list)
    ensures ok ==> |next| == |argv| + |list[if list == [] then 0 else 1..]| && forall k :: 0 <= k < |next| ==>
              next[k] == if k >= |argv| then list[k - |argv| + 1] else if k == p && list != [] then list[0] else argv[k]
    ensures ok ==> been.table == old(been.table) + if Has(been.fold, list, argv[p]) then {Fold(been.fold, argv[p])} else {}
  {
    next := argv;
    var lhs := argv[p];
    var i := 0;
    while i < |list|
      invariant i <= |list| && forall j :: 0 <= j < i ==> |list[j]| <= length
      invariant next == Rewritten(argv, p, list[..i])
      invariant been.table == old(been.table) + if Has(been.fold, list[..i], lhs) then {Fold(been.fold, lhs)} else {}
    {
      if |list[i]| > length { return false, next; }
      if i == 0 { next := next[p := list[0]]; } else { next := next + [list[i]]; }
      TakenStep(argv, p, list, i);
      HasStep(been.fold, list, i, lhs);
      if Same(been.fold, lhs, list[i]) { var _ := been.Fixed(lhs); }
      i := i + 1;
    }
    assert list[..i] == list;
    ok := true;
  }

  lemma TakenStep(argv: seq<Address>, p: nat, list: seq<Address>, i: nat)
    requires p < |argv| && i < |list|
    ensures Rewritten(argv, p, list[..i + 1])
         == if i == 0 then Rewritten(argv, p, list[..0])[p := list[0]] else Rewritten(argv, p, list[..i]) + [list[i]]
  {
    if i > 0 {
      assert list[..i + 1][1..] == list[..i][1..] + [list[i]];
    } else {
      assert list[..1][1..] == [];
    }
  }

  lemma HasStep(fold: char -> char, list: seq<Address>, i: nat, a: Address)
    requires i < |list|
    ensures Has(fold, list[..i + 1], a) <==> Has(fold, list[..i], a) || Same(fold, list[i], a)
  {
    var s, t := list[..i], list[..i + 1];
    if j :| 0 <= j < |s| && Same(fold, s[j], a) { assert t[j] == s[j]; }
    if j :| 0 <= j < |t| && Same(fold, t[j], a) { if j < i { assert s[j] == t[j]; } }
    if Same(fold, list[i], a) { assert t[i] == list[i]; }
  }

  /** The inner loop: position p is looked up until it is settled. */
  method Settle(m: Address -> Lookup, fold: char -> char, ghost addr: Address, start: seq<Address>, p: nat,
                been: BeenHere, b: Bounds, ghost before: set<Address>, ghost chains: seq<seq<Address>>)
    returns (argv: seq<Address>, status: Outcome, ghost done: set<Address>, ghost cs: seq<seq<Address>>)
    requires p < |start| && been.folds && been.limit == 0 && been.fold == fold
    requires Work(fold, m, addr, start, before, been.table) && Measured(fold, m, addr, b, start, been.table, chains, p, 0)
    requires forall i :: 0 <= i < p ==> Settled(fold, m, been.table, start[i])
    modifies been
    ensures status == WriteError ==> exists a :: FailsAt(m, addr, a)
    ensures status == Deferred ==> Excessive(fold, m, addr, b)
    ensures status == Expanded ==>
              && Measured(fold, m, addr, b, argv, been.table, cs, p + 1, 0)
              && Work(fold, m, addr, argv, done, been.table) && p < |argv| && |start| <= |argv|
              && forall i :: 0 <= i <= p ==> Settled(fold, m, been.table, argv[i])
  {
    hide Work, Has, Fold, Reachable, Excessive, Measured;
    argv, done, cs := start, before, chains;
    var count := 0;
    while true
      invariant p < |argv| && |start| <= |argv| && Work(fold, m, addr, argv, done, been.table)
      invariant 0 <= count && Measured(fold, m, addr, b, argv, been.table, cs, p, count)
      invariant forall i :: 0 <= i < p ==> Settled(fold, m, been.table, argv[i])
      decreases b.recursion - count
    {
      var x := argv[p];
      MeasuredArg(fold, m, addr, b, argv, p, been.table, cs, p + 1, count);
      if been.Check(x) { return argv, Expanded, done, cs; }
      WorkReaches(fold, m, addr, argv, done, been.table, p);
      if count >= b.recursion {
        TooDeep(fold, m, addr, b, argv, p, been.table, cs, count);
        return argv, Deferred, done, cs;
      }
      var found := m(x);
      if found.Failed? {
        assert FailsAt(m, addr, x);
        return argv, WriteError, done, cs;
      }
      if found.Missing? { return argv, Expanded, done, cs; }
      ghost var table := been.table;
      if found.list != [] { WorkStep(fold, m, addr, argv, p, done, table); }
      var ok, next := TakeResult(argv, p, found.list, been, b.length);
      if !ok {
        TooLong(fold, m, addr, b, x);
        return argv, Deferred, done, cs;
      }
      RewrittenSize(argv, p, found.list);
      cs := MeasuredNext(fold, m, addr, b, argv, p, table, cs, count);
      if found.list != [] {
        done := done + {x};
        assert table + {} == table;
        SettledKept(fold, m, argv, p, found.list, table, been.table);
      } else {
        NothingHas(fold, x);
        assert table + {} == table;
      }
      argv := next;
      count := count + 1;
    }
  }

  lemma TooLong(fold: char -> char, m: Address -> Lookup, addr: Address, b: Bounds, a: Address)
    requires Reachable(m, addr, a) && m(a).Found? && exists i :: 0 <= i < |m(a).list| && |m(a).list[i]| > b.length
    ensures Excessive(fold, m, addr, b)
  {
    hide Reachable, Leaves;
    assert Overlong(m, addr, b, a);
  }

  lemma RewrittenSize(argv: seq<Address>, p: nat, list: seq<Address>)
    requires p < |argv|
    ensures |Rewritten(argv, p, list)| >= |argv| && (list != [] ==> Rewritten(argv, p, list)[p] == list[0])
  {
  }

  lemma NothingHas(fold: char -> char, a: Address)
    ensures !Has(fold, [], a)
  {
  }

  lemma SettledKept(fold: char -> char, m: Address -> Lookup, argv: seq<Address>, p: nat, list: seq<Address>,
                    table: set<string>, table': set<string>)
    requires p < |argv| && table <= table' && forall i :: 0 <= i < p ==> Settled(fold, m, table, argv[i])
    ensures p < |Rewritten(argv, p, list)|
    ensures forall i :: 0 <= i < p ==> Settled(fold, m, table', Rewritten(argv, p, list)[i])
  {
    hide Fold;
    forall i | 0 <= i < p ensures Settled(fold, m, table', Rewritten(argv, p, list)[i]) {
      assert Rewritten(argv, p, list)[i] == argv[i] && Settled(fold, m, table, argv[i]);
    }
  }

  /** cleanup_map1n_internal.  Terminates for every map; on success the list holds exactly the
      reachable terminal addresses and respects the expansion limit; on any limit or lookup
      error it is the original address alone. */
  method MapOneToMany(m: Address -> Lookup, fold: char -> char, addr: Address, b: Bounds)
    returns (argv: seq<Address>, status: Outcome)
    ensures argv != []
    ensures status != Expanded ==> argv == [addr]
    ensures status == Expanded ==> |argv| <= b.expansion
    ensures status == Expanded && Respects(fold, m) ==> Correct(fold, m, addr, argv)
    ensures status == WriteError ==> exists a :: FailsAt(m, addr, a)
    ensures status == Deferred ==> Excessive(fold, m, addr, b)
    ensures !Excessive(fold, m, addr, b) && (forall a :: !FailsAt(m, addr, a)) ==> status == Expanded
  {
    hide Work, Settled, Correct, Respects, Excessive, Measured, FailsAt;
    argv := [addr];
    var been := new BeenHere(0, true, fold);
    ghost var done: set<Address>, chains := {}, [[addr]];
    WorkStart(fold, m, addr);
    MeasuredStart(fold, m, addr, b);
    var arg := 0;
    while arg < |argv|
      invariant arg <= |argv| && argv != [] && been.folds && been.limit == 0 && been.fold == fold && fresh(been)
      invariant Work(fold, m, addr, argv, done, been.table)
      invariant forall i :: 0 <= i < arg ==> Settled(fold, m, been.table, argv[i])
      invariant arg == |argv| ==> |argv| <= b.expansion
      invariant Measured(fold, m, addr, b, argv, been.table, chains, arg, 0)
      decreases b.expansion - arg
    {
      if |argv| > b.expansion {
        TooMany(fold, m, addr, b, argv, arg, been.table, chains, 0);
        return [addr], Deferred;
      }
      argv, status, done, chains := Settle(m, fold, addr, argv, arg, been, b, done, chains);
      if status != Expanded { return [addr], status; }
      arg := arg + 1;
    }
    if Respects(fold, m) { WorkDone(fold, m, addr, argv, done, been.table); }
    status := Expanded;
  }

  lemma WorkStart(fold: char -> char, m: Address -> Lookup, addr: Address)
    ensures Work(fold, m, addr, [addr], {}, {})
  {
    ReachSelf(m, addr);
    assert Same(fold, [addr][0], addr);
  }
}
