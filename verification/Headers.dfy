/** Message headers as lists of text records: how the editor finds a header
    (src/cleanup/cleanup_milter.c:829-884, 951-979), how a header is written
    (src/cleanup/cleanup_out.c), and the plain list of headers these stand for. */
module Headers {
  import opened Records
  import opened Chain

  const COLON: byte := 58
  const NEWLINE: byte := 10

  predicate IsText(r: Rec) { r.typ == NORM || r.typ == CONT }

  predicate SpaceOrTab(b: byte) { b == SPACE || b == TAB }

  predicate Folded(r: Rec) { r.data != [] && SpaceOrTab(r.data[0]) }

  // ----- Header labels (src/global/is_header.c) -----

  datatype LabelState = Init | InChar | InSpace

  function ScanLabel(s: seq<byte>, state: LabelState, len: nat): nat {
    if s == [] then 0
    else if SpaceOrTab(s[0]) then (if state.Init? then 0 else ScanLabel(s[1..], InSpace, len))
    else if s[0] == COLON then (if state.Init? then 0 else len)
    else if s[0] < 32 || s[0] >= 127 || state.InSpace? then 0
    else ScanLabel(s[1..], InChar, len + 1)
  }

  /** is_header: the length of the header name, or zero. */
  function LabelLen(s: seq<byte>): nat { ScanLabel(s, Init, 0) }

  predicate LabelChar(b: byte) { 32 < b < 127 && b != COLON }

  predicate IsLabel(name: seq<byte>) { name != [] && forall i :: 0 <= i < |name| ==> LabelChar(name[i]) }

  lemma {:induction false} ScanLabelName(name: seq<byte>, t: seq<byte>, state: LabelState, len: nat)
    requires forall i :: 0 <= i < |name| ==> LabelChar(name[i])
    requires !state.InSpace? && t != [] && t[0] == COLON && (name == [] ==> state == InChar)
    ensures ScanLabel(name + t, state, len) == len + |name|
    decreases |name|
  {
    if name == [] {
      assert name + t == t;
    } else {
      assert (name + t)[1..] == name[1..] + t;
      ScanLabelName(name[1..], t, InChar, len + 1);
    }
  }

  lemma ScanLabelBound(s: seq<byte>, state: LabelState, len: nat)
    ensures ScanLabel(s, state, len) <= len + |s|
  {
  }

  function Lower(b: byte): byte { if 65 <= b <= 90 then b + 32 else b }

  predicate SameFold(a: seq<byte>, b: seq<byte>) {
    |a| == |b| && forall i :: 0 <= i < |a| ==> Lower(a[i]) == Lower(b[i])
  }

  datatype Want = Any | Named(name: seq<byte>)

  /** Does a header that starts with this text have the wanted label? */
  predicate Matches(want: Want, data: seq<byte>) {
    want.Any? || (ScanLabelBound(data, Init, 0); SameFold(want.name, data[..LabelLen(data)]))
  }

  // ----- Searching a list of text records -----

  /** Position of the first record of the index-th wanted header, not counting the first
      skip headers.  cont: the record before t was an incomplete line. */
  function FindStart(t: seq<Rec>, cont: bool, index: nat, want: Want, skip: nat): Option<nat>
    requires index >= 1
    decreases |t|
  {
    if t == [] then None
    else if cont || Folded(t[0]) then Later(FindStart(t[1..], t[0].typ == CONT, index, want, skip))
    else if LabelLen(t[0].data) == 0 then None
    else if skip > 0 then Later(FindStart(t[1..], t[0].typ == CONT, index, want, skip - 1))
    else if !Matches(want, t[0].data) then Later(FindStart(t[1..], t[0].typ == CONT, index, want, 0))
    else if index == 1 then Some(0)
    else Later(FindStart(t[1..], t[0].typ == CONT, index - 1, want, 0))
  }

  function Later(p: Option<nat>): Option<nat> { if p.Some? then Some(p.value + 1) else None }

  /** Number of leading records of t that continue the header before t. */
  function FindEnd(t: seq<Rec>, cont: bool): nat
    decreases |t|
  {
    if t == [] || (!cont && !Folded(t[0])) then 0 else 1 + FindEnd(t[1..], t[0].typ == CONT)
  }

  lemma FindEndBound(t: seq<Rec>, cont: bool)
    ensures FindEnd(t, cont) <= |t|
    decreases |t|
  {
  }

  lemma FindStartBound(t: seq<Rec>, cont: bool, index: nat, want: Want, skip: nat)
    requires index >= 1
    ensures FindStart(t, cont, index, want, skip).Some? ==> FindStart(t, cont, index, want, skip).value < |t|
    decreases |t|
  {
  }

  /** Number of leading records of t that belong to headers. */
  function HeadersEnd(t: seq<Rec>, cont: bool): nat
    decreases |t|
  {
    if t == [] || (!cont && !Folded(t[0]) && LabelLen(t[0].data) == 0) then 0
    else 1 + HeadersEnd(t[1..], t[0].typ == CONT)
  }

  /** Number of records that a search passes before it stops. */
  function SearchLength(t: seq<Rec>, index: nat, want: Want, skip: nat): nat
    requires index >= 1
  {
    var p := FindStart(t, false, index, want, skip);
    if p.Some? then p.value else HeadersEnd(t, false)
  }

  /** ... and that a search for a header and then for its end passes. */
  function ExtentLength(t: seq<Rec>, index: nat, want: Want, skip: nat): nat
    requires index >= 1
  {
    var p := FindStart(t, false, index, want, skip);
    FindStartBound(t, false, index, want, skip);
    if p.None? then HeadersEnd(t, false)
    else p.value + 1 + FindEnd(t[p.value + 1..], t[p.value].typ == CONT)
  }

  // ----- Header edits on a list of text records -----

  function AddText(t: seq<Rec>, hdr: seq<Rec>): seq<Rec> { t + hdr }

  function InsText(t: seq<Rec>, index: int, hdr: seq<Rec>): seq<Rec> {
    var p := FindStart(t, false, if index < 1 then 1 else index, Any, 0);
    FindStartBound(t, false, if index < 1 then 1 else index, Any, 0);
    if p.None? then t + hdr else t[..p.value] + hdr + t[p.value..]
  }

  /** Replaces the index-th header with this name, after the first header. */
  function ReplaceText(t: seq<Rec>, p: nat, hdr: seq<Rec>): seq<Rec>
    requires p < |t|
  {
    FindEndBound(t[p + 1..], t[p].typ == CONT);
    t[..p] + hdr + t[p + 1 + FindEnd(t[p + 1..], t[p].typ == CONT)..]
  }

  function UpdText(t: seq<Rec>, index: nat, name: seq<byte>, hdr: seq<Rec>): seq<Rec>
    requires index >= 1
  {
    FindStartBound(t, false, index, Named(name), 1);
    var p := FindStart(t, false, index, Named(name), 1);
    if p.None? then t + hdr else ReplaceText(t, p.value, hdr)
  }

  function DelText(t: seq<Rec>, index: nat, name: seq<byte>): seq<Rec>
    requires index >= 1
  {
    FindStartBound(t, false, index, Named(name), 1);
    var p := FindStart(t, false, index, Named(name), 1);
    if p.None? then t else ReplaceText(t, p.value, [])
  }

  // ----- The plain list of headers -----

  type Header = seq<Rec>

  /** One header: a first record with a name, continued by all others, and complete. */
  predicate IsHeader(h: Header) {
    && h != [] && !Folded(h[0]) && LabelLen(h[0].data) > 0
    && FindEnd(h[1..], h[0].typ == CONT) == |h| - 1
    && h[|h| - 1].typ != CONT
  }

  predicate AllHeaders(hs: seq<Header>) { forall i :: 0 <= i < |hs| ==> IsHeader(hs[i]) }

  function Flatten(hs: seq<Header>): seq<Rec> {
    if hs == [] then [] else hs[0] + Flatten(hs[1..])
  }

  /** Splits a list of text records into headers. */
  function Group(t: seq<Rec>): seq<Header>
    decreases |t|
  {
    if t == [] then []
    else
      FindEndBound(t[1..], t[0].typ == CONT);
      var n := 1 + FindEnd(t[1..], t[0].typ == CONT);
      [t[..n]] + Group(t[n..])
  }

  /** Index of the index-th wanted header, not counting the first skip headers. */
  function Pick(hs: seq<Header>, index: nat, want: Want, skip: nat): (r: Option<nat>)
    requires index >= 1 && AllHeaders(hs)
    ensures r.Some? ==> r.value < |hs|
    decreases |hs|
  {
    if hs == [] then None
    else if skip > 0 then Later(Pick(hs[1..], index, want, skip - 1))
    else if !Matches(want, hs[0][0].data) then Later(Pick(hs[1..], index, want, 0))
    else if index == 1 then Some(0)
    else Later(Pick(hs[1..], index - 1, want, 0))
  }

  lemma {:induction false} FlattenConcat(a: seq<Header>, b: seq<Header>)
    ensures Flatten(a + b) == Flatten(a) + Flatten(b)
  {
    if a == [] {
      assert a + b == b;
    } else {
      assert (a + b)[1..] == a[1..] + b;
      FlattenConcat(a[1..], b);
    }
  }

  /** The records of one header are passed over as a whole. */
  lemma {:induction false} FindStartOver(h: seq<Rec>, t: seq<Rec>, cont: bool, index: nat, want: Want, skip: nat)
    requires index >= 1 && FindEnd(h, cont) == |h|
    requires if h == [] then !cont else h[|h| - 1].typ != CONT
    ensures FindStart(h + t, cont, index, want, skip) == Shift(|h|, FindStart(t, false, index, want, skip))
    decreases |h|
  {
    hide Folded, FindStart;
    if h == [] {
      assert h + t == t;
    } else {
      assert (h + t)[0] == h[0] && (h + t)[1..] == h[1..] + t;
      FindStartCont(h + t, cont, index, want, skip);
      FindStartOver(h[1..], t, h[0].typ == CONT, index, want, skip);
    }
  }

  lemma FindStartCont(t: seq<Rec>, cont: bool, index: nat, want: Want, skip: nat)
    requires index >= 1 && t != [] && (cont || Folded(t[0]))
    ensures FindStart(t, cont, index, want, skip) == Later(FindStart(t[1..], t[0].typ == CONT, index, want, skip))
  {
    hide Folded, LabelLen, Matches;
  }

  lemma {:induction false} FindEndOver(h: seq<Rec>, t: seq<Rec>, cont: bool)
    requires FindEnd(h, cont) == |h|
    requires if h == [] then !cont else h[|h| - 1].typ != CONT
    ensures FindEnd(h + t, cont) == |h| + FindEnd(t, false)
    decreases |h|
  {
    if h == [] {
      assert h + t == t;
    } else {
      assert (h + t)[1..] == h[1..] + t;
      FindEndOver(h[1..], t, h[0].typ == CONT);
    }
  }

  lemma FindEndFlat(hs: seq<Header>)
    requires AllHeaders(hs)
    ensures FindEnd(Flatten(hs), false) == 0
  {
    if hs != [] { assert Flatten(hs)[0] == hs[0][0]; }
  }

  function Shift(n: nat, p: Option<nat>): Option<nat> { if p.Some? then Some(n + p.value) else None }

  lemma FindStartStep(t: seq<Rec>, cont: bool, index: nat, want: Want, skip: nat)
    requires index >= 1 && t != [] && !cont && !Folded(t[0]) && LabelLen(t[0].data) > 0
    ensures var matched := skip == 0 && Matches(want, t[0].data);
            FindStart(t, cont, index, want, skip)
            == if matched && index == 1 then Some(0)
               else Later(FindStart(t[1..], t[0].typ == CONT, if matched then index - 1 else index, want,
                                    if skip > 0 then skip - 1 else 0))
  {
    hide Folded, LabelLen, Matches;
  }

  lemma FindStartOne(h: Header, t: seq<Rec>, index: nat, want: Want, skip: nat)
    requires index >= 1 && IsHeader(h)
    ensures var matched := skip == 0 && Matches(want, h[0].data);
            FindStart(h + t, false, index, want, skip)
            == if matched && index == 1 then Some(0)
               else Shift(|h|, FindStart(t, false, if matched then index - 1 else index, want,
                                         if skip > 0 then skip - 1 else 0))
  {
    hide Folded, LabelLen, Matches, FindEnd, FindStart;
    FindStartStep(h + t, false, index, want, skip);
    var matched := skip == 0 && Matches(want, h[0].data);
    if !(matched && index == 1) {
      assert (h + t)[0] == h[0] && (h + t)[1..] == h[1..] + t;
      FindStartOver(h[1..], t, h[0].typ == CONT, if matched then index - 1 else index, want,
                    if skip > 0 then skip - 1 else 0);
    }
  }

  lemma FlattenPrefix(hs: seq<Header>, m: nat)
    requires m < |hs|
    ensures Flatten(hs[..m + 1]) == hs[0] + Flatten(hs[1..][..m])
  {
    assert hs[..m + 1][1..] == hs[1..][..m];
  }

  /** The record scan of the editor picks the same header as counting headers does. */
  lemma {:induction false} FindStartPicks(hs: seq<Header>, index: nat, want: Want, skip: nat)
    requires index >= 1 && AllHeaders(hs)
    ensures var m := Pick(hs, index, want, skip);
            FindStart(Flatten(hs), false, index, want, skip)
            == if m.None? then None else Some(|Flatten(hs[..m.value])|)
    decreases |hs|
  {
    hide FindStart, Matches, LabelLen, Folded;
    if hs == [] {
      FindStartBound([], false, index, want, skip);
    } else {
      var matched := skip == 0 && Matches(want, hs[0][0].data);
      FindStartOne(hs[0], Flatten(hs[1..]), index, want, skip);
      if matched && index == 1 {
        assert hs[..0] == [];
      } else {
        var index', skip' := if matched then index - 1 else index, if skip > 0 then skip - 1 else 0;
        FindStartPicks(hs[1..], index', want, skip');
        var m := Pick(hs[1..], index', want, skip');
        if m.Some? { FlattenPrefix(hs, m.value); }
      }
    }
  }

  lemma FlattenSplit(hs: seq<Header>, m: nat)
    requires m < |hs|
    ensures Flatten(hs) == Flatten(hs[..m]) + hs[m] + Flatten(hs[m + 1..])
  {
    assert hs == hs[..m] + hs[m..];
    FlattenConcat(hs[..m], hs[m..]);
    assert hs[m..][1..] == hs[m + 1..];
  }

  // ----- Header edits on the plain list -----

  function InsList(hs: seq<Header>, index: int, hdr: Header): seq<Header> {
    var m := if index < 1 then 0 else index - 1;
    if m < |hs| then hs[..m] + [hdr] + hs[m..] else hs + [hdr]
  }

  function UpdList(hs: seq<Header>, index: nat, name: seq<byte>, hdr: Header): seq<Header>
    requires index >= 1 && AllHeaders(hs)
  {
    FindStartPicks(hs, index, Named(name), 1);
    var m := Pick(hs, index, Named(name), 1);
    if m.None? then hs + [hdr] else hs[m.value := hdr]
  }

  function DelList(hs: seq<Header>, index: nat, name: seq<byte>): seq<Header>
    requires index >= 1 && AllHeaders(hs)
  {
    FindStartPicks(hs, index, Named(name), 1);
    var m := Pick(hs, index, Named(name), 1);
    if m.None? then hs else hs[..m.value] + hs[m.value + 1..]
  }

  lemma {:induction false} PickAny(hs: seq<Header>, index: nat)
    requires index >= 1 && AllHeaders(hs)
    ensures Pick(hs, index, Any, 0) == if index <= |hs| then Some(index - 1) else None
    decreases |hs|
  {
    if hs != [] && index > 1 { PickAny(hs[1..], index - 1); }
  }

  lemma AddMatchesList(hs: seq<Header>, hdr: Header)
    ensures AddText(Flatten(hs), hdr) == Flatten(hs + [hdr])
  {
    FlattenConcat(hs, [hdr]);
    assert Flatten([hdr]) == hdr + Flatten([hdr][1..]);
  }

  /** Inserting by scanning records inserts at that place in the list of headers. */
  lemma InsMatchesList(hs: seq<Header>, index: int, hdr: Header)
    requires AllHeaders(hs)
    ensures InsText(Flatten(hs), index, hdr) == Flatten(InsList(hs, index, hdr))
  {
    var n := if index < 1 then 1 else index;
    FindStartPicks(hs, n, Any, 0);
    PickAny(hs, n);
    if n <= |hs| {
      var m := n - 1;
      FlattenSplit(hs, m);
      FlattenConcat(hs[..m], hs[m..]);
      assert hs == hs[..m] + hs[m..];
      FlattenConcat(hs[..m] + [hdr], hs[m..]);
      AddMatchesList(hs[..m], hdr);
    } else {
      AddMatchesList(hs, hdr);
    }
  }

  lemma ReplaceMatchesList(hs: seq<Header>, m: nat, hdr: seq<Rec>)
    requires AllHeaders(hs) && m < |hs|
    ensures |Flatten(hs[..m])| < |Flatten(hs)|
    ensures ReplaceText(Flatten(hs), |Flatten(hs[..m])|, hdr)
         == Flatten(hs[..m]) + hdr + Flatten(hs[m + 1..])
  {
    hide Flatten, ReplaceText, IsHeader;
    FlattenSplit(hs, m);
    FindEndFlat(hs[m + 1..]);
    ReplaceOne(Flatten(hs[..m]), hs[m], Flatten(hs[m + 1..]), hdr);
  }

  lemma ReplaceOne(a: seq<Rec>, h: Header, b: seq<Rec>, hdr: seq<Rec>)
    requires IsHeader(h) && FindEnd(b, false) == 0
    ensures |a| < |a + h + b| && ReplaceText(a + h + b, |a|, hdr) == a + hdr + b
  {
    hide LabelLen, Folded, FindEnd;
    var t, p := a + h + b, |a|;
    assert t[p] == h[0] && t[p + 1..] == h[1..] + b;
    FindEndOver(h[1..], b, h[0].typ == CONT);
    assert t[..p] == a && t[p + |h|..] == b;
  }

  /** Updating by scanning records replaces exactly the picked header of the list. */
  lemma UpdMatchesList(hs: seq<Header>, index: nat, name: seq<byte>, hdr: Header)
    requires index >= 1 && AllHeaders(hs)
    ensures UpdText(Flatten(hs), index, name, hdr) == Flatten(UpdList(hs, index, name, hdr))
  {
    hide FindStart, ReplaceText, Pick, Flatten, IsHeader;
    FindStartPicks(hs, index, Named(name), 1);
    var p := Pick(hs, index, Named(name), 1);
    if p.None? {
      AddMatchesList(hs, hdr);
    } else {
      var m := p.value;
      ReplaceMatchesList(hs, m, hdr);
      FlattenSplit(hs[m := hdr], m);
      assert hs[m := hdr][..m] == hs[..m] && hs[m := hdr][m + 1..] == hs[m + 1..];
    }
  }

  lemma DelMatchesList(hs: seq<Header>, index: nat, name: seq<byte>)
    requires index >= 1 && AllHeaders(hs)
    ensures DelText(Flatten(hs), index, name) == Flatten(DelList(hs, index, name))
  {
    hide FindStart, ReplaceText, Pick, Flatten, IsHeader;
    FindStartPicks(hs, index, Named(name), 1);
    var p := Pick(hs, index, Named(name), 1);
    if p.Some? {
      ReplaceMatchesList(hs, p.value, []);
      FlattenConcat(hs[..p.value], hs[p.value + 1..]);
    }
  }

  /** Nothing is lost by flattening: the records determine the list of headers. */
  lemma {:induction false} GroupFlatten(hs: seq<Header>)
    requires AllHeaders(hs)
    ensures Group(Flatten(hs)) == hs
    decreases |hs|
  {
    if hs != [] {
      hide Group, FindEnd, IsHeader;
      FindEndFlat(hs[1..]);
      GroupFirst(hs[0], Flatten(hs[1..]));
      GroupFlatten(hs[1..]);
    }
  }

  lemma GroupFirst(h: Header, rest: seq<Rec>)
    requires IsHeader(h) && FindEnd(rest, false) == 0
    ensures Group(h + rest) == [h] + Group(rest)
  {
    hide LabelLen, Folded, FindEnd;
    var t := h + rest;
    assert t[0] == h[0] && t[1..] == h[1..] + rest;
    FindEndOver(h[1..], rest, h[0].typ == CONT);
    assert t[..|h|] == h && t[|h|..] == rest;
  }
}
