/** Cancelling recipients (src/cleanup/cleanup_milter.c:1733-1817): the scan remembers the
    original recipient and marks every record whose original recipient matches. */
module Recipients {
  import opened Records
  import opened Chain
  import opened Layout
  import opened HeaderEdits
  import opened Following
  import opened JumpLoad
  import opened HeaderOps

  /** The original recipient that is remembered after record r. */
  function OrigNext(r: Rec, orig: Option<seq<byte>>): Option<seq<byte>> {
    if r.typ == ORCP then Some(r.data)
    else if r.typ == RCPT || r.typ == DRCP || r.typ == DONE then None
    else orig
  }

  function OrigAfter(rs: seq<Rec>, orig: Option<seq<byte>>): Option<seq<byte>>
    decreases |rs|
  {
    if rs == [] then orig else OrigAfter(rs[1..], OrigNext(rs[0], orig))
  }

  /** Does the scan cancel this record? */
  predicate Hits(r: Rec, orig: Option<seq<byte>>, addr: seq<byte>) {
    r.typ == RCPT && addr == if orig.Some? then orig.value else r.data
  }

  function CancelOne(r: Rec, orig: Option<seq<byte>>, addr: seq<byte>): Rec {
    if Hits(r, orig, addr) then Rec(DRCP, r.data) else r
  }

  function Cancel(rs: seq<Rec>, orig: Option<seq<byte>>, addr: seq<byte>): seq<Rec>
    decreases |rs|
  {
    if rs == [] then [] else [CancelOne(rs[0], orig, addr)] + Cancel(rs[1..], OrigNext(rs[0], orig), addr)
  }

  /** cleanup_del_rcpt on the plain message: the scan runs over the envelope, skips the
      content, and goes on in the extracted records. */
  function DelRcpt(g: Message, addr: seq<byte>): Message {
    g.(env := Cancel(g.env, None, addr), ext := Cancel(g.ext, OrigAfter(g.env, None), addr))
  }

  /** The same, when the scan stops after n records. */
  function PartRcpt(g: Message, addr: seq<byte>, n: nat): Message {
    if n <= |g.env| then g.(env := Cancel(g.env[..n], None, addr) + g.env[n..])
    else
      var k := if n - |g.env| <= |g.ext| then n - |g.env| else |g.ext|;
      g.(env := Cancel(g.env, None, addr),
         ext := Cancel(g.ext[..k], OrigAfter(g.env, None), addr) + g.ext[k..])
  }

  ghost predicate PartlyDeleted(g: Message, g': Message, addr: seq<byte>) { exists n :: g' == PartRcpt(g, addr, n) }

  // ----- What is cancelled -----

  /** Records that end the description of a recipient. */
  predicate Ends(r: Rec) { r.typ == RCPT || r.typ == DRCP || r.typ == DONE }

  /** The last ORCP record before position k that belongs to the same recipient. */
  function OrigBefore(rs: seq<Rec>, k: nat): Option<seq<byte>>
    requires k <= |rs|
    decreases k
  {
    if k == 0 || Ends(rs[k - 1]) then None
    else if rs[k - 1].typ == ORCP then Some(rs[k - 1].data)
    else OrigBefore(rs, k - 1)
  }

  /** The original recipient of the RCPT record at k: its ORCP record, or its own address. */
  function OriginalRcpt(rs: seq<Rec>, k: nat): seq<byte>
    requires k < |rs|
  {
    if OrigBefore(rs, k).Some? then OrigBefore(rs, k).value else rs[k].data
  }

  lemma {:induction false} OrigAfterConcat(a: seq<Rec>, b: seq<Rec>, orig: Option<seq<byte>>)
    ensures OrigAfter(a + b, orig) == OrigAfter(b, OrigAfter(a, orig))
    decreases |a|
  {
    if a == [] {
      assert a + b == b;
    } else {
      assert (a + b)[1..] == a[1..] + b;
      OrigAfterConcat(a[1..], b, OrigNext(a[0], orig));
    }
  }

  lemma {:induction false} CancelConcat(a: seq<Rec>, b: seq<Rec>, orig: Option<seq<byte>>, addr: seq<byte>)
    ensures Cancel(a + b, orig, addr) == Cancel(a, orig, addr) + Cancel(b, OrigAfter(a, orig), addr)
    decreases |a|
  {
    if a == [] {
      assert a + b == b;
    } else {
      assert (a + b)[1..] == a[1..] + b;
      CancelConcat(a[1..], b, OrigNext(a[0], orig), addr);
    }
  }

  lemma {:induction false} OrigAfterIs(rs: seq<Rec>, k: nat)
    requires k <= |rs|
    ensures OrigAfter(rs[..k], None) == OrigBefore(rs, k)
    decreases k
  {
    if k > 0 {
      OrigAfterIs(rs, k - 1);
      assert rs[..k] == rs[..k - 1] + [rs[k - 1]];
      OrigAfterConcat(rs[..k - 1], [rs[k - 1]], None);
      assert [rs[k - 1]][1..] == [];
    }
  }

  /** Exactly the live recipients whose original recipient is addr are cancelled, all of
      their expansions included; every other record stays as it is. */
  lemma CancelExactly(rs: seq<Rec>, addr: seq<byte>, k: nat)
    requires k < |rs|
    ensures |Cancel(rs, None, addr)| == |rs|
    ensures Cancel(rs, None, addr)[k]
         == if rs[k].typ == RCPT && OriginalRcpt(rs, k) == addr then Rec(DRCP, rs[k].data) else rs[k]
  {
    CancelLength(rs, None, addr);
    CancelLength(rs[..k], None, addr);
    assert rs == rs[..k] + rs[k..];
    CancelConcat(rs[..k], rs[k..], None, addr);
    OrigAfterIs(rs, k);
  }

  lemma {:induction false} CancelLength(rs: seq<Rec>, orig: Option<seq<byte>>, addr: seq<byte>)
    ensures |Cancel(rs, orig, addr)| == |rs|
    decreases |rs|
  {
    if rs != [] { CancelLength(rs[1..], OrigNext(rs[0], orig), addr); }
  }

  /** Cancelling twice changes nothing more: ORCP records still lead to the cancelled ones. */
  lemma {:induction false} CancelIdempotent(rs: seq<Rec>, orig: Option<seq<byte>>, addr: seq<byte>)
    ensures Cancel(Cancel(rs, orig, addr), orig, addr) == Cancel(rs, orig, addr)
    ensures OrigAfter(Cancel(rs, orig, addr), orig) == OrigAfter(rs, orig)
    decreases |rs|
  {
    if rs != [] {
      CancelIdempotent(rs[1..], OrigNext(rs[0], orig), addr);
      assert Cancel(rs, orig, addr)[1..] == Cancel(rs[1..], OrigNext(rs[0], orig), addr);
    }
  }

  /** The scan treats envelope and extracted records as one list. */
  lemma DelRcptWhole(g: Message, addr: seq<byte>)
    ensures DelRcpt(g, addr).env + DelRcpt(g, addr).ext == Cancel(g.env + g.ext, None, addr)
    ensures |DelRcpt(g, addr).env| == |g.env| && |DelRcpt(g, addr).ext| == |g.ext|
  {
    CancelConcat(g.env, g.ext, None, addr);
    CancelLength(g.env, None, addr);
    CancelLength(g.ext, OrigAfter(g.env, None), addr);
  }

  // ----- Marking a record in place -----

  ghost function Retyped(m: Map, k: nat): Map
    requires k < |m.c|
  {
    m.(c := m.c[k := Item(m.c[k].off, Rec(DRCP, m.c[k].rec.data))])
  }

  lemma RetypedPath(q: Queue, m: Map, k: nat)
    requires Inv(q, m) && k < |m.c| - 1 && m.c[k].rec.typ == RCPT
    ensures m.c[k].off <= |q.file|
    ensures Path(Put(q.file, m.c[k].off, Rec(DRCP, m.c[k].rec.data)), Retyped(m, k).c)
    ensures |Put(q.file, m.c[k].off, Rec(DRCP, m.c[k].rec.data))| == |q.file|
  {
    hide At, Padded, Markers, Anchored, HeaderPart, BodyPart, Put, Target, LenLen;
    var r := Rec(DRCP, m.c[k].rec.data);
    StoredFits(q.file, m.c, k);
    SelfClear(m.c, k);
    assert Succ(m.c[k]) == m.c[k + 1].off;
    Overwrite(q.file, m.c, k, k + 1, r);
    assert m.c[..k] + [Item(m.c[k].off, r)] + m.c[k + 1..] == Retyped(m, k).c;
  }

  lemma SelfClear(c: seq<Item>, k: nat)
    requires Distinct(c) && k < |c|
    ensures Clear(c[..k], c[k].off, Size(c[k].rec)) && Clear(c[k + 1..], c[k].off, Size(c[k].rec))
  {
    hide Size;
    var b := c[k + 1..];
    forall i | 0 <= i < |b| ensures Apart(b[i], c[k].off, Size(c[k].rec)) {
      assert b[i] == c[k + 1 + i] && Apart(c[k], c[k + 1 + i].off, Size(c[k + 1 + i].rec));
    }
  }

  lemma RetypedParts(q: Queue, m: Map, k: nat, file: seq<byte>)
    requires Inv(q, m) && k < |m.c| - 1 && (k < m.mesg || m.xtra < k) && m.c[k].rec.typ == RCPT && |file| == |q.file|
    ensures var m' := Retyped(m, k);
            Ordered(m') && Markers(m') && Anchored(q.(file := file), m') && HeaderPart(m', q.lim)
  {
    hide Path, Padded, BodyPart, HeaderRec, Size, Jumps;
    var m' := Retyped(m, k);
    forall n | 0 <= n < |m'.c| ensures Marked(m'.c[n].rec.typ, n, m') {
      assert Marked(m.c[n].rec.typ, n, m);
    }
    assert Marked(m.c[m.from].rec.typ, m.from, m);
    assert m.c[m.hdr].rec.typ == PTR && m.c[m.rcpt].rec.typ == PTR;
    assert SenderEnd(m') == SenderEnd(m);
    assert m'.c[m.mesg + 1..m.hdr] == m.c[m.mesg + 1..m.hdr];
    forall n | m'.mesg < n < m'.hdr ensures HeaderRec(m'.c[n].rec, q.lim) {
      assert HeaderRec(m.c[n].rec, q.lim);
    }
  }

  lemma RetypedBody(q: Queue, m: Map, k: nat, file: seq<byte>)
    requires Inv(q, m) && k < |m.c| - 1 && (k < m.mesg || m.xtra < k) && |file| == |q.file|
    ensures Ordered(Retyped(m, k)) && BodyPart(q.(file := file), Retyped(m, k))
  {
    hide Path, Padded, HeaderPart, Markers, Anchored, Disjoint, Closed, Inside, LenLen;
    var m', rs := Retyped(m, k), Regions(q);
    assert Regions(q.(file := file)) == rs && InUse(q.(file := file)) == InUse(q);
    assert m'.c[m.hdr + 1..m.xtra] == m.c[m.hdr + 1..m.xtra];
    var a, a', b, b' := m.c[..m.hdr + 1], m'.c[..m.hdr + 1], m.c[m.xtra..], m'.c[m.xtra..];
    forall n, i | 0 <= n < |a'| && 0 <= i < |rs| ensures Outside(a'[n], rs[i]) {
      assert Outside(a[n], rs[i]);
    }
    forall n, i | 0 <= n < |b'| && 0 <= i < |rs| ensures Outside(b'[n], rs[i]) {
      assert Outside(b[n], rs[i]);
    }
  }

  /** Changing the type of a recipient record in place keeps the invariant. */
  lemma RetypedInv(q: Queue, m: Map, k: nat)
    requires Inv(q, m) && k < |m.c| - 1 && (k < m.mesg || m.xtra < k) && m.c[k].rec.typ == RCPT
    ensures m.c[k].off <= |q.file|
    ensures Inv(q.(file := Put(q.file, m.c[k].off, Rec(DRCP, m.c[k].rec.data))), Retyped(m, k))
  {
    hide Path, Padded, HeaderPart, Markers, Anchored, BodyPart, Put;
    RetypedPath(q, m, k);
    var file := Put(q.file, m.c[k].off, Rec(DRCP, m.c[k].rec.data));
    RetypedParts(q, m, k, file);
    RetypedBody(q, m, k, file);
  }

  // ----- The scan loop -----

  /** The part of the path from a to k, as it was and with recipients cancelled. */
  ghost predicate Done(m0: Map, m: Map, a: nat, k: nat, orig: Option<seq<byte>>, addr: seq<byte>) {
    a <= k <= |m0.c| && k <= |m.c| && View(m.c[a..k]) == Cancel(View(m0.c[a..k]), orig, addr)
  }

  ghost predicate SameShape(m0: Map, m: Map) {
    && m == m0.(c := m.c) && |m.c| == |m0.c|
    && (forall n :: 0 <= n < |m.c| ==> m.c[n].off == m0.c[n].off && (Visible(m.c[n].rec) <==> Visible(m0.c[n].rec)))
    && (forall n :: 0 <= n < |m.c| && !Visible(m0.c[n].rec) ==> m.c[n] == m0.c[n])
  }

  /** The path still ahead of k, and the message content, are untouched. */
  ghost predicate Ahead(m0: Map, m: Map, k: nat) {
    && |m.c| == |m0.c| && (forall n :: k <= n < |m.c| ==> m.c[n] == m0.c[n])
    && (forall n :: m0.mesg <= n <= m0.xtra && n < |m.c| ==> m.c[n] == m0.c[n])
  }

  ghost predicate Cancelling(m0: Map, m: Map, k: nat, addr: seq<byte>, orig: Option<seq<byte>>) {
    && Ordered(m0) && SameShape(m0, m) && Ahead(m0, m, k) && k < |m.c| && (k <= m0.mesg || m0.xtra <= k)
    && (k <= m0.mesg ==> Done(m0, m, 0, k, None, addr) && orig == OrigAfter(View(m0.c[0..k]), None))
    && (m0.xtra <= k ==>
          var o, b := OrigAfter(View(m0.c[0..m0.mesg]), None), if k > m0.xtra then k else m0.xtra + 1;
          && Done(m0, m, 0, m0.mesg, None, addr) && Done(m0, m, m0.xtra + 1, b, o, addr)
          && orig == OrigAfter(View(m0.c[m0.xtra + 1..b]), o))
  }

  lemma CancelStart(m: Map, addr: seq<byte>)
    requires Ordered(m)
    ensures Cancelling(m, m, 0, addr, None)
  {
    assert m.c[0..0] == [];
    assert View([]) == [];
  }

  lemma OnePart(m0: Map, m: Map, a: nat, k: nat, o: Option<seq<byte>>, addr: seq<byte>)
    requires Done(m0, m, a, k, o, addr) && |m.c| == |m0.c| && k < |m.c|
    requires var orig := OrigAfter(View(m0.c[a..k]), o);
             m.c[k].rec == if Visible(m0.c[k].rec) then CancelOne(m0.c[k].rec, orig, addr) else m0.c[k].rec
    ensures Done(m0, m, a, k + 1, o, addr)
    ensures OrigAfter(View(m0.c[a..k + 1]), o)
         == if Visible(m0.c[k].rec) then OrigNext(m0.c[k].rec, OrigAfter(View(m0.c[a..k]), o))
            else OrigAfter(View(m0.c[a..k]), o)
  {
    hide View;
    var x, y := m0.c[k], m.c[k];
    assert m0.c[a..k + 1] == m0.c[a..k] + [x] && m.c[a..k + 1] == m.c[a..k] + [y];
    ViewConcat(m0.c[a..k], [x]);
    ViewConcat(m.c[a..k], [y]);
    ViewOne(x);
    ViewOne(y);
    CancelConcat(View(m0.c[a..k]), View([x]), o, addr);
    OrigAfterConcat(View(m0.c[a..k]), View([x]), o);
    if Visible(x.rec) { assert [x.rec][1..] == []; }
  }

  /** One record of the scan, cancelled if it hits. */
  lemma CancelStep(m0: Map, m: Map, k: nat, addr: seq<byte>, orig: Option<seq<byte>>)
    requires Cancelling(m0, m, k, addr, orig) && k < |m.c| - 1 && k != m0.mesg && k != m0.xtra
    ensures var m' := if Hits(m.c[k].rec, orig, addr) then Retyped(m, k) else m;
            Cancelling(m0, m', k + 1, addr, if Visible(m.c[k].rec) then OrigNext(m.c[k].rec, orig) else orig)
  {
    hide View, OrigAfter, Cancel;
    var m' := if Hits(m.c[k].rec, orig, addr) then Retyped(m, k) else m;
    assert m.c[k] == m0.c[k];
    assert m'.c[k].rec == if Visible(m0.c[k].rec) then CancelOne(m0.c[k].rec, orig, addr) else m0.c[k].rec;
    if k < m0.mesg {
      assert m'.c[0..k] == m.c[0..k];
      OnePart(m0, m', 0, k, None, addr);
    } else {
      var o := OrigAfter(View(m0.c[0..m0.mesg]), None);
      assert m'.c[0..m0.mesg] == m.c[0..m0.mesg];
      assert m'.c[m0.xtra + 1..k] == m.c[m0.xtra + 1..k];
      OnePart(m0, m', m0.xtra + 1, k, o, addr);
    }
  }

  /** At the start-of-content marker the scan skips to the end-of-content marker. */
  lemma CancelSkip(m0: Map, m: Map, addr: seq<byte>, orig: Option<seq<byte>>)
    requires Cancelling(m0, m, m0.mesg, addr, orig)
    ensures Cancelling(m0, m, m0.xtra, addr, orig)
  {
    var b := m0.xtra + 1;
    assert m0.c[b..b] == [] && m.c[b..b] == [];
    assert View([]) == [];
  }

  lemma CancelPast(m0: Map, m: Map, addr: seq<byte>, orig: Option<seq<byte>>)
    requires Cancelling(m0, m, m0.xtra, addr, orig)
    ensures Cancelling(m0, m, m0.xtra + 1, addr, orig)
  {
    hide View, OrigAfter, Cancel;
  }

  lemma {:induction false} SameLength(a: seq<Item>, b: seq<Item>)
    requires |a| == |b| && forall n :: 0 <= n < |a| ==> (Visible(a[n].rec) <==> Visible(b[n].rec))
    ensures |View(a)| == |View(b)|
  {
    if a != [] { SameLength(a[..|a| - 1], b[..|b| - 1]); }
  }

  /** When the scan reaches END the message is the plain one with recipients cancelled. */
  lemma CancelDone(m0: Map, m: Map, addr: seq<byte>, orig: Option<seq<byte>>)
    requires |m.c| > 0 && Cancelling(m0, m, |m.c| - 1, addr, orig)
    ensures Ordered(m) && Abs(m) == DelRcpt(Abs(m0), addr)
  {
    hide View, OrigAfter, Cancel;
    assert m.c[0..m.mesg] == m.c[..m.mesg] && m0.c[0..m.mesg] == m0.c[..m.mesg];
    assert m.c[m.mesg + 1..m.hdr] == m0.c[m.mesg + 1..m.hdr];
    assert m.c[m.hdr + 1..m.xtra] == m0.c[m.hdr + 1..m.xtra];
    SameLength(m.c[..m.from], m0.c[..m.from]);
    if m.rcpt < m.mesg {
      SameLength(m.c[..m.rcpt], m0.c[..m.rcpt]);
    } else {
      SameLength(m.c[m.xtra + 1..m.rcpt], m0.c[m.xtra + 1..m.rcpt]);
    }
  }

  lemma SplitView(m0: Map, m: Map, a: nat, k: nat, b: nat, o: Option<seq<byte>>, addr: seq<byte>)
    requires a <= k <= b <= |m0.c| && |m.c| == |m0.c| && Done(m0, m, a, k, o, addr)
    requires forall n :: k <= n < |m.c| ==> m.c[n] == m0.c[n]
    ensures var v, n := View(m0.c[a..b]), |View(m0.c[a..k])|;
            n <= |v| && View(m.c[a..b]) == Cancel(v[..n], o, addr) + v[n..]
  {
    hide View, Cancel;
    assert m0.c[a..b] == m0.c[a..k] + m0.c[k..b] && m.c[a..b] == m.c[a..k] + m.c[k..b];
    assert m.c[k..b] == m0.c[k..b];
    ViewConcat(m0.c[a..k], m0.c[k..b]);
    ViewConcat(m.c[a..k], m.c[k..b]);
  }

  lemma PlacesSame(m0: Map, m: Map)
    requires Ordered(m0) && SameShape(m0, m)
    ensures Ordered(m) && SenderAt(m) == SenderAt(m0) && RcptAt(m) == RcptAt(m0)
  {
    hide View, Visible;
    SameLength(m.c[..m.from], m0.c[..m.from]);
    if m.rcpt < m.mesg {
      SameLength(m.c[..m.rcpt], m0.c[..m.rcpt]);
    } else {
      SameLength(m.c[m.xtra + 1..m.rcpt], m0.c[m.xtra + 1..m.rcpt]);
    }
  }

  lemma ContentSame(m0: Map, m: Map, k: nat)
    requires Ordered(m0) && SameShape(m0, m) && Ahead(m0, m, k)
    ensures Ordered(m) && HdrsOf(m) == HdrsOf(m0) && BodyOf(m) == BodyOf(m0)
  {
    hide View, Visible;
    assert m.c[m.mesg + 1..m.hdr] == m0.c[m.mesg + 1..m.hdr];
    assert m.c[m.hdr + 1..m.xtra] == m0.c[m.hdr + 1..m.xtra];
  }

  /** When the scan stops before the record at k, what it passed was treated. */
  lemma CancelStopped(m0: Map, m: Map, k: nat, addr: seq<byte>, orig: Option<seq<byte>>)
    requires Cancelling(m0, m, k, addr, orig) && k < |m.c| - 1 && k != m0.xtra
    ensures Ordered(m) && PartlyDeleted(Abs(m0), Abs(m), addr)
  {
    hide View, OrigAfter, Cancel, EnvOf, ExtOf, HdrsOf, BodyOf, SenderAt, RcptAt;
    PlacesSame(m0, m);
    ContentSame(m0, m, k);
    EnvSlices(m0);
    EnvSlices(m);
    if k <= m0.mesg {
      SplitView(m0, m, 0, k, m0.mesg, None, addr);
      assert m.c[m.xtra + 1..|m.c| - 1] == m0.c[m0.xtra + 1..|m.c| - 1];
      assert Abs(m) == PartRcpt(Abs(m0), addr, |View(m0.c[0..k])|);
    } else {
      var o := OrigAfter(View(m0.c[0..m0.mesg]), None);
      SplitView(m0, m, m0.xtra + 1, k, |m.c| - 1, o, addr);
      PartWithin(m0, m, addr, |View(m0.c[m0.xtra + 1..k])|);
    }
  }

  lemma EnvSlices(m: Map)
    requires Ordered(m)
    ensures EnvOf(m) == View(m.c[0..m.mesg]) && ExtOf(m) == View(m.c[m.xtra + 1..|m.c| - 1])
  {
    hide View;
    assert m.c[..m.mesg] == m.c[0..m.mesg];
  }

  lemma PartWithin(m0: Map, m: Map, addr: seq<byte>, n: nat)
    requires Ordered(m0) && Ordered(m) && SenderAt(m) == SenderAt(m0) && RcptAt(m) == RcptAt(m0) && m == m0.(c := m.c)
    requires HdrsOf(m) == HdrsOf(m0) && BodyOf(m) == BodyOf(m0) && EnvOf(m) == Cancel(EnvOf(m0), None, addr)
    requires n <= |ExtOf(m0)|
    requires ExtOf(m) == Cancel(ExtOf(m0)[..n], OrigAfter(EnvOf(m0), None), addr) + ExtOf(m0)[n..]
    ensures PartlyDeleted(Abs(m0), Abs(m), addr)
  {
    hide View, OrigAfter, Cancel, EnvOf, ExtOf, HdrsOf, BodyOf, SenderAt, RcptAt;
    var e, x := EnvOf(m0), ExtOf(m0);
    if n == 0 {
      assert e[..|e|] == e && x[..0] == [] && x[0..] == x;
      assert Cancel(e, None, addr) + e[|e|..] == Cancel(e, None, addr);
      assert ExtOf(m) == x by { EmptyCancel(OrigAfter(e, None), addr); }
      assert Abs(m) == PartRcpt(Abs(m0), addr, |e|);
    } else {
      assert Abs(m) == PartRcpt(Abs(m0), addr, |e| + n);
    }
  }

  lemma EmptyCancel(orig: Option<seq<byte>>, addr: seq<byte>)
    ensures Cancel([], orig, addr) == []
  {
  }

  // ----- The jumps that a scan takes -----

  /** Cancelling leaves the pointers of the path alone. */
  ghost predicate SamePointers(a: seq<Item>, b: seq<Item>) {
    && |a| == |b|
    && forall n :: 0 <= n < |a| ==> a[n].off == b[n].off && (a[n].rec.typ == PTR || b[n].rec.typ == PTR ==> a[n] == b[n])
  }

  lemma {:induction false} SameReverses(saved: nat, a: seq<Item>, b: seq<Item>)
    requires SamePointers(a, b)
    ensures SavedAfter(saved, a) == SavedAfter(saved, b) && Reverses(saved, a) == Reverses(saved, b)
    ensures Backs(a) == Backs(b)
  {
    if a != [] { SameReverses(saved, a[..|a| - 1], b[..|b| - 1]); }
  }

  lemma CancelPointers(m0: Map, m: Map)
    requires Ordered(m0) && SameShape(m0, m)
    ensures Ordered(m) && SamePointers(EnvelopePath(m0), EnvelopePath(m)) && SamePointers(m0.c, m.c)
  {
  }

  lemma CancelLoad(q: Queue, m0: Map, q': Queue, m: Map)
    requires Ordered(m0) && SameShape(m0, m) && q'.free == q.free && InUse(q') == InUse(q)
    ensures Ordered(m) && Load(q', m) == Load(q, m0)
  {
    hide Backs, InUse, Visible;
    assert SamePointers(HeaderPath(m0), HeaderPath(m)) && SamePointers(BodyPath(m0), BodyPath(m)) by { PathPointers(m0, m); }
    CancelPointers(m0, m);
    SameReverses(0, HeaderPath(m0), HeaderPath(m));
    SameReverses(0, BodyPath(m0), BodyPath(m));
    SameReverses(0, EnvelopePath(m0), EnvelopePath(m));
  }

  lemma PathPointers(m0: Map, m: Map)
    requires Ordered(m0) && SameShape(m0, m)
    ensures Ordered(m) && SamePointers(HeaderPath(m0), HeaderPath(m)) && SamePointers(BodyPath(m0), BodyPath(m))
  {
  }

  /** What the scan has passed before path index k. */
  function EnvelopeUpto(m: Map, k: nat): seq<Item>
    requires Ordered(m) && k < |m.c|
  {
    if k <= m.mesg then m.c[..k]
    else if k <= m.xtra then m.c[..m.mesg]
    else m.c[..m.mesg] + m.c[m.xtra + 1..k]
  }

  lemma UptoStart(m: Map)
    requires Ordered(m)
    ensures EnvelopeUpto(m, 0) == []
  {
  }

  lemma UptoEnd(m: Map)
    requires Ordered(m)
    ensures EnvelopeUpto(m, |m.c| - 1) == EnvelopePath(m)
  {
  }

  lemma UptoStep(m: Map, k: nat)
    requires Ordered(m) && k < |m.c| - 1 && (k <= m.mesg || m.xtra <= k)
    ensures k == m.mesg ==> EnvelopeUpto(m, m.xtra) == EnvelopeUpto(m, k)
    ensures k == m.xtra ==> EnvelopeUpto(m, k + 1) == EnvelopeUpto(m, k)
    ensures k != m.mesg && k != m.xtra ==>
              && EnvelopeUpto(m, k + 1) == EnvelopeUpto(m, k) + [m.c[k]]
              && EnvelopeUpto(m, k) + [m.c[k]] <= EnvelopePath(m)
  {
    if k < m.mesg {
      assert m.c[..k + 1] == m.c[..k] + [m.c[k]] && m.c[..k + 1] <= m.c[..m.mesg];
    } else if m.xtra < k {
      var a := m.c[m.xtra + 1..k];
      assert m.c[m.xtra + 1..k + 1] == a + [m.c[k]] && a + [m.c[k]] <= m.c[m.xtra + 1..|m.c| - 1];
    }
  }

  lemma CancelSame(q: Queue, m0: Map, q': Queue, m: Map, k: nat, addr: seq<byte>, orig: Option<seq<byte>>)
    requires Cancelling(m0, m, k, addr, orig) && q' == q.(file := q'.file)
    ensures Ordered(m0) && Ordered(m) && m.c[k] == m0.c[k] && Load(q', m) == Load(q, m0)
    ensures SamePointers(EnvelopePath(m0), EnvelopePath(m))
  {
    hide View, Cancel, OrigAfter, Load, SamePointers, EnvelopePath, Done;
    SameUse(q, q');
    CancelLoad(q, m0, q', m);
    CancelPointers(m0, m);
  }

  lemma SameUse(q: Queue, q': Queue)
    requires q' == q.(file := q'.file)
    ensures InUse(q') == InUse(q)
  {
  }
}
