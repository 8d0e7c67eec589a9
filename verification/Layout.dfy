/** The invariant of an edited queue file: which path a reader takes, where the editor's
    anchors lie on it, and where body regions may be. */
module Layout {
  import opened Records
  import opened Chain
  import opened Headers
  import opened Rendering

  /** A stretch of the file for body text; length 0 means open-ended (src/cleanup/cleanup.h:341). */
  datatype Region = Region(start: nat, len: nat, writeOffs: nat)

  /** The queue file and the editor's notes about it (CLEANUP_STATE). */
  datatype Queue = Queue(
    lim: Limits,
    file: seq<byte>,
    dataOffset: nat, bodyOffset: nat, xtraOffset: nat,
    hdrPt: nat, hdrTarget: nat,
    rcptPt: nat, rcptTarget: nat,
    senderPt: nat, senderTarget: nat,
    free: seq<Region>, body: seq<Region>,
    contLength: int)

  /** The reader's path and the positions on it of the sender, the recipient append pointer,
      the start-of-content marker, the header append pointer and the end-of-content marker. */
  datatype Map = Map(c: seq<Item>, from: nat, rcpt: nat, mesg: nat, hdr: nat, xtra: nat)

  predicate Ordered(m: Map) {
    && m.from < m.mesg < m.hdr < m.xtra < |m.c| - 1
    && (m.from < m.rcpt < m.mesg || m.xtra < m.rcpt < |m.c| - 1)
  }

  predicate Marked(t: byte, k: nat, m: Map) {
    && (t == FROM <==> k == m.from) && (t == MESG <==> k == m.mesg)
    && (t == XTRA <==> k == m.xtra) && (t == END <==> k == |m.c| - 1)
  }

  /** Each marker is met exactly once, in order, and so is the sender. */
  ghost predicate Markers(m: Map) {
    forall k :: 0 <= k < |m.c| ==> Marked(m.c[k].rec.typ, k, m)
  }

  /** A pointer record that can be overwritten by another one. */
  predicate Slot(r: Rec) { r.typ == PTR && Size(r) == PTR_SIZE }

  /** Path index after the sender record and its padding. */
  function SenderEnd(m: Map): nat
    requires m.from < |m.c|
  {
    if |m.c[m.from].rec.data| >= PTR_PAYLOAD then m.from + 1 else m.from + 2
  }

  predicate SenderRoom(m: Map)
    requires Ordered(m)
  {
    && SenderEnd(m) <= m.mesg && (m.rcpt < m.mesg ==> SenderEnd(m) <= m.rcpt)
    && (|m.c[m.from].rec.data| < PTR_PAYLOAD ==>
          && m.c[m.from + 1].rec.typ == PTR && !Jumps(m.c[m.from + 1].rec)
          && Size(m.c[m.from].rec) + Size(m.c[m.from + 1].rec) >= PTR_SIZE)
  }

  predicate ContentAnchored(q: Queue, m: Map)
    requires Ordered(m)
  {
    && q.dataOffset == m.c[m.mesg + 1].off && q.xtraOffset == m.c[m.xtra].off
    && Slot(m.c[m.hdr].rec) && q.hdrPt == m.c[m.hdr].off && q.hdrTarget == m.c[m.hdr + 1].off
  }

  predicate RcptsAnchored(q: Queue, m: Map)
    requires Ordered(m)
  {
    Slot(m.c[m.rcpt].rec) && q.rcptPt == m.c[m.rcpt].off && q.rcptTarget == m.c[m.rcpt + 1].off
  }

  predicate FromAnchored(q: Queue, m: Map)
    requires Ordered(m)
  {
    SenderRoom(m) && q.senderPt == m.c[m.from].off && q.senderTarget == m.c[SenderEnd(m)].off
  }

  predicate Anchored(q: Queue, m: Map)
    requires Ordered(m)
  {
    ContentAnchored(q, m) && RcptsAnchored(q, m) && FromAnchored(q, m)
  }

  // ----- Headers -----

  predicate HeaderRec(r: Rec, lim: Limits) {
    (IsText(r) && |r.data| <= lim.line) || r.typ == DTXT || (Slot(r) && Jumps(r))
  }

  /** A record that the editor takes for the start of a header. */
  predicate Starts(r: Rec, cont: bool) { IsText(r) && !cont && !Folded(r) && LabelLen(r.data) > 0 }

  /** Room for a pointer over the first record. */
  predicate Roomy(h: seq<Item>) {
    && h != []
    && (|h[0].rec.data| >= PTR_PAYLOAD
        || (|h| >= 2 && h[1].rec.typ == DTXT && Size(h[0].rec) + Size(h[1].rec) >= PTR_SIZE))
  }

  function NextCont(r: Rec, cont: bool): bool { if Visible(r) then r.typ == CONT else cont }

  function ContAfter(h: seq<Item>, cont: bool): bool
    decreases |h|
  {
    if h == [] then cont else ContAfter(h[1..], NextCont(h[0].rec, cont))
  }

  /** Every header can be overwritten by a pointer. */
  ghost predicate Padded(h: seq<Item>, cont: bool)
    decreases |h|
  {
    h == [] || ((Starts(h[0].rec, cont) ==> Roomy(h)) && Padded(h[1..], NextCont(h[0].rec, cont)))
  }

  ghost predicate HeaderPart(m: Map, lim: Limits)
    requires Ordered(m)
  {
    && (forall k :: m.mesg < k < m.hdr ==> HeaderRec(m.c[k].rec, lim))
    && Padded(m.c[m.mesg + 1..m.hdr], false)
  }

  lemma {:induction false} ContAfterConcat(a: seq<Item>, b: seq<Item>, cont: bool)
    ensures ContAfter(a + b, cont) == ContAfter(b, ContAfter(a, cont))
    decreases |a|
  {
    if a == [] {
      assert a + b == b;
    } else {
      assert (a + b)[1..] == a[1..] + b;
      ContAfterConcat(a[1..], b, NextCont(a[0].rec, cont));
    }
  }

  lemma {:induction false} PaddedJoin(a: seq<Item>, b: seq<Item>, cont: bool)
    requires Padded(a, cont) && Padded(b, ContAfter(a, cont))
    ensures Padded(a + b, cont)
    decreases |a|
  {
    hide Starts, NextCont;
    if a == [] {
      assert a + b == b;
    } else {
      assert (a + b)[1..] == a[1..] + b && (a + b)[0] == a[0];
      PaddedJoin(a[1..], b, NextCont(a[0].rec, cont));
    }
  }

  lemma {:induction false} PaddedSuffix(a: seq<Item>, b: seq<Item>, cont: bool)
    requires Padded(a + b, cont)
    ensures Padded(b, ContAfter(a, cont))
    decreases |a|
  {
    if a == [] {
      assert a + b == b;
    } else {
      assert (a + b)[1..] == a[1..] + b;
      PaddedSuffix(a[1..], b, NextCont(a[0].rec, cont));
    }
  }

  lemma {:induction false} PaddedPrefix(a: seq<Item>, b: seq<Item>, cont: bool)
    requires Padded(a + b, cont) && (b == [] || b[0].rec.typ != DTXT)
    ensures Padded(a, cont)
    decreases |a|
  {
    hide Starts, NextCont;
    if a != [] {
      assert (a + b)[1..] == a[1..] + b && (a + b)[0] == a[0];
      if |a| == 1 && b != [] { assert (a + b)[1] == b[0]; }
      if |a| > 1 { assert (a + b)[1] == a[1]; }
      PaddedPrefix(a[1..], b, NextCont(a[0].rec, cont));
    }
  }

  /** Records that continue a header need no room. */
  lemma {:induction false} PaddedContinued(o: nat, rs: seq<Rec>, limit: nat, cont: bool)
    requires Continues(Shown(rs), cont) && AllPlain(rs, limit)
    ensures Padded(Row(o, rs), cont) && !ContAfter(Row(o, rs), cont)
    decreases |rs|
  {
    hide Folded, Size;
    if rs != [] {
      var t := Row(o + Size(rs[0]), rs[1..]);
      assert Row(o, rs)[1..] == t;
      assert Plain(rs[0], limit);
      var next := NextCont(rs[0], cont);
      var s, u := Shown(rs), Shown(rs[1..]);
      if Visible(rs[0]) {
        assert s == [rs[0]] + u && s[1..] == u;
        assert FindEnd(s, cont) == 1 + FindEnd(u, next);
        if u != [] { assert s[|s| - 1] == u[|u| - 1]; }
      } else {
        assert s == u;
      }
      PaddedContinued(o + Size(rs[0]), rs[1..], limit, next);
    }
  }

  lemma PaddedRender(o: nat, text: seq<byte>, lim: Limits, cont: bool)
    requires Sane(lim)
    ensures Padded(Row(o, Render(text, lim)), cont) && !ContAfter(Row(o, Render(text, lim)), cont)
  {
    hide Render, FindEnd, Folded, Size, LabelLen;
    var rs := Render(text, lim);
    RenderShape(text, lim);
    var t := Row(o + Size(rs[0]), rs[1..]);
    var row := Row(o, rs);
    assert row[1..] == t && row[0].rec == rs[0];
    assert Shown(rs) == [rs[0]] + Shown(rs[1..]);
    assert Shown(rs)[1..] == Shown(rs[1..]);
    PaddedContinued(o + Size(rs[0]), rs[1..], lim.line, rs[0].typ == CONT);
    assert Roomy(row) by {
      if |rs[0].data| < PTR_PAYLOAD { assert Row(o, rs)[1] == t[0] && t[0].rec == rs[1..][0]; }
    }
  }

  lemma {:induction false} ContAfterView(h: seq<Item>, cont: bool)
    ensures ContAfter(h, cont) == if View(h) == [] then cont else View(h)[|View(h)| - 1].typ == CONT
    decreases |h|
  {
    if h != [] {
      var a, x := h[..|h| - 1], h[|h| - 1];
      assert h == a + [x];
      ContAfterConcat(a, [x], cont);
      ContAfterView(a, cont);
      assert ContAfter([x], ContAfter(a, cont)) == NextCont(x.rec, ContAfter(a, cont)) by {
        assert [x][1..] == [];
      }
    }
  }

  // ----- Body regions -----

  predicate Closed(r: Region) { r.len >= PTR_SIZE }

  predicate Outside(x: Item, r: Region) { Disjoint(x.off, Size(x.rec), r.start, r.len) }

  predicate Inside(x: Item, r: Region) { r.start <= x.off && Limit(x) <= r.start + r.len }

  /** Regions in use; before the first body edit, the part of the file that holds the body. */
  function InUse(q: Queue): seq<Region> {
    if q.body == [] then [Region(q.bodyOffset, if q.xtraOffset < q.bodyOffset then 0 else q.xtraOffset - q.bodyOffset, q.bodyOffset)] else q.body
  }

  function Regions(q: Queue): seq<Region> { q.free + InUse(q) }

  /** Regions are closed, inside the file and pairwise disjoint: none is held twice. */
  ghost predicate Packed(rs: seq<Region>, end: nat) {
    && (forall i :: 0 <= i < |rs| ==> Closed(rs[i]) && rs[i].start + rs[i].len <= end)
    && (forall i, j :: 0 <= i < j < |rs| ==> Disjoint(rs[i].start, rs[i].len, rs[j].start, rs[j].len))
  }

  ghost predicate AllOutside(c: seq<Item>, rs: seq<Region>) {
    forall k, i :: 0 <= k < |c| && 0 <= i < |rs| ==> Outside(c[k], rs[i])
  }

  ghost predicate InSome(x: Item, rs: seq<Region>) { exists i :: 0 <= i < |rs| && Inside(x, rs[i]) }

  ghost predicate EachInside(c: seq<Item>, rs: seq<Region>) {
    forall k :: 0 <= k < |c| ==> InSome(c[k], rs)
  }

  /** The body lies in regions in use; nothing else overlaps any region. */
  ghost predicate BodyPart(q: Queue, m: Map)
    requires Ordered(m)
  {
    && (q.body == [] ==> q.free == [] && q.hdrTarget == q.bodyOffset)
    && Packed(Regions(q), |q.file|)
    && AllOutside(m.c[..m.hdr + 1], Regions(q)) && AllOutside(m.c[m.xtra..], Regions(q))
    && EachInside(m.c[m.hdr + 1..m.xtra], InUse(q))
  }

  ghost predicate Inv(q: Queue, m: Map) {
    && Sane(q.lim) && Ordered(m) && Path(q.file, m.c) && m.c[0].off == 0
    && Markers(m) && Anchored(q, m) && HeaderPart(m, q.lim) && BodyPart(q, m)
  }

  /** The whole file reads from offset 0 to its END record. */
  lemma InvReads(q: Queue, m: Map)
    requires Inv(q, m)
    ensures Reads(q.file, m.c)
  {
    hide At, Padded;
    forall i | 0 <= i < |m.c| ensures m.c[i].rec.typ == END <==> i == |m.c| - 1 {
      assert Marked(m.c[i].rec.typ, i, m);
    }
  }

  // ----- Room for the commit pointer -----

  /** The bytes under a pointer written at c[i] belong to c[i] and the padding after it. */
  predicate Coverable(c: seq<Item>, i: nat, j: nat) {
    && i < j < |c|
    && (Size(c[i].rec) >= PTR_SIZE
        || (i + 1 < j && !Jumps(c[i].rec) && Size(c[i].rec) + Size(c[i + 1].rec) >= PTR_SIZE))
  }

  lemma CoverClear(f: seq<byte>, c: seq<Item>, i: nat, j: nat)
    requires Path(f, c) && Coverable(c, i, j)
    ensures Clear(c[..i], c[i].off, PTR_SIZE) && Clear(c[j..], c[i].off, PTR_SIZE)
    ensures c[i].off + PTR_SIZE <= |f|
  {
    hide At, Size, Jumps, Target, Readable;
    StoredFits(f, c, i);
    StoredFits(f, c, i + 1);
    forall k | 0 <= k < |c| && !(i <= k < j) ensures Apart(c[k], c[i].off, PTR_SIZE) {
      assert Apart(c[k], c[i].off, Size(c[i].rec)) by { StoredFits(f, c, k); }
      if Size(c[i].rec) < PTR_SIZE {
        assert Succ(c[i]) == c[i + 1].off;
        StoredFits(f, c, k);
        assert Apart(c[k], c[i + 1].off, Size(c[i + 1].rec)) || Apart(c[i + 1], c[k].off, Size(c[k].rec));
      }
    }
    forall k | 0 <= k < |c[j..]| ensures Apart(c[j..][k], c[i].off, PTR_SIZE) { assert c[j..][k] == c[j + k]; }
  }

  lemma CoverOutside(f: seq<byte>, c: seq<Item>, i: nat, j: nat, r: Region)
    requires Path(f, c) && Coverable(c, i, j) && Closed(r)
    requires Outside(c[i], r) && (i + 1 < j ==> Outside(c[i + 1], r))
    ensures Disjoint(c[i].off, PTR_SIZE, r.start, r.len)
  {
    hide At, Size, Jumps, Target, Readable;
    if Size(c[i].rec) < PTR_SIZE { assert Succ(c[i]) == c[i + 1].off; }
  }
}
