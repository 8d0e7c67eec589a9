/** Header edits as changes of the reader's path. */
module HeaderEdits {
  import opened Records
  import opened Chain
  import opened Headers
  import opened Rendering
  import opened Layout

  /** What the file says: envelope, header, body and extracted records, without pointers and
      padding; the position of the sender and the place where recipients are added. */
  datatype Message = Message(
    env: seq<Rec>, hdrs: seq<Rec>, body: seq<Rec>, ext: seq<Rec>,
    senderAt: nat, rcptAt: nat, rcptInEnv: bool)

  ghost function EnvOf(m: Map): seq<Rec> requires Ordered(m) { View(m.c[..m.mesg]) }

  ghost function HdrsOf(m: Map): seq<Rec> requires Ordered(m) { View(m.c[m.mesg + 1..m.hdr]) }

  ghost function BodyOf(m: Map): seq<Rec> requires Ordered(m) { View(m.c[m.hdr + 1..m.xtra]) }

  ghost function ExtOf(m: Map): seq<Rec> requires Ordered(m) { View(m.c[m.xtra + 1..|m.c| - 1]) }

  ghost function SenderAt(m: Map): nat requires Ordered(m) { |View(m.c[..m.from])| }

  ghost function RcptAt(m: Map): nat
    requires Ordered(m)
  {
    if m.rcpt < m.mesg then |View(m.c[..m.rcpt])| else |View(m.c[m.xtra + 1..m.rcpt])|
  }

  ghost function Abs(m: Map): Message
    requires Ordered(m)
  {
    Message(EnvOf(m), HdrsOf(m), BodyOf(m), ExtOf(m), SenderAt(m), RcptAt(m), m.rcpt < m.mesg)
  }

  ghost function Whole(g: Message, mesg: Rec, xtra: Rec, end: Rec): seq<Rec> {
    g.env + ([mesg] + (g.hdrs + (g.body + ([xtra] + (g.ext + [end])))))
  }

  lemma WholeTail(m: Map)
    requires Ordered(m) && Markers(m)
    ensures View(m.c[m.hdr + 1..]) == BodyOf(m) + ([m.c[m.xtra].rec] + (ExtOf(m) + [m.c[|m.c| - 1].rec]))
  {
    hide View;
    var c, n := m.c, |m.c|;
    assert Marked(c[m.xtra].rec.typ, m.xtra, m) && Marked(c[n - 1].rec.typ, n - 1, m);
    ViewCut(c, m.hdr + 1, m.xtra, n);
    ViewCut(c, m.xtra + 1, n - 1, n);
    ViewHidden([]);
    assert c[n..n] == [] && c[m.hdr + 1..] == c[m.hdr + 1..n];
    var nil: seq<Rec> := [];
    assert [c[n - 1].rec] + nil == [c[n - 1].rec];
  }

  lemma WholeSplit(m: Map)
    requires Ordered(m) && Markers(m) && m.c[m.hdr].rec.typ == PTR
    ensures View(m.c) == Whole(Abs(m), m.c[m.mesg].rec, m.c[m.xtra].rec, m.c[|m.c| - 1].rec)
  {
    hide View, BodyOf, ExtOf, SenderAt, RcptAt;
    var c, n := m.c, |m.c|;
    assert Marked(c[m.mesg].rec.typ, m.mesg, m);
    ViewCut(c, 0, m.mesg, n);
    ViewCut(c, m.mesg + 1, m.hdr, n);
    WholeTail(m);
    assert c[0..n] == c && c[..m.mesg] == c[0..m.mesg] && c[m.hdr + 1..] == c[m.hdr + 1..n];
    var nil: seq<Rec> := [];
    assert nil + View(c[m.hdr + 1..n]) == View(c[m.hdr + 1..n]);
  }

  /** A reader of the file gets the envelope, one MESG marker, the headers and body, one XTRA
      marker, the extracted records and one END marker, in that order. */
  lemma WholeView(q: Queue, m: Map)
    requires Inv(q, m)
    ensures var mesg, xtra, end := m.c[m.mesg].rec, m.c[m.xtra].rec, m.c[|m.c| - 1].rec;
            && View(m.c) == Whole(Abs(m), mesg, xtra, end)
            && mesg.typ == MESG && xtra.typ == XTRA && end.typ == END
    ensures forall r :: r in Abs(m).env || r in Abs(m).hdrs || r in Abs(m).body || r in Abs(m).ext ==>
              r.typ != MESG && r.typ != XTRA && r.typ != END
  {
    hide Padded, View, BodyPart, HeaderPart, Path, Whole;
    WholeSplit(m);
    var n := |m.c|;
    assert Marked(m.c[m.mesg].rec.typ, m.mesg, m) && Marked(m.c[m.xtra].rec.typ, m.xtra, m);
    assert Marked(m.c[n - 1].rec.typ, n - 1, m);
    assert m.c[..m.mesg] == m.c[0..m.mesg];
    NoMarkers(m, 0, m.mesg);
    NoMarkers(m, m.mesg + 1, m.hdr);
    NoMarkers(m, m.hdr + 1, m.xtra);
    NoMarkers(m, m.xtra + 1, n - 1);
  }

  lemma ViewCut(c: seq<Item>, a: nat, k: nat, b: nat)
    requires a <= k < b <= |c|
    ensures View(c[a..b]) == View(c[a..k]) + ((if Visible(c[k].rec) then [c[k].rec] else []) + View(c[k + 1..b]))
  {
    hide View, Visible;
    assert c[a..b] == c[a..k] + ([c[k]] + c[k + 1..b]);
    ViewConcat(c[a..k], [c[k]] + c[k + 1..b]);
    ViewConcat([c[k]], c[k + 1..b]);
    ViewOne(c[k]);
  }

  lemma {:induction false} ViewFrom(c: seq<Item>, r: Rec)
    requires r in View(c)
    ensures exists k :: 0 <= k < |c| && c[k].rec == r
  {
    var n := |c| - 1;
    if r in View(c[..n]) {
      ViewFrom(c[..n], r);
    } else {
      assert c[n].rec == r;
    }
  }

  lemma NoMarkers(m: Map, a: nat, b: nat)
    requires Ordered(m) && Markers(m) && a <= b <= |m.c| - 1
    requires !(a <= m.mesg < b) && !(a <= m.xtra < b)
    ensures forall r :: r in View(m.c[a..b]) ==> r.typ != MESG && r.typ != XTRA && r.typ != END
  {
    forall r | r in View(m.c[a..b]) ensures r.typ != MESG && r.typ != XTRA && r.typ != END {
      ViewFrom(m.c[a..b], r);
      var k :| 0 <= k < |m.c[a..b]| && m.c[a..b][k].rec == r;
      assert Marked(m.c[a + k].rec.typ, a + k, m);
    }
  }

  // ----- Editing between the start of content and the header append pointer -----

  /** The records c[i..j] of the header part become mid; x becomes the append pointer. */
  ghost function Edited(m: Map, i: nat, j: nat, mid: seq<Item>, x: Item): Map
    requires Ordered(m) && m.mesg < i <= j <= m.hdr
  {
    var d := |mid| - (j - i);
    Map(m.c[..i] + mid + m.c[j..m.hdr] + [x] + m.c[m.hdr + 1..],
        m.from, if m.rcpt < m.mesg then m.rcpt else m.rcpt + d, m.mesg, m.hdr + d, m.xtra + d)
  }

  ghost predicate EditOk(q: Queue, m: Map, file: seq<byte>, i: nat, j: nat, mid: seq<Item>, x: Item) {
    && Inv(q, m) && m.mesg < i <= j <= m.hdr
    && Path(file, Edited(m, i, j, mid, x).c) && |file| >= |q.file|
    && mid != [] && mid[0].off == m.c[i].off
    && (forall k :: 0 <= k < |mid| ==> HeaderRec(mid[k].rec, q.lim))
    && Slot(x.rec) && Padded(m.c[m.mesg + 1..i] + mid + m.c[j..m.hdr], false)
    && AllOutside(mid, Regions(q)) && AllOutside([x], Regions(q))
  }

  lemma EditedMarks(m: Map, i: nat, j: nat, mid: seq<Item>, x: Item)
    requires Ordered(m) && m.mesg < i <= j <= m.hdr
    ensures var m' := Edited(m, i, j, mid, x); var d := |mid| - (j - i);
            && |m'.c| == |m.c| + d
            && m'.from == m.from && m'.mesg == m.mesg && m'.hdr == m.hdr + d && m'.xtra == m.xtra + d
            && m'.rcpt == if m.rcpt < m.mesg then m.rcpt else m.rcpt + d
  {
  }

  lemma EditedAt(m: Map, i: nat, j: nat, mid: seq<Item>, x: Item, k: nat)
    requires Ordered(m) && m.mesg < i <= j <= m.hdr && k < |Edited(m, i, j, mid, x).c|
    ensures var d := |mid| - (j - i);
            Edited(m, i, j, mid, x).c[k]
            == if k < i then m.c[k] else if k < i + |mid| then mid[k - i]
               else if k - d == m.hdr then x else m.c[k - d]
  {
  }

  lemma EditedMarkers(q: Queue, m: Map, file: seq<byte>, i: nat, j: nat, mid: seq<Item>, x: Item)
    requires EditOk(q, m, file, i, j, mid, x)
    ensures Ordered(Edited(m, i, j, mid, x)) && Markers(Edited(m, i, j, mid, x))
  {
    hide Path, Padded, BodyPart, Anchored, Edited, Jumps, AllOutside, Size;
    var m', d := Edited(m, i, j, mid, x), |mid| - (j - i);
    EditedMarks(m, i, j, mid, x);
    forall k | 0 <= k < |m'.c| ensures Marked(m'.c[k].rec.typ, k, m') {
      EditedAt(m, i, j, mid, x, k);
      if k < i {
        assert Marked(m.c[k].rec.typ, k, m);
      } else if k < i + |mid| {
        assert HeaderRec(mid[k - i].rec, q.lim);
      } else {
        assert Marked(m.c[k - d].rec.typ, k - d, m);
      }
    }
  }

  lemma EditedAnchors(q: Queue, m: Map, file: seq<byte>, i: nat, j: nat, mid: seq<Item>, x: Item)
    requires EditOk(q, m, file, i, j, mid, x)
    ensures Ordered(Edited(m, i, j, mid, x))
    ensures Anchored(q.(file := file, hdrPt := x.off), Edited(m, i, j, mid, x))
    ensures Edited(m, i, j, mid, x).c[0] == m.c[0]
  {
    hide Path, Padded, BodyPart, Edited, Jumps, AllOutside, Size, Markers, HeaderPart, HeaderRec,
         ContentAnchored, RcptsAnchored, FromAnchored;
    EditedMarks(m, i, j, mid, x);
    EditedAt(m, i, j, mid, x, 0);
    EditedContent(q, m, file, i, j, mid, x);
    EditedRcpts(q, m, file, i, j, mid, x);
    EditedFrom(q, m, file, i, j, mid, x);
  }

  lemma EditedContent(q: Queue, m: Map, file: seq<byte>, i: nat, j: nat, mid: seq<Item>, x: Item)
    requires EditOk(q, m, file, i, j, mid, x) && Ordered(Edited(m, i, j, mid, x))
    ensures ContentAnchored(q.(file := file, hdrPt := x.off), Edited(m, i, j, mid, x))
  {
    hide Path, Padded, BodyPart, Edited, Jumps, AllOutside, Size, Markers, HeaderPart, HeaderRec, RcptsAnchored, FromAnchored;
    var m' := Edited(m, i, j, mid, x);
    EditedMarks(m, i, j, mid, x);
    EditedAt(m, i, j, mid, x, m.mesg + 1);
    EditedAt(m, i, j, mid, x, m'.hdr);
    EditedAt(m, i, j, mid, x, m'.hdr + 1);
    EditedAt(m, i, j, mid, x, m'.xtra);
  }

  lemma EditedRcpts(q: Queue, m: Map, file: seq<byte>, i: nat, j: nat, mid: seq<Item>, x: Item)
    requires EditOk(q, m, file, i, j, mid, x) && Ordered(Edited(m, i, j, mid, x))
    ensures RcptsAnchored(q.(file := file, hdrPt := x.off), Edited(m, i, j, mid, x))
  {
    hide Path, Padded, BodyPart, Edited, Jumps, AllOutside, Size, Markers, HeaderPart, HeaderRec, ContentAnchored, FromAnchored;
    var m' := Edited(m, i, j, mid, x);
    EditedMarks(m, i, j, mid, x);
    EditedAt(m, i, j, mid, x, m'.rcpt);
    EditedAt(m, i, j, mid, x, m'.rcpt + 1);
  }

  lemma EditedFrom(q: Queue, m: Map, file: seq<byte>, i: nat, j: nat, mid: seq<Item>, x: Item)
    requires EditOk(q, m, file, i, j, mid, x) && Ordered(Edited(m, i, j, mid, x))
    ensures FromAnchored(q.(file := file, hdrPt := x.off), Edited(m, i, j, mid, x))
  {
    hide Path, Padded, BodyPart, Edited, Jumps, AllOutside, Size, Markers, HeaderPart, HeaderRec, ContentAnchored, RcptsAnchored;
    EditedMarks(m, i, j, mid, x);
    EditedAt(m, i, j, mid, x, m.from);
    EditedAt(m, i, j, mid, x, m.from + 1);
    EditedAt(m, i, j, mid, x, SenderEnd(m));
  }

  lemma EditedParts(m: Map, i: nat, j: nat, mid: seq<Item>, x: Item)
    requires Ordered(m) && m.mesg < i <= j <= m.hdr
    ensures var m' := Edited(m, i, j, mid, x); var d := |mid| - (j - i);
            && |m'.c| == |m.c| + d
            && m'.c[..m.mesg] == m.c[..m.mesg]
            && m'.c[m.mesg + 1..m.hdr + d] == m.c[m.mesg + 1..i] + mid + m.c[j..m.hdr]
            && m'.c[m.hdr + d + 1..] == m.c[m.hdr + 1..]
  {
    var p := m.c[..i] + mid + m.c[j..m.hdr] + [x];
    var m', d := Edited(m, i, j, mid, x), |mid| - (j - i);
    assert m'.c == p + m.c[m.hdr + 1..] && |p| == m.hdr + d + 1;
    assert m'.c[m.mesg + 1..m.hdr + d] == p[m.mesg + 1..m.hdr + d];
  }

  lemma EditedHeaders(q: Queue, m: Map, file: seq<byte>, i: nat, j: nat, mid: seq<Item>, x: Item)
    requires EditOk(q, m, file, i, j, mid, x)
    ensures Ordered(Edited(m, i, j, mid, x)) && HeaderPart(Edited(m, i, j, mid, x), q.lim)
  {
    hide Path, Padded, BodyPart, Edited, Jumps, AllOutside, Size, Markers, Anchored, HeaderRec;
    var m', d := Edited(m, i, j, mid, x), |mid| - (j - i);
    EditedMarks(m, i, j, mid, x);
    EditedParts(m, i, j, mid, x);
    forall k | m'.mesg < k < m'.hdr ensures HeaderRec(m'.c[k].rec, q.lim) {
      EditedAt(m, i, j, mid, x, k);
      if k < i {
        assert HeaderRec(m.c[k].rec, q.lim);
      } else if k < i + |mid| {
        assert HeaderRec(mid[k - i].rec, q.lim);
      } else {
        assert HeaderRec(m.c[k - d].rec, q.lim);
      }
    }
  }

  lemma EditedBody(q: Queue, m: Map, file: seq<byte>, i: nat, j: nat, mid: seq<Item>, x: Item)
    requires EditOk(q, m, file, i, j, mid, x)
    ensures Ordered(Edited(m, i, j, mid, x)) && BodyPart(q.(file := file, hdrPt := x.off), Edited(m, i, j, mid, x))
  {
    hide Path, Padded, Edited, Jumps, Size, Markers, Anchored, HeaderRec, Closed, Outside, Inside, Disjoint;
    var m', d := Edited(m, i, j, mid, x), |mid| - (j - i);
    EditedMarks(m, i, j, mid, x);
    var q' := q.(file := file, hdrPt := x.off);
    var rs := Regions(q);
    assert Regions(q') == rs && InUse(q') == InUse(q);
    EditedHigh(m, i, j, mid, x, m.hdr + 1, m.xtra);
    EditedHigh(m, i, j, mid, x, m.xtra, |m.c|);
    assert m.c[m.xtra..] == m.c[m.xtra..|m.c|] && m'.c[m'.xtra..] == m'.c[m'.xtra..|m'.c|];
    var a, a' := m.c[..m.hdr + 1], m'.c[..m'.hdr + 1];
    forall k, n | 0 <= k < |a'| && 0 <= n < |rs| ensures Outside(a'[k], rs[n]) {
      EditedAt(m, i, j, mid, x, k);
      if k < i {
        assert a'[k] == a[k];
      } else if k < i + |mid| {
        assert a'[k] == mid[k - i];
      } else if k - d == m.hdr {
        assert a'[k] == [x][0];
      } else {
        assert a'[k] == a[k - d];
      }
    }
  }

  lemma EditedLow(m: Map, i: nat, j: nat, mid: seq<Item>, x: Item, b: nat)
    requires Ordered(m) && m.mesg < i <= j <= m.hdr && b <= m.mesg
    ensures |Edited(m, i, j, mid, x).c| >= b && Edited(m, i, j, mid, x).c[..b] == m.c[..b]
  {
    EditedParts(m, i, j, mid, x);
    hide Edited;
    assert m.c[..m.mesg][..b] == m.c[..b];
    var c' := Edited(m, i, j, mid, x).c;
    assert c'[..m.mesg][..b] == c'[..b];
  }

  lemma EditedHigh(m: Map, i: nat, j: nat, mid: seq<Item>, x: Item, a: nat, b: nat)
    requires Ordered(m) && m.mesg < i <= j <= m.hdr && m.hdr < a <= b <= |m.c|
    ensures var d := |mid| - (j - i); var c' := Edited(m, i, j, mid, x).c;
            0 <= a + d && b + d <= |c'| && c'[a + d..b + d] == m.c[a..b]
  {
    EditedParts(m, i, j, mid, x);
    hide Edited;
    var c', d, h := Edited(m, i, j, mid, x).c, |mid| - (j - i), m.hdr + 1;
    assert c'[h + d..][a - h..b - h] == c'[a + d..b + d];
    assert m.c[h..][a - h..b - h] == m.c[a..b];
  }

  lemma EditedHdrs(m: Map, i: nat, j: nat, mid: seq<Item>, x: Item)
    requires Ordered(m) && m.mesg < i <= j <= m.hdr
    ensures var d := |mid| - (j - i); var c' := Edited(m, i, j, mid, x).c;
            && 0 <= m.mesg + 1 <= m.hdr + d <= |c'|
            && View(c'[m.mesg + 1..m.hdr + d]) == View(m.c[m.mesg + 1..i]) + View(mid) + View(m.c[j..m.hdr])
  {
    EditedParts(m, i, j, mid, x);
    hide View, Edited;
    ViewConcat(m.c[m.mesg + 1..i] + mid, m.c[j..m.hdr]);
    ViewConcat(m.c[m.mesg + 1..i], mid);
  }

  lemma EditedSame(m: Map, i: nat, j: nat, mid: seq<Item>, x: Item)
    requires Ordered(m) && m.mesg < i <= j <= m.hdr && Ordered(Edited(m, i, j, mid, x))
    ensures var m' := Edited(m, i, j, mid, x);
            EnvOf(m') == EnvOf(m) && SenderAt(m') == SenderAt(m) && BodyOf(m') == BodyOf(m) && ExtOf(m') == ExtOf(m)
  {
    hide View, Edited;
    EditedMarks(m, i, j, mid, x);
    EditedLow(m, i, j, mid, x, m.mesg);
    EditedLow(m, i, j, mid, x, m.from);
    EditedHigh(m, i, j, mid, x, m.hdr + 1, m.xtra);
    EditedHigh(m, i, j, mid, x, m.xtra + 1, |m.c| - 1);
  }

  lemma EditedRcptAt(m: Map, i: nat, j: nat, mid: seq<Item>, x: Item)
    requires Ordered(m) && m.mesg < i <= j <= m.hdr && Ordered(Edited(m, i, j, mid, x))
    ensures var m' := Edited(m, i, j, mid, x);
            RcptAt(m') == RcptAt(m) && (m'.rcpt < m'.mesg <==> m.rcpt < m.mesg)
  {
    hide View, Edited;
    EditedMarks(m, i, j, mid, x);
    if m.rcpt < m.mesg {
      EditedLow(m, i, j, mid, x, m.rcpt);
    } else {
      EditedHigh(m, i, j, mid, x, m.xtra + 1, m.rcpt);
    }
  }

  lemma EditedView(m: Map, i: nat, j: nat, mid: seq<Item>, x: Item)
    requires Ordered(m) && m.mesg < i <= j <= m.hdr && Ordered(Edited(m, i, j, mid, x))
    ensures Abs(Edited(m, i, j, mid, x))
         == Abs(m).(hdrs := View(m.c[m.mesg + 1..i]) + View(mid) + View(m.c[j..m.hdr]))
  {
    hide View, Edited, EnvOf, BodyOf, ExtOf, SenderAt, RcptAt;
    EditedMarks(m, i, j, mid, x);
    EditedHdrs(m, i, j, mid, x);
    EditedSame(m, i, j, mid, x);
    EditedRcptAt(m, i, j, mid, x);
  }

  /** A header edit keeps the invariant and changes nothing but the header part. */
  lemma EditedInv(q: Queue, m: Map, file: seq<byte>, i: nat, j: nat, mid: seq<Item>, x: Item)
    requires EditOk(q, m, file, i, j, mid, x)
    ensures Inv(q.(file := file, hdrPt := x.off), Edited(m, i, j, mid, x))
    ensures Abs(Edited(m, i, j, mid, x))
         == Abs(m).(hdrs := View(m.c[m.mesg + 1..i]) + View(mid) + View(m.c[j..m.hdr]))
  {
    EditedMarkers(q, m, file, i, j, mid, x);
    EditedAnchors(q, m, file, i, j, mid, x);
    EditedHeaders(q, m, file, i, j, mid, x);
    EditedBody(q, m, file, i, j, mid, x);
    EditedView(m, i, j, mid, x);
    hide Path, Edited, Markers, Anchored, HeaderPart, BodyPart, Ordered, Abs;
  }
}
