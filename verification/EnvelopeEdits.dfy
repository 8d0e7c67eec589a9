/** Edits of the envelope part and of the extracted part, as changes of the reader's path. */
module EnvelopeEdits {
  import opened Records
  import opened Chain
  import opened Headers
  import opened Rendering
  import opened Layout
  import opened HeaderEdits
  import opened Following
  import opened JumpLoad
  import opened HeaderOps

  /** The records c[i..j] outside the message content become mid. */
  ghost function Moved(m: Map, i: nat, j: nat, mid: seq<Item>, from: nat, rcpt: nat): Map
    requires Ordered(m) && i < j < |m.c| && (j <= m.mesg || m.xtra < i) && mid != []
  {
    var d := if j <= m.mesg then |mid| - (j - i) else 0;
    Map(m.c[..i] + mid + m.c[j..], from, rcpt, m.mesg + d, m.hdr + d, m.xtra + d)
  }

  /** Where the sender and the append pointer may be after the edit. */
  ghost predicate PlacesOk(m: Map, i: nat, j: nat, mid: seq<Item>, from: nat, rcpt: nat) {
    && Ordered(m) && i < j < |m.c| && mid != []
    && (j <= m.mesg || m.xtra < i)
    && (j <= m.mesg ==> m.rcpt < m.mesg || m.xtra < m.rcpt)
    && var d := |mid| - (j - i);
       && (if i <= m.from < j then i <= from < i + |mid|
           else from == if m.from < i then m.from else m.from + d)
       && (if i <= m.rcpt < j then i <= rcpt < i + |mid|
           else rcpt == if m.rcpt < i then m.rcpt else m.rcpt + d)
       && (i <= m.from < j ==> !(i <= m.rcpt < j))
  }

  lemma MovedShape(m: Map, i: nat, j: nat, mid: seq<Item>, from: nat, rcpt: nat)
    requires PlacesOk(m, i, j, mid, from, rcpt)
    ensures var m' := Moved(m, i, j, mid, from, rcpt); var d := |mid| - (j - i);
            && Ordered(m) && i < j < |m.c| && mid != [] && (j <= m.mesg || m.xtra < i)
            && |m'.c| == |m.c| + d && Ordered(m') && m'.from == from && m'.rcpt == rcpt
            && (j <= m.mesg ==> m'.mesg == m.mesg + d && m'.hdr == m.hdr + d && m'.xtra == m.xtra + d)
            && (m.xtra < i ==> m'.mesg == m.mesg && m'.hdr == m.hdr && m'.xtra == m.xtra)
  {
  }

  lemma MovedAt(m: Map, i: nat, j: nat, mid: seq<Item>, from: nat, rcpt: nat, k: nat)
    requires PlacesOk(m, i, j, mid, from, rcpt) && k < |Moved(m, i, j, mid, from, rcpt).c|
    ensures Moved(m, i, j, mid, from, rcpt).c[k]
         == if k < i then m.c[k] else if k < i + |mid| then mid[k - i] else m.c[k - (|mid| - (j - i))]
  {
  }

  lemma MovedLow(m: Map, i: nat, j: nat, mid: seq<Item>, from: nat, rcpt: nat, a: nat, b: nat)
    requires PlacesOk(m, i, j, mid, from, rcpt) && a <= b <= i
    ensures |Moved(m, i, j, mid, from, rcpt).c| >= b && Moved(m, i, j, mid, from, rcpt).c[a..b] == m.c[a..b]
  {
  }

  lemma MovedHigh(m: Map, i: nat, j: nat, mid: seq<Item>, from: nat, rcpt: nat, a: nat, b: nat)
    requires PlacesOk(m, i, j, mid, from, rcpt) && j <= a <= b <= |m.c|
    ensures var d := |mid| - (j - i); var c' := Moved(m, i, j, mid, from, rcpt).c;
            0 <= a + d && b + d <= |c'| && c'[a + d..b + d] == m.c[a..b]
  {
    var d, c', p := |mid| - (j - i), Moved(m, i, j, mid, from, rcpt).c, m.c[..i] + mid;
    assert c' == p + m.c[j..] && |p| == j + d;
    assert c'[j + d..] == m.c[j..];
    assert c'[j + d..][a - j..b - j] == c'[a + d..b + d];
    assert m.c[j..][a - j..b - j] == m.c[a..b];
  }

  lemma MovedMid(m: Map, i: nat, j: nat, mid: seq<Item>, from: nat, rcpt: nat, a: nat, b: nat)
    requires PlacesOk(m, i, j, mid, from, rcpt) && a <= i && j <= b <= |m.c|
    ensures var d := |mid| - (j - i); var c' := Moved(m, i, j, mid, from, rcpt).c;
            a <= b + d <= |c'| && c'[a..b + d] == m.c[a..i] + mid + m.c[j..b]
  {
    var d, c' := |mid| - (j - i), Moved(m, i, j, mid, from, rcpt).c;
    MovedLow(m, i, j, mid, from, rcpt, a, i);
    MovedHigh(m, i, j, mid, from, rcpt, j, b);
    assert c'[i..i + |mid|] == mid;
    hide Moved;
    SliceCut(c', a, i, b + d);
    SliceCut(c', i, i + |mid|, b + d);
    var x, y := m.c[a..i], m.c[j..b];
    assert x + (mid + y) == x + mid + y;
  }

  /** Not one of the markers between the parts of the file. */
  predicate Unmarked(t: byte) { t != MESG && t != XTRA && t != END }

  ghost predicate MoveOk(q: Queue, m: Map, q': Queue, i: nat, j: nat, mid: seq<Item>, from: nat, rcpt: nat) {
    && Inv(q, m) && PlacesOk(m, i, j, mid, from, rcpt)
    && Path(q'.file, m.c[..i] + mid + m.c[j..]) && |q'.file| >= |q.file|
    && q' == q.(file := q'.file, rcptPt := q'.rcptPt, senderPt := q'.senderPt, senderTarget := q'.senderTarget)
    && mid[0].off == m.c[i].off
    && (forall k :: 0 <= k < |mid| ==>
          && (mid[k].rec.typ == FROM <==> i + k == from)
          && Unmarked(mid[k].rec.typ))
    && AllOutside(mid, Regions(q))
  }

  lemma MovedMarkers(q: Queue, m: Map, q': Queue, i: nat, j: nat, mid: seq<Item>, from: nat, rcpt: nat)
    requires MoveOk(q, m, q', i, j, mid, from, rcpt)
    ensures Ordered(Moved(m, i, j, mid, from, rcpt)) && Markers(Moved(m, i, j, mid, from, rcpt))
  {
    hide Path, HeaderPart, BodyPart, Anchored, Moved, AllOutside;
    MovedShape(m, i, j, mid, from, rcpt);
    var m', d := Moved(m, i, j, mid, from, rcpt), |mid| - (j - i);
    forall k | 0 <= k < |m'.c| ensures Marked(m'.c[k].rec.typ, k, m') {
      MovedAt(m, i, j, mid, from, rcpt, k);
      if k < i {
        assert Marked(m.c[k].rec.typ, k, m);
      } else if k < i + |mid| {
        assert m'.c[k] == mid[k - i];
      } else {
        assert Marked(m.c[k - d].rec.typ, k - d, m);
      }
    }
  }

  lemma MovedHeaders(q: Queue, m: Map, q': Queue, i: nat, j: nat, mid: seq<Item>, from: nat, rcpt: nat)
    requires MoveOk(q, m, q', i, j, mid, from, rcpt)
    ensures Ordered(Moved(m, i, j, mid, from, rcpt)) && HeaderPart(Moved(m, i, j, mid, from, rcpt), q.lim)
  {
    hide Path, Markers, BodyPart, Anchored, Moved, AllOutside, Padded, HeaderRec;
    MovedShape(m, i, j, mid, from, rcpt);
    var m', d := Moved(m, i, j, mid, from, rcpt), |mid| - (j - i);
    if j <= m.mesg {
      MovedHigh(m, i, j, mid, from, rcpt, m.mesg + 1, m.hdr);
    } else {
      MovedLow(m, i, j, mid, from, rcpt, m.mesg + 1, m.hdr);
    }
    forall k | m'.mesg < k < m'.hdr ensures HeaderRec(m'.c[k].rec, q.lim) {
      MovedAt(m, i, j, mid, from, rcpt, k);
      if j <= m.mesg { assert HeaderRec(m.c[k - d].rec, q.lim); } else { assert HeaderRec(m.c[k].rec, q.lim); }
    }
  }

  lemma MovedBody(q: Queue, m: Map, q': Queue, i: nat, j: nat, mid: seq<Item>, from: nat, rcpt: nat)
    requires MoveOk(q, m, q', i, j, mid, from, rcpt)
    ensures Ordered(Moved(m, i, j, mid, from, rcpt)) && BodyPart(q', Moved(m, i, j, mid, from, rcpt))
  {
    hide Path, Markers, HeaderPart, Anchored, Moved, AllOutside, EachInside, Disjoint, Closed, Regions, InUse;
    MovedShape(m, i, j, mid, from, rcpt);
    SameRegions(q, q');
    MovedSlices(q, m, q', i, j, mid, from, rcpt);
    MovedOutside(q, m, q', i, j, mid, from, rcpt);
  }

  lemma SameRegions(q: Queue, q': Queue)
    requires q'.free == q.free && q'.body == q.body && q'.bodyOffset == q.bodyOffset && q'.xtraOffset == q.xtraOffset
    ensures Regions(q') == Regions(q) && InUse(q') == InUse(q)
  {
  }

  lemma FromOn(c: seq<Item>, a: nat)
    requires a <= |c|
    ensures c[a..] == c[a..|c|]
  {
  }

  lemma UpTo(c: seq<Item>, b: nat)
    requires b <= |c|
    ensures c[..b] == c[0..b]
  {
  }

  lemma MovedSlices(q: Queue, m: Map, q': Queue, i: nat, j: nat, mid: seq<Item>, from: nat, rcpt: nat)
    requires MoveOk(q, m, q', i, j, mid, from, rcpt)
    ensures var m' := Moved(m, i, j, mid, from, rcpt);
            && Ordered(m') && m'.c[m'.hdr + 1..m'.xtra] == m.c[m.hdr + 1..m.xtra]
            && (j <= m.mesg ==> m'.c[m'.xtra..] == m.c[m.xtra..])
            && (m.xtra < i ==> m'.c[..m'.hdr + 1] == m.c[..m.hdr + 1])
  {
    hide Inv, Moved, AllOutside, PlacesOk, Path;
    MovedShape(m, i, j, mid, from, rcpt);
    var m' := Moved(m, i, j, mid, from, rcpt);
    if j <= m.mesg {
      MovedHigh(m, i, j, mid, from, rcpt, m.hdr + 1, m.xtra);
      MovedHigh(m, i, j, mid, from, rcpt, m.xtra, |m.c|);
      FromOn(m.c, m.xtra);
      FromOn(m'.c, m'.xtra);
    } else {
      MovedLow(m, i, j, mid, from, rcpt, m.hdr + 1, m.xtra);
      MovedLow(m, i, j, mid, from, rcpt, 0, m.hdr + 1);
      UpTo(m.c, m.hdr + 1);
      UpTo(m'.c, m.hdr + 1);
    }
  }

  lemma MovedOutside(q: Queue, m: Map, q': Queue, i: nat, j: nat, mid: seq<Item>, from: nat, rcpt: nat)
    requires MoveOk(q, m, q', i, j, mid, from, rcpt)
    ensures var m' := Moved(m, i, j, mid, from, rcpt);
            && Ordered(m')
            && (j <= m.mesg ==> AllOutside(m'.c[..m'.hdr + 1], Regions(q)))
            && (m.xtra < i ==> AllOutside(m'.c[m'.xtra..], Regions(q)))
  {
    hide Path, Markers, HeaderPart, Anchored, Moved, Outside, EachInside, Packed, InUse;
    MovedShape(m, i, j, mid, from, rcpt);
    var m', d := Moved(m, i, j, mid, from, rcpt), |mid| - (j - i);
    var rs := Regions(q);
    if j <= m.mesg {
      var a, a' := m.c[..m.hdr + 1], m'.c[..m'.hdr + 1];
      forall k, n | 0 <= k < |a'| && 0 <= n < |rs| ensures Outside(a'[k], rs[n]) {
        MovedAt(m, i, j, mid, from, rcpt, k);
        if k < i {
          assert a'[k] == a[k];
        } else if k < i + |mid| {
          assert a'[k] == mid[k - i];
        } else {
          assert a'[k] == a[k - d];
        }
      }
    } else {
      var a, a' := m.c[m.xtra..], m'.c[m'.xtra..];
      forall k, n | 0 <= k < |a'| && 0 <= n < |rs| ensures Outside(a'[k], rs[n]) {
        var t := k + m.xtra;
        MovedAt(m, i, j, mid, from, rcpt, t);
        if t < i {
          assert a'[k] == a[k];
        } else if t < i + |mid| {
          assert a'[k] == mid[t - i];
        } else {
          assert a'[k] == a[k - d];
        }
      }
    }
  }

  /** Everything that does not depend on where the sender and the append pointer went. */
  lemma MovedInv(q: Queue, m: Map, q': Queue, i: nat, j: nat, mid: seq<Item>, from: nat, rcpt: nat)
    requires MoveOk(q, m, q', i, j, mid, from, rcpt)
    requires Ordered(Moved(m, i, j, mid, from, rcpt)) ==> Anchored(q', Moved(m, i, j, mid, from, rcpt))
    ensures Inv(q', Moved(m, i, j, mid, from, rcpt))
  {
    MovedMarkers(q, m, q', i, j, mid, from, rcpt);
    MovedHeaders(q, m, q', i, j, mid, from, rcpt);
    MovedBody(q, m, q', i, j, mid, from, rcpt);
    MovedAt(m, i, j, mid, from, rcpt, 0);
    var m' := Moved(m, i, j, mid, from, rcpt);
    assert m'.c == m.c[..i] + mid + m.c[j..];
    hide Path, Moved, Markers, Anchored, HeaderPart, BodyPart, Ordered;
  }

  /** An edit of the envelope leaves content and extracted records alone. */
  lemma MovedEnv(m: Map, i: nat, j: nat, mid: seq<Item>, from: nat, rcpt: nat)
    requires PlacesOk(m, i, j, mid, from, rcpt) && Ordered(Moved(m, i, j, mid, from, rcpt)) && j <= m.mesg
    ensures var m' := Moved(m, i, j, mid, from, rcpt);
            && HdrsOf(m') == HdrsOf(m) && BodyOf(m') == BodyOf(m) && ExtOf(m') == ExtOf(m)
            && EnvOf(m') == View(m.c[..i]) + View(mid) + View(m.c[j..m.mesg])
  {
    hide View, Moved, PlacesOk;
    MovedShape(m, i, j, mid, from, rcpt);
    var m' := Moved(m, i, j, mid, from, rcpt);
    MovedHigh(m, i, j, mid, from, rcpt, m.mesg + 1, m.hdr);
    MovedHigh(m, i, j, mid, from, rcpt, m.hdr + 1, m.xtra);
    MovedHigh(m, i, j, mid, from, rcpt, m.xtra + 1, |m.c| - 1);
    MovedPart(m, i, j, mid, from, rcpt, 0, m.mesg);
    assert m.c[..i] == m.c[0..i] && m'.c[..m'.mesg] == m'.c[0..m'.mesg];
  }

  /** An edit of the extracted part leaves envelope and content alone. */
  lemma MovedExt(m: Map, i: nat, j: nat, mid: seq<Item>, from: nat, rcpt: nat)
    requires PlacesOk(m, i, j, mid, from, rcpt) && Ordered(Moved(m, i, j, mid, from, rcpt)) && m.xtra < i
    ensures var m' := Moved(m, i, j, mid, from, rcpt);
            && HdrsOf(m') == HdrsOf(m) && BodyOf(m') == BodyOf(m) && EnvOf(m') == EnvOf(m)
            && ExtOf(m') == View(m.c[m.xtra + 1..i]) + View(mid) + View(m.c[j..|m.c| - 1])
  {
    hide View, Moved, PlacesOk;
    MovedShape(m, i, j, mid, from, rcpt);
    var m' := Moved(m, i, j, mid, from, rcpt);
    MovedLow(m, i, j, mid, from, rcpt, m.mesg + 1, m.hdr);
    MovedLow(m, i, j, mid, from, rcpt, m.hdr + 1, m.xtra);
    MovedLow(m, i, j, mid, from, rcpt, 0, m.mesg);
    assert m.c[..m.mesg] == m.c[0..m.mesg] && m'.c[..m.mesg] == m'.c[0..m.mesg];
    MovedPart(m, i, j, mid, from, rcpt, m.xtra + 1, |m.c| - 1);
  }

  lemma MovedPart(m: Map, i: nat, j: nat, mid: seq<Item>, from: nat, rcpt: nat, a: nat, b: nat)
    requires PlacesOk(m, i, j, mid, from, rcpt) && a <= i && j <= b <= |m.c|
    ensures var d := |mid| - (j - i); var c' := Moved(m, i, j, mid, from, rcpt).c;
            a <= b + d <= |c'| && View(c'[a..b + d]) == View(m.c[a..i]) + View(mid) + View(m.c[j..b])
  {
    hide View, Moved;
    MovedMid(m, i, j, mid, from, rcpt, a, b);
    ViewConcat(m.c[a..i] + mid, m.c[j..b]);
    ViewConcat(m.c[a..i], mid);
  }

  /** New records of the envelope add at most one jump back. */
  lemma MovedLoad(q: Queue, m: Map, q': Queue, i: nat, j: nat, mid: seq<Item>, from: nat, rcpt: nat)
    requires MoveOk(q, m, q', i, j, mid, from, rcpt) && Backs(mid) <= 1
    ensures Ordered(Moved(m, i, j, mid, from, rcpt)) && Load(q', Moved(m, i, j, mid, from, rcpt)) <= Load(q, m) + 1
  {
    hide Inv, Backs, Moved, PlacesOk, Path, InUse;
    MovedShape(m, i, j, mid, from, rcpt);
    SameRegions(q, q');
    MovedPaths(m, i, j, mid, from, rcpt);
    MovedBacks(m, i, j, mid, from, rcpt);
    hide EnvelopePath;
  }

  lemma MovedPaths(m: Map, i: nat, j: nat, mid: seq<Item>, from: nat, rcpt: nat)
    requires PlacesOk(m, i, j, mid, from, rcpt) && Ordered(Moved(m, i, j, mid, from, rcpt))
    ensures var m' := Moved(m, i, j, mid, from, rcpt);
            HeaderPath(m') == HeaderPath(m) && BodyPath(m') == BodyPath(m)
  {
    hide Moved, PlacesOk;
    MovedShape(m, i, j, mid, from, rcpt);
    if j <= m.mesg {
      MovedHigh(m, i, j, mid, from, rcpt, m.mesg + 1, m.hdr);
      MovedHigh(m, i, j, mid, from, rcpt, m.hdr + 1, m.xtra);
    } else {
      MovedLow(m, i, j, mid, from, rcpt, m.mesg + 1, m.hdr);
      MovedLow(m, i, j, mid, from, rcpt, m.hdr + 1, m.xtra);
    }
  }

  lemma MovedBacks(m: Map, i: nat, j: nat, mid: seq<Item>, from: nat, rcpt: nat)
    requires PlacesOk(m, i, j, mid, from, rcpt) && Ordered(Moved(m, i, j, mid, from, rcpt)) && Backs(mid) <= 1
    ensures Backs(EnvelopePath(Moved(m, i, j, mid, from, rcpt))) <= Backs(EnvelopePath(m)) + 1
  {
    hide Moved, PlacesOk, Backs;
    MovedShape(m, i, j, mid, from, rcpt);
    var m' := Moved(m, i, j, mid, from, rcpt);
    var a, b := m.c[0..m.mesg], m.c[m.xtra + 1..|m.c| - 1];
    var a', b' := m'.c[0..m'.mesg], m'.c[m'.xtra + 1..|m'.c| - 1];
    assert m.c[..m.mesg] == a && m'.c[..m'.mesg] == a';
    BacksConcat(a, b);
    BacksConcat(a', b');
    if j <= m.mesg {
      MovedHigh(m, i, j, mid, from, rcpt, m.xtra + 1, |m.c| - 1);
      MovedMid(m, i, j, mid, from, rcpt, 0, m.mesg);
      BacksWithin(m.c, 0, i, j, m.mesg, mid);
    } else {
      MovedLow(m, i, j, mid, from, rcpt, 0, m.mesg);
      MovedMid(m, i, j, mid, from, rcpt, m.xtra + 1, |m.c| - 1);
      BacksWithin(m.c, m.xtra + 1, i, j, |m.c| - 1, mid);
    }
  }

  lemma BacksWithin(c: seq<Item>, a: nat, i: nat, j: nat, b: nat, mid: seq<Item>)
    requires a <= i <= j <= b <= |c| && Backs(mid) <= 1
    ensures Backs(c[a..i] + mid + c[j..b]) <= Backs(c[a..b]) + 1
  {
    hide Backs;
    var s := c[a..b];
    assert s[..i - a] == c[a..i] && s[j - a..] == c[j..b];
    BacksReplace(s, c[a..i] + mid + c[j..b], i - a, j - a, mid);
  }

  // ----- Adding recipients -----

  /** Records that an envelope edit may add. */
  predicate EnvRec(r: Rec) {
    && |r.data| < MAX_PAYLOAD && r.typ != FROM && r.typ != MESG && r.typ != XTRA && r.typ != END
    && r.typ != PTR && r.typ != DTXT
  }

  ghost predicate AllEnv(rs: seq<Rec>) { forall k :: 0 <= k < |rs| ==> EnvRec(rs[k]) }

  /** cleanup_add_rcpt_par on the plain message. */
  function AddRcpt(g: Message, recs: seq<Rec>): Message {
    if g.rcptInEnv then
      g.(env := InsertAt(g.env, g.rcptAt, recs), rcptAt := g.rcptAt + |recs|)
    else
      g.(ext := InsertAt(g.ext, g.rcptAt, recs), rcptAt := g.rcptAt + |recs|)
  }

  function InsertAt(s: seq<Rec>, at: nat, recs: seq<Rec>): seq<Rec> {
    if at <= |s| then s[..at] + recs + s[at..] else s + recs
  }

  lemma AllEnvShown(recs: seq<Rec>, next: nat)
    requires AllEnv(recs)
    ensures Shown(recs + [PtrRec(next)]) == recs
  {
    hide RightAlign;
    assert forall k :: 0 <= k < |recs| ==> EnvRec(recs[k]);
    ShownAll(recs);
    ShownConcat(recs, [PtrRec(next)]);
    assert [PtrRec(next)][1..] == [];
    assert Shown([PtrRec(next)]) == [];
  }

  /** Envelope records followed by a pointer to c[j] can be spliced in before c[j]. */
  lemma EnvLeadsTo(q: Queue, m: Map, recs: seq<Rec>, j: nat)
    requires j < |m.c| && 0 < m.c[j].off < PTR_LIMIT
    requires Flows(recs) && forall k :: 0 <= k < |recs| ==> !Jumps(recs[k])
    ensures LeadsTo(q, m, recs + [PtrRec(m.c[j].off)], j)
  {
    hide Target, PtrRec, SizeAll, Readable;
    var rs := recs + [PtrRec(m.c[j].off)];
    PtrSucc(|q.file| + SizeAll(rs[..|rs| - 1]), m.c[j].off);
    forall k | 0 <= k < |rs| ensures Readable(rs[k]) && (k < |rs| - 1 ==> !Jumps(rs[k])) {
      if k < |recs| { assert rs[k] == recs[k]; }
    }
  }

  lemma EnvFlows(recs: seq<Rec>)
    requires AllEnv(recs)
    ensures Flows(recs) && forall k :: 0 <= k < |recs| ==> !Jumps(recs[k])
  {
    hide Target;
    assert forall k :: 0 <= k < |recs| ==> EnvRec(recs[k]);
  }

  ghost function RcptItems(q: Queue, m: Map, recs: seq<Rec>): seq<Item>
    requires Ordered(m)
  {
    NewItems(q, m, m.rcpt, recs + [PtrRec(q.rcptTarget)])
  }

  ghost function RcptMap(q: Queue, m: Map, recs: seq<Rec>): Map
    requires Ordered(m)
  {
    Moved(m, m.rcpt, m.rcpt + 1, RcptItems(q, m, recs), m.from, m.rcpt + |recs| + 1)
  }

  ghost function RcptQueue(q: Queue, recs: seq<Rec>): Queue
    requires q.rcptPt <= |q.file|
  {
    q.(file := Committed(q.file, q.rcptPt, recs + [PtrRec(q.rcptTarget)]), rcptPt := |q.file| + SizeAll(recs))
  }

  /** What the items of the edit look like: the pointer over the old append pointer, the
      recipient records, and the new append pointer. */
  lemma RcptItemsShape(q: Queue, m: Map, recs: seq<Rec>)
    requires Ordered(m) && AllEnv(recs)
    ensures var mid := RcptItems(q, m, recs);
            && |mid| == |recs| + 2 && mid[0].off == m.c[m.rcpt].off
            && mid[|recs| + 1] == Item(|q.file| + SizeAll(recs), PtrRec(q.rcptTarget))
            && (forall k :: 0 <= k < |mid| ==> mid[k].rec.typ != FROM && Unmarked(mid[k].rec.typ))
  {
    hide Row, RightAlign;
    var rs := recs + [PtrRec(q.rcptTarget)];
    RowShape(|q.file|, rs);
    RowLast(|q.file|, rs);
    assert rs[..|rs| - 1] == recs;
    var mid := RcptItems(q, m, recs);
    forall k | 0 <= k < |mid| ensures mid[k].rec.typ != FROM && Unmarked(mid[k].rec.typ) {
      if 0 < k <= |recs| { assert mid[k].rec == recs[k - 1] && EnvRec(recs[k - 1]); }
    }
  }

  lemma RcptPlaces(q: Queue, m: Map, recs: seq<Rec>)
    requires Ordered(m) && AllEnv(recs)
    ensures PlacesOk(m, m.rcpt, m.rcpt + 1, RcptItems(q, m, recs), m.from, m.rcpt + |recs| + 1)
    ensures Ordered(RcptMap(q, m, recs))
  {
    hide RcptItems, EnvRec;
    RcptItemsShape(q, m, recs);
    MovedShape(m, m.rcpt, m.rcpt + 1, RcptItems(q, m, recs), m.from, m.rcpt + |recs| + 1);
  }

  lemma RcptAnchored(q: Queue, m: Map, recs: seq<Rec>)
    requires Ordered(m) && Anchored(q, m) && AllEnv(recs) && 0 < q.rcptTarget < PTR_LIMIT && q.rcptPt <= |q.file|
    ensures Ordered(RcptMap(q, m, recs)) && Anchored(RcptQueue(q, recs), RcptMap(q, m, recs))
  {
    hide RcptItems, EnvRec, Moved, PlacesOk, Committed, Size, Jumps, Unmarked, RightAlign, SizeAll, ContentAnchored,
         RcptsAnchored, FromAnchored;
    RcptItemsShape(q, m, recs);
    RcptPlaces(q, m, recs);
    var mid, i, j, n := RcptItems(q, m, recs), m.rcpt, m.rcpt + 1, m.rcpt + |recs| + 1;
    MovedShape(m, i, j, mid, m.from, n);
    MovedContent(q, m, RcptQueue(q, recs), i, j, mid, m.from, n);
    RcptOwn(q, m, recs);
    RcptFrom(q, m, recs);
  }

  /** The anchors of the content are where they were. */
  lemma MovedContent(q: Queue, m: Map, q': Queue, i: nat, j: nat, mid: seq<Item>, from: nat, rcpt: nat)
    requires PlacesOk(m, i, j, mid, from, rcpt) && ContentAnchored(q, m) && Ordered(Moved(m, i, j, mid, from, rcpt))
    requires q'.dataOffset == q.dataOffset && q'.xtraOffset == q.xtraOffset && q'.hdrPt == q.hdrPt && q'.hdrTarget == q.hdrTarget
    requires mid[0].off == m.c[i].off
    ensures ContentAnchored(q', Moved(m, i, j, mid, from, rcpt))
  {
    hide Moved, Size;
    MovedShape(m, i, j, mid, from, rcpt);
    var m' := Moved(m, i, j, mid, from, rcpt);
    MovedAt(m, i, j, mid, from, rcpt, m'.mesg + 1);
    MovedAt(m, i, j, mid, from, rcpt, m'.hdr);
    MovedAt(m, i, j, mid, from, rcpt, m'.hdr + 1);
    MovedAt(m, i, j, mid, from, rcpt, m'.xtra);
  }

  lemma RcptOwn(q: Queue, m: Map, recs: seq<Rec>)
    requires Ordered(m) && AllEnv(recs) && RcptsAnchored(q, m) && 0 < q.rcptTarget < PTR_LIMIT && q.rcptPt <= |q.file|
    ensures Ordered(RcptMap(q, m, recs)) && RcptsAnchored(RcptQueue(q, recs), RcptMap(q, m, recs))
  {
    hide RcptItems, EnvRec, Moved, PlacesOk, Committed, Jumps, Unmarked, RightAlign, SizeAll;
    RcptItemsShape(q, m, recs);
    RcptPlaces(q, m, recs);
    var mid, i, j, n := RcptItems(q, m, recs), m.rcpt, m.rcpt + 1, m.rcpt + |recs| + 1;
    MovedShape(m, i, j, mid, m.from, n);
    PtrSucc(0, q.rcptTarget);
    hide Size;
    MovedAt(m, i, j, mid, m.from, n, n);
    MovedAt(m, i, j, mid, m.from, n, n + 1);
  }

  lemma RcptFrom(q: Queue, m: Map, recs: seq<Rec>)
    requires Ordered(m) && AllEnv(recs) && FromAnchored(q, m) && q.rcptPt <= |q.file|
    ensures Ordered(RcptMap(q, m, recs)) && FromAnchored(RcptQueue(q, recs), RcptMap(q, m, recs))
  {
    hide RcptItems, EnvRec, Moved, PlacesOk, Committed, Size, Jumps, Unmarked, RightAlign, SizeAll;
    RcptItemsShape(q, m, recs);
    RcptPlaces(q, m, recs);
    var mid, i, j, n := RcptItems(q, m, recs), m.rcpt, m.rcpt + 1, m.rcpt + |recs| + 1;
    MovedShape(m, i, j, mid, m.from, n);
    MovedAt(m, i, j, mid, m.from, n, m.from);
    MovedAt(m, i, j, mid, m.from, n, m.from + 1);
    MovedAt(m, i, j, mid, m.from, n, SenderEnd(m));
  }

  lemma RcptInv(q: Queue, m: Map, recs: seq<Rec>)
    requires Inv(q, m) && AllEnv(recs) && |q.file| < PTR_LIMIT
    ensures q.rcptPt <= |q.file| && q.rcptPt == m.c[m.rcpt].off
    ensures Inv(RcptQueue(q, recs), RcptMap(q, m, recs))
    ensures Path(q.file + EncAll(recs + [PtrRec(q.rcptTarget)]), m.c)
    ensures Load(RcptQueue(q, recs), RcptMap(q, m, recs)) <= Load(q, m) + 1
  {
    hide Load, Backs, Path, Markers, HeaderPart, BodyPart, Row, RightAlign, SizeAll, EnvRec, AllOutside, Moved, Committed,
         LeadsTo, PlacesOk, Size, EncAll, Jumps;
    var rs := recs + [PtrRec(q.rcptTarget)];
    var mid := RcptItems(q, m, recs);
    assert Coverable(m.c, m.rcpt, m.rcpt + 1);
    OffsetBounds(q, m, m.rcpt + 1);
    EnvFlows(recs);
    EnvLeadsTo(q, m, recs, m.rcpt + 1);
    CommitPath(q, m, m.rcpt, m.rcpt + 1, rs);
    OutsidePtr(q, m, m.rcpt, m.rcpt + 1);
    InvParts(q, m);
    OutsideRow(q, m, rs);
    NewItemsOutside(q, m, m.rcpt, rs);
    RcptItemsShape(q, m, recs);
    RcptPlaces(q, m, recs);
    RcptAnchored(q, m, recs);
    OffsetInside(q, m, m.rcpt);
    LeadsFlows(q, m, rs, m.rcpt + 1);
    CommitBacks(|q.file|, m.c[m.rcpt].off, rs);
    hide NewItems, RcptItems;
    MovedInv(q, m, RcptQueue(q, recs), m.rcpt, m.rcpt + 1, mid, m.from, m.rcpt + |recs| + 1);
    MovedLoad(q, m, RcptQueue(q, recs), m.rcpt, m.rcpt + 1, mid, m.from, m.rcpt + |recs| + 1);
  }

  /** A scan that goes to the added recipients and comes back takes a reverse jump, however far
      it had jumped before. */
  lemma RcptReverses(q: Queue, m: Map, recs: seq<Rec>, saved: nat)
    requires Inv(q, m) && AllEnv(recs) && |q.file| < PTR_LIMIT
    ensures Ordered(RcptMap(q, m, recs)) && Reverses(saved, EnvelopePath(RcptMap(q, m, recs))) >= 1
  {
    hide Inv, RcptItems, EnvRec, Moved, PlacesOk, Reverses, SavedAfter, EnvelopePath;
    InvOrdered(q, m);
    var mid, i, n := RcptItems(q, m, recs), m.rcpt, m.rcpt + |recs| + 1;
    RcptPlaces(q, m, recs);
    MovedShape(m, i, i + 1, mid, m.from, n);
    var a, b := MovedEnvelope(m, i, i + 1, mid, m.from, n);
    RcptTurns(q, m, recs, SavedAfter(saved, a));
    TurnWithin(saved, a, mid, b);
  }

  lemma InvOrdered(q: Queue, m: Map)
    requires Inv(q, m)
    ensures Ordered(m)
  {
    hide Path, Markers, HeaderPart, BodyPart, Anchored;
  }

  lemma JoinRight(p: seq<Item>, mid: seq<Item>, r: seq<Item>, y: seq<Item>)
    ensures p + mid + r + y == p + mid + (r + y)
  {
  }

  lemma JoinLeft(x: seq<Item>, p: seq<Item>, mid: seq<Item>, r: seq<Item>)
    ensures x + (p + mid + r) == x + p + mid + r
  {
  }

  lemma EnvelopeIs(m: Map)
    requires Ordered(m)
    ensures EnvelopePath(m) == m.c[0..m.mesg] + m.c[m.xtra + 1..|m.c| - 1]
  {
    assert m.c[..m.mesg] == m.c[0..m.mesg];
  }

  lemma MovedEnvelope(m: Map, i: nat, j: nat, mid: seq<Item>, from: nat, rcpt: nat) returns (a: seq<Item>, b: seq<Item>)
    requires PlacesOk(m, i, j, mid, from, rcpt)
    ensures Ordered(Moved(m, i, j, mid, from, rcpt)) && EnvelopePath(Moved(m, i, j, mid, from, rcpt)) == a + mid + b
  {
    hide Moved, PlacesOk, EnvelopePath;
    MovedShape(m, i, j, mid, from, rcpt);
    var m' := Moved(m, i, j, mid, from, rcpt);
    EnvelopeIs(m');
    if j <= m.mesg {
      MovedMid(m, i, j, mid, from, rcpt, 0, m.mesg);
      var p, r, y := m.c[0..i], m.c[j..m.mesg], m'.c[m'.xtra + 1..|m'.c| - 1];
      a, b := p, r + y;
      JoinRight(p, mid, r, y);
    } else {
      MovedMid(m, i, j, mid, from, rcpt, m.xtra + 1, |m.c| - 1);
      var x, p, r := m'.c[0..m'.mesg], m.c[m.xtra + 1..i], m.c[j..|m.c| - 1];
      a, b := x + p, r;
      JoinLeft(x, p, mid, r);
    }
  }

  lemma TurnWithin(saved: nat, a: seq<Item>, mid: seq<Item>, b: seq<Item>)
    requires Reverses(SavedAfter(saved, a), mid) >= 1
    ensures Reverses(saved, a + mid + b) >= 1
  {
    hide Reverses, SavedAfter;
    ReversesConcat(saved, a, mid);
    ReversesConcat(saved, a + mid, b);
  }

  /** The pointer to the new records, the records, and the pointer back. */
  lemma Detour(q: Queue, m: Map, i: nat, recs: seq<Rec>, v: nat, saved: nat)
    requires i < |m.c| && Flows(recs) && forall k :: 0 <= k < |recs| ==> !Jumps(recs[k])
    requires 0 < v <= |q.file| < PTR_LIMIT
    ensures var mid := NewItems(q, m, i, recs + [PtrRec(v)]); Reverses(saved, mid) >= 1 && SavedAfter(saved, mid) == v
  {
    hide Row, RightAlign, Digits, Reverses, SavedAfter, Target, Jumps, Size, Readable, SizeAll;
    var end := |q.file|;
    PtrSucc(m.c[i].off, end);
    PtrSucc(end + SizeAll(recs), v);
    RowConcat(end, recs, [PtrRec(v)]);
    RowOne(end + SizeAll(recs), PtrRec(v));
    RowShape(end, recs);
    NoJumpsNoReverses(end, Row(end, recs));
    var p, row, x := [Item(m.c[i].off, PtrRec(end))], Row(end, recs), [Item(end + SizeAll(recs), PtrRec(v))];
    assert NewItems(q, m, i, recs + [PtrRec(v)]) == p + row + x;
    ReversesConcat(saved, p, row);
    ReversesConcat(saved, p + row, x);
    TurnOne(saved, p[0]);
    TurnOne(end, x[0]);
  }

  lemma RcptTurns(q: Queue, m: Map, recs: seq<Rec>, saved: nat)
    requires Inv(q, m) && AllEnv(recs) && |q.file| < PTR_LIMIT
    ensures Ordered(m) && Reverses(saved, RcptItems(q, m, recs)) >= 1
  {
    hide Path, Markers, HeaderPart, BodyPart, EnvRec, Reverses, SavedAfter, NewItems;
    OffsetBounds(q, m, m.rcpt + 1);
    OffsetInside(q, m, m.rcpt + 1);
    EnvFlows(recs);
    Detour(q, m, m.rcpt, recs, q.rcptTarget, saved);
  }

  lemma TurnOne(saved: nat, x: Item)
    requires Jumps(x.rec)
    ensures SavedAfter(saved, [x]) == Succ(x) && Reverses(saved, [x]) == if Succ(x) <= saved then 1 else 0
  {
    assert [x][..0] == [] && SavedAfter(saved, []) == saved && Reverses(saved, []) == 0;
  }

  lemma MovedCut(m: Map, i: nat, j: nat, mid: seq<Item>, from: nat, rcpt: nat, a: nat, n: nat)
    requires PlacesOk(m, i, j, mid, from, rcpt) && a <= i && n <= |mid|
    ensures var c' := Moved(m, i, j, mid, from, rcpt).c;
            i + n <= |c'| && View(c'[a..i + n]) == View(m.c[a..i]) + View(mid[..n])
  {
    var c' := Moved(m, i, j, mid, from, rcpt).c;
    assert c'[a..i + n] == m.c[a..i] + mid[..n];
    hide View;
    ViewConcat(m.c[a..i], mid[..n]);
  }

  lemma RcptView(q: Queue, m: Map, recs: seq<Rec>)
    requires Ordered(m) && AllEnv(recs)
    ensures var mid := RcptItems(q, m, recs);
            View(mid) == recs && |mid| == |recs| + 2 && View(mid[..|recs| + 1]) == recs
  {
    hide View, Row, RightAlign, EnvRec;
    var rs := recs + [PtrRec(q.rcptTarget)];
    var mid, n := RcptItems(q, m, recs), |recs| + 1;
    RcptItemsShape(q, m, recs);
    ViewNew(q, m, m.rcpt, rs);
    AllEnvShown(recs, q.rcptTarget);
    assert mid == mid[..n] + [mid[n]];
    ViewConcat(mid[..n], [mid[n]]);
    ViewOne(mid[n]);
    assert View(mid[..n]) + [] == View(mid[..n]);
  }

  lemma HiddenAt(m: Map, a: nat, k: nat, b: nat)
    requires a <= k < b <= |m.c| && m.c[k].rec.typ == PTR
    ensures View(m.c[a..b]) == View(m.c[a..k]) + View(m.c[k + 1..b])
  {
    hide View;
    ViewCut(m.c, a, k, b);
    assert [] + View(m.c[k + 1..b]) == View(m.c[k + 1..b]);
  }

  /** Recipients appear, in order, at the append position; nothing else changes. */
  lemma RcptAbs(q: Queue, m: Map, recs: seq<Rec>)
    requires Ordered(m) && m.c[m.rcpt].rec.typ == PTR && AllEnv(recs)
    ensures Abs(m).rcptAt <= if Abs(m).rcptInEnv then |Abs(m).env| else |Abs(m).ext|
    ensures Ordered(RcptMap(q, m, recs)) && Abs(RcptMap(q, m, recs)) == AddRcpt(Abs(m), recs)
  {
    hide View, Moved, RcptItems, EnvRec, PlacesOk, HdrsOf, BodyOf;
    var mid, i, n := RcptItems(q, m, recs), m.rcpt, m.rcpt + |recs| + 1;
    RcptPlaces(q, m, recs);
    RcptView(q, m, recs);
    MovedShape(m, i, i + 1, mid, m.from, n);
    MovedLow(m, i, i + 1, mid, m.from, n, 0, m.from);
    var m' := RcptMap(q, m, recs);
    assert m.c[..m.from] == m.c[0..m.from] && m'.c[..m.from] == m'.c[0..m.from];
    if m.rcpt < m.mesg {
      MovedEnv(m, i, i + 1, mid, m.from, n);
      MovedCut(m, i, i + 1, mid, m.from, n, 0, |recs| + 1);
      HiddenAt(m, 0, i, m.mesg);
      assert m.c[..m.mesg] == m.c[0..m.mesg] && m.c[..i] == m.c[0..i] && m'.c[..n] == m'.c[0..n];
    } else {
      MovedExt(m, i, i + 1, mid, m.from, n);
      MovedCut(m, i, i + 1, mid, m.from, n, m.xtra + 1, |recs| + 1);
      HiddenAt(m, m.xtra + 1, i, |m.c| - 1);
    }
  }

  // ----- Changing the sender -----

  function SenderPadding(addr: seq<byte>): seq<Rec> {
    if |addr| < PTR_PAYLOAD then [PadRec(PTR, PTR_PAYLOAD - |addr|)] else []
  }

  /** DSN attributes, the sender, and padding after a short one. */
  function SenderRecs(attrs: seq<Rec>, addr: seq<byte>): seq<Rec> {
    attrs + [Rec(FROM, addr)] + SenderPadding(addr)
  }

  /** cleanup_chg_from on the plain message. */
  function ChgFrom(g: Message, attrs: seq<Rec>, addr: seq<byte>): Message {
    g.(env := if g.senderAt < |g.env|
              then g.env[..g.senderAt] + attrs + [Rec(FROM, addr)] + g.env[g.senderAt + 1..] else g.env,
       senderAt := g.senderAt + |attrs|,
       rcptAt := if g.rcptInEnv then g.rcptAt + |attrs| else g.rcptAt)
  }

  ghost function SenderItems(q: Queue, m: Map, attrs: seq<Rec>, addr: seq<byte>): seq<Item>
    requires Ordered(m)
  {
    NewItems(q, m, m.from, SenderRecs(attrs, addr) + [PtrRec(q.senderTarget)])
  }

  ghost function SenderMap(q: Queue, m: Map, attrs: seq<Rec>, addr: seq<byte>): Map
    requires Ordered(m) && SenderRoom(m)
  {
    var mid, j := SenderItems(q, m, attrs, addr), SenderEnd(m);
    var d := |mid| - (j - m.from);
    Moved(m, m.from, j, mid, m.from + 1 + |attrs|, m.rcpt + d)
  }

  ghost function SenderQueue(q: Queue, attrs: seq<Rec>, addr: seq<byte>): Queue
    requires q.senderPt <= |q.file|
  {
    q.(file := Committed(q.file, q.senderPt, SenderRecs(attrs, addr) + [PtrRec(q.senderTarget)]),
       senderPt := |q.file| + SizeAll(attrs),
       senderTarget := |q.file| + SizeAll(SenderRecs(attrs, addr)))
  }

  lemma SenderKinds(attrs: seq<Rec>, addr: seq<byte>)
    requires AllEnv(attrs) && |addr| < MAX_PAYLOAD
    ensures var rs := SenderRecs(attrs, addr); var n := |attrs|;
            && Flows(rs) && (forall k :: 0 <= k < |rs| ==> !Jumps(rs[k]))
            && (forall k :: 0 <= k < |rs| ==> (rs[k].typ == FROM <==> k == n) && Unmarked(rs[k].typ))
            && |rs| == n + (if |addr| < PTR_PAYLOAD then 2 else 1) && rs[..n] == attrs && rs[n] == Rec(FROM, addr)
            && (|addr| < PTR_PAYLOAD ==> rs[n + 1].typ == PTR && Size(rs[n]) + Size(rs[n + 1]) >= PTR_SIZE)
            && Shown(rs) == attrs + [Rec(FROM, addr)]
  {
    var rs, n := SenderRecs(attrs, addr), |attrs|;
    if |addr| < PTR_PAYLOAD { PadFills(Rec(FROM, addr), PTR); }
    hide Target, RightAlign, Size;
    assert forall k :: 0 <= k < n ==> EnvRec(attrs[k]);
    forall k | 0 <= k < |rs|
      ensures Readable(rs[k]) && !Jumps(rs[k]) && (rs[k].typ == FROM <==> k == n) && Unmarked(rs[k].typ)
    {
      if k < n { assert rs[k] == attrs[k]; }
    }
    SenderShown(attrs, addr);
  }

  lemma SenderShown(attrs: seq<Rec>, addr: seq<byte>)
    requires AllEnv(attrs)
    ensures Shown(SenderRecs(attrs, addr)) == attrs + [Rec(FROM, addr)]
  {
    hide RightAlign;
    var f, p := [Rec(FROM, addr)], SenderPadding(addr);
    assert forall k :: 0 <= k < |attrs| ==> EnvRec(attrs[k]);
    ShownAll(attrs);
    ShownConcat(attrs + f, p);
    ShownConcat(attrs, f);
    assert f[1..] == [];
    assert Shown(p) == [] by { if p != [] { assert p[1..] == []; } }
  }

  /** The items of the edit: a pointer over the old sender, the new records, the way back. */
  lemma SenderItemsShape(q: Queue, m: Map, attrs: seq<Rec>, addr: seq<byte>)
    requires Ordered(m) && AllEnv(attrs) && |addr| < MAX_PAYLOAD
    ensures var rs := SenderRecs(attrs, addr); var mid := SenderItems(q, m, attrs, addr); var n := |attrs| + 1;
            && |mid| == |rs| + 2 && mid[0].off == m.c[m.from].off
            && mid[n] == Item(|q.file| + SizeAll(attrs), Rec(FROM, addr))
            && mid[|rs| + 1] == Item(|q.file| + SizeAll(rs), PtrRec(q.senderTarget))
            && (forall k :: 0 <= k < |mid| ==> (mid[k].rec.typ == FROM <==> k == n) && Unmarked(mid[k].rec.typ))
            && (|addr| < PTR_PAYLOAD ==> mid[n + 1].rec == rs[n])
  {
    var all := SenderRecs(attrs, addr) + [PtrRec(q.senderTarget)];
    var rs, mid, n := SenderRecs(attrs, addr), SenderItems(q, m, attrs, addr), |attrs| + 1;
    SenderKinds(attrs, addr);
    RowShape(|q.file|, all);
    hide Row, RightAlign, SenderRecs, EnvRec, Jumps, Flows, Shown, Size;
    RowLast(|q.file|, all);
    assert all[..|all| - 1] == rs;
    RowPrefix(|q.file|, all, n);
    assert all[..n - 1] == attrs by { assert all[..n - 1] == rs[..n - 1]; }
    forall k | 0 <= k < |mid| ensures (mid[k].rec.typ == FROM <==> k == n) && Unmarked(mid[k].rec.typ) {
      if 0 < k <= |rs| { assert mid[k].rec == all[k - 1] == rs[k - 1]; }
    }
  }

  lemma RowPrefix(o: nat, rs: seq<Rec>, n: nat)
    requires 0 < n <= |rs|
    ensures |Row(o, rs)| == |rs| && Row(o, rs)[n - 1] == Item(o + SizeAll(rs[..n - 1]), rs[n - 1])
  {
    hide Row;
    assert rs == rs[..n] + rs[n..];
    RowConcat(o, rs[..n], rs[n..]);
    RowShape(o, rs);
    RowShape(o, rs[..n]);
    RowLast(o, rs[..n]);
    assert rs[..n][..n - 1] == rs[..n - 1];
  }

  lemma SenderPlaces(q: Queue, m: Map, attrs: seq<Rec>, addr: seq<byte>)
    requires Ordered(m) && SenderRoom(m) && AllEnv(attrs) && |addr| < MAX_PAYLOAD
    ensures var mid, j := SenderItems(q, m, attrs, addr), SenderEnd(m); var d := |mid| - (j - m.from);
            && d >= 1 && PlacesOk(m, m.from, j, mid, m.from + 1 + |attrs|, m.rcpt + d)
            && Ordered(SenderMap(q, m, attrs, addr))
  {
    hide SenderItems, EnvRec, SenderRecs, Unmarked, Size, Jumps;
    SenderItemsShape(q, m, attrs, addr);
    SenderKinds(attrs, addr);
    var mid, j := SenderItems(q, m, attrs, addr), SenderEnd(m);
    MovedShape(m, m.from, j, mid, m.from + 1 + |attrs|, m.rcpt + (|mid| - (j - m.from)));
  }

  lemma SenderAnchored(q: Queue, m: Map, attrs: seq<Rec>, addr: seq<byte>)
    requires Ordered(m) && Anchored(q, m) && AllEnv(attrs) && |addr| < MAX_PAYLOAD && q.senderPt <= |q.file|
    ensures Ordered(SenderMap(q, m, attrs, addr))
    ensures Anchored(SenderQueue(q, attrs, addr), SenderMap(q, m, attrs, addr))
  {
    hide SenderItems, EnvRec, Moved, PlacesOk, Committed, Size, Jumps, Unmarked, SenderRecs, SizeAll, RightAlign, Flows,
         ContentAnchored, RcptsAnchored, SenderRoom;
    SenderItemsShape(q, m, attrs, addr);
    SenderPlaces(q, m, attrs, addr);
    var mid, i, j := SenderItems(q, m, attrs, addr), m.from, SenderEnd(m);
    var d := |mid| - (j - i);
    MovedShape(m, i, j, mid, i + 1 + |attrs|, m.rcpt + d);
    MovedContent(q, m, SenderQueue(q, attrs, addr), i, j, mid, i + 1 + |attrs|, m.rcpt + d);
    hide FromAnchored;
    SenderRcpts(q, m, attrs, addr);
    SenderFrom(q, m, attrs, addr);
  }

  lemma SenderRcpts(q: Queue, m: Map, attrs: seq<Rec>, addr: seq<byte>)
    requires Ordered(m) && Anchored(q, m) && AllEnv(attrs) && |addr| < MAX_PAYLOAD && q.senderPt <= |q.file|
    ensures Ordered(SenderMap(q, m, attrs, addr))
    ensures RcptsAnchored(SenderQueue(q, attrs, addr), SenderMap(q, m, attrs, addr))
  {
    hide SenderItems, EnvRec, Moved, PlacesOk, Committed, Size, Jumps, Unmarked, SenderRecs, SizeAll, RightAlign, Flows, ContentAnchored;
    SenderItemsShape(q, m, attrs, addr);
    SenderPlaces(q, m, attrs, addr);
    var mid, i, j := SenderItems(q, m, attrs, addr), m.from, SenderEnd(m);
    var f, r := i + 1 + |attrs|, m.rcpt + (|mid| - (j - i));
    MovedShape(m, i, j, mid, f, r);
    MovedAt(m, i, j, mid, f, r, r);
    MovedAt(m, i, j, mid, f, r, r + 1);
  }

  lemma SenderFrom(q: Queue, m: Map, attrs: seq<Rec>, addr: seq<byte>)
    requires Ordered(m) && Anchored(q, m) && AllEnv(attrs) && |addr| < MAX_PAYLOAD && q.senderPt <= |q.file|
    ensures Ordered(SenderMap(q, m, attrs, addr))
    ensures FromAnchored(SenderQueue(q, attrs, addr), SenderMap(q, m, attrs, addr))
  {
    hide SenderItems, EnvRec, Moved, PlacesOk, Committed, Size, Jumps, Unmarked, SenderRecs, SizeAll, RightAlign, Flows,
         ContentAnchored, RcptsAnchored;
    SenderItemsShape(q, m, attrs, addr);
    SenderKinds(attrs, addr);
    SenderPlaces(q, m, attrs, addr);
    var mid, i, j := SenderItems(q, m, attrs, addr), m.from, SenderEnd(m);
    var f, r := i + 1 + |attrs|, m.rcpt + (|mid| - (j - i));
    MovedShape(m, i, j, mid, f, r);
    MovedAt(m, i, j, mid, f, r, f);
    MovedAt(m, i, j, mid, f, r, f + 1);
    MovedAt(m, i, j, mid, f, r, i + |mid| - 1);
    assert SenderEnd(SenderMap(q, m, attrs, addr)) == i + |mid| - 1;
  }

  lemma SenderInv(q: Queue, m: Map, attrs: seq<Rec>, addr: seq<byte>)
    requires Inv(q, m) && AllEnv(attrs) && |addr| < MAX_PAYLOAD && |q.file| < PTR_LIMIT
    ensures q.senderPt <= |q.file| && q.senderPt == m.c[m.from].off
    ensures Inv(SenderQueue(q, attrs, addr), SenderMap(q, m, attrs, addr))
    ensures Path(q.file + EncAll(SenderRecs(attrs, addr) + [PtrRec(q.senderTarget)]), m.c)
    ensures Load(SenderQueue(q, attrs, addr), SenderMap(q, m, attrs, addr)) <= Load(q, m) + 1
  {
    hide Load, Backs, Path, Markers, HeaderPart, BodyPart, Row, RightAlign, SizeAll, EnvRec, AllOutside, Moved, Committed,
         LeadsTo, PlacesOk, EncAll, SenderRecs, Unmarked, Flows;
    var rs := SenderRecs(attrs, addr) + [PtrRec(q.senderTarget)];
    var mid, j := SenderItems(q, m, attrs, addr), SenderEnd(m);
    SenderCover(q, m);
    OffsetBounds(q, m, j);
    SenderKinds(attrs, addr);
    EnvLeadsTo(q, m, SenderRecs(attrs, addr), j);
    CommitPath(q, m, m.from, j, rs);
    OutsidePtr(q, m, m.from, j);
    InvParts(q, m);
    OutsideRow(q, m, rs);
    NewItemsOutside(q, m, m.from, rs);
    SenderItemsShape(q, m, attrs, addr);
    SenderPlaces(q, m, attrs, addr);
    SenderAnchored(q, m, attrs, addr);
    OffsetInside(q, m, m.from);
    LeadsFlows(q, m, rs, j);
    CommitBacks(|q.file|, m.c[m.from].off, rs);
    hide NewItems, SenderItems, Size, Jumps;
    MovedInv(q, m, SenderQueue(q, attrs, addr), m.from, j, mid, m.from + 1 + |attrs|, m.rcpt + (|mid| - (j - m.from)));
    MovedLoad(q, m, SenderQueue(q, attrs, addr), m.from, j, mid, m.from + 1 + |attrs|, m.rcpt + (|mid| - (j - m.from)));
  }

  lemma SenderCover(q: Queue, m: Map)
    requires Inv(q, m)
    ensures Ordered(m) && Coverable(m.c, m.from, SenderEnd(m)) && SenderEnd(m) <= m.hdr + 1
  {
    hide Path, HeaderPart, BodyPart, Target;
    assert Marked(m.c[m.from].rec.typ, m.from, m);
    EncSize(m.c[m.from].rec);
  }

  /** The sender record is replaced, with the attributes before it; nothing else changes. */
  lemma SenderAbs(q: Queue, m: Map, attrs: seq<Rec>, addr: seq<byte>)
    requires Inv(q, m) && AllEnv(attrs) && |addr| < MAX_PAYLOAD
    ensures Abs(m).senderAt < |Abs(m).env| && Abs(m).env[Abs(m).senderAt].typ == FROM
    ensures Ordered(SenderMap(q, m, attrs, addr)) && Abs(SenderMap(q, m, attrs, addr)) == ChgFrom(Abs(m), attrs, addr)
  {
    hide View, Moved, SenderItems, EnvRec, PlacesOk, HdrsOf, BodyOf, ExtOf, RcptAt, SenderAt, Path, HeaderPart,
         BodyPart, Markers, SenderRecs, Anchored, SenderMap;
    SenderPlaces(q, m, attrs, addr) by { SenderCover(q, m); AnchorRoom(q, m); }
    AnchorRoom(q, m);
    SenderEnvs(q, m, attrs, addr);
    SenderRcptAt(q, m, attrs, addr);
  }

  lemma AnchorRoom(q: Queue, m: Map)
    requires Inv(q, m)
    ensures Ordered(m) && SenderRoom(m) && m.c[m.from].rec.typ == FROM
    ensures forall k :: m.from < k < SenderEnd(m) ==> !Visible(m.c[k].rec)
  {
    hide Path, HeaderPart, BodyPart, Target, Size;
    assert Marked(m.c[m.from].rec.typ, m.from, m);
  }

  lemma SenderView(q: Queue, m: Map, attrs: seq<Rec>, addr: seq<byte>)
    requires Ordered(m) && AllEnv(attrs) && |addr| < MAX_PAYLOAD
    ensures var mid := SenderItems(q, m, attrs, addr);
            && |mid| > |attrs| + 1
            && View(mid) == attrs + [Rec(FROM, addr)] && View(mid[..|attrs| + 1]) == attrs
  {
    hide View, Row, RightAlign, EnvRec, SenderRecs, Shown;
    var rs, mid, n := SenderRecs(attrs, addr), SenderItems(q, m, attrs, addr), |attrs| + 1;
    SenderKinds(attrs, addr);
    SenderItemsShape(q, m, attrs, addr);
    ViewNew(q, m, m.from, rs + [PtrRec(q.senderTarget)]);
    ShownConcat(rs, [PtrRec(q.senderTarget)]);
    PtrShown(q.senderTarget);
    assert Shown(rs) + [] == Shown(rs);
    RowConcat(|q.file|, attrs, rs[|attrs|..] + [PtrRec(q.senderTarget)]);
    assert attrs + (rs[|attrs|..] + [PtrRec(q.senderTarget)]) == rs + [PtrRec(q.senderTarget)]
      by { assert rs == attrs + rs[|attrs|..]; }
    RowShape(|q.file|, attrs);
    assert mid[..n] == NewItems(q, m, m.from, attrs);
    ViewNew(q, m, m.from, attrs);
    AttrsShown(attrs);
  }

  lemma PtrShown(v: nat)
    ensures Shown([PtrRec(v)]) == []
  {
    assert [PtrRec(v)][1..] == [];
  }

  lemma AttrsShown(attrs: seq<Rec>)
    requires AllEnv(attrs)
    ensures Shown(attrs) == attrs
  {
    assert forall k :: 0 <= k < |attrs| ==> EnvRec(attrs[k]);
    ShownAll(attrs);
  }

  lemma SenderEnvs(q: Queue, m: Map, attrs: seq<Rec>, addr: seq<byte>)
    requires Ordered(m) && SenderRoom(m) && m.c[m.from].rec.typ == FROM && AllEnv(attrs) && |addr| < MAX_PAYLOAD
    requires forall k :: m.from < k < SenderEnd(m) ==> !Visible(m.c[k].rec)
    ensures Ordered(SenderMap(q, m, attrs, addr))
    ensures var m' := SenderMap(q, m, attrs, addr); var n, e := SenderAt(m), EnvOf(m);
            && n < |e| && e[n] == m.c[m.from].rec
            && EnvOf(m') == e[..n] + attrs + [Rec(FROM, addr)] + e[n + 1..] && SenderAt(m') == n + |attrs|
            && HdrsOf(m') == HdrsOf(m) && BodyOf(m') == BodyOf(m) && ExtOf(m') == ExtOf(m)
  {
    hide View, Moved, SenderItems, EnvRec, PlacesOk, SenderRecs, Size, Jumps;
    SenderPlaces(q, m, attrs, addr);
    SenderView(q, m, attrs, addr);
    var mid, i, j := SenderItems(q, m, attrs, addr), m.from, SenderEnd(m);
    var f, r := i + 1 + |attrs|, m.rcpt + (|mid| - (j - i));
    MovedShape(m, i, j, mid, f, r);
    MovedEnv(m, i, j, mid, f, r);
    MovedCut(m, i, j, mid, f, r, 0, |attrs| + 1);
    ViewCut(m.c, 0, i, m.mesg);
    SkipHidden(m, i + 1, j, m.mesg);
    var m' := SenderMap(q, m, attrs, addr);
    assert m.c[..m.mesg] == m.c[0..m.mesg] && m.c[..i] == m.c[0..i] && m'.c[..f] == m'.c[0..f];
  }

  lemma SkipHidden(m: Map, a: nat, j: nat, b: nat)
    requires a <= j <= b <= |m.c| && forall k :: a <= k < j ==> !Visible(m.c[k].rec)
    ensures View(m.c[a..b]) == View(m.c[j..b])
  {
    hide View;
    ViewSplit(m, a, j, b);
    ViewHidden(m.c[a..j]);
    assert [] + View(m.c[j..b]) == View(m.c[j..b]);
  }

  lemma SenderRcptAt(q: Queue, m: Map, attrs: seq<Rec>, addr: seq<byte>)
    requires Ordered(m) && SenderRoom(m) && m.c[m.from].rec.typ == FROM && AllEnv(attrs) && |addr| < MAX_PAYLOAD
    requires forall k :: m.from < k < SenderEnd(m) ==> !Visible(m.c[k].rec)
    ensures Ordered(SenderMap(q, m, attrs, addr))
    ensures var m' := SenderMap(q, m, attrs, addr);
            && (m'.rcpt < m'.mesg <==> m.rcpt < m.mesg)
            && RcptAt(m') == RcptAt(m) + if m.rcpt < m.mesg then |attrs| else 0
  {
    hide View, Moved, SenderItems, EnvRec, PlacesOk, SenderRecs, Size, Jumps;
    SenderPlaces(q, m, attrs, addr);
    SenderView(q, m, attrs, addr);
    var mid, i, j := SenderItems(q, m, attrs, addr), m.from, SenderEnd(m);
    var d := |mid| - (j - i);
    var f, r := i + 1 + |attrs|, m.rcpt + d;
    MovedShape(m, i, j, mid, f, r);
    var m' := SenderMap(q, m, attrs, addr);
    if m.rcpt < m.mesg {
      MovedPart(m, i, j, mid, f, r, 0, m.rcpt);
      ViewCut(m.c, 0, i, m.rcpt);
      SkipHidden(m, i + 1, j, m.rcpt);
      assert m.c[..m.rcpt] == m.c[0..m.rcpt] && m'.c[..m'.rcpt] == m'.c[0..m'.rcpt];
    } else {
      MovedHigh(m, i, j, mid, f, r, m.xtra + 1, m.rcpt);
    }
  }

  // ----- The jumps that former senders leave behind -----

  /** Every reader takes at least n reverse jumps before the content. */
  ghost predicate Turning(m: Map, n: nat)
    requires Ordered(m)
  {
    forall saved :: Reverses(saved, m.c[..m.mesg]) >= n
  }

  ghost predicate AnotherTurn(m: Map, m': Map) {
    Ordered(m) && Ordered(m') && forall n: nat :: Turning(m, n) ==> Turning(m', n + 1)
  }

  /** A stretch s without jumps gives way to a detour that comes back behind it: one more reverse
      jump, for the jumps before and after it count as they did. */
  lemma TurnAdds(a: seq<Item>, s: seq<Item>, mid: seq<Item>, b: seq<Item>, t: nat, n: nat, saved: nat)
    requires Linked(a + s) && s != [] && s[0].off <= t && forall k :: 0 <= k < |s| ==> !Jumps(s[k].rec)
    requires forall x :: Reverses(x, mid) >= 1 && SavedAfter(x, mid) == t
    requires forall x :: Reverses(x, a + s + b) >= n
    ensures Reverses(saved, a + mid + b) >= n + 1
  {
    hide Reverses, SavedAfter, Jumps, Succ;
    var x := if exists k :: 0 <= k < |a| && Jumps(a[k].rec) then saved else t;
    var y := SavedAfter(x, a);
    if exists k :: 0 <= k < |a| && Jumps(a[k].rec) {
      assert Linked(a) by { assert forall k :: 0 <= k < |a| ==> a[k] == (a + s)[k]; }
      SavedBehind(x, a);
      assert (a + s)[|a|] == s[0] && Succ((a + s)[|a| - 1]) == (a + s)[|a|].off;
    } else {
      NoJumpsNoReverses(t, a);
    }
    NoJumpsNoReverses(y, s);
    ReversesMonotone(y, t, b);
    ReversesConcat(x, a, s);
    ReversesConcat(x, a + s, b);
    ReversesConcat(saved, a, mid);
    ReversesConcat(saved, a + mid, b);
    if x == t { ReversesConcat(t, a, s); }
  }

  lemma SenderPath(q: Queue, m: Map, attrs: seq<Rec>, addr: seq<byte>)
    requires Ordered(m) && SenderRoom(m) && AllEnv(attrs) && |addr| < MAX_PAYLOAD
    ensures var m', i, j := SenderMap(q, m, attrs, addr), m.from, SenderEnd(m);
            && Ordered(m')
            && m'.c[..m'.mesg] == m.c[0..i] + SenderItems(q, m, attrs, addr) + m.c[j..m.mesg]
            && m.c[..m.mesg] == m.c[0..i] + m.c[i..j] + m.c[j..m.mesg]
  {
    hide Moved, EnvRec, PlacesOk, Size, Jumps, SenderItems;
    SenderPlaces(q, m, attrs, addr);
    var mid, i, j := SenderItems(q, m, attrs, addr), m.from, SenderEnd(m);
    var f, r := i + 1 + |attrs|, m.rcpt + (|mid| - (j - i));
    MovedShape(m, i, j, mid, f, r);
    MovedMid(m, i, j, mid, f, r, 0, m.mesg);
    var m' := SenderMap(q, m, attrs, addr);
    assert m'.c[..m'.mesg] == m'.c[0..m'.mesg];
  }

  lemma SenderTurns(q: Queue, m: Map, attrs: seq<Rec>, addr: seq<byte>, n: nat, saved: nat)
    requires Inv(q, m) && AllEnv(attrs) && |addr| < MAX_PAYLOAD && |q.file| < PTR_LIMIT
    requires Ordered(m) && Turning(m, n)
    ensures SenderRoom(m) && Ordered(SenderMap(q, m, attrs, addr))
    ensures var m' := SenderMap(q, m, attrs, addr); Reverses(saved, m'.c[..m'.mesg]) >= n + 1
  {
    hide Inv, EnvRec, Jumps, Reverses, SavedAfter, SenderItems, SenderMap;
    AnchorRoom(q, m);
    SenderPath(q, m, attrs, addr);
    SenderDetour(q, m, attrs, addr);
    hide SenderRoom;
    var i, j := m.from, SenderEnd(m);
    TurnAdds(m.c[0..i], m.c[i..j], SenderItems(q, m, attrs, addr), m.c[j..m.mesg], q.senderTarget, n, saved);
  }

  lemma SenderDetour(q: Queue, m: Map, attrs: seq<Rec>, addr: seq<byte>)
    requires Inv(q, m) && AllEnv(attrs) && |addr| < MAX_PAYLOAD && |q.file| < PTR_LIMIT
    ensures Ordered(m) && SenderEnd(m) <= m.mesg && Linked(m.c[0..m.from] + m.c[m.from..SenderEnd(m)])
    ensures forall k :: m.from <= k < SenderEnd(m) ==> !Jumps(m.c[k].rec)
    ensures m.c[m.from].off <= q.senderTarget
    ensures forall x :: Reverses(x, SenderItems(q, m, attrs, addr)) >= 1 && SavedAfter(x, SenderItems(q, m, attrs, addr)) == q.senderTarget
  {
    hide EnvRec, SenderRecs, Reverses, SavedAfter, HeaderPart, BodyPart, NewItems, Flows, Target, At, Distinct;
    assert Marked(m.c[m.from].rec.typ, m.from, m);
    var j := SenderEnd(m);
    OffsetBounds(q, m, j);
    OffsetInside(q, m, j);
    SenderKinds(attrs, addr);
    forall x ensures Reverses(x, SenderItems(q, m, attrs, addr)) >= 1 && SavedAfter(x, SenderItems(q, m, attrs, addr)) == q.senderTarget {
      Detour(q, m, m.from, SenderRecs(attrs, addr), q.senderTarget, x);
    }
    assert Succ(m.c[m.from]) == m.c[m.from + 1].off;
    if j == m.from + 2 { assert Succ(m.c[m.from + 1]) == m.c[m.from + 2].off; }
  }

  /** Each new sender adds a reverse jump, whatever was edited before. */
  lemma SenderAnotherTurn(q: Queue, m: Map, attrs: seq<Rec>, addr: seq<byte>)
    requires Inv(q, m) && AllEnv(attrs) && |addr| < MAX_PAYLOAD && |q.file| < PTR_LIMIT
    ensures Ordered(m) && SenderRoom(m) && AnotherTurn(m, SenderMap(q, m, attrs, addr))
  {
    hide Path, HeaderPart, BodyPart, Markers, Reverses, SenderMap, EnvRec;
    var m' := SenderMap(q, m, attrs, addr);
    SenderTurns(q, m, attrs, addr, 0, 0);
    forall n: nat | Turning(m, n) ensures Turning(m', n + 1) {
      forall saved ensures Reverses(saved, m'.c[..m'.mesg]) >= n + 1 { SenderTurns(q, m, attrs, addr, n, saved); }
    }
  }

  lemma SenderGrowth(q: Queue, m: Map, attrs: seq<Rec>, addr: seq<byte>)
    requires Inv(q, m) && AllEnv(attrs) && |addr| < MAX_PAYLOAD && |q.file| < PTR_LIMIT
    ensures q.senderPt <= |q.file|
    ensures |SenderQueue(q, attrs, addr).file| == |q.file| + SizeAll(SenderRecs(attrs, addr)) + PTR_SIZE
  {
    hide Path, Markers, HeaderPart, BodyPart, SizeAll, EnvRec, Committed, LeadsTo, EncAll, SenderRecs, Flows, Row, Digits;
    var rs := SenderRecs(attrs, addr);
    SenderCover(q, m);
    OffsetBounds(q, m, SenderEnd(m));
    SenderKinds(attrs, addr);
    EnvLeadsTo(q, m, rs, SenderEnd(m));
    CommitPath(q, m, m.from, SenderEnd(m), rs + [PtrRec(q.senderTarget)]);
    SizeAllConcat(rs, [PtrRec(q.senderTarget)]);
    PtrSucc(0, q.senderTarget);
    OneSize(PtrRec(q.senderTarget));
  }

  lemma OneSize(r: Rec)
    ensures SizeAll([r]) == Size(r)
  {
    assert [r][1..] == [];
  }
}
