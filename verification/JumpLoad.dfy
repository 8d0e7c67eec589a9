/** How many reverse jumps an edited file can make a reader take, and how far that number can
    grow with an edit. */
module JumpLoad {
  import opened Records
  import opened Chain
  import opened Following
  import opened Layout
  import opened HeaderEdits

  function HeaderPath(m: Map): seq<Item> requires Ordered(m) { m.c[m.mesg + 1..m.hdr] }

  function BodyPath(m: Map): seq<Item> requires Ordered(m) { m.c[m.hdr + 1..m.xtra] }

  /** What a scan of envelope and extracted part passes, apart from the markers. */
  function EnvelopePath(m: Map): seq<Item>
    requires Ordered(m)
  {
    m.c[..m.mesg] + m.c[m.xtra + 1..|m.c| - 1]
  }

  function Larger(a: nat, b: nat): nat { if a < b then b else a }

  /** Jumps back outside the body, and regions for body text, each of which is left by one jump. */
  function Load(q: Queue, m: Map): nat
    requires Ordered(m)
  {
    Backs(HeaderPath(m)) + Backs(EnvelopePath(m)) + |q.free| + Larger(|InUse(q)|, Backs(BodyPath(m)))
  }

  lemma InUseSome(q: Queue)
    ensures |InUse(q)| >= 1
  {
  }

  lemma ReversesPrefix(saved: nat, a: seq<Item>, c: seq<Item>)
    requires a <= c
    ensures Reverses(saved, a) <= Reverses(saved, c)
  {
    hide Reverses;
    assert c == a + c[|a|..];
    ReversesConcat(saved, a, c[|a|..]);
  }

  /** A scan of headers takes no more reverse jumps than the load allows. */
  lemma HeaderScanCost(q: Queue, m: Map, saved: nat, a: seq<Item>)
    requires Inv(q, m) && a <= HeaderPath(m)
    ensures Reverses(saved, a) <= Load(q, m)
  {
    hide Reverses, Backs, Stored, Distinct, InUse, Markers, Anchored, HeaderPart, BodyPart, Succ;
    ReversesPrefix(saved, a, HeaderPath(m));
    ReversesBacks(saved, HeaderPath(m));
    InUseSome(q);
  }

  /** Nor does a scan of the recipients, but for one jump where it skips the content. */
  lemma RcptScanCost(q: Queue, m: Map, saved: nat, a: seq<Item>)
    requires Inv(q, m) && a <= EnvelopePath(m)
    ensures Reverses(saved, a) <= Load(q, m) + 1
  {
    hide Reverses, Backs, Stored, Distinct, InUse, Markers, Anchored, HeaderPart, BodyPart, Succ, SavedAfter;
    var x, y := m.c[..m.mesg], m.c[m.xtra + 1..|m.c| - 1];
    ReversesPrefix(saved, a, x + y);
    ReversesConcat(saved, x, y);
    ReversesBacks(saved, x);
    ReversesBacks(SavedAfter(saved, x), y);
    BacksConcat(x, y);
    InUseSome(q);
  }

  /** A reader of the whole file, from its start. */
  lemma ReaderCost(q: Queue, m: Map)
    requires Inv(q, m)
    ensures Reverses(0, m.c) <= Load(q, m) + 1
  {
    hide Reverses, Backs, Stored, Distinct, InUse, Anchored, HeaderPart, BodyPart, Succ;
    ReversesBacks(0, m.c);
    WholeBacks(q, m);
  }

  lemma MarkerNoBack(x: Item)
    requires x.rec.typ != PTR
    ensures Backs([x]) == 0
  {
    NoJumpsNoBacks([x]);
  }

  lemma BacksOne(x: Item)
    ensures Backs([x]) <= 1 && (!Back(x) ==> Backs([x]) == 0)
  {
    assert [x][..0] == [];
  }

  lemma WholeBacks(q: Queue, m: Map)
    requires Inv(q, m)
    ensures Backs(m.c) <= Load(q, m) + 1
  {
    hide Backs, Path, InUse, Anchored, HeaderPart, BodyPart;
    var n := |m.c|;
    var env, hdrs, body, ext := m.c[..m.mesg], HeaderPath(m), BodyPath(m), m.c[m.xtra + 1..n - 1];
    var mesg, hdr, xtra, end := [m.c[m.mesg]], [m.c[m.hdr]], [m.c[m.xtra]], [m.c[n - 1]];
    assert Marked(mesg[0].rec.typ, m.mesg, m) && Marked(xtra[0].rec.typ, m.xtra, m) && Marked(end[0].rec.typ, n - 1, m);
    assert m.c == env + mesg + hdrs + hdr + body + xtra + ext + end;
    hide HeaderPath, BodyPath, Markers;
    MarkerNoBack(mesg[0]);
    MarkerNoBack(xtra[0]);
    MarkerNoBack(end[0]);
    BacksOne(hdr[0]);
    BacksConcat(env, mesg);
    BacksConcat(env + mesg, hdrs);
    BacksConcat(env + mesg + hdrs, hdr);
    BacksConcat(env + mesg + hdrs + hdr, body);
    BacksConcat(env + mesg + hdrs + hdr + body, xtra);
    BacksConcat(env + mesg + hdrs + hdr + body + xtra, ext);
    BacksConcat(env + mesg + hdrs + hdr + body + xtra + ext, end);
    BacksConcat(env, ext);
  }

  // ----- What an edit adds -----

  /** New records behind the file: only the last one may lead back. */
  lemma RowBacks(o: nat, rs: seq<Rec>)
    requires Flows(rs)
    ensures Backs(Row(o, rs)) <= 1
  {
    if rs != [] {
      hide Backs, Jumps, Readable, Row;
      var n := |rs| - 1;
      assert rs == rs[..n] + [rs[n]];
      RowConcat(o, rs[..n], [rs[n]]);
      RowShape(o, rs[..n]);
      RowOne(o + SizeAll(rs[..n]), rs[n]);
      NoJumpsNoBacks(Row(o, rs[..n]));
      BacksConcat(Row(o, rs[..n]), [Item(o + SizeAll(rs[..n]), rs[n])]);
      BacksOne(Item(o + SizeAll(rs[..n]), rs[n]));
    }
  }

  /** ... and a pointer from within the file to them leads forward. */
  lemma CommitBacks(end: nat, off: nat, rs: seq<Rec>)
    requires Flows(rs) && off < end < PTR_LIMIT
    ensures Backs([Item(off, PtrRec(end))] + Row(end, rs)) <= 1
  {
    hide Backs, PtrRec, Flows, Row;
    PtrRoundTrip(end);
    BacksOne(Item(off, PtrRec(end)));
    RowBacks(end, rs);
    BacksConcat([Item(off, PtrRec(end))], Row(end, rs));
  }

  lemma BacksReplace(c: seq<Item>, c': seq<Item>, i: nat, j: nat, mid: seq<Item>)
    requires i <= j <= |c| && c' == c[..i] + mid + c[j..] && Backs(mid) <= 1
    ensures Backs(c') <= Backs(c) + 1
  {
    hide Backs;
    assert c == c[..i] + c[i..j] + c[j..];
    BacksConcat(c[..i], mid);
    BacksConcat(c[..i] + mid, c[j..]);
    BacksConcat(c[..i], c[i..j]);
    BacksConcat(c[..i] + c[i..j], c[j..]);
  }

  /** A slice up to i, and from j on. */
  lemma SliceEnds(c: seq<Item>, s: nat, i: nat, j: nat, e: nat)
    requires s <= i <= j <= e <= |c|
    ensures c[s..e][..i - s] == c[s..i] && c[s..e][j - s..] == c[j..e]
  {
  }

  /** A header edit. */
  lemma EditedLoad(q: Queue, m: Map, q': Queue, i: nat, j: nat, mid: seq<Item>, x: Item)
    requires Ordered(m) && m.mesg < i <= j <= m.hdr && Backs(mid) <= 1
    requires q'.free == q.free && InUse(q') == InUse(q) && Ordered(Edited(m, i, j, mid, x))
    ensures Load(q', Edited(m, i, j, mid, x)) <= Load(q, m) + 1
  {
    hide Backs, Edited, InUse;
    var m' := Edited(m, i, j, mid, x);
    EditedMarks(m, i, j, mid, x);
    EditedParts(m, i, j, mid, x);
    EditedHigh(m, i, j, mid, x, m.hdr + 1, m.xtra);
    EditedHigh(m, i, j, mid, x, m.xtra + 1, |m.c| - 1);
    var h, s := HeaderPath(m), m.mesg + 1;
    SliceEnds(m.c, s, i, j, m.hdr);
    BacksReplace(h, HeaderPath(m'), i - s, j - s, mid);
  }
}
