/** The queue file as the cleanup server writes it while it receives a message: one row of
    records, with dummy pointers where later edits may append (src/cleanup/cleanup_addr.c,
    cleanup_envelope.c, cleanup_message.c, cleanup_extracted.c). */
module Starting {
  import opened Records
  import opened Chain
  import opened Headers
  import opened Rendering
  import opened Layout
  import opened HeaderEdits
  import opened Following
  import opened JumpLoad
  import opened HeaderOps
  import opened EnvelopeEdits

  /** What was received.  Headers are followed by those that the server generates itself.  The
      extracted part has records without recipients, the pointer for later ones of that kind, more
      records, and what is added at the end; the recipient append pointer is at the end of the
      envelope, or else before the last of these. */
  datatype Received = Received(
    before: seq<Rec>, sender: seq<byte>, after: seq<Rec>, rcptInEnv: bool,
    headers: seq<seq<byte>>, generated: seq<seq<byte>>, body: seq<Rec>,
    ext: seq<Rec>, more: seq<Rec>, extra: seq<Rec>)

  function RenderAll(texts: seq<seq<byte>>, lim: Limits): seq<Rec>
    requires lim.line >= 1
  {
    if texts == [] then [] else Render(texts[0], lim) + RenderAll(texts[1..], lim)
  }

  /** Headers that were not received: cut at the line length limit, but not padded. */
  function GeneratedAll(texts: seq<seq<byte>>, lim: Limits): seq<Rec>
    requires lim.line >= 1
  {
    if texts == [] then [] else Chunks(NORM, texts[0], lim.line) + GeneratedAll(texts[1..], lim)
  }

  function Heads(d: Received, lim: Limits): seq<Rec>
    requires lim.line >= 1
  {
    RenderAll(d.headers, lim) + GeneratedAll(d.generated, lim)
  }

  function Dummy(b: bool): seq<Rec> { if b then [PtrRec(0)] else [] }

  /** Envelope up to the recipient append pointer or the start-of-content marker. */
  function Part1(d: Received): seq<Rec> { d.before + SenderRecs([], d.sender) + d.after }

  /** ... and the rest, up to and including that marker. */
  function Part2(d: Received): seq<Rec> { Part1(d) + Dummy(d.rcptInEnv) }

  function Part3(d: Received, lim: Limits): seq<Rec>
    requires lim.line >= 1
  {
    Part2(d) + [Rec(MESG, [])] + Heads(d, lim)
  }

  function Part4(d: Received, lim: Limits): seq<Rec>
    requires lim.line >= 1
  {
    Part3(d, lim) + [PtrRec(0)] + (d.body + [PtrRec(0)])
  }

  /** Extracted records before the recipient append pointer. */
  function Ext(d: Received): seq<Rec> { d.ext + [PtrRec(0)] + d.more }

  function Part5(d: Received, lim: Limits): seq<Rec>
    requires lim.line >= 1
  {
    Part4(d, lim) + [Rec(XTRA, [])] + Ext(d)
  }

  /** All records of the starting file. */
  function AllRecs(d: Received, lim: Limits): seq<Rec>
    requires lim.line >= 1
  {
    Part5(d, lim) + Dummy(!d.rcptInEnv) + d.extra + [Rec(END, [])]
  }

  /** Text of the message, as the body callback writes it. */
  predicate TextRec(r: Rec) { IsText(r) && |r.data| < MAX_PAYLOAD }

  ghost predicate Sensible(d: Received) {
    && AllEnv(d.before) && AllEnv(d.after) && AllEnv(d.ext) && AllEnv(d.more) && AllEnv(d.extra)
    && |d.sender| < MAX_PAYLOAD
    && forall k :: 0 <= k < |d.body| ==> TextRec(d.body[k])
  }

  function StartQueue(d: Received, lim: Limits): Queue
    requires lim.line >= 1
  {
    var content := SizeAll(Part3(d, lim));
    var extracted := SizeAll(Part4(d, lim));
    Queue(lim, EncAll(AllRecs(d, lim)),
          SizeAll(Part2(d) + [Rec(MESG, [])]), content + Size(PtrRec(0)), extracted,
          content, content + Size(PtrRec(0)),
          if d.rcptInEnv then SizeAll(Part1(d)) else SizeAll(Part5(d, lim)),
          if d.rcptInEnv then SizeAll(Part2(d)) else SizeAll(Part5(d, lim)) + Size(PtrRec(0)),
          SizeAll(d.before), SizeAll(d.before + SenderRecs([], d.sender)),
          [], [], extracted - SizeAll(Part2(d) + [Rec(MESG, [])]))
  }

  ghost function StartMap(d: Received, lim: Limits): Map
    requires lim.line >= 1
  {
    Map(Row(0, AllRecs(d, lim)), |d.before|,
        if d.rcptInEnv then |Part1(d)| else |Part5(d, lim)|,
        |Part2(d)|, |Part3(d, lim)|, |Part4(d, lim)|)
  }

  // ----- Rows -----

  /** Offset of record k in the row, when the row splits there. */
  lemma RowSplit(a: seq<Rec>, b: seq<Rec>)
    ensures |Row(0, a + b)| == |a| + |b|
    ensures b != [] ==> Row(0, a + b)[|a|] == Item(SizeAll(a), b[0])
    ensures forall k :: 0 <= k < |a| ==> Limit(Row(0, a + b)[k]) <= SizeAll(a)
    ensures forall k :: |a| <= k < |a| + |b| ==> SizeAll(a) <= Row(0, a + b)[k].off
    ensures forall k :: 0 <= k < |a| + |b| ==> Row(0, a + b)[k].rec == (a + b)[k]
  {
    hide Row, SizeAll, Size;
    RowConcat(0, a, b);
    RowShape(0, a);
    RowShape(SizeAll(a), b);
    RowShape(0, a + b);
    var c, ra, rb := Row(0, a + b), Row(0, a), Row(SizeAll(a), b);
    forall k | 0 <= k < |a| ensures Limit(c[k]) <= SizeAll(a) { assert c[k] == ra[k]; }
    forall k | |a| <= k < |a| + |b| ensures SizeAll(a) <= c[k].off { assert c[k] == rb[k - |a|]; }
  }

  /** Splits the whole row after a given prefix. */
  lemma Cut(d: Received, lim: Limits, a: seq<Rec>)
    requires lim.line >= 1 && a <= AllRecs(d, lim) && |a| < |AllRecs(d, lim)|
    ensures var c, all := StartMap(d, lim).c, AllRecs(d, lim);
            && |c| == |all| && c[|a|] == Item(SizeAll(a), all[|a|])
            && (forall k :: 0 <= k < |a| ==> Limit(c[k]) <= SizeAll(a))
            && (forall k :: |a| <= k < |c| ==> SizeAll(a) <= c[k].off)
            && (forall k :: 0 <= k < |c| ==> c[k].rec == all[k])
  {
    hide AllRecs, Row, SizeAll;
    var all := AllRecs(d, lim);
    var b := all[|a|..];
    assert all == a + b;
    RowSplit(a, b);
  }

  /** The parts follow each other. */
  lemma Parts(d: Received, lim: Limits)
    requires lim.line >= 1
    ensures d.before <= Part1(d) <= Part2(d) <= Part3(d, lim) <= Part4(d, lim) <= Part5(d, lim) <= AllRecs(d, lim)
    ensures |Part4(d, lim)| == |Part3(d, lim)| + |d.body| + 2
    ensures |Part5(d, lim)| == |Part4(d, lim)| + 1 + |Ext(d)|
    ensures |AllRecs(d, lim)| == |Part5(d, lim)| + |Dummy(!d.rcptInEnv)| + |d.extra| + 1
    ensures |Part3(d, lim)| == |Part2(d)| + 1 + |Heads(d, lim)|
  {
    hide Heads, Ext, SenderRecs, PtrRec;
  }

  /** What stands at the key positions of the row. */
  lemma KeyRecords(d: Received, lim: Limits)
    requires Sane(lim)
    ensures var all := AllRecs(d, lim); var n1, n2, n3, n4, n5 := |Part1(d)|, |Part2(d)|, |Part3(d, lim)|, |Part4(d, lim)|, |Part5(d, lim)|;
            && |d.before| < |all| && all[|d.before|] == Rec(FROM, d.sender)
            && (|d.sender| < PTR_PAYLOAD ==> |d.before| + 1 < n1 && all[|d.before| + 1] == PadRec(PTR, PTR_PAYLOAD - |d.sender|))
            && n2 < n3 < n4 < n5 + 1 < |all| + 1 && all[n2] == Rec(MESG, []) && all[n3] == PtrRec(0) && all[n4] == Rec(XTRA, [])
            && all[|all| - 1] == Rec(END, []) && n4 < |all| - 1
            && (d.rcptInEnv ==> n1 < n2 && all[n1] == PtrRec(0))
            && (!d.rcptInEnv ==> n4 < n5 < |all| - 1 && all[n5] == PtrRec(0))
  {
    hide Heads, Ext, PtrRec, RightAlign;
    Parts(d, lim);
  }

  // ----- Kinds of records -----

  predicate Quiet(r: Rec) { Readable(r) && !Jumps(r) }

  predicate Neutral(r: Rec) { Quiet(r) && r.typ != FROM && Unmarked(r.typ) }

  ghost predicate AllNeutral(rs: seq<Rec>) { forall k :: 0 <= k < |rs| ==> Neutral(rs[k]) }

  lemma NeutralJoin(a: seq<Rec>, b: seq<Rec>)
    requires AllNeutral(a) && AllNeutral(b)
    ensures AllNeutral(a + b)
  {
    hide Neutral;
  }

  lemma NeutralDummy(b: bool)
    ensures AllNeutral(Dummy(b)) && Neutral(PtrRec(0))
  {
    Pow15();
    AlignedTarget(0, PTR_PAYLOAD);
    PtrRoundTrip(0);
    hide Target, RightAlign;
  }

  lemma NeutralEnv(rs: seq<Rec>)
    requires AllEnv(rs)
    ensures AllNeutral(rs)
  {
    hide Target;
    forall k | 0 <= k < |rs| ensures Neutral(rs[k]) { assert EnvRec(rs[k]); }
  }

  lemma NeutralPlain(rs: seq<Rec>, limit: nat)
    requires AllPlain(rs, limit)
    ensures AllNeutral(rs)
  {
    hide Target;
    forall k | 0 <= k < |rs| ensures Neutral(rs[k]) { assert Plain(rs[k], limit); }
  }

  lemma NeutralPad(addr: seq<byte>)
    ensures AllNeutral(SenderPadding(addr))
  {
    if |addr| < PTR_PAYLOAD { PadFills(Rec(FROM, addr), PTR); }
    hide Target, RightAlign;
  }

  lemma {:induction false} HeadersPlain(texts: seq<seq<byte>>, lim: Limits)
    requires Sane(lim)
    ensures AllPlain(RenderAll(texts, lim), lim.line)
  {
    if texts != [] {
      RenderShape(texts[0], lim);
      HeadersPlain(texts[1..], lim);
      hide Render, FindEnd, Shown, RenderAll, Plain;
      PlainJoin(Render(texts[0], lim), RenderAll(texts[1..], lim), lim.line);
      assert RenderAll(texts, lim) == Render(texts[0], lim) + RenderAll(texts[1..], lim) by { RenderAllStep(texts, lim); }
    }
  }

  lemma {:induction false} GeneratedPlain(texts: seq<seq<byte>>, lim: Limits)
    requires Sane(lim)
    ensures AllPlain(GeneratedAll(texts, lim), lim.line)
  {
    if texts != [] {
      ChunksContinue(texts[0], lim.line, true);
      GeneratedPlain(texts[1..], lim);
      hide Chunks, FindEnd, Shown, GeneratedAll, Plain;
      PlainJoin(Chunks(NORM, texts[0], lim.line), GeneratedAll(texts[1..], lim), lim.line);
      GeneratedStep(texts, lim);
    }
  }

  lemma GeneratedStep(texts: seq<seq<byte>>, lim: Limits)
    requires lim.line >= 1 && texts != []
    ensures GeneratedAll(texts, lim) == Chunks(NORM, texts[0], lim.line) + GeneratedAll(texts[1..], lim)
  {
  }

  lemma HeadsPlain(d: Received, lim: Limits)
    requires Sane(lim)
    ensures AllPlain(Heads(d, lim), lim.line)
  {
    hide RenderAll, GeneratedAll, Plain;
    HeadersPlain(d.headers, lim);
    GeneratedPlain(d.generated, lim);
    PlainJoin(RenderAll(d.headers, lim), GeneratedAll(d.generated, lim), lim.line);
  }

  lemma RenderAllStep(texts: seq<seq<byte>>, lim: Limits)
    requires lim.line >= 1 && texts != []
    ensures RenderAll(texts, lim) == Render(texts[0], lim) + RenderAll(texts[1..], lim)
  {
  }

  lemma PlainJoin(a: seq<Rec>, b: seq<Rec>, limit: nat)
    requires AllPlain(a, limit) && AllPlain(b, limit)
    ensures AllPlain(a + b, limit)
  {
    hide Plain;
  }

  lemma NeutralBody(rs: seq<Rec>)
    requires forall k :: 0 <= k < |rs| ==> TextRec(rs[k])
    ensures AllNeutral(rs)
  {
    hide Target;
  }

  lemma NeutralExt(d: Received)
    requires Sensible(d)
    ensures AllNeutral(Ext(d))
  {
    hide PtrRec, Neutral, EnvRec;
    NeutralEnv(d.ext);
    NeutralEnv(d.more);
    NeutralDummy(true);
    NeutralJoin(d.ext, [PtrRec(0)]);
    NeutralJoin(d.ext + [PtrRec(0)], d.more);
  }

  /** The row is made of the four markers and the sender, with neutral records between. */
  lemma Skeleton(d: Received, lim: Limits)
    requires Sane(lim) && Sensible(d)
    ensures var x1 := SenderPadding(d.sender) + d.after + Dummy(d.rcptInEnv);
            var x2 := Heads(d, lim) + [PtrRec(0)] + (d.body + [PtrRec(0)]);
            var x3 := Ext(d) + Dummy(!d.rcptInEnv) + d.extra;
            && AllNeutral(d.before) && AllNeutral(x1) && AllNeutral(x2) && AllNeutral(x3)
            && AllRecs(d, lim) == d.before + [Rec(FROM, d.sender)] + x1 + [Rec(MESG, [])] + x2 + [Rec(XTRA, [])] + x3 + [Rec(END, [])]
  {
    hide Heads, Ext, PtrRec, Neutral, EnvRec, SenderPadding;
    var pad, r1, r2 := SenderPadding(d.sender), Dummy(d.rcptInEnv), Dummy(!d.rcptInEnv);
    NeutralEnv(d.before);
    NeutralEnv(d.after);
    NeutralExt(d);
    NeutralEnv(d.extra);
    NeutralPad(d.sender);
    NeutralDummy(true);
    HeadsPlain(d, lim);
    NeutralPlain(Heads(d, lim), lim.line);
    NeutralBody(d.body);
    NeutralJoin(pad, d.after);
    NeutralJoin(pad + d.after, r1);
    NeutralJoin(Ext(d), r2);
    NeutralJoin(Ext(d) + r2, d.extra);
    NeutralJoin(Heads(d, lim), [PtrRec(0)]);
    NeutralJoin(d.body, [PtrRec(0)]);
    NeutralJoin(Heads(d, lim) + [PtrRec(0)], d.body + [PtrRec(0)]);
    SkeletonText(d, lim);
  }

  lemma SkeletonText(d: Received, lim: Limits)
    requires lim.line >= 1
    ensures var x1 := SenderPadding(d.sender) + d.after + Dummy(d.rcptInEnv);
            var x2 := Heads(d, lim) + [PtrRec(0)] + (d.body + [PtrRec(0)]);
            var x3 := Ext(d) + Dummy(!d.rcptInEnv) + d.extra;
            AllRecs(d, lim) == d.before + [Rec(FROM, d.sender)] + x1 + [Rec(MESG, [])] + x2 + [Rec(XTRA, [])] + x3 + [Rec(END, [])]
  {
    hide Heads, Ext, PtrRec, SenderPadding;
    var f, h, p, n := [Rec(FROM, d.sender)], Heads(d, lim), [PtrRec(0)], [Rec(MESG, [])];
    var pad, r1, r2 := SenderPadding(d.sender), Dummy(d.rcptInEnv), Dummy(!d.rcptInEnv);
    assert SenderRecs([], d.sender) == f + pad;
    assert Part1(d) == d.before + f + pad + d.after;
    assert Part2(d) == d.before + f + (pad + d.after + r1);
    assert Part4(d, lim) == Part2(d) + n + (h + p + (d.body + p));
    assert AllRecs(d, lim) == Part4(d, lim) + [Rec(XTRA, [])] + (Ext(d) + r2 + d.extra) + [Rec(END, [])];
  }

  /** Records between the markers are neutral; the markers stand where they should. */
  lemma StartMarkers(d: Received, lim: Limits)
    requires Sane(lim) && Sensible(d)
    ensures Ordered(StartMap(d, lim)) && Markers(StartMap(d, lim)) && Flows(AllRecs(d, lim))
  {
    hide Heads, PtrRec, EnvRec, SenderPadding, Row, Readable, Jumps;
    Parts(d, lim);
    KeyRecords(d, lim);
    Skeleton(d, lim);
    var m, all := StartMap(d, lim), AllRecs(d, lim);
    RowShape(0, all);
    hide AllRecs, Part1, Part2, Part3, Part4, Part5, Dummy, Sensible;
    forall k | 0 <= k < |all|
      ensures Marked(all[k].typ, k, m) && Quiet(all[k])
    {
      Between(d, lim, k);
    }
  }

  /** Neutral records, with four others between them. */
  lemma AtSection(h: seq<Rec>, f: Rec, x1: seq<Rec>, g: Rec, x2: seq<Rec>, x: Rec, x3: seq<Rec>, e: Rec, k: nat)
    requires AllNeutral(h) && AllNeutral(x1) && AllNeutral(x2) && AllNeutral(x3)
    requires k < |h + [f] + x1 + [g] + x2 + [x] + x3 + [e]|
    ensures var r := (h + [f] + x1 + [g] + x2 + [x] + x3 + [e])[k];
            var a, b := |h| + 1 + |x1|, |h| + 1 + |x1| + 1 + |x2|;
            if k == |h| then r == f else if k == a then r == g else if k == b then r == x
            else if k == b + 1 + |x3| then r == e else Neutral(r)
  {
    hide Neutral;
    var all := h + [f] + x1 + [g] + x2 + [x] + x3 + [e];
    var a, b := |h| + 1 + |x1|, |h| + 1 + |x1| + 1 + |x2|;
    if k < |h| {
      assert all[k] == h[k];
    } else if |h| < k < a {
      assert all[k] == x1[k - |h| - 1];
    } else if a < k < b {
      assert all[k] == x2[k - a - 1];
    } else if b < k < b + 1 + |x3| {
      assert all[k] == x3[k - b - 1];
    }
  }

  lemma Between(d: Received, lim: Limits, k: nat)
    requires Sane(lim) && Sensible(d) && k < |AllRecs(d, lim)|
    ensures var m, r := StartMap(d, lim), AllRecs(d, lim)[k];
            && Quiet(r)
            && if k == m.from then r.typ == FROM else if k == m.mesg then r.typ == MESG
               else if k == m.xtra then r.typ == XTRA else if k == |AllRecs(d, lim)| - 1 then r.typ == END
               else Neutral(r)
  {
    hide Heads, Ext, PtrRec, SenderPadding, Row, AllRecs, Neutral, Quiet, Dummy, Part1, Part2, Part3, Part4, Part5,
         AllNeutral, AllEnv, TextRec;
    Skeleton(d, lim);
    Lengths(d, lim);
    MarkersQuiet(d.sender);
    var x1 := SenderPadding(d.sender) + d.after + Dummy(d.rcptInEnv);
    var x2 := Heads(d, lim) + [PtrRec(0)] + (d.body + [PtrRec(0)]);
    var x3 := Ext(d) + Dummy(!d.rcptInEnv) + d.extra;
    AtSection(d.before, Rec(FROM, d.sender), x1, Rec(MESG, []), x2, Rec(XTRA, []), x3, Rec(END, []), k);
    NeutralQuiet();
  }

  lemma NeutralQuiet()
    ensures forall r :: Neutral(r) ==> Quiet(r)
  {
  }

  lemma MarkersQuiet(sender: seq<byte>)
    requires |sender| < MAX_PAYLOAD
    ensures Quiet(Rec(FROM, sender)) && Quiet(Rec(MESG, [])) && Quiet(Rec(XTRA, [])) && Quiet(Rec(END, []))
  {
  }

  lemma Lengths(d: Received, lim: Limits)
    requires lim.line >= 1
    ensures var x1 := SenderPadding(d.sender) + d.after + Dummy(d.rcptInEnv);
            var x2 := Heads(d, lim) + [PtrRec(0)] + (d.body + [PtrRec(0)]);
            var x3 := Ext(d) + Dummy(!d.rcptInEnv) + d.extra;
            && |Part2(d)| == |d.before| + 1 + |x1| && |Part4(d, lim)| == |d.before| + 1 + |x1| + 1 + |x2|
            && |AllRecs(d, lim)| == |d.before| + 1 + |x1| + 1 + |x2| + 1 + |x3| + 1
  {
    hide Heads, Ext, PtrRec, SenderPadding;
  }

  // ----- Anchors -----

  lemma SizeOne(a: seq<Rec>, r: Rec)
    ensures SizeAll(a + [r]) == SizeAll(a) + Size(r)
  {
    SizeAllConcat(a, [r]);
    assert [r][1..] == [];
  }

  /** Prefixes of the row at which the editor has an anchor. */
  lemma AnchorPrefixes(d: Received, lim: Limits)
    requires Sane(lim)
    ensures var all := AllRecs(d, lim);
            && d.before <= all && d.before + SenderRecs([], d.sender) <= all && Part1(d) <= all && Part2(d) <= all
            && Part2(d) + [Rec(MESG, [])] <= all && Part3(d, lim) <= all && Part3(d, lim) + [PtrRec(0)] <= all
            && Part4(d, lim) <= all && Part5(d, lim) <= all && (!d.rcptInEnv ==> Part5(d, lim) + [PtrRec(0)] <= all)
  {
    hide Heads, Ext, PtrRec, SenderRecs;
    Parts(d, lim);
  }

  lemma StartContent(d: Received, lim: Limits)
    requires Sane(lim) && Sensible(d)
    ensures var q, m := StartQueue(d, lim), StartMap(d, lim);
            && Ordered(m) && m.c[0].off == 0
            && q.dataOffset == m.c[m.mesg + 1].off && q.xtraOffset == m.c[m.xtra].off
            && Slot(m.c[m.hdr].rec) && q.hdrPt == m.c[m.hdr].off && q.hdrTarget == m.c[m.hdr + 1].off == q.bodyOffset
  {
    hide Heads, PtrRec, SenderRecs, Sensible, Markers, Flows, AllRecs, Row, SizeAll, Size, Part1, Part2, Part3, Part4, Part5;
    StartMarkers(d, lim);
    AnchorPrefixes(d, lim);
    KeyRecords(d, lim);
    Parts(d, lim);
    DummySlot();
    SizeOne(Part3(d, lim), PtrRec(0));
    Cut(d, lim, []);
    EmptySize();
    Cut(d, lim, Part2(d) + [Rec(MESG, [])]);
    Cut(d, lim, Part3(d, lim));
    Cut(d, lim, Part3(d, lim) + [PtrRec(0)]);
    Cut(d, lim, Part4(d, lim));
  }

  lemma EmptySize()
    ensures SizeAll([]) == 0
  {
  }

  lemma DummySlot()
    ensures Slot(PtrRec(0))
  {
    PtrRoundTrip(0);
  }

  lemma StartRcpt(d: Received, lim: Limits)
    requires Sane(lim) && Sensible(d)
    ensures var q, m := StartQueue(d, lim), StartMap(d, lim);
            && Ordered(m) && Slot(m.c[m.rcpt].rec) && q.rcptPt == m.c[m.rcpt].off && q.rcptTarget == m.c[m.rcpt + 1].off
  {
    hide Heads, PtrRec, SenderRecs, Sensible, AllRecs, Row, SizeAll, Size, Part1, Part2, Part3, Part4, Part5, PadRec, Target,
         Markers, Flows;
    StartMarkers(d, lim);
    AnchorPrefixes(d, lim);
    KeyRecords(d, lim);
    Parts(d, lim);
    DummySlot();
    SizeOne(Part5(d, lim), PtrRec(0));
    RcptPart(d);
    if d.rcptInEnv {
      Cut(d, lim, Part1(d));
      Cut(d, lim, Part2(d));
    } else {
      Cut(d, lim, Part5(d, lim));
      Cut(d, lim, Part5(d, lim) + [PtrRec(0)]);
    }
  }

  lemma RcptPart(d: Received)
    ensures |Part2(d)| == |Part1(d)| + if d.rcptInEnv then 1 else 0
  {
  }

  lemma StartSender(d: Received, lim: Limits)
    requires Sane(lim) && Sensible(d)
    ensures var q, m := StartQueue(d, lim), StartMap(d, lim);
            && Ordered(m) && SenderRoom(m) && q.senderPt == m.c[m.from].off && q.senderTarget == m.c[SenderEnd(m)].off
  {
    hide Heads, PtrRec, SenderRecs, Sensible, AllRecs, Row, SizeAll, Size, Part1, Part2, Part3, Part4, Part5, PadRec, Target,
         Markers, Flows;
    StartMarkers(d, lim);
    AnchorPrefixes(d, lim);
    KeyRecords(d, lim);
    Parts(d, lim);
    SenderLengths(d);
    RcptPart(d);
    if |d.sender| < PTR_PAYLOAD { PadFills(Rec(FROM, d.sender), PTR); PadType(d.sender); }
    Cut(d, lim, d.before);
    Cut(d, lim, d.before + SenderRecs([], d.sender));
  }

  lemma PadType(addr: seq<byte>)
    requires |addr| < PTR_PAYLOAD
    ensures PadRec(PTR, PTR_PAYLOAD - |addr|).typ == PTR
  {
  }

  lemma SenderLengths(d: Received)
    ensures |d.before + SenderRecs([], d.sender)| == |d.before| + if |d.sender| < PTR_PAYLOAD then 2 else 1
    ensures |d.before + SenderRecs([], d.sender)| <= |Part1(d)|
  {
    hide RightAlign;
  }

  // ----- Headers -----

  lemma {:induction false} PaddedAll(o: nat, texts: seq<seq<byte>>, lim: Limits)
    requires Sane(lim)
    ensures Padded(Row(o, RenderAll(texts, lim)), false) && !ContAfter(Row(o, RenderAll(texts, lim)), false)
    decreases |texts|
  {
    hide Render;
    if texts != [] {
      var a, b := Render(texts[0], lim), RenderAll(texts[1..], lim);
      RenderAllStep(texts, lim);
      PaddedRender(o, texts[0], lim, false);
      PaddedAll(o + SizeAll(a), texts[1..], lim);
      RowConcat(o, a, b);
      hide Padded, ContAfter, Row;
      PaddedJoin(Row(o, a), Row(o + SizeAll(a), b), false);
      ContAfterConcat(Row(o, a), Row(o + SizeAll(a), b), false);
    }
  }

  /** A label that stands in a record too short for a pointer. */
  predicate Unpadded(text: seq<byte>) { |text| < PTR_PAYLOAD && LabelLen(text) > 0 }

  predicate Roomed(texts: seq<seq<byte>>) { forall i :: 0 <= i < |texts| ==> !Unpadded(texts[i]) }

  /** A From: header that has nothing but the address. */
  function FromHeader(addr: seq<byte>): seq<byte> { [70, 114, 111, 109] + ([COLON, SPACE] + addr) }

  lemma ShortFrom(addr: seq<byte>)
    ensures Unpadded(FromHeader(addr)) <==> |addr| <= 8
  {
    ScanLabelName([70, 114, 111, 109], [COLON, SPACE] + addr, Init, 0);
    hide ScanLabel;
  }

  lemma ChunkRow(o: nat, text: seq<byte>, lim: Limits)
    requires Sane(lim)
    ensures var row := Row(o, Chunks(NORM, text, lim.line));
            && row != [] && row[0].rec.typ != DTXT && !ContAfter(row, false) && (Padded(row, false) <==> !Unpadded(text))
  {
    hide FindEnd, Shown, Size, Plain;
    var rs, n := Chunks(NORM, text, lim.line), lim.line;
    if |text| > n {
      var t := Chunks(NORM, text[n..], n);
      ChunksContinue(text[n..], n, true);
      assert rs[1..] == t;
      PaddedContinued(o + Size(rs[0]), t, n, true);
      assert Row(o, rs)[1..] == Row(o + Size(rs[0]), t);
    } else {
      RowOne(o, rs[0]);
      assert [Item(o, rs[0])][1..] == [];
    }
  }

  /** Generated headers leave room for a pointer exactly if none is short. */
  lemma {:induction false} PaddedGenerated(o: nat, texts: seq<seq<byte>>, lim: Limits)
    requires Sane(lim)
    ensures var row := Row(o, GeneratedAll(texts, lim));
            && !ContAfter(row, false) && (row != [] ==> row[0].rec.typ != DTXT) && (Padded(row, false) <==> Roomed(texts))
    decreases |texts|
  {
    hide Chunks, Unpadded;
    if texts != [] {
      var a, b := Chunks(NORM, texts[0], lim.line), GeneratedAll(texts[1..], lim);
      ChunkRow(o, texts[0], lim);
      PaddedGenerated(o + SizeAll(a), texts[1..], lim);
      RowConcat(o, a, b);
      hide Padded, ContAfter, Row;
      ContAfterConcat(Row(o, a), Row(o + SizeAll(a), b), false);
      PaddedParts(Row(o, a), Row(o + SizeAll(a), b));
      assert texts == [texts[0]] + texts[1..];
    }
  }

  lemma PaddedParts(a: seq<Item>, b: seq<Item>)
    requires !ContAfter(a, false) && (b != [] ==> b[0].rec.typ != DTXT)
    ensures Padded(a + b, false) <==> Padded(a, false) && Padded(b, false)
  {
    hide Padded, ContAfter;
    if Padded(a + b, false) {
      PaddedPrefix(a, b, false);
      PaddedSuffix(a, b, false);
    } else if Padded(a, false) && Padded(b, false) {
      PaddedJoin(a, b, false);
    }
  }

  lemma PaddedHeads(o: nat, d: Received, lim: Limits)
    requires Sane(lim)
    ensures Padded(Row(o, Heads(d, lim)), false) <==> Roomed(d.generated)
  {
    hide RenderAll, GeneratedAll, Row, Padded, ContAfter, Roomed;
    var a, b := RenderAll(d.headers, lim), GeneratedAll(d.generated, lim);
    PaddedAll(o, d.headers, lim);
    PaddedGenerated(o + SizeAll(a), d.generated, lim);
    RowConcat(o, a, b);
    PaddedParts(Row(o, a), Row(o + SizeAll(a), b));
  }

  /** A slice of a row is the row of the slice. */
  lemma RowSlice(a: seq<Rec>, b: seq<Rec>, c: seq<Rec>)
    ensures |Row(0, a + b + c)| == |a| + |b| + |c|
    ensures Row(0, a + b + c)[|a|..|a| + |b|] == Row(SizeAll(a), b)
  {
    hide Row;
    RowConcat(0, a + b, c);
    RowConcat(0, a, b);
    RowShape(0, a);
    RowShape(SizeAll(a), b);
    RowShape(0, a + b + c);
  }

  lemma HeaderRow(d: Received, lim: Limits)
    requires Sane(lim) && Sensible(d)
    ensures var m := StartMap(d, lim);
            && Ordered(m)
            && m.c[m.mesg + 1..m.hdr] == Row(SizeAll(Part2(d) + [Rec(MESG, [])]), Heads(d, lim))
  {
    hide Heads, PtrRec, SenderRecs, Sensible, AllRecs, Row, SizeAll, Size, Part1, Part2, Part4, Part5, Markers, Flows;
    StartMarkers(d, lim);
    AnchorPrefixes(d, lim);
    Parts(d, lim);
    var a, b, all := Part2(d) + [Rec(MESG, [])], Heads(d, lim), AllRecs(d, lim);
    assert Part3(d, lim) == a + b;
    var c := all[|a + b|..];
    assert all == a + b + c;
    RowSlice(a, b, c);
  }

  lemma StartHeaderPart(d: Received, lim: Limits)
    requires Sane(lim) && Sensible(d)
    ensures Ordered(StartMap(d, lim)) && (HeaderPart(StartMap(d, lim), lim) <==> Roomed(d.generated))
  {
    hide Heads, SenderRecs, Sensible, Row, SizeAll, Padded, StartMap, Plain, Part2, HeaderRec, Roomed;
    HeaderRow(d, lim);
    HeadsPlain(d, lim);
    var o, hs, m := SizeAll(Part2(d) + [Rec(MESG, [])]), Heads(d, lim), StartMap(d, lim);
    PaddedHeads(o, d, lim);
    PlainKinds(hs, lim);
    RowShape(o, hs);
    var row := Row(o, hs);
    forall k | m.mesg < k < m.hdr ensures HeaderRec(m.c[k].rec, lim) {
      assert m.c[k] == m.c[m.mesg + 1..m.hdr][k - m.mesg - 1] == row[k - m.mesg - 1];
    }
  }

  lemma {:induction false} GeneratedSplit(texts: seq<seq<byte>>, i: nat, lim: Limits)
    requires lim.line >= 1 && i < |texts|
    ensures GeneratedAll(texts, lim)
         == GeneratedAll(texts[..i], lim) + (Chunks(NORM, texts[i], lim.line) + GeneratedAll(texts[i + 1..], lim))
  {
    hide Chunks;
    if i > 0 {
      GeneratedSplit(texts[1..], i - 1, lim);
      assert texts[1..][..i - 1] == texts[..i][1..];
    }
  }

  lemma GeneratedFirst(texts: seq<seq<byte>>, lim: Limits)
    requires lim.line >= 1
    ensures GeneratedAll(texts, lim) != [] ==> IsText(GeneratedAll(texts, lim)[0])
  {
    if texts != [] { ChunksText(NORM, texts[0], lim.line); }
  }

  /** A record that the editor takes for a header, and no padding behind it: the panic "short header
      without padding". */
  ghost predicate NoRoom(m: Map, k: nat)
    requires Ordered(m)
  {
    && m.mesg < k < m.hdr && |m.c[k].rec.data| < PTR_PAYLOAD && m.c[k + 1].rec.typ != DTXT
    && Starts(m.c[k].rec, ContAfter(m.c[m.mesg + 1..k], false))
  }

  lemma ShortRow(o: nat, d: Received, lim: Limits, i: nat) returns (n: nat)
    requires Sane(lim) && i < |d.generated| && Unpadded(d.generated[i])
    ensures var row := Row(o, Heads(d, lim));
            && n < |row| && row[n].rec == Rec(NORM, d.generated[i]) && !ContAfter(row[..n], false)
            && (n + 1 < |row| ==> row[n + 1].rec.typ != DTXT)
  {
    hide RenderAll, GeneratedAll, Row, Padded, ContAfter, LabelLen;
    var a, b, rest := RenderAll(d.headers, lim), GeneratedAll(d.generated[..i], lim), GeneratedAll(d.generated[i + 1..], lim);
    GeneratedSplit(d.generated, i, lim);
    GeneratedFirst(d.generated[i + 1..], lim);
    var x, y := a + b, [Rec(NORM, d.generated[i])] + rest;
    assert Heads(d, lim) == x + y;
    hide Heads, Chunks;
    PaddedAll(o, d.headers, lim);
    PaddedGenerated(o + SizeAll(a), d.generated[..i], lim);
    RowConcat(o, a, b);
    ContAfterConcat(Row(o, a), Row(o + SizeAll(a), b), false);
    RowConcat(o, x, y);
    RowShape(o, x);
    RowShape(o, x + y);
    n := |x|;
    assert Row(o, x + y)[..n] == Row(o, x);
  }

  /** Where the short header is. */
  lemma ShortGenerated(d: Received, lim: Limits, i: nat) returns (k: nat)
    requires Sane(lim) && Sensible(d) && i < |d.generated| && Unpadded(d.generated[i])
    ensures var m := StartMap(d, lim); Ordered(m) && NoRoom(m, k) && m.c[k].rec == Rec(NORM, d.generated[i])
  {
    hide Heads, SenderRecs, Sensible, Row, SizeAll, Size, StartMap, Part2, ContAfter;
    HeaderRow(d, lim);
    StartContent(d, lim);
    var o, m := SizeAll(Part2(d) + [Rec(MESG, [])]), StartMap(d, lim);
    var n := ShortRow(o, d, lim, i);
    k := m.mesg + 1 + n;
    var row := m.c[m.mesg + 1..m.hdr];
    SliceEnds(m.c, m.mesg + 1, k, k, m.hdr);
    assert m.c[k] == row[n] && (n + 1 < |row| ==> m.c[k + 1] == row[n + 1]);
  }

  // ----- Body -----

  lemma StartBodyPart(d: Received, lim: Limits)
    requires Sane(lim) && Sensible(d)
    ensures Ordered(StartMap(d, lim)) && BodyPart(StartQueue(d, lim), StartMap(d, lim))
  {
    hide Heads, PtrRec, SenderRecs, Sensible, AllRecs, Row, SizeAll, Size, Part1, Part2, Part3, Part4, Part5, StartMap, EncAll;
    StartContent(d, lim);
    AnchorPrefixes(d, lim);
    Parts(d, lim);
    EncAllSize(AllRecs(d, lim));
    BodyRoom(d, lim);
    SizeOne(Part3(d, lim), PtrRec(0));
    BodyCuts(d, lim);
    NoBodyYet(d, lim);
    hide StartQueue, BodyPart;
    OneRegion(StartQueue(d, lim), StartMap(d, lim));
  }

  lemma NoBodyYet(d: Received, lim: Limits)
    requires Sane(lim) && Sensible(d)
    ensures var q := StartQueue(d, lim);
            && q.free == q.body == [] && q.hdrTarget == q.bodyOffset && q.bodyOffset + PTR_SIZE <= q.xtraOffset <= |q.file|
  {
    hide Heads, PtrRec, SenderRecs, AllRecs, Row, SizeAll, Size, Part1, Part2, Part3, Part4, Part5, EncAll, Sensible;
    AnchorPrefixes(d, lim);
    Parts(d, lim);
    EncAllSize(AllRecs(d, lim));
    BodyRoom(d, lim);
    SizeOne(Part3(d, lim), PtrRec(0));
  }

  /** Before any body edit, the part of the file between the anchors is the one region. */
  lemma OneRegion(q: Queue, m: Map)
    requires Ordered(m) && q.free == q.body == [] && q.hdrTarget == q.bodyOffset
    requires q.bodyOffset + PTR_SIZE <= q.xtraOffset <= |q.file|
    requires forall k :: 0 <= k < m.hdr + 1 ==> Limit(m.c[k]) <= q.bodyOffset
    requires forall k :: m.hdr + 1 <= k < |m.c| ==> q.bodyOffset <= m.c[k].off
    requires forall k :: 0 <= k < m.xtra ==> Limit(m.c[k]) <= q.xtraOffset
    requires forall k :: m.xtra <= k < |m.c| ==> q.xtraOffset <= m.c[k].off
    ensures BodyPart(q, m)
  {
    hide AllOutside, EachInside, Outside, Inside;
    var r := Region(q.bodyOffset, q.xtraOffset - q.bodyOffset, q.bodyOffset);
    assert Regions(q) == [r] && InUse(q) == [r];
    var h, x := m.hdr + 1, m.xtra;
    forall k | 0 <= k < |m.c| ensures if h <= k < x then Inside(m.c[k], r) else Outside(m.c[k], r) {
      BesideRegion(m.c[k], r);
    }
    OutsideOne(m.c, 0, h, r);
    OutsideOne(m.c, x, |m.c|, r);
    InsideOne(m.c, h, x, r);
    assert m.c[..h] == m.c[0..h] && m.c[x..] == m.c[x..|m.c|];
  }

  lemma BesideRegion(x: Item, r: Region)
    ensures Limit(x) <= r.start || r.start + r.len <= x.off ==> Outside(x, r)
    ensures r.start <= x.off && Limit(x) <= r.start + r.len ==> Inside(x, r)
  {
    hide Size;
  }

  lemma OutsideOne(c: seq<Item>, a: nat, b: nat, r: Region)
    requires a <= b <= |c| && forall k :: a <= k < b ==> Outside(c[k], r)
    ensures AllOutside(c[a..b], [r])
  {
    hide Outside;
  }

  lemma InsideFirst(c: seq<Item>, rs: seq<Region>)
    requires rs != [] && forall k :: 0 <= k < |c| ==> Inside(c[k], rs[0])
    ensures EachInside(c, rs)
  {
    hide Inside;
    forall k | 0 <= k < |c| ensures InSome(c[k], rs) { assert Inside(c[k], rs[0]); }
  }

  lemma InsideOne(c: seq<Item>, a: nat, b: nat, r: Region)
    requires a <= b <= |c| && forall k :: a <= k < b ==> Inside(c[k], r)
    ensures EachInside(c[a..b], [r])
  {
    hide Inside, EachInside;
    assert forall k :: 0 <= k < b - a ==> c[a..b][k] == c[a + k];
    InsideFirst(c[a..b], [r]);
  }

  lemma BodyCuts(d: Received, lim: Limits)
    requires Sane(lim) && Sensible(d)
    ensures var q, m := StartQueue(d, lim), StartMap(d, lim);
            && Ordered(m)
            && (forall k :: 0 <= k < m.hdr + 1 ==> Limit(m.c[k]) <= q.bodyOffset)
            && (forall k :: m.hdr + 1 <= k < |m.c| ==> q.bodyOffset <= m.c[k].off)
            && (forall k :: 0 <= k < m.xtra ==> Limit(m.c[k]) <= q.xtraOffset)
            && (forall k :: m.xtra <= k < |m.c| ==> q.xtraOffset <= m.c[k].off)
  {
    hide Heads, PtrRec, SenderRecs, EnvRec, AllRecs, Row, SizeAll, Size, Part1, Part2, Part3, Part4, Part5, Markers, Flows;
    StartMarkers(d, lim);
    AnchorPrefixes(d, lim);
    Parts(d, lim);
    SizeOne(Part3(d, lim), PtrRec(0));
    Cut(d, lim, Part3(d, lim) + [PtrRec(0)]);
    Cut(d, lim, Part4(d, lim));
  }

  lemma SizePrefix(a: seq<Rec>, b: seq<Rec>)
    requires a <= b
    ensures SizeAll(a) <= SizeAll(b)
  {
    hide SizeAll;
    assert b == a + b[|a|..];
    SizeAllConcat(a, b[|a|..]);
  }

  lemma BodySize(d: Received, lim: Limits)
    requires lim.line >= 1
    ensures SizeAll(Part4(d, lim)) == SizeAll(Part3(d, lim) + [PtrRec(0)]) + SizeAll(d.body + [PtrRec(0)])
  {
    hide PtrRec, SizeAll, Part3;
    SizeAllConcat(Part3(d, lim) + [PtrRec(0)], d.body + [PtrRec(0)]);
  }

  lemma BodyRoom(d: Received, lim: Limits)
    requires Sane(lim)
    ensures SizeAll(Part4(d, lim)) >= SizeAll(Part3(d, lim) + [PtrRec(0)]) + PTR_SIZE
    ensures SizeAll(Part4(d, lim)) <= SizeAll(AllRecs(d, lim))
  {
    PtrRoundTrip(0);
    hide PtrRec, SizeAll, Size, Part3, Part4, AllRecs;
    BodySize(d, lim);
    SizeOne(d.body, PtrRec(0));
    AnchorPrefixes(d, lim);
    SizePrefix(Part4(d, lim), AllRecs(d, lim));
  }

  /** The starting file meets the invariant of the editor exactly if no header that the server
      generated is short. */
  lemma StartInv(d: Received, lim: Limits)
    requires Sane(lim) && Sensible(d)
    ensures Inv(StartQueue(d, lim), StartMap(d, lim)) <==> Roomed(d.generated)
  {
    hide Heads, PtrRec, SenderRecs, AllRecs, Row, SizeAll, HeaderPart, BodyPart, SenderRoom, Slot, StartMap, Markers,
         Sensible, Path, Flows, Roomed;
    StartMarkers(d, lim);
    StartContent(d, lim);
    StartSender(d, lim);
    StartRcpt(d, lim);
    StartHeaderPart(d, lim);
    StartBodyPart(d, lim);
    StartRow(d, lim);
  }

  lemma StartRow(d: Received, lim: Limits)
    requires Sane(lim) && Flows(AllRecs(d, lim))
    ensures Path(StartQueue(d, lim).file, StartMap(d, lim).c)
  {
    hide AllRecs, Row, EncAll, Path, Flows;
    RowPath([], AllRecs(d, lim));
    assert [] + EncAll(AllRecs(d, lim)) == EncAll(AllRecs(d, lim));
  }

  // ----- What the starting file says -----

  /** The message as it was received. */
  function StartMessage(d: Received, lim: Limits): Message
    requires lim.line >= 1
  {
    Message(d.before + [Rec(FROM, d.sender)] + d.after, Shown(Heads(d, lim)), d.body, d.ext + d.more + d.extra,
            |d.before|, if d.rcptInEnv then |d.before| + 1 + |d.after| else |d.ext + d.more|, d.rcptInEnv)
  }

  lemma PartView(d: Received, lim: Limits, a: seq<Rec>, b: seq<Rec>)
    requires lim.line >= 1 && a + b <= AllRecs(d, lim)
    ensures |StartMap(d, lim).c| == |AllRecs(d, lim)|
    ensures View(StartMap(d, lim).c[|a|..|a| + |b|]) == Shown(b)
  {
    hide AllRecs, Row, View, Shown;
    var all := AllRecs(d, lim);
    var c := all[|a + b|..];
    assert all == a + b + c;
    RowSlice(a, b, c);
    ViewRow(SizeAll(a), b);
  }

  lemma ShownEnv(rs: seq<Rec>)
    requires AllEnv(rs)
    ensures Shown(rs) == rs
  {
    assert forall k :: 0 <= k < |rs| ==> EnvRec(rs[k]);
    ShownAll(rs);
  }

  lemma ShownDummy(b: bool)
    ensures Shown(Dummy(b)) == [] && Shown([PtrRec(0)]) == []
  {
    PtrShown(0);
  }

  lemma ShownExt(d: Received)
    requires Sensible(d)
    ensures Shown(Ext(d)) == d.ext + d.more
  {
    hide PtrRec, EnvRec, Shown;
    ShownEnv(d.ext);
    ShownEnv(d.more);
    ShownDummy(true);
    ShownConcat(d.ext, [PtrRec(0)]);
    ShownConcat(d.ext + [PtrRec(0)], d.more);
  }

  lemma ShownParts(d: Received)
    requires Sensible(d)
    ensures Shown(Part1(d)) == Shown(Part2(d)) == d.before + [Rec(FROM, d.sender)] + d.after
    ensures Shown(Ext(d) + Dummy(!d.rcptInEnv) + d.extra) == d.ext + d.more + d.extra
    ensures Shown(Ext(d)) == d.ext + d.more && Shown(d.before) == d.before
    ensures Shown(d.body + [PtrRec(0)]) == d.body
  {
    hide PtrRec, EnvRec, Shown, SenderRecs, Dummy;
    ShownEnv(d.before);
    ShownEnv(d.after);
    ShownExt(d);
    ShownEnv(d.extra);
    hide Ext;
    assert AllEnv([]) by {}
    SenderShown([], d.sender);
    ShownDummy(d.rcptInEnv);
    ShownDummy(!d.rcptInEnv);
    ShownConcat(d.before, SenderRecs([], d.sender));
    ShownConcat(d.before + SenderRecs([], d.sender), d.after);
    ShownConcat(Part1(d), Dummy(d.rcptInEnv));
    ShownConcat(Ext(d), Dummy(!d.rcptInEnv));
    ShownConcat(Ext(d) + Dummy(!d.rcptInEnv), d.extra);
    ShownConcat(d.body, [PtrRec(0)]);
    assert forall k :: 0 <= k < |d.body| ==> TextRec(d.body[k]);
    ShownAll(d.body);
    assert [] + [Rec(FROM, d.sender)] == [Rec(FROM, d.sender)];
  }

  lemma StartViews(d: Received, lim: Limits)
    requires Sane(lim) && Sensible(d)
    ensures var m := StartMap(d, lim);
            && Ordered(m) && EnvOf(m) == Shown(Part2(d)) && HdrsOf(m) == Shown(Heads(d, lim))
            && BodyOf(m) == Shown(d.body + [PtrRec(0)]) && ExtOf(m) == Shown(Ext(d) + Dummy(!d.rcptInEnv) + d.extra)
  {
    hide Heads, Ext, PtrRec, Sensible, View, Shown, Markers, Flows, Dummy, AllRecs, Part2, StartMap;
    StartMarkers(d, lim);
    StartLow(d, lim);
    StartHigh(d, lim);
  }

  lemma StartLow(d: Received, lim: Limits)
    requires Sane(lim) && Sensible(d) && Ordered(StartMap(d, lim))
    ensures var m := StartMap(d, lim);
            EnvOf(m) == Shown(Part2(d)) && HdrsOf(m) == Shown(Heads(d, lim))
  {
    hide Heads, PtrRec, SenderRecs, Sensible, Row, View, Shown, Markers, Flows, Dummy, Part1, Part2, Part4, Part5, AllRecs;
    AnchorPrefixes(d, lim);
    Parts(d, lim);
    var m := StartMap(d, lim);
    var h := Heads(d, lim);
    assert [] + Part2(d) == Part2(d);
    PartView(d, lim, [], Part2(d));
    assert Part2(d) + [Rec(MESG, [])] + h == Part3(d, lim);
    PartView(d, lim, Part2(d) + [Rec(MESG, [])], h);
    assert m.c[..m.mesg] == m.c[0..m.mesg];
  }

  lemma StartHigh(d: Received, lim: Limits)
    requires Sane(lim) && Sensible(d) && Ordered(StartMap(d, lim))
    ensures var m := StartMap(d, lim);
            && BodyOf(m) == Shown(d.body + [PtrRec(0)]) && ExtOf(m) == Shown(Ext(d) + Dummy(!d.rcptInEnv) + d.extra)
  {
    hide Heads, Ext, PtrRec, SenderRecs, Sensible, Row, View, Shown, Markers, Flows, Dummy, Part1, Part2, Part3;
    AnchorPrefixes(d, lim);
    Parts(d, lim);
    var p, x := [PtrRec(0)], Ext(d) + Dummy(!d.rcptInEnv) + d.extra;
    PartView(d, lim, Part3(d, lim) + p, d.body + p);
    assert Part4(d, lim) + [Rec(XTRA, [])] + x + [Rec(END, [])] == AllRecs(d, lim);
    PartView(d, lim, Part4(d, lim) + [Rec(XTRA, [])], x);
  }

  lemma StartPlaces(d: Received, lim: Limits)
    requires Sane(lim) && Sensible(d)
    ensures var m := StartMap(d, lim);
            && Ordered(m) && SenderAt(m) == |d.before| && (m.rcpt < m.mesg <==> d.rcptInEnv)
            && RcptAt(m) == if d.rcptInEnv then |Shown(Part1(d))| else |d.ext + d.more|
  {
    hide Heads, Ext, PtrRec, SenderRecs, Sensible, Row, View, Shown, Markers, Flows, Part1;
    StartMarkers(d, lim);
    AnchorPrefixes(d, lim);
    Parts(d, lim);
    KeyRecords(d, lim);
    RcptPart(d);
    ShownParts(d);
    var m := StartMap(d, lim);
    assert [] + d.before == d.before && [] + Part1(d) == Part1(d);
    PartView(d, lim, [], d.before);
    assert m.c[..m.from] == m.c[0..m.from];
    if d.rcptInEnv {
      PartView(d, lim, [], Part1(d));
      assert m.c[..m.rcpt] == m.c[0..m.rcpt];
    } else {
      PartView(d, lim, Part4(d, lim) + [Rec(XTRA, [])], Ext(d));
    }
  }

  /** The starting file reads as the message that was received. */
  lemma StartAbs(d: Received, lim: Limits)
    requires Sane(lim) && Sensible(d)
    ensures Ordered(StartMap(d, lim)) && Abs(StartMap(d, lim)) == StartMessage(d, lim)
  {
    hide Heads, Ext, PtrRec, SenderRecs, Sensible, View, Shown, StartMap, EnvOf, HdrsOf, BodyOf, ExtOf, SenderAt, RcptAt,
         Part1, Part2, Dummy;
    StartViews(d, lim);
    StartPlaces(d, lim);
    ShownParts(d);
  }

  /** Every record that was received is there, in order; recipients are added behind the envelope, or
      else behind the recipients of the extracted part (83 is the type of the sender). */
  lemma StartSays(d: Received, lim: Limits)
    requires lim.line >= 1
    ensures var g := StartMessage(d, lim);
            && g.env == d.before + [Rec(83, d.sender)] + d.after && g.senderAt == |d.before|
            && g.body == d.body && g.ext == d.ext + d.more + d.extra && g.rcptInEnv == d.rcptInEnv
            && g.rcptAt == if d.rcptInEnv then |g.env| else |d.ext| + |d.more|
  {
    hide Heads, Shown;
  }

  lemma NoJumpAt(d: Received, lim: Limits, k: nat)
    requires Sane(lim) && Sensible(d) && k < |AllRecs(d, lim)|
    ensures !Jumps(AllRecs(d, lim)[k])
  {
    Between(d, lim, k);
    hide AllRecs, StartMap, Neutral, Readable, Jumps, Sensible, Part1, Part2, Part3, Part4, Part5;
  }

  lemma StartSteady(d: Received, lim: Limits)
    requires Sane(lim) && Sensible(d)
    ensures var c := StartMap(d, lim).c; forall k :: 0 <= k < |c| ==> !Jumps(c[k].rec)
  {
    hide AllRecs, Row, Sensible, Part1, Part2, Part3, Part4, Part5, Jumps;
    var all, c := AllRecs(d, lim), StartMap(d, lim).c;
    RowShape(0, all);
    forall k | 0 <= k < |c| ensures !Jumps(c[k].rec) { NoJumpAt(d, lim, k); }
  }

  lemma NoJumpsNoLoad(m: Map)
    requires Ordered(m) && forall k :: 0 <= k < |m.c| ==> !Jumps(m.c[k].rec)
    ensures Backs(HeaderPath(m)) == 0 && Backs(BodyPath(m)) == 0 && Backs(EnvelopePath(m)) == 0
  {
    hide Jumps, Backs;
    NoJumpsNoBacks(HeaderPath(m));
    NoJumpsNoBacks(BodyPath(m));
    NoJumpsNoBacks(EnvelopePath(m));
  }

  /** Nothing jumps in a file that was just received; it holds one region for the body. */
  lemma StartLoad(d: Received, lim: Limits)
    requires Sane(lim) && Sensible(d)
    ensures Ordered(StartMap(d, lim)) && Load(StartQueue(d, lim), StartMap(d, lim)) == 1
  {
    hide Markers, Flows;
    StartMarkers(d, lim);
    StartSteady(d, lim);
    hide StartMap, Sensible, Jumps, Backs, HeaderPath, BodyPath, EnvelopePath;
    NoJumpsNoLoad(StartMap(d, lim));
    StartRegions(d, lim);
    hide StartQueue;
  }

  lemma StartRegions(d: Received, lim: Limits)
    requires lim.line >= 1
    ensures StartQueue(d, lim).free == [] && |InUse(StartQueue(d, lim))| == 1
  {
  }
}
