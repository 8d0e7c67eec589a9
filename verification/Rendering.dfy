/** How text is cut into records (src/cleanup/cleanup_out.c). */
module Rendering {
  import opened Records
  import opened Chain
  import opened Headers

  /** line_length_limit and header_size_limit. */
  datatype Limits = Limits(line: nat, header: nat)

  // ----- cleanup_out: long text becomes incomplete lines and a final record -----

  function Chunks(typ: byte, s: seq<byte>, limit: nat): seq<Rec>
    requires limit >= 1
    decreases |s|
  {
    if |s| > limit then [Rec(CONT, s[..limit])] + Chunks(typ, s[limit..], limit) else [Rec(typ, s)]
  }

  function Joined(rs: seq<Rec>): seq<byte> {
    if rs == [] then [] else rs[0].data + Joined(rs[1..])
  }

  /** The records carry the text, and only the last one is complete. */
  lemma {:induction false} ChunksText(typ: byte, s: seq<byte>, limit: nat)
    requires limit >= 1
    ensures var rs := Chunks(typ, s, limit);
            && rs != [] && Joined(rs) == s && rs[|rs| - 1].typ == typ
            && (forall i :: 0 <= i < |rs| - 1 ==> rs[i].typ == CONT && |rs[i].data| == limit)
            && (forall i :: 0 <= i < |rs| ==> |rs[i].data| <= limit)
            && rs[0].data == s[..if |s| < limit then |s| else limit]
    decreases |s|
  {
    if |s| > limit {
      ChunksText(typ, s[limit..], limit);
      var rs, t := Chunks(typ, s, limit), Chunks(typ, s[limit..], limit);
      assert rs[1..] == t;
      assert rs[|rs| - 1] == t[|t| - 1];
      assert s == s[..limit] + s[limit..];
      forall i | 0 <= i < |rs| - 1 ensures rs[i].typ == CONT && |rs[i].data| == limit {
        if i > 0 { assert rs[i] == t[i - 1]; }
      }
    } else {
      assert Joined([Rec(typ, s)]) == s + Joined([Rec(typ, s)][1..]);
    }
  }

  lemma LenLenDouble(n: nat)
    ensures LenLen(2 * n) <= LenLen(n) + 1
  {
    if n >= 128 { LenLenDouble(n / 128); LenLenMonotone(2 * n / 128, 2 * (n / 128) + 1); LenLenOdd(n / 128); }
  }

  lemma {:induction false} LenLenMonotone(m: nat, n: nat)
    requires m <= n
    ensures LenLen(m) <= LenLen(n)
  {
    if m >= 128 { LenLenMonotone(m / 128, n / 128); }
  }

  lemma {:induction false} LenLenOdd(n: nat)
    ensures LenLen(2 * n + 1) <= LenLen(n) + 1
  {
    if n >= 128 {
      LenLenOdd(n / 128);
      LenLenMonotone((2 * n + 1) / 128, 2 * (n / 128) + 1);
    }
  }

  lemma SplitCostsMore(m: nat, n: nat)
    ensures SpaceNeed(m) + SpaceNeed(n) > SpaceNeed(m + n)
  {
    var big := if m < n then n else m;
    LenLenMonotone(m + n, 2 * big + 1);
    LenLenOdd(big);
  }

  /** The space that one record would take covers what is written exactly when the text
      is not longer than the line length limit. */
  lemma {:induction false} ReserveCovers(s: seq<byte>, limit: nat)
    requires limit >= 1
    ensures SizeAll(Chunks(NORM, s, limit)) >= SpaceNeed(|s|)
    ensures SizeAll(Chunks(NORM, s, limit)) <= SpaceNeed(|s|) <==> |s| <= limit
    decreases |s|
  {
    var rs := Chunks(NORM, s, limit);
    if |s| > limit {
      ReserveCovers(s[limit..], limit);
      SplitCostsMore(limit, |s| - limit);
      assert rs[1..] == Chunks(NORM, s[limit..], limit);
    } else {
      assert rs[1..] == [];
    }
  }

  // ----- cleanup_out_header -----

  /** End of the line that starts at p. */
  function LineEnd(text: seq<byte>, p: nat): (e: nat)
    requires p <= |text|
    ensures p <= e <= |text|
    decreases |text| - p
  {
    if p == |text| || text[p] == NEWLINE then p else LineEnd(text, p + 1)
  }

  function Indented(line: seq<byte>): seq<byte> {
    if line != [] && SpaceOrTab(line[0]) then line else [TAB] + line
  }

  function CutAt(e: nat, limit: nat): nat { if e > limit then limit else e }

  /** A line past the size limit is dropped when at least nine tenths were written. */
  predicate NiceCut(p: nat, e: nat, limit: nat) { e > limit && 10 * p > 9 * limit }

  /** Continuation lines, from the line that starts at p. */
  function RenderRest(text: seq<byte>, p: nat, lim: Limits): seq<Rec>
    requires p <= |text| && lim.line >= 1
    decreases |text| - p
  {
    var e := LineEnd(text, p);
    if NiceCut(p, e, lim.header) then []
    else Chunks(NORM, Indented(text[p..CutAt(e, lim.header)]), lim.line)
         + if e <= lim.header && e < |text| then RenderRest(text, e + 1, lim) else []
  }

  function Padding(lineLen: nat): seq<Rec> {
    if lineLen < PTR_PAYLOAD then [PadRec(DTXT, PTR_PAYLOAD - lineLen)] else []
  }

  /** The records of a header: the first line, padding after a short one, then the rest. */
  function Render(text: seq<byte>, lim: Limits): seq<Rec>
    requires lim.line >= 1
  {
    var e := LineEnd(text, 0);
    Chunks(NORM, text[..CutAt(e, lim.header)], lim.line) + Padding(e)
    + if e <= lim.header && e < |text| then RenderRest(text, e + 1, lim) else []
  }

  // ----- What a rendered header looks like -----

  /** Text within the line length limit, or padding. */
  predicate Plain(r: Rec, limit: nat) {
    |r.data| < MAX_PAYLOAD && ((IsText(r) && |r.data| <= limit) || r.typ == DTXT)
  }

  ghost predicate AllPlain(rs: seq<Rec>, limit: nat) { forall i :: 0 <= i < |rs| ==> Plain(rs[i], limit) }

  /** Continuation records only, the last one complete. */
  ghost predicate Continues(t: seq<Rec>, cont: bool) {
    FindEnd(t, cont) == |t| && (if t == [] then !cont else t[|t| - 1].typ != CONT)
  }

  lemma ContinuesConcat(a: seq<Rec>, b: seq<Rec>, cont: bool)
    requires Continues(a, cont) && Continues(b, false)
    ensures Continues(a + b, cont)
  {
    FindEndOver(a, b, cont);
    if b == [] { assert a + b == a; }
  }

  lemma {:induction false} ChunksContinue(s: seq<byte>, limit: nat, cont: bool)
    requires 1 <= limit < MAX_PAYLOAD
    requires cont || (s != [] && SpaceOrTab(s[0]))
    ensures Continues(Chunks(NORM, s, limit), cont)
    ensures Shown(Chunks(NORM, s, limit)) == Chunks(NORM, s, limit)
    ensures AllPlain(Chunks(NORM, s, limit), limit)
    decreases |s|
  {
    var rs := Chunks(NORM, s, limit);
    if |s| > limit {
      var t := Chunks(NORM, s[limit..], limit);
      ChunksContinue(s[limit..], limit, true);
      assert rs[1..] == t;
      assert t != [] by { ChunksText(NORM, s[limit..], limit); }
      assert rs[|rs| - 1] == t[|t| - 1];
    } else {
      assert rs[1..] == [];
    }
  }

  lemma IndentedStarts(line: seq<byte>)
    ensures Indented(line) != [] && SpaceOrTab(Indented(line)[0])
  {
  }

  lemma {:induction false} RestContinues(text: seq<byte>, p: nat, lim: Limits)
    requires p <= |text| && 1 <= lim.line < MAX_PAYLOAD
    ensures Continues(Shown(RenderRest(text, p, lim)), false)
    ensures AllPlain(RenderRest(text, p, lim), lim.line)
    decreases |text| - p
  {
    hide Chunks, FindEnd, Shown, Indented, LineEnd;
    var e := LineEnd(text, p);
    if NiceCut(p, e, lim.header) {
      NothingContinues();
    } else {
      IndentedStarts(text[p..CutAt(e, lim.header)]);
      var line := Indented(text[p..CutAt(e, lim.header)]);
      var a := Chunks(NORM, line, lim.line);
      ChunksContinue(line, lim.line, false);
      if e <= lim.header && e < |text| {
        var b := RenderRest(text, e + 1, lim);
        RestContinues(text, e + 1, lim);
        ShownConcat(a, b);
        ContinuesConcat(a, Shown(b), false);
      } else {
        assert a + [] == a;
      }
    }
  }

  /** Room for a pointer: the first record is long, or padding follows it. */
  predicate RoomFor(rs: seq<Rec>) {
    && rs != []
    && (|rs[0].data| >= PTR_PAYLOAD
        || (|rs| >= 2 && rs[1].typ == DTXT && Size(rs[0]) + Size(rs[1]) >= PTR_SIZE))
  }

  /** Limits under which every header can later be overwritten by a pointer. */
  predicate Sane(lim: Limits) { PTR_PAYLOAD <= lim.line < MAX_PAYLOAD && PTR_PAYLOAD <= lim.header }

  lemma PaddingHidden(e: nat)
    ensures Shown(Padding(e)) == []
  {
    if e < PTR_PAYLOAD { assert Padding(e)[1..] == []; }
  }

  lemma ChunksPlain(s: seq<byte>, limit: nat)
    requires 1 <= limit < MAX_PAYLOAD
    ensures var rs := Chunks(NORM, s, limit);
            && rs != [] && IsText(rs[0]) && AllPlain(rs, limit) && Shown(rs) == rs && Continues(rs[1..], rs[0].typ == CONT)
  {
    hide Shown;
    var rs := Chunks(NORM, s, limit);
    ChunksText(NORM, s, limit);
    ChunksContinue(s, limit, true);
    if |s| > limit {
      ChunksContinue(s[limit..], limit, true);
      assert rs[1..] == Chunks(NORM, s[limit..], limit);
    } else {
      assert rs[1..] == [];
    }
  }

  lemma RenderFirst(text: seq<byte>, lim: Limits)
    requires Sane(lim)
    ensures var e := LineEnd(text, 0); var n := CutAt(e, lim.header); var first := Chunks(NORM, text[..n], lim.line);
            && RoomFor(first + Padding(e)) && AllPlain(first + Padding(e), lim.line)
            && Shown(first + Padding(e)) == first && IsText(first[0])
            && Continues(first[1..], first[0].typ == CONT)
  {
    var e := LineEnd(text, 0);
    var s := text[..CutAt(e, lim.header)];
    var first := Chunks(NORM, s, lim.line);
    ChunksText(NORM, s, lim.line);
    if e < PTR_PAYLOAD { PadFills(first[0], DTXT); }
    ChunksPlain(s, lim.line);
    hide Shown, FindEnd, Size;
    PaddingHidden(e);
    ShownConcat(first, Padding(e));
    assert first + [] == first;
  }

  /** A rendered header: it leaves room for a pointer over its first record, consists of text
      and padding, and all of its text belongs to one complete header. */
  lemma RenderShape(text: seq<byte>, lim: Limits)
    requires Sane(lim)
    ensures var rs := Render(text, lim); var t := Shown(rs);
            && RoomFor(rs) && AllPlain(rs, lim.line) && IsText(rs[0])
            && t != [] && t[0] == rs[0] && Continues(t[1..], t[0].typ == CONT)
  {
    hide Chunks, Padding, RenderRest, FindEnd, Shown;
    var e := LineEnd(text, 0);
    var first := Chunks(NORM, text[..CutAt(e, lim.header)], lim.line);
    var a := first + Padding(e);
    RenderFirst(text, lim);
    var b := if e <= lim.header && e < |text| then RenderRest(text, e + 1, lim) else [];
    assert Shown(a + b) == Shown(a) + Shown(b) by { ShownConcat(a, b); }
    assert first != [] by { ChunksText(NORM, text[..CutAt(e, lim.header)], lim.line); }
    assert Continues(Shown(b), false) && AllPlain(b, lim.line) by {
      if b != [] { RestContinues(text, e + 1, lim); } else { NothingContinues(); }
    }
    ContinuesConcat(first[1..], Shown(b), first[0].typ == CONT);
    assert (first + Shown(b))[1..] == first[1..] + Shown(b);
    assert Render(text, lim) == a + b;
  }

  lemma NothingContinues()
    ensures Continues(Shown([]), false)
  {
  }

  lemma PadSize(lineLen: nat)
    requires lineLen < PTR_PAYLOAD
    ensures Size(PadRec(DTXT, PTR_PAYLOAD - lineLen)) == 2 + if lineLen < 12 then 13 - lineLen else 1
  {
  }

  /** Which headers have room for a pointer: those whose first line is not cut, or cut at 15 bytes
      or more; the padding after a line that is cut shorter was made for the whole line, and
      happens to suffice only for 13 or 14 bytes cut to at least 12. */
  lemma RoomIff(text: seq<byte>, lim: Limits)
    requires PTR_PAYLOAD <= lim.line
    ensures RoomFor(Render(text, lim)) <==>
              || LineEnd(text, 0) <= lim.header || lim.header >= PTR_PAYLOAD
              || (lim.header >= 12 && LineEnd(text, 0) < PTR_PAYLOAD)
  {
    hide RenderRest, LineEnd;
    var e := LineEnd(text, 0);
    var s := text[..CutAt(e, lim.header)];
    ChunksText(NORM, s, lim.line);
    if e < PTR_PAYLOAD { PadSize(e); }
    if |s| < PTR_PAYLOAD { assert Chunks(NORM, s, lim.line) == [Rec(NORM, s)] && Size(Rec(NORM, s)) == 2 + |s|; }
  }

  /** Every header has room exactly if the header size limit is at least 15; it may be set to 1. */
  lemma AlwaysRoomIff(lim: Limits)
    requires PTR_PAYLOAD <= lim.line
    ensures (forall text :: RoomFor(Render(text, lim))) <==> lim.header >= PTR_PAYLOAD
  {
    forall text ensures lim.header >= PTR_PAYLOAD ==> RoomFor(Render(text, lim)) { RoomIff(text, lim); }
    if lim.header < PTR_PAYLOAD {
      var text := Blanks(PTR_PAYLOAD);
      LineEndAfter(text, [], 0);
      assert text + [] == text;
      RoomIff(text, lim);
      assert !RoomFor(Render(text, lim));
    }
  }

  /** A header of one line of ten bytes, cut at five: its record and padding take 12 bytes, of the
      17 that a pointer needs. */
  lemma ShortLimitExample(text: seq<byte>)
    requires |text| == 10 && LineEnd(text, 0) == 10
    ensures var rs := Render(text, Limits(2048, 5));
            |rs| == 2 && rs[0] == Rec(NORM, text[..5]) && Size(rs[0]) + Size(rs[1]) == 12 && !RoomFor(rs)
  {
    hide LineEnd;
    PadSize(10);
    RoomIff(text, Limits(2048, 5));
  }

  /** Headers added under a proper name are found under that name. */
  lemma RenderLabel(name: seq<byte>, rest: seq<byte>, lim: Limits)
    requires Sane(lim) && IsLabel(name) && |name| < lim.line && |name| < lim.header
    ensures var rs := Render(name + [COLON] + rest, lim);
            && rs != [] && LabelLen(rs[0].data) == |name| && name <= rs[0].data
            && !Folded(rs[0])
  {
    var text := name + [COLON] + rest;
    LineEndAfter(name + [COLON], rest, 0);
    var e := LineEnd(text, 0);
    var s := text[..CutAt(e, lim.header)];
    ChunksText(NORM, s, lim.line);
    var d := Chunks(NORM, s, lim.line)[0].data;
    assert d == text[..|d|] && |d| > |name|;
    assert d[|name|] == text[|name|] == COLON;
    assert forall i :: 0 <= i < |name| ==> d[i] == name[i];
    assert d[..|name|] == name && d == name + d[|name|..];
    ScanLabelName(name, d[|name|..], Init, 0);
    assert Render(text, lim)[0] == Chunks(NORM, s, lim.line)[0];
    assert LabelChar(name[0]);
  }

  lemma {:induction false} LineEndAfter(a: seq<byte>, b: seq<byte>, p: nat)
    requires p <= |a| && forall i :: p <= i < |a| ==> a[i] != NEWLINE
    ensures LineEnd(a + b, p) >= |a|
    decreases |a| - p
  {
    if p < |a| { LineEndAfter(a, b, p + 1); }
  }
}
