/** What a header that was written says, line by line (src/cleanup/cleanup_out.c:170-225). */
module HeaderLines {
  import opened Records
  import opened Chain
  import opened Headers
  import opened Rendering
  import opened HeaderEdits
  import opened Starting
  import opened QueueFiles
  import opened Edits

  // ----- Lines of text and the records that hold them -----

  /** The lines that text records stand for: an incomplete record continues with the next one. */
  function Rows(rs: seq<Rec>): seq<seq<byte>> {
    if rs == [] then [] else
      var t := Rows(rs[1..]);
      if rs[0].typ == 76 && t != [] then [rs[0].data + t[0]] + t[1..] else [rs[0].data] + t
  }

  /** Text of one or more lines, with newlines (10) between them. */
  function Joint(lines: seq<seq<byte>>): seq<byte> {
    if lines == [] then [] else if |lines| == 1 then lines[0] else lines[0] + [10] + Joint(lines[1..])
  }

  predicate NoNewline(lines: seq<seq<byte>>) { forall i :: 0 <= i < |lines| ==> 10 !in lines[i] }

  /** A line after the first one starts with a blank (32) or a tab (9). */
  function Continued(line: seq<byte>): seq<byte> {
    if line != [] && (line[0] == 32 || line[0] == 9) then line else [9] + line
  }

  /** The lines that are kept, of which the first one starts at this offset.  A line that ends past the
      size limit is cut there, or dropped when more than nine tenths of the limit are in front of it;
      nothing follows it. */
  function Kept(lines: seq<seq<byte>>, start: nat, limit: nat): seq<seq<byte>> {
    if lines == [] then [] else
      var end := start + |lines[0]|;
      if end > limit then
        if 10 * start > 9 * limit then [] else [if start == 0 then lines[0][..limit] else Continued(lines[0][..limit - start])]
      else [if start == 0 then lines[0] else Continued(lines[0])] + Kept(lines[1..], end + 1, limit)
  }

  /** Within the limit all lines are kept, in order, and only tabs are added. */
  lemma {:induction false} KeptAll(lines: seq<seq<byte>>, start: nat, limit: nat)
    requires lines == [] || start + |Joint(lines)| <= limit
    ensures var k := Kept(lines, start, limit);
            |k| == |lines| && forall i :: 0 <= i < |lines| ==> k[i] == if i == 0 && start == 0 then lines[0] else Continued(lines[i])
    decreases |lines|
  {
    hide Continued;
    if lines != [] {
      if |lines| > 1 { KeptAll(lines[1..], start + |lines[0]| + 1, limit); } else { assert lines[1..] == []; }
      var k, t := Kept(lines, start, limit), Kept(lines[1..], start + |lines[0]| + 1, limit);
      assert k[1..] == t;
      forall i | 1 <= i < |lines| ensures k[i] == Continued(lines[i]) { assert k[i] == t[i - 1] && lines[i] == lines[1..][i - 1]; }
    }
  }

  lemma {:induction false} RowsChunks(s: seq<byte>, limit: nat, rest: seq<Rec>)
    requires limit >= 1
    ensures Rows(Chunks(NORM, s, limit) + rest) == [s] + Rows(rest)
    decreases |s|
  {
    var rs := Chunks(NORM, s, limit);
    if |s| > limit {
      var t := Chunks(NORM, s[limit..], limit);
      RowsChunks(s[limit..], limit, rest);
      assert (rs + rest)[1..] == t + rest;
      assert s[..limit] + s[limit..] == s;
    } else {
      assert (rs + rest)[1..] == rest;
    }
  }

  // ----- The text of a header, from one line on -----

  lemma {:induction false} LineEndIs(text: seq<byte>, p: nat, line: seq<byte>)
    requires p + |line| <= |text| && text[p..p + |line|] == line && 10 !in line
    requires p + |line| == |text| || text[p + |line|] == 10
    ensures LineEnd(text, p) == p + |line|
    decreases |line|
  {
    if line != [] {
      assert text[p] == text[p..p + |line|][0] == line[0];
      assert text[p + 1..p + |line|] == text[p..p + |line|][1..];
      LineEndIs(text, p + 1, line[1..]);
    }
  }

  /** The first line of what is left of the text, and what follows it. */
  lemma LineAt(text: seq<byte>, p: nat, lines: seq<seq<byte>>)
    requires p <= |text| && text[p..] == Joint(lines) && lines != [] && NoNewline(lines)
    ensures var e := p + |lines[0]|;
            && e <= |text| && text[p..e] == lines[0] && LineEnd(text, p) == e
            && (|lines| == 1 <==> e == |text|)
            && (e < |text| ==> text[e + 1..] == Joint(lines[1..]))
  {
    var a, e := lines[0], p + |lines[0]|;
    var t := text[p..];
    if |lines| > 1 {
      assert t == a + ([10] + Joint(lines[1..]));
      assert t[|a|] == 10 && t[|a|] == text[e];
      assert text[e + 1..] == t[|a| + 1..] == Joint(lines[1..]);
    }
    assert text[p..e] == t[..|a|] == a;
    LineEndIs(text, p, a);
  }

  lemma ShownChunks(s: seq<byte>, lim: Limits)
    requires Sane(lim)
    ensures Shown(Chunks(NORM, s, lim.line)) == Chunks(NORM, s, lim.line)
  {
    ChunksContinue(s, lim.line, true);
  }

  lemma NoRows()
    ensures Rows([]) == [] && Shown([]) == []
  {
  }

  lemma KeptStep(lines: seq<seq<byte>>, start: nat, limit: nat)
    requires lines != []
    ensures |lines| == 1 && start + |lines[0]| <= limit ==>
              Kept(lines, start, limit) == [if start == 0 then lines[0] else Continued(lines[0])]
  {
    if |lines| == 1 { assert lines[1..] == []; }
  }

  lemma ContinuedIs(line: seq<byte>)
    ensures Indented(line) == Continued(line)
  {
  }

  /** The records of one line, and those of the lines behind it. */
  lemma LineRows(line: seq<byte>, lim: Limits, b: seq<Rec>)
    requires Sane(lim)
    ensures Rows(Shown(Chunks(NORM, Indented(line), lim.line) + b)) == [Continued(line)] + Rows(Shown(b))
  {
    hide Chunks, Rows, Shown, Indented, Continued;
    ContinuedIs(line);
    ShownChunks(Indented(line), lim);
    ShownConcat(Chunks(NORM, Indented(line), lim.line), b);
    RowsChunks(Indented(line), lim.line, Shown(b));
  }

  lemma {:induction false} RestRows(text: seq<byte>, p: nat, lines: seq<seq<byte>>, lim: Limits)
    requires Sane(lim) && 0 < p <= |text| && text[p..] == Joint(lines) && lines != [] && NoNewline(lines)
    ensures Rows(Shown(RenderRest(text, p, lim))) == Kept(lines, p, lim.header)
    decreases |lines|
  {
    hide Chunks, Rows, Shown, LineEnd, Joint, Indented, Continued, NoNewline;
    LineAt(text, p, lines);
    NoRows();
    var e := p + |lines[0]|;
    if !NiceCut(p, e, lim.header) {
      var cut := text[p..CutAt(e, lim.header)];
      if e > lim.header {
        assert cut == lines[0][..lim.header - p];
        LineRows(cut, lim, []);
      } else if e == |text| {
        LineRows(cut, lim, []);
        KeptStep(lines, p, lim.header);
      } else {
        LineRows(cut, lim, RenderRest(text, e + 1, lim));
        NoNewlineRest(lines);
        RestRows(text, e + 1, lines[1..], lim);
      }
    }
  }

  lemma NoNewlineRest(lines: seq<seq<byte>>)
    requires lines != [] && NoNewline(lines)
    ensures NoNewline(lines[1..])
  {
  }

  /** The lines of a header that was written are those of its text, up to the size limit. */
  lemma RenderRows(lines: seq<seq<byte>>, lim: Limits)
    requires Sane(lim) && lines != [] && NoNewline(lines)
    ensures Rows(Shown(Render(Joint(lines), lim))) == Kept(lines, 0, lim.header)
  {
    hide Chunks, Rows, Shown, LineEnd, Joint, RenderRest, Padding;
    var text := Joint(lines);
    assert text[0..] == text;
    LineAt(text, 0, lines);
    NoRows();
    var e := |lines[0]|;
    var cut := text[..CutAt(e, lim.header)];
    assert cut == text[0..e][..CutAt(e, lim.header)];
    var a := Chunks(NORM, cut, lim.line);
    var b := if e <= lim.header && e < |text| then RenderRest(text, e + 1, lim) else [];
    RenderFirst(text, lim);
    ShownConcat(a + Padding(e), b);
    RowsChunks(cut, lim.line, Shown(b));
    if e <= lim.header && e < |text| { RestRows(text, e + 1, lines[1..], lim); }
    KeptStep(lines, 0, lim.header);
  }

  // ----- The headers of a message -----

  /** The header request: its name, a colon (58), its space and its value are these lines. */
  predicate Says(e: Edit, lines: seq<seq<byte>>) {
    && WritesHeader(e)
    && lines != [] && NoNewline(lines) && e.name + [58] + e.space + e.value == Joint(lines)
  }

  predicate WritesHeader(e: Edit) { e.AppendHeader? || e.InsertHeader? || (e.UpdateHeader? && e.nth >= 1) }

  /** A header request puts records h in the place of the records from p to q; h holds the text of
      the request, and what it replaces is nothing when it appends or inserts. */
  lemma AddedLines(g: Message, e: Edit, lines: seq<seq<byte>>, lim: Limits) returns (h: seq<Rec>, p: nat, q: nat)
    requires Sane(lim) && Says(e, lines)
    ensures p <= q <= |g.hdrs| && Apply(g, e, lim) == g.(hdrs := g.hdrs[..p] + h + g.hdrs[q..])
    ensures Rows(h) == Kept(lines, 0, lim.header)
    ensures e.AppendHeader? ==> p == q == |g.hdrs|
    ensures e.InsertHeader? ==> p == q
  {
    hide Rows, Kept, Joint, Render, FindStart, FindEnd, Shown, NoNewline;
    var t := g.hdrs;
    h := HeaderText(e.name, e.space, e.value, lim);
    RenderRows(lines, lim);
    p, q := |t|, |t|;
    assert t[..p] == t && t[q..] == [] && t + h + [] == t + h;
    if e.InsertHeader? {
      var i := if e.index < 1 then 1 else e.index;
      var at := FindStart(t, false, i, Any, 0);
      FindStartBound(t, false, i, Any, 0);
      if at.Some? { p, q := at.value, at.value; }
    } else if e.UpdateHeader? {
      var at := FindStart(t, false, e.nth, Named(e.name), 1);
      FindStartBound(t, false, e.nth, Named(e.name), 1);
      if at.Some? {
        FindEndBound(t[at.value + 1..], t[at.value].typ == CONT);
        p, q := at.value, at.value + 1 + FindEnd(t[at.value + 1..], t[at.value].typ == CONT);
      }
    }
  }

  /** In particular, a text of one line within the size limit stands there as it is. */
  lemma AddedText(g: Message, e: Edit, lim: Limits) returns (h: seq<Rec>, p: nat, q: nat)
    requires Sane(lim) && WritesHeader(e) && 10 !in e.name + e.space + e.value
    requires |e.name| + 1 + |e.space| + |e.value| <= lim.header
    ensures p <= q <= |g.hdrs| && Apply(g, e, lim) == g.(hdrs := g.hdrs[..p] + h + g.hdrs[q..])
    ensures Rows(h) == [e.name + [58] + e.space + e.value]
  {
    var line := e.name + [58] + e.space + e.value;
    hide Apply, Rows;
    assert forall x :: x in line ==> x == 58 || x in e.name + e.space + e.value;
    h, p, q := AddedLines(g, e, [line], lim);
    KeptStep([line], 0, lim.header);
  }

  function KeptEach(texts: seq<seq<seq<byte>>>, limit: nat): seq<seq<byte>> {
    if texts == [] then [] else Kept(texts[0], 0, limit) + KeptEach(texts[1..], limit)
  }

  lemma {:induction false} RowsConcat(a: seq<Rec>, b: seq<Rec>)
    requires a == [] || a[|a| - 1].typ != 76
    ensures Rows(a + b) == Rows(a) + Rows(b)
  {
    if a == [] {
      assert a + b == b;
    } else {
      assert (a + b)[1..] == a[1..] + b;
      RowsConcat(a[1..], b);
      if a[0].typ == 76 { RowsSome(a[1..]); }
    }
  }

  lemma RowsSome(a: seq<Rec>)
    ensures Rows(a) == [] <==> a == []
  {
  }

  lemma {:induction false} HeadersRows(texts: seq<seq<byte>>, lines: seq<seq<seq<byte>>>, lim: Limits)
    requires Sane(lim) && |texts| == |lines|
    requires forall i :: 0 <= i < |texts| ==> lines[i] != [] && NoNewline(lines[i]) && texts[i] == Joint(lines[i])
    ensures Rows(Shown(RenderAll(texts, lim))) == KeptEach(lines, lim.header)
  {
    hide Rows, Kept, Joint, Render, Shown, NoNewline, FindEnd, LabelLen, Folded;
    NoRows();
    if texts != [] {
      var a, b := Render(texts[0], lim), RenderAll(texts[1..], lim);
      HeadersRows(texts[1..], lines[1..], lim);
      RenderRows(lines[0], lim);
      RenderShape(texts[0], lim);
      ShownConcat(a, b);
      LastComplete(Shown(a));
      RowsConcat(Shown(a), Shown(b));
    }
  }

  lemma LastComplete(t: seq<Rec>)
    requires t != [] && Continues(t[1..], t[0].typ == CONT)
    ensures t[|t| - 1].typ != 76
  {
    hide FindEnd;
    if |t| > 1 { assert t[|t| - 1] == t[1..][|t| - 2]; }
  }

  lemma {:induction false} GeneratedRows(texts: seq<seq<byte>>, lim: Limits)
    requires Sane(lim)
    ensures Rows(Shown(GeneratedAll(texts, lim))) == texts
  {
    hide Rows, Chunks, Shown;
    NoRows();
    if texts != [] {
      var a, b := Chunks(NORM, texts[0], lim.line), GeneratedAll(texts[1..], lim);
      GeneratedRows(texts[1..], lim);
      ShownChunks(texts[0], lim);
      ShownConcat(a, b);
      RowsChunks(texts[0], lim.line, Shown(b));
    }
  }

  /** The header part of a received message: the lines of the received headers, then the headers
      that were generated. */
  lemma ReceivedRows(d: Received, lines: seq<seq<seq<byte>>>, lim: Limits)
    requires Sane(lim) && |d.headers| == |lines|
    requires forall i :: 0 <= i < |lines| ==> lines[i] != [] && NoNewline(lines[i]) && d.headers[i] == Joint(lines[i])
    ensures Rows(StartMessage(d, lim).hdrs) == KeptEach(lines, lim.header) + d.generated
  {
    hide Rows, Shown, Joint, NoNewline, KeptEach, RenderAll, GeneratedAll;
    var a, b := RenderAll(d.headers, lim), GeneratedAll(d.generated, lim);
    HeadersRows(d.headers, lines, lim);
    GeneratedRows(d.generated, lim);
    ShownConcat(a, b);
    AllComplete(d.headers, lim);
    RowsConcat(Shown(a), Shown(b));
  }

  lemma {:induction false} AllComplete(texts: seq<seq<byte>>, lim: Limits)
    requires Sane(lim)
    ensures var t := Shown(RenderAll(texts, lim)); t == [] || t[|t| - 1].typ != 76
  {
    hide Render, Shown, FindEnd, LabelLen, Folded;
    NoRows();
    if texts != [] {
      var a, b := Render(texts[0], lim), RenderAll(texts[1..], lim);
      AllComplete(texts[1..], lim);
      RenderShape(texts[0], lim);
      ShownConcat(a, b);
      LastComplete(Shown(a));
    }
  }
}
