/** The four header edits: what each does to the file and to what a reader gets. */
module HeaderOps {
  import opened Records
  import opened Chain
  import opened Headers
  import opened Rendering
  import opened Layout
  import opened HeaderEdits
  import opened Following
  import opened JumpLoad

  ghost function HeaderItems(m: Map): seq<Item>
    requires Ordered(m)
  {
    m.c[m.mesg + 1..m.hdr]
  }

  /** File after rs was added at the end and a pointer to it written at offset o. */
  function Committed(f: seq<byte>, o: nat, rs: seq<Rec>): seq<byte>
    requires o <= |f|
  {
    Put(f + EncAll(rs), o, PtrRec(|f|))
  }

  ghost function NewItems(q: Queue, m: Map, i: nat, rs: seq<Rec>): seq<Item>
    requires i < |m.c|
  {
    [Item(m.c[i].off, PtrRec(|q.file|))] + Row(|q.file|, rs)
  }

  /** A list of records that can be spliced in before c[j]. */
  ghost predicate LeadsTo(q: Queue, m: Map, rs: seq<Rec>, j: nat) {
    && rs != [] && Flows(rs) && j < |m.c|
    && Succ(Item(|q.file| + SizeAll(rs[..|rs| - 1]), rs[|rs| - 1])) == m.c[j].off
  }

  lemma OutsideRow(q: Queue, m: Map, rs: seq<Rec>)
    requires Packed(Regions(q), |q.file|)
    ensures AllOutside(Row(|q.file|, rs), Regions(q))
  {
    RowShape(|q.file|, rs);
  }

  lemma OutsidePtr(q: Queue, m: Map, i: nat, j: nat)
    requires Inv(q, m) && Coverable(m.c, i, j) && (j <= m.hdr + 1 || m.xtra <= i) && |q.file| < PTR_LIMIT
    ensures AllOutside([Item(m.c[i].off, PtrRec(|q.file|))], Regions(q))
    ensures m.c[i].off + PTR_SIZE <= |q.file|
  {
    hide At, Padded, Markers, Anchored, Size, PtrRec;
    var rs := Regions(q);
    PtrRoundTrip(|q.file|);
    CoverClear(q.file, m.c, i, j);
    forall n | 0 <= n < |rs| ensures Disjoint(m.c[i].off, PTR_SIZE, rs[n].start, rs[n].len) {
      if j <= m.hdr + 1 {
        var a := m.c[..m.hdr + 1];
        assert a[i] == m.c[i] && Outside(a[i], rs[n]);
        if i + 1 < j { assert a[i + 1] == m.c[i + 1] && Outside(a[i + 1], rs[n]); }
      } else {
        var b := m.c[m.xtra..];
        assert b[i - m.xtra] == m.c[i] && Outside(b[i - m.xtra], rs[n]);
        if i + 1 < j { assert b[i + 1 - m.xtra] == m.c[i + 1] && Outside(b[i + 1 - m.xtra], rs[n]); }
      }
      CoverOutside(q.file, m.c, i, j, rs[n]);
    }
  }

  lemma SplicedItems(q: Queue, m: Map, i: nat, j: nat, rs: seq<Rec>)
    requires i < j <= |m.c|
    ensures Spliced(m.c, i, j, |q.file|, rs) == m.c[..i] + NewItems(q, m, i, rs) + m.c[j..]
  {
    hide Row, PtrRec;
    var p, row := [Item(m.c[i].off, PtrRec(|q.file|))], Row(|q.file|, rs);
    assert m.c[..i] + p + row == m.c[..i] + (p + row);
  }

  /** The commit of an edit: before the pointer is written the reader gets what it got,
      afterwards it follows the new path. */
  lemma CommitPath(q: Queue, m: Map, i: nat, j: nat, rs: seq<Rec>)
    requires Inv(q, m) && Coverable(m.c, i, j) && LeadsTo(q, m, rs, j) && |q.file| < PTR_LIMIT
    ensures m.c[i].off <= |q.file|
    ensures Path(q.file + EncAll(rs), m.c)
    ensures Path(Committed(q.file, m.c[i].off, rs), m.c[..i] + NewItems(q, m, i, rs) + m.c[j..])
    ensures |Committed(q.file, m.c[i].off, rs)| == |q.file| + SizeAll(rs)
  {
    hide At, Padded, Put, EncAll, Row, Size, PtrRec, Flows, Succ, Target;
    CoverClear(q.file, m.c, i, j);
    StoredFits(q.file, m.c, i);
    Splice(q.file, m.c, i, j, rs);
    hide Spliced, NewItems;
    SplicedItems(q, m, i, j, rs);
  }

  // ----- A header edit in the middle of the header part -----

  ghost predicate MidOk(q: Queue, m: Map, i: nat, j: nat, rs: seq<Rec>) {
    && Inv(q, m) && m.mesg < i < j <= m.hdr && Coverable(m.c, i, j)
    && LeadsTo(q, m, rs, j) && |q.file| < PTR_LIMIT
    && (forall k :: 0 <= k < |rs| ==> HeaderRec(rs[k], q.lim))
    && Padded(m.c[m.mesg + 1..i] + NewItems(q, m, i, rs) + m.c[j..m.hdr], false)
  }

  lemma MidEdit(q: Queue, m: Map, i: nat, j: nat, rs: seq<Rec>)
    requires MidOk(q, m, i, j, rs)
    ensures m.c[i].off <= |q.file|
    ensures EditOk(q, m, Committed(q.file, m.c[i].off, rs), i, j, NewItems(q, m, i, rs), m.c[m.hdr])
  {
    hide Padded, Size, Markers, Committed, LeadsTo, Edited, NewItems, Path, Anchored, BodyPart, HeaderPart, Slot;
    CommitPath(q, m, i, j, rs);
    EditedKeep(m, i, j, NewItems(q, m, i, rs));
    OutsidePtr(q, m, i, j);
    InvParts(q, m);
    OutsideRow(q, m, rs);
    NewItemsOutside(q, m, i, rs);
    NewItemsHeaders(q, m, i, rs);
    NewItemsFirst(q, m, i, rs);
  }

  lemma NewItemsFirst(q: Queue, m: Map, i: nat, rs: seq<Rec>)
    requires i < |m.c|
    ensures NewItems(q, m, i, rs) != [] && NewItems(q, m, i, rs)[0].off == m.c[i].off
  {
  }

  lemma InvParts(q: Queue, m: Map)
    requires Inv(q, m)
    ensures Packed(Regions(q), |q.file|) && 0 < |q.file|
    ensures Slot(m.c[m.hdr].rec) && AllOutside([m.c[m.hdr]], Regions(q))
  {
    hide At, Padded, Markers, Slot, Outside;
    assert m.c[..m.hdr + 1][m.hdr] == m.c[m.hdr];
    StoredFits(q.file, m.c, 0);
  }

  lemma EditedKeep(m: Map, i: nat, j: nat, mid: seq<Item>)
    requires Ordered(m) && m.mesg < i <= j <= m.hdr
    ensures Edited(m, i, j, mid, m.c[m.hdr]).c == m.c[..i] + mid + m.c[j..]
  {
    assert m.c[j..] == m.c[j..m.hdr] + [m.c[m.hdr]] + m.c[m.hdr + 1..];
  }

  lemma NewItemsOutside(q: Queue, m: Map, i: nat, rs: seq<Rec>)
    requires i < |m.c| && AllOutside(Row(|q.file|, rs), Regions(q))
    requires AllOutside([Item(m.c[i].off, PtrRec(|q.file|))], Regions(q))
    ensures AllOutside(NewItems(q, m, i, rs), Regions(q))
  {
    var a, b := [Item(m.c[i].off, PtrRec(|q.file|))], Row(|q.file|, rs);
    hide Row, PtrRec, Outside;
    var c := a + b;
    forall k, n | 0 <= k < |c| && 0 <= n < |Regions(q)| ensures Outside(c[k], Regions(q)[n]) {
      if k == 0 { assert c[k] == a[0]; } else { assert c[k] == b[k - 1]; }
    }
  }

  lemma NewItemsHeaders(q: Queue, m: Map, i: nat, rs: seq<Rec>)
    requires i < |m.c| && 0 < |q.file| < PTR_LIMIT
    requires forall k :: 0 <= k < |rs| ==> HeaderRec(rs[k], q.lim)
    ensures forall k :: 0 <= k < |NewItems(q, m, i, rs)| ==> HeaderRec(NewItems(q, m, i, rs)[k].rec, q.lim)
  {
    PtrSucc(m.c[i].off, |q.file|);
    RowShape(|q.file|, rs);
    hide HeaderRec, Row, PtrRec;
    assert HeaderRec(PtrRec(|q.file|), q.lim) by { PtrIsHeaderRec(|q.file|, q.lim); }
  }

  lemma PtrIsHeaderRec(v: nat, lim: Limits)
    requires 0 < v < PTR_LIMIT
    ensures HeaderRec(PtrRec(v), lim) && Readable(PtrRec(v)) && !Visible(PtrRec(v))
  {
    PtrSucc(0, v);
  }

  // ----- What cleanup_patch_header writes -----

  /** The new header, the saved record if there is one, and the way back. */
  function PatchRecs(lim: Limits, text: seq<byte>, saved: Option<Rec>, next: nat): seq<Rec>
    requires lim.line >= 1
  {
    Render(text, lim) + SavedRecs(saved) + BackRecs(saved, next)
  }

  function SavedRecs(saved: Option<Rec>): seq<Rec> {
    if saved.None? then [] else [saved.value] + Padding(|saved.value.data|)
  }

  function BackRecs(saved: Option<Rec>, next: nat): seq<Rec> {
    if saved.Some? && saved.value.typ == PTR then [] else [PtrRec(next)]
  }

  /** The saved record is the start of a header or a pointer. */
  predicate Saveable(saved: Option<Rec>, lim: Limits) {
    saved.Some? ==>
      || (Slot(saved.value) && Jumps(saved.value))
      || (IsText(saved.value) && |saved.value.data| <= lim.line)
  }

  function SavedCont(saved: Option<Rec>): bool { saved.Some? && saved.value.typ == CONT }

  lemma PaddedOne(o: nat, r: Rec, cont: bool)
    ensures Row(o, [r]) == [Item(o, r)]
    ensures ContAfter(Row(o, [r]), cont) == NextCont(r, cont)
    ensures !IsText(r) || cont || |r.data| >= PTR_PAYLOAD ==> Padded(Row(o, [r]), cont)
  {
    RowOne(o, r);
    assert [Item(o, r)][1..] == [];
  }

  lemma PaddedSaved(o: nat, saved: Option<Rec>, lim: Limits)
    requires Saveable(saved, lim)
    ensures Padded(Row(o, SavedRecs(saved)), false)
    ensures ContAfter(Row(o, SavedRecs(saved)), false) == SavedCont(saved)
  {
    hide Target, Size, Folded, LabelLen;
    if saved.Some? {
      var r := saved.value;
      if |r.data| < PTR_PAYLOAD {
        var pad := PadRec(DTXT, PTR_PAYLOAD - |r.data|);
        PadFills(r, DTXT);
        PaddedOne(o + Size(r), pad, NextCont(r, false));
        assert [r, pad][1..] == [pad];
        var row := Row(o, [r, pad]);
        assert row == [Item(o, r)] + Row(o + Size(r), [pad]);
        assert row[1..] == Row(o + Size(r), [pad]) && row[1].rec == pad;
        assert SavedRecs(saved) == [r, pad];
      } else {
        PaddedOne(o, r, false);
        assert SavedRecs(saved) == [r];
      }
    }
  }

  lemma PaddedBack(o: nat, saved: Option<Rec>, next: nat, cont: bool)
    ensures Padded(Row(o, BackRecs(saved, next)), cont)
    ensures ContAfter(Row(o, BackRecs(saved, next)), cont) == cont
  {
    PaddedOne(o, PtrRec(next), cont);
  }

  /** Padding and line state over the records of a patch. */
  lemma PaddedPatch(q: Queue, m: Map, i: nat, text: seq<byte>, saved: Option<Rec>, next: nat, cont: bool)
    requires i < |m.c| && Sane(q.lim) && Saveable(saved, q.lim)
    ensures Padded(NewItems(q, m, i, PatchRecs(q.lim, text, saved, next)), cont)
    ensures ContAfter(NewItems(q, m, i, PatchRecs(q.lim, text, saved, next)), cont) == SavedCont(saved)
  {
    hide Render, SavedRecs, BackRecs, Padded, ContAfter, Row, RightAlign, Saveable, SavedCont;
    var o := |q.file|;
    var a, b, d := Render(text, q.lim), SavedRecs(saved), BackRecs(saved, next);
    PaddedRender(o, text, q.lim, cont);
    PaddedSaved(o + SizeAll(a), saved, q.lim);
    PaddedBack(o + SizeAll(a + b), saved, next, SavedCont(saved));
    RowConcat(o, a, b);
    RowConcat(o, a + b, d);
    SizeAllConcat(a, b);
    var ra, rb, rd := Row(o, a), Row(o + SizeAll(a), b), Row(o + SizeAll(a + b), d);
    PaddedJoin(ra, rb, cont);
    ContAfterConcat(ra, rb, cont);
    PaddedJoin(ra + rb, rd, cont);
    ContAfterConcat(ra + rb, rd, cont);
    var p := Item(m.c[i].off, PtrRec(o));
    PaddedPtr(p, cont);
    PaddedJoin([p], ra + rb + rd, cont);
    ContAfterConcat([p], ra + rb + rd, cont);
  }

  lemma PaddedPtr(p: Item, cont: bool)
    requires p.rec.typ == PTR
    ensures Padded([p], cont) && ContAfter([p], cont) == cont
  {
    assert [p][1..] == [];
  }

  lemma PatchVisible(lim: Limits, text: seq<byte>, saved: Option<Rec>, next: nat)
    requires Sane(lim) && Saveable(saved, lim)
    ensures Shown(PatchRecs(lim, text, saved, next))
         == Shown(Render(text, lim)) + if saved.Some? && saved.value.typ != PTR then [saved.value] else []
  {
    hide Render, RightAlign, Digits, Size, Target;
    var a, b, d := Render(text, lim), SavedRecs(saved), BackRecs(saved, next);
    ShownConcat(a + b, d);
    ShownConcat(a, b);
    assert Shown(d) == [] by { if d != [] { assert d[1..] == []; } }
    if saved.Some? {
      var p := Padding(|saved.value.data|);
      ShownConcat([saved.value], p);
      assert [saved.value][1..] == [];
      assert Shown(p) == [] by { if p != [] { assert p[1..] == []; } }
    }
  }

  /** The patch leads back to the record that follows. */
  lemma PatchLeadsTo(q: Queue, m: Map, text: seq<byte>, saved: Option<Rec>, j: nat)
    requires Sane(q.lim) && Saveable(saved, q.lim) && j < |m.c| && 0 < m.c[j].off < PTR_LIMIT
    requires saved.Some? ==> Readable(saved.value)
    requires saved.Some? && saved.value.typ == PTR ==> Target(saved.value.data) == Some(m.c[j].off)
    ensures LeadsTo(q, m, PatchRecs(q.lim, text, saved, m.c[j].off), j)
    ensures forall k :: 0 <= k < |PatchRecs(q.lim, text, saved, m.c[j].off)| ==>
              HeaderRec(PatchRecs(q.lim, text, saved, m.c[j].off)[k], q.lim)
  {
    var next := m.c[j].off;
    var rs := PatchRecs(q.lim, text, saved, next);
    var a, b, d := Render(text, q.lim), SavedRecs(saved), BackRecs(saved, next);
    RenderKinds(text, q.lim);
    SavedKinds(saved, q.lim);
    BackKinds(saved, next, |q.file| + SizeAll(rs[..|rs| - 1]), q.lim);
    hide Render, PtrRec, Size, SavedRecs, HeaderRec, Readable, Jumps, SizeAll, Saveable, Succ, BackRecs;
    forall k | 0 <= k < |rs| ensures HeaderRec(rs[k], q.lim) && Readable(rs[k]) && (k < |rs| - 1 ==> !Jumps(rs[k])) {
      if k < |a| {
        assert rs[k] == a[k];
      } else if k < |a + b| {
        assert rs[k] == b[k - |a|];
      } else {
        assert rs[k] == d[k - |a + b|];
      }
    }
    assert rs[|rs| - 1] == if d == [] then b[|b| - 1] else d[0];
  }

  lemma RenderKinds(text: seq<byte>, lim: Limits)
    requires Sane(lim)
    ensures var a := Render(text, lim);
            a != [] && forall k :: 0 <= k < |a| ==> HeaderRec(a[k], lim) && Readable(a[k]) && !Jumps(a[k])
  {
    hide Render, FindEnd, Folded, Shown, Size;
    RenderShape(text, lim);
    PlainKinds(Render(text, lim), lim);
  }

  lemma PlainKinds(rs: seq<Rec>, lim: Limits)
    requires AllPlain(rs, lim.line)
    ensures forall k :: 0 <= k < |rs| ==> HeaderRec(rs[k], lim) && Readable(rs[k]) && !Jumps(rs[k])
  {
    hide Size, Target;
    forall k | 0 <= k < |rs| ensures HeaderRec(rs[k], lim) && Readable(rs[k]) && !Jumps(rs[k]) {
      assert Plain(rs[k], lim.line);
    }
  }

  lemma BackKinds(saved: Option<Rec>, next: nat, o: nat, lim: Limits)
    requires 0 < next < PTR_LIMIT && Saveable(saved, lim) && (saved.Some? ==> Readable(saved.value))
    requires saved.Some? && saved.value.typ == PTR ==> Target(saved.value.data) == Some(next)
    ensures var b, d := SavedRecs(saved), BackRecs(saved, next);
            && |d| <= 1 && (forall k :: 0 <= k < |d| ==> HeaderRec(d[k], lim) && Readable(d[k]))
            && (d != [] ==> Succ(Item(o, d[0])) == next && forall k :: 0 <= k < |b| ==> !Jumps(b[k]))
            && (d == [] ==> |b| == 1 && Succ(Item(o, b[0])) == next)
  {
    PtrSucc(o, next);
    if saved.Some? && |saved.value.data| < PTR_PAYLOAD { PadFills(saved.value, DTXT); }
  }

  lemma SavedKinds(saved: Option<Rec>, lim: Limits)
    requires Saveable(saved, lim) && (saved.Some? ==> Readable(saved.value))
    ensures var b := SavedRecs(saved);
            forall k :: 0 <= k < |b| ==> HeaderRec(b[k], lim) && Readable(b[k])
  {
    if saved.Some? && |saved.value.data| < PTR_PAYLOAD { PadFills(saved.value, DTXT); }
  }

  // ----- The edits -----

  lemma HeaderCut(m: Map, i: nat)
    requires Ordered(m) && m.mesg < i <= m.hdr && Padded(HeaderItems(m), false)
    ensures HeaderItems(m) == m.c[m.mesg + 1..i] + m.c[i..m.hdr]
    ensures Padded(m.c[i..m.hdr], ContAfter(m.c[m.mesg + 1..i], false))
    ensures i == m.hdr || m.c[i].rec.typ != DTXT ==> Padded(m.c[m.mesg + 1..i], false)
  {
    hide Padded, ContAfter;
    var a, b := m.c[m.mesg + 1..i], m.c[i..m.hdr];
    assert HeaderItems(m) == a + b;
    PaddedSuffix(a, b, false);
    if i == m.hdr || m.c[i].rec.typ != DTXT { PaddedPrefix(a, b, false); }
  }

  lemma ViewNew(q: Queue, m: Map, i: nat, rs: seq<Rec>)
    requires i < |m.c|
    ensures View(NewItems(q, m, i, rs)) == Shown(rs)
  {
    var p := Item(m.c[i].off, PtrRec(|q.file|));
    hide View, RightAlign, Shown;
    ViewConcat([p], Row(|q.file|, rs));
    ViewOne(p);
    ViewRow(|q.file|, rs);
  }

  lemma OffsetBounds(q: Queue, m: Map, j: nat)
    requires Inv(q, m) && 0 < j < |m.c| && |q.file| < PTR_LIMIT
    ensures 0 < m.c[j].off < PTR_LIMIT && Readable(m.c[j].rec) && Readable(m.c[0].rec)
  {
    hide At, Padded, Markers, Anchored, HeaderPart, BodyPart, Readable, Size, Succ;
    StoredFits(q.file, m.c, 0);
    StoredFits(q.file, m.c, j);
    assert Apart(m.c[0], m.c[j].off, Size(m.c[j].rec));
  }

  /** cleanup_patch_header, as a change of the reader's path. */
  lemma PatchInv(q: Queue, m: Map, i: nat, j: nat, text: seq<byte>, saved: Option<Rec>)
    requires Inv(q, m) && m.mesg < i < j <= m.hdr && Coverable(m.c, i, j) && |q.file| < PTR_LIMIT
    requires Saveable(saved, q.lim) && (saved.Some? ==> Readable(saved.value))
    requires saved.Some? && saved.value.typ == PTR ==> Target(saved.value.data) == Some(m.c[j].off)
    requires m.c[i].rec.typ != DTXT && Padded(m.c[j..m.hdr], SavedCont(saved))
    ensures m.c[i].off <= |q.file|
    ensures var rs := PatchRecs(q.lim, text, saved, m.c[j].off);
            var m' := Edited(m, i, j, NewItems(q, m, i, rs), m.c[m.hdr]);
            && Inv(q.(file := Committed(q.file, m.c[i].off, rs)), m')
            && Path(q.file + EncAll(rs), m.c)
            && Abs(m') == Abs(m).(hdrs := View(m.c[m.mesg + 1..i]) + Shown(rs) + View(m.c[j..m.hdr]))
            && Load(q.(file := Committed(q.file, m.c[i].off, rs)), m') <= Load(q, m) + 1
  {
    hide Padded, PatchRecs, NewItems, Edited, Saveable, SavedCont, HeaderRec, Path, Markers, BodyPart,
         Coverable, LeadsTo, Committed, Abs, Readable, Target, Slot, EncAll, Load;
    OffsetBounds(q, m, j);
    var rs := PatchRecs(q.lim, text, saved, m.c[j].off);
    var mid := NewItems(q, m, i, rs);
    PatchLeadsTo(q, m, text, saved, j);
    HeaderCut(m, i);
    var a := m.c[m.mesg + 1..i];
    PaddedPatch(q, m, i, text, saved, m.c[j].off, ContAfter(a, false));
    PaddedJoin(a, mid, false);
    ContAfterConcat(a, mid, false);
    PaddedJoin(a + mid, m.c[j..m.hdr], false);
    MidEdit(q, m, i, j, rs);
    EditedInv(q, m, Committed(q.file, m.c[i].off, rs), i, j, mid, m.c[m.hdr]);
    ViewNew(q, m, i, rs);
    CommitPath(q, m, i, j, rs);
    assert q.hdrPt == m.c[m.hdr].off;
    LeadsFlows(q, m, rs, j);
    NewItemsLoad(q, m, Committed(q.file, m.c[i].off, rs), i, j, rs, m.c[m.hdr]);
  }

  lemma LeadsFlows(q: Queue, m: Map, rs: seq<Rec>, j: nat)
    requires LeadsTo(q, m, rs, j)
    ensures Flows(rs)
  {
  }

  /** New records in the header part add at most one jump back. */
  lemma NewItemsLoad(q: Queue, m: Map, file: seq<byte>, i: nat, j: nat, rs: seq<Rec>, x: Item)
    requires Inv(q, m) && m.mesg < i <= j <= m.hdr && Flows(rs) && |q.file| < PTR_LIMIT
    requires Ordered(Edited(m, i, j, NewItems(q, m, i, rs), x))
    ensures Load(q.(file := file), Edited(m, i, j, NewItems(q, m, i, rs), x)) <= Load(q, m) + 1
  {
    hide Path, Markers, Anchored, HeaderPart, BodyPart, Edited, Load, Flows, Backs, Row, PtrRec;
    OffsetInside(q, m, i);
    CommitBacks(|q.file|, m.c[i].off, rs);
    EditedLoad(q, m, q.(file := file), i, j, NewItems(q, m, i, rs), x);
  }

  lemma OffsetInside(q: Queue, m: Map, i: nat)
    requires Inv(q, m) && i < |m.c|
    ensures m.c[i].off < |q.file|
  {
    hide Markers, Anchored, HeaderPart, BodyPart, At, Readable, Size;
    StoredFits(q.file, m.c, i);
  }

  // ----- What a search finds -----

  /** c[i] is the first record of the header that was asked for. */
  ghost predicate Found(m: Map, i: nat, index: nat, want: Want, skip: nat)
    requires Ordered(m) && index >= 1
  {
    && m.mesg < i < m.hdr && Starts(m.c[i].rec, ContAfter(m.c[m.mesg + 1..i], false))
    && FindStart(View(HeaderItems(m)), false, index, want, skip) == Some(|View(m.c[m.mesg + 1..i])|)
  }

  /** Path index after the record at i and its padding. */
  function AfterHead(m: Map, i: nat): nat
    requires i < |m.c|
  {
    if |m.c[i].rec.data| < PTR_PAYLOAD then i + 2 else i + 1
  }

  /** c[j] is what follows the header that starts at c[i]. */
  ghost predicate EndsAt(m: Map, i: nat, j: nat)
    requires Ordered(m)
  {
    && m.mesg < i < m.hdr && AfterHead(m, i) <= j <= m.hdr
    && |View(m.c[i + 1..j])| == FindEnd(View(m.c[i + 1..m.hdr]), m.c[i].rec.typ == CONT)
    && (j < m.hdr ==> !ContAfter(m.c[m.mesg + 1..j], false))
  }

  lemma StartRoom(m: Map, i: nat, j: nat)
    requires Ordered(m) && m.mesg < i < m.hdr && Padded(HeaderItems(m), false)
    requires Starts(m.c[i].rec, ContAfter(m.c[m.mesg + 1..i], false))
    ensures AfterHead(m, i) <= m.hdr
    ensures |m.c[i].rec.data| < PTR_PAYLOAD ==> m.c[i + 1].rec.typ == DTXT
    ensures AfterHead(m, i) <= j < |m.c| ==> Coverable(m.c, i, j)
  {
    hide ContAfter, Folded, LabelLen, Target;
    HeaderCut(m, i);
    var b := m.c[i..m.hdr];
    assert b[0] == m.c[i] && Roomy(b);
    if |m.c[i].rec.data| < PTR_PAYLOAD { assert b[1] == m.c[i + 1]; } else { EncSize(m.c[i].rec); }
  }

  lemma HeaderViews(m: Map, i: nat)
    requires Ordered(m) && m.mesg < i < m.hdr && IsText(m.c[i].rec)
    ensures var t, a := View(HeaderItems(m)), View(m.c[m.mesg + 1..i]);
            && |a| < |t| && t[..|a|] == a && t[|a|] == m.c[i].rec && t[|a| + 1..] == View(m.c[i + 1..m.hdr])
  {
    ViewCut(m.c, m.mesg + 1, i, m.hdr);
  }

  lemma ViewSplit(m: Map, a: nat, j: nat, b: nat)
    requires a <= j <= b <= |m.c|
    ensures View(m.c[a..b]) == View(m.c[a..j]) + View(m.c[j..b])
  {
    assert m.c[a..b] == m.c[a..j] + m.c[j..b];
    ViewConcat(m.c[a..j], m.c[j..b]);
  }

  ghost function Patched(q: Queue, m: Map, i: nat, j: nat, text: seq<byte>, saved: Option<Rec>): (Queue, Map)
    requires Inv(q, m) && m.mesg < i < j <= m.hdr && m.c[i].off <= |q.file|
  {
    var rs := PatchRecs(q.lim, text, saved, m.c[j].off);
    (q.(file := Committed(q.file, m.c[i].off, rs)), Edited(m, i, j, NewItems(q, m, i, rs), m.c[m.hdr]))
  }

  /** Insert before a header record: the record is saved behind the new header. */
  lemma InsertAtText(q: Queue, m: Map, i: nat, index: int, text: seq<byte>)
    requires Inv(q, m) && |q.file| < PTR_LIMIT
    requires Found(m, i, if index < 1 then 1 else index, Any, 0)
    ensures var j := AfterHead(m, i);
            && j <= m.hdr && m.c[i].off <= |q.file|
            && var (q', m') := Patched(q, m, i, j, text, Some(m.c[i].rec));
               && Inv(q', m')
               && Abs(m') == Abs(m).(hdrs := InsText(Abs(m).hdrs, index, Shown(Render(text, q.lim))))
               && Load(q', m') <= Load(q, m) + 1
  {
    hide Load, Padded, PatchRecs, NewItems, Edited, Path, Markers, BodyPart, Anchored, Committed, Shown, Render,
         Coverable, View, FindStart, Target, Folded, LabelLen, EncAll, Size;
    var j := AfterHead(m, i);
    var saved := Some(m.c[i].rec);
    StartRoom(m, i, j);
    assert HeaderRec(m.c[i].rec, q.lim);
    OffsetBounds(q, m, i);
    NextState(m, i, j);
    PatchInv(q, m, i, j, text, saved);
    PatchVisible(q.lim, text, saved, m.c[j].off);
    hide Inv, AfterHead, Found, PatchRecs;
    InsertView(m, i, index, Shown(Render(text, q.lim)));
  }

  /** New header records in front of the record that was saved. */
  lemma InsertView(m: Map, i: nat, index: int, h: seq<Rec>)
    requires Ordered(m) && Found(m, i, if index < 1 then 1 else index, Any, 0) && IsText(m.c[i].rec) && AfterHead(m, i) <= m.hdr
    requires |m.c[i].rec.data| < PTR_PAYLOAD ==> m.c[i + 1].rec.typ == DTXT
    ensures View(m.c[m.mesg + 1..i]) + (h + [m.c[i].rec]) + View(m.c[AfterHead(m, i)..m.hdr]) == InsText(HdrsOf(m), index, h)
  {
    hide View, FindStart, Folded, LabelLen;
    HeaderViews(m, i);
    HeadView(m, i);
    var a, t, j := View(m.c[m.mesg + 1..i]), View(HeaderItems(m)), AfterHead(m, i);
    assert t[|a|..] == [m.c[i].rec] + View(m.c[j..m.hdr]);
    assert a + (h + [m.c[i].rec]) + View(m.c[j..m.hdr]) == t[..|a|] + h + t[|a|..];
  }

  lemma SliceCut<T>(s: seq<T>, a: nat, b: nat, c: nat)
    requires a <= b <= c <= |s|
    ensures s[a..c] == s[a..b] + s[b..c]
  {
  }

  lemma NextState(m: Map, i: nat, j: nat)
    requires Ordered(m) && m.mesg < i < m.hdr && Padded(HeaderItems(m), false) && IsText(m.c[i].rec)
    requires i < j <= m.hdr && (j == i + 1 || (j == i + 2 && m.c[i + 1].rec.typ == DTXT))
    ensures Padded(m.c[j..m.hdr], m.c[i].rec.typ == CONT)
  {
    hide Padded, ContAfter;
    HeaderCut(m, j);
    var a := m.c[m.mesg + 1..i];
    if j == i + 1 {
      assert m.c[m.mesg + 1..j] == a + [m.c[i]];
    } else {
      SliceCut(m.c, m.mesg + 1, i, j);
      assert m.c[i..j] == [m.c[i]] + [m.c[i + 1]];
      assert a + ([m.c[i]] + [m.c[i + 1]]) == a + [m.c[i]] + [m.c[i + 1]];
      ContAfterConcat(a + [m.c[i]], [m.c[i + 1]], false);
      ContAfterOne(m.c[i + 1], ContAfter(a + [m.c[i]], false));
    }
    ContAfterConcat(a, [m.c[i]], false);
    ContAfterOne(m.c[i], ContAfter(a, false));
  }

  lemma ContAfterOne(x: Item, cont: bool)
    ensures ContAfter([x], cont) == NextCont(x.rec, cont)
  {
    assert [x][1..] == [];
  }

  /** Padding does not show. */
  lemma HeadView(m: Map, i: nat)
    requires Ordered(m) && m.mesg < i < m.hdr && AfterHead(m, i) <= m.hdr
    requires |m.c[i].rec.data| < PTR_PAYLOAD ==> m.c[i + 1].rec.typ == DTXT
    ensures View(m.c[i + 1..m.hdr]) == View(m.c[AfterHead(m, i)..m.hdr])
  {
    if |m.c[i].rec.data| < PTR_PAYLOAD { ViewCut(m.c, i + 1, i + 1, m.hdr); ViewHidden([]); }
  }

  /** Insert at a pointer that leads to the header: the pointer is saved instead. */
  lemma InsertAtPtr(q: Queue, m: Map, p: nat, i: nat, index: int, text: seq<byte>)
    requires Inv(q, m) && |q.file| < PTR_LIMIT
    requires Found(m, i, if index < 1 then 1 else index, Any, 0)
    requires m.mesg < p < i && m.c[p].rec.typ == PTR
    requires forall k :: p < k < i ==> !Visible(m.c[k].rec)
    ensures m.c[p].off <= |q.file|
    ensures var (q', m') := Patched(q, m, p, p + 1, text, Some(m.c[p].rec));
            && Inv(q', m')
            && Abs(m') == Abs(m).(hdrs := InsText(Abs(m).hdrs, index, Shown(Render(text, q.lim))))
            && Load(q', m') <= Load(q, m) + 1
  {
    hide Load, Padded, PatchRecs, NewItems, Edited, Path, Markers, BodyPart, Anchored, Committed, Shown, Render,
         View, FindStart, Folded, LabelLen, EncAll, Size, ContAfter;
    var saved := Some(m.c[p].rec);
    assert HeaderRec(m.c[p].rec, q.lim);
    OffsetBounds(q, m, p);
    PathSucc(q, m, p);
    HiddenBetween(m, p, i);
    HeaderCut(m, p + 1);
    assert Coverable(m.c, p, p + 1);
    PatchInv(q, m, p, p + 1, text, saved);
    PatchVisible(q.lim, text, saved, m.c[p + 1].off);
    HeaderViews(m, i);
    var h, a, t := Shown(Render(text, q.lim)), View(m.c[m.mesg + 1..i]), View(HeaderItems(m));
    ViewSplit(m, m.mesg + 1, p + 1, m.hdr);
    assert t == a + View(m.c[p + 1..m.hdr]);
    assert h + [] == h;
    assert t[|a|..] == View(m.c[p + 1..m.hdr]);
  }

  lemma PathSucc(q: Queue, m: Map, p: nat)
    requires Inv(q, m) && p < |m.c| - 1
    ensures Succ(m.c[p]) == m.c[p + 1].off
  {
    hide At, Padded, Markers, Anchored, HeaderPart, BodyPart, Readable, Size, Succ;
  }

  lemma HiddenBetween(m: Map, p: nat, i: nat)
    requires Ordered(m) && m.mesg < p < i < m.hdr && m.c[p].rec.typ == PTR
    requires forall k :: p < k < i ==> !Visible(m.c[k].rec)
    ensures View(m.c[m.mesg + 1..p]) == View(m.c[m.mesg + 1..i]) == View(m.c[m.mesg + 1..p + 1])
    ensures ContAfter(m.c[m.mesg + 1..p + 1], false) == ContAfter(m.c[m.mesg + 1..i], false)
  {
    hide View, ContAfter;
    ViewSplit(m, m.mesg + 1, p, i);
    ViewSplit(m, m.mesg + 1, p, p + 1);
    ViewHidden(m.c[p..i]);
    ViewHidden(m.c[p..p + 1]);
    ContAfterView(m.c[m.mesg + 1..p + 1], false);
    ContAfterView(m.c[m.mesg + 1..i], false);
  }

  /** Update a header: everything from its first record to its end is bypassed. */
  lemma UpdateAt(q: Queue, m: Map, i: nat, j: nat, index: nat, name: seq<byte>, text: seq<byte>)
    requires Inv(q, m) && |q.file| < PTR_LIMIT && index >= 1
    requires Found(m, i, index, Named(name), 1) && EndsAt(m, i, j)
    ensures m.c[i].off <= |q.file|
    ensures var (q', m') := Patched(q, m, i, j, text, None);
            && Inv(q', m')
            && Abs(m') == Abs(m).(hdrs := UpdText(Abs(m).hdrs, index, name, Shown(Render(text, q.lim))))
            && Load(q', m') <= Load(q, m) + 1
  {
    hide Load, Padded, PatchRecs, NewItems, Edited, Path, Markers, BodyPart, Anchored, Committed, Shown, Render,
         View, FindStart, Folded, LabelLen, EncAll, Size, ContAfter, FindEnd, Coverable;
    StartRoom(m, i, j);
    HeaderCut(m, j);
    if j == m.hdr { assert m.c[j..m.hdr] == []; EmptyPadded(false); }
    PatchInv(q, m, i, j, text, None);
    PatchVisible(q.lim, text, None, m.c[j].off);
    HeaderViews(m, i);
    ViewSplit(m, i + 1, j, m.hdr);
    var h := Shown(Render(text, q.lim));
    assert h + [] == h;
    ReplaceTail(View(HeaderItems(m)), |View(m.c[m.mesg + 1..i])|, View(m.c[i + 1..j]), View(m.c[j..m.hdr]), h);
  }

  lemma EmptyPadded(cont: bool)
    ensures Padded([], cont)
  {
  }

  lemma ReplaceTail(t: seq<Rec>, p: nat, gone: seq<Rec>, rest: seq<Rec>, hdr: seq<Rec>)
    requires p < |t| && t[p + 1..] == gone + rest && |gone| == FindEnd(t[p + 1..], t[p].typ == CONT)
    ensures ReplaceText(t, p, hdr) == t[..p] + hdr + rest
  {
    hide FindEnd;
    FindEndBound(t[p + 1..], t[p].typ == CONT);
    assert t[p + 1 + |gone|..] == t[p + 1..][|gone|..] == rest;
  }

  /** Delete a header: a pointer over its first record leads to its end. */
  lemma DeleteAt(q: Queue, m: Map, i: nat, j: nat, index: nat, name: seq<byte>)
    requires Inv(q, m) && |q.file| < PTR_LIMIT && index >= 1
    requires Found(m, i, index, Named(name), 1) && EndsAt(m, i, j)
    ensures m.c[i].off <= |q.file|
    ensures var p := Item(m.c[i].off, PtrRec(m.c[j].off));
            var m' := Edited(m, i, j, [p], m.c[m.hdr]);
            && Inv(q.(file := Put(q.file, p.off, p.rec)), m')
            && Abs(m') == Abs(m).(hdrs := DelText(Abs(m).hdrs, index, name))
            && Load(q.(file := Put(q.file, p.off, p.rec)), m') <= Load(q, m) + 1
  {
    hide Load, Padded, Edited, Markers, Shown, View, FindStart, Folded, LabelLen, Size, ContAfter, FindEnd, Put,
         Coverable, PtrRec, Path, BodyPart, HeaderRec, Slot;
    var p := Item(m.c[i].off, PtrRec(m.c[j].off));
    OffsetBounds(q, m, j);
    DeletePath(q, m, i, j);
    EditedInv(q, m, Put(q.file, p.off, p.rec), i, j, [p], m.c[m.hdr]);
    hide Inv, EditOk, Found, EndsAt;
    DeleteView(q, m, i, j, index, name);
    BacksOne(p);
    EditedLoad(q, m, q.(file := Put(q.file, p.off, p.rec)), i, j, [p], m.c[m.hdr]);
  }

  /** A pointer over a header hides it. */
  lemma DeleteView(q: Queue, m: Map, i: nat, j: nat, index: nat, name: seq<byte>)
    requires Inv(q, m) && |q.file| < PTR_LIMIT && index >= 1
    requires Found(m, i, index, Named(name), 1) && EndsAt(m, i, j)
    ensures View(m.c[m.mesg + 1..i]) + View([Item(m.c[i].off, PtrRec(m.c[j].off))]) + View(m.c[j..m.hdr])
         == DelText(HdrsOf(m), index, name)
  {
    hide Padded, Edited, Markers, Shown, View, FindStart, Folded, LabelLen, Size, ContAfter, FindEnd, Put,
         Coverable, PtrRec, Path, BodyPart, HeaderRec, Slot, Anchored;
    var p := Item(m.c[i].off, PtrRec(m.c[j].off));
    OffsetBounds(q, m, j);
    HeaderViews(m, i);
    ViewSplit(m, i + 1, j, m.hdr);
    PtrIsHeaderRec(m.c[j].off, q.lim);
    ViewOne(p);
    ReplaceTail(View(HeaderItems(m)), |View(m.c[m.mesg + 1..i])|, View(m.c[i + 1..j]), View(m.c[j..m.hdr]), []);
  }

  lemma DeletePath(q: Queue, m: Map, i: nat, j: nat)
    requires Inv(q, m) && |q.file| < PTR_LIMIT && m.mesg < i < m.hdr
    requires Starts(m.c[i].rec, ContAfter(m.c[m.mesg + 1..i], false)) && EndsAt(m, i, j)
    requires 0 < m.c[j].off < PTR_LIMIT
    ensures m.c[i].off <= |q.file|
    ensures var p := Item(m.c[i].off, PtrRec(m.c[j].off));
            EditOk(q, m, Put(q.file, p.off, p.rec), i, j, [p], m.c[m.hdr])
  {
    hide Padded, Edited, Markers, View, Folded, LabelLen, Size, ContAfter, FindEnd, Put,
         Coverable, PtrRec, Path, BodyPart, HeaderRec, Slot, Anchored;
    var p := Item(m.c[i].off, PtrRec(m.c[j].off));
    StartRoom(m, i, j);
    HeaderCut(m, i);
    HeaderCut(m, j);
    if j == m.hdr { assert m.c[j..m.hdr] == []; EmptyPadded(false); }
    SkipPath(q, m, i, j);
    EditedKeep(m, i, j, [p]);
    InvParts(q, m);
    SkipOutside(q, m, i, j);
    PtrIsHeaderRec(m.c[j].off, q.lim);
    var a := m.c[m.mesg + 1..i];
    PtrSucc(p.off, m.c[j].off);
    PaddedPtr(p, false);
    PaddedJoin(a, [p], false);
    ContAfterConcat(a, [p], false);
    PaddedJoin(a + [p], m.c[j..m.hdr], false);
  }

  lemma SkipPath(q: Queue, m: Map, i: nat, j: nat)
    requires Inv(q, m) && Coverable(m.c, i, j) && 0 < m.c[j].off < PTR_LIMIT
    ensures m.c[i].off <= |q.file|
    ensures var p := Item(m.c[i].off, PtrRec(m.c[j].off));
            && Path(Put(q.file, p.off, p.rec), m.c[..i] + [p] + m.c[j..])
            && |Put(q.file, p.off, p.rec)| == |q.file|
  {
    hide At, Padded, Put, Row, Size, PtrRec, Succ, Target, Markers, Anchored, HeaderPart, BodyPart, Readable;
    CoverClear(q.file, m.c, i, j);
    PtrSucc(m.c[i].off, m.c[j].off);
    Overwrite(q.file, m.c, i, j, PtrRec(m.c[j].off));
  }

  lemma SkipOutside(q: Queue, m: Map, i: nat, j: nat)
    requires Inv(q, m) && Coverable(m.c, i, j) && j <= m.hdr + 1 && 0 < m.c[j].off < PTR_LIMIT && |q.file| < PTR_LIMIT
    ensures AllOutside([Item(m.c[i].off, PtrRec(m.c[j].off))], Regions(q))
  {
    hide At, Padded, Markers, Anchored, HeaderPart, BodyPart, Path, PtrRec, Size;
    OutsidePtr(q, m, i, j);
    PtrRoundTrip(|q.file|);
    PtrRoundTrip(m.c[j].off);
    var a, b := Item(m.c[i].off, PtrRec(|q.file|)), Item(m.c[i].off, PtrRec(m.c[j].off));
    forall k, n | 0 <= k < 1 && 0 <= n < |Regions(q)| ensures Outside([b][k], Regions(q)[n]) {
      assert Outside([a][k], Regions(q)[n]);
    }
  }

  // ----- Appending a header -----

  ghost function AddedItems(q: Queue, m: Map, text: seq<byte>): seq<Item>
    requires Ordered(m) && q.lim.line >= 1
  {
    [Item(m.c[m.hdr].off, PtrRec(|q.file|))] + Row(|q.file|, Render(text, q.lim))
  }

  /** The new header append pointer. */
  function AddedPtr(q: Queue, text: seq<byte>): Item
    requires q.lim.line >= 1
  {
    Item(|q.file| + SizeAll(Render(text, q.lim)), PtrRec(q.hdrTarget))
  }

  lemma AddedShape(q: Queue, m: Map, text: seq<byte>)
    requires Ordered(m) && q.lim.line >= 1 && q.hdrTarget == m.c[m.hdr + 1].off
    ensures NewItems(q, m, m.hdr, PatchRecs(q.lim, text, None, q.hdrTarget))
         == AddedItems(q, m, text) + [AddedPtr(q, text)]
    ensures Edited(m, m.hdr, m.hdr, AddedItems(q, m, text), AddedPtr(q, text)).c
         == m.c[..m.hdr] + NewItems(q, m, m.hdr, PatchRecs(q.lim, text, None, q.hdrTarget)) + m.c[m.hdr + 1..]
  {
    hide Render, Row, PtrRec;
    var a, d := Render(text, q.lim), [PtrRec(q.hdrTarget)];
    assert PatchRecs(q.lim, text, None, q.hdrTarget) == a + d by { assert a + [] == a; }
    RowConcat(|q.file|, a, d);
    RowOne(|q.file| + SizeAll(a), d[0]);
    assert m.c[m.hdr..m.hdr] == [];
    assert m.c[..m.hdr] + AddedItems(q, m, text) + [] == m.c[..m.hdr] + AddedItems(q, m, text);
  }

  lemma AddedOutside(q: Queue, m: Map, text: seq<byte>)
    requires Inv(q, m) && |q.file| < PTR_LIMIT
    ensures AllOutside(AddedItems(q, m, text), Regions(q)) && AllOutside([AddedPtr(q, text)], Regions(q))
  {
    hide Render, Row, PtrRec, Outside, Padded, Markers, HeaderPart, BodyPart, Path, AllOutside;
    var rs := PatchRecs(q.lim, text, None, q.hdrTarget);
    assert Coverable(m.c, m.hdr, m.hdr + 1);
    OutsidePtr(q, m, m.hdr, m.hdr + 1);
    InvParts(q, m);
    OutsideRow(q, m, rs);
    NewItemsOutside(q, m, m.hdr, rs);
    AddedShape(q, m, text);
    OutsideSplit(AddedItems(q, m, text), [AddedPtr(q, text)], Regions(q));
  }

  lemma OutsideSplit(a: seq<Item>, b: seq<Item>, rs: seq<Region>)
    requires AllOutside(a + b, rs)
    ensures AllOutside(a, rs) && AllOutside(b, rs)
  {
    hide Outside;
    forall k, n | 0 <= k < |a| && 0 <= n < |rs| ensures Outside(a[k], rs[n]) { assert (a + b)[k] == a[k]; }
    forall k, n | 0 <= k < |b| && 0 <= n < |rs| ensures Outside(b[k], rs[n]) { assert (a + b)[|a| + k] == b[k]; }
  }

  lemma AddedHeaders(q: Queue, m: Map, text: seq<byte>)
    requires Inv(q, m) && |q.file| < PTR_LIMIT
    ensures Padded(m.c[m.mesg + 1..m.hdr] + AddedItems(q, m, text) + m.c[m.hdr..m.hdr], false)
    ensures forall k :: 0 <= k < |AddedItems(q, m, text)| ==> HeaderRec(AddedItems(q, m, text)[k].rec, q.lim)
  {
    hide Render, Row, Padded, ContAfter, Markers, BodyPart, Path, Anchored, RightAlign, HeaderRec, Size, Slot;
    var h, o := m.c[m.mesg + 1..m.hdr], |q.file|;
    var p := Item(m.c[m.hdr].off, PtrRec(o));
    var cont := ContAfter(h, false);
    PaddedRender(o, text, q.lim, cont);
    PaddedPtr(p, cont);
    PaddedJoin([p], Row(o, Render(text, q.lim)), cont);
    PaddedJoin(h, AddedItems(q, m, text), false);
    assert m.c[m.hdr..m.hdr] == [];
    assert h + AddedItems(q, m, text) + [] == h + AddedItems(q, m, text);
    InvParts(q, m);
    RenderKinds(text, q.lim);
    NewItemsHeaders(q, m, m.hdr, Render(text, q.lim));
    assert AddedItems(q, m, text) == NewItems(q, m, m.hdr, Render(text, q.lim));
  }

  /** Append a header at the append pointer; the new reverse pointer takes over. */
  lemma AddAtEnd(q: Queue, m: Map, text: seq<byte>)
    requires Inv(q, m) && |q.file| < PTR_LIMIT
    ensures m.c[m.hdr].off <= |q.file| && q.hdrPt == m.c[m.hdr].off
    ensures var rs := PatchRecs(q.lim, text, None, q.hdrTarget);
            var m' := Edited(m, m.hdr, m.hdr, AddedItems(q, m, text), AddedPtr(q, text));
            && Inv(q.(file := Committed(q.file, q.hdrPt, rs), hdrPt := AddedPtr(q, text).off), m')
            && Path(q.file + EncAll(rs), m.c)
            && Abs(m') == Abs(m).(hdrs := AddText(Abs(m).hdrs, Shown(Render(text, q.lim))))
            && Load(q.(file := Committed(q.file, q.hdrPt, rs), hdrPt := AddedPtr(q, text).off), m') <= Load(q, m) + 1
  {
    hide Load, Padded, PatchRecs, NewItems, Edited, Path, Markers, BodyPart, Committed, Shown, Render, Row, HeaderPart,
         View, EncAll, Size, PtrRec, HeaderRec, AllOutside;
    var rs := PatchRecs(q.lim, text, None, q.hdrTarget);
    assert Coverable(m.c, m.hdr, m.hdr + 1);
    OffsetBounds(q, m, m.hdr + 1);
    PatchLeadsTo(q, m, text, None, m.hdr + 1);
    CommitPath(q, m, m.hdr, m.hdr + 1, rs);
    AddedShape(q, m, text);
    AddedOutside(q, m, text);
    AddedHeaders(q, m, text);
    PtrSucc(AddedPtr(q, text).off, q.hdrTarget);
    EditedInv(q, m, Committed(q.file, q.hdrPt, rs), m.hdr, m.hdr, AddedItems(q, m, text), AddedPtr(q, text));
    AddedView(q, m, text);
    AddedLoad(q, m, text);
  }

  lemma AddedLoad(q: Queue, m: Map, text: seq<byte>)
    requires Inv(q, m) && |q.file| < PTR_LIMIT
    requires Ordered(Edited(m, m.hdr, m.hdr, AddedItems(q, m, text), AddedPtr(q, text)))
    ensures q.hdrPt <= |q.file|
    ensures var rs := PatchRecs(q.lim, text, None, q.hdrTarget);
            Load(q.(file := Committed(q.file, q.hdrPt, rs), hdrPt := AddedPtr(q, text).off),
                 Edited(m, m.hdr, m.hdr, AddedItems(q, m, text), AddedPtr(q, text))) <= Load(q, m) + 1
  {
    hide Path, Markers, HeaderPart, BodyPart, Edited, Load, Backs, Row, PtrRec, Render, Readable, Jumps, Committed, PatchRecs;
    var rs := PatchRecs(q.lim, text, None, q.hdrTarget);
    OffsetInside(q, m, m.hdr);
    RenderKinds(text, q.lim);
    CommitBacks(|q.file|, m.c[m.hdr].off, Render(text, q.lim));
    EditedLoad(q, m, q.(file := Committed(q.file, q.hdrPt, rs), hdrPt := AddedPtr(q, text).off),
               m.hdr, m.hdr, AddedItems(q, m, text), AddedPtr(q, text));
  }

  lemma AddedView(q: Queue, m: Map, text: seq<byte>)
    requires Ordered(m) && q.lim.line >= 1
    ensures View(AddedItems(q, m, text)) == Shown(Render(text, q.lim))
    ensures View(m.c[m.hdr..m.hdr]) == []
  {
    ViewNew(q, m, m.hdr, Render(text, q.lim));
    assert m.c[m.hdr..m.hdr] == [];
  }
}
