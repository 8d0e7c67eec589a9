/** Replacing the message body: first-fit regions and the chain of body records
    (src/cleanup/cleanup_region.c, src/cleanup/cleanup_body_edit.c). */
module BodyEdits {
  import opened Records
  import opened Chain
  import opened Headers
  import opened Rendering
  import opened Layout
  import opened HeaderEdits
  import opened Following
  import opened JumpLoad
  import opened HeaderOps

  // ----- Regions -----

  /** More than any file offset that a pointer can hold. */
  const WIDE: nat := 2 * PTR_LIMIT

  /** An open-ended region reaches beyond the end of the file. */
  function Wide(r: Region): Region { if r.len == 0 then r.(len := WIDE) else r }

  predicate SpanApart(a: Region, b: Region) {
    Disjoint(a.start, Wide(a).len, b.start, Wide(b).len)
  }

  /** Closed regions have room for a pointer and end inside the file. */
  predicate RegionOk(r: Region, end: nat) {
    if r.len == 0 then r.start <= end else Closed(r) && r.start + r.len <= end
  }

  ghost predicate Pool(rs: seq<Region>, end: nat) {
    && (forall i :: 0 <= i < |rs| ==> RegionOk(rs[i], end))
    && (forall i, j :: 0 <= i < j < |rs| ==> SpanApart(rs[i], rs[j]))
  }

  ghost predicate AllClosed(rs: seq<Region>) { forall i :: 0 <= i < |rs| ==> rs[i].len != 0 }

  ghost predicate Cross(a: seq<Region>, b: seq<Region>) {
    forall i, j :: 0 <= i < |a| && 0 <= j < |b| ==> SpanApart(a[i], b[j])
  }

  /** cleanup_region_open: the first free region that is large enough, or else an open-ended
      region at the end of the file. */
  ghost predicate Opened(free: seq<Region>, need: nat, end: nat, rest: seq<Region>, r: Region) {
    || (exists k: nat :: FirstFit(free, need, k) && rest == free[..k] + free[k + 1..]
                    && r == free[k].(writeOffs := free[k].start))
    || ((forall i :: 0 <= i < |free| ==> free[i].len < need) && rest == free && r == Region(end, 0, end))
  }

  ghost predicate FirstFit(free: seq<Region>, need: nat, k: nat) {
    k < |free| && free[k].len >= need && forall i :: 0 <= i < k ==> free[i].len < need
  }

  function Span(r: Region): (nat, nat) { (r.start, r.len) }

  function Spans(rs: seq<Region>): seq<(nat, nat)> { seq(|rs|, i requires 0 <= i < |rs| => Span(rs[i])) }

  /** Opening a region loses none and hands out none twice: a reused region moves out of the
      free pool, and a new one starts where the file ends. */
  lemma OpenConserves(free: seq<Region>, need: nat, end: nat, rest: seq<Region>, r: Region)
    requires Opened(free, need, end, rest, r)
    ensures r.len == 0 || need <= r.len
    ensures r.writeOffs == r.start && (need > 0 && r.len == 0 ==> r.start == end)
    ensures (r.start == end && r.len == 0 && rest == free)
         || multiset(Spans(rest)) + multiset{Span(r)} == multiset(Spans(free))
  {
    if k: nat :| FirstFit(free, need, k) && rest == free[..k] + free[k + 1..] && r == free[k].(writeOffs := free[k].start) {
      hide FirstFit;
      var s := Spans(free);
      assert k < |free| by { FitIndex(free, need, k); }
      assert s == s[..k] + ([s[k]] + s[k + 1..]);
      assert Spans(rest) == s[..k] + s[k + 1..];
    }
  }

  lemma FitIndex(free: seq<Region>, need: nat, k: nat)
    requires FirstFit(free, need, k)
    ensures k < |free|
  {
  }

  /** Regions before and after position k keep their order. */
  lemma OpenRest(free: seq<Region>, end: nat, k: nat)
    requires k < |free| && Pool(free, end) && AllClosed(free)
    ensures var rest := free[..k] + free[k + 1..];
            Pool(rest, end) && AllClosed(rest) && forall i :: 0 <= i < |rest| ==> SpanApart(rest[i], free[k])
  {
    hide SpanApart, RegionOk;
    var rest := free[..k] + free[k + 1..];
    forall i | 0 <= i < |rest| ensures rest[i] == free[if i < k then i else i + 1] {}
    forall i, j | 0 <= i < j < |rest| ensures SpanApart(rest[i], rest[j]) {
      assert SpanApart(free[if i < k then i else i + 1], free[if j < k then j else j + 1]);
    }
    forall i | 0 <= i < |rest| ensures SpanApart(rest[i], free[k]) {
      if i >= k { assert SpanApart(free[k], free[i + 1]); ApartBoth(free[k], free[i + 1]); }
    }
  }

  lemma ApartBoth(a: Region, b: Region)
    requires SpanApart(a, b)
    ensures SpanApart(b, a)
  {
  }

  lemma OpenPool(free: seq<Region>, body: seq<Region>, need: nat, end: nat, rest: seq<Region>, r: Region)
    requires Opened(free, need, end, rest, r)
    requires Pool(free, end) && Pool(body, end) && Cross(free, body) && AllClosed(free) && AllClosed(body)
    ensures Pool(rest, end) && AllClosed(rest) && Cross(rest, body) && RegionOk(r, end)
    ensures Pool(body + [r], end) && Cross(rest, body + [r])
  {
    if k: nat :| FirstFit(free, need, k) && rest == free[..k] + free[k + 1..] && r == free[k].(writeOffs := free[k].start) {
      FitIndex(free, need, k);
      hide FirstFit;
      OpenRest(free, end, k);
      forall i | 0 <= i < |rest| ensures SpanApart(rest[i], r) { assert SpanApart(rest[i], free[k]); }
      forall i | 0 <= i < |body| ensures SpanApart(body[i], r) { assert SpanApart(free[k], body[i]); }
      OpenCross(free, body, k);
    } else {
      forall i | 0 <= i < |rest| ensures SpanApart(rest[i], r) { assert RegionOk(free[i], end); }
      forall i | 0 <= i < |body| ensures SpanApart(body[i], r) { assert RegionOk(body[i], end); }
    }
    OpenJoin(rest, body, end, r);
  }

  lemma OpenCross(free: seq<Region>, body: seq<Region>, k: nat)
    requires k < |free| && Cross(free, body)
    ensures Cross(free[..k] + free[k + 1..], body)
  {
    hide SpanApart;
    var rest := free[..k] + free[k + 1..];
    forall i, j | 0 <= i < |rest| && 0 <= j < |body| ensures SpanApart(rest[i], body[j]) {
      assert rest[i] == free[if i < k then i else i + 1];
    }
  }

  lemma OpenJoin(rest: seq<Region>, body: seq<Region>, end: nat, r: Region)
    requires Pool(body, end) && Cross(rest, body) && RegionOk(r, end)
    requires forall i :: 0 <= i < |rest| ==> SpanApart(rest[i], r)
    requires forall i :: 0 <= i < |body| ==> SpanApart(body[i], r)
    ensures Pool(body + [r], end) && Cross(rest, body + [r])
  {
    hide SpanApart, RegionOk;
    var rb := body + [r];
    forall i, j | 0 <= i < |rest| && 0 <= j < |rb| ensures SpanApart(rest[i], rb[j]) {
      if j < |body| { assert rb[j] == body[j]; }
    }
    forall i, j | 0 <= i < j < |rb| ensures SpanApart(rb[i], rb[j]) {
      if j < |body| { assert SpanApart(body[i], body[j]); }
    }
  }

  // ----- A body replacement in progress -----

  /** The path up to the header append pointer, which leads to the first region. */
  ghost function Head(q: Queue, m: Map): seq<Item>
    requires Ordered(m)
  {
    m.c[..m.hdr] + [Item(q.hdrPt, PtrRec(q.hdrTarget))]
  }

  ghost function Tail(m: Map): seq<Item>
    requires Ordered(m)
  {
    m.c[m.xtra..]
  }

  function Current(q: Queue): Region
    requires q.body != []
  {
    q.body[|q.body| - 1]
  }

  predicate BodyRec(r: Rec) { IsText(r) || r.typ == PTR }

  /** Body records lie in regions that were filled, or before the write offset of the last one. */
  ghost predicate Placed(text: seq<Item>, body: seq<Region>) {
    body != [] && forall k :: 0 <= k < |text| ==> PlacedOne(text[k], body)
  }

  ghost predicate PlacedOne(x: Item, body: seq<Region>)
    requires body != []
  {
    var cur := body[|body| - 1];
    || (exists i :: 0 <= i < |body| - 1 && Inside(x, body[i]))
    || (cur.start <= x.off && Limit(x) <= cur.writeOffs)
  }

  /** Room in the current region: always for one more pointer record. */
  predicate Room(r: Region, end: nat) {
    && r.start <= r.writeOffs
    && if r.len == 0 then r.writeOffs == end else r.writeOffs + PTR_SIZE <= r.start + r.len
  }

  ghost predicate PoolsOk(q: Queue) {
    && q.body != [] && Pool(q.free, |q.file|) && Pool(q.body, |q.file|) && Cross(q.free, q.body)
    && AllClosed(q.free) && AllClosed(q.body[..|q.body| - 1])
  }

  ghost predicate WideOutside(c: seq<Item>, rs: seq<Region>) {
    forall k, i :: 0 <= k < |c| && 0 <= i < |rs| ==> Outside(c[k], Wide(rs[i]))
  }

  /** What stays fixed while a body is replaced. */
  ghost predicate Frame(q: Queue, m: Map) {
    && Sane(q.lim) && Ordered(m) && Markers(m) && HeaderPart(m, q.lim) && m.c[0].off == 0
    && Anchored(q.(hdrTarget := m.c[m.hdr + 1].off), m) && 0 < q.hdrTarget < PTR_LIMIT
    && q.body != [] && PoolsOk(q)
    && WideOutside(Head(q, m), q.free + q.body) && WideOutside(Tail(m), q.free + q.body)
  }

  /** The new body so far is text; the stream is at the write offset of the current region. */
  ghost predicate Editing(q: Queue, m: Map, text: seq<Item>) {
    && Frame(q, m)
    && Path(q.file, Head(q, m) + text) && Path(q.file, Tail(m)) && Separate(Head(q, m) + text, Tail(m))
    && Succ((Head(q, m) + text)[m.hdr + |text|]) == Current(q).writeOffs
    && Room(Current(q), |q.file|) && Placed(text, q.body)
    && (forall k :: 0 <= k < |text| ==> BodyRec(text[k].rec))
    && q.contLength + (Current(q).writeOffs - Current(q).start)
       == q.bodyOffset - q.dataOffset + SizeAll(View(text))
  }

  /** n bytes at the write offset belong to the current region. */
  predicate HasRoom(r: Region, n: nat) {
    if r.len == 0 then r.writeOffs + n <= r.start + WIDE else r.writeOffs + n <= r.start + r.len
  }

  /** Nothing on the path lies where the next record goes. */
  lemma RoomClear(q: Queue, m: Map, text: seq<Item>, n: nat)
    requires Editing(q, m, text) && HasRoom(Current(q), n)
    ensures Clear(Head(q, m) + text, Current(q).writeOffs, n) && Clear(Tail(m), Current(q).writeOffs, n)
  {
    hide Path, Markers, HeaderPart, Anchored, View, SizeAll, Separate, Size, Head, Tail, Succ, BodyRec;
    var cur, last := Current(q), |q.body| - 1;
    var rs, h := q.free + q.body, Head(q, m);
    assert rs[|q.free| + last] == cur;
    forall k | 0 <= k < |h| ensures Apart(h[k], cur.writeOffs, n) {
      assert Outside(h[k], Wide(rs[|q.free| + last]));
    }
    forall k | 0 <= k < |Tail(m)| ensures Apart(Tail(m)[k], cur.writeOffs, n) {
      assert Outside(Tail(m)[k], Wide(rs[|q.free| + last]));
    }
    forall k | 0 <= k < |text| ensures Apart(text[k], cur.writeOffs, n) {
      PlacedApart(q, text[k], n);
    }
    var c := h + text;
    forall k | 0 <= k < |c| ensures Apart(c[k], cur.writeOffs, n) {
      if k < |h| { assert c[k] == h[k]; } else { assert c[k] == text[k - |h|]; }
    }
  }

  lemma PlacedApart(q: Queue, x: Item, n: nat)
    requires PoolsOk(q) && Room(Current(q), |q.file|) && HasRoom(Current(q), n) && PlacedOne(x, q.body)
    ensures Apart(x, Current(q).writeOffs, n)
  {
    hide Size;
    var cur, last := Current(q), |q.body| - 1;
    if !(cur.start <= x.off && Limit(x) <= cur.writeOffs) {
      var i :| 0 <= i < last && Inside(x, q.body[i]);
      assert SpanApart(q.body[i], q.body[last]);
      assert q.body[..last][i] == q.body[i];
    }
  }

  /** One more body record at the write offset. */
  lemma PutBody(q: Queue, m: Map, text: seq<Item>, r: Rec)
    requires Editing(q, m, text) && Readable(r) && HasRoom(Current(q), Size(r))
    ensures Current(q).writeOffs <= |q.file|
    ensures var w := Current(q).writeOffs; var f := Put(q.file, w, r); var c := Head(q, m) + text + [Item(w, r)];
            && Path(f, c) && Path(f, Tail(m)) && Separate(c, Tail(m))
            && |f| == if w + Size(r) <= |q.file| then |q.file| else w + Size(r)
  {
    RoomClear(q, m, text, Size(r));
    WriteInside(q, m, text);
    hide Markers, HeaderPart, Anchored, View, SizeAll, Size, Head, Tail, BodyRec, Put, At, PoolsOk, WideOutside, Readable, Succ;
    var w, a, t := Current(q).writeOffs, Head(q, m) + text, Tail(m);
    var x := Item(w, r);
    PutAt(q.file, w, r);
    PutKeepsPath(q.file, w, r, a);
    PutKeepsPath(q.file, w, r, t);
    var f := Put(q.file, w, r);
    assert Path(f, [x]);
    assert Separate(a, [x]);
    HeadLength(q, m, text);
    JoinPaths(f, a, [x]);
    forall i, j | 0 <= i < |a + [x]| && 0 <= j < |t| ensures Apart((a + [x])[i], t[j].off, Size(t[j].rec)) {
      if i == |a| { assert Apart(t[j], w, Size(r)); } else { assert (a + [x])[i] == a[i]; }
    }
  }

  lemma HeadLength(q: Queue, m: Map, text: seq<Item>)
    requires Ordered(m)
    ensures |Head(q, m) + text| == m.hdr + 1 + |text|
  {
  }

  lemma WriteInside(q: Queue, m: Map, text: seq<Item>)
    requires Editing(q, m, text)
    ensures Current(q).writeOffs <= |q.file|
  {
    hide Path, Markers, HeaderPart, Anchored, View, SizeAll, Separate, Head, Tail, Succ;
    assert RegionOk(q.body[|q.body| - 1], |q.file|);
  }

  // ----- Writing a line -----

  function Advanced(body: seq<Region>, n: nat): seq<Region>
    requires body != []
  {
    var last := |body| - 1;
    body[last := body[last].(writeOffs := body[last].writeOffs + n)]
  }

  lemma PoolGrows(rs: seq<Region>, rs': seq<Region>, end: nat, end': nat)
    requires Pool(rs, end) && end <= end' && |rs'| == |rs|
    requires forall i :: 0 <= i < |rs| ==> Span(rs'[i]) == Span(rs[i])
    ensures Pool(rs', end')
  {
    forall i | 0 <= i < |rs'| ensures RegionOk(rs'[i], end') { assert RegionOk(rs[i], end); }
    forall i, j | 0 <= i < j < |rs'| ensures SpanApart(rs'[i], rs'[j]) { assert SpanApart(rs[i], rs[j]); }
  }

  lemma CrossSame(a: seq<Region>, b: seq<Region>, b': seq<Region>)
    requires Cross(a, b) && |b'| == |b| && forall i :: 0 <= i < |b| ==> Span(b'[i]) == Span(b[i])
    ensures Cross(a, b')
  {
    forall i, j | 0 <= i < |a| && 0 <= j < |b'| ensures SpanApart(a[i], b'[j]) { assert SpanApart(a[i], b[j]); }
  }

  lemma OutsideSame(c: seq<Item>, rs: seq<Region>, rs': seq<Region>)
    requires WideOutside(c, rs) && |rs'| == |rs| && forall i :: 0 <= i < |rs| ==> Span(rs'[i]) == Span(rs[i])
    ensures WideOutside(c, rs')
  {
    hide Size;
    forall k, i | 0 <= k < |c| && 0 <= i < |rs'| ensures Outside(c[k], Wide(rs'[i])) {
      assert Outside(c[k], Wide(rs[i]));
    }
  }

  lemma AdvanceFrame(q: Queue, m: Map, n: nat, file: seq<byte>)
    requires Frame(q, m) && |q.file| <= |file|
    ensures Frame(q.(file := file, body := Advanced(q.body, n)), m)
  {
    hide Markers, HeaderPart, SenderRoom, Pool, Cross, WideOutside, Slot;
    var q', last := q.(file := file, body := Advanced(q.body, n)), |q.body| - 1;
    assert Head(q', m) == Head(q, m);
    PoolGrows(q.free, q.free, |q.file|, |file|);
    PoolGrows(q.body, q'.body, |q.file|, |file|);
    CrossSame(q.free, q.body, q'.body);
    OutsideSame(Head(q, m), q.free + q.body, q'.free + q'.body);
    OutsideSame(Tail(m), q.free + q.body, q'.free + q'.body);
    assert q'.body[..last] == q.body[..last];
    assert Anchored(q'.(hdrTarget := m.c[m.hdr + 1].off), m);
  }

  lemma AdvancePlaced(text: seq<Item>, x: Item, body: seq<Region>, n: nat)
    requires Placed(text, body) && body[|body| - 1].start <= x.off && Limit(x) <= body[|body| - 1].writeOffs + n
    ensures Placed(text + [x], Advanced(body, n))
  {
    hide Size;
    var b', c := Advanced(body, n), text + [x];
    forall k | 0 <= k < |c| ensures PlacedOne(c[k], b') {
      if k < |text| {
        assert c[k] == text[k] && PlacedOne(text[k], body);
        if i :| 0 <= i < |body| - 1 && Inside(text[k], body[i]) { assert Inside(text[k], b'[i]); }
      }
    }
  }

  lemma ContLength(text: seq<Item>, x: Item)
    ensures SizeAll(View(text + [x])) == SizeAll(View(text)) + if Visible(x.rec) then Size(x.rec) else 0
    ensures View(text + [x]) == View(text) + if Visible(x.rec) then [x.rec] else []
  {
    hide View, Size;
    ViewConcat(text, [x]);
    ViewOne(x);
    SizeAllConcat(View(text), View([x]));
    if Visible(x.rec) { assert [x.rec][1..] == []; }
  }

  /** cleanup_body_edit_write in the current region. */
  lemma EditLine(q: Queue, m: Map, text: seq<Item>, r: Rec)
    requires Editing(q, m, text) && Readable(r) && IsText(r) && HasRoom(Current(q), Size(r) + PTR_SIZE)
    ensures Current(q).writeOffs <= |q.file|
    ensures var w := Current(q).writeOffs;
            Editing(q.(file := Put(q.file, w, r), body := Advanced(q.body, Size(r))), m, text + [Item(w, r)])
  {
    hide Path, Put, View, SizeAll, Separate, Head, Tail, Succ, BodyRec, Readable;
    var w := Current(q).writeOffs;
    var x, f := Item(w, r), Put(q.file, w, r);
    WriteInside(q, m, text);
    PutBody(q, m, text, r);
    AdvanceFrame(q, m, Size(r), f);
    hide Frame, PoolsOk, WideOutside, Size;
    var q', t' := q.(file := f, body := Advanced(q.body, Size(r))), text + [x];
    assert Head(q', m) == Head(q, m) by { HeadSame(q, q', m); }
    assert Head(q, m) + t' == Head(q, m) + text + [x];
    HeadLength(q, m, text);
    assert Ordered(m) by { FrameOrdered(q, m); }
    assert (Head(q, m) + t')[m.hdr + |t'|] == x;
    TextSucc(x);
    AdvancePlaced(text, x, q.body, Size(r));
    ContLength(text, x);
    assert BodyRec(r) by { TextIsBody(r); }
    assert Current(q') == Current(q).(writeOffs := w + Size(r));
  }

  lemma HeadSame(q: Queue, q': Queue, m: Map)
    requires Ordered(m) && q'.hdrPt == q.hdrPt && q'.hdrTarget == q.hdrTarget
    ensures Head(q', m) == Head(q, m)
  {
  }

  lemma FrameOrdered(q: Queue, m: Map)
    requires Frame(q, m)
    ensures Ordered(m) && q.body != [] && q.xtraOffset == m.c[m.xtra].off && q.hdrPt == m.c[m.hdr].off
  {
    hide Markers, HeaderPart, Pool, Cross, WideOutside, Size;
  }

  lemma TextSucc(x: Item)
    requires IsText(x.rec)
    ensures Succ(x) == Limit(x) && Visible(x.rec)
  {
  }

  lemma TextIsBody(r: Rec)
    requires IsText(r)
    ensures BodyRec(r)
  {
  }

  // ----- Switching to another region -----

  ghost function Switched(q: Queue, rest: seq<Region>, next: Region): Queue
    requires q.body != [] && Current(q).writeOffs <= |q.file|
  {
    q.(file := Put(q.file, Current(q).writeOffs, PtrRec(next.start)), free := rest,
       body := Advanced(q.body, PTR_SIZE) + [next],
       contLength := q.contLength + (Current(q).writeOffs - Current(q).start))
  }

  /** Regions do not start at offset 0, where the first record of the file is. */
  lemma RegionStart(c: seq<Item>, f: seq<byte>, r: Region)
    requires c != [] && c[0].off == 0 && Stored(f, c) && Outside(c[0], Wide(r)) && (r.len == 0 || Closed(r))
    ensures r.start > 0
  {
    StoredFits(f, c, 0);
  }

  lemma OpenOutside(c: seq<Item>, f: seq<byte>, free: seq<Region>, need: nat, rest: seq<Region>, r: Region)
    requires Opened(free, need, |f|, rest, r) && WideOutside(c, free) && Stored(f, c)
    ensures WideOutside(c, rest) && forall k :: 0 <= k < |c| ==> Outside(c[k], Wide(r))
  {
    hide Size, At, Readable;
    if k: nat :| FirstFit(free, need, k) && rest == free[..k] + free[k + 1..] && r == free[k].(writeOffs := free[k].start) {
      forall n, i | 0 <= n < |c| && 0 <= i < |rest| ensures Outside(c[n], Wide(rest[i])) {
        assert Outside(c[n], Wide(free[if i < k then i else i + 1]));
      }
      forall n | 0 <= n < |c| ensures Outside(c[n], Wide(r)) { assert Outside(c[n], Wide(free[k])); }
    } else {
      forall n | 0 <= n < |c| ensures Outside(c[n], Wide(r)) { StoredFits(f, c, n); }
    }
  }

  lemma OutsideJoin(c: seq<Item>, a: seq<Region>, b: seq<Region>)
    ensures WideOutside(c, a + b) <==> WideOutside(c, a) && WideOutside(c, b)
  {
    hide Outside;
    var rs := a + b;
    if WideOutside(c, rs) {
      forall k, i | 0 <= k < |c| && 0 <= i < |a| ensures Outside(c[k], Wide(a[i])) { assert rs[i] == a[i]; }
      forall k, i | 0 <= k < |c| && 0 <= i < |b| ensures Outside(c[k], Wide(b[i])) { assert rs[|a| + i] == b[i]; }
    }
  }

  lemma SwitchOutside(c: seq<Item>, q: Queue, body: seq<Region>, need: nat, rest: seq<Region>, next: Region)
    requires Opened(q.free, need, |q.file|, rest, next) && WideOutside(c, q.free + q.body) && Stored(q.file, c)
    requires |body| == |q.body| && forall i :: 0 <= i < |body| ==> Span(body[i]) == Span(q.body[i])
    ensures WideOutside(c, rest + (body + [next]))
  {
    hide WideOutside, Stored, Opened;
    OutsideJoin(c, q.free, q.body);
    OpenOutside(c, q.file, q.free, need, rest, next);
    OutsideSame(c, q.body, body);
    assert WideOutside(c, [next]) by { OneOutside(c, next); }
    OutsideJoin(c, body, [next]);
    OutsideJoin(c, rest, body + [next]);
  }

  lemma OneOutside(c: seq<Item>, r: Region)
    requires forall k :: 0 <= k < |c| ==> Outside(c[k], Wide(r))
    ensures WideOutside(c, [r])
  {
  }

  lemma SwitchFrame(q: Queue, m: Map, need: nat, rest: seq<Region>, next: Region, file: seq<byte>)
    requires Frame(q, m) && Current(q).len != 0 && |file| == |q.file|
    requires Opened(q.free, need, |q.file|, rest, next)
    requires Stored(q.file, Head(q, m)) && Stored(q.file, Tail(m))
    ensures var body := Advanced(q.body, PTR_SIZE);
            Frame(q.(file := file, free := rest, body := body + [next], contLength := 0), m) && RegionOk(next, |file|)
  {
    hide Markers, HeaderPart, SenderRoom, Slot, Stored, Opened, WideOutside;
    var body := Advanced(q.body, PTR_SIZE);
    var q' := q.(file := file, free := rest, body := body + [next], contLength := 0);
    HeadSame(q, q', m);
    SwitchPools(q, need, rest, next, |file|);
    SwitchOutside(Head(q, m), q, body, need, rest, next);
    SwitchOutside(Tail(m), q, body, need, rest, next);
    assert q'.body[..|q'.body| - 1] == body;
    assert Anchored(q'.(hdrTarget := m.c[m.hdr + 1].off), m);
  }

  lemma SwitchPools(q: Queue, need: nat, rest: seq<Region>, next: Region, end: nat)
    requires PoolsOk(q) && Current(q).len != 0 && end == |q.file| && Opened(q.free, need, |q.file|, rest, next)
    ensures var body := Advanced(q.body, PTR_SIZE);
            && Pool(rest, end) && AllClosed(rest) && AllClosed(body) && RegionOk(next, end)
            && Pool(body + [next], end) && Cross(rest, body + [next])
  {
    hide Opened;
    var body, last := Advanced(q.body, PTR_SIZE), |q.body| - 1;
    forall i | 0 <= i < |body| ensures body[i].len != 0 {
      if i < last { assert q.body[..last][i] == q.body[i]; }
    }
    PoolGrows(q.body, body, end, end);
    CrossSame(q.free, q.body, body);
    OpenPool(q.free, body, need, end, rest, next);
  }

  lemma SwitchPlaced(text: seq<Item>, x: Item, body: seq<Region>, next: Region, end: nat)
    requires Placed(text, body) && body[|body| - 1].len != 0 && Room(body[|body| - 1], end)
    requires x.off == body[|body| - 1].writeOffs && Size(x.rec) == PTR_SIZE
    ensures Placed(text + [x], Advanced(body, PTR_SIZE) + [next])
  {
    hide Size;
    var b', c, last := Advanced(body, PTR_SIZE) + [next], text + [x], |body| - 1;
    forall k | 0 <= k < |c| ensures PlacedOne(c[k], b') {
      if k < |text| {
        assert c[k] == text[k] && PlacedOne(text[k], body);
        if i :| 0 <= i < last && Inside(text[k], body[i]) {
          assert Inside(text[k], b'[i]);
        } else {
          assert Inside(text[k], b'[last]);
        }
      } else {
        assert Inside(x, b'[last]);
      }
    }
  }

  lemma NextStart(q: Queue, m: Map, need: nat, rest: seq<Region>, next: Region)
    requires Frame(q, m) && Opened(q.free, need, |q.file|, rest, next) && Stored(q.file, Head(q, m)) && |q.file| < PTR_LIMIT
    requires need >= PTR_SIZE && Current(q).len != 0
    ensures 0 < next.start < PTR_LIMIT && Room(next, |q.file|)
  {
    hide Markers, HeaderPart, Anchored, Stored, WideOutside, Opened;
    var h := Head(q, m);
    assert h[0] == m.c[0];
    OutsideJoin(h, q.free, q.body);
    OpenOutside(h, q.file, q.free, need, rest, next);
    SwitchPools(q, need, rest, next, |q.file|);
    RegionStart(h, q.file, next);
    OpenConserves(q.free, need, |q.file|, rest, next);
  }

  lemma EditStored(q: Queue, m: Map, text: seq<Item>)
    requires Editing(q, m, text)
    ensures Stored(q.file, Head(q, m)) && Stored(q.file, Tail(m)) && |Head(q, m)| == m.hdr + 1
  {
    hide Frame, PoolsOk, View, SizeAll, Placed, At, Readable, Head, Tail;
    assert Ordered(m) by { FrameOrdered(q, m); }
    var h, c := Head(q, m), Head(q, m) + text;
    forall i | 0 <= i < |h| ensures At(q.file, h[i].off, h[i].rec) && Readable(h[i].rec) { assert c[i] == h[i]; }
    HeadLength(q, m, text);
  }

  /** A full region is linked to the next one; room for the link was kept. */
  lemma EditSwitch(q: Queue, m: Map, text: seq<Item>, need: nat, rest: seq<Region>, next: Region)
    requires Editing(q, m, text) && Current(q).len != 0 && |q.file| < PTR_LIMIT && need >= PTR_SIZE
    requires Opened(q.free, need, |q.file|, rest, next)
    ensures Current(q).writeOffs <= |q.file|
    ensures Editing(Switched(q, rest, next), m, text + [Item(Current(q).writeOffs, PtrRec(next.start))])
    ensures 0 < next.start < PTR_LIMIT && |Switched(q, rest, next).file| == |q.file|
  {
    hide Path, Put, View, SizeAll, Separate, Head, Tail, Succ, BodyRec, Opened, Stored;
    var w := Current(q).writeOffs;
    WriteInside(q, m, text);
    EditStored(q, m, text);
    NextStart(q, m, need, rest, next);
    var r := PtrRec(next.start);
    PtrSucc(w, next.start);
    var x, f := Item(w, r), Put(q.file, w, r);
    PutBody(q, m, text, r);
    assert |f| == |q.file| by { assert RegionOk(q.body[|q.body| - 1], |q.file|); }
    SwitchFrame(q, m, need, rest, next, f);
    SwitchPlaced(text, x, q.body, next, |q.file|);
    OpenConserves(q.free, need, |q.file|, rest, next);
    ContLength(text, x);
    hide PtrRec;
    SwitchLinks(q, m, text, rest, next);
  }

  lemma SwitchLinks(q: Queue, m: Map, text: seq<Item>, rest: seq<Region>, next: Region)
    requires Editing(q, m, text) && Current(q).writeOffs <= |q.file| && 0 < next.start < PTR_LIMIT
    requires next.writeOffs == next.start && Room(next, |q.file|)
    requires var w := Current(q).writeOffs; var x := Item(w, PtrRec(next.start)); var q' := Switched(q, rest, next);
             && Path(q'.file, Head(q, m) + text + [x]) && Path(q'.file, Tail(m))
             && Separate(Head(q, m) + text + [x], Tail(m)) && |q'.file| == |q.file|
             && Frame(q'.(contLength := 0), m) && Placed(text + [x], q'.body)
             && SizeAll(View(text + [x])) == SizeAll(View(text))
    ensures Editing(Switched(q, rest, next), m, text + [Item(Current(q).writeOffs, PtrRec(next.start))])
  {
    hide Path, Put, View, SizeAll, Separate, Head, Tail, Succ, Placed, PoolsOk, WideOutside, Markers, HeaderPart;
    var w := Current(q).writeOffs;
    var x, q' := Item(w, PtrRec(next.start)), Switched(q, rest, next);
    var t' := text + [x];
    PtrSucc(w, next.start);
    hide PtrRec;
    HeadSame(q, q', m);
    FrameCont(q', m);
    HeadLength(q, m, text);
    assert Head(q, m) + t' == Head(q, m) + text + [x];
    assert (Head(q, m) + t')[m.hdr + |t'|] == x;
  }

  lemma FrameCont(q: Queue, m: Map)
    requires Frame(q.(contLength := 0), m)
    ensures Frame(q, m)
  {
    hide Markers, HeaderPart, SenderRoom, Slot, Pool, Cross, WideOutside;
    var q' := q.(contLength := 0);
    HeadSame(q', q, m);
    assert Anchored(q'.(hdrTarget := m.c[m.hdr + 1].off), m);
  }

  // ----- Start and finish -----

  lemma PackedPool(rs: seq<Region>, end: nat)
    requires Packed(rs, end)
    ensures Pool(rs, end) && AllClosed(rs)
  {
    forall i | 0 <= i < |rs| ensures RegionOk(rs[i], end) && rs[i].len != 0 { assert Closed(rs[i]); }
  }

  lemma PoolPacked(rs: seq<Region>, end: nat)
    requires Pool(rs, end) && AllClosed(rs)
    ensures Packed(rs, end)
  {
    forall i, j | 0 <= i < j < |rs| ensures Disjoint(rs[i].start, rs[i].len, rs[j].start, rs[j].len) {
      assert SpanApart(rs[i], rs[j]);
    }
    forall i | 0 <= i < |rs| ensures Closed(rs[i]) && rs[i].start + rs[i].len <= end { assert RegionOk(rs[i], end); }
  }

  lemma OutsideWide(c: seq<Item>, rs: seq<Region>)
    requires AllClosed(rs)
    ensures AllOutside(c, rs) <==> WideOutside(c, rs)
  {
    hide Outside;
    assert forall i :: 0 <= i < |rs| ==> Wide(rs[i]) == rs[i];
  }

  ghost function Started(q: Queue, rest: seq<Region>, r: Region): Queue
    requires q.hdrPt <= |q.file|
  {
    q.(file := Put(q.file, q.hdrPt, PtrRec(r.start)), hdrTarget := r.start, free := rest, body := [r],
       contLength := q.bodyOffset - q.dataOffset)
  }

  lemma StartRegion(q: Queue, m: Map, rest: seq<Region>, r: Region)
    requires Inv(q, m) && Opened(Regions(q), PTR_SIZE, |q.file|, rest, r) && |q.file| < PTR_LIMIT
    ensures r.len != 0 && 0 < r.start < PTR_LIMIT && Room(r, |q.file|)
    ensures Pool(rest, |q.file|) && AllClosed(rest) && Pool([r], |q.file|) && Cross(rest, [r])
    ensures WideOutside(m.c[..m.hdr + 1], rest + [r]) && WideOutside(Tail(m), rest + [r])
  {
    hide Markers, HeaderPart, Anchored, At, Readable, Linked, Distinct, EachInside, Closed, Opened, WideOutside;
    var rs, h := Regions(q), m.c[..m.hdr + 1];
    PackedPool(rs, |q.file|);
    assert Cross(rs, []) && AllClosed([]) && Pool([], |q.file|);
    OpenPool(rs, [], PTR_SIZE, |q.file|, rest, r);
    assert [] + [r] == [r];
    OpenConserves(rs, PTR_SIZE, |q.file|, rest, r);
    StartFits(rs, |q.file|, rest, r);
    assert Stored(q.file, h) && Stored(q.file, Tail(m)) by { HeadTailStored(q, m); }
    StartOutside(h, q.file, rs, rest, r);
    StartOutside(Tail(m), q.file, rs, rest, r);
    assert h[0] == m.c[0];
    OpenOutside(h, q.file, rs, PTR_SIZE, rest, r) by { OutsideWide(h, rs); }
    RegionStart(h, q.file, r);
  }

  lemma HeadTailStored(q: Queue, m: Map)
    requires Inv(q, m)
    ensures Stored(q.file, m.c[..m.hdr + 1]) && Stored(q.file, Tail(m))
  {
    hide At, Readable, Markers, HeaderPart, Anchored, BodyPart;
  }

  lemma StartFits(rs: seq<Region>, end: nat, rest: seq<Region>, r: Region)
    requires rs != [] && Packed(rs, end) && Opened(rs, PTR_SIZE, end, rest, r)
    ensures r.len >= PTR_SIZE
  {
    assert Closed(rs[0]);
  }

  lemma StartOutside(c: seq<Item>, f: seq<byte>, rs: seq<Region>, rest: seq<Region>, r: Region)
    requires AllOutside(c, rs) && AllClosed(rs) && Opened(rs, PTR_SIZE, |f|, rest, r) && Stored(f, c)
    ensures WideOutside(c, rest + [r])
  {
    hide WideOutside, AllOutside, AllClosed, Opened, Stored;
    OutsideWide(c, rs);
    OpenOutside(c, f, rs, PTR_SIZE, rest, r);
    OneOutside(c, r);
    OutsideJoin(c, rest, [r]);
  }

  lemma StartPath(q: Queue, m: Map, v: nat)
    requires Inv(q, m) && 0 < v < PTR_LIMIT
    ensures q.hdrPt == m.c[m.hdr].off && q.hdrPt <= |q.file|
    ensures var f := Put(q.file, q.hdrPt, PtrRec(v)); var h := m.c[..m.hdr] + [Item(q.hdrPt, PtrRec(v))];
            Path(f, h) && Path(f, Tail(m)) && Separate(h, Tail(m)) && |f| == |q.file|
  {
    hide Markers, HeaderPart, BodyPart, Path, PtrRec, Put, Separate, Clear;
    SelfApart(q, m);
    Relink(q.file, m, v);
  }

  lemma Relink(f: seq<byte>, m: Map, v: nat)
    requires Ordered(m) && Path(f, m.c) && 0 < v < PTR_LIMIT && m.c[m.hdr].off + PTR_SIZE <= |f|
    requires Clear(m.c[..m.hdr], m.c[m.hdr].off, PTR_SIZE) && Clear(Tail(m), m.c[m.hdr].off, PTR_SIZE)
    ensures var o := m.c[m.hdr].off; var g, h := Put(f, o, PtrRec(v)), m.c[..m.hdr] + [Item(o, PtrRec(v))];
            Path(g, h) && Path(g, Tail(m)) && Separate(h, Tail(m)) && |g| == |f|
  {
    var o, r := m.c[m.hdr].off, PtrRec(v);
    PtrSucc(o, v);
    hide At, Readable, PtrRec, Put, Succ, Size;
    var x, a, t := Item(o, r), m.c[..m.hdr], Tail(m);
    SubPath(f, m.c, 0, m.hdr);
    SubPath(f, m.c, m.xtra, |m.c|);
    assert m.c[0..m.hdr] == a && m.c[m.xtra..|m.c|] == t;
    PutKeepsPath(f, o, r, a);
    PutKeepsPath(f, o, r, t);
    PutAt(f, o, r);
    var g := Put(f, o, r);
    assert Path(g, [x]);
    assert Succ(m.c[m.hdr - 1]) == m.c[m.hdr].off;
    JoinPaths(g, a, [x]);
    StartSeparate(m, x);
  }

  lemma StartSeparate(m: Map, x: Item)
    requires Ordered(m) && Distinct(m.c) && Clear(Tail(m), x.off, PTR_SIZE) && Size(x.rec) == PTR_SIZE
    ensures Separate(m.c[..m.hdr] + [x], Tail(m))
  {
    hide Size;
    var h, t := m.c[..m.hdr] + [x], Tail(m);
    forall i, j | 0 <= i < |h| && 0 <= j < |t| ensures Apart(h[i], t[j].off, Size(t[j].rec)) {
      assert t[j] == m.c[m.xtra + j];
      if i < m.hdr { assert h[i] == m.c[i]; } else { assert Apart(t[j], x.off, PTR_SIZE); }
    }
  }

  lemma SelfApart(q: Queue, m: Map)
    requires Inv(q, m)
    ensures Clear(m.c[..m.hdr], m.c[m.hdr].off, PTR_SIZE) && Clear(Tail(m), m.c[m.hdr].off, PTR_SIZE)
    ensures m.c[m.hdr].off + PTR_SIZE <= |q.file|
  {
    hide Markers, HeaderPart, BodyPart, Path;
    assert Coverable(m.c, m.hdr, m.hdr + 1);
    CoverClear(q.file, m.c, m.hdr, m.hdr + 1);
    var b, t := m.c[m.hdr + 1..], Tail(m);
    forall k | 0 <= k < |t| ensures Apart(t[k], m.c[m.hdr].off, PTR_SIZE) {
      assert t[k] == m.c[m.xtra + k] && b[m.xtra - m.hdr - 1 + k] == m.c[m.xtra + k];
    }
  }

  lemma StartFrame(q: Queue, m: Map, rest: seq<Region>, r: Region)
    requires Inv(q, m) && q.hdrPt == m.c[m.hdr].off <= |q.file| && Opened(Regions(q), PTR_SIZE, |q.file|, rest, r)
    requires |q.file| < PTR_LIMIT && |Put(q.file, q.hdrPt, PtrRec(r.start))| == |q.file|
    ensures Frame(Started(q, rest, r), m)
  {
    hide Path, Markers, HeaderPart, BodyPart, SenderRoom, Put, Opened;
    StartRegion(q, m, rest, r);
    PtrSucc(q.hdrPt, r.start);
    hide PtrRec, Pool, Cross;
    var q', h := Started(q, rest, r), m.c[..m.hdr + 1];
    StartHead(q', m, h, rest + [r]);
    assert q'.body[..|q'.body| - 1] == [];
    assert Anchored(q'.(hdrTarget := m.c[m.hdr + 1].off), m);
  }

  lemma StartHead(q: Queue, m: Map, h: seq<Item>, rs: seq<Region>)
    requires Ordered(m) && h == m.c[..m.hdr + 1] && q.hdrPt == m.c[m.hdr].off && Size(m.c[m.hdr].rec) == PTR_SIZE
    requires Size(PtrRec(q.hdrTarget)) == PTR_SIZE && WideOutside(h, rs)
    ensures WideOutside(Head(q, m), rs)
  {
    hide Size, PtrRec;
    var h' := Head(q, m);
    forall k, i | 0 <= k < |h'| && 0 <= i < |rs| ensures Outside(h'[k], Wide(rs[i])) {
      assert Outside(h[k], Wide(rs[i]));
    }
  }

  /** cleanup_body_edit_start: the old regions become free, the first one that fits is reused. */
  lemma EditStart(q: Queue, m: Map, rest: seq<Region>, r: Region)
    requires Inv(q, m) && |q.file| < PTR_LIMIT && Opened(Regions(q), PTR_SIZE, |q.file|, rest, r)
    ensures q.hdrPt <= |q.file|
    ensures Editing(Started(q, rest, r), m, []) && 0 < r.start < PTR_LIMIT && r.len != 0
    ensures |Started(q, rest, r).file| == |q.file|
  {
    hide Path, Put, Opened, Markers, HeaderPart, BodyPart, Separate, Succ;
    StartRegion(q, m, rest, r);
    OpenConserves(Regions(q), PTR_SIZE, |q.file|, rest, r);
    StartPath(q, m, r.start);
    StartFrame(q, m, rest, r);
    PtrSucc(q.hdrPt, r.start);
    hide PtrRec, Frame, Pool, Cross, WideOutside, Inv;
    var q' := Started(q, rest, r);
    FrameOrdered(q', m);
    var h := m.c[..m.hdr] + [Item(q.hdrPt, PtrRec(r.start))];
    assert Head(q', m) == h && h + [] == h;
    assert h[m.hdr] == Item(q.hdrPt, PtrRec(r.start));
    EmptyView();
  }

  lemma EmptyView()
    ensures SizeAll(View([])) == 0 && View([]) == []
  {
  }

  /** cleanup_region_close on the last region. */
  function ClosedLast(body: seq<Region>): seq<Region>
    requires body != []
  {
    var last, r := |body| - 1, body[|body| - 1];
    if r.len == 0 && r.start <= r.writeOffs then body[last := r.(len := r.writeOffs - r.start)] else body
  }

  ghost function Finished(q: Queue): Queue
    requires q.body != [] && Current(q).writeOffs <= |q.file|
  {
    q.(file := Put(q.file, Current(q).writeOffs, PtrRec(q.xtraOffset)),
       body := ClosedLast(Advanced(q.body, PTR_SIZE)),
       contLength := q.contLength + (Current(q).writeOffs - Current(q).start))
  }

  ghost function FinishMap(q: Queue, m: Map, text: seq<Item>): Map
    requires Ordered(m) && q.body != []
  {
    var x, n := Item(Current(q).writeOffs, PtrRec(q.xtraOffset)), m.hdr + |text| + 2;
    Map(Head(q, m) + text + [x] + Tail(m), m.from, if m.rcpt < m.mesg then m.rcpt else m.rcpt - m.xtra + n,
        m.mesg, m.hdr, n)
  }

  lemma FinishAt(q: Queue, m: Map, text: seq<Item>, k: nat)
    requires Ordered(m) && q.body != [] && k < |FinishMap(q, m, text).c|
    ensures var m' := FinishMap(q, m, text);
            && |m'.c| == m'.xtra + (|m.c| - m.xtra) && Ordered(m')
            && m'.c[k] == if k < m.hdr then m.c[k]
                          else if k == m.hdr then Item(q.hdrPt, PtrRec(q.hdrTarget))
                          else if k < m.hdr + 1 + |text| then text[k - m.hdr - 1]
                          else if k < m'.xtra then Item(Current(q).writeOffs, PtrRec(q.xtraOffset))
                          else m.c[k - m'.xtra + m.xtra]
  {
    hide PtrRec;
  }

  lemma FinishMarkers(q: Queue, m: Map, text: seq<Item>)
    requires Editing(q, m, text)
    ensures Ordered(FinishMap(q, m, text)) && Markers(FinishMap(q, m, text))
  {
    hide Path, PoolsOk, WideOutside, HeaderPart, Anchored, FinishMap, View, SizeAll, RightAlign, Placed, Succ, Separate;
    FinishShape(q, m, text);
    var m' := FinishMap(q, m, text);
    forall k | 0 <= k < |m'.c| ensures Marked(m'.c[k].rec.typ, k, m') {
      FinishAt(q, m, text, k);
      if k < m.hdr {
        assert Marked(m.c[k].rec.typ, k, m);
      } else if m.hdr < k < m.hdr + 1 + |text| {
        assert BodyRec(text[k - m.hdr - 1].rec);
      } else if k >= m'.xtra {
        assert Marked(m.c[k - m'.xtra + m.xtra].rec.typ, k - m'.xtra + m.xtra, m);
      }
    }
  }

  lemma FinishShape(q: Queue, m: Map, text: seq<Item>)
    requires Ordered(m) && q.body != []
    ensures var m' := FinishMap(q, m, text);
            && Ordered(m') && m'.from == m.from && m'.mesg == m.mesg && m'.hdr == m.hdr
            && m'.xtra == m.hdr + |text| + 2 && |m'.c| == m'.xtra + (|m.c| - m.xtra)
            && m'.rcpt == if m.rcpt < m.mesg then m.rcpt else m.rcpt - m.xtra + m'.xtra
  {
    hide PtrRec;
  }

  lemma FinishAnchored(q: Queue, m: Map, text: seq<Item>)
    requires Ordered(m) && q.body != [] && Anchored(q.(hdrTarget := m.c[m.hdr + 1].off), m)
    requires Current(q).writeOffs <= |q.file| && Slot(PtrRec(q.hdrTarget)) && m.c[0].off == 0
    requires m.hdr + 1 < |FinishMap(q, m, text).c| && FinishMap(q, m, text).c[m.hdr + 1].off == q.hdrTarget
    ensures Ordered(FinishMap(q, m, text)) && Anchored(Finished(q), FinishMap(q, m, text))
    ensures FinishMap(q, m, text).c[0].off == 0
  {
    hide FinishMap, PtrRec, Put, Size, Jumps, ClosedLast;
    FinishShape(q, m, text);
    var m' := FinishMap(q, m, text);
    FinishAt(q, m, text, 0);
    FinishAt(q, m, text, m.from);
    FinishAt(q, m, text, m.from + 1);
    FinishAt(q, m, text, SenderEnd(m));
    FinishAt(q, m, text, m.mesg + 1);
    FinishAt(q, m, text, m.hdr);
    FinishAt(q, m, text, m'.xtra);
    FinishAt(q, m, text, m'.rcpt);
    FinishAt(q, m, text, m'.rcpt + 1);
  }

  lemma FinishLink(q: Queue, m: Map, text: seq<Item>)
    requires Frame(q, m) && Ordered(m) && q.body != []
    requires Linked(FinishMap(q, m, text).c)
    ensures m.hdr + 1 < |FinishMap(q, m, text).c| && FinishMap(q, m, text).c[m.hdr + 1].off == q.hdrTarget
  {
    hide PoolsOk, WideOutside, HeaderPart, Markers, Anchored, FinishMap;
    FinishShape(q, m, text);
    FinishAt(q, m, text, m.hdr);
    PtrSucc(q.hdrPt, q.hdrTarget);
  }

  lemma FinishLinked(q: Queue, m: Map, text: seq<Item>)
    requires Frame(q, m) && Ordered(m) && q.body != [] && Current(q).writeOffs <= |q.file|
    requires Path(Finished(q).file, FinishMap(q, m, text).c)
    ensures m.hdr + 1 < |FinishMap(q, m, text).c| && FinishMap(q, m, text).c[m.hdr + 1].off == q.hdrTarget
  {
    hide Frame, FinishMap, Stored, Distinct, Put;
    FinishLink(q, m, text);
  }

  lemma FinishHeaders(q: Queue, m: Map, text: seq<Item>)
    requires Frame(q, m)
    ensures Ordered(FinishMap(q, m, text)) && HeaderPart(FinishMap(q, m, text), q.lim)
  {
    hide PoolsOk, WideOutside, Markers, Anchored, PtrRec, Padded, HeaderRec;
    var m' := FinishMap(q, m, text);
    FinishShape(q, m, text);
    assert m'.c[m.mesg + 1..m.hdr] == m.c[m.mesg + 1..m.hdr];
    forall k | m'.mesg < k < m'.hdr ensures HeaderRec(m'.c[k].rec, q.lim) {
      FinishAt(q, m, text, k);
      assert HeaderRec(m.c[k].rec, q.lim);
    }
  }

  lemma FinishPools(q: Queue, end: nat)
    requires PoolsOk(q) && Room(Current(q), |q.file|) && |q.file| < PTR_LIMIT
    requires end == if Current(q).len == 0 then |q.file| + PTR_SIZE else |q.file|
    ensures Packed(q.free + ClosedLast(Advanced(q.body, PTR_SIZE)), end)
  {
    var body, last := ClosedLast(Advanced(q.body, PTR_SIZE)), |q.body| - 1;
    var rs := q.free + body;
    forall i | 0 <= i < |body| ensures RegionOk(body[i], end) && body[i].len != 0 && body[i].start == q.body[i].start
                                && Wide(body[i]).len <= Wide(q.body[i]).len {
      assert RegionOk(q.body[i], |q.file|);
      if i < last { assert q.body[..last][i] == q.body[i]; }
    }
    forall i | 0 <= i < |rs| ensures RegionOk(rs[i], end) && rs[i].len != 0 {
      if i < |q.free| { assert RegionOk(q.free[i], |q.file|); }
    }
    forall i, j | 0 <= i < j < |rs| ensures SpanApart(rs[i], rs[j]) {
      if j < |q.free| {
        assert SpanApart(q.free[i], q.free[j]);
      } else if i < |q.free| {
        assert SpanApart(q.free[i], q.body[j - |q.free|]);
      } else {
        assert SpanApart(q.body[i - |q.free|], q.body[j - |q.free|]);
      }
    }
    PoolPacked(rs, end);
  }

  lemma FinishInside(text: seq<Item>, x: Item, body: seq<Region>, end: nat)
    requires Placed(text, body) && Room(body[|body| - 1], end)
    requires x.off == body[|body| - 1].writeOffs && Size(x.rec) == PTR_SIZE
    ensures EachInside(text + [x], ClosedLast(Advanced(body, PTR_SIZE)))
  {
    hide Size;
    var b', c, last := ClosedLast(Advanced(body, PTR_SIZE)), text + [x], |body| - 1;
    forall k | 0 <= k < |c| ensures InSome(c[k], b') {
      if k < |text| {
        assert c[k] == text[k] && PlacedOne(text[k], body);
        if i :| 0 <= i < last && Inside(text[k], body[i]) {
          assert Inside(c[k], b'[i]);
        } else {
          assert Inside(c[k], b'[last]);
        }
      } else {
        assert Inside(c[k], b'[last]);
      }
    }
  }

  lemma FinishOutside(c: seq<Item>, free: seq<Region>, body: seq<Region>, end: nat)
    requires body != [] && WideOutside(c, free + body) && Room(body[|body| - 1], end) && end < PTR_LIMIT
    requires forall i :: 0 <= i < |body| - 1 ==> body[i].len != 0
    requires forall i :: 0 <= i < |free| ==> free[i].len != 0
    ensures AllOutside(c, free + ClosedLast(Advanced(body, PTR_SIZE)))
  {
    hide Size;
    var b' := ClosedLast(Advanced(body, PTR_SIZE));
    var rs, rs' := free + body, free + b';
    forall k, i | 0 <= k < |c| && 0 <= i < |rs'| ensures Outside(c[k], rs'[i]) {
      assert Outside(c[k], Wide(rs[i]));
    }
  }

  lemma FinishBody(q: Queue, m: Map, text: seq<Item>)
    requires Editing(q, m, text) && Current(q).writeOffs <= |q.file| < PTR_LIMIT && 0 < q.xtraOffset < PTR_LIMIT
    requires |Finished(q).file| == if Current(q).len == 0 then |q.file| + PTR_SIZE else |q.file|
    ensures Ordered(FinishMap(q, m, text)) && BodyPart(Finished(q), FinishMap(q, m, text))
  {
    hide Path, Markers, HeaderPart, Anchored, View, SizeAll, Succ, Separate, Put, Packed, AllOutside, EachInside,
         Placed, WideOutside, Pool, Cross;
    var m', q', last := FinishMap(q, m, text), Finished(q), |q.body| - 1;
    var x := Item(Current(q).writeOffs, PtrRec(q.xtraOffset));
    PtrSucc(x.off, q.xtraOffset);
    hide PtrRec;
    FinishShape(q, m, text);
    FinishPools(q, |q'.file|);
    FinishInside(text, x, q.body, |q.file|);
    forall i | 0 <= i < last ensures q.body[i].len != 0 { assert q.body[..last][i] == q.body[i]; }
    FinishOutside(Head(q, m), q.free, q.body, |q.file|);
    FinishOutside(Tail(m), q.free, q.body, |q.file|);
    assert Regions(q') == q.free + q'.body && InUse(q') == q'.body;
    FinishSlices(q, m, text);
  }

  lemma FinishSlices(q: Queue, m: Map, text: seq<Item>)
    requires Ordered(m) && q.body != []
    ensures var m' := FinishMap(q, m, text);
            && Ordered(m') && m'.c[..m'.hdr + 1] == Head(q, m) && m'.c[m'.xtra..] == Tail(m)
            && m'.c[m'.hdr + 1..m'.xtra] == text + [Item(Current(q).writeOffs, PtrRec(q.xtraOffset))]
  {
    hide PtrRec;
    FinishShape(q, m, text);
    var h, x, t := Head(q, m), [Item(Current(q).writeOffs, PtrRec(q.xtraOffset))], Tail(m);
    var m' := FinishMap(q, m, text);
    assert |h| == m.hdr + 1;
    assert m'.c == h + (text + x) + t by { assert h + text + x + t == h + (text + x) + t; }
  }

  lemma FinishPath(q: Queue, m: Map, text: seq<Item>)
    requires Editing(q, m, text) && |q.file| < PTR_LIMIT
    ensures 0 < q.xtraOffset < PTR_LIMIT && Current(q).writeOffs <= |q.file|
    ensures Path(Finished(q).file, FinishMap(q, m, text).c)
    ensures |Finished(q).file| == if Current(q).len == 0 then |q.file| + PTR_SIZE else |q.file|
  {
    hide Put, View, SizeAll, Placed, Markers, HeaderPart, Pool, Cross, WideOutside, At, Readable;
    WriteInside(q, m, text);
    FrameOrdered(q, m);
    TailStart(q, m, text);
    var w, r := Current(q).writeOffs, PtrRec(q.xtraOffset);
    PtrSucc(w, q.xtraOffset);
    PutBody(q, m, text, r);
    hide PtrRec;
    assert RegionOk(q.body[|q.body| - 1], |q.file|) by { LastOk(q); }
    var c, f := Head(q, m) + text + [Item(w, r)], Put(q.file, w, r);
    assert Tail(m)[0] == m.c[m.xtra];
    assert c[|c| - 1] == Item(w, r);
    hide Succ, Path, Separate;
    JoinPaths(f, c, Tail(m));
  }

  lemma LastOk(q: Queue)
    requires PoolsOk(q)
    ensures RegionOk(q.body[|q.body| - 1], |q.file|)
  {
  }

  lemma TailStart(q: Queue, m: Map, text: seq<Item>)
    requires Editing(q, m, text) && Ordered(m) && q.xtraOffset == m.c[m.xtra].off && |q.file| < PTR_LIMIT
    ensures 0 < q.xtraOffset < PTR_LIMIT
  {
    hide View, SizeAll, Placed, Markers, HeaderPart, Pool, Cross, WideOutside, At, Readable, Succ, Size, Linked, Distinct;
    var c, t := Head(q, m) + text, Tail(m);
    assert t[0] == m.c[m.xtra] && c[0] == m.c[0];
    StoredFits(q.file, t, 0);
    StoredFits(q.file, c, 0);
    assert Apart(c[0], t[0].off, Size(t[0].rec));
  }

  lemma FinishMid(q: Queue, m: Map, text: seq<Item>)
    requires Ordered(m) && q.body != []
    ensures Ordered(FinishMap(q, m, text)) && BodyOf(FinishMap(q, m, text)) == View(text)
  {
    hide View, FinishMap, PtrRec;
    FinishSlices(q, m, text);
    ViewPtrEnd(text, Current(q).writeOffs, q.xtraOffset);
  }

  lemma ViewPtrEnd(text: seq<Item>, o: nat, v: nat)
    ensures View(text + [Item(o, PtrRec(v))]) == View(text)
  {
    hide View, RightAlign, SizeAll;
    ContLength(text, Item(o, PtrRec(v)));
    assert View(text) + [] == View(text);
  }

  lemma FinishAbs(q: Queue, m: Map, text: seq<Item>)
    requires Ordered(m) && q.body != []
    ensures Ordered(FinishMap(q, m, text)) && Abs(FinishMap(q, m, text)) == Abs(m).(body := View(text))
  {
    hide View, FinishMap, EnvOf, HdrsOf, BodyOf, ExtOf, SenderAt, RcptAt;
    FinishShape(q, m, text);
    FinishMid(q, m, text);
    FinishLow(q, m, text);
    FinishHigh(q, m, text);
  }

  lemma FinishLow(q: Queue, m: Map, text: seq<Item>)
    requires Ordered(m) && q.body != []
    ensures var m' := FinishMap(q, m, text);
            && Ordered(m') && EnvOf(m') == EnvOf(m) && HdrsOf(m') == HdrsOf(m) && SenderAt(m') == SenderAt(m)
            && (m.rcpt < m.mesg ==> RcptAt(m') == RcptAt(m))
  {
    FinishShape(q, m, text);
    hide View, PtrRec;
    var m' := FinishMap(q, m, text);
    assert m'.c[..m.mesg] == m.c[..m.mesg];
    assert m'.c[..m.from] == m.c[..m.from];
    assert m'.c[m.mesg + 1..m.hdr] == m.c[m.mesg + 1..m.hdr];
    if m.rcpt < m.mesg { assert m'.c[..m.rcpt] == m.c[..m.rcpt]; }
  }

  lemma FinishHigh(q: Queue, m: Map, text: seq<Item>)
    requires Ordered(m) && q.body != []
    ensures var m' := FinishMap(q, m, text);
            && Ordered(m') && ExtOf(m') == ExtOf(m) && (m.xtra < m.rcpt ==> RcptAt(m') == RcptAt(m))
  {
    hide View, PtrRec, FinishMap, Tail;
    FinishShape(q, m, text);
    FinishSlices(q, m, text);
    TailIs(m);
    var m', n := FinishMap(q, m, text), |Tail(m)|;
    SuffixSlice(m'.c, m'.xtra, 1, n - 1);
    SuffixSlice(m.c, m.xtra, 1, n - 1);
    if m.xtra < m.rcpt {
      SuffixSlice(m'.c, m'.xtra, 1, m.rcpt - m.xtra);
      SuffixSlice(m.c, m.xtra, 1, m.rcpt - m.xtra);
    }
  }

  lemma TailIs(m: Map)
    requires Ordered(m)
    ensures Tail(m) == m.c[m.xtra..]
  {
  }

  lemma SuffixSlice<T>(s: seq<T>, a: nat, i: nat, j: nat)
    requires a <= |s| && i <= j <= |s| - a
    ensures s[a..][i..j] == s[a + i..a + j]
  {
  }

  /** cleanup_body_edit_finish: the body is what was written, all else is as before. */
  lemma EditFinish(q: Queue, m: Map, text: seq<Item>)
    requires Editing(q, m, text) && |q.file| < PTR_LIMIT
    ensures 0 < q.xtraOffset < PTR_LIMIT && Current(q).writeOffs <= |q.file| && Ordered(m)
    ensures Inv(Finished(q), FinishMap(q, m, text))
    ensures Abs(FinishMap(q, m, text)) == Abs(m).(body := View(text))
    ensures Finished(q).contLength == q.bodyOffset - q.dataOffset + SizeAll(View(text))
  {
    hide Path, Put, View, SizeAll, Placed, Markers, HeaderPart, Pool, Cross, WideOutside, BodyPart, Anchored,
         FinishMap, Separate, Succ, Abs;
    FrameOrdered(q, m);
    FinishPath(q, m, text);
    FinishMarkers(q, m, text);
    assert Slot(PtrRec(q.hdrTarget)) by { PtrSucc(0, q.hdrTarget); }
    FinishLinked(q, m, text);
    FinishAnchored(q, m, text);
    FinishHeaders(q, m, text);
    FinishBody(q, m, text);
    FinishAbs(q, m, text);
  }

  // ----- Regions and jumps -----

  /** Regions held, and one more unless an open-ended one was opened already: a replacement opens
      at most one, as it never gets full. */
  function Held(free: seq<Region>, body: seq<Region>): nat
    requires body != []
  {
    |free| + |body| + if body[|body| - 1].len == 0 then 0 else 1
  }

  lemma OpenHeld(free: seq<Region>, need: nat, end: nat, rest: seq<Region>, r: Region)
    requires Opened(free, need, end, rest, r) && need > 0
    ensures |rest| + 1 + (if r.len == 0 then 0 else 1) == |free| + 1
  {
  }

  lemma FinishPaths(q: Queue, m: Map, text: seq<Item>)
    requires Ordered(m) && q.body != []
    ensures var m' := FinishMap(q, m, text);
            && Ordered(m') && HeaderPath(m') == HeaderPath(m) && EnvelopePath(m') == EnvelopePath(m)
            && BodyPath(m') == text + [Item(Current(q).writeOffs, PtrRec(q.xtraOffset))]
  {
    hide PtrRec, FinishMap, Tail;
    FinishShape(q, m, text);
    FinishSlices(q, m, text);
    TailIs(m);
    var m', n := FinishMap(q, m, text), |Tail(m)|;
    SuffixSlice(m'.c, m'.xtra, 1, n - 1);
    SuffixSlice(m.c, m.xtra, 1, n - 1);
    HeadParts(q, m);
    hide Head;
    PrefixSlice(m'.c, m.hdr + 1, 0, m.mesg);
    PrefixSlice(m'.c, m.hdr + 1, m.mesg + 1, m.hdr);
    assert m'.c[..m.mesg] == m'.c[0..m.mesg];
  }

  lemma HeadParts(q: Queue, m: Map)
    requires Ordered(m)
    ensures var h := Head(q, m);
            |h| == m.hdr + 1 && h[0..m.mesg] == m.c[..m.mesg] && h[m.mesg + 1..m.hdr] == m.c[m.mesg + 1..m.hdr]
  {
    hide PtrRec;
  }

  lemma PrefixSlice<T>(s: seq<T>, b: nat, i: nat, j: nat)
    requires i <= j <= b <= |s|
    ensures s[..b][i..j] == s[i..j]
  {
  }

  /** The new body is left by one jump for each of its regions. */
  lemma FinishLoad(q: Queue, m: Map, text: seq<Item>)
    requires Ordered(m) && q.body != [] && Current(q).writeOffs <= |q.file| && Backs(text) < |q.body|
    ensures Ordered(FinishMap(q, m, text))
    ensures Load(Finished(q), FinishMap(q, m, text))
         <= Backs(HeaderPath(m)) + Backs(EnvelopePath(m)) + Held(q.free, q.body)
  {
    hide Backs, FinishMap, HeaderPath, EnvelopePath, BodyPath, PtrRec, Put;
    FinishPaths(q, m, text);
    var x := Item(Current(q).writeOffs, PtrRec(q.xtraOffset));
    BacksConcat(text, [x]);
    BacksOne(x);
  }

  // ----- Lines longer than the line length limit -----

  /** The test of cleanup_body_edit_write lets the text stay in this closed region. */
  predicate Accepts(r: Region, line: seq<byte>) {
    r.len > 0 && 0 < r.start <= r.writeOffs && SpaceNeed(|line|) + PTR_SIZE <= r.len - (r.writeOffs - r.start)
  }

  /** What cleanup_out writes, and the link after it, end inside the region. */
  predicate StaysInside(r: Region, line: seq<byte>, limit: nat)
    requires limit >= 1
  {
    r.writeOffs + SizeAll(Chunks(NORM, line, limit)) + PTR_SIZE <= r.start + r.len
  }

  /** The editor reserves space for one record, but long text is written as several.  No region
      that accepts a line is overrun exactly when the line is within the limit. */
  lemma NoOverrunIff(line: seq<byte>, limit: nat)
    requires limit >= 1
    ensures (forall r :: Accepts(r, line) ==> StaysInside(r, line, limit)) <==> |line| <= limit
  {
    ReserveCovers(line, limit);
    if |line| > limit {
      var r := Region(1, SpaceNeed(|line|) + PTR_SIZE, 1);
      assert Accepts(r, line) && !StaysInside(r, line, limit);
    }
  }

  lemma {:induction false} DigitsRange(v: nat)
    ensures forall i :: 0 <= i < |Digits(v)| ==> ZERO <= Digits(v)[i] < ZERO + 10
  {
    if v >= 10 { DigitsRange(v / 10); }
  }

  /** The payload of a pointer consists of blanks and digits. */
  lemma PtrBytes(v: nat, i: nat)
    requires v < PTR_LIMIT && i < PTR_PAYLOAD
    ensures |PtrRec(v).data| == PTR_PAYLOAD && PtrRec(v).data[i] != XTRA
  {
    PtrRoundTrip(v);
    DigitsRange(v);
  }

  lemma OneByteOver(line: seq<byte>)
    requires |line| == 2049
    ensures SizeAll(Chunks(NORM, line, 2048)) == SpaceNeed(2049) + 2
  {
    var rs, t := Chunks(NORM, line, 2048), line[2048..];
    assert Chunks(NORM, t, 2048) == [Rec(NORM, t)];
    assert rs == [Rec(CONT, line[..2048])] + Chunks(NORM, t, 2048);
    assert rs[1..] == [Rec(NORM, t)] && rs[1..][1..] == [];
    assert SizeAll(rs[1..]) == SpaceNeed(1) + SizeAll([]);
    assert LenLen(2048) == 2 && LenLen(2049) == 2 && LenLen(1) == 1;
  }

  /** The last two bytes of a pointer lie over what was at its end minus two. */
  lemma PtrOver(f: seq<byte>, w: nat, rs: seq<Rec>, v: nat)
    requires w <= |f| && v < PTR_LIMIT
    ensures var o := w + SizeAll(rs); var g := PutAll(f, w, rs + [PtrRec(v)]);
            o + PTR_SIZE <= |g| && g[o + 15] != XTRA
  {
    hide PtrRec, Put;
    var o, r := w + SizeAll(rs), PtrRec(v);
    PutAllConcat(f, w, rs, [r]);
    var f' := PutAll(f, w, rs);
    assert PutAll(f', o, [r]) == Put(f', o, r) by { assert [r][1..] == []; }
    PutAt(f', o, r);
    PtrRoundTrip(v);
    PtrBytes(v, 13);
    var g := Put(f', o, r);
    assert g[o..o + PTR_SIZE] == Enc(r) && g[o..o + PTR_SIZE][15] == g[o + 15];
    assert Enc(r)[15] == r.data[13];
  }

  /** A received file whose body is being replaced, with the default limit of 2048, and a line of
      2049 bytes for which there is just room before the end-of-content marker: the line is
      accepted, and the pointer that ends the new body destroys the marker. */
  lemma OverrunExample(q: Queue, m: Map, line: seq<byte>, w: nat)
    requires Inv(q, m) && q.body == [] && q.lim.line == 2048 && |q.file| < PTR_LIMIT
    requires |line| == 2049 && q.bodyOffset <= w && w + SpaceNeed(2049) + PTR_SIZE == q.xtraOffset
    ensures InUse(q) == [Region(q.bodyOffset, q.xtraOffset - q.bodyOffset, q.bodyOffset)]
    ensures Accepts(InUse(q)[0].(writeOffs := w), line)
    ensures q.xtraOffset < |q.file| && q.file[q.xtraOffset] == XTRA && w <= |q.file|
    ensures var g := PutAll(q.file, w, Chunks(NORM, line, 2048) + [PtrRec(q.xtraOffset)]);
            q.xtraOffset < |g| && g[q.xtraOffset] != XTRA
  {
    hide Chunks, SizeAll, PutAll, PtrRec, HeaderPart, BodyPart, Linked, Distinct, SpaceNeed, Size;
    MarkerByte(q, m);
    BodyStart(q, m);
    OneByteOver(line);
    PtrOver(q.file, w, Chunks(NORM, line, 2048), q.xtraOffset);
  }

  lemma BodyStart(q: Queue, m: Map)
    requires Inv(q, m) && q.body == [] && |q.file| < PTR_LIMIT
    ensures 0 < q.bodyOffset
  {
    OffsetBounds(q, m, m.hdr + 1);
    hide HeaderPart, Path, Markers, AllOutside, EachInside, Packed;
  }

  lemma MarkerByte(q: Queue, m: Map)
    requires Inv(q, m)
    ensures q.xtraOffset < |q.file| && q.file[q.xtraOffset] == XTRA
  {
    hide HeaderPart, BodyPart, Linked, Distinct, Readable;
    var x := m.c[m.xtra];
    assert Marked(x.rec.typ, m.xtra, m);
    EncSize(x.rec);
    assert q.file[x.off..x.off + Size(x.rec)][0] == Enc(x.rec)[0];
  }
}
