/** The queue file editor (src/cleanup/cleanup_milter.c): a file with a stream position,
    the editor's offsets, and the ghost path that a reader takes. */
module QueueFiles {
  import opened Records
  import opened Chain
  import opened Headers
  import opened Rendering
  import opened Following
  import opened JumpLoad
  import opened Layout
  import opened HeaderEdits
  import opened HeaderOps
  import opened HeaderScan
  import opened EnvelopeEdits
  import opened Recipients
  import opened BodyEdits
  import opened Starting

  /** cleanup_out: text is cut at the line length limit, other records are written as they are. */
  function OutRecs(typ: byte, s: seq<byte>, limit: nat): seq<Rec>
    requires limit >= 1
  {
    if typ == NORM || typ == CONT then Chunks(typ, s, limit) else [Rec(typ, s)]
  }

  /** after continues before, and every added entry extends f. */
  ghost predicate Appended(f: seq<byte>, before: seq<seq<byte>>, after: seq<seq<byte>>) {
    before <= after && forall k :: |before| <= k < |after| ==> f <= after[k]
  }

  /** All file contents from before to after, except the last, still read along c. */
  ghost predicate Unseen(c: seq<Item>, before: seq<seq<byte>>, after: seq<seq<byte>>) {
    |before| < |after| && before <= after && forall k :: |before| <= k < |after| - 1 ==> Reads(after[k], c)
  }

  lemma AppendedUnseen(q: Queue, m: Map, before: seq<seq<byte>>, mid: seq<seq<byte>>, last: seq<byte>)
    requires Inv(q, m) && Appended(q.file, before, mid)
    ensures Unseen(m.c, before, mid + [last])
  {
    hide Path, Padded;
    InvReads(q, m);
    var after := mid + [last];
    forall k | |before| <= k < |after| - 1 ensures Reads(after[k], m.c) {
      var xs := mid[k][|q.file|..];
      assert q.file + xs == mid[k];
      AppendKeepsPath(q.file, xs, m.c);
    }
  }

  class QueueFile {
    const lim: Limits
    var file: seq<byte>
    var pos: nat
    var dataOffset: nat
    var bodyOffset: nat
    var xtraOffset: nat
    var hdrPt: nat
    var hdrTarget: nat
    var rcptPt: nat
    var rcptTarget: nat
    var senderPt: nat
    var senderTarget: nat
    var free: seq<Region>
    var body: seq<Region>
    var contLength: int
    /** What rec_goto remembers; it outlives a request. */
    var tally: Tally
    /** The path of a reader, and the editor's places on it. */
    ghost var route: Map
    /** The records of the body that is being written. */
    ghost var text: seq<Item>
    /** The contents of the file after each record that was written. */
    ghost var log: seq<seq<byte>>

    ghost function State(): Queue
      reads `file, `dataOffset, `bodyOffset, `xtraOffset, `hdrPt, `hdrTarget, `rcptPt, `rcptTarget,
            `senderPt, `senderTarget, `free, `body, `contLength
    {
      Queue(lim, file, dataOffset, bodyOffset, xtraOffset, hdrPt, hdrTarget, rcptPt, rcptTarget,
            senderPt, senderTarget, free, body, contLength)
    }

    ghost predicate Valid()
      reads `file, `dataOffset, `bodyOffset, `xtraOffset, `hdrPt, `hdrTarget, `rcptPt, `rcptTarget,
            `senderPt, `senderTarget, `free, `body, `contLength, `route
    {
      Inv(State(), route)
    }

    /** What a reader of the file gets. */
    ghost function Contents(): Message
      reads `file, `dataOffset, `bodyOffset, `xtraOffset, `hdrPt, `hdrTarget, `rcptPt, `rcptTarget,
            `senderPt, `senderTarget, `free, `body, `contLength, `route
      requires Valid()
    {
      Abs(route)
    }

    /** What the jumps of the file can cost a reader. */
    ghost function Weight(): nat
      reads `file, `dataOffset, `bodyOffset, `xtraOffset, `hdrPt, `hdrTarget, `rcptPt, `rcptTarget,
            `senderPt, `senderTarget, `free, `body, `contLength, `route
      requires Valid()
    {
      Load(State(), route)
    }

    /** The file as it was written while the message was received.  The editor can start from it
        exactly if no generated header is short. */
    constructor (d: Received, limits: Limits, t: Tally)
      requires Sane(limits) && Sensible(d)
      ensures lim == limits && tally == t && State() == StartQueue(d, limits)
      ensures Valid() <==> Roomed(d.generated)
      ensures Valid() ==> Contents() == StartMessage(d, limits) && Weight() == 1
      ensures Valid() ==> Contents() == Message(d.before + [Rec(83, d.sender)] + d.after, Contents().hdrs, d.body,
                                                d.ext + d.more + d.extra, |d.before|,
                                                if d.rcptInEnv then |d.before| + 1 + |d.after| else |d.ext| + |d.more|, d.rcptInEnv)
    {
      hide Inv, StartMap, Abs, StartMessage, Sensible, StartQueue, Load, Roomed;
      var q := StartQueue(d, limits);
      lim, file, pos := limits, q.file, |q.file|;
      dataOffset, bodyOffset, xtraOffset := q.dataOffset, q.bodyOffset, q.xtraOffset;
      hdrPt, hdrTarget, rcptPt, rcptTarget := q.hdrPt, q.hdrTarget, q.rcptPt, q.rcptTarget;
      senderPt, senderTarget := q.senderPt, q.senderTarget;
      free, body, contLength, tally := [], [], q.contLength, t;
      route, text, log := StartMap(d, limits), [], [q.file];
      new;
      StartInv(d, limits);
      StartAbs(d, limits);
      StartSays(d, limits);
      StartLoad(d, limits);
      NoRegions(d, limits);
      assert State() == q;
    }

    // ----- Record output -----

    /** rec_put at the stream position. */
    method RecPut(r: Rec)
      requires pos <= |file|
      modifies `file, `pos, `log
      ensures file == Put(old(file), old(pos), r) && pos == old(pos) + Size(r) <= |file|
      ensures log == old(log) + [file]
      ensures old(pos) == old(|file|) ==> pos == |file| && file == old(file) + Enc(r)
    {
      PutAt(file, pos, r);
      PutEnd(file, r);
      EncSize(r);
      file := Put(file, pos, r);
      pos := pos + Size(r);
      log := log + [file];
    }

    /** Since the file was f and the log was before, rs was written in a row from offset o. */
    ghost predicate Written(f: seq<byte>, o: nat, before: seq<seq<byte>>, rs: seq<Rec>)
      reads `file, `pos, `log
    {
      && o <= |f| && file == PutAll(f, o, rs) && pos == o + SizeAll(rs) <= |file|
      && before <= log
      && (o == |f| ==> pos == |file| && f <= file && Appended(f, before, log))
    }

    method Next(ghost f: seq<byte>, ghost o: nat, ghost before: seq<seq<byte>>, ghost done: seq<Rec>, r: Rec)
      requires Written(f, o, before, done)
      modifies `file, `pos, `log
      ensures Written(f, o, before, done + [r])
    {
      hide Put, Size, Enc;
      RecPut(r);
      PutAllConcat(f, o, done, [r]);
      SizeAllConcat(done, [r]);
      assert [r][1..] == [];
    }

    method CleanupOut(ghost f: seq<byte>, ghost o: nat, ghost before: seq<seq<byte>>, ghost done: seq<Rec>,
                      typ: byte, text: seq<byte>)
      requires Written(f, o, before, done) && lim.line >= 1
      modifies `file, `pos, `log
      ensures Written(f, o, before, done + OutRecs(typ, text, lim.line))
    {
      var s := text;
      ghost var sofar := done;
      while |s| > lim.line && (typ == NORM || typ == CONT)
        invariant done + OutRecs(typ, text, lim.line) == sofar + OutRecs(typ, s, lim.line)
        invariant Written(f, o, before, sofar)
        decreases |s|
      {
        hide Written;
        Next(f, o, before, sofar, Rec(CONT, s[..lim.line]));
        sofar := sofar + [Rec(CONT, s[..lim.line])];
        s := s[lim.line..];
      }
      Next(f, o, before, sofar, Rec(typ, s));
    }

    /** One line of a header. */
    method OutLine(ghost f: seq<byte>, ghost o: nat, ghost before: seq<seq<byte>>, ghost done: seq<Rec>,
                   first: bool, line: seq<byte>, lineLen: nat)
      requires Written(f, o, before, done) && lim.line >= 1
      modifies `file, `pos, `log
      ensures Written(f, o, before, done + LineRecs(first, line, lineLen, lim.line))
    {
      hide Written, Chunks, PutAll;
      if first {
        CleanupOut(f, o, before, done, NORM, line);
        if lineLen < PTR_PAYLOAD {
          Next(f, o, before, done + Chunks(NORM, line, lim.line), PadRec(DTXT, PTR_PAYLOAD - lineLen));
        }
        ghost var a, b := Chunks(NORM, line, lim.line), Padding(lineLen);
        assert done + a + b == done + (a + b);
        assert a + [] == a;
      } else if line != [] && SpaceOrTab(line[0]) {
        CleanupOut(f, o, before, done, NORM, line);
      } else {
        CleanupOut(f, o, before, done, NORM, [TAB] + line);
      }
    }

    /** cleanup_out_header. */
    method OutHeader(ghost f: seq<byte>, ghost o: nat, ghost before: seq<seq<byte>>, text: seq<byte>)
      requires Written(f, o, before, []) && lim.line >= 1
      modifies `file, `pos, `log
      ensures Written(f, o, before, Render(text, lim))
    {
      hide Written, PutAll, Render, RenderRest, LineRecs;
      var p := 0;
      ghost var done: seq<Rec> := [];
      while true
        invariant 0 <= p <= |text| && Written(f, o, before, done)
        invariant Render(text, lim) == done + RenderFrom(text, p, lim)
        decreases |text| - p
      {
        var e := FindNewline(text, p);
        RenderStep(text, p, lim);
        if e > lim.header && 10 * p > 9 * lim.header {
          assert done + [] == done;
          break;
        }
        var line := text[p..if e > lim.header then lim.header else e];
        ghost var rest := RenderFrom(text, p, lim);
        OutLine(f, o, before, done, p == 0, line, e - p);
        done := done + LineRecs(p == 0, line, e - p, lim.line);
        if e > lim.header || e == |text| {
          assert LineRecs(p == 0, line, e - p, lim.line) + [] == LineRecs(p == 0, line, e - p, lim.line);
          break;
        }
        p := e + 1;
      }
    }

    // ----- Searching -----

    /** The stream moves along the path: reading at path index k. */
    method ReadStep(ghost k: nat) returns (rec: Rec)
      requires Valid() && k < |route.c| - 1 && pos == route.c[k].off
      modifies `pos
      ensures rec == route.c[k].rec && pos == Limit(route.c[k])
      ensures rec.typ != PTR ==> pos == route.c[k + 1].off
      ensures rec.typ == PTR ==> Target(rec.data).Some?
    {
      hide Padded, BodyPart, HeaderPart, Markers, Anchored;
      ReadAt(file, pos, route.c[k].rec);
      var r := RecGetRaw(file, pos);
      rec, pos := r.value.rec, r.value.next;
      assert Succ(route.c[k]) == route.c[k + 1].off;
    }

    /** The stream got past the records of c since its tally was t, or else rec_goto refused. */
    ghost predicate Scanned(t: Tally, c: seq<Item>, ok: bool)
      reads `tally
    {
      (ok <==> Passes(t, c)) && if ok then tally == After(t, c) else tally.count > REVERSE_JUMP_LIMIT
    }

    /** Following the pointer record at path index k. */
    method Goto(rec: Rec, ghost k: nat) returns (ok: bool)
      requires Valid() && k < |route.c| - 1 && rec == route.c[k].rec && rec.typ == PTR && pos == Limit(route.c[k])
      modifies `pos, `tally
      ensures Scanned(old(tally), [route.c[k]], ok)
      ensures ok ==> pos == route.c[k + 1].off
    {
      hide Padded, BodyPart, HeaderPart, Markers, Anchored, Passes, After, Target, RecGoto, Size;
      assert Succ(route.c[k]) == route.c[k + 1].off && Readable(rec);
      PassesOne(tally, route.c[k]);
      var (t, jump) := RecGoto(tally, rec.data);
      tally := t;
      if jump.To? { pos := jump.offset; }
      ok := !jump.Refused?;
    }

    lemma PassNothing(t: Tally)
      requires tally == t
      ensures Scanned(t, [], true)
    {
      PassesNone(t);
    }

    lemma PassText(t: Tally, c: seq<Item>, x: Item)
      requires Scanned(t, c, true) && x.rec.typ != PTR
      ensures Scanned(t, c + [x], true)
    {
      hide Passes, After;
      PassesConcat(t, c, [x]);
      PassesOne(After(t, c), x);
    }

    lemma PassPointer(t: Tally, t': Tally, c: seq<Item>, x: Item, ok: bool)
      requires Passes(t, c) && t' == After(t, c) && Scanned(t', [x], ok)
      ensures Scanned(t, c + [x], ok)
    {
      hide Passes, After;
      PassesConcat(t, c, [x]);
    }

    /** A refusal on the way. */
    lemma Blocked(t: Tally, c: seq<Item>, stretch: seq<Item>)
      requires c <= stretch && Scanned(t, c, false)
      ensures Scanned(t, stretch, false)
    {
      hide Passes, After;
      assert stretch[..|c|] == c;
      if Passes(t, stretch) { PassesPrefix(t, stretch, |c|); }
    }

    /** A pointer met by a scan that has passed the records of c. */
    method Follow(rec: Rec, ghost t: Tally, ghost c: seq<Item>, ghost k: nat) returns (ok: bool)
      requires Valid() && k < |route.c| - 1 && rec == route.c[k].rec && rec.typ == PTR && pos == Limit(route.c[k])
      requires Scanned(t, c, true)
      modifies `pos, `tally
      ensures Scanned(t, c + [route.c[k]], ok)
      ensures ok ==> pos == route.c[k + 1].off
    {
      hide Inv, Passes, After, Size, Target;
      ghost var t' := tally;
      ok := Goto(rec, k);
      PassPointer(t, t', c, route.c[k], ok);
    }

    /** A saved pointer leads to path index k without passing a visible record. */
    ghost predicate Backup(ptr: Option<(nat, Rec)>, p: nat, k: nat)
      reads `route
    {
      && Ordered(route) && (ptr.Some? ==>
        && route.mesg < p < k <= route.hdr && ptr.value == (route.c[p].off, route.c[p].rec)
        && ptr.value.1.typ == PTR && forall n :: p < n < k ==> !Visible(route.c[n].rec))
    }

    /** The record at path index i was just read. */
    ghost predicate AtHeader(found: (nat, Rec), i: nat)
      reads `route, `pos
    {
      i + 1 < |route.c| && found == (route.c[i].off, route.c[i].rec) && pos == route.c[i + 1].off
    }

    /** The record at path index i was read, and the padding after it. */
    ghost predicate AfterHeader(off: int, rec: Rec, i: nat)
      reads `route, `pos
    {
      && i < |route.c| && off == route.c[i].off && rec == route.c[i].rec
      && Ordered(route) && AfterHead(route, i) <= route.hdr && pos == route.c[AfterHead(route, i)].off
    }

    /** What a search yields: the wanted header just read, with its padding, or a pointer to it. */
    ghost predicate StartHere(off: nat, rec: Rec, i: nat, p: nat, index: nat, want: Want, backup: bool, skip: nat)
      reads `route, `pos
    {
      && Ordered(route) && index >= 1 && Found(route, i, index, want, skip)
      && if rec.typ == PTR then backup && Backup(Some((off, rec)), p, i) else AfterHeader(off, rec, i)
    }

    /** The search, begun with tally t, has reached path index k with this much left to find. */
    ghost predicate Looking(k: nat, cont: bool, left: nat, rest: nat, index: nat, want: Want, skip: nat, t: Tally)
      reads `route, `tally
    {
      && Ordered(route) && index >= 1 && route.mesg < k && left >= 1
      && Searching(route, k, cont, left, want, rest, FindStart(View(HeaderItems(route)), false, index, want, skip))
      && Counting(route, k, cont) && Scanned(t, route.c[route.mesg + 1..k], true)
    }

    /** What the search passes. */
    ghost function SearchStretch(index: nat, want: Want, skip: nat): seq<Item>
      reads `route
      requires Ordered(route) && index >= 1
    {
      HeaderStretch(route, SearchLength(View(HeaderItems(route)), index, want, skip))
    }

    lemma LookStart(index: nat, want: Want, skip: nat)
      requires Ordered(route) && index >= 1
      ensures Looking(route.mesg + 1, false, index, skip, index, want, skip, tally)
    {
      hide FindStart, Searching, Counting, Scanned, View;
      SearchStart(route, index, want, skip);
      CountStart(route);
      PassNothing(tally);
      assert route.c[route.mesg + 1..route.mesg + 1] == [];
    }

    lemma LookPad(k: nat, cont: bool, left: nat, rest: nat, index: nat, want: Want, skip: nat, t: Tally)
      requires Looking(k, cont, left, rest, index, want, skip, t) && k < route.hdr && route.c[k].rec.typ == DTXT
      ensures Looking(k + 1, cont, left, rest, index, want, skip, t)
    {
      hide FindStart, Searching, Counting, Scanned, View;
      SearchHidden(route, k, cont, left, want, rest, FindStart(View(HeaderItems(route)), false, index, want, skip));
      CountStep(route, k, cont);
      SliceOn(route.c, route.mesg + 1, k);
      PassText(t, route.c[route.mesg + 1..k], route.c[k]);
    }

    lemma LookText(k: nat, cont: bool, left: nat, rest: nat, index: nat, want: Want, skip: nat, t: Tally)
      requires Looking(k, cont, left, rest, index, want, skip, t) && k < route.hdr && IsText(route.c[k].rec)
      ensures var r := route.c[k].rec; var n := r.typ == CONT;
              if cont || Folded(r) then Looking(k + 1, n, left, rest, index, want, skip, t)
              else if LabelLen(r.data) == 0 then
                && FindStart(View(HeaderItems(route)), false, index, want, skip) == None
                && Scanned(t, SearchStretch(index, want, skip), true)
              else if rest > 0 then Looking(k + 1, n, left, rest - 1, index, want, skip, t)
              else if !Matches(want, r.data) then Looking(k + 1, n, left, 0, index, want, skip, t)
              else if left == 1 then
                Found(route, k, index, want, skip) && Scanned(t, SearchStretch(index, want, skip), true)
              else Looking(k + 1, n, left - 1, 0, index, want, skip, t)
    {
      hide FindStart, Searching, Counting, Scanned, View, HeaderStretch, SearchLength, Folded, LabelLen, Matches, ContAfter, Found;
      var all := FindStart(View(HeaderItems(route)), false, index, want, skip);
      var r := route.c[k].rec;
      SearchState(route, k, cont, left, want, rest, all);
      SearchText(route, k, cont, left, want, rest, all);
      CountStep(route, k, cont);
      SliceOn(route.c, route.mesg + 1, k);
      PassText(t, route.c[route.mesg + 1..k], route.c[k]);
      if !cont && !Folded(r) {
        if LabelLen(r.data) == 0 {
          NotFoundAt(route, k, index, want, skip);
        } else if rest == 0 && Matches(want, r.data) && left == 1 {
          FoundNow(route, k, cont, want, index, skip, all);
          FoundLength(route, k, index, want, skip);
        }
      }
    }

    lemma LookEnd(cont: bool, left: nat, rest: nat, index: nat, want: Want, skip: nat, t: Tally)
      requires Ordered(route) && Looking(route.hdr, cont, left, rest, index, want, skip, t)
      ensures FindStart(View(HeaderItems(route)), false, index, want, skip) == None
      ensures Scanned(t, SearchStretch(index, want, skip), true)
    {
      hide FindStart, Searching, Counting, Scanned, View, HeaderStretch, SearchLength;
      SearchEnd(route, cont, left, want, rest, FindStart(View(HeaderItems(route)), false, index, want, skip));
      NotFoundEnd(route, cont, index, want, skip);
    }

    /** A pointer met by the search. */
    method LookFollow(rec: Rec, ghost k: nat, ghost cont: bool, ghost left: nat, ghost rest: nat,
                      ghost index: nat, ghost want: Want, ghost skip: nat, ghost t: Tally) returns (ok: bool)
      requires Valid() && Looking(k, cont, left, rest, index, want, skip, t)
      requires k < route.hdr && rec == route.c[k].rec && rec.typ == PTR && pos == Limit(route.c[k])
      modifies `pos, `tally
      ensures ok ==> pos == route.c[k + 1].off && Looking(k + 1, cont, left, rest, index, want, skip, t)
      ensures !ok ==> Scanned(t, SearchStretch(index, want, skip), false)
    {
      hide Inv, FindStart, Searching, Counting, Scanned, View, HeaderStretch, SearchLength, Size;
      SearchReaches(route, k, cont, left, index, want, skip, rest);
      SearchHidden(route, k, cont, left, want, rest, FindStart(View(HeaderItems(route)), false, index, want, skip));
      CountStep(route, k, cont);
      SliceOn(route.c, route.mesg + 1, k);
      ok := Follow(rec, t, route.c[route.mesg + 1..k], k);
      if !ok { Blocked(t, route.c[route.mesg + 1..k + 1], SearchStretch(index, want, skip)); }
    }

    /** The search loop of cleanup_find_header_start. */
    method SearchHeader(index: nat, want: Want, backup: bool, skip: nat)
      returns (ok: bool, found: Option<(nat, Rec)>, ptr: Option<(nat, Rec)>, ghost i: nat, ghost p: nat)
      requires Valid() && index >= 1
      modifies `pos, `tally
      ensures Scanned(old(tally), SearchStretch(index, want, skip), ok)
      ensures ok && found.None? ==> FindStart(View(HeaderItems(route)), false, index, want, skip) == None
      ensures ok && found.Some? ==> Found(route, i, index, want, skip) && AtHeader(found.value, i) && Backup(ptr, p, i)
      ensures ptr.Some? ==> backup
    {
      hide Inv, FindStart, Matches, LabelLen, Folded, View, Size, HeaderRec, Target, Backup, Looking, Scanned, Found,
           SearchStretch;
      AnchorFacts(State(), route);
      ghost var t := tally;
      LookStart(index, want, skip);
      ok, found, ptr, i, p := true, None, None, 0, 0;
      NoBackup(route.mesg + 1);
      var left, count, cont := index, 0, false;
      pos := dataOffset;
      ghost var k := route.mesg + 1;
      while true
        invariant route.mesg < k <= route.hdr && pos == route.c[k].off && 0 <= count && left >= 1
        invariant Looking(k, cont, left, Remaining(skip, count), index, want, skip, t)
        invariant Backup(ptr, p, k) && (ptr.Some? ==> backup) && ok
        decreases route.hdr - k
      {
        var curr := pos;
        if k < route.hdr { DistinctOffsets(State(), route, k, route.hdr); }
        if curr == hdrPt {
          LookEnd(cont, left, Remaining(skip, count), index, want, skip, t);
          return;
        }
        HeaderKind(State(), route, k);
        var rec := ReadStep(k);
        if rec.typ == DTXT {
          LookPad(k, cont, left, Remaining(skip, count), index, want, skip, t);
          KeepBackup(ptr, p, k);
          k := k + 1;
          continue;
        }
        if rec.typ == PTR {
          KeepBackup(ptr, p, k);
          ok := LookFollow(rec, k, cont, left, Remaining(skip, count), index, want, skip, t);
          if !ok { return; }
          if backup {
            ptr, p := Some((curr, rec)), k;
            NewBackup(k);
          }
          k := k + 1;
          continue;
        }
        LookText(k, cont, left, Remaining(skip, count), index, want, skip, t);
        if cont || Folded(rec) {
        } else if LabelLen(rec.data) == 0 {
          ptr := None;
          return;
        } else {
          count := count + 1;
          if count > skip && Matches(want, rec.data) {
            left := left - 1;
            if left == 0 {
              found, i := Some((curr, rec)), k;
              return;
            }
          }
        }
        NoBackup(k + 1);
        ptr, cont, k := None, rec.typ == CONT, k + 1;
      }
    }

    lemma NoBackup(k: nat)
      requires Ordered(route)
      ensures Backup(None, 0, k) && forall p :: Backup(None, p, k)
    {
    }

    lemma KeepBackup(ptr: Option<(nat, Rec)>, p: nat, k: nat)
      requires Backup(ptr, p, k) && k < route.hdr && !Visible(route.c[k].rec)
      ensures Backup(ptr, p, k + 1)
    {
    }

    lemma NewBackup(k: nat)
      requires Ordered(route) && route.mesg < k < route.hdr && route.c[k].rec.typ == PTR
      ensures Backup(Some((route.c[k].off, route.c[k].rec)), k, k + 1)
    {
    }

    /** cleanup_find_header_start.  Yields -2 when rec_goto refuses, -1 when there is no such
        header; otherwise the offset and contents of its first record or, with backup, of a
        pointer that leads to it. */
    method FindHeaderStart(index: nat, want: Want, backup: bool, skip: nat)
      returns (off: int, rec: Rec, ghost i: nat, ghost p: nat)
      requires Valid() && index >= 1
      modifies `pos, `tally
      ensures off >= -2 && Scanned(old(tally), SearchPath(index, want, skip), off != -2)
      ensures off == -1 ==> FindStart(Contents().hdrs, false, index, want, skip) == None
      ensures off >= 0 ==> StartHere(off, rec, i, p, index, want, backup, skip)
    {
      hide FindStart, Inv, View, Abs, ContAfter, Size, Scanned, SearchLength, HeaderStretch, Folded, LabelLen;
      AnchorFacts(State(), route);
      ContentsHeaders();
      var ok, found, ptr;
      ok, found, ptr, i, p := SearchHeader(index, want, backup, skip);
      if !ok || found.None? {
        off, rec := if ok then -1 else -2, Rec(0, []);
        return;
      }
      off, rec := found.value.0, found.value.1;
      FoundHere(State(), route, i, index, want, skip);
      if |rec.data| < PTR_PAYLOAD {
        var pad := ReadStep(i + 1);
        assert pad.typ == DTXT;  // the panic "short header without padding" cannot happen
      }
      if ptr.Some? { off, rec := ptr.value.0, ptr.value.1; }
    }

    /** The first record of a header and its padding are no pointers. */
    lemma PassHead(t: Tally, i: nat, index: nat, want: Want, skip: nat)
      requires Valid() && index >= 1 && Found(route, i, index, want, skip)
      requires Scanned(t, route.c[route.mesg + 1..i], true)
      ensures Scanned(t, route.c[route.mesg + 1..AfterHead(route, i)], true)
    {
      hide Inv, Scanned, Folded, LabelLen, ContAfter, FindStart, View;
      AnchorFacts(State(), route);
      FoundHere(State(), route, i, index, want, skip);
      var a := route.mesg + 1;
      SliceOn(route.c, a, i);
      PassText(t, route.c[a..i], route.c[i]);
      if |route.c[i].rec.data| < PTR_PAYLOAD {
        SliceOn(route.c, a, i + 1);
        PassText(t, route.c[a..i + 1], route.c[i + 1]);
      }
    }

    /** The search for the end of the header at i has reached path index j. */
    ghost predicate Going(i: nat, j: nat, cont: bool, index: nat, want: Want, skip: nat, t: Tally)
      reads `route, `tally
    {
      && Ordered(route) && index >= 1 && route.mesg < i < j <= route.hdr && Found(route, i, index, want, skip)
      && Ending(route, i, j, cont) && Scanned(t, route.c[route.mesg + 1..j], true)
    }

    /** What the search for the end passes. */
    ghost function EndStretch(index: nat, want: Want, skip: nat): seq<Item>
      reads `route
      requires Ordered(route) && index >= 1
    {
      HeaderStretch(route, ExtentLength(View(HeaderItems(route)), index, want, skip))
    }

    lemma GoingStart(i: nat, index: nat, want: Want, skip: nat, t: Tally)
      requires Valid() && index >= 1 && Found(route, i, index, want, skip)
      requires Scanned(t, route.c[route.mesg + 1..i], true)
      ensures Going(i, AfterHead(route, i), route.c[i].rec.typ == CONT, index, want, skip, t)
      ensures route.mesg < AfterHead(route, i) <= route.hdr
    {
      hide Inv, Scanned, Folded, LabelLen, ContAfter, FindStart, View, Ending;
      AnchorFacts(State(), route);
      EndStart(route, i);
      PassHead(t, i, index, want, skip);
    }

    /** The end was found. */
    lemma GoingStops(i: nat, j: nat, cont: bool, index: nat, want: Want, skip: nat, t: Tally)
      requires Going(i, j, cont, index, want, skip, t)
      requires j < route.hdr ==> IsText(route.c[j].rec) && !cont && !Folded(route.c[j].rec)
      ensures EndsAt(route, i, j) && Scanned(t, EndStretch(index, want, skip), true)
    {
      hide Scanned, Folded, Ending, EndsAt, HeaderStretch, ExtentLength, Found, View;
      if j == route.hdr { EndDone(route, i, cont); } else { EndStep(route, i, j, cont); }
      EndStops(route, i, j, index, want, skip);
    }

    /** A record that belongs to the header, or padding. */
    lemma GoingOn(i: nat, j: nat, cont: bool, index: nat, want: Want, skip: nat, t: Tally)
      requires Going(i, j, cont, index, want, skip, t) && j < route.hdr && route.c[j].rec.typ != PTR
      requires !Visible(route.c[j].rec) || (IsText(route.c[j].rec) && (cont || Folded(route.c[j].rec)))
      ensures Going(i, j + 1, if Visible(route.c[j].rec) then route.c[j].rec.typ == CONT else cont, index, want, skip, t)
    {
      hide Scanned, Folded, Ending, Found, EndsAt;
      EndStep(route, i, j, cont);
      SliceOn(route.c, route.mesg + 1, j);
      PassText(t, route.c[route.mesg + 1..j], route.c[j]);
    }

    /** A pointer met on the way to the end of a header. */
    method EndFollow(r: Rec, ghost i: nat, ghost j: nat, ghost cont: bool, ghost index: nat, ghost want: Want, ghost skip: nat,
                     ghost t: Tally) returns (ok: bool)
      requires Valid() && Going(i, j, cont, index, want, skip, t) && j < route.hdr
      requires r == route.c[j].rec && r.typ == PTR && pos == Limit(route.c[j])
      modifies `pos, `tally
      ensures ok ==> pos == route.c[j + 1].off && Going(i, j + 1, cont, index, want, skip, t)
      ensures !ok ==> Scanned(t, EndStretch(index, want, skip), false)
    {
      hide Inv, Size, Folded, Ending, Scanned, HeaderStretch, ExtentLength, Found, EndsAt, View;
      EndStep(route, i, j, cont);
      SliceOn(route.c, route.mesg + 1, j);
      ok := Follow(r, t, route.c[route.mesg + 1..j], j);
      if !ok {
        EndReaches(route, i, j, cont, index, want, skip);
        Blocked(t, route.c[route.mesg + 1..j + 1], EndStretch(index, want, skip));
      }
    }

    /** cleanup_find_header_end: the offset of what follows the header at path index i, or -1 when
        rec_goto refuses.  The search for that header began with tally t. */
    method FindHeaderEnd(rec: Rec, ghost i: nat, ghost t: Tally, ghost index: nat, ghost want: Want, ghost skip: nat)
      returns (next: int, ghost j: nat)
      requires Valid() && index >= 1 && Found(route, i, index, want, skip) && AfterHeader(route.c[i].off, rec, i)
      requires Scanned(t, route.c[route.mesg + 1..i], true)
      modifies `pos, `tally
      ensures next >= -1
      ensures Scanned(t, ExtentPath(index, want, skip), next >= 0)
      ensures next >= 0 ==> EndsAt(route, i, j) && next == route.c[j].off
    {
      hide Inv, Folded, View, Size, Going, EndsAt, Scanned, HeaderStretch, ExtentLength, Found;
      AnchorFacts(State(), route);
      ContentsHeaders();
      GoingStart(i, index, want, skip, t);
      var cont := rec.typ == CONT;
      j := AfterHead(route, i);
      while true
        invariant route.mesg < j <= route.hdr && pos == route.c[j].off && Going(i, j, cont, index, want, skip, t)
        decreases route.hdr - j
      {
        next := pos;
        if j < route.hdr { DistinctOffsets(State(), route, j, route.hdr); }
        if next == hdrPt {
          GoingStops(i, j, cont, index, want, skip, t);
          return;
        }
        HeaderKind(State(), route, j);
        var r := ReadStep(j);
        if r.typ == DTXT || r.typ == PTR {
          if r.typ == PTR {
            var ok := EndFollow(r, i, j, cont, index, want, skip, t);
            if !ok { return -1, j; }
          } else {
            GoingOn(i, j, cont, index, want, skip, t);
          }
          j := j + 1;
          continue;
        }
        if !cont && !Folded(r) {
          GoingStops(i, j, cont, index, want, skip, t);
          return;
        }
        GoingOn(i, j, cont, index, want, skip, t);
        cont, j := r.typ == CONT, j + 1;
      }
    }

    /** The search for the end continues that for the start. */
    lemma SearchExtent(t: Tally, off: int, i: nat, index: nat, want: Want, skip: nat)
      requires Ordered(route) && index >= 1 && off >= -2
      requires var hdrs := View(HeaderItems(route));
               && Scanned(t, HeaderStretch(route, SearchLength(hdrs, index, want, skip)), off != -2)
               && (off == -1 ==> FindStart(hdrs, false, index, want, skip) == None)
               && (off >= 0 ==> Found(route, i, index, want, skip))
      ensures off < 0 ==>
                Scanned(t, HeaderStretch(route, ExtentLength(View(HeaderItems(route)), index, want, skip)), off != -2)
      ensures off >= 0 ==> i < |route.c| && Scanned(t, route.c[route.mesg + 1..i], true)
    {
      hide Scanned, View, Found, HeaderStretch, SearchLength, ExtentLength;
      var hdrs := View(HeaderItems(route));
      if off == -2 {
        ExtentBeyond(route, index, want, skip);
        Blocked(t, HeaderStretch(route, SearchLength(hdrs, index, want, skip)),
                HeaderStretch(route, ExtentLength(hdrs, index, want, skip)));
      } else if off == -1 {
        ExtentMissing(hdrs, index, want, skip);
      } else {
        FoundLength(route, i, index, want, skip);
      }
    }

    // ----- Header edits -----

    /** New records at the end of the file, then one pointer to them at offset off. */
    ghost predicate CommittedAt(f: seq<byte>, before: seq<seq<byte>>, off: nat, rs: seq<Rec>)
      reads `file, `log
    {
      && off <= |f| && file == Committed(f, off, rs)
      && |log| > 0 && Appended(f, before, log[..|log| - 1]) && log[|log| - 1] == file
    }

    /** The final pointer of an edit. */
    method Commit(ghost f: seq<byte>, ghost before: seq<seq<byte>>, off: nat, start: nat, ghost rs: seq<Rec>)
      requires Written(f, |f|, before, rs) && off <= |f| && start == |f|
      modifies `file, `pos, `log
      ensures CommittedAt(f, before, off, rs)
    {
      hide Put, PutAll, SizeAll, EncAll;
      PutAllEnd(f, rs);
      pos := off;
      RecPut(PtrRec(start));
    }

    /** Output of cleanup_patch_header and, with no saved record, of cleanup_add_header: the new
        header, the saved record, a pointer to next, and last the pointer at off. */
    method WritePatch(text: seq<byte>, saved: Option<Rec>, next: nat, off: nat) returns (reverse: nat)
      requires off <= |file| && lim.line >= 1 && (saved.Some? ==> |saved.value.data| <= lim.line)
      modifies `file, `pos, `log
      ensures CommittedAt(old(file), old(log), off, PatchRecs(lim, text, saved, next))
      ensures reverse == old(|file|) + SizeAll(Render(text, lim) + SavedRecs(saved))
    {
      hide Written, Render, PtrRec, SizeAll, CommittedAt, RightAlign, Chunks;
      ghost var f, before := file, log;
      var start := |file|;
      pos := start;
      StartWriting();
      OutHeader(f, |f|, before, text);
      ghost var done := Render(text, lim);
      assert done + [] == done;
      if saved.Some? {
        var r := saved.value;
        OutRecsOne(r, lim.line);
        CleanupOut(f, |f|, before, done, r.typ, r.data);
        done := done + [r];
        if |r.data| < PTR_PAYLOAD {
          Next(f, |f|, before, done, PadRec(DTXT, PTR_PAYLOAD - |r.data|));
          done := done + [PadRec(DTXT, PTR_PAYLOAD - |r.data|)];
        }
      }
      assert done == Render(text, lim) + SavedRecs(saved);
      reverse := pos;
      WrittenPos(f, before, done);
      if saved.None? || saved.value.typ != PTR {
        Next(f, |f|, before, done, PtrRec(next));
        done := done + [PtrRec(next)];
      }
      assert done == PatchRecs(lim, text, saved, next);
      Commit(f, before, off, start, done);
    }

    /** A patch of a valid file: until its last write the file reads as before. */
    method Patch(text: seq<byte>, saved: Option<Rec>, next: nat, off: nat) returns (reverse: nat)
      requires Valid() && off <= |file| && lim.line >= 1 && (saved.Some? ==> |saved.value.data| <= lim.line)
      modifies `file, `pos, `log
      ensures file == Committed(old(file), off, PatchRecs(lim, text, saved, next))
      ensures reverse == old(|file|) + SizeAll(Render(text, lim) + SavedRecs(saved))
      ensures Unseen(route.c, old(log), log)
    {
      hide Inv, Render, Committed, PatchRecs, Unseen, CommittedAt, SizeAll, SavedRecs;
      ghost var q, before := State(), log;
      reverse := WritePatch(text, saved, next, off);
      CommittedFile(q.file, before, off, PatchRecs(lim, text, saved, next));
      CommittedUnseen(q, route, before, off, PatchRecs(lim, text, saved, next));
    }

    /** The file reads as g, at no more than this load; before the last of the writes since before
        it read along m. */
    ghost predicate Reached(m: Map, before: seq<seq<byte>>, load: nat, g: Message)
      reads `file, `dataOffset, `bodyOffset, `xtraOffset, `hdrPt, `hdrTarget, `rcptPt, `rcptTarget,
            `senderPt, `senderTarget, `free, `body, `contLength, `route, `log
    {
      Valid() && Contents() == g && Weight() <= load && Unseen(m.c, before, log)
    }

    lemma ReachedNow(m: Map, before: seq<seq<byte>>, load: nat)
      requires Valid() && Weight() <= load && Unseen(m.c, before, log)
      ensures Reached(m, before, load, Contents())
    {
    }

    /** cleanup_add_header. */
    method AddHeader(name: seq<byte>, space: seq<byte>, value: seq<byte>)
      requires Valid() && |file| < PTR_LIMIT
      modifies `file, `pos, `log, `hdrPt, `route
      ensures Reached(old(route), old(log), old(Weight()) + 1, old(Contents()).(
                hdrs := AddText(old(Contents().hdrs), Shown(Render(HeaderLine(name, space, value), lim)))))
    {
      hide Load, Inv, Render, Abs, Shown, PtrRec, HeaderLine, Committed, PatchRecs, Edited, Unseen, View, SizeAll;
      AnchorFacts(State(), route);
      ghost var q, m := State(), route;
      var text := HeaderLine(name, space, value);
      AddAtEnd(q, m, text);
      var reverse := Patch(text, None, hdrTarget, hdrPt);
      assert Render(text, lim) + SavedRecs(None) == Render(text, lim);
      hdrPt := reverse;
      route := Edited(m, m.hdr, m.hdr, AddedItems(q, m, text), AddedPtr(q, text));
    }

    /** The search of an insertion: -2 when rec_goto refuses, -1 when there is no such header;
        otherwise the record to be overwritten, and the offset of what follows a header record. */
    method FindPlace(index: nat) returns (off: int, rec: Rec, next: nat, ghost i: nat, ghost p: nat)
      requires Valid() && index >= 1
      modifies `pos, `tally
      ensures off >= -2 && Scanned(old(tally), SearchPath(index, Any, 0), off != -2)
      ensures off == -1 ==> FindStart(Contents().hdrs, false, index, Any, 0) == None
      ensures off >= 0 ==>
                Ordered(route) && Found(route, i, index, Any, 0) && HeaderPlaced(route, off, rec, i, p, next)
    {
      hide Inv, Abs, FindStart, Found, Scanned, HeaderStretch, SearchLength, Backup, AfterHeader, HeaderPlaced;
      AnchorFacts(State(), route);
      off, rec, i, p := FindHeaderStart(index, Any, true, 0);
      next := 0;
      if off >= 0 {
        if rec.typ != PTR { next := pos; }
        PlaceFound(off, rec, i, p, next);
      }
    }

    /** cleanup_ins_header; not ok when rec_goto refuses during the search. */
    method InsHeader(index: int, name: seq<byte>, space: seq<byte>, value: seq<byte>) returns (ok: bool)
      requires Valid() && |file| < PTR_LIMIT
      modifies `file, `pos, `log, `hdrPt, `route, `tally
      ensures Scanned(old(tally), old(SearchPath(if index < 1 then 1 else index, Any, 0)), ok)
      ensures ok ==> Reached(old(route), old(log), old(Weight()) + 1, old(Contents()).(
                hdrs := InsText(old(Contents().hdrs), index, Shown(Render(HeaderLine(name, space, value), lim)))))
      ensures !ok ==> unchanged(`file, `log, `hdrPt, `route)
    {
      hide Reached, Inv, Render, Abs, Shown, HeaderLine, FindStart, InsText, HeaderPlaced, Found, Scanned, SearchPath, Load;
      AnchorFacts(State(), route);
      ghost var q, m := State(), route;
      var text := HeaderLine(name, space, value);
      var off, rec, next, i, p := FindPlace(if index < 1 then 1 else index);
      if off == -2 { return false; }
      if off == -1 {
        InsMissing(q, m, index, Shown(Render(text, lim)));
        AddHeader(name, space, value);
        return true;
      }
      InsertHere(off, rec, next, i, p, index, text);
      ok := true;
    }

    /** The new header and the saved record, behind the file, and the pointer to them. */
    method InsertHere(off: nat, rec: Rec, next: nat, ghost i: nat, ghost p: nat, ghost index: int, text: seq<byte>)
      requires Valid() && |file| < PTR_LIMIT && HeaderPlaced(route, off, rec, i, p, next)
      requires Found(route, i, if index < 1 then 1 else index, Any, 0)
      modifies `file, `pos, `log, `route
      ensures Reached(old(route), old(log), old(Weight()) + 1, old(Contents()).(
                hdrs := InsText(old(Contents().hdrs), index, Shown(Render(text, lim)))))
    {
      hide Reached, Inv, Render, Abs, Shown, Committed, PatchRecs, Patched, Unseen, InsText,
           SizeAll, InsertPlace, HeaderPlaced, Found, Load;
      AnchorFacts(State(), route);
      ghost var q, m := State(), route;
      InsertFacts(q, m, off, rec, i, p, next, index, text);
      var reverse := Patch(text, Some(rec), next, off);
      route := Patched(q, m, InsertPlace(m, rec, i, p).0, InsertPlace(m, rec, i, p).1, text, Some(rec)).1;
      ReachedNow(m, old(log), Load(q, m) + 1);
    }

    /** What the search for a header passes. */
    ghost function SearchPath(index: nat, want: Want, skip: nat): seq<Item>
      reads `file, `dataOffset, `bodyOffset, `xtraOffset, `hdrPt, `hdrTarget, `rcptPt, `rcptTarget,
            `senderPt, `senderTarget, `free, `body, `contLength, `route
      requires Valid() && index >= 1
    {
      HeaderStretch(route, SearchLength(Contents().hdrs, index, want, skip))
    }

    /** What the search for a header and its end passes. */
    ghost function ExtentPath(index: nat, want: Want, skip: nat): seq<Item>
      reads `file, `dataOffset, `bodyOffset, `xtraOffset, `hdrPt, `hdrTarget, `rcptPt, `rcptTarget,
            `senderPt, `senderTarget, `free, `body, `contLength, `route
      requires Valid() && index >= 1
    {
      HeaderStretch(route, ExtentLength(Contents().hdrs, index, want, skip))
    }

    lemma ContentsHeaders()
      requires Valid()
      ensures Ordered(route) && Contents().hdrs == View(HeaderItems(route))
    {
      hide Path, Padded, Markers, BodyPart, Anchored;
    }

    lemma PlaceFound(off: nat, rec: Rec, i: nat, p: nat, next: nat)
      requires Ordered(route) && (rec.typ == PTR ==> Backup(Some((off, rec)), p, i))
      requires rec.typ != PTR ==> AfterHeader(off, rec, i) && next == pos
      ensures HeaderPlaced(route, off, rec, i, p, next)
    {
    }

    /** Both searches of an update or a deletion: -2 when rec_goto refuses in one of them, -1 when
        there is no such header; otherwise its offset, and that of what follows it. */
    method FindExtent(index: nat, name: seq<byte>) returns (off: int, next: int, ghost i: nat, ghost j: nat)
      requires Valid() && index >= 1
      modifies `pos, `tally
      ensures off == -2 || off == -1 || (off > 0 && next >= 0)
      ensures Scanned(old(tally), ExtentPath(index, Named(name), 1), off != -2)
      ensures off == -1 ==> FindStart(Contents().hdrs, false, index, Named(name), 1) == None
      ensures off > 0 ==>
                && Ordered(route) && Found(route, i, index, Named(name), 1) && EndsAt(route, i, j)
                && i < j < |route.c| && off == route.c[i].off && next == route.c[j].off
    {
      hide Inv, Abs, FindStart, View, LabelLen, Folded, Scanned, HeaderStretch, SearchLength, ExtentLength, Found,
           EndsAt, ContAfter, Size;
      AnchorFacts(State(), route);
      ContentsHeaders();
      ghost var t := tally;
      var start, rec, at, _ := FindHeaderStart(index, Named(name), false, 1);
      off, i := start, at;
      SearchExtent(t, off, i, index, Named(name), 1);
      next, j := -1, 0;
      if off >= 0 {
        FoundText(State(), route, i, index, Named(name), 1);
        FoundOffset(State(), route, i, index, Named(name), 1);
        next, j := FindHeaderEnd(rec, i, t, index, Named(name), 1);
        if next < 0 { off := -2; } else { EndsWithin(route, i, j); }
      }
    }

    /** cleanup_upd_header; not ok when rec_goto refuses during the search. */
    method UpdHeader(index: nat, name: seq<byte>, space: seq<byte>, value: seq<byte>) returns (ok: bool)
      requires Valid() && |file| < PTR_LIMIT && index >= 1
      modifies `file, `pos, `log, `hdrPt, `route, `tally
      ensures Scanned(old(tally), old(ExtentPath(index, Named(name), 1)), ok)
      ensures ok ==> Reached(old(route), old(log), old(Weight()) + 1, old(Contents()).(
                hdrs := UpdText(old(Contents().hdrs), index, name, Shown(Render(HeaderLine(name, space, value), lim)))))
      ensures !ok ==> unchanged(`file, `log, `hdrPt, `route)
    {
      hide Reached, Inv, Render, Abs, Shown, HeaderLine, Committed, PatchRecs, Edited, Unseen, FindStart, NewItems,
           SizeAll, Scanned, ExtentPath, Load, Found, EndsAt, UpdText, Patched;
      AnchorFacts(State(), route);
      ghost var q, m := State(), route;
      var text := HeaderLine(name, space, value);
      var off, next, i, j := FindExtent(index, name);
      if off == -2 { return false; }
      if off == -1 {
        UpdMissing(q, m, index, name, Shown(Render(text, lim)));
        AddHeader(name, space, value);
        return true;
      }
      UpdateFacts(q, m, i, j, index, name, text);
      var reverse := Patch(text, None, next, off);
      route := Patched(q, m, i, j, text, None).1;
      ReachedNow(m, old(log), Load(q, m) + 1);
      ok := true;
    }

    /** One pointer record at offset off. */
    method PutPointer(off: nat, target: nat)
      requires off <= |file|
      modifies `file, `pos, `log
      ensures file == Put(old(file), off, PtrRec(target))
    {
      hide Put, PtrRec, Size, Enc;
      pos := off;
      RecPut(PtrRec(target));
    }

    /** cleanup_del_header; not ok when rec_goto refuses during the search. */
    method DelHeader(index: nat, name: seq<byte>) returns (ok: bool)
      requires Valid() && |file| < PTR_LIMIT && index >= 1
      modifies `file, `pos, `log, `route, `tally
      ensures Valid()
      ensures Scanned(old(tally), old(ExtentPath(index, Named(name), 1)), ok)
      ensures ok ==> Contents() == old(Contents()).(hdrs := DelText(old(Contents().hdrs), index, name))
      ensures !ok ==> unchanged(`file, `log, `route)
      ensures Weight() <= old(Weight()) + 1
    {
      hide Inv, Abs, PtrRec, Put, FindStart, DelText, Deleted, Scanned, ExtentPath, Load, Found, EndsAt;
      AnchorFacts(State(), route);
      ghost var q, m := State(), route;
      var off, next, i, j := FindExtent(index, name);
      if off == -2 { return false; }
      if off > 0 {
        DeleteFacts(q, m, i, j, index, name);
        PutPointer(off, next);
        route := Deleted(q, m, i, j).1;
      } else {
        DelMissing(q, m, index, name);
      }
      ok := true;
    }

    lemma CommittedFile(f: seq<byte>, before: seq<seq<byte>>, off: nat, rs: seq<Rec>)
      requires CommittedAt(f, before, off, rs)
      ensures file == Committed(f, off, rs)
    {
    }

    // ----- Envelope edits -----

    /** Writes records one by one. */
    method PutRecords(ghost f: seq<byte>, ghost o: nat, ghost before: seq<seq<byte>>, ghost done: seq<Rec>,
                      recs: seq<Rec>)
      requires Written(f, o, before, done)
      modifies `file, `pos, `log
      ensures Written(f, o, before, done + recs)
    {
      hide Written;
      assert done + recs[..0] == done;
      for k := 0 to |recs|
        invariant Written(f, o, before, done + recs[..k])
      {
        Next(f, o, before, done + recs[..k], recs[k]);
        assert done + recs[..k] + [recs[k]] == done + recs[..k + 1];
      }
      assert recs[..|recs|] == recs;
    }

    /** cleanup_add_rcpt_par; recs are the records that cleanup_out_recipient writes. */
    method AddRecipient(recs: seq<Rec>)
      requires Valid() && |file| < PTR_LIMIT && AllEnv(recs)
      modifies `file, `pos, `log, `rcptPt, `route
      ensures Valid()
      ensures Contents() == if recs == [] then old(Contents()) else AddRcpt(old(Contents()), recs)
      ensures recs != [] ==> Unseen(old(route.c), old(log), log)
      ensures Weight() <= old(Weight()) + 1
      ensures recs != [] ==> forall saved :: Reverses(saved, EnvelopePath(route)) >= 1
    {
      hide Load, Reverses, EnvelopePath, RcptMap, Inv, Written, Abs, PtrRec, Committed, Moved, Unseen, CommittedAt, SizeAll, EnvRec, AddRcpt, RcptItems;
      ghost var q, m, before := State(), route, log;
      RcptFacts(q, m, recs);
      var start := |file|;
      pos := start;
      StartWriting();
      PutRecords(q.file, |q.file|, before, [], recs);
      assert [] + recs == recs;
      WrittenPos(q.file, before, recs);
      if pos == start {
        NothingAdded(q.file, before, recs);
        return;
      }
      var reverse := pos;
      Next(q.file, |q.file|, before, recs, PtrRec(rcptTarget));
      Commit(q.file, before, rcptPt, start, recs + [PtrRec(rcptTarget)]);
      CommittedFile(q.file, before, rcptPt, recs + [PtrRec(rcptTarget)]);
      CommittedUnseen(q, m, before, rcptPt, recs + [PtrRec(rcptTarget)]);
      rcptPt := reverse;
      route := RcptMap(q, m, recs);
      assert State() == RcptQueue(q, recs);
      SomeSize(recs);
      InvOrdered(State(), route);
      forall saved ensures Reverses(saved, EnvelopePath(route)) >= 1 { RcptReverses(q, m, recs, saved); }
    }

    lemma NothingAdded(f: seq<byte>, before: seq<seq<byte>>, recs: seq<Rec>)
      requires Written(f, |f|, before, recs) && pos == |f|
      ensures file == f && recs == []
    {
      SomeSize(recs);
    }

    /** cleanup_chg_from; attrs are the DSN attribute records, addr the new sender. */
    method ChangeSender(attrs: seq<Rec>, addr: seq<byte>)
      requires Valid() && |file| < PTR_LIMIT && AllEnv(attrs) && |addr| < MAX_PAYLOAD
      modifies `file, `pos, `log, `senderPt, `senderTarget, `route
      ensures Valid()
      ensures old(Contents()).senderAt < |old(Contents()).env|
      ensures Contents() == ChgFrom(old(Contents()), attrs, addr)
      ensures Unseen(old(route.c), old(log), log)
      ensures Weight() <= old(Weight()) + 1 && AnotherTurn(old(route), route)
      ensures |file| == old(|file|) + SizeAll(SenderRecs(attrs, addr)) + PTR_SIZE
    {
      hide Load, Inv, Written, Abs, PtrRec, Committed, Unseen, CommittedAt, SizeAll, AllEnv, ChgFrom, SenderMap,
           SenderRecs, SenderRoom, AnotherTurn;
      ghost var q, m, before := State(), route, log;
      SenderFacts(q, m, attrs, addr);
      var start := |file|;
      var newSender, after := WriteSender(attrs, addr);
      ghost var rs := SenderRecs(attrs, addr) + [PtrRec(q.senderTarget)];
      Commit(q.file, before, senderPt, start, rs);
      CommittedFile(q.file, before, senderPt, rs);
      CommittedUnseen(q, m, before, senderPt, rs);
      senderTarget, senderPt := after, newSender;
      route := SenderMap(q, m, attrs, addr);
      assert State() == SenderQueue(q, attrs, addr);
    }

    /** The new sender records and the way back. */
    method WriteSender(attrs: seq<Rec>, addr: seq<byte>) returns (newSender: nat, after: nat)
      modifies `file, `pos, `log
      ensures Written(old(file), old(|file|), old(log), SenderRecs(attrs, addr) + [PtrRec(senderTarget)])
      ensures newSender == old(|file|) + SizeAll(attrs)
      ensures after == old(|file|) + SizeAll(SenderRecs(attrs, addr))
    {
      hide Written, SizeAll, RightAlign;
      ghost var f, before := file, log;
      pos := |file|;
      StartWriting();
      PutRecords(f, |f|, before, [], attrs);
      assert [] + attrs == attrs;
      WrittenPos(f, before, attrs);
      newSender := pos;
      ghost var done := attrs + [Rec(FROM, addr)];
      Next(f, |f|, before, attrs, Rec(FROM, addr));
      if |addr| < PTR_PAYLOAD {
        Next(f, |f|, before, done, PadRec(PTR, PTR_PAYLOAD - |addr|));
      } else {
        assert done + [] == done;
      }
      assert Written(f, |f|, before, SenderRecs(attrs, addr));
      WrittenPos(f, before, SenderRecs(attrs, addr));
      after := pos;
      Next(f, |f|, before, SenderRecs(attrs, addr), PtrRec(senderTarget));
    }

    /** A recipient record is overwritten by a cancelled one of the same size. */
    method CancelRcpt(rec: Rec, curr: nat, ghost k: nat)
      requires Valid() && k < |route.c| - 1 && (k < route.mesg || route.xtra < k)
      requires rec == route.c[k].rec && rec.typ == RCPT && curr == route.c[k].off
      requires Limit(route.c[k]) == route.c[k + 1].off
      modifies `file, `pos, `log, `route
      ensures Valid() && route == Retyped(old(route), k) && |route.c| == |old(route).c| && pos == route.c[k + 1].off
    {
      hide Inv, Put, Size, Retyped;
      RetypedInv(State(), route, k);
      RetypedSame(route, k);
      pos := curr;
      RecPut(Rec(DRCP, rec.data));
      route := Retyped(route, k);
    }

    /** One record of the scan that is neither a pointer nor a marker. */
    method CancelRecord(rec: Rec, curr: nat, addr: seq<byte>, orig: Option<seq<byte>>, ghost m0: Map, ghost k: nat)
      returns (next: Option<seq<byte>>)
      requires Valid() && Cancelling(m0, route, k, addr, orig) && k < |route.c| - 1 && k != m0.mesg && k != m0.xtra
      requires rec == route.c[k].rec && rec.typ != PTR && curr == route.c[k].off
      requires pos == Limit(route.c[k]) == route.c[k + 1].off
      modifies `file, `pos, `log, `route
      ensures Valid() && State() == old(State()).(file := file)
      ensures k + 1 < |route.c| && pos == route.c[k + 1].off && Cancelling(m0, route, k + 1, addr, next)
    {
      hide Inv, Cancelling, Size, Target, Retyped;
      CancelShape(m0, route, k, addr, orig);
      CancelStep(m0, route, k, addr, orig);
      next := orig;
      if rec.typ == ORCP {
        next := Some(rec.data);
      } else if rec.typ == RCPT {
        if addr == (if orig.Some? then orig.value else rec.data) {
          CancelRcpt(rec, curr, k);
        }
        next := None;
      } else if rec.typ == DRCP || rec.typ == DONE {
        next := None;
      }
    }

    /** cleanup_del_rcpt; not ok when rec_goto refuses, with the recipients before that cancelled. */
    method DeleteRecipient(addr: seq<byte>) returns (ok: bool)
      requires Valid()
      modifies `file, `pos, `log, `route, `tally
      ensures Ordered(old(route)) && Valid() && Scanned(old(tally), EnvelopePath(old(route)), ok)
      ensures ok ==> Contents() == DelRcpt(old(Contents()), addr)
      ensures !ok ==> PartlyDeleted(old(Contents()), Contents(), addr)
      ensures Weight() == old(Weight()) && SamePointers(EnvelopePath(old(route)), EnvelopePath(route))
    {
      hide Inv, Abs, Cancelling, Put, Size, DelRcpt, PartlyDeleted, Retyped, Target, Scanned, EnvelopeUpto, EnvelopePath,
           Load, SamePointers;
      AnchorFacts(State(), route);
      ghost var m0, q0, t := route, State(), tally;
      CancelStart(route, addr);
      PassNothing(t);
      UptoStart(m0);
      pos := 0;
      ghost var k: nat := 0;
      var orig: Option<seq<byte>> := None;
      while true
        invariant Valid() && k < |route.c| && pos == route.c[k].off
        invariant Cancelling(m0, route, k, addr, orig) && k < |m0.c| && Scanned(t, EnvelopeUpto(m0, k), true)
        invariant State() == q0.(file := file)
        decreases |m0.c| - k
      {
        CancelShape(m0, route, k, addr, orig);
        CancelSame(q0, m0, State(), route, k, addr, orig);
        AnchorFacts(State(), route);
        MarkerFacts(State(), route, k);
        var curr := pos;
        ReadAtPath(State(), route, k);
        var r := RecGetRaw(file, pos);
        var rec := r.value.rec;
        pos := r.value.next;
        if rec.typ == END {
          CancelDone(m0, route, addr, orig);
          UptoEnd(m0);
          return true;
        }
        UptoStep(m0, k);
        if rec.typ == MESG {
          CancelSkip(m0, route, addr, orig);
          pos, k := xtraOffset, route.xtra;
          continue;
        }
        FollowPath(State(), route, k);
        if rec.typ == PTR {
          ok := Follow(rec, t, EnvelopeUpto(m0, k), k);
          if !ok {
            CancelStopped(m0, route, k, addr, orig);
            Blocked(t, EnvelopeUpto(m0, k) + [m0.c[k]], EnvelopePath(m0));
            return;
          }
        } else {
          PassText(t, EnvelopeUpto(m0, k), m0.c[k]);
        }
        if rec.typ == XTRA {
          CancelPast(m0, route, addr, orig);
        } else if rec.typ == PTR {
          CancelStep(m0, route, k, addr, orig);
        } else {
          orig := CancelRecord(rec, curr, addr, orig, m0, k);
        }
        k := k + 1;
      }
    }

    // ----- Body replacement -----

    /** Between start and finish: text was written, the stream is where the next record goes. */
    ghost predicate Replacing()
      reads `file, `dataOffset, `bodyOffset, `xtraOffset, `hdrPt, `hdrTarget, `rcptPt, `rcptTarget,
            `senderPt, `senderTarget, `free, `body, `contLength, `route, `text, `pos
    {
      Editing(State(), route, text) && pos == Current(State()).writeOffs && Backs(text) < |body|
    }

    ghost function Holding(): nat
      reads `file, `dataOffset, `bodyOffset, `xtraOffset, `hdrPt, `hdrTarget, `rcptPt, `rcptTarget,
            `senderPt, `senderTarget, `free, `body, `contLength, `route, `text, `pos
      requires Replacing()
    {
      Held(free, body)
    }

    /** cleanup_region_open. */
    method RegionOpen(need: nat) returns (r: Region)
      modifies `free
      ensures Opened(old(free), need, |file|, free, r)
    {
      var k := 0;
      while k < |free|
        invariant k <= |free| && free == old(free) && forall i :: 0 <= i < k ==> free[i].len < need
      {
        if free[k].len >= need {
          assert FirstFit(free, need, k);
          r := free[k].(writeOffs := free[k].start);
          free := free[..k] + free[k + 1..];
          return;
        }
        k := k + 1;
      }
      r := Region(|file|, 0, |file|);
    }

    /** cleanup_region_init, when there are no regions yet: the first one is where the body was
        received.  Then cleanup_region_return: all regions become free. */
    method ReturnRegions()
      requires Valid()
      modifies `free, `body
      ensures free == Regions(old(State()))
    {
      hide Inv, Regions;
      RegionsAre(State(), route);
      if body == [] { body := [Region(hdrTarget, xtraOffset - hdrTarget, hdrTarget)]; }
      free := free + body;
    }

    /** cleanup_body_edit_start. */
    method BodyEditStart()
      requires Valid() && |file| < PTR_LIMIT
      modifies `file, `pos, `log, `hdrTarget, `free, `body, `contLength, `text
      ensures Replacing() && text == [] && route == old(route) && |file| == old(|file|)
      ensures Held(free, body) == |Regions(old(State()))| + 1
    {
      hide Inv, Editing, Opened, PtrRec, Put, Regions, Size, Enc, Room;
      ghost var q := State();
      ReturnRegions();
      var r := RegionOpen(PTR_SIZE);
      StartFacts(q, route, free, r);
      OpenHeld(Regions(q), PTR_SIZE, |file|, free, r);
      LinkHeaders(r);
      text := [];
      assert State() == Started(q, free, r);
    }

    /** The first region is linked to the last message header. */
    method LinkHeaders(r: Region)
      requires hdrPt <= |file|
      modifies `file, `pos, `log, `hdrTarget, `body, `contLength
      ensures contLength == bodyOffset - dataOffset && body == [r] && hdrTarget == r.start == pos
      ensures file == Put(old(file), hdrPt, PtrRec(r.start))
    {
      hide Put, PtrRec, Size, Enc;
      contLength := bodyOffset - dataOffset;
      body := [r];
      pos := hdrPt;
      hdrTarget := r.start;
      RecPut(PtrRec(hdrTarget));
      pos := r.start;
    }

    /** The link that is written when the current region is full. */
    method WriteLink(next: Region)
      requires pos <= |file| && body != [] && 0 < next.start < PTR_LIMIT
      modifies `file, `pos, `log, `body
      ensures file == Put(old(file), old(pos), PtrRec(next.start))
      ensures body == old(body)[|old(body)| - 1 := old(body)[|old(body)| - 1].(writeOffs := old(pos) + PTR_SIZE)] + [next]
      ensures pos == next.start
    {
      PtrSucc(pos, next.start);
      hide PtrRec, Put, Size, Enc;
      RecPut(PtrRec(next.start));
      var last := |body| - 1;
      body := body[last := body[last].(writeOffs := pos)] + [next];
      pos := next.start;
    }

    /** The switch to another region in cleanup_body_edit_write. */
    method SwitchRegion(need: nat)
      requires Replacing() && |file| < PTR_LIMIT && need >= PTR_SIZE && body[|body| - 1].len > 0
      modifies `file, `pos, `log, `free, `body, `contLength, `text
      ensures Replacing() && |file| == old(|file|) && View(text) == old(View(text))
      ensures HasRoomFor(body[|body| - 1], need) && Holding() == old(Holding())
    {
      hide Editing, Opened, PtrRec, Put, View, Room, Backs;
      ghost var q := State();
      ReplacingFacts(q, route, text);
      var cur := body[|body| - 1];
      contLength := contLength + (cur.writeOffs - cur.start);
      var next := RegionOpen(need);
      SwitchFacts(q, route, text, need, free, next);
      WriteLink(next);
      text := text + [Item(cur.writeOffs, PtrRec(next.start))];
      assert State() == Switched(q, free, next);
      assert body[|body| - 1] == next;
    }

    /** A line that fits in the current region. */
    method WriteLine(line: seq<byte>)
      requires Replacing() && |file| < PTR_LIMIT && |line| <= lim.line
      requires SpaceNeed(|line|) + PTR_SIZE < PTR_LIMIT && HasRoomFor(body[|body| - 1], SpaceNeed(|line|) + PTR_SIZE)
      modifies `file, `pos, `log, `body, `text
      ensures Replacing() && View(text) == old(View(text)) + [Rec(NORM, line)] && Holding() == old(Holding())
      ensures |file| <= old(|file|) + SpaceNeed(|line|)
    {
      hide Editing, Put, View, SpaceNeed, Chunks, Room, HasRoomFor, HasRoom, Written, Backs;
      ghost var q, f, before, w := State(), file, log, pos;
      ReplacingFacts(q, route, text);
      var r := Rec(NORM, line);
      LineFacts(q, route, text, r);
      BacksConcat(text, [Item(w, r)]);
      MarkerNoBack(Item(w, r));
      WriteHere();
      CleanupOut(f, w, before, [], NORM, line);
      OneWritten(f, w, before, r);
      var last := |body| - 1;
      body := body[last := body[last].(writeOffs := pos)];
      text := text + [Item(w, r)];
      assert State() == q.(file := Put(f, w, r), body := Advanced(q.body, Size(r)));
    }

    /** cleanup_body_edit_write, for a line within the line length limit. */
    method BodyEditWrite(line: seq<byte>)
      requires Replacing() && |file| < PTR_LIMIT && |line| <= lim.line
      modifies `file, `pos, `log, `free, `body, `contLength, `text
      ensures Replacing() && View(text) == old(View(text)) + [Rec(NORM, line)] && Holding() == old(Holding())
      ensures |file| <= old(|file|) + SpaceNeed(|line|)
    {
      hide Editing, View, SpaceNeed, Backs;
      ReplacingFacts(State(), route, text);
      LineSize(line);
      var cur := body[|body| - 1];
      if cur.len > 0 {
        var needed := SpaceNeed(|line|) + PTR_SIZE;
        if needed > cur.len - (cur.writeOffs - cur.start) {
          SwitchRegion(needed);
        }
      }
      WriteLine(line);
    }

    /** cleanup_body_edit_finish. */
    method BodyEditFinish()
      requires Replacing() && |file| < PTR_LIMIT
      modifies `file, `pos, `log, `body, `contLength, `route
      ensures Ordered(old(route)) && Valid()
      ensures Contents() == Abs(old(route)).(body := View(text))
      ensures contLength == bodyOffset - dataOffset + SizeAll(View(text))
      ensures Weight() <= Backs(HeaderPath(old(route))) + Backs(EnvelopePath(old(route))) + old(Holding())
    {
      hide Editing, Inv, Put, View, SizeAll, Abs, FinishMap, Backs, Load, HeaderPath, EnvelopePath, Held, Enc;
      ghost var q, m := State(), route;
      FinishFacts(q, m, text);
      var cur := body[|body| - 1];
      contLength := contLength + (cur.writeOffs - cur.start);
      PtrSucc(pos, xtraOffset);
      hide PtrRec;
      RecPut(PtrRec(xtraOffset));
      cur := cur.(writeOffs := pos);
      // cleanup_region_close: freeze the size of an open-ended region.
      if cur.len == 0 { cur := cur.(len := cur.writeOffs - cur.start); }
      body := body[|body| - 1 := cur];
      route := FinishMap(q, m, text);
      assert State() == Finished(q);
    }

    lemma WriteHere()
      requires pos <= |file|
      ensures Written(file, pos, log, [])
    {
      NothingWritten(file, log);
    }

    lemma OneWritten(f: seq<byte>, o: nat, before: seq<seq<byte>>, r: Rec)
      requires lim.line >= 1 && |r.data| <= lim.line
      requires o <= |f| && Written(f, o, before, [] + OutRecs(r.typ, r.data, lim.line))
      ensures file == Put(f, o, r) && pos == o + Size(r)
    {
      hide Put, Size;
      OutRecsOne(r, lim.line);
      assert [] + [r] == [r];
      OnePut(f, o, r);
    }

    /** cleanup_repl_body for one whole replacement: start, an empty first line, the lines that
        the filter sends, and the end. */
    method ReplaceBody(lines: seq<seq<byte>>)
      requires Valid() && forall i :: 0 <= i < |lines| ==> |lines[i]| <= lim.line
      requires |file| + SizeAll(NewBody(lines)) < PTR_LIMIT
      modifies `file, `pos, `log, `hdrTarget, `free, `body, `contLength, `text, `route
      ensures Valid()
      ensures Contents() == old(Contents()).(body := NewBody(lines))
      ensures contLength == bodyOffset - dataOffset + SizeAll(NewBody(lines))
      ensures Weight() <= old(Weight()) + 1
    {
      hide Inv, Replacing, View, SizeAll, Abs, SpaceNeed, NewBody, Backs, HeaderPath, EnvelopePath, BodyPath;
      ghost var size := |file|;
      AnchorFacts(State(), route);
      SizeStep(lines, 0);
      BodyEditStart();
      EmptyView();
      BodyEditWrite([]);
      NewBodyStart(lines);
      for k := 0 to |lines|
        invariant Replacing() && route == old(route) && View(text) == NewBody(lines[..k])
        invariant Holding() == |Regions(old(State()))| + 1
        invariant |file| <= size + SizeAll(NewBody(lines[..k]))
      {
        SizeStep(lines, k);
        BodyEditWrite(lines[k]);
        NewBodyStep(lines, k);
      }
      SizeStep(lines, |lines|);
      assert lines[..|lines|] == lines;
      BodyEditFinish();
    }

    lemma StartWriting()
      requires pos == |file|
      ensures Written(file, |file|, log, [])
    {
      NothingWritten(file, log);
    }

    lemma WrittenPos(f: seq<byte>, before: seq<seq<byte>>, rs: seq<Rec>)
      requires Written(f, |f|, before, rs)
      ensures pos == |f| + SizeAll(rs)
    {
    }

    lemma CommittedUnseen(q: Queue, m: Map, before: seq<seq<byte>>, off: nat, rs: seq<Rec>)
      requires Inv(q, m) && CommittedAt(q.file, before, off, rs)
      ensures Unseen(m.c, before, log)
    {
      hide Inv, Committed, Unseen, Appended;
      AppendedUnseen(q, m, before, log[..|log| - 1], file);
      assert log == log[..|log| - 1] + [file];
    }
  }

  /** The text that cleanup_add_header and cleanup_patch_header format. */
  function HeaderLine(name: seq<byte>, space: seq<byte>, value: seq<byte>): seq<byte> {
    name + [COLON] + space + value
  }

  lemma OutRecsOne(r: Rec, limit: nat)
    requires limit >= 1 && |r.data| <= limit
    ensures OutRecs(r.typ, r.data, limit) == [r]
  {
  }

  /** The search found the header at i, or a pointer at p that leads to it. */
  ghost predicate HeaderPlaced(m: Map, off: nat, rec: Rec, i: nat, p: nat, next: nat) {
    && Ordered(m) && m.hdr < |m.c|
    && (rec.typ == PTR ==>
          && m.mesg < p < i <= m.hdr && off == m.c[p].off && rec == m.c[p].rec
          && forall n :: p < n < i ==> !Visible(m.c[n].rec))
    && (rec.typ != PTR ==>
          && i < |m.c| && off == m.c[i].off && rec == m.c[i].rec
          && AfterHead(m, i) <= m.hdr && next == m.c[AfterHead(m, i)].off)
  }

  /** Path indices of the overwritten record and of what follows it. */
  ghost function InsertPlace(m: Map, rec: Rec, i: nat, p: nat): (nat, nat)
    requires i < |m.c|
  {
    if rec.typ == PTR then (p, p + 1) else (i, AfterHead(m, i))
  }

  lemma InsMissing(q: Queue, m: Map, index: int, hdr: seq<Rec>)
    requires Inv(q, m)
    requires FindStart(Abs(m).hdrs, false, if index < 1 then 1 else index, Any, 0) == None
    ensures InsText(Abs(m).hdrs, index, hdr) == AddText(Abs(m).hdrs, hdr)
  {
    hide Inv, FindStart, Abs;
  }

  lemma UpdMissing(q: Queue, m: Map, index: nat, name: seq<byte>, hdr: seq<Rec>)
    requires Inv(q, m) && index >= 1 && FindStart(Abs(m).hdrs, false, index, Named(name), 1) == None
    ensures UpdText(Abs(m).hdrs, index, name, hdr) == AddText(Abs(m).hdrs, hdr)
  {
    hide Inv, FindStart, Abs;
  }

  lemma FoundText(q: Queue, m: Map, i: nat, index: nat, want: Want, skip: nat)
    requires Inv(q, m) && index >= 1 && Found(m, i, index, want, skip)
    ensures m.mesg < i < m.hdr && m.c[i].rec.typ != PTR
  {
    hide Path, Markers, Anchored, BodyPart, HeaderPart, FindStart, ContAfter, View, Folded, LabelLen;
  }

  lemma DelMissing(q: Queue, m: Map, index: nat, name: seq<byte>)
    requires Inv(q, m) && index >= 1 && FindStart(Abs(m).hdrs, false, index, Named(name), 1) == None
    ensures DelText(Abs(m).hdrs, index, name) == Abs(m).hdrs
  {
    hide Inv, FindStart, Abs;
  }

  /** A pointer over the header at i that leads to what follows it. */
  ghost function Deleted(q: Queue, m: Map, i: nat, j: nat): (Queue, Map)
    requires Ordered(m) && m.mesg < i < j <= m.hdr && m.c[i].off <= |q.file|
  {
    var p := Item(m.c[i].off, PtrRec(m.c[j].off));
    (q.(file := Put(q.file, p.off, p.rec)), Edited(m, i, j, [p], m.c[m.hdr]))
  }

  lemma DeleteFacts(q: Queue, m: Map, i: nat, j: nat, index: nat, name: seq<byte>)
    requires Inv(q, m) && |q.file| < PTR_LIMIT && index >= 1
    requires Found(m, i, index, Named(name), 1) && EndsAt(m, i, j)
    ensures m.mesg < i < j <= m.hdr && m.c[i].off <= |q.file|
    ensures var (q', m') := Deleted(q, m, i, j);
            && q' == q.(file := Put(q.file, m.c[i].off, PtrRec(m.c[j].off)))
            && Inv(q', m') && Load(q', m') <= Load(q, m) + 1
            && Abs(m') == Abs(m).(hdrs := DelText(Abs(m).hdrs, index, name))
  {
    hide Inv, Load, Abs, Found, EndsAt, Put, PtrRec, DelText, Edited;
    AnchorFacts(q, m);
    EndsWithin(m, i, j);
    DeleteAt(q, m, i, j, index, name);
  }

  lemma EndsWithin(m: Map, i: nat, j: nat)
    requires Ordered(m) && EndsAt(m, i, j)
    ensures m.mesg < i < j <= m.hdr
  {
    hide FindEnd, ContAfter, View;
  }

  lemma UpdateFacts(q: Queue, m: Map, i: nat, j: nat, index: nat, name: seq<byte>, text: seq<byte>)
    requires Inv(q, m) && |q.file| < PTR_LIMIT && index >= 1
    requires Found(m, i, index, Named(name), 1) && EndsAt(m, i, j)
    ensures m.mesg < i < j <= m.hdr && m.c[i].off <= |q.file| && q.lim.line >= 1
    ensures var (q', m') := Patched(q, m, i, j, text, None);
            && q' == q.(file := Committed(q.file, m.c[i].off, PatchRecs(q.lim, text, None, m.c[j].off)))
            && Inv(q', m') && Load(q', m') <= Load(q, m) + 1
            && Abs(m') == Abs(m).(hdrs := UpdText(Abs(m).hdrs, index, name, Shown(Render(text, q.lim))))
  {
    hide Inv, Load, Abs, Found, EndsAt, Committed, PatchRecs, Shown, Render, UpdText, Edited, NewItems;
    AnchorFacts(q, m);
    EndsWithin(m, i, j);
    UpdateAt(q, m, i, j, index, name, text);
  }

  lemma InsertFacts(q: Queue, m: Map, off: nat, rec: Rec, i: nat, p: nat, next: nat, index: int, text: seq<byte>)
    requires Inv(q, m) && |q.file| < PTR_LIMIT && HeaderPlaced(m, off, rec, i, p, next)
    requires Found(m, i, if index < 1 then 1 else index, Any, 0)
    ensures i < |m.c| && off <= |q.file| && q.lim.line >= 1 && |rec.data| <= q.lim.line
    ensures var (a, j) := InsertPlace(m, rec, i, p);
            && m.mesg < a < j <= m.hdr && m.c[a].off <= |q.file|
            && var (q', m') := Patched(q, m, a, j, text, Some(rec));
               && q' == q.(file := Committed(q.file, off, PatchRecs(q.lim, text, Some(rec), next)))
               && Inv(q', m')
               && Abs(m') == Abs(m).(hdrs := InsText(Abs(m).hdrs, index, Shown(Render(text, q.lim))))
               && Load(q', m') <= Load(q, m) + 1
  {
    hide Load, Inv, Render, Abs, Shown, Committed, PatchRecs, Edited, FindStart, NewItems, InsText,
         SizeAll, View, ContAfter, LabelLen, Folded, Slot, Jumps, Target;
    AnchorFacts(q, m);
    if rec.typ == PTR {
      InsertAtPtr(q, m, p, i, index, text);
      BackIgnored(q.lim, text, rec, next, m.c[p + 1].off);
      HeaderKind(q, m, p);
    } else {
      InsertAtText(q, m, i, index, text);
      HeaderKind(q, m, i);
    }
    SavedLength(rec, q.lim);
  }

  /** The records of a replaced body: an empty one, then the lines. */
  function NewBody(lines: seq<seq<byte>>): seq<Rec> {
    [Rec(NORM, [])] + seq(|lines|, i requires 0 <= i < |lines| => Rec(NORM, lines[i]))
  }

  lemma NewBodyStart(lines: seq<seq<byte>>)
    ensures lines[..0] == [] && NewBody([]) == [Rec(NORM, [])] && SizeAll(NewBody([])) == SpaceNeed(0)
    ensures [] + [Rec(NORM, [])] == NewBody([])
  {
    assert NewBody([]) == [Rec(NORM, [])];
    assert [Rec(NORM, [])][1..] == [];
  }

  lemma NewBodyStep(lines: seq<seq<byte>>, k: nat)
    requires k < |lines|
    ensures NewBody(lines[..k + 1]) == NewBody(lines[..k]) + [Rec(NORM, lines[k])]
    ensures SizeAll(NewBody(lines[..k + 1])) == SizeAll(NewBody(lines[..k])) + SpaceNeed(|lines[k]|)
  {
    hide SizeAll, SpaceNeed;
    var r := Rec(NORM, lines[k]);
    SizeAllConcat(NewBody(lines[..k]), [r]);
    assert SizeAll([r]) == SpaceNeed(|lines[k]|) by { OneSize(r); }
  }

  lemma OneSize(r: Rec)
    ensures SizeAll([r]) == Size(r)
  {
    assert [r][1..] == [];
  }

  lemma SizeStep(lines: seq<seq<byte>>, k: nat)
    requires k <= |lines|
    ensures SizeAll(NewBody(lines[..k])) <= SizeAll(NewBody(lines))
    ensures k < |lines| ==> SizeAll(NewBody(lines[..k])) < SizeAll(NewBody(lines))
  {
    hide SizeAll;
    var a, b := NewBody(lines[..k]), NewBody(lines)[k + 1..];
    assert NewBody(lines) == a + b;
    SizeAllConcat(a, b);
    if k < |lines| { SomeSize(b); }
  }

  lemma RegionsAre(q: Queue, m: Map)
    requires Inv(q, m)
    ensures q.body == [] ==> q.free == [] && q.hdrTarget == q.bodyOffset && q.hdrTarget <= q.xtraOffset
    ensures Regions(q) == q.free + if q.body == [] then [Region(q.hdrTarget, q.xtraOffset - q.hdrTarget, q.hdrTarget)] else q.body
  {
    hide Path, Markers, HeaderPart, Anchored, AllOutside, EachInside;
    if q.body == [] { assert Closed(Regions(q)[0]); }
  }

  lemma ReplacingFacts(q: Queue, m: Map, text: seq<Item>)
    requires Editing(q, m, text)
    ensures q.body != [] && Sane(q.lim) && Ordered(m) && Room(Current(q), |q.file|) && Current(q).writeOffs <= |q.file|
    ensures q.xtraOffset == m.c[m.xtra].off && (|q.file| < PTR_LIMIT ==> 0 < q.xtraOffset < PTR_LIMIT)
  {
    hide Path, Markers, HeaderPart, Placed, View, SizeAll, Separate, Succ, WideOutside, Pool, Cross;
    FrameOrdered(q, m);
    WriteInside(q, m, text);
    if |q.file| < PTR_LIMIT { TailStart(q, m, text); }
  }

  /** The test that cleanup_body_edit_write makes, or that a region just opened meets. */
  predicate HasRoomFor(r: Region, need: nat) {
    r.start <= r.writeOffs && (r.len > 0 ==> need <= r.len - (r.writeOffs - r.start))
  }

  lemma LineSize(line: seq<byte>)
    requires |line| < MAX_PAYLOAD
    ensures SpaceNeed(|line|) + PTR_SIZE < PTR_LIMIT
  {
    LenLenSmall(|line|);
  }

  lemma RoomFor17(q: Queue, r: Rec)
    requires q.body != [] && Room(Current(q), |q.file|) && |q.file| < PTR_LIMIT
    requires HasRoomFor(Current(q), Size(r) + PTR_SIZE) && Size(r) + PTR_SIZE < PTR_LIMIT
    ensures HasRoom(Current(q), Size(r) + PTR_SIZE)
  {
    hide Size;
  }

  lemma OnePut(f: seq<byte>, o: nat, r: Rec)
    requires o <= |f|
    ensures PutAll(f, o, [r]) == Put(f, o, r) && SizeAll([r]) == Size(r)
  {
    hide Put, Size;
    assert [r][1..] == [];
  }

  lemma StartFacts(q: Queue, m: Map, rest: seq<Region>, r: Region)
    requires Inv(q, m) && |q.file| < PTR_LIMIT && Opened(Regions(q), PTR_SIZE, |q.file|, rest, r)
    ensures q.hdrPt <= |q.file| && 0 < r.start < PTR_LIMIT && r.writeOffs == r.start
    ensures Editing(Started(q, rest, r), m, []) && |Started(q, rest, r).file| == |q.file|
  {
    hide Inv, Editing, Opened, Regions;
    EditStart(q, m, rest, r);
    OpenConserves(Regions(q), PTR_SIZE, |q.file|, rest, r);
  }

  lemma SwitchFacts(q: Queue, m: Map, text: seq<Item>, need: nat, rest: seq<Region>, next: Region)
    requires Editing(q, m, text) && q.body != [] && Current(q).len != 0 && |q.file| < PTR_LIMIT && need >= PTR_SIZE
    requires Opened(q.free, need, |q.file|, rest, next)
    ensures Current(q).writeOffs <= |q.file| && 0 < next.start < PTR_LIMIT && next.writeOffs == next.start
    ensures HasRoomFor(next, need) && |Switched(q, rest, next).file| == |q.file|
    ensures Editing(Switched(q, rest, next), m, text + [Item(Current(q).writeOffs, PtrRec(next.start))])
    ensures View(text + [Item(Current(q).writeOffs, PtrRec(next.start))]) == View(text)
    ensures Backs(text + [Item(Current(q).writeOffs, PtrRec(next.start))]) <= Backs(text) + 1
    ensures |rest| + (if next.len == 0 then 0 else 1) == |q.free|
  {
    hide Editing, Opened, PtrRec, View, Put, Backs;
    OpenHeld(q.free, need, |q.file|, rest, next);
    BacksConcat(text, [Item(Current(q).writeOffs, PtrRec(next.start))]);
    BacksOne(Item(Current(q).writeOffs, PtrRec(next.start)));
    EditSwitch(q, m, text, need, rest, next);
    OpenConserves(q.free, need, |q.file|, rest, next);
    ViewPtrEnd(text, Current(q).writeOffs, next.start);
  }

  lemma FinishFacts(q: Queue, m: Map, text: seq<Item>)
    requires Editing(q, m, text) && q.body != [] && |q.file| < PTR_LIMIT && Backs(text) < |q.body|
    ensures Ordered(m) && 0 < q.xtraOffset < PTR_LIMIT && Current(q).start <= Current(q).writeOffs <= |q.file|
    ensures Inv(Finished(q), FinishMap(q, m, text))
    ensures Abs(FinishMap(q, m, text)) == Abs(m).(body := View(text))
    ensures Finished(q).contLength == q.bodyOffset - q.dataOffset + SizeAll(View(text))
    ensures Load(Finished(q), FinishMap(q, m, text))
         <= Backs(HeaderPath(m)) + Backs(EnvelopePath(m)) + Held(q.free, q.body)
  {
    hide Editing, Finished, FinishMap, Backs, Load, Inv, Held, View, SizeAll, HeaderPath, EnvelopePath;
    ReplacingFacts(q, m, text);
    EditFinish(q, m, text);
    FinishLoad(q, m, text);
  }

  lemma LineFacts(q: Queue, m: Map, text: seq<Item>, r: Rec)
    requires Editing(q, m, text) && q.body != [] && |q.file| < PTR_LIMIT && IsText(r) && |r.data| < MAX_PAYLOAD
    requires Room(Current(q), |q.file|) && HasRoomFor(Current(q), Size(r) + PTR_SIZE) && Size(r) + PTR_SIZE < PTR_LIMIT
    ensures var w := Current(q).writeOffs;
            && w <= |q.file| && |Put(q.file, w, r)| <= |q.file| + Size(r)
            && Editing(q.(file := Put(q.file, w, r), body := Advanced(q.body, Size(r))), m, text + [Item(w, r)])
            && View(text + [Item(w, r)]) == View(text) + [r]
  {
    hide Editing, View, Put, Size;
    RoomFor17(q, r);
    EditLine(q, m, text, r);
    WriteInside(q, m, text);
    PutAt(q.file, Current(q).writeOffs, r);
    LineAdded(text, Current(q).writeOffs, r);
  }

  lemma LineAdded(text: seq<Item>, w: nat, r: Rec)
    requires IsText(r)
    ensures View(text + [Item(w, r)]) == View(text) + [r]
  {
    hide View;
    ContLength(text, Item(w, r));
  }

  lemma BackIgnored(lim: Limits, text: seq<byte>, ptr: Rec, a: nat, b: nat)
    requires lim.line >= 1 && ptr.typ == PTR
    ensures PatchRecs(lim, text, Some(ptr), a) == PatchRecs(lim, text, Some(ptr), b)
  {
  }

  lemma SavedLength(r: Rec, lim: Limits)
    requires HeaderRec(r, lim) && r.typ != DTXT && Sane(lim)
    ensures |r.data| <= lim.line
  {
    EncSize(r);
  }

  lemma FoundOffset(q: Queue, m: Map, i: nat, index: nat, want: Want, skip: nat)
    requires Inv(q, m) && index >= 1 && Found(m, i, index, want, skip)
    ensures m.c[i].off > 0
  {
    hide Inv, FindStart, ContAfter, View, Folded, LabelLen;
    AnchorFacts(q, m);
    DistinctOffsets(q, m, 0, i);
  }

  lemma SomeSize(recs: seq<Rec>)
    ensures SizeAll(recs) > 0 <==> recs != []
  {
    if recs != [] { EncSize(recs[0]); }
  }

  lemma RcptFacts(q: Queue, m: Map, recs: seq<Rec>)
    requires Inv(q, m) && AllEnv(recs) && |q.file| < PTR_LIMIT
    ensures Ordered(m) && q.rcptPt <= |q.file| && Inv(RcptQueue(q, recs), RcptMap(q, m, recs))
    ensures Abs(m).rcptAt <= if Abs(m).rcptInEnv then |Abs(m).env| else |Abs(m).ext|
    ensures Abs(RcptMap(q, m, recs)) == AddRcpt(Abs(m), recs)
    ensures Load(RcptQueue(q, recs), RcptMap(q, m, recs)) <= Load(q, m) + 1
  {
    hide Load, Path, HeaderPart, BodyPart, Markers, Moved, Committed, RcptItems, EnvRec, View, AddRcpt;
    RcptInv(q, m, recs);
    RcptAbs(q, m, recs);
  }

  lemma SenderFacts(q: Queue, m: Map, attrs: seq<Rec>, addr: seq<byte>)
    requires Inv(q, m) && AllEnv(attrs) && |addr| < MAX_PAYLOAD && |q.file| < PTR_LIMIT
    ensures Ordered(m) && SenderRoom(m) && q.senderPt <= |q.file|
    ensures Inv(SenderQueue(q, attrs, addr), SenderMap(q, m, attrs, addr))
    ensures Abs(m).senderAt < |Abs(m).env| && Abs(SenderMap(q, m, attrs, addr)) == ChgFrom(Abs(m), attrs, addr)
    ensures Load(SenderQueue(q, attrs, addr), SenderMap(q, m, attrs, addr)) <= Load(q, m) + 1
    ensures AnotherTurn(m, SenderMap(q, m, attrs, addr))
    ensures |SenderQueue(q, attrs, addr).file| == |q.file| + SizeAll(SenderRecs(attrs, addr)) + PTR_SIZE
  {
    hide Load, Path, HeaderPart, BodyPart, Markers, Moved, Committed, SenderItems, EnvRec, View, ChgFrom, SenderRecs, SizeAll,
         AnotherTurn;
    SenderAnotherTurn(q, m, attrs, addr);
    SenderGrowth(q, m, attrs, addr);
    SenderInv(q, m, attrs, addr);
    SenderAbs(q, m, attrs, addr);
  }

  lemma NoRegions(d: Received, lim: Limits)
    requires lim.line >= 1
    ensures StartQueue(d, lim).lim == lim && StartQueue(d, lim).free == StartQueue(d, lim).body == []
  {
  }

  lemma MarkerFacts(q: Queue, m: Map, k: nat)
    requires Inv(q, m) && k < |m.c|
    ensures Marked(m.c[k].rec.typ, k, m)
  {
    hide Path, HeaderPart, BodyPart, Anchored, Marked;
  }

  lemma ReadAtPath(q: Queue, m: Map, k: nat)
    requires Inv(q, m) && k < |m.c|
    ensures Read(q.file, m.c[k].off) == Some(ReadRec(m.c[k].rec, Limit(m.c[k])))
    ensures m.c[k].rec.typ == PTR ==> Target(m.c[k].rec.data).Some?
  {
    hide HeaderPart, BodyPart, Anchored, Markers;
    ReadAt(q.file, m.c[k].off, m.c[k].rec);
  }

  lemma FollowPath(q: Queue, m: Map, k: nat)
    requires Inv(q, m) && k < |m.c| - 1
    ensures m.c[k].rec.typ != PTR ==> Limit(m.c[k]) == m.c[k + 1].off
  {
    PathSucc(q, m, k);
  }

  lemma CancelShape(m0: Map, m: Map, k: nat, addr: seq<byte>, orig: Option<seq<byte>>)
    requires Cancelling(m0, m, k, addr, orig)
    ensures |m.c| == |m0.c| && m == m0.(c := m.c) && (k <= m0.mesg || m0.xtra <= k)
  {
  }

  lemma RetypedSame(m: Map, k: nat)
    requires k < |m.c| - 1
    ensures var m' := Retyped(m, k);
            |m'.c| == |m.c| && m'.c[k + 1] == m.c[k + 1] && Size(Rec(DRCP, m.c[k].rec.data)) == Size(m.c[k].rec)
  {
  }

  lemma NothingWritten(f: seq<byte>, before: seq<seq<byte>>)
    ensures PutAll(f, |f|, []) == f && SizeAll([]) == 0 && Appended(f, before, before)
  {
  }

  function Remaining(skip: nat, count: nat): nat { if count < skip then skip - count else 0 }

  lemma DistinctOffsets(q: Queue, m: Map, k: nat, n: nat)
    requires Inv(q, m) && k < n < |m.c|
    ensures m.c[k].off != m.c[n].off
  {
    hide At, Padded, Markers, Anchored, HeaderPart, BodyPart, Readable, Size, Succ;
    StoredFits(q.file, m.c, k);
    StoredFits(q.file, m.c, n);
    assert Apart(m.c[k], m.c[n].off, Size(m.c[n].rec));
  }

  lemma AnchorFacts(q: Queue, m: Map)
    requires Inv(q, m)
    ensures Ordered(m) && q.dataOffset == m.c[m.mesg + 1].off && q.hdrPt == m.c[m.hdr].off
    ensures q.xtraOffset == m.c[m.xtra].off && m.c[0].off == 0
    ensures Padded(HeaderItems(m), false) && Sane(q.lim)
  {
    hide Path, Padded, Markers, BodyPart, Size;
  }

  lemma HeaderKind(q: Queue, m: Map, k: nat)
    requires Inv(q, m) && m.mesg < k <= m.hdr
    ensures k < m.hdr ==> HeaderRec(m.c[k].rec, q.lim)
    ensures k < m.hdr ==> IsText(m.c[k].rec) || m.c[k].rec.typ == DTXT || m.c[k].rec.typ == PTR
  {
    hide Path, Padded, Markers, BodyPart, Size, Anchored, Target;
  }

  lemma FoundNow(m: Map, k: nat, cont: bool, want: Want, index: nat, skip: nat, all: Option<nat>)
    requires Ordered(m) && m.mesg < k < m.hdr && index >= 1 && IsText(m.c[k].rec)
    requires cont == ContAfter(m.c[m.mesg + 1..k], false) && !cont && !Folded(m.c[k].rec) && LabelLen(m.c[k].rec.data) > 0
    requires all == FindStart(View(HeaderItems(m)), false, index, want, skip) == Some(|View(m.c[m.mesg + 1..k])|)
    ensures Found(m, k, index, want, skip)
  {
  }

  lemma SearchState(m: Map, k: nat, cont: bool, index: nat, want: Want, skip: nat, all: Option<nat>)
    requires Ordered(m) && Searching(m, k, cont, index, want, skip, all)
    ensures m.mesg < k <= m.hdr && cont == ContAfter(m.c[m.mesg + 1..k], false)
  {
  }

  lemma FoundHere(q: Queue, m: Map, i: nat, index: nat, want: Want, skip: nat)
    requires Inv(q, m) && index >= 1 && Found(m, i, index, want, skip)
    ensures AfterHead(m, i) <= m.hdr && (|m.c[i].rec.data| < PTR_PAYLOAD ==> m.c[i + 1].rec.typ == DTXT)
  {
    hide Path, Markers, Anchored, BodyPart, FindStart, ContAfter, Padded, View;
    StartRoom(m, i, m.hdr);
  }

  function LineRecs(first: bool, line: seq<byte>, lineLen: nat, limit: nat): seq<Rec>
    requires limit >= 1
  {
    if first then Chunks(NORM, line, limit) + Padding(lineLen) else Chunks(NORM, Indented(line), limit)
  }

  function RenderFrom(text: seq<byte>, p: nat, lim: Limits): seq<Rec>
    requires p <= |text| && lim.line >= 1
  {
    if p == 0 then Render(text, lim) else RenderRest(text, p, lim)
  }

  lemma RenderStep(text: seq<byte>, p: nat, lim: Limits)
    requires p <= |text| && lim.line >= 1
    ensures var e := LineEnd(text, p);
            if NiceCut(p, e, lim.header) then RenderFrom(text, p, lim) == []
            else RenderFrom(text, p, lim) == LineRecs(p == 0, text[p..CutAt(e, lim.header)], e - p, lim.line)
                   + if e > lim.header || e == |text| then [] else RenderFrom(text, e + 1, lim)
  {
    hide Chunks, Padding, Indented;
    if p == 0 { assert text[p..CutAt(LineEnd(text, 0), lim.header)] == text[..CutAt(LineEnd(text, 0), lim.header)]; }
  }

  method FindNewline(text: seq<byte>, p: nat) returns (e: nat)
    requires p <= |text|
    ensures e == LineEnd(text, p)
  {
    e := p;
    while e < |text| && text[e] != NEWLINE
      invariant p <= e <= |text| && LineEnd(text, p) == LineEnd(text, e)
    {
      e := e + 1;
    }
  }
}
