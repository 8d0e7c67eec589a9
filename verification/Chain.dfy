/** The path a reader takes through a queue file: a list of records in which every
    pointer has been followed.  An edit replaces a stretch of the path by records that
    were added at the end of the file; the bytes of all other records stay as they are. */
module Chain {
  import opened Records

  datatype Item = Item(off: nat, rec: Rec)

  function Limit(x: Item): nat { x.off + Size(x.rec) }

  /** A pointer with value 0 is a dummy: the reader falls through. */
  predicate Jumps(r: Rec) { r.typ == PTR && Target(r.data).Some? && Target(r.data).value != 0 }

  /** Where the reader continues after x. */
  function Succ(x: Item): nat { if Jumps(x.rec) then Target(x.rec.data).value else Limit(x) }

  predicate Apart(x: Item, o: nat, n: nat) { Disjoint(x.off, Size(x.rec), o, n) }

  /** Records that a reader can read: the payload fits, and pointers are well formed. */
  predicate Readable(r: Rec) { |r.data| < MAX_PAYLOAD && (r.typ == PTR ==> Target(r.data).Some?) }

  ghost predicate Stored(f: seq<byte>, c: seq<Item>) {
    forall i :: 0 <= i < |c| ==> At(f, c[i].off, c[i].rec) && Readable(c[i].rec)
  }

  ghost predicate Linked(c: seq<Item>) {
    forall i :: 0 <= i < |c| - 1 ==> Succ(c[i]) == c[i + 1].off
  }

  ghost predicate Distinct(c: seq<Item>) {
    forall i, j :: 0 <= i < j < |c| ==> Apart(c[i], c[j].off, Size(c[j].rec))
  }

  /** c is a path through f; its records occupy disjoint parts of the file, so it is acyclic. */
  ghost predicate Path(f: seq<byte>, c: seq<Item>) {
    Stored(f, c) && Linked(c) && Distinct(c)
  }

  ghost predicate Clear(c: seq<Item>, o: nat, n: nat) {
    forall i :: 0 <= i < |c| ==> Apart(c[i], o, n)
  }

  ghost predicate Separate(a: seq<Item>, b: seq<Item>) {
    forall i, j :: 0 <= i < |a| && 0 <= j < |b| ==> Apart(a[i], b[j].off, Size(b[j].rec))
  }

  lemma PtrSucc(o: nat, v: nat)
    requires 0 < v < PTR_LIMIT
    ensures Succ(Item(o, PtrRec(v))) == v && Jumps(PtrRec(v)) && Readable(PtrRec(v))
    ensures Size(PtrRec(v)) == PTR_SIZE && PtrRec(v).typ == PTR
  {
    PtrRoundTrip(v);
  }

  // ----- What writing does to a path -----

  lemma StoredFits(f: seq<byte>, c: seq<Item>, i: nat)
    requires Stored(f, c) && i < |c|
    ensures c[i].off + 2 <= Limit(c[i]) <= |f|
  {
    EncSize(c[i].rec);
  }

  /** Bytes added after the end of the file do not change what a reader sees. */
  lemma AppendKeepsPath(f: seq<byte>, xs: seq<byte>, c: seq<Item>)
    requires Path(f, c)
    ensures Path(f + xs, c)
  {
    forall i | 0 <= i < |c| ensures At(f + xs, c[i].off, c[i].rec) {
      AppendKeeps(f, xs, c[i].off, c[i].rec);
    }
  }

  /** A record written away from the path does not change what a reader sees. */
  lemma PutKeepsPath(f: seq<byte>, o: nat, r: Rec, c: seq<Item>)
    requires Path(f, c) && o <= |f| && Clear(c, o, Size(r))
    ensures Path(Put(f, o, r), c)
  {
    forall i | 0 <= i < |c| ensures At(Put(f, o, r), c[i].off, c[i].rec) {
      PutKeeps(f, o, r, c[i].off, c[i].rec);
    }
  }

  lemma JoinPaths(f: seq<byte>, a: seq<Item>, b: seq<Item>)
    requires Path(f, a) && Path(f, b) && Separate(a, b)
    requires a != [] && b != [] ==> Succ(a[|a| - 1]) == b[0].off
    ensures Path(f, a + b)
  {
    hide At, Succ, Apart, Size, Readable;
    var c := a + b;
    forall i, j | 0 <= i < j < |c| ensures Apart(c[i], c[j].off, Size(c[j].rec)) {
      if i < |a| <= j { assert c[i] == a[i] && c[j] == b[j - |a|]; }
    }
    forall i | 0 <= i < |c| - 1 ensures Succ(c[i]) == c[i + 1].off {
      if i == |a| - 1 { assert c[i] == a[i] && c[i + 1] == b[0]; }
    }
  }

  lemma SubPath(f: seq<byte>, c: seq<Item>, i: nat, j: nat)
    requires Path(f, c) && i <= j <= |c|
    ensures Path(f, c[i..j])
  {
    hide At, Succ, Apart, Size, Readable;
  }

  // ----- Records laid out in a row -----

  function Row(o: nat, rs: seq<Rec>): seq<Item>
    decreases |rs|
  {
    if rs == [] then [] else [Item(o, rs[0])] + Row(o + Size(rs[0]), rs[1..])
  }

  lemma {:induction false} RowConcat(o: nat, a: seq<Rec>, b: seq<Rec>)
    ensures Row(o, a + b) == Row(o, a) + Row(o + SizeAll(a), b)
    decreases |a|
  {
    if a == [] {
      assert a + b == b;
    } else {
      assert (a + b)[1..] == a[1..] + b;
      RowConcat(o + Size(a[0]), a[1..], b);
    }
  }

  lemma RowOne(o: nat, r: Rec)
    ensures Row(o, [r]) == [Item(o, r)]
  {
    assert [r][1..] == [];
  }

  /** No record of the row is left by a jump, except possibly the last one. */
  ghost predicate Flows(rs: seq<Rec>) {
    && (forall i :: 0 <= i < |rs| - 1 ==> !Jumps(rs[i]))
    && (forall i :: 0 <= i < |rs| ==> Readable(rs[i]))
  }

  lemma {:induction false} RowShape(o: nat, rs: seq<Rec>)
    ensures |Row(o, rs)| == |rs|
    decreases |rs|
    ensures forall i :: 0 <= i < |rs| ==>
              && Row(o, rs)[i].rec == rs[i]
              && o <= Row(o, rs)[i].off
              && Limit(Row(o, rs)[i]) <= o + SizeAll(rs)
    ensures rs != [] ==> Row(o, rs)[0].off == o && Limit(Row(o, rs)[|rs| - 1]) == o + SizeAll(rs)
  {
    if rs != [] {
      RowShape(o + Size(rs[0]), rs[1..]);
      var t := Row(o + Size(rs[0]), rs[1..]);
      forall i | 0 <= i < |rs| ensures Row(o, rs)[i] == if i == 0 then Item(o, rs[0]) else t[i - 1] {}
      if |rs| == 1 { assert rs[1..] == []; }
    }
  }

  lemma OneItem(f: seq<byte>, r: Rec)
    requires Readable(r)
    ensures Path(f + Enc(r), [Item(|f|, r)])
    ensures |f + Enc(r)| == |f| + Size(r)
  {
    PutEnd(f, r);
    PutAt(f, |f|, r);
  }

  /** Records written one after the other at the end of the file form a path. */
  lemma {:induction false} RowPath(f: seq<byte>, rs: seq<Rec>)
    requires Flows(rs)
    ensures Path(f + EncAll(rs), Row(|f|, rs))
    decreases |rs|
  {
    hide At, Enc, Readable, Size, Jumps;
    if rs != [] {
      var r, t := rs[0], rs[1..];
      var g := f + Enc(r);
      OneItem(f, r);
      RowPath(g, t);
      var a, b := [Item(|f|, r)], Row(|g|, t);
      assert g + EncAll(t) == f + EncAll(rs);
      AppendKeepsPath(g, EncAll(t), a);
      RowShape(|g|, t);
      assert Separate(a, b);
      if t != [] { assert !Jumps(rs[0]); }
      JoinPaths(f + EncAll(rs), a, b);
      assert Row(|f|, rs) == a + b;
    }
  }

  // ----- The splice -----

  /** The path after the stretch c[i..j] was replaced: a pointer over c[i], the new row at
      the end of the file, and the rest of the old path. */
  ghost function Spliced(c: seq<Item>, i: nat, j: nat, end: nat, rs: seq<Rec>): seq<Item>
    requires i < j <= |c|
  {
    c[..i] + [Item(c[i].off, PtrRec(end))] + Row(end, rs) + c[j..]
  }

  /** The commit point of every edit.  The new records go after the end of the file; up to
      then the old path is intact.  One pointer written over c[i] then switches the reader
      to the new path. */
  lemma Splice(f: seq<byte>, c: seq<Item>, i: nat, j: nat, rs: seq<Rec>)
    requires Path(f, c) && i < j < |c|
    requires 0 < |f| < PTR_LIMIT && c[i].off + PTR_SIZE <= |f|
    requires rs != [] && Flows(rs) && Succ(Item(|f| + SizeAll(rs[..|rs| - 1]), rs[|rs| - 1])) == c[j].off
    requires Clear(c[..i], c[i].off, PTR_SIZE) && Clear(c[j..], c[i].off, PTR_SIZE)
    ensures c[i].off <= |f + EncAll(rs)|
    ensures Path(f + EncAll(rs), c)
    ensures Path(Put(f + EncAll(rs), c[i].off, PtrRec(|f|)), Spliced(c, i, j, |f|, rs))
    ensures |Put(f + EncAll(rs), c[i].off, PtrRec(|f|))| == |f| + SizeAll(rs)
  {
    hide At, Enc, EncAll, Put, Row, Readable, Jumps, Succ, Target, LenLen, Digits;
    var n := |f|;
    var g := f + EncAll(rs);
    var p := Item(c[i].off, PtrRec(n));
    var h := Put(g, p.off, p.rec);
    EncAllSize(rs);
    AppendKeepsPath(f, EncAll(rs), c);
    RowPath(f, rs);
    RowShape(n, rs);
    PtrSucc(p.off, n);
    StoredFits(f, c, i);
    StoredFits(f, c, j);
    var a, b, row := c[..i], c[j..], Row(n, rs);
    RowOnTop(f, c, i, n, rs);
    PutAt(g, p.off, p.rec);
    SubPath(g, c, 0, i);
    SubPath(g, c, j, |c|);
    PutKeepsPath(g, p.off, p.rec, a);
    PutKeepsPath(g, p.off, p.rec, b);
    PutKeepsPath(g, p.off, p.rec, row);
    RowLast(n, rs);
    SpliceJoin(f, h, c, i, j, p, row);
    assert a + [p] + row + b == Spliced(c, i, j, n, rs);
  }

  /** One record written over c[i] that leads straight to c[j]. */
  lemma Overwrite(f: seq<byte>, c: seq<Item>, i: nat, j: nat, r: Rec)
    requires Path(f, c) && i < j < |c|
    requires Readable(r) && Succ(Item(c[i].off, r)) == c[j].off
    requires Clear(c[..i], c[i].off, Size(r)) && Clear(c[j..], c[i].off, Size(r))
    requires c[i].off + Size(r) <= |f|
    ensures Path(Put(f, c[i].off, r), c[..i] + [Item(c[i].off, r)] + c[j..])
    ensures |Put(f, c[i].off, r)| == |f|
  {
    hide At, Readable, Size, Succ, Put;
    var a, b, p := c[..i], c[j..], Item(c[i].off, r);
    var h := Put(f, p.off, r);
    PutAt(f, p.off, r);
    SubPath(f, c, 0, i);
    SubPath(f, c, j, |c|);
    PutKeepsPath(f, p.off, r, a);
    PutKeepsPath(f, p.off, r, b);
    assert Path(h, [p]);
    if i > 0 { assert Succ(a[i - 1]) == c[i].off; }
    JoinPaths(h, a, [p]);
    forall x, y | 0 <= x < |a + [p]| && 0 <= y < |b| ensures Apart((a + [p])[x], b[y].off, Size(b[y].rec)) {
      assert b[y] == c[j + y];
      if x < i { assert (a + [p])[x] == c[x]; }
    }
    JoinPaths(h, a + [p], b);
  }

  lemma {:induction false} RowLast(o: nat, rs: seq<Rec>)
    requires rs != []
    ensures |Row(o, rs)| == |rs|
    ensures Row(o, rs)[|rs| - 1] == Item(o + SizeAll(rs[..|rs| - 1]), rs[|rs| - 1])
  {
    RowShape(o, rs);
    var m := |rs| - 1;
    assert rs == rs[..m] + [rs[m]];
    SizeAllConcat(rs[..m], [rs[m]]);
  }

  /** The new row lies beyond everything in the old file, also when a pointer written there
      reaches past the old end. */
  lemma RowOnTop(f: seq<byte>, c: seq<Item>, i: nat, n: nat, rs: seq<Rec>)
    requires Path(f, c) && i < |c| && n == |f| && rs != []
    requires c[i].off + PTR_SIZE <= n
    ensures Clear(Row(n, rs), c[i].off, PTR_SIZE)
  {
    RowShape(n, rs);
  }

  lemma SpliceJoin(f: seq<byte>, h: seq<byte>, c: seq<Item>, i: nat, j: nat, p: Item, row: seq<Item>)
    requires Path(f, c) && i < j < |c|
    requires p.off == c[i].off && Size(p.rec) == PTR_SIZE && row != [] && Succ(p) == row[0].off
    requires At(h, p.off, p.rec) && Readable(p.rec)
    requires Path(h, c[..i]) && Path(h, row) && Path(h, c[j..])
    requires Clear(c[..i], p.off, PTR_SIZE) && Clear(c[j..], p.off, PTR_SIZE) && Clear(row, p.off, PTR_SIZE)
    requires forall k :: 0 <= k < |row| ==> |f| <= row[k].off
    requires Succ(row[|row| - 1]) == c[j].off
    ensures Path(h, c[..i] + [p] + row + c[j..])
  {
    hide At, Readable, Size, Succ;
    var a, b := c[..i], c[j..];
    assert Path(h, [p]);
    if i > 0 { assert Succ(a[i - 1]) == c[i].off; }
    JoinPaths(h, a, [p]);
    forall x, y | 0 <= x < |a + [p]| && 0 <= y < |row|
      ensures Apart((a + [p])[x], row[y].off, Size(row[y].rec))
    {
      if x < i { StoredFits(f, c, x); assert (a + [p])[x] == c[x]; }
    }
    JoinPaths(h, a + [p], row);
    var abc := a + [p] + row;
    forall x, y | 0 <= x < |abc| && 0 <= y < |b| ensures Apart(abc[x], b[y].off, Size(b[y].rec)) {
      StoredFits(f, c, j + y);
      assert b[y] == c[j + y];
      if x < i { assert abc[x] == c[x]; }
    }
    JoinPaths(h, abc, b);
  }

  // ----- What the reader gets -----

  /** Pointers and padding are not passed on. */
  predicate Visible(r: Rec) { r.typ != PTR && r.typ != DTXT }

  function View(c: seq<Item>): seq<Rec> {
    if c == [] then []
    else if Visible(c[|c| - 1].rec) then View(c[..|c| - 1]) + [c[|c| - 1].rec]
    else View(c[..|c| - 1])
  }

  lemma {:induction false} ViewConcat(a: seq<Item>, b: seq<Item>)
    ensures View(a + b) == View(a) + View(b)
  {
    if b == [] {
      assert a + b == a;
    } else {
      ViewConcat(a, b[..|b| - 1]);
      assert (a + b)[..|a + b| - 1] == a + b[..|b| - 1];
    }
  }

  /** Visible records of a list of records. */
  function Shown(rs: seq<Rec>): seq<Rec> {
    if rs == [] then [] else (if Visible(rs[0]) then [rs[0]] else []) + Shown(rs[1..])
  }

  lemma ViewOne(x: Item)
    ensures View([x]) == if Visible(x.rec) then [x.rec] else []
  {
    assert [x][..0] == [];
  }

  lemma {:induction false} ViewRow(o: nat, rs: seq<Rec>)
    ensures View(Row(o, rs)) == Shown(rs)
    decreases |rs|
  {
    if rs != [] {
      ViewRow(o + Size(rs[0]), rs[1..]);
      ViewConcat([Item(o, rs[0])], Row(o + Size(rs[0]), rs[1..]));
      ViewOne(Item(o, rs[0]));
    }
  }

  lemma ShownStep(rs: seq<Rec>)
    requires rs != []
    ensures Shown(rs) == (if Visible(rs[0]) then [rs[0]] else []) + Shown(rs[1..])
  {
  }

  lemma {:induction false} ShownConcat(a: seq<Rec>, b: seq<Rec>)
    ensures Shown(a + b) == Shown(a) + Shown(b)
  {
    if a == [] {
      assert a + b == b;
    } else {
      hide Visible, Shown;
      var x := if Visible(a[0]) then [a[0]] else [];
      ShownStep(a);
      ShownStep(a + b);
      ShownConcat(a[1..], b);
      assert (a + b)[1..] == a[1..] + b;
      assert x + (Shown(a[1..]) + Shown(b)) == x + Shown(a[1..]) + Shown(b);
    }
  }

  lemma {:induction false} ShownAll(rs: seq<Rec>)
    requires forall i :: 0 <= i < |rs| ==> Visible(rs[i])
    ensures Shown(rs) == rs
  {
    if rs != [] { ShownAll(rs[1..]); }
  }

  lemma {:induction false} ViewHidden(c: seq<Item>)
    requires forall i :: 0 <= i < |c| ==> !Visible(c[i].rec)
    ensures View(c) == []
  {
    if c != [] { ViewHidden(c[..|c| - 1]); }
  }

  /** f reads as a path that starts at offset 0 and stops at the END record. */
  ghost predicate Reads(f: seq<byte>, c: seq<Item>) {
    && Path(f, c) && c != [] && c[0].off == 0
    && forall i :: 0 <= i < |c| ==> (c[i].rec.typ == END <==> i == |c| - 1)
  }

  /** A file has at most one such path: what is read does not depend on how it was written. */
  lemma {:induction false} ReadsUnique(f: seq<byte>, c: seq<Item>, d: seq<Item>)
    requires Reads(f, c) && Reads(f, d)
    ensures c == d
  {
    var n := if |c| < |d| then |c| else |d|;
    SamePrefix(f, c, d, n);
    assert c[n - 1] == d[n - 1];
  }

  lemma {:induction false} SamePrefix(f: seq<byte>, c: seq<Item>, d: seq<Item>, n: nat)
    requires Reads(f, c) && Reads(f, d) && n <= |c| && n <= |d|
    ensures forall i :: 0 <= i < n ==> c[i] == d[i]
  {
    if n > 0 {
      SamePrefix(f, c, d, n - 1);
      assert c[n - 1].off == d[n - 1].off by {
        if n > 1 { assert Succ(c[n - 2]) == c[n - 1].off && Succ(d[n - 2]) == d[n - 1].off; }
      }
      AtUnique(f, c[n - 1].off, c[n - 1].rec, d[n - 1].rec);
    }
  }
}
