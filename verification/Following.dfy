/** Following pointers (rec_goto, src/global/record.c:323-367): reverse jumps are counted for as
    long as a stream is open, and after too many of them reading fails. */
module Following {
  import opened Records
  import opened Chain

  const REVERSE_JUMP_LIMIT: nat := 10_000

  /** What rec_goto remembers: the target of the last jump, and the reverse jumps so far. */
  datatype Tally = Tally(saved: nat, count: nat)

  datatype Jump = Refused | Stay | To(offset: nat)

  /** rec_goto.  A jump is reverse when it does not lead beyond the target of the last one. */
  function RecGoto(t: Tally, data: seq<byte>): (Tally, Jump) {
    match Target(data)
    case None => (t, Refused)
    case Some(v) =>
      if v == 0 then (t, Stay)
      else if v > t.saved then (t.(saved := v), To(v))
      else if t.count + 1 > REVERSE_JUMP_LIMIT then (t.(count := t.count + 1), Refused)
      else (Tally(v, t.count + 1), To(v))
  }

  // ----- Reverse jumps on a path -----

  /** The last jump target after a reader passed the records of c. */
  function SavedAfter(saved: nat, c: seq<Item>): nat {
    if c == [] then saved
    else if Jumps(c[|c| - 1].rec) then Target(c[|c| - 1].rec.data).value
    else SavedAfter(saved, c[..|c| - 1])
  }

  /** The number of reverse jumps among the records of c. */
  function Reverses(saved: nat, c: seq<Item>): nat {
    if c == [] then 0
    else
      var n, r := |c| - 1, c[|c| - 1].rec;
      Reverses(saved, c[..n])
      + if Jumps(r) && Target(r.data).value <= SavedAfter(saved, c[..n]) then 1 else 0
  }

  function After(t: Tally, c: seq<Item>): Tally {
    Tally(SavedAfter(t.saved, c), t.count + Reverses(t.saved, c))
  }

  /** A reader with this tally gets past the records of c. */
  predicate Passes(t: Tally, c: seq<Item>) {
    Reverses(t.saved, c) == 0 || t.count + Reverses(t.saved, c) <= REVERSE_JUMP_LIMIT
  }

  lemma {:induction false} ReversesConcat(saved: nat, a: seq<Item>, b: seq<Item>)
    ensures SavedAfter(saved, a + b) == SavedAfter(SavedAfter(saved, a), b)
    ensures Reverses(saved, a + b) == Reverses(saved, a) + Reverses(SavedAfter(saved, a), b)
  {
    if b == [] {
      assert a + b == a;
    } else {
      ReversesConcat(saved, a, b[..|b| - 1]);
      assert (a + b)[..|a + b| - 1] == a + b[..|b| - 1];
    }
  }

  /** Getting past a stretch takes getting past its parts, one after the other. */
  lemma PassesConcat(t: Tally, a: seq<Item>, b: seq<Item>)
    ensures After(t, a + b) == After(After(t, a), b)
    ensures Passes(t, a + b) ==> Passes(t, a)
    ensures Passes(t, a) ==> (Passes(t, a + b) <==> Passes(After(t, a), b))
  {
    hide SavedAfter, Reverses;
    ReversesConcat(t.saved, a, b);
  }

  lemma PassesNone(t: Tally)
    ensures Passes(t, []) && After(t, []) == t
  {
  }

  /** One record is passed unless rec_goto refuses to follow it. */
  lemma PassesOne(t: Tally, x: Item)
    ensures !Jumps(x.rec) ==> Passes(t, [x]) && After(t, [x]) == t
    ensures x.rec.typ == PTR && Target(x.rec.data).Some? ==>
              var (t', jump) := RecGoto(t, x.rec.data);
              && (jump.Refused? <==> !Passes(t, [x])) && (jump.Stay? <==> !Jumps(x.rec))
              && (jump.To? ==> t' == After(t, [x]) && jump.offset == Succ(x))
              && (jump.Refused? ==> t'.count > REVERSE_JUMP_LIMIT)
              && (jump.Stay? ==> t' == t)
  {
    hide Target;
    assert [x][..0] == [] && Reverses(t.saved, []) == 0 && SavedAfter(t.saved, []) == t.saved;
  }

  /** A refusal on the way is a refusal of the whole stretch. */
  lemma PassesPrefix(t: Tally, c: seq<Item>, k: nat)
    requires k <= |c| && Passes(t, c)
    ensures Passes(t, c[..k])
  {
    hide Passes, After;
    PassesConcat(t, c[..k], c[k..]);
    assert c == c[..k] + c[k..];
  }

  lemma PassesStep(t: Tally, c: seq<Item>, k: nat)
    requires k < |c| && Passes(t, c[..k])
    ensures Passes(t, c[..k + 1]) <==> Passes(After(t, c[..k]), [c[k]])
    ensures After(t, c[..k + 1]) == After(After(t, c[..k]), [c[k]])
  {
    hide Passes, After;
    assert c[..k + 1] == c[..k] + [c[k]];
    PassesConcat(t, c[..k], [c[k]]);
  }

  // ----- A count that does not depend on the reader -----

  /** A jump to an offset that is not behind the record itself. */
  predicate Back(x: Item) { Jumps(x.rec) && Target(x.rec.data).value <= x.off }

  function Backs(c: seq<Item>): nat {
    if c == [] then 0 else Backs(c[..|c| - 1]) + if Back(c[|c| - 1]) then 1 else 0
  }

  lemma {:induction false} BacksConcat(a: seq<Item>, b: seq<Item>)
    ensures Backs(a + b) == Backs(a) + Backs(b)
  {
    if b == [] {
      assert a + b == a;
    } else {
      BacksConcat(a, b[..|b| - 1]);
      assert (a + b)[..|a + b| - 1] == a + b[..|b| - 1];
    }
  }

  /** On a path, reverse jumps are jumps back, except perhaps for the first jump. */
  lemma {:induction false} ReversesBacks(saved: nat, c: seq<Item>)
    requires Linked(c)
    ensures Reverses(saved, c) <= 1 + Backs(c)
    ensures c != [] && saved <= c[0].off ==> Reverses(saved, c) <= Backs(c)
    ensures c != [] && (saved <= c[0].off || Reverses(saved, c) > 0) ==> SavedAfter(saved, c) <= Succ(c[|c| - 1])
  {
    hide Size, Target;
    if c != [] {
      var n := |c| - 1;
      ReversesBacks(saved, c[..n]);
      if n > 0 { assert Succ(c[n - 1]) == c[n].off; }
    }
  }

  /** A reader that jumped further before takes no fewer reverse jumps. */
  lemma {:induction false} ReversesMonotone(x: nat, y: nat, c: seq<Item>)
    requires x <= y
    ensures Reverses(x, c) <= Reverses(y, c) && SavedAfter(x, c) <= SavedAfter(y, c)
    ensures SavedAfter(x, c) == SavedAfter(y, c) || (SavedAfter(x, c) == x && SavedAfter(y, c) == y)
  {
    hide Jumps, Target;
    if c != [] { ReversesMonotone(x, y, c[..|c| - 1]); }
  }

  /** Past a jump, a path continues behind the target of the last one. */
  lemma {:induction false} SavedBehind(saved: nat, c: seq<Item>)
    requires Linked(c) && exists k :: 0 <= k < |c| && Jumps(c[k].rec)
    ensures SavedAfter(saved, c) <= Succ(c[|c| - 1])
  {
    hide Jumps, Target, Size;
    var n := |c| - 1;
    if !Jumps(c[n].rec) {
      var k :| 0 <= k < |c| && Jumps(c[k].rec);
      assert c[..n][k] == c[k];
      SavedBehind(saved, c[..n]);
      assert Succ(c[n - 1]) == c[n].off;
    }
  }

  lemma {:induction false} NoJumpsNoBacks(c: seq<Item>)
    requires forall k :: 0 <= k < |c| ==> !Jumps(c[k].rec)
    ensures Backs(c) == 0
  {
    hide Jumps;
    if c != [] { NoJumpsNoBacks(c[..|c| - 1]); }
  }

  lemma {:induction false} NoJumpsNoReverses(saved: nat, c: seq<Item>)
    requires forall k :: 0 <= k < |c| ==> !Jumps(c[k].rec)
    ensures SavedAfter(saved, c) == saved && Reverses(saved, c) == 0
  {
    hide Jumps;
    if c != [] { NoJumpsNoReverses(saved, c[..|c| - 1]); }
  }

  // ----- Reading a whole file -----

  lemma TargetBound(data: seq<byte>)
    ensures Target(data).Some? ==> Target(data).value <= OFF_T_MAX
  {
    ParseBound(SkipBlanks(data), 0);
  }

  lemma {:induction false} ParseBound(s: seq<byte>, acc: nat)
    requires acc <= OFF_T_MAX
    ensures ParseDigits(s, acc).Some? ==> ParseDigits(s, acc).value <= OFF_T_MAX
    decreases |s|
  {
    if s != [] && ZERO <= s[0] < ZERO + 10 && 10 * acc + (s[0] - ZERO) <= OFF_T_MAX {
      ParseBound(s[1..], 10 * acc + (s[0] - ZERO));
    }
  }

  /** More reverse jumps may follow. */
  function JumpsLeft(t: Tally): nat { if t.count <= REVERSE_JUMP_LIMIT then REVERSE_JUMP_LIMIT + 1 - t.count else 0 }

  /** Room for jumps forward. */
  function RoomLeft(t: Tally): nat { if t.saved <= OFF_T_MAX then OFF_T_MAX + 1 - t.saved else 0 }

  lemma JumpsEnd(t: Tally, data: seq<byte>)
    ensures var (t', jump) := RecGoto(t, data);
            jump.To? ==> JumpsLeft(t') < JumpsLeft(t) || (JumpsLeft(t') == JumpsLeft(t) && RoomLeft(t') < RoomLeft(t))
  {
    TargetBound(data);
    hide Target;
  }

  /** The reader has passed the records c[..k]. */
  ghost predicate Passing(f: seq<byte>, c: seq<Item>, k: nat, pos: nat, rs: seq<Rec>, t0: Tally, t: Tally) {
    && Reads(f, c) && k < |c| && pos == c[k].off && rs == View(c[..k])
    && Passes(t0, c[..k]) && t == After(t0, c[..k])
  }

  lemma PassingStart(f: seq<byte>, c: seq<Item>, t: Tally)
    requires Reads(f, c)
    ensures Passing(f, c, 0, 0, [], t, t)
  {
    hide Path;
    assert c[..0] == [];
  }

  /** One turn of the loop of rec_get. */
  lemma PassingStep(f: seq<byte>, c: seq<Item>, k: nat, pos: nat, rs: seq<Rec>, t0: Tally, t: Tally)
    requires Passing(f, c, k, pos, rs, t0, t)
    ensures var r := c[k].rec;
            && Read(f, pos) == Some(ReadRec(r, Limit(c[k])))
            && (r.typ == PTR ==>
                  var (t', jump) := RecGoto(t, r.data);
                  && (jump.Refused? ==> !Passes(t0, c))
                  && (jump.Stay? ==> Passing(f, c, k + 1, Limit(c[k]), rs, t0, t'))
                  && (jump.To? ==> Passing(f, c, k + 1, jump.offset, rs, t0, t')))
            && (r.typ == DTXT ==> Passing(f, c, k + 1, Limit(c[k]), rs, t0, t))
            && (Visible(r) && r.typ != END ==> Passing(f, c, k + 1, Limit(c[k]), rs + [r], t0, t))
            && (r.typ == END ==> rs + [r] == View(c) && Passes(t0, c))
  {
    hide At, Size, Passes, After, Target, RecGoto;
    var r := c[k].rec;
    ReadAt(f, pos, r);
    PassesStep(t0, c, k);
    PassesOne(t, c[k]);
    assert c[..k + 1][..k] == c[..k];
    assert View(c[..k + 1]) == if Visible(r) then rs + [r] else rs;
    if r.typ == END { assert c[..k + 1] == c; } else { assert Succ(c[k]) == c[k + 1].off; }
    if !Passes(t0, c[..k + 1]) && Passes(t0, c) { PassesPrefix(t0, c, k + 1); }
  }

  /** The record reader with default flags (rec_get), from the start of a file to its END record:
      follows pointers and skips padding.  It ends on every file, loops of pointers included,
      because jumps back are counted; on a file with a path it gives the path's records,
      exactly if that takes at most so many reverse jumps. */
  method ReadAll(f: seq<byte>, t: Tally) returns (r: Option<seq<Rec>>)
    ensures forall c :: Reads(f, c) ==> r == if Passes(t, c) then Some(View(c)) else None
  {
    hide Reads, Passing, Passes, After, RecGoto, View, Target, Read, Size;
    ghost var known := exists c :: Reads(f, c);
    ghost var c: seq<Item>, k: nat := [], 0;
    if known { c :| Reads(f, c); PassingStart(f, c, t); }
    var rs, pos, tally := [], 0, t;
    while true
      invariant known ==> Passing(f, c, k, pos, rs, t, tally)
      decreases JumpsLeft(tally), RoomLeft(tally), |f| - pos
    {
      if known { PassingStep(f, c, k, pos, rs, t, tally); }
      var read := RecGetRaw(f, pos);
      if read.None? { r := None; break; }
      var rec, next := read.value.rec, read.value.next;
      ReadAdvances(f, pos);
      if rec.typ == PTR {
        JumpsEnd(tally, rec.data);
        var (tally', jump) := RecGoto(tally, rec.data);
        StaySame(tally, rec.data);
        if jump.Refused? { r := None; break; }
        tally := tally';
        if jump.To? { next := jump.offset; }
      } else if rec.typ != DTXT {
        rs := rs + [rec];
        if rec.typ == END { r := Some(rs); break; }
      }
      pos, k := next, k + 1;
    }
    forall d | Reads(f, d) ensures r == if Passes(t, d) then Some(View(d)) else None {
      ReadsUnique(f, c, d);
    }
  }

  lemma ReadAdvances(f: seq<byte>, o: nat)
    ensures Read(f, o).Some? ==> o < |f| && Read(f, o).value.next > o
  {
  }

  lemma StaySame(t: Tally, data: seq<byte>)
    ensures RecGoto(t, data).1.Stay? ==> RecGoto(t, data).0 == t
  {
  }
}
