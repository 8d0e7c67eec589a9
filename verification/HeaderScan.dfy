/** One step of the editor's scan loops, in terms of the reader's path. */
module HeaderScan {
  import opened Records
  import opened Chain
  import opened Headers
  import opened Rendering
  import opened Layout
  import opened HeaderEdits
  import opened HeaderOps

  // ----- How far a search goes -----

  /** The longest stretch at the front of c that shows at most n records. */
  function Upto(c: seq<Item>, n: nat): seq<Item> {
    if |View(c)| <= n then c else Upto(c[..|c| - 1], n)
  }

  lemma ViewPrefix(c: seq<Item>, k: nat)
    requires k <= |c|
    ensures |View(c[..k])| <= |View(c)|
    ensures k < |c| && Visible(c[k].rec) ==> |View(c[..k])| < |View(c)|
  {
    hide View;
    assert c == c[..k] + c[k..];
    ViewConcat(c[..k], c[k..]);
    if k < |c| {
      assert c[k..] == [c[k]] + c[k + 1..];
      ViewConcat([c[k]], c[k + 1..]);
      ViewOne(c[k]);
    }
  }

  /** ... ends before a record that is shown as number n. */
  lemma {:induction false} UptoAt(c: seq<Item>, k: nat)
    requires k < |c| && Visible(c[k].rec)
    ensures Upto(c, |View(c[..k])|) == c[..k]
  {
    hide View;
    ViewPrefix(c, k);
    var d := c[..|c| - 1];
    assert d[..if k < |d| then k else |d|] == c[..if k < |d| then k else |d|];
    if k < |d| { UptoAt(d, k); } else { assert c[..k] == d; }
  }

  /** ... and contains every stretch that shows no more. */
  lemma {:induction false} UptoBeyond(c: seq<Item>, k: nat, n: nat)
    requires k <= |c| && |View(c[..k])| <= n
    ensures c[..k] <= Upto(c, n)
  {
    hide View;
    if |View(c)| > n {
      assert c[..|c|] == c;
      var d := c[..|c| - 1];
      assert d[..k] == c[..k];
      UptoBeyond(d, k, n);
    }
  }

  /** The header part as far as its first n records and the pointers and padding before the next. */
  function HeaderStretch(m: Map, n: nat): seq<Item>
    requires Ordered(m)
  {
    Upto(m.c[m.mesg + 1..m.hdr], n)
  }

  /** The records before path index k, and how many header records are to come. */
  ghost predicate Counting(m: Map, k: nat, cont: bool)
    requires Ordered(m)
  {
    && m.mesg < k <= m.hdr
    && HeadersEnd(View(HeaderItems(m)), false)
       == |View(m.c[m.mesg + 1..k])| + HeadersEnd(View(m.c[k..m.hdr]), cont)
  }

  lemma CountStart(m: Map)
    requires Ordered(m)
    ensures Counting(m, m.mesg + 1, false)
  {
    assert m.c[m.mesg + 1..m.mesg + 1] == [];
  }

  lemma CountStep(m: Map, k: nat, cont: bool)
    requires Ordered(m) && k < m.hdr && Counting(m, k, cont)
    ensures !Visible(m.c[k].rec) ==> Counting(m, k + 1, cont)
    ensures IsText(m.c[k].rec) ==>
              var r := m.c[k].rec;
              if !cont && !Folded(r) && LabelLen(r.data) == 0
              then HeadersEnd(View(HeaderItems(m)), false) == |View(m.c[m.mesg + 1..k])|
              else Counting(m, k + 1, r.typ == CONT)
  {
    hide View, ContAfter, Folded, LabelLen;
    StepViews(m, k);
    var t := View(m.c[k..m.hdr]);
    if Visible(m.c[k].rec) {
      assert t[0] == m.c[k].rec && t[1..] == View(m.c[k + 1..m.hdr]);
    } else {
      assert t == View(m.c[k + 1..m.hdr]);
    }
  }

  lemma CountEnd(m: Map, cont: bool)
    requires Ordered(m) && Counting(m, m.hdr, cont)
    ensures HeadersEnd(View(HeaderItems(m)), false) == |View(HeaderItems(m))|
  {
    assert m.c[m.hdr..m.hdr] == [];
    assert View([]) == [];
  }

  /** A search that is still looking at path index k does not stop before it. */
  lemma SearchReaches(m: Map, k: nat, cont: bool, left: nat, index: nat, want: Want, skip: nat, skip': nat)
    requires Ordered(m) && k < m.hdr && !Visible(m.c[k].rec) && Counting(m, k, cont) && index >= 1
    requires Searching(m, k, cont, left, want, skip', FindStart(View(HeaderItems(m)), false, index, want, skip))
    ensures m.c[m.mesg + 1..k + 1] <= HeaderStretch(m, SearchLength(View(HeaderItems(m)), index, want, skip))
  {
    hide View, FindStart, HeadersEnd, ContAfter;
    StepViews(m, k);
    var c := HeaderItems(m);
    assert c[..k - m.mesg] == m.c[m.mesg + 1..k + 1];
    UptoBeyond(c, k - m.mesg, SearchLength(View(c), index, want, skip));
  }

  /** It stops where it finds the header, at the first other text, or at the append pointer. */
  lemma SearchStops(m: Map, k: nat, n: nat)
    requires Ordered(m) && m.mesg < k <= m.hdr && n == |View(m.c[m.mesg + 1..k])|
    requires k < m.hdr ==> Visible(m.c[k].rec)
    ensures HeaderStretch(m, n) == m.c[m.mesg + 1..k]
  {
    hide View;
    var c := HeaderItems(m);
    if k < m.hdr {
      assert c[..k - m.mesg - 1] == m.c[m.mesg + 1..k];
      UptoAt(c, k - m.mesg - 1);
    }
  }

  // ----- The search for the start of a header -----

  /** The search has reached path index k with this much left to find. */
  ghost predicate Searching(m: Map, k: nat, cont: bool, index: nat, want: Want, skip: nat, all: Option<nat>)
    requires Ordered(m)
  {
    && m.mesg < k <= m.hdr && index >= 1 && cont == ContAfter(m.c[m.mesg + 1..k], false)
    && all == Shift(|View(m.c[m.mesg + 1..k])|, FindStart(View(m.c[k..m.hdr]), cont, index, want, skip))
  }

  lemma SearchStart(m: Map, index: nat, want: Want, skip: nat)
    requires Ordered(m) && index >= 1
    ensures Searching(m, m.mesg + 1, false, index, want, skip,
                      FindStart(View(HeaderItems(m)), false, index, want, skip))
  {
    hide FindStart;
    assert m.c[m.mesg + 1..m.mesg + 1] == [];
  }

  lemma StepViews(m: Map, k: nat)
    requires Ordered(m) && m.mesg < k < m.hdr
    ensures ContAfter(m.c[m.mesg + 1..k + 1], false) == NextCont(m.c[k].rec, ContAfter(m.c[m.mesg + 1..k], false))
    ensures |View(m.c[m.mesg + 1..k + 1])| == |View(m.c[m.mesg + 1..k])| + if Visible(m.c[k].rec) then 1 else 0
    ensures View(m.c[k..m.hdr]) == (if Visible(m.c[k].rec) then [m.c[k].rec] else []) + View(m.c[k + 1..m.hdr])
  {
    hide View, ContAfter;
    var a := m.c[m.mesg + 1..k];
    assert m.c[m.mesg + 1..k + 1] == a + [m.c[k]];
    ContAfterConcat(a, [m.c[k]], false);
    ContAfterOne(m.c[k], ContAfter(a, false));
    ViewConcat(a, [m.c[k]]);
    ViewOne(m.c[k]);
    assert m.c[k..m.hdr] == [m.c[k]] + m.c[k + 1..m.hdr];
    ViewConcat([m.c[k]], m.c[k + 1..m.hdr]);
  }

  /** Pointers and padding are passed over. */
  lemma SearchHidden(m: Map, k: nat, cont: bool, index: nat, want: Want, skip: nat, all: Option<nat>)
    requires Ordered(m) && k < m.hdr && Searching(m, k, cont, index, want, skip, all) && !Visible(m.c[k].rec)
    ensures Searching(m, k + 1, cont, index, want, skip, all)
  {
    hide View, ContAfter, FindStart;
    StepViews(m, k);
    assert [] + View(m.c[k + 1..m.hdr]) == View(m.c[k + 1..m.hdr]);
  }

  /** A text record: the search ends here, or goes on with the counters of the scan loop. */
  lemma SearchText(m: Map, k: nat, cont: bool, index: nat, want: Want, skip: nat, all: Option<nat>)
    requires Ordered(m) && k < m.hdr && Searching(m, k, cont, index, want, skip, all) && IsText(m.c[k].rec)
    ensures var r := m.c[k].rec; var n := r.typ == CONT;
            if cont || Folded(r) then Searching(m, k + 1, n, index, want, skip, all)
            else if LabelLen(r.data) == 0 then all == None
            else if skip > 0 then Searching(m, k + 1, n, index, want, skip - 1, all)
            else if !Matches(want, r.data) then Searching(m, k + 1, n, index, want, 0, all)
            else if index == 1 then all == Some(|View(m.c[m.mesg + 1..k])|)
            else Searching(m, k + 1, n, index - 1, want, 0, all)
  {
    hide View, ContAfter, Folded, LabelLen, Matches;
    StepViews(m, k);
    var t := View(m.c[k..m.hdr]);
    assert t[0] == m.c[k].rec && t[1..] == View(m.c[k + 1..m.hdr]);
  }

  lemma SearchEnd(m: Map, cont: bool, index: nat, want: Want, skip: nat, all: Option<nat>)
    requires Ordered(m) && Searching(m, m.hdr, cont, index, want, skip, all)
    ensures all == None
  {
    assert m.c[m.hdr..m.hdr] == [];
    assert View([]) == [];
  }

  /** Where a search stops that finds nothing, and one that finds the header at k. */
  lemma NotFoundEnd(m: Map, cont: bool, index: nat, want: Want, skip: nat)
    requires Ordered(m) && index >= 1 && Counting(m, m.hdr, cont)
    requires FindStart(View(HeaderItems(m)), false, index, want, skip) == None
    ensures HeaderStretch(m, SearchLength(View(HeaderItems(m)), index, want, skip)) == m.c[m.mesg + 1..m.hdr]
  {
    hide View, FindStart, HeadersEnd, HeaderStretch;
    CountEnd(m, cont);
    SearchStops(m, m.hdr, |View(HeaderItems(m))|);
  }

  lemma NotFoundAt(m: Map, k: nat, index: nat, want: Want, skip: nat)
    requires Ordered(m) && index >= 1 && m.mesg < k < m.hdr && IsText(m.c[k].rec)
    requires FindStart(View(HeaderItems(m)), false, index, want, skip) == None
    requires HeadersEnd(View(HeaderItems(m)), false) == |View(m.c[m.mesg + 1..k])|
    ensures HeaderStretch(m, SearchLength(View(HeaderItems(m)), index, want, skip)) == m.c[m.mesg + 1..k]
  {
    hide View, FindStart, HeadersEnd, HeaderStretch;
    SearchStops(m, k, |View(m.c[m.mesg + 1..k])|);
  }

  lemma FoundLength(m: Map, i: nat, index: nat, want: Want, skip: nat)
    requires Ordered(m) && index >= 1 && Found(m, i, index, want, skip)
    ensures i < |m.c| && HeaderStretch(m, SearchLength(View(HeaderItems(m)), index, want, skip)) == m.c[m.mesg + 1..i]
  {
    hide View, FindStart, HeadersEnd, HeaderStretch, ContAfter, Folded, LabelLen;
    SearchStops(m, i, |View(m.c[m.mesg + 1..i])|);
  }

  lemma ExtentMissing(t: seq<Rec>, index: nat, want: Want, skip: nat)
    requires index >= 1 && FindStart(t, false, index, want, skip) == None
    ensures ExtentLength(t, index, want, skip) == SearchLength(t, index, want, skip)
  {
    hide FindStart;
  }

  lemma ExtentBeyond(m: Map, index: nat, want: Want, skip: nat)
    requires Ordered(m) && index >= 1
    ensures HeaderStretch(m, SearchLength(View(HeaderItems(m)), index, want, skip))
         <= HeaderStretch(m, ExtentLength(View(HeaderItems(m)), index, want, skip))
  {
    hide FindStart, View, Upto;
    var t := View(HeaderItems(m));
    FindStartBound(t, false, index, want, skip);
    UptoMore(HeaderItems(m), SearchLength(t, index, want, skip), ExtentLength(t, index, want, skip));
  }

  lemma {:induction false} UptoMore(c: seq<Item>, n: nat, n': nat)
    requires n <= n'
    ensures Upto(c, n) <= Upto(c, n')
  {
    assert |View([])| == 0;
    hide View;
    if c != [] && |View(c)| > n' { UptoMore(c[..|c| - 1], n, n'); } else { UptoPrefix(c, n); }
  }

  lemma {:induction false} UptoPrefix(c: seq<Item>, n: nat)
    ensures Upto(c, n) <= c
  {
    assert |View([])| == 0;
    hide View;
    if c != [] && |View(c)| > n { UptoPrefix(c[..|c| - 1], n); }
  }

  lemma SliceOn(c: seq<Item>, a: nat, k: nat)
    requires a <= k < |c|
    ensures c[a..k + 1] == c[a..k] + [c[k]]
  {
  }

  // ----- The search for its end -----

  /** The search for the end of the header at i has reached path index k. */
  ghost predicate Ending(m: Map, i: nat, k: nat, cont: bool)
    requires Ordered(m)
  {
    && m.mesg < i < m.hdr && AfterHead(m, i) <= k <= m.hdr
    && cont == ContAfter(m.c[m.mesg + 1..k], false)
    && FindEnd(View(m.c[i + 1..m.hdr]), m.c[i].rec.typ == CONT)
       == |View(m.c[i + 1..k])| + FindEnd(View(m.c[k..m.hdr]), cont)
  }

  lemma EndStart(m: Map, i: nat)
    requires Ordered(m) && m.mesg < i < m.hdr && Padded(HeaderItems(m), false)
    requires Starts(m.c[i].rec, ContAfter(m.c[m.mesg + 1..i], false))
    ensures AfterHead(m, i) <= m.hdr && Ending(m, i, AfterHead(m, i), m.c[i].rec.typ == CONT)
  {
    hide View, ContAfter, Folded, LabelLen, FindEnd, Padded;
    var j := AfterHead(m, i);
    StartRoom(m, i, j);
    HeadView(m, i);
    StepViews(m, i);
    if j == i + 2 {
      StepViews(m, i + 1);
      assert m.c[i + 1..j] == [m.c[i + 1]];
      ViewOne(m.c[i + 1]);
    } else {
      assert m.c[i + 1..j] == [];
      ViewHidden([]);
    }
  }

  lemma EndViews(m: Map, i: nat, k: nat)
    requires Ordered(m) && m.mesg < i < k < m.hdr
    ensures |View(m.c[i + 1..k + 1])| == |View(m.c[i + 1..k])| + if Visible(m.c[k].rec) then 1 else 0
  {
    hide View;
    assert m.c[i + 1..k + 1] == m.c[i + 1..k] + [m.c[k]];
    ViewConcat(m.c[i + 1..k], [m.c[k]]);
    ViewOne(m.c[k]);
  }

  lemma EndStep(m: Map, i: nat, k: nat, cont: bool)
    requires Ordered(m) && k < m.hdr && Ending(m, i, k, cont)
    ensures !Visible(m.c[k].rec) ==> Ending(m, i, k + 1, cont)
    ensures IsText(m.c[k].rec) && (cont || Folded(m.c[k].rec)) ==> Ending(m, i, k + 1, m.c[k].rec.typ == CONT)
    ensures IsText(m.c[k].rec) && !cont && !Folded(m.c[k].rec) ==> EndsAt(m, i, k)
  {
    hide View, ContAfter, Folded;
    StepViews(m, k);
    EndViews(m, i, k);
    var t := View(m.c[k..m.hdr]);
    if Visible(m.c[k].rec) {
      assert t[0] == m.c[k].rec && t[1..] == View(m.c[k + 1..m.hdr]);
    } else {
      assert t == View(m.c[k + 1..m.hdr]);
    }
  }

  lemma EndDone(m: Map, i: nat, cont: bool)
    requires Ordered(m) && Ending(m, i, m.hdr, cont)
    ensures EndsAt(m, i, m.hdr)
  {
    hide ContAfter;
    assert m.c[m.hdr..m.hdr] == [];
    assert View([]) == [];
  }

  /** Records shown up to path index k, behind the first record of the header at i. */
  lemma ExtentAt(m: Map, i: nat, k: nat, index: nat, want: Want, skip: nat)
    requires Ordered(m) && index >= 1 && Found(m, i, index, want, skip) && i < k <= m.hdr
    ensures |View(m.c[m.mesg + 1..k])| == |View(m.c[m.mesg + 1..i])| + 1 + |View(m.c[i + 1..k])|
    ensures ExtentLength(View(HeaderItems(m)), index, want, skip)
         == |View(m.c[m.mesg + 1..i])| + 1 + FindEnd(View(m.c[i + 1..m.hdr]), m.c[i].rec.typ == CONT)
  {
    hide View, FindStart, FindEnd, ContAfter, Folded, LabelLen;
    HeaderViews(m, i);
    ViewCut(m.c, m.mesg + 1, i, k);
  }

  lemma EndReaches(m: Map, i: nat, k: nat, cont: bool, index: nat, want: Want, skip: nat)
    requires Ordered(m) && index >= 1 && Found(m, i, index, want, skip)
    requires k < m.hdr && Ending(m, i, k, cont) && !Visible(m.c[k].rec)
    ensures m.c[m.mesg + 1..k + 1] <= HeaderStretch(m, ExtentLength(View(HeaderItems(m)), index, want, skip))
  {
    hide View, FindStart, FindEnd, ContAfter, Found;
    ExtentAt(m, i, k, index, want, skip);
    StepViews(m, k);
    var c := HeaderItems(m);
    assert c[..k - m.mesg] == m.c[m.mesg + 1..k + 1];
    UptoBeyond(c, k - m.mesg, ExtentLength(View(c), index, want, skip));
  }

  lemma EndStops(m: Map, i: nat, j: nat, index: nat, want: Want, skip: nat)
    requires Ordered(m) && index >= 1 && Found(m, i, index, want, skip) && EndsAt(m, i, j)
    requires j < m.hdr ==> Visible(m.c[j].rec)
    ensures HeaderStretch(m, ExtentLength(View(HeaderItems(m)), index, want, skip)) == m.c[m.mesg + 1..j]
  {
    hide View, FindStart, FindEnd, ContAfter, Found, HeaderStretch;
    ExtentAt(m, i, j, index, want, skip);
    SearchStops(m, j, ExtentLength(View(HeaderItems(m)), index, want, skip));
  }
}
