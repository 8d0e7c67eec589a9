/** Any run of requests: the file reads as the same edits on a plain message would give, unless a
    request is refused for its reverse jumps. */
module Edits {
  import opened Records
  import opened Chain
  import opened Headers
  import opened Rendering
  import opened Following
  import opened Layout
  import opened JumpLoad
  import opened HeaderEdits
  import opened HeaderOps
  import opened HeaderScan
  import opened EnvelopeEdits
  import opened Recipients
  import opened QueueFiles

  /** Requests of a mail filter, after addresses and DSN parameters were interpreted. */
  datatype Edit =
    | AppendHeader(name: seq<byte>, space: seq<byte>, value: seq<byte>)
    | InsertHeader(index: int, name: seq<byte>, space: seq<byte>, value: seq<byte>)
    | UpdateHeader(nth: nat, name: seq<byte>, space: seq<byte>, value: seq<byte>)
    | DeleteHeader(nth: nat, name: seq<byte>)
    | ChangeFrom(attrs: seq<Rec>, addr: seq<byte>)
    | AddRecipients(recs: seq<Rec>)
    | DeleteRecipients(addr: seq<byte>)
    | ReplaceBody(lines: seq<seq<byte>>)

  /** What the callers of the editor see to. */
  ghost predicate Proper(e: Edit, lim: Limits) {
    match e
    case UpdateHeader(nth, _, _, _) => nth >= 1
    case DeleteHeader(nth, _) => nth >= 1
    case ChangeFrom(attrs, addr) => AllEnv(attrs) && |addr| < MAX_PAYLOAD
    case AddRecipients(recs) => AllEnv(recs)
    case ReplaceBody(lines) => forall i :: 0 <= i < |lines| ==> |lines[i]| <= lim.line
    case _ => true
  }

  function HeaderText(name: seq<byte>, space: seq<byte>, value: seq<byte>, lim: Limits): seq<Rec>
    requires lim.line >= 1
  {
    Shown(Render(HeaderLine(name, space, value), lim))
  }

  /** The edit on the plain message. */
  function Apply(g: Message, e: Edit, lim: Limits): Message
    requires lim.line >= 1
  {
    match e
    case AppendHeader(name, space, value) => g.(hdrs := AddText(g.hdrs, HeaderText(name, space, value, lim)))
    case InsertHeader(index, name, space, value) =>
      g.(hdrs := InsText(g.hdrs, index, HeaderText(name, space, value, lim)))
    case UpdateHeader(nth, name, space, value) =>
      g.(hdrs := if nth >= 1 then UpdText(g.hdrs, nth, name, HeaderText(name, space, value, lim)) else g.hdrs)
    case DeleteHeader(nth, name) => g.(hdrs := if nth >= 1 then DelText(g.hdrs, nth, name) else g.hdrs)
    case ChangeFrom(attrs, addr) => ChgFrom(g, attrs, addr)
    case AddRecipients(recs) => AddRcpt(g, recs)
    case DeleteRecipients(addr) => DelRcpt(g, addr)
    case ReplaceBody(lines) => g.(body := NewBody(lines))
  }

  function ApplyAll(g: Message, es: seq<Edit>, lim: Limits): Message
    requires lim.line >= 1
  {
    if es == [] then g else Apply(ApplyAll(g, es[..|es| - 1], lim), es[|es| - 1], lim)
  }

  /** Bytes that must fit below the largest offset a pointer record can hold. */
  function Need(e: Edit): nat { if e.ReplaceBody? then SizeAll(NewBody(e.lines)) else 0 }

  predicate Fits(size: nat, e: Edit) { size + Need(e) < PTR_LIMIT }

  lemma NoRecipients(g: Message)
    requires g.rcptAt <= if g.rcptInEnv then |g.env| else |g.ext|
    ensures AddRcpt(g, []) == g
  {
    var s := if g.rcptInEnv then g.env else g.ext;
    assert s[..g.rcptAt] + [] + s[g.rcptAt..] == s;
  }

  lemma RcptInside(q: Queue, m: Map)
    requires Inv(q, m)
    ensures Abs(m).rcptAt <= if Abs(m).rcptInEnv then |Abs(m).env| else |Abs(m).ext|
  {
    hide Path, HeaderPart, BodyPart, Markers;
    RcptAbs(q, m, []);
  }

  // ----- One request -----

  /** What a request passes on its way through the file. */
  function ScanPath(m: Map, e: Edit): seq<Item>
    requires Ordered(m)
  {
    var hdrs := View(m.c[m.mesg + 1..m.hdr]);
    match e
    case InsertHeader(index, _, _, _) => HeaderStretch(m, SearchLength(hdrs, if index < 1 then 1 else index, Any, 0))
    case UpdateHeader(nth, name, _, _) =>
      if nth >= 1 then HeaderStretch(m, ExtentLength(hdrs, nth, Named(name), 1)) else []
    case DeleteHeader(nth, name) =>
      if nth >= 1 then HeaderStretch(m, ExtentLength(hdrs, nth, Named(name), 1)) else []
    case DeleteRecipients(_) => EnvelopePath(m)
    case _ => []
  }

  /** What is left of g when the request e was refused. */
  ghost predicate Interrupted(g: Message, g': Message, e: Edit) {
    if e.DeleteRecipients? then PartlyDeleted(g, g', e.addr) else g' == g
  }

  function NewLength(was: int, content: int, e: Edit): int {
    if e.ReplaceBody? then content + SizeAll(NewBody(e.lines)) else was
  }

  /** One request.  It is refused exactly if the way through the file takes too many reverse jumps,
      together with those of earlier requests; then a header request has changed nothing. */
  method Perform(qf: QueueFile, e: Edit) returns (ok: bool)
    requires qf.Valid() && Proper(e, qf.lim) && Fits(|qf.file|, e)
    modifies qf
    ensures qf.Valid() && qf.lim.line >= 1 && Ordered(old(qf.route))
    ensures qf.Scanned(old(qf.tally), ScanPath(old(qf.route), e), ok)
    ensures ok ==> qf.Contents() == Apply(old(qf.Contents()), e, qf.lim)
    ensures ok ==> qf.contLength == NewLength(old(qf.contLength), qf.bodyOffset - qf.dataOffset, e)
    ensures !ok ==> Interrupted(old(qf.Contents()), qf.Contents(), e) && qf.contLength == old(qf.contLength)
    ensures qf.Weight() <= old(qf.Weight()) + 1
    ensures qf.bodyOffset == old(qf.bodyOffset) && qf.dataOffset == old(qf.dataOffset)
  {
    hide Inv, Abs, AddText, InsText, UpdText, DelText, ChgFrom, AddRcpt, DelRcpt, NewBody, SizeAll, Render, Shown,
         AllEnv, AnotherTurn, SenderRecs, HeaderStretch, SearchLength, ExtentLength, EnvelopePath, Load, PartlyDeleted, View, Passes, After;
    AnchorFacts(qf.State(), qf.route);
    ContentsView(qf.State(), qf.route);
    PassesNone(qf.tally);
    ok := true;
    match e
    case AppendHeader(name, space, value) => qf.AddHeader(name, space, value);
    case InsertHeader(index, name, space, value) => ok := qf.InsHeader(index, name, space, value);
    case UpdateHeader(nth, name, space, value) => ok := qf.UpdHeader(nth, name, space, value);
    case DeleteHeader(nth, name) => ok := qf.DelHeader(nth, name);
    case ChangeFrom(attrs, addr) => qf.ChangeSender(attrs, addr);
    case AddRecipients(recs) =>
      RcptInside(qf.State(), qf.route);
      NoRecipients(qf.Contents());
      qf.AddRecipient(recs);
    case DeleteRecipients(addr) => ok := qf.DeleteRecipient(addr);
    case ReplaceBody(lines) => qf.ReplaceBody(lines);
  }

  lemma ContentsView(q: Queue, m: Map)
    requires Inv(q, m)
    ensures Ordered(m) && Abs(m).hdrs == View(m.c[m.mesg + 1..m.hdr])
  {
    hide Path, HeaderPart, BodyPart, Markers, Anchored;
  }

  // ----- Reading -----

  /** The records are those of the message, with each marker once, in this order. */
  ghost predicate ReadsAs(records: seq<Rec>, g: Message) {
    && (exists mesg: Rec, xtra: Rec, end: Rec ::
          records == Whole(g, mesg, xtra, end) && mesg.typ == MESG && xtra.typ == XTRA && end.typ == END)
    && (forall r :: r in g.env || r in g.hdrs || r in g.body || r in g.ext ==> r.typ != MESG && r.typ != XTRA && r.typ != END)
  }

  /** A reader that just opened the file. */
  const FRESH := Tally(0, 0)

  /** Reading the file from its start ends.  It gives the contents, exactly if the reverse jumps on
      the way are not too many. */
  method ListRecords(qf: QueueFile) returns (records: Option<seq<Rec>>)
    requires qf.Valid()
    ensures records.Some? <==> Reverses(0, qf.route.c) <= REVERSE_JUMP_LIMIT
    ensures records.Some? ==> ReadsAs(records.value, qf.Contents())
    ensures qf.Weight() < REVERSE_JUMP_LIMIT ==> records.Some?
  {
    hide Inv, Abs, Whole, Load, Reverses;
    AnchorFacts(qf.State(), qf.route);
    InvReads(qf.State(), qf.route);
    WholeView(qf.State(), qf.route);
    ReaderCost(qf.State(), qf.route);
    records := ReadAll(qf.file, FRESH);
    ghost var m := qf.route;
    if records.Some? {
      assert records.value == Whole(qf.Contents(), m.c[m.mesg].rec, m.c[m.xtra].rec, m.c[|m.c| - 1].rec);
    }
  }

  // ----- How many requests are possible -----

  /** Enough for n requests, whatever they are: each takes at most one reverse jump more than the
      load of the file, and adds at most one to that load. */
  predicate Affordable(t: Tally, load: nat, n: nat) {
    2 * t.count + n * (2 * load + 1 + n) <= 2 * REVERSE_JUMP_LIMIT
  }

  lemma HeaderStretchPrefix(m: Map, n: nat)
    requires Ordered(m)
    ensures HeaderStretch(m, n) <= HeaderPath(m)
  {
    UptoPrefix(HeaderPath(m), n);
  }

  lemma ScanCost(q: Queue, m: Map, e: Edit, saved: nat)
    requires Inv(q, m)
    ensures Ordered(m) && Reverses(saved, ScanPath(m, e)) <= Load(q, m) + 1
  {
    hide Inv, Reverses, HeaderStretch, SearchLength, ExtentLength, EnvelopePath, HeaderPath, Load, View;
    AnchorFacts(q, m);
    var c := ScanPath(m, e);
    if e.DeleteRecipients? {
      RcptScanCost(q, m, saved, c);
    } else {
      if e.InsertHeader? {
        HeaderStretchPrefix(m, SearchLength(View(m.c[m.mesg + 1..m.hdr]), if e.index < 1 then 1 else e.index, Any, 0));
      } else if (e.UpdateHeader? || e.DeleteHeader?) && e.nth >= 1 {
        HeaderStretchPrefix(m, ExtentLength(View(m.c[m.mesg + 1..m.hdr]), e.nth, Named(e.name), 1));
      }
      HeaderScanCost(q, m, saved, c);
    }
  }

  lemma AffordableStep(t: Tally, load: nat, n: nat, c: seq<Item>, load': nat)
    requires n >= 1 && Affordable(t, load, n) && Reverses(t.saved, c) <= load + 1 && load' <= load + 1
    ensures Passes(t, c) && Affordable(After(t, c), load', n - 1)
  {
    hide Reverses, SavedAfter;
    var r := Reverses(t.saved, c);
    CostOf(load, load', n - 1);
  }

  lemma CostOf(load: nat, load': nat, n: nat)
    requires load' <= load + 1
    ensures (n + 1) * (2 * load + 1 + (n + 1)) >= n * (2 * load' + 1 + n) + 2 * load + 2
  {
    var x, y := 2 * load + 2 + n, 2 * load' + 1 + n;
    assert (n + 1) * x == n * x + x;
    assert n * x == n * (x - 1) + n;
    Products(n, y, x + 1);
    assert n * (x + 1) == n * x + n;
  }

  lemma Products(n: nat, a: nat, b: nat)
    requires a <= b
    ensures n * a <= n * b
  {
  }

  /** Any run of requests, in any order, as far as file offsets fit in pointer records and no
      request is refused: what a reader gets is what the plain edits give.  A caller can check
      beforehand that none will be refused, and that the file can be read. */
  method Run(qf: QueueFile, es: seq<Edit>) returns (n: nat, refused: bool, records: Option<seq<Rec>>)
    requires qf.Valid() && forall i :: 0 <= i < |es| ==> Proper(es[i], qf.lim)
    modifies qf
    ensures qf.Valid() && qf.lim.line >= 1 && n <= |es|
    ensures !refused ==> qf.Contents() == ApplyAll(old(qf.Contents()), es[..n], qf.lim)
    ensures !refused && n < |es| ==> !Fits(|qf.file|, es[n])
    ensures refused ==> n < |es| && Interrupted(ApplyAll(old(qf.Contents()), es[..n], qf.lim), qf.Contents(), es[n])
    ensures Affordable(old(qf.tally), old(qf.Weight()), |es|) ==> !refused
    ensures records.Some? <==> Reverses(0, qf.route.c) <= REVERSE_JUMP_LIMIT
    ensures records.Some? ==> ReadsAs(records.value, qf.Contents())
    ensures old(qf.Weight()) + |es| < REVERSE_JUMP_LIMIT ==> records.Some?
  {
    hide Inv, Abs, Apply, Proper, Fits, ReadsAs, Load, Passes, After, ScanPath, Interrupted, Affordable, Reverses;
    AnchorFacts(qf.State(), qf.route);
    n, refused := 0, false;
    while n < |es| && Fits(|qf.file|, es[n])
      invariant n <= |es| && qf.Valid() && !refused
      invariant qf.Contents() == ApplyAll(old(qf.Contents()), es[..n], qf.lim)
      invariant qf.Weight() <= old(qf.Weight()) + n
      invariant Affordable(old(qf.tally), old(qf.Weight()), |es|) ==> Affordable(qf.tally, qf.Weight(), |es| - n)
      decreases |es| - n
    {
      ghost var t, load, m := qf.tally, qf.Weight(), qf.route;
      ScanCost(qf.State(), m, es[n], t.saved);
      var ok := Perform(qf, es[n]);
      if Affordable(t, load, |es| - n) { AffordableStep(t, load, |es| - n, ScanPath(m, es[n]), qf.Weight()); }
      if !ok {
        refused := true;
        break;
      }
      assert es[..n + 1][..n] == es[..n];
      n := n + 1;
    }
    records := ListRecords(qf);
  }

  // ----- A run that is refused -----

  /** Once recipients were added, every deletion takes a reverse jump, and the count goes on from
      request to request: after n deletions, at most 10000, one is refused, whatever its address. */
  method DeleteTooOften(qf: QueueFile, recs: seq<Rec>, addr: seq<byte>) returns (n: nat, refused: bool)
    requires qf.Valid() && |qf.file| < PTR_LIMIT && AllEnv(recs) && recs != []
    modifies qf
    ensures qf.Valid() && refused && n <= REVERSE_JUMP_LIMIT && qf.tally.count > REVERSE_JUMP_LIMIT
  {
    hide Inv, Abs, AddRcpt, AllEnv, Load, PartlyDeleted, DelRcpt, Reverses, SavedAfter, EnvelopePath, SamePointers, Unseen;
    qf.AddRecipient(recs);
    InvOrdered(qf.State(), qf.route);
    n, refused := 0, false;
    while !refused
      invariant qf.Valid() && n <= REVERSE_JUMP_LIMIT && n <= qf.tally.count
      invariant Ordered(qf.route) && forall saved :: Reverses(saved, EnvelopePath(qf.route)) >= 1
      invariant refused ==> qf.tally.count > REVERSE_JUMP_LIMIT
      decreases REVERSE_JUMP_LIMIT - n, !refused
    {
      ghost var m, t := qf.route, qf.tally;
      var ok := qf.DeleteRecipient(addr);
      InvOrdered(qf.State(), qf.route);
      forall saved ensures Reverses(saved, EnvelopePath(qf.route)) >= 1 {
        SameReverses(saved, EnvelopePath(m), EnvelopePath(qf.route));
      }
      if ok { n := n + 1; } else { refused := true; }
    }
  }

  // ----- A run after which the file cannot be read -----

  ghost predicate AllSenders(es: seq<Edit>, lim: Limits) {
    forall i :: 0 <= i < |es| ==> es[i].ChangeFrom? && Proper(es[i], lim)
  }

  /** Bytes that changes of the sender add to the file. */
  function Growth(es: seq<Edit>): nat
    requires forall i :: 0 <= i < |es| ==> es[i].ChangeFrom?
  {
    if es == [] then 0
    else Growth(es[..|es| - 1]) + SizeAll(SenderRecs(es[|es| - 1].attrs, es[|es| - 1].addr)) + PTR_SIZE
  }

  lemma {:induction false} GrowthPrefix(es: seq<Edit>, n: nat)
    requires n <= |es| && forall i :: 0 <= i < |es| ==> es[i].ChangeFrom?
    ensures Growth(es[..n]) <= Growth(es)
  {
    hide SizeAll, SenderRecs;
    if n < |es| {
      GrowthPrefix(es[..|es| - 1], n);
      assert es[..|es| - 1][..n] == es[..n];
    } else {
      assert es[..n] == es;
    }
  }

  lemma EnvelopeCost(m: Map, n: nat)
    requires Ordered(m) && Turning(m, n)
    ensures Reverses(0, m.c) >= n
  {
    hide Reverses;
    ReversesPrefix(0, m.c[..m.mesg], m.c);
  }

  /** No change of the sender is refused, and each leaves one more reverse jump to the reader: its
      way back leads to that of the change before it.  After 10001 of them the file holds the plainly
      edited message and cannot be read. */
  method ChangeTooOften(qf: QueueFile, es: seq<Edit>) returns (records: Option<seq<Rec>>)
    requires qf.Valid() && AllSenders(es, qf.lim) && |qf.file| + Growth(es) < PTR_LIMIT
    modifies qf
    ensures qf.Valid() && qf.lim.line >= 1 && qf.Contents() == ApplyAll(old(qf.Contents()), es, qf.lim)
    ensures qf.tally == old(qf.tally) && Reverses(0, qf.route.c) >= |es|
    ensures |es| > REVERSE_JUMP_LIMIT ==> records.None?
  {
    hide Inv, Abs, ChgFrom, AllEnv, Load, Reverses, Unseen, SizeAll, SenderRecs, Turning;
    AnchorFacts(qf.State(), qf.route);
    InvOrdered(qf.State(), qf.route);
    TurningZero(qf.route);
    var n := 0;
    while n < |es|
      invariant n <= |es| && qf.Valid() && qf.tally == old(qf.tally) && Ordered(qf.route) && Turning(qf.route, n)
      invariant qf.Contents() == ApplyAll(old(qf.Contents()), es[..n], qf.lim)
      invariant |qf.file| == old(|qf.file|) + Growth(es[..n])
    {
      GrowthPrefix(es, n);
      assert es[..n + 1][..n] == es[..n];
      qf.ChangeSender(es[n].attrs, es[n].addr);
      n := n + 1;
    }
    assert es[..n] == es;
    EnvelopeCost(qf.route, n);
    records := ListRecords(qf);
  }

  lemma TurningZero(m: Map)
    requires Ordered(m)
    ensures Turning(m, 0)
  {
  }
}
