/** What any run of requests makes of a message: the list of its headers, its body, its sender and
    its recipients. */
module EditLaws {
  import opened Records
  import opened Chain
  import opened Headers
  import opened Rendering
  import opened Following
  import opened Layout
  import opened JumpLoad
  import opened HeaderEdits
  import opened HeaderOps
  import opened HeaderScan
  import opened EnvelopeEdits
  import opened Recipients
  import opened Starting
  import opened QueueFiles
  import opened Edits

  // ----- The list of headers over a run -----

  /** The edit on a plain list of headers. */
  function ApplyList(hs: seq<Header>, e: Edit, lim: Limits): seq<Header>
    requires lim.line >= 1 && AllHeaders(hs)
  {
    match e
    case AppendHeader(name, space, value) => hs + [HeaderText(name, space, value, lim)]
    case InsertHeader(index, name, space, value) => InsList(hs, index, HeaderText(name, space, value, lim))
    case UpdateHeader(nth, name, space, value) =>
      if nth >= 1 then UpdList(hs, nth, name, HeaderText(name, space, value, lim)) else hs
    case DeleteHeader(nth, name) => if nth >= 1 then DelList(hs, nth, name) else hs
    case _ => hs
  }

  /** A label that is not cut off by the size limits. */
  predicate ProperName(name: seq<byte>, lim: Limits) { IsLabel(name) && |name| < lim.line && |name| < lim.header }

  predicate Labelled(e: Edit, lim: Limits) {
    (e.AppendHeader? || e.InsertHeader? || e.UpdateHeader?) ==> ProperName(e.name, lim)
  }

  lemma NewHeader(name: seq<byte>, space: seq<byte>, value: seq<byte>, lim: Limits)
    requires Sane(lim) && ProperName(name, lim)
    ensures IsHeader(HeaderText(name, space, value, lim))
  {
    hide Render, IsHeader, Shown;
    assert HeaderLine(name, space, value) == name + [COLON] + (space + value);
    TextHeader(name, space + value, lim);
  }

  lemma TextHeader(name: seq<byte>, rest: seq<byte>, lim: Limits)
    requires Sane(lim) && ProperName(name, lim)
    ensures IsHeader(Shown(Render(name + [COLON] + rest, lim)))
  {
    hide Render, Folded, FindEnd, Shown, LabelLen;
    RenderShape(name + [COLON] + rest, lim);
    RenderLabel(name, rest, lim);
  }

  lemma OneMore(hs: seq<Header>, p: nat, q: nat, h: Header)
    requires AllHeaders(hs) && IsHeader(h) && p <= q <= |hs|
    ensures AllHeaders(hs[..p] + [h] + hs[q..])
  {
    hide IsHeader;
    var r := hs[..p] + [h] + hs[q..];
    forall k | 0 <= k < |r| ensures IsHeader(r[k]) {
      if k > p { assert r[k] == hs[q + (k - p - 1)]; }
    }
  }

  lemma UpdatedHeaders(hs: seq<Header>, nth: nat, name: seq<byte>, h: Header)
    requires AllHeaders(hs) && IsHeader(h) && nth >= 1
    ensures AllHeaders(UpdList(hs, nth, name, h))
  {
    hide IsHeader, Pick;
    var p := Pick(hs, nth, Named(name), 1);
    if p.Some? {
      OneMore(hs, p.value, p.value + 1, h);
      assert hs[p.value := h] == hs[..p.value] + [h] + hs[p.value + 1..];
    }
  }

  lemma DeletedHeaders(hs: seq<Header>, nth: nat, name: seq<byte>)
    requires AllHeaders(hs) && nth >= 1
    ensures AllHeaders(DelList(hs, nth, name))
  {
    hide IsHeader, Pick;
  }

  lemma ListStep(hs: seq<Header>, e: Edit, lim: Limits)
    requires Sane(lim) && AllHeaders(hs) && Labelled(e, lim)
    ensures AllHeaders(ApplyList(hs, e, lim))
  {
    hide AllHeaders, IsHeader, UpdList, DelList, HeaderText;
    if e.AppendHeader? || e.InsertHeader? || e.UpdateHeader? {
      NewHeader(e.name, e.space, e.value, lim);
      var h, n := HeaderText(e.name, e.space, e.value, lim), |hs|;
      OneMore(hs, n, n, h);
      assert hs[..n] == hs && hs[n..] == [] && hs + [h] + [] == hs + [h];
      if e.InsertHeader? {
        var m := if e.index < 1 then 0 else e.index - 1;
        if m < n { OneMore(hs, m, m, h); }
      } else if e.UpdateHeader? && e.nth >= 1 {
        UpdatedHeaders(hs, e.nth, e.name, h);
      }
    } else if e.DeleteHeader? && e.nth >= 1 {
      DeletedHeaders(hs, e.nth, e.name);
    }
  }

  /** On a message whose header part is a list of headers, a header request edits that list. */
  lemma ListMatches(g: Message, hs: seq<Header>, e: Edit, lim: Limits)
    requires Sane(lim) && AllHeaders(hs) && g.hdrs == Flatten(hs) && Labelled(e, lim)
    ensures Apply(g, e, lim).hdrs == Flatten(ApplyList(hs, e, lim))
  {
    hide IsHeader, Flatten, InsText, UpdText, DelText, InsList, UpdList, DelList, HeaderText, NewBody, ChgFrom, AddRcpt, DelRcpt;
    match e
    case AppendHeader(name, space, value) => AddMatchesList(hs, HeaderText(name, space, value, lim));
    case InsertHeader(index, name, space, value) => InsMatchesList(hs, index, HeaderText(name, space, value, lim));
    case UpdateHeader(nth, name, space, value) =>
      if nth >= 1 { UpdMatchesList(hs, nth, name, HeaderText(name, space, value, lim)); }
    case DeleteHeader(nth, name) => if nth >= 1 { DelMatchesList(hs, nth, name); }
    case ChangeFrom(attrs, addr) => ChgFromKeeps(g, attrs, addr);
    case AddRecipients(recs) => AddRcptKeeps(g, recs);
    case DeleteRecipients(addr) => DelRcptKeeps(g, addr);
    case ReplaceBody(lines) =>
  }

  lemma ChgFromKeeps(g: Message, attrs: seq<Rec>, addr: seq<byte>)
    ensures var g' := ChgFrom(g, attrs, addr); g'.hdrs == g.hdrs && g'.body == g.body && g'.ext == g.ext
  {
  }

  lemma AddRcptKeeps(g: Message, recs: seq<Rec>)
    ensures var g' := AddRcpt(g, recs); g'.hdrs == g.hdrs && g'.body == g.body
  {
  }

  lemma DelRcptKeeps(g: Message, addr: seq<byte>)
    ensures var g' := DelRcpt(g, addr); g'.hdrs == g.hdrs && g'.body == g.body
  {
  }

  ghost function ListAll(hs: seq<Header>, es: seq<Edit>, lim: Limits): (r: seq<Header>)
    requires Sane(lim) && AllHeaders(hs) && forall i :: 0 <= i < |es| ==> Labelled(es[i], lim)
    ensures AllHeaders(r)
  {
    if es == [] then hs
    else
      var r := ListAll(hs, es[..|es| - 1], lim);
      ListStep(r, es[|es| - 1], lim);
      ApplyList(r, es[|es| - 1], lim)
  }

  /** For every run of edits, the headers that a reader gets are those of the plain list. */
  lemma {:induction false} HeadersOfRun(g: Message, hs: seq<Header>, es: seq<Edit>, lim: Limits)
    requires Sane(lim) && AllHeaders(hs) && g.hdrs == Flatten(hs)
    requires forall i :: 0 <= i < |es| ==> Labelled(es[i], lim)
    ensures ApplyAll(g, es, lim).hdrs == Flatten(ListAll(hs, es, lim))
    ensures Group(ApplyAll(g, es, lim).hdrs) == ListAll(hs, es, lim)
  {
    hide IsHeader, Flatten, Apply, ApplyList, Labelled, Group;
    if es != [] {
      var n := |es| - 1;
      HeadersOfRun(g, hs, es[..n], lim);
      ListMatches(ApplyAll(g, es[..n], lim), ListAll(hs, es[..n], lim), es[n], lim);
    }
    GroupFlatten(ListAll(hs, es, lim));
  }

  // ----- The body over a run -----

  function LastBody(es: seq<Edit>, body: seq<Rec>): seq<Rec> {
    if es == [] then body
    else if es[|es| - 1].ReplaceBody? then NewBody(es[|es| - 1].lines)
    else LastBody(es[..|es| - 1], body)
  }

  lemma BodyStep(g: Message, e: Edit, lim: Limits)
    requires lim.line >= 1
    ensures Apply(g, e, lim).body == if e.ReplaceBody? then NewBody(e.lines) else g.body
  {
    hide InsText, UpdText, DelText, AddText, NewBody, HeaderText, ChgFrom, AddRcpt, DelRcpt;
    match e
    case ChangeFrom(attrs, addr) => ChgFromKeeps(g, attrs, addr);
    case AddRecipients(recs) => AddRcptKeeps(g, recs);
    case DeleteRecipients(addr) => DelRcptKeeps(g, addr);
    case _ =>
  }

  /** The body is that of the last replacement, whatever else was edited. */
  lemma {:induction false} BodyOfRun(g: Message, es: seq<Edit>, lim: Limits)
    requires lim.line >= 1
    ensures ApplyAll(g, es, lim).body == LastBody(es, g.body)
  {
    hide Apply, NewBody;
    if es != [] {
      var n := |es| - 1;
      BodyOfRun(g, es[..n], lim);
      BodyStep(ApplyAll(g, es[..n], lim), es[n], lim);
    }
  }

  // ----- The sender over a run -----

  /** Exactly one sender record, at the place that the editor remembers. */
  ghost predicate OneSender(g: Message) {
    && g.senderAt < |g.env|
    && (forall k :: 0 <= k < |g.env| ==> (g.env[k].typ == FROM <==> k == g.senderAt))
    && (forall k :: 0 <= k < |g.ext| ==> g.ext[k].typ != FROM)
    && (if g.rcptInEnv then g.senderAt < g.rcptAt <= |g.env| else g.rcptAt <= |g.ext|)
  }

  function LastSender(es: seq<Edit>, addr: seq<byte>): seq<byte> {
    if es == [] then addr
    else if es[|es| - 1].ChangeFrom? then es[|es| - 1].addr
    else LastSender(es[..|es| - 1], addr)
  }

  lemma InsertedAt(s: seq<Rec>, at: nat, recs: seq<Rec>, k: nat)
    requires at <= |s| && k < |s| + |recs|
    ensures |InsertAt(s, at, recs)| == |s| + |recs|
    ensures InsertAt(s, at, recs)[k] == if k < at then s[k] else if k < at + |recs| then recs[k - at] else s[k - |recs|]
  {
  }

  lemma SenderStep(g: Message, e: Edit, lim: Limits)
    requires lim.line >= 1 && OneSender(g) && Proper(e, lim)
    ensures OneSender(Apply(g, e, lim))
    ensures Apply(g, e, lim).env[Apply(g, e, lim).senderAt].data
         == if e.ChangeFrom? then e.addr else g.env[g.senderAt].data
  {
    hide InsText, UpdText, DelText, AddText, NewBody, InsertAt, Cancel, HeaderText;
    match e
    case ChangeFrom(attrs, addr) =>
      assert forall k :: 0 <= k < |attrs| ==> EnvRec(attrs[k]);
    case AddRecipients(recs) =>
      assert forall k :: 0 <= k < |recs| ==> EnvRec(recs[k]);
      SenderAdd(g, recs);
    case DeleteRecipients(addr) => SenderCancel(g, addr);
    case _ =>
  }

  lemma SenderAdd(g: Message, recs: seq<Rec>)
    requires OneSender(g) && forall k :: 0 <= k < |recs| ==> recs[k].typ != FROM
    ensures OneSender(AddRcpt(g, recs)) && AddRcpt(g, recs).env[g.senderAt] == g.env[g.senderAt]
  {
    hide InsertAt;
    var g', s := AddRcpt(g, recs), if g.rcptInEnv then g.env else g.ext;
    InsertedSize(s, g.rcptAt, recs);
    forall k | 0 <= k < |s| + |recs| ensures InsertAt(s, g.rcptAt, recs)[k].typ == FROM <==> g.rcptInEnv && k == g.senderAt {
      InsertedAt(s, g.rcptAt, recs, k);
    }
    if g.rcptInEnv { InsertedAt(s, g.rcptAt, recs, g.senderAt); }
  }

  lemma InsertedSize(s: seq<Rec>, at: nat, recs: seq<Rec>)
    ensures |InsertAt(s, at, recs)| == |s| + |recs|
  {
  }

  lemma {:induction false} CancelAt(rs: seq<Rec>, orig: Option<seq<byte>>, addr: seq<byte>, k: nat)
    requires k < |rs|
    ensures |Cancel(rs, orig, addr)| == |rs|
    ensures var r := Cancel(rs, orig, addr)[k]; r == rs[k] || (rs[k].typ == RCPT && r == Rec(DRCP, rs[k].data))
    decreases |rs|
  {
    CancelLength(rs, orig, addr);
    if k > 0 { CancelAt(rs[1..], OrigNext(rs[0], orig), addr, k - 1); }
  }

  lemma SenderCancel(g: Message, addr: seq<byte>)
    requires OneSender(g)
    ensures OneSender(DelRcpt(g, addr)) && DelRcpt(g, addr).env[g.senderAt] == g.env[g.senderAt]
  {
    hide Cancel;
    var g', o := DelRcpt(g, addr), OrigAfter(g.env, None);
    CancelLength(g.env, None, addr);
    CancelLength(g.ext, o, addr);
    forall k | 0 <= k < |g.env| ensures g'.env[k].typ == FROM <==> k == g.senderAt { CancelAt(g.env, None, addr, k); }
    forall k | 0 <= k < |g.ext| ensures g'.ext[k].typ != FROM { CancelAt(g.ext, o, addr, k); }
    CancelAt(g.env, None, addr, g.senderAt);
  }

  /** After any run there is exactly one sender record, with the latest sender. */
  lemma {:induction false} SenderOfRun(g: Message, es: seq<Edit>, lim: Limits)
    requires lim.line >= 1 && OneSender(g) && forall i :: 0 <= i < |es| ==> Proper(es[i], lim)
    ensures var g' := ApplyAll(g, es, lim);
            OneSender(g') && g'.env[g'.senderAt].data == LastSender(es, g.env[g.senderAt].data)
  {
    hide Apply, Proper;
    if es != [] {
      var n := |es| - 1;
      SenderOfRun(g, es[..n], lim);
      SenderStep(ApplyAll(g, es[..n], lim), es[n], lim);
    }
  }

  // ----- What single requests change -----

  /** A new sender comes with its attributes, in the place of the old one (type 83). */
  lemma ChangedSender(g: Message, attrs: seq<Rec>, addr: seq<byte>, lim: Limits)
    requires lim.line >= 1 && OneSender(g)
    ensures Apply(g, ChangeFrom(attrs, addr), lim)
         == g.(env := g.env[..g.senderAt] + attrs + [Rec(83, addr)] + g.env[g.senderAt + 1..],
               senderAt := g.senderAt + |attrs|,
               rcptAt := if g.rcptInEnv then g.rcptAt + |attrs| else g.rcptAt)
  {
  }

  /** New recipients stand where others will be added behind them. */
  lemma AddedRecipients(g: Message, recs: seq<Rec>, lim: Limits)
    requires lim.line >= 1 && OneSender(g)
    ensures var n, t := g.rcptAt, Apply(g, AddRecipients(recs), lim);
            if g.rcptInEnv then t == g.(env := g.env[..n] + recs + g.env[n..], rcptAt := n + |recs|)
            else t == g.(ext := g.ext[..n] + recs + g.ext[n..], rcptAt := n + |recs|)
  {
  }

  /** A new body is an empty record and one record for each line (type 78). */
  lemma ReplacedBody(g: Message, lines: seq<seq<byte>>, lim: Limits)
    requires lim.line >= 1
    ensures var t := Apply(g, ReplaceBody(lines), lim);
            && t == g.(body := t.body) && |t.body| == |lines| + 1 && t.body[0] == Rec(78, [])
            && forall i :: 0 <= i < |lines| ==> t.body[i + 1] == Rec(78, lines[i])
  {
  }

  // ----- Recipients over a run -----

  function Added(es: seq<Edit>): seq<Rec> {
    if es == [] then []
    else Added(es[..|es| - 1]) + if es[|es| - 1].AddRecipients? then es[|es| - 1].recs else []
  }

  /** The added recipients, of which some were cancelled since. */
  function AddedNow(es: seq<Edit>): seq<Rec> {
    if es == [] then []
    else
      var e, before := es[|es| - 1], AddedNow(es[..|es| - 1]);
      if e.AddRecipients? then before + e.recs
      else if e.DeleteRecipients? then Cancel(before, None, e.addr)
      else before
  }

  /** What stood at the append position before the run, after its deletions. */
  function RestNow(es: seq<Edit>, rest: seq<Rec>): seq<Rec> {
    if es == [] then rest
    else
      var e, before := es[|es| - 1], RestNow(es[..|es| - 1], rest);
      if e.DeleteRecipients? then Cancel(before, None, e.addr) else before
  }

  /** Every original recipient is followed by its recipient, as cleanup_out_recipient writes them. */
  predicate Complete(rs: seq<Rec>) { OrigAfter(rs, None) == None }

  predicate CompleteEdit(e: Edit) {
    && (e.AddRecipients? ==> Complete(e.recs))
    && (e.ChangeFrom? ==> forall k :: 0 <= k < |e.attrs| ==> e.attrs[k].typ != ORCP)
  }

  /** The list that recipients are added to. */
  function RcptList(g: Message): seq<Rec> { if g.rcptInEnv then g.env else g.ext }

  /** What a scan for recipients passes before the last n records in front of the append position. */
  function Before(g: Message, n: nat): seq<Rec>
    requires n <= g.rcptAt <= |RcptList(g)|
  {
    if g.rcptInEnv then g.env[..g.rcptAt - n] else g.env + g.ext[..g.rcptAt - n]
  }

  predicate SenderBefore(g: Message, n: nat) {
    g.senderAt < |g.env| && g.env[g.senderAt].typ == FROM && (g.rcptInEnv ==> g.senderAt + n < g.rcptAt)
  }

  /** added stands just before the append position, and rest after it. */
  ghost predicate Appends(g: Message, added: seq<Rec>, rest: seq<Rec>) {
    var s := RcptList(g);
    && |added| <= g.rcptAt <= |s| && SenderBefore(g, |added|)
    && s[g.rcptAt - |added|..g.rcptAt] == added && s[g.rcptAt..] == rest
    && Complete(Before(g, |added|)) && Complete(added)
  }

  lemma CompleteConcat(a: seq<Rec>, b: seq<Rec>)
    requires Complete(a)
    ensures Complete(a + b) <==> Complete(b)
  {
    OrigAfterConcat(a, b, None);
  }

  lemma AppendsAdd(g: Message, added: seq<Rec>, rest: seq<Rec>, recs: seq<Rec>)
    requires Appends(g, added, rest) && Complete(recs)
    ensures Appends(AddRcpt(g, recs), added + recs, rest)
  {
    hide Complete;
    var s, n, g' := RcptList(g), g.rcptAt, AddRcpt(g, recs);
    var s' := InsertAt(s, n, recs);
    assert s' == s[..n] + recs + s[n..];
    var a := added + recs;
    assert s'[n + |recs| - |a|..n + |recs|] == s[n - |added|..n] + recs;
    assert s'[n + |recs|..] == s[n..];
    assert s'[..n + |recs| - |a|] == s[..n - |added|];
    assert Before(g', |a|) == Before(g, |added|);
    CompleteConcat(added, recs);
  }

  lemma {:induction false} NoOrcpKeeps(attrs: seq<Rec>, orig: Option<seq<byte>>)
    requires forall k :: 0 <= k < |attrs| ==> attrs[k].typ != ORCP
    ensures OrigAfter(attrs, orig) == orig || OrigAfter(attrs, orig) == None
    decreases |attrs|
  {
    if attrs != [] { NoOrcpKeeps(attrs[1..], OrigNext(attrs[0], orig)); }
  }

  lemma {:induction false} LessOrig(b: seq<Rec>, orig: Option<seq<byte>>)
    requires OrigAfter(b, orig) == None
    ensures OrigAfter(b, None) == None
    decreases |b|
  {
    if b != [] && OrigNext(b[0], orig) != OrigNext(b[0], None) { LessOrig(b[1..], OrigNext(b[0], orig)); }
  }

  /** A new sender and its attributes leave no original recipient without its recipient. */
  lemma CompleteSender(a: seq<Rec>, from: Rec, b: seq<Rec>, attrs: seq<Rec>, addr: seq<byte>)
    requires Complete(a + [from] + b) && from.typ == FROM && forall k :: 0 <= k < |attrs| ==> attrs[k].typ != ORCP
    ensures Complete(a + attrs + [Rec(FROM, addr)] + b)
  {
    var o, f := OrigAfter(a, None), [Rec(FROM, addr)];
    OrigAfterConcat(a + [from], b, None);
    OrigAfterConcat(a, [from], None);
    OrigAfterConcat(a + attrs + f, b, None);
    OrigAfterConcat(a + attrs, f, None);
    OrigAfterConcat(a, attrs, None);
    assert [from][1..] == [] && f[1..] == [];
    NoOrcpKeeps(attrs, o);
    LessOrig(b, o);
  }

  lemma AppendsSender(g: Message, added: seq<Rec>, rest: seq<Rec>, attrs: seq<Rec>, addr: seq<byte>)
    requires Appends(g, added, rest) && forall k :: 0 <= k < |attrs| ==> attrs[k].typ != ORCP
    ensures Appends(ChgFrom(g, attrs, addr), added, rest)
  {
    hide ChgFrom, Appends, Complete;
    if g.rcptInEnv { SenderInEnv(g, added, rest, attrs, addr); } else { SenderApart(g, added, rest, attrs, addr); }
  }

  lemma AppendsIs(g: Message, added: seq<Rec>, rest: seq<Rec>, before: seq<Rec>)
    requires var s := RcptList(g);
             && |added| <= g.rcptAt <= |s| && SenderBefore(g, |added|)
             && s[g.rcptAt - |added|..g.rcptAt] == added && s[g.rcptAt..] == rest
             && before == (if g.rcptInEnv then [] else g.env) + s[..g.rcptAt - |added|]
    requires Complete(before) && Complete(added)
    ensures Appends(g, added, rest)
  {
    hide Complete;
    assert Before(g, |added|) == before;
  }

  /** The list of records up to the new sender, which replaces the list up to the old one. */
  lemma NewSender(g: Message, attrs: seq<Rec>, addr: seq<byte>, all: seq<Rec>) returns (a: seq<Rec>)
    requires g.senderAt < |g.env| && g.env[g.senderAt].typ == FROM && g.senderAt < |all|
    requires all[..g.senderAt + 1] == g.env[..g.senderAt + 1]
    requires Complete(all) && forall k :: 0 <= k < |attrs| ==> attrs[k].typ != ORCP
    ensures var g', d := ChgFrom(g, attrs, addr), |attrs|;
            && g'.env == a + g.env[g.senderAt + 1..] && g'.ext == g.ext && g'.rcptInEnv == g.rcptInEnv
            && g'.senderAt == g.senderAt + d && g'.rcptAt == (if g.rcptInEnv then g.rcptAt + d else g.rcptAt)
            && |a| == g.senderAt + d + 1 && g'.env[g'.senderAt] == Rec(FROM, addr)
    ensures Complete(a + all[g.senderAt + 1..])
  {
    hide Complete;
    var s, p := g.env, g.senderAt;
    a := s[..p] + attrs + [Rec(FROM, addr)];
    assert s[..p + 1] == s[..p] + [s[p]];
    assert all == all[..p + 1] + all[p + 1..];
    CompleteSender(s[..p], s[p], all[p + 1..], attrs, addr);
  }

  lemma UptoCut(s: seq<Rec>, k: nat, p: nat)
    requires p <= k <= |s|
    ensures s[..k][..p] == s[..p] && s[..k][p..] == s[p..k]
  {
  }

  lemma SenderInEnv(g: Message, added: seq<Rec>, rest: seq<Rec>, attrs: seq<Rec>, addr: seq<byte>)
    requires Appends(g, added, rest) && g.rcptInEnv && forall k :: 0 <= k < |attrs| ==> attrs[k].typ != ORCP
    ensures Appends(ChgFrom(g, attrs, addr), added, rest)
  {
    hide Complete, ChgFrom;
    var s, n, p, k := g.env, g.rcptAt, g.senderAt, g.rcptAt - |added|;
    UptoCut(s, k, p + 1);
    var a := NewSender(g, attrs, addr, s[..k]);
    SenderSlices(a, s[p + 1..], s, p, k, n);
    hide Appends;
    AppendsIs(ChgFrom(g, attrs, addr), added, rest, a + s[p + 1..k]);
  }

  lemma SenderApart(g: Message, added: seq<Rec>, rest: seq<Rec>, attrs: seq<Rec>, addr: seq<byte>)
    requires Appends(g, added, rest) && !g.rcptInEnv && forall k :: 0 <= k < |attrs| ==> attrs[k].typ != ORCP
    ensures Appends(ChgFrom(g, attrs, addr), added, rest)
  {
    hide Complete, ChgFrom;
    var s, p, x := g.env, g.senderAt, g.ext[..g.rcptAt - |added|];
    assert (s + x)[..p + 1] == s[..p + 1] && (s + x)[p + 1..] == s[p + 1..] + x;
    var a := NewSender(g, attrs, addr, s + x);
    assert a + (s[p + 1..] + x) == a + s[p + 1..] + x;
    hide Appends;
    AppendsIs(ChgFrom(g, attrs, addr), added, rest, a + s[p + 1..] + x);
  }

  /** Behind the sender everything moves by the attributes. */
  lemma SenderSlices(a: seq<Rec>, t: seq<Rec>, s: seq<Rec>, p: nat, i: nat, j: nat)
    requires p < i <= j <= |s| && t == s[p + 1..]
    ensures var d := |a| - p - 1; (a + t)[i + d..j + d] == s[i..j] && (a + t)[j + d..] == s[j..]
    ensures (a + t)[..i + (|a| - p - 1)] == a + s[p + 1..i]
  {
  }

  lemma CancelThree(x: seq<Rec>, a: seq<Rec>, b: seq<Rec>, orig: Option<seq<byte>>, addr: seq<byte>)
    requires OrigAfter(x, orig) == None && Complete(a)
    ensures Cancel(x + a + b, orig, addr) == Cancel(x, orig, addr) + Cancel(a, None, addr) + Cancel(b, None, addr)
    ensures |Cancel(x, orig, addr)| == |x| && |Cancel(a, None, addr)| == |a|
  {
    CancelConcat(x + a, b, orig, addr);
    CancelConcat(x, a, orig, addr);
    OrigAfterConcat(x, a, orig);
    CancelLength(x, orig, addr);
    CancelLength(a, None, addr);
  }

  lemma AppendsCancel(g: Message, added: seq<Rec>, rest: seq<Rec>, addr: seq<byte>)
    requires Appends(g, added, rest)
    ensures Appends(DelRcpt(g, addr), Cancel(added, None, addr), Cancel(rest, None, addr))
  {
    hide Cancel, OrigAfter;
    var s, n, g' := RcptList(g), g.rcptAt, DelRcpt(g, addr);
    var o, x := if g.rcptInEnv then None else OrigAfter(g.env, None), s[..n - |added|];
    assert s == x + added + rest;
    OrigAfterConcat(g.env, x, None);
    CancelThree(x, added, rest, o, addr);
    CancelLength(g.env, None, addr);
    CancelAt(g.env, None, addr, g.senderAt);
    CancelConcat(g.env, x, None, addr);
    CancelIdempotent(Before(g, |added|), None, addr);
    CancelIdempotent(added, None, addr);
    var s' := RcptList(g');
    assert s' == Cancel(x, o, addr) + Cancel(added, None, addr) + Cancel(rest, None, addr);
    assert Before(g', |added|) == Cancel(Before(g, |added|), None, addr);
  }

  lemma AppendsStart(g: Message)
    requires OneSender(g) && Complete(Before(g, 0))
    ensures g.rcptAt <= |RcptList(g)| && Appends(g, [], RcptList(g)[g.rcptAt..])
  {
    hide OrigAfter;
    assert RcptList(g)[g.rcptAt - 0..g.rcptAt] == [];
    NothingComplete();
  }

  lemma {:induction false} AppendsOfRun(g: Message, es: seq<Edit>, rest: seq<Rec>, lim: Limits)
    requires lim.line >= 1 && Appends(g, [], rest) && forall i :: 0 <= i < |es| ==> CompleteEdit(es[i])
    ensures Appends(ApplyAll(g, es, lim), AddedNow(es), RestNow(es, rest))
  {
    hide CompleteEdit, Cancel, Apply, Appends;
    if es != [] {
      var n := |es| - 1;
      AppendsOfRun(g, es[..n], rest, lim);
      RecipientStep(ApplyAll(g, es[..n], lim), es[n], AddedNow(es[..n]), RestNow(es[..n], rest), lim);
    }
  }

  /** After any run the added recipients stand, in the order of the requests, just before what
      stood at the append position, and exactly these are cancelled whose original recipient was
      named by a later deletion. */
  lemma {:induction false} RecipientsOfRun(g: Message, es: seq<Edit>, lim: Limits)
    requires lim.line >= 1 && OneSender(g) && Complete(Before(g, 0))
    requires forall i :: 0 <= i < |es| ==> CompleteEdit(es[i])
    ensures Appends(ApplyAll(g, es, lim), AddedNow(es), RestNow(es, RcptList(g)[g.rcptAt..]))
    ensures forall i, j :: 0 <= i < |es| && es[i].AddRecipients? && 0 <= j < |es[i].recs| ==> Fate(es, i, j)
  {
    hide *;
    AppendsStart(g);
    AppendsOfRun(g, es, RcptList(g)[g.rcptAt..], lim);
    forall i, j | 0 <= i < |es| && es[i].AddRecipients? && 0 <= j < |es[i].recs| ensures Fate(es, i, j) {
      RecipientFate(es, i, j);
    }
  }

  lemma NothingComplete()
    ensures Complete([])
  {
  }

  lemma RecipientStep(g: Message, e: Edit, added: seq<Rec>, rest: seq<Rec>, lim: Limits)
    requires lim.line >= 1 && Appends(g, added, rest) && CompleteEdit(e)
    ensures Appends(Apply(g, e, lim),
                    if e.AddRecipients? then added + e.recs else if e.DeleteRecipients? then Cancel(added, None, e.addr) else added,
                    if e.DeleteRecipients? then Cancel(rest, None, e.addr) else rest)
  {
    hide InsText, UpdText, DelText, AddText, NewBody, ChgFrom, AddRcpt, DelRcpt, HeaderText, Complete, Cancel;
    match e
    case ChangeFrom(attrs, addr) => AppendsSender(g, added, rest, attrs, addr);
    case AddRecipients(recs) => AppendsAdd(g, added, rest, recs);
    case DeleteRecipients(addr) => AppendsCancel(g, added, rest, addr);
    case _ =>
  }

  // ----- Which recipients are cancelled -----

  /** Request i adds a recipient that a later request deletes. */
  predicate DeletedLater(es: seq<Edit>, i: nat, orig: seq<byte>) {
    exists n :: i < n < |es| && es[n] == DeleteRecipients(orig)
  }

  /** Record j of request i. */
  predicate Fate(es: seq<Edit>, i: nat, j: nat)
    requires i < |es| && es[i].AddRecipients? && j < |es[i].recs|
  {
    var recs, p := es[i].recs, |Added(es[..i])| + j;
    && p < |AddedNow(es)|
    && AddedNow(es)[p] == if recs[j].typ == RCPT && DeletedLater(es, i, OriginalRcpt(recs, j))
                          then Rec(DRCP, recs[j].data) else recs[j]
  }

  lemma {:induction false} AddedLength(es: seq<Edit>, i: nat)
    requires i <= |es|
    ensures |AddedNow(es)| == |Added(es)| && |Added(es[..i])| <= |Added(es)|
    ensures i < |es| && es[i].AddRecipients? ==> |Added(es[..i])| + |es[i].recs| <= |Added(es)|
  {
    if es != [] {
      var n := |es| - 1;
      var e := es[n];
      AddedLength(es[..n], if i < n then i else n);
      if e.DeleteRecipients? { CancelLength(AddedNow(es[..n]), None, e.addr); }
      if i < n { assert es[..n][..i] == es[..i]; }
      if i == |es| { assert es[..i] == es; }
    }
  }

  lemma {:induction false} AddedComplete(es: seq<Edit>)
    requires forall i :: 0 <= i < |es| ==> CompleteEdit(es[i])
    ensures Complete(AddedNow(es))
  {
    if es != [] {
      var n := |es| - 1;
      var e, a := es[n], AddedNow(es[..n]);
      AddedComplete(es[..n]);
      if e.AddRecipients? { CompleteConcat(a, e.recs); }
      if e.DeleteRecipients? { CancelIdempotent(a, None, e.addr); }
    }
  }

  lemma CancelFront(rs: seq<Rec>, p: nat, addr: seq<byte>)
    requires p <= |rs|
    ensures |Cancel(rs, None, addr)| == |rs|
    ensures OrigAfter(Cancel(rs, None, addr)[..p], None) == OrigAfter(rs[..p], None)
  {
    assert rs == rs[..p] + rs[p..];
    CancelConcat(rs[..p], rs[p..], None, addr);
    CancelLength(rs[..p], None, addr);
    CancelLength(rs, None, addr);
    CancelIdempotent(rs[..p], None, addr);
  }

  /** The original recipient of an added record is found within its own request. */
  lemma {:induction false} OwnOriginal(es: seq<Edit>, i: nat, j: nat)
    requires i < |es| && es[i].AddRecipients? && j <= |es[i].recs| && forall k :: 0 <= k < |es| ==> CompleteEdit(es[k])
    ensures |Added(es[..i])| + j <= |AddedNow(es)|
    ensures OrigAfter(AddedNow(es)[..|Added(es[..i])| + j], None) == OrigAfter(es[i].recs[..j], None)
  {
    hide CompleteEdit, Cancel, OrigAfter;
    AddedLength(es, i);
    var n, p := |es| - 1, |Added(es[..i])| + j;
    var e, a := es[n], AddedNow(es[..n]);
    AddedLength(es[..n], if i < n then i else n);
    if i == n {
      assert es[..n][..n] == es[..n];
      AddedComplete(es[..n]);
      assert AddedNow(es)[..p] == a + e.recs[..j];
      OrigAfterConcat(a, e.recs[..j], None);
    } else {
      assert es[..n][..i] == es[..i];
      OwnOriginal(es[..n], i, j);
      if e.AddRecipients? { assert (a + e.recs)[..p] == a[..p]; }
      if e.DeleteRecipients? { CancelFront(a, p, e.addr); }
    }
  }

  lemma {:induction false} RecipientFate(es: seq<Edit>, i: nat, j: nat)
    requires i < |es| && es[i].AddRecipients? && j < |es[i].recs| && forall k :: 0 <= k < |es| ==> CompleteEdit(es[k])
    ensures Fate(es, i, j)
  {
    hide CompleteEdit, Cancel, OrigAfter, OriginalRcpt;
    AddedLength(es, i);
    var n, p, recs := |es| - 1, |Added(es[..i])| + j, es[i].recs;
    var e, a := es[n], AddedNow(es[..n]);
    AddedLength(es[..n], if i < n then i else n);
    if i == n {
      assert es[..n][..n] == es[..n];
    } else {
      assert es[..n][..i] == es[..i];
      RecipientFate(es[..n], i, j);
      LaterStep(es, i, OriginalRcpt(recs, j));
      if e.DeleteRecipients? {
        CancelExactly(a, e.addr, p);
        OwnOriginal(es[..n], i, j);
        SameOriginal(a, p, recs, j);
      }
    }
  }

  lemma LaterStep(es: seq<Edit>, i: nat, orig: seq<byte>)
    requires i < |es| - 1
    ensures var n := |es| - 1;
            DeletedLater(es, i, orig) <==> DeletedLater(es[..n], i, orig) || es[n] == DeleteRecipients(orig)
  {
    var n := |es| - 1;
    if k :| i < k < |es| && es[k] == DeleteRecipients(orig) {
      if k < n { assert es[..n][k] == DeleteRecipients(orig); }
    }
    if k :| i < k < n && es[..n][k] == DeleteRecipients(orig) { assert es[k] == DeleteRecipients(orig); }
  }

  lemma SameOriginal(a: seq<Rec>, p: nat, b: seq<Rec>, j: nat)
    requires p < |a| && j < |b| && OrigAfter(a[..p], None) == OrigAfter(b[..j], None)
    ensures a[p].data == b[j].data ==> OriginalRcpt(a, p) == OriginalRcpt(b, j)
  {
    OrigAfterIs(a, p);
    OrigAfterIs(b, j);
  }

  // ----- A message as it was received -----

  /** The file holds exactly one sender. */
  lemma FileOneSender(q: Queue, m: Map)
    requires Inv(q, m)
    ensures Ordered(m) && OneSender(Abs(m))
  {
    hide Path, HeaderPart, BodyPart, Anchored, View;
    var c, n := m.c, |View(m.c[0..m.from])|;
    assert Marked(c[m.from].rec.typ, m.from, m);
    ViewCut(c, 0, m.from, m.mesg);
    assert c[..m.mesg] == c[0..m.mesg] && c[..m.from] == c[0..m.from];
    NoSender(m, 0, m.from);
    NoSender(m, m.from + 1, m.mesg);
    NoSender(m, m.xtra + 1, |c| - 1);
    RcptInside(q, m);
    if m.rcpt < m.mesg {
      var r := c[..m.rcpt];
      assert r[..m.from] == c[..m.from];
      ViewPrefix(r, m.from);
    }
  }

  lemma NoSender(m: Map, a: nat, b: nat)
    requires Ordered(m) && Markers(m) && a <= b <= |m.c| && !(a <= m.from < b)
    ensures forall k :: 0 <= k < |View(m.c[a..b])| ==> View(m.c[a..b])[k].typ != FROM
  {
    var v := View(m.c[a..b]);
    forall k | 0 <= k < |v| ensures v[k].typ != FROM {
      ViewFrom(m.c[a..b], v[k]);
      var n :| 0 <= n < |m.c[a..b]| && m.c[a..b][n].rec == v[k];
      assert Marked(m.c[a + n].rec.typ, a + n, m);
    }
  }

  /** A text that starts with a proper label. */
  ghost predicate HasLabel(text: seq<byte>, lim: Limits) {
    exists name: seq<byte>, rest: seq<byte> :: text == name + [COLON] + rest && ProperName(name, lim)
  }

  ghost predicate AllLabels(texts: seq<seq<byte>>, lim: Limits) { forall i :: 0 <= i < |texts| ==> HasLabel(texts[i], lim) }

  /** The received headers as a list. */
  function StartHeaders(texts: seq<seq<byte>>, lim: Limits): seq<Header>
    requires lim.line >= 1
  {
    if texts == [] then [] else [Shown(Render(texts[0], lim))] + StartHeaders(texts[1..], lim)
  }

  lemma {:induction false} StartHeadersAre(texts: seq<seq<byte>>, lim: Limits)
    requires Sane(lim) && AllLabels(texts, lim)
    ensures AllHeaders(StartHeaders(texts, lim)) && Shown(RenderAll(texts, lim)) == Flatten(StartHeaders(texts, lim))
  {
    hide Render, IsHeader, ProperName;
    if texts != [] {
      StartHeadersAre(texts[1..], lim);
      ShownConcat(Render(texts[0], lim), RenderAll(texts[1..], lim));
      var name: seq<byte>, rest: seq<byte> :| texts[0] == name + [COLON] + rest && ProperName(name, lim);
      TextHeader(name, rest, lim);
    }
  }

  /** The generated headers, which the header size limit does not apply to. */
  function GeneratedHeaders(texts: seq<seq<byte>>, lim: Limits): seq<Header>
    requires lim.line >= 1
  {
    if texts == [] then [] else [Chunks(NORM, texts[0], lim.line)] + GeneratedHeaders(texts[1..], lim)
  }

  lemma GeneratedLabel(text: seq<byte>, n: nat)
    requires n >= 1 && HasLabel(text, Limits(n, n))
    ensures var rs := Chunks(NORM, text, n); rs != [] && LabelLen(rs[0].data) > 0 && !Folded(rs[0])
  {
    var name: seq<byte>, rest: seq<byte> :| text == name + [COLON] + rest && ProperName(name, Limits(n, n));
    ChunksText(NORM, text, n);
    var d := Chunks(NORM, text, n)[0].data;
    hide Chunks, IsLabel;
    var t := d[|name|..];
    assert d == name + t && t[0] == COLON;
    ScanLabelName(name, t, Init, 0) by { assert IsLabel(name); }
    assert LabelChar(name[0]) by { assert IsLabel(name); }
  }

  lemma GeneratedHeader(text: seq<byte>, lim: Limits)
    requires Sane(lim) && HasLabel(text, Limits(lim.line, lim.line))
    ensures IsHeader(Chunks(NORM, text, lim.line)) && Shown(Chunks(NORM, text, lim.line)) == Chunks(NORM, text, lim.line)
  {
    hide Folded, LabelLen, HasLabel, Shown;
    var n, rs := lim.line, Chunks(NORM, text, lim.line);
    GeneratedLabel(text, n);
    ChunksText(NORM, text, n);
    ChunksPlain(text, n);
    hide Chunks;
  }

  lemma {:induction false} GeneratedHeadersAre(texts: seq<seq<byte>>, lim: Limits)
    requires Sane(lim) && AllLabels(texts, Limits(lim.line, lim.line))
    ensures AllHeaders(GeneratedHeaders(texts, lim)) && Shown(GeneratedAll(texts, lim)) == Flatten(GeneratedHeaders(texts, lim))
  {
    hide Chunks, IsHeader, HasLabel;
    if texts != [] {
      GeneratedHeadersAre(texts[1..], lim);
      ShownConcat(Chunks(NORM, texts[0], lim.line), GeneratedAll(texts[1..], lim));
      GeneratedHeader(texts[0], lim);
    }
  }

  /** The headers of the starting file. */
  function ListReceived(d: Received, lim: Limits): seq<Header>
    requires lim.line >= 1
  {
    StartHeaders(d.headers, lim) + GeneratedHeaders(d.generated, lim)
  }

  ghost predicate LabelledMessage(d: Received, lim: Limits) {
    AllLabels(d.headers, lim) && AllLabels(d.generated, Limits(lim.line, lim.line))
  }

  lemma ReceivedAre(d: Received, lim: Limits)
    requires Sane(lim) && LabelledMessage(d, lim)
    ensures AllHeaders(ListReceived(d, lim)) && Shown(Heads(d, lim)) == Flatten(ListReceived(d, lim))
  {
    hide StartHeaders, GeneratedHeaders, RenderAll, GeneratedAll, IsHeader, HasLabel, Flatten, Shown;
    StartHeadersAre(d.headers, lim);
    GeneratedHeadersAre(d.generated, lim);
    ShownConcat(RenderAll(d.headers, lim), GeneratedAll(d.generated, lim));
    FlattenConcat(StartHeaders(d.headers, lim), GeneratedHeaders(d.generated, lim));
  }

  /** What all requests together made of a received message. */
  ghost predicate Outcome(g: Message, d: Received, es: seq<Edit>, lim: Limits)
    requires Sane(lim)
  {
    && g.body == LastBody(es, d.body)
    && OneSender(g) && g.env[g.senderAt] == Rec(FROM, LastSender(es, d.sender))
    && (LabelledMessage(d, lim) && (forall i :: 0 <= i < |es| ==> Labelled(es[i], lim)) ==>
          && AllHeaders(ListReceived(d, lim))
          && Group(g.hdrs) == ListAll(ListReceived(d, lim), es, lim))
    && (Complete(d.before + d.after + if d.rcptInEnv then [] else d.ext + d.more)
        && (forall i :: 0 <= i < |es| ==> CompleteEdit(es[i])) ==>
          && Appends(g, AddedNow(es), RestNow(es, if d.rcptInEnv then [] else d.extra))
          && forall i, j :: 0 <= i < |es| && es[i].AddRecipients? && 0 <= j < |es[i].recs| ==> Fate(es, i, j))
  }

  lemma ExtEnv(d: Received)
    requires Sensible(d)
    ensures forall k :: 0 <= k < |d.ext + d.more + d.extra| ==> EnvRec((d.ext + d.more + d.extra)[k])
  {
    hide EnvRec;
    var a, b, c := d.ext, d.more, d.extra;
    forall k | 0 <= k < |a + b + c| ensures EnvRec((a + b + c)[k]) {
      if |a| <= k < |a| + |b| { assert (a + b + c)[k] == b[k - |a|]; }
      if |a| + |b| <= k { assert (a + b + c)[k] == c[k - |a| - |b|]; }
    }
  }

  lemma StartOneSender(d: Received, lim: Limits)
    requires Sane(lim) && Sensible(d)
    ensures OneSender(StartMessage(d, lim))
  {
    hide Heads, Shown, PtrRec;
    assert forall k :: 0 <= k < |d.before| ==> EnvRec(d.before[k]);
    assert forall k :: 0 <= k < |d.after| ==> EnvRec(d.after[k]);
    ExtEnv(d);
  }

  lemma WithoutSender(a: seq<Rec>, from: Rec, b: seq<Rec>)
    requires from.typ == FROM
    ensures Complete(a + [from] + b) <==> Complete(a + b)
  {
    OrigAfterConcat(a + [from], b, None);
    OrigAfterConcat(a, [from], None);
    OrigAfterConcat(a, b, None);
    assert [from][1..] == [];
  }

  lemma StartRecipients(d: Received, lim: Limits)
    requires Sane(lim)
    ensures var g := StartMessage(d, lim);
            && g.rcptAt <= |RcptList(g)|
            && (Complete(Before(g, 0)) <==> Complete(d.before + d.after + if d.rcptInEnv then [] else d.ext + d.more))
            && RcptList(g)[g.rcptAt..] == if d.rcptInEnv then [] else d.extra
  {
    hide Complete, Shown, Heads;
    var g, f := StartMessage(d, lim), Rec(FROM, d.sender);
    if d.rcptInEnv {
      assert Before(g, 0) == d.before + [f] + d.after;
      assert d.before + d.after + [] == d.before + d.after;
      WithoutSender(d.before, f, d.after);
    } else {
      var x := d.ext + d.more;
      assert Before(g, 0) == d.before + [f] + (d.after + x);
      assert d.before + d.after + x == d.before + (d.after + x);
      WithoutSender(d.before, f, d.after + x);
    }
  }

  /** The laws of a run, for a message that was received. */
  lemma OutcomeOfRun(d: Received, es: seq<Edit>, lim: Limits)
    requires Sane(lim) && Sensible(d) && forall i :: 0 <= i < |es| ==> Proper(es[i], lim)
    ensures Outcome(ApplyAll(StartMessage(d, lim), es, lim), d, es, lim)
  {
    hide ApplyAll, Proper, Labelled, LabelledMessage, CompleteEdit, Fate, Complete, Appends, OneSender, Sensible,
         AllHeaders, Heads, Before, Group, Flatten, ListReceived;
    var g := StartMessage(d, lim);
    BodyOfRun(g, es, lim);
    StartOneSender(d, lim);
    SenderOfRun(g, es, lim);
    SenderRecord(ApplyAll(g, es, lim));
    if LabelledMessage(d, lim) && (forall i :: 0 <= i < |es| ==> Labelled(es[i], lim)) {
      ReceivedAre(d, lim);
      HeadersOfRun(g, ListReceived(d, lim), es, lim);
    }
    StartRecipients(d, lim);
    if Complete(Before(g, 0)) && (forall i :: 0 <= i < |es| ==> CompleteEdit(es[i])) {
      RecipientsOfRun(g, es, lim);
    }
  }

  lemma SenderRecord(g: Message)
    requires OneSender(g)
    ensures g.senderAt < |g.env| && g.env[g.senderAt] == Rec(FROM, g.env[g.senderAt].data)
  {
  }

  /** A message is received and then edited by any run of requests.  With a fresh stream no request
      of up to 139 is refused, and a file can be read after up to 9998 requests. */
  method EditReceived(d: Received, limits: Limits, t: Tally, es: seq<Edit>)
    returns (qf: QueueFile, n: nat, refused: bool, records: Option<seq<Rec>>)
    requires Sane(limits) && Sensible(d) && Roomed(d.generated) && forall i :: 0 <= i < |es| ==> Proper(es[i], limits)
    ensures qf.Valid() && n <= |es|
    ensures !refused ==> Outcome(qf.Contents(), d, es[..n], limits)
    ensures !refused && n < |es| ==> !Fits(|qf.file|, es[n])
    ensures refused ==> n < |es| && exists g :: Outcome(g, d, es[..n], limits) && Interrupted(g, qf.Contents(), es[n])
    ensures t == FRESH && |es| <= 139 ==> !refused
    ensures records.Some? ==> ReadsAs(records.value, qf.Contents())
    ensures |es| <= 9998 ==> records.Some?
  {
    hide Inv, Abs, Sensible, Proper, Fits, Outcome, ApplyAll, Interrupted, ReadsAs, StartMessage, Load, Reverses, Roomed,
         StartQueue;
    qf := new QueueFile(d, limits, t);
    FewRequests(|es|);
    n, refused, records := Run(qf, es);
    OutcomeOfRun(d, es[..n], limits);
  }

  lemma FewRequests(n: nat)
    ensures Affordable(FRESH, 1, n) <==> n <= 139
  {
    assert 139 * (3 + 139) <= 2 * REVERSE_JUMP_LIMIT < 140 * (3 + 140);
    if n <= 139 {
      assert n * (3 + n) <= 139 * (3 + 139);
    } else {
      assert 140 * (3 + 140) <= n * (3 + n);
    }
  }
}
