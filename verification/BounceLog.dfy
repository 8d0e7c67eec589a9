/** The bounce log: the writer (src/bounce/bounce_append_service.c) and the line-driven reader
    (src/global/bounce_log.c), which also takes entries in the old one-line form. */
module BounceLog {
  import opened Dsn

  /** A recipient with its delivery status. */
  datatype Entry = Entry(address: string, origAddr: string, dsnOrcpt: string, notify: nat, offset: nat,
                         status: string, action: string, dtype: string, dtext: string,
                         mtype: string, mname: string, reason: string)

  const EMPTY := Entry("", "", "", 0, 0, "", "", "", "", "", "", "")

  // ----- Lines -----

  /** Lines without their newline; a last line that has none counts if there is text on it. */
  function Lines(s: string): seq<string> {
    if s == "" then [] else
      var n := LineLength(s);
      [s[..n]] + if n < |s| then Lines(s[n + 1..]) else []
  }

  function LineLength(s: string): (n: nat)
    ensures n <= |s| && '\n' !in s[..n] && (n < |s| ==> s[n] == '\n')
  {
    if s == "" || s[0] == '\n' then 0 else 1 + LineLength(s[1..])
  }

  function Join(lines: seq<string>): string {
    if lines == [] then "" else lines[0] + "\n" + Join(lines[1..])
  }

  lemma {:induction false} LineLengthIs(a: string, rest: string)
    requires '\n' !in a
    ensures LineLength(a + "\n" + rest) == |a|
  {
    var s := a + "\n" + rest;
    if a != "" { assert s[1..] == a[1..] + "\n" + rest; LineLengthIs(a[1..], rest); }
  }

  predicate NoNewlines(lines: seq<string>) { forall i :: 0 <= i < |lines| ==> '\n' !in lines[i] }

  lemma LinesFirst(a: string, rest: string)
    requires '\n' !in a
    ensures Lines(a + "\n" + rest) == [a] + Lines(rest)
  {
    var s := a + "\n" + rest;
    LineLengthIs(a, rest);
    assert s[|a| + 1..] == rest && s[..|a|] == a;
  }

  /** Reading lines back, with more text behind them. */
  lemma {:induction false} LinesOfJoin(lines: seq<string>, rest: string)
    requires NoNewlines(lines)
    ensures Lines(Join(lines) + rest) == lines + Lines(rest)
    decreases |lines|
  {
    hide Lines;
    if lines == [] {
      assert Join(lines) + rest == rest;
    } else {
      var tail := Join(lines[1..]) + rest;
      assert Join(lines) + rest == lines[0] + "\n" + tail;
      LinesFirst(lines[0], tail);
      LinesOfJoin(lines[1..], rest);
    }
  }

  // ----- The writer -----

  const RECIP := "recipient"
  const ORCPT := "original_recipient"
  const OFFSET := "offset"
  const DSN_ORCPT := "dsn_orig_rcpt"
  const DSN_NOTIFY := "notify_flags"
  const STATUS := "status"
  const ACTION := "action"
  const DTYPE := "diag_type"
  const DTEXT := "diag_text"
  const MTYPE := "mta_type"
  const MNAME := "mta_mname"
  const WHY := "reason"

  function Attr(name: string, value: string): string { name + "=" + value }

  function When(c: bool, lines: seq<string>): seq<string> { if c then lines else [] }

  function RcptLines(e: Entry, quote: string -> string, same: (string, string) -> bool): seq<string> {
    [] + When(true, [Attr(RECIP, if e.address == "" then "<>" else quote(e.address))])
    + When(e.origAddr != "" && !same(e.address, e.origAddr), [Attr(ORCPT, quote(e.origAddr))])
    + When(e.offset > 0, [Attr(OFFSET, Decimal(e.offset))])
    + When(e.dsnOrcpt != "", [Attr(DSN_ORCPT, e.dsnOrcpt)])
    + When(e.notify != 0, [Attr(DSN_NOTIFY, Decimal(e.notify))])
  }

  function DsnLines(e: Entry): seq<string> {
    [] + When(e.status != "", [Attr(STATUS, e.status)])
    + When(e.action != "", [Attr(ACTION, e.action)])
    + When(e.dtype != "" && e.dtext != "", [Attr(DTYPE, e.dtype), Attr(DTEXT, e.dtext)])
    + When(e.mtype != "" && e.mname != "", [Attr(MTYPE, e.mtype), Attr(MNAME, e.mname)])
    + When(e.reason != "", [Attr(WHY, e.reason)])
  }

  function OldLines(e: Entry, quote: string -> string): seq<string> {
    ["<" + (if e.address == "" then "" else quote(e.address)) + ">: " + e.reason]
  }

  /** What an entry is written as, apart from the blank lines around it. */
  function EntryLines(e: Entry, quote: string -> string, same: (string, string) -> bool, compat: bool): seq<string> {
    When(compat, OldLines(e, quote)) + RcptLines(e, quote, same) + DsnLines(e)
  }

  function EntryText(e: Entry, quote: string -> string, same: (string, string) -> bool, compat: bool): string {
    "\n" + Join(EntryLines(e, quote, same, compat)) + "\n"
  }

  lemma JoinNone()
    ensures Join([]) == ""
  {
  }

  lemma {:induction false} JoinConcat(a: seq<string>, b: seq<string>)
    ensures Join(a + b) == Join(a) + Join(b)
  {
    if a == [] {
      assert a + b == b;
    } else {
      assert (a + b)[1..] == a[1..] + b;
      JoinConcat(a[1..], b);
    }
  }

  class LogFile {
    var text: string

    constructor ()
      ensures text == ""
    {
      text := "";
    }

    method Puts(s: string)
      modifies this
      ensures text == old(text) + s
    {
      text := text + s;
    }

    /** Writes lines if the condition holds, after others that were written since. */
    method LinesIf(c: bool, lines: seq<string>, ghost since: string, ghost before: seq<string>) returns (ghost now: seq<string>)
      requires text == since + Join(before)
      modifies this
      ensures now == before + When(c, lines) && text == since + Join(now)
    {
      now := before + When(c, lines);
      JoinConcat(before, When(c, lines));
      if c {
        var i := 0;
        while i < |lines|
          invariant i <= |lines| && text == old(text) + Join(lines[..i])
        {
          Puts(lines[i] + "\n");
          JoinConcat(lines[..i], [lines[i]]);
          assert lines[..i + 1] == lines[..i] + [lines[i]] && Join([lines[i]]) == lines[i] + "\n";
          i := i + 1;
        }
        assert lines[..i] == lines;
      }
    }

    method AppendRcpt(e: Entry, quote: string -> string, same: (string, string) -> bool)
      modifies this
      ensures text == old(text) + Join(RcptLines(e, quote, same))
    {
      hide Join, When, Attr;
      JoinNone();
      ghost var w := [];
      w := LinesIf(true, [Attr(RECIP, if e.address == "" then "<>" else quote(e.address))], old(text), w);
      w := LinesIf(e.origAddr != "" && !same(e.address, e.origAddr), [Attr(ORCPT, quote(e.origAddr))], old(text), w);
      w := LinesIf(e.offset > 0, [Attr(OFFSET, Decimal(e.offset))], old(text), w);
      w := LinesIf(e.dsnOrcpt != "", [Attr(DSN_ORCPT, e.dsnOrcpt)], old(text), w);
      w := LinesIf(e.notify != 0, [Attr(DSN_NOTIFY, Decimal(e.notify))], old(text), w);
    }

    method AppendDsn(e: Entry)
      modifies this
      ensures text == old(text) + Join(DsnLines(e))
    {
      hide Join, When, Attr;
      JoinNone();
      ghost var w := [];
      w := LinesIf(e.status != "", [Attr(STATUS, e.status)], old(text), w);
      w := LinesIf(e.action != "", [Attr(ACTION, e.action)], old(text), w);
      w := LinesIf(e.dtype != "" && e.dtext != "", [Attr(DTYPE, e.dtype), Attr(DTEXT, e.dtext)], old(text), w);
      w := LinesIf(e.mtype != "" && e.mname != "", [Attr(MTYPE, e.mtype), Attr(MNAME, e.mname)], old(text), w);
      w := LinesIf(e.reason != "", [Attr(WHY, e.reason)], old(text), w);
    }

    /** bounce_append_service.  When flushing the log fails, the log is truncated to what it was. */
    method Append(e: Entry, quote: string -> string, same: (string, string) -> bool, compat: bool, flushed: bool)
      modifies this
      ensures text == old(text) + if flushed then EntryText(e, quote, same, compat) else ""
    {
      hide Join, When, RcptLines, DsnLines, OldLines;
      var length := |text|;
      Puts("\n");
      JoinNone();
      ghost var w := LinesIf(compat, OldLines(e, quote), text, []);
      AppendRcpt(e, quote, same);
      AppendDsn(e);
      Puts("\n");
      JoinConcat(w, RcptLines(e, quote, same));
      JoinConcat(w + RcptLines(e, quote, same), DsnLines(e));
      assert w == When(compat, OldLines(e, quote));
      assert text == old(text) + EntryText(e, quote, same, compat);
      if !flushed { text := text[..length]; }
    }
  }

  // ----- The reader: one line -----

  datatype Option<+T> = None | Some(value: T)

  predicate IsPrint(c: char) { ' ' <= c <= '~' }

  function Printable(s: string): (r: string)
    ensures |r| == |s| && forall i :: 0 <= i < |s| ==> r[i] == if IsPrint(s[i]) then s[i] else '?'
  {
    seq(|s|, i requires 0 <= i < |s| => if IsPrint(s[i]) then s[i] else '?')
  }

  predicate IsAlnum(c: char) { IsDigit(c) || 'a' <= c <= 'z' || 'A' <= c <= 'Z' }

  function SkipSpace(s: string): string {
    if s != "" && IsSpace(s[0]) then SkipSpace(s[1..]) else s
  }

  function TrimEnd(s: string): string {
    if s != "" && IsSpace(s[|s| - 1]) then TrimEnd(s[..|s| - 1]) else s
  }

  function NameLength(s: string): (n: nat)
    ensures n <= |s|
  {
    if s == "" || IsSpace(s[0]) || s[0] == '=' then 0 else 1 + NameLength(s[1..])
  }

  /** split_nameval */
  function SplitNameVal(s: string): Option<(string, string)> {
    var np := SkipSpace(s);
    var n := NameLength(np);
    var cp := SkipSpace(np[n..]);
    if np == "" || cp == "" || cp[0] != '=' then None
    else Some((np[..n], TrimEnd(SkipSpace(cp[1..]))))
  }

  function OrDaemon(s: string): string { if s != "" then s else "(MAILER-DAEMON)" }

  function Set(e: Entry, name: string, value: string): Entry {
    if name == RECIP then e.(address := OrDaemon(value))
    else if name == ORCPT then e.(origAddr := OrDaemon(value))
    else if name == DSN_ORCPT then e.(dsnOrcpt := value)
    else if name == DSN_NOTIFY then var n := Atol(value); if n > 0 && NotifyOk(n) then e.(notify := n) else e
    else if name == OFFSET then var n := Atol(value); if n > 0 then e.(offset := n) else e
    else if name == STATUS then e.(status := value)
    else if name == ACTION then e.(action := value)
    else if name == DTYPE then e.(dtype := value)
    else if name == DTEXT then e.(dtext := value)
    else if name == MTYPE then e.(mtype := value)
    else if name == MNAME then e.(mname := value)
    else if name == WHY then e.(reason := value)
    else e
  }

  /** Where the address of an old-style line ends. */
  function AddressLength(s: string): Option<nat> {
    if |s| < 3 then None
    else if s[..3] == ">: " then Some(0)
    else match AddressLength(s[1..]) case None => None case Some(n) => Some(n + 1)
  }

  lemma AddressLengthFits(s: string)
    ensures AddressLength(s).Some? ==> AddressLength(s).value + 3 <= |s|
  {
  }

  /** The effect of one line that is not blank. */
  function Apply(e: Entry, line: string): Entry
    requires line != ""
  {
    var cp := Printable(line);
    if IsAlnum(cp[0]) then
      match SplitNameVal(cp) case None => e case Some(nv) => Set(e, nv.0, nv.1)
    else if cp[0] != '<' then e
    else
      AddressLengthFits(cp[1..]);
      match AddressLength(cp[1..])
      case None => e
      case Some(n) => e.(address := OrDaemon(cp[1..][..n]), reason := SkipSpace(cp[1..][n + 2..]))
  }

  // ----- The reader: entries -----

  datatype Reading = End | Got(entry: Entry, rest: seq<string>)

  /** The file's defaults for old entries: status and action. */
  function Complete(e: Entry, compat: (string, string)): Entry {
    e.(address := if e.address == "" then "(recipient address unavailable)" else e.address,
       status := if e.status == "" then compat.0 else e.status,
       action := if e.action == "" then compat.1 else e.action,
       reason := if e.reason == "" then "(description unavailable)" else e.reason)
  }

  /** Blank lines separate entries; an entry that is not followed by one is not complete. */
  function ReadFrom(lines: seq<string>, found: bool, e: Entry, compat: (string, string)): (r: Reading)
    ensures r.Got? ==> |r.rest| < |lines|
  {
    if lines == [] then End
    else if lines[0] == "" then
      if found then Got(Complete(e, compat), lines[1..]) else ReadFrom(lines[1..], false, e, compat)
    else ReadFrom(lines[1..], true, Apply(e, lines[0]), compat)
  }

  function ReadAll(lines: seq<string>, compat: (string, string)): seq<Entry>
    decreases |lines|
  {
    match ReadFrom(lines, false, EMPTY, compat)
    case End => []
    case Got(e, rest) => [e] + ReadAll(rest, compat)
  }

  class Reader {
    const text: string
    var pos: nat
    const compat: (string, string)

    ghost predicate Valid()
      reads this
    {
      pos <= |text|
    }

    /** bounce_log_open */
    constructor (text: string, deferred: bool)
      ensures Valid() && this.text == text && pos == 0
      ensures compat == if deferred then ("4.0.0", "delayed") else ("5.0.0", "failed")
    {
      this.text, pos := text, 0;
      compat := if deferred then ("4.0.0", "delayed") else ("5.0.0", "failed");
    }

    /** vstring_get_nonl */
    method GetLine() returns (line: Option<string>)
      requires Valid()
      modifies `pos
      ensures Valid() && old(pos) <= pos
      ensures match line
              case None => Lines(old(text[pos..])) == [] && pos == old(pos)
              case Some(s) => Lines(old(text[pos..])) == [s] + Lines(text[pos..]) && old(pos) < pos
    {
      hide Lines, LineLength;
      var start := pos;
      while pos < |text| && text[pos] != '\n'
        invariant start <= pos <= |text|
        invariant LineLength(text[start..]) == pos - start + LineLength(text[pos..])
      {
        LineLengthStep(text, pos);
        pos := pos + 1;
      }
      LineLengthStep(text, pos);
      if pos == |text| && pos == start {
        LinesNone(text, start);
        return None;
      }
      line := Some(text[start..pos]);
      if pos < |text| { pos := pos + 1; }
      LinesAt(text, start, pos);
    }

    /** bounce_log_read */
    method Read() returns (entry: Option<Entry>)
      requires Valid()
      modifies `pos
      ensures Valid()
      ensures match ReadFrom(Lines(old(text[pos..])), false, EMPTY, compat)
              case End => entry.None?
              case Got(e, rest) => entry == Some(e) && rest == Lines(text[pos..])
    {
      hide Lines, Apply, Complete;
      var found, e := false, EMPTY;
      while true
        invariant Valid()
        invariant ReadFrom(Lines(old(text[pos..])), false, EMPTY, compat) == ReadFrom(Lines(text[pos..]), found, e, compat)
        decreases |text| - pos
      {
        var line := GetLine();
        if line.None? { return None; }
        if line.value == "" {
          if found { break; }
          continue;
        }
        found := true;
        e := Apply(e, line.value);
      }
      return Some(Complete(e, compat));
    }
  }

  lemma LineLengthStep(s: string, p: nat)
    requires p <= |s|
    ensures LineLength(s[p..]) == if p == |s| || s[p] == '\n' then 0 else 1 + LineLength(s[p + 1..])
  {
    if p < |s| { assert s[p..][1..] == s[p + 1..]; }
  }

  lemma LinesNone(s: string, p: nat)
    requires p == |s|
    ensures Lines(s[p..]) == []
  {
  }

  lemma LinesAt(s: string, p: nat, q: nat)
    requires p < q <= |s|
    requires var n := LineLength(s[p..]); q == if p + n < |s| then p + n + 1 else |s|
    ensures Lines(s[p..]) == [s[p..p + LineLength(s[p..])]] + Lines(s[q..])
  {
    hide Lines, LineLength;
    var n := LineLength(s[p..]);
    LinesStep(s[p..]);
    SuffixCut(s, p, n);
    if p + n < |s| {
      SuffixCut(s, p, n + 1);
    } else {
      LinesNone(s, q);
    }
  }

  lemma LinesStep(t: string)
    requires t != ""
    ensures var n := LineLength(t); Lines(t) == [t[..n]] + if n < |t| then Lines(t[n + 1..]) else []
  {
  }

  lemma SuffixCut(s: string, p: nat, n: nat)
    requires p + n <= |s|
    ensures s[p..][..n] == s[p..p + n] && s[p..][n..] == s[p + n..]
  {
  }

  // ----- Attributes survive being written and read -----

  /** Printable text without blanks around it. */
  predicate Field(s: string) {
    && (forall i :: 0 <= i < |s| ==> IsPrint(s[i]))
    && (s != "" ==> s[0] != ' ' && s[|s| - 1] != ' ')
  }

  predicate IsName(s: string) {
    s != "" && IsAlnum(s[0]) && forall i :: 0 <= i < |s| ==> IsPrint(s[i]) && s[i] != ' ' && s[i] != '='
  }

  lemma PrintableSame(s: string)
    requires forall i :: 0 <= i < |s| ==> IsPrint(s[i])
    ensures Printable(s) == s
  {
  }

  lemma {:induction false} NameLengthIs(name: string, rest: string)
    requires forall i :: 0 <= i < |name| ==> IsPrint(name[i]) && name[i] != ' ' && name[i] != '='
    requires rest != "" && rest[0] == '='
    ensures NameLength(name + rest) == |name|
  {
    if name == "" {
      assert name + rest == rest;
    } else {
      assert (name + rest)[1..] == name[1..] + rest;
      NameLengthIs(name[1..], rest);
    }
  }

  lemma SplitAttr(name: string, value: string)
    requires IsName(name) && Field(value)
    ensures SplitNameVal(Attr(name, value)) == Some((name, value))
  {
    var s := Attr(name, value);
    assert s == name + ("=" + value);
    NameLengthIs(name, "=" + value);
    assert s[0] == name[0];
    assert s[|name|..] == "=" + value && s[..|name|] == name;
    assert ("=" + value)[1..] == value;
  }

  predicate AllBlank(s: string) { forall i :: 0 <= i < |s| ==> s[i] == ' ' || s[i] == '\t' }

  lemma {:induction false} BlanksSkipped(b: string, s: string)
    requires AllBlank(b) && (s == "" || !IsSpace(s[0]))
    ensures SkipSpace(b + s) == s
  {
    if b == "" {
      assert b + s == s;
    } else {
      assert (b + s)[1..] == b[1..] + s;
      BlanksSkipped(b[1..], s);
    }
  }

  lemma {:induction false} BlanksTrimmed(s: string, b: string)
    requires AllBlank(b) && (s == "" || !IsSpace(s[|s| - 1]))
    ensures TrimEnd(s + b) == s
    decreases |b|
  {
    if b == "" {
      assert s + b == s;
    } else {
      assert (s + b)[..|s + b| - 1] == s + b[..|b| - 1];
      BlanksTrimmed(s, b[..|b| - 1]);
    }
  }

  lemma {:induction false} NameEnds(name: string, rest: string)
    requires forall i :: 0 <= i < |name| ==> !IsSpace(name[i]) && name[i] != '='
    requires rest == "" || IsSpace(rest[0]) || rest[0] == '='
    ensures NameLength(name + rest) == |name|
  {
    if name == "" {
      assert name + rest == rest;
    } else {
      assert (name + rest)[1..] == name[1..] + rest;
      NameEnds(name[1..], rest);
    }
  }

  /** Blanks and tabs around name and value do not belong to them; without an equals sign there is
      no attribute. */
  lemma SplitSpaced(a: string, name: string, b: string, c: string, value: string, d: string)
    requires AllBlank(a) && AllBlank(b) && AllBlank(c) && AllBlank(d)
    requires name != "" && forall i :: 0 <= i < |name| ==> !IsSpace(name[i]) && name[i] != '='
    requires value != "" && !IsSpace(value[0]) && !IsSpace(value[|value| - 1])
    ensures SplitNameVal(a + (name + (b + ("=" + (c + (value + d)))))) == Some((name, value))
    ensures SplitNameVal(a + (name + b)) == None
  {
    hide SkipSpace, TrimEnd, NameLength, AllBlank, IsSpace;
    SplitEnd(a, name, b);
    var tail := "=" + (c + (value + d));
    NotSpace();
    SplitHead(a, name, b, tail);
    assert tail[1..] == c + (value + d);
    assert (value + d)[0] == value[0];
    BlanksSkipped(c, value + d);
    BlanksTrimmed(value, d);
  }

  lemma NotSpace()
    ensures !IsSpace('=')
  {
  }

  /** The name, and what follows it and the blanks behind it. */
  lemma SplitHead(a: string, name: string, b: string, tail: string)
    requires AllBlank(a) && AllBlank(b) && name != "" && forall i :: 0 <= i < |name| ==> !IsSpace(name[i]) && name[i] != '='
    requires tail == "" || (!IsSpace(tail[0]) && tail[0] == '=')
    ensures var np := SkipSpace(a + (name + (b + tail)));
            np != "" && NameLength(np) == |name| && np[..|name|] == name && SkipSpace(np[|name|..]) == tail
  {
    hide SkipSpace, NameLength;
    var np := name + (b + tail);
    assert np[0] == name[0];
    BlanksSkipped(a, np);
    if b != "" { assert (b + tail)[0] == b[0]; } else { assert b + tail == tail; }
    NameEnds(name, b + tail);
    BlanksSkipped(b, tail);
  }

  lemma SplitEnd(a: string, name: string, b: string)
    requires AllBlank(a) && AllBlank(b) && name != "" && forall i :: 0 <= i < |name| ==> !IsSpace(name[i]) && name[i] != '='
    ensures SplitNameVal(a + (name + b)) == None
  {
    hide SkipSpace, NameLength, AllBlank, IsSpace;
    SplitHead(a, name, b, "");
    assert b + "" == b;
  }

  lemma ApplyAttr(e: Entry, name: string, value: string)
    requires IsName(name) && Field(value)
    ensures Attr(name, value) != "" && Apply(e, Attr(name, value)) == Set(e, name, value)
  {
    hide Set, SplitNameVal;
    var s := Attr(name, value);
    SplitAttr(name, value);
    PrintableSame(s);
    assert s[0] == name[0];
  }

  lemma Names()
    ensures IsName(RECIP) && IsName(ORCPT) && IsName(OFFSET) && IsName(DSN_ORCPT) && IsName(DSN_NOTIFY)
    ensures IsName(STATUS) && IsName(ACTION) && IsName(DTYPE) && IsName(DTEXT) && IsName(MTYPE) && IsName(MNAME) && IsName(WHY)
  {
  }

  lemma DecimalField(n: nat)
    ensures Field(Decimal(n))
  {
    DecimalDigits(n);
  }

  lemma {:induction false} MarkAtEnd(a: string, reason: string)
    requires AddressLength(a).None?
    ensures AddressLength(a + ">: " + reason) == Some(|a|)
  {
    var s := a + ">: " + reason;
    if a == "" {
      assert s[..3] == ">: ";
    } else {
      assert s[1..] == a[1..] + ">: " + reason;
      assert |a| > 2 ==> s[..3] == a[..3];
      assert |a| <= 2 ==> s[..3][|a|] == '>';
      MarkAtEnd(a[1..], reason);
    }
  }

  lemma {:induction false} MarkInside(a: string, rest: string)
    requires AddressLength(a).Some?
    ensures AddressLength(a + rest) == AddressLength(a)
  {
    assert (a + rest)[..3] == a[..3];
    if a[..3] != ">: " {
      assert (a + rest)[1..] == a[1..] + rest;
      MarkInside(a[1..], rest);
    }
  }

  lemma {:induction false} SkipSpaceKeeps(s: string, c: char)
    requires c in s && !IsSpace(c)
    ensures SkipSpace(s) != ""
  {
    if IsSpace(s[0]) { SkipSpaceKeeps(s[1..], c); }
  }

  /** An old-style line changes the address and the reason only.  With an empty reason, some of
      the address ends up there if the mark that ends an address is part of it. */
  lemma ApplyOld(e: Entry, a: string, reason: string)
    requires Field(a) && Field(reason)
    ensures var line := "<" + a + ">: " + reason;
            var r := Apply(e, line);
            r == e.(address := r.address, reason := r.reason) && (reason == "" ==> (r.reason == "" <==> AddressLength(a).None?))
  {
    var line := "<" + a + ">: " + reason;
    OldLinePrints(a, reason);
    OldReason(a, reason);
    hide SkipSpace, AddressLength, SplitNameVal, Set, Field, Printable;
  }

  lemma OldLinePrints(a: string, reason: string)
    requires Field(a) && Field(reason)
    ensures var line := "<" + a + ">: " + reason;
            Printable(line) == line && line[0] == '<' && line[1..] == a + ">: " + reason
  {
    PrintableSame("<" + a + ">: " + reason);
  }

  lemma MarkedInside(a: string, tail: string)
    requires AddressLength(a).Some? && tail != "" && tail[0] == '>'
    ensures var n := AddressLength(a + tail);
            n.Some? && n.value + 3 <= |a| && SkipSpace((a + tail)[n.value + 2..]) != ""
  {
    hide SkipSpace, AddressLength;
    AddressLengthFits(a);
    MarkInside(a, tail);
    var n := AddressLength(a).value;
    var rest := (a + tail)[n + 2..];
    assert rest[|a| - n - 2] == '>';
    SkipSpaceKeeps(rest, '>');
  }

  lemma MarkedAtEnd(a: string, reason: string)
    requires AddressLength(a).None?
    ensures var rest := a + ">: " + reason;
            AddressLength(rest) == Some(|a|) && (reason == "" ==> SkipSpace(rest[|a| + 2..]) == "")
  {
    MarkAtEnd(a, reason);
    if reason == "" {
      assert (a + ">: " + reason)[|a| + 2..] == " ";
      assert SkipSpace(" ") == SkipSpace("") == "";
    }
  }

  lemma OldReason(a: string, reason: string)
    ensures var rest := a + ">: " + reason; var n := AddressLength(rest);
            && n.Some? && n.value + 3 <= |rest|
            && (reason == "" ==> (SkipSpace(rest[n.value + 2..]) == "" <==> AddressLength(a).None?))
  {
    hide SkipSpace, AddressLength;
    if AddressLength(a).None? {
      MarkedAtEnd(a, reason);
    } else {
      MarkedInside(a, ">: " + reason);
      assert a + (">: " + reason) == a + ">: " + reason;
    }
  }

  // ----- Entries survive being written and read -----

  function ApplyAll(e: Entry, lines: seq<string>): Entry
    decreases |lines|
  {
    if lines == [] then e
    else if lines[0] == "" then ApplyAll(e, lines[1..])
    else ApplyAll(Apply(e, lines[0]), lines[1..])
  }

  lemma {:induction false} ApplyConcat(e: Entry, a: seq<string>, b: seq<string>)
    ensures ApplyAll(e, a + b) == ApplyAll(ApplyAll(e, a), b)
    decreases |a|
  {
    if a == [] {
      assert a + b == b;
    } else {
      assert (a + b)[1..] == a[1..] + b;
      if a[0] == "" { ApplyConcat(e, a[1..], b); } else { ApplyConcat(Apply(e, a[0]), a[1..], b); }
    }
  }

  /** Values that the log format can hold. */
  predicate Writable(e: Entry, quote: string -> string) {
    && (e.address != "" ==> quote(e.address) != "" && Field(quote(e.address)))
    && (e.origAddr != "" ==> quote(e.origAddr) != "" && Field(quote(e.origAddr)))
    && Field(e.dsnOrcpt) && (e.notify == 0 || NotifyOk(e.notify))
    && Field(e.status) && Field(e.action) && Field(e.dtype) && Field(e.dtext)
    && Field(e.mtype) && Field(e.mname) && Field(e.reason)
  }

  /** What is kept of an entry: addresses are quoted, an original recipient that equals the
      recipient is dropped, and so are a diagnostic or a remote server without its type. */
  function Stored(e: Entry, quote: string -> string, same: (string, string) -> bool): Entry {
    var diag := e.dtype != "" && e.dtext != "";
    var mta := e.mtype != "" && e.mname != "";
    e.(address := if e.address == "" then "<>" else quote(e.address),
       origAddr := if e.origAddr == "" || same(e.address, e.origAddr) then "" else quote(e.origAddr),
       dtype := if diag then e.dtype else "", dtext := if diag then e.dtext else "",
       mtype := if mta then e.mtype else "", mname := if mta then e.mname else "")
  }

  /** One group of lines, behind others whose effect is known. */
  lemma Behind(from: Entry, lines: seq<string>, e: Entry, c: bool, name: string, value: string)
    requires ApplyAll(from, lines) == e && (c ==> IsName(name) && Field(value))
    ensures ApplyAll(from, lines + When(c, [Attr(name, value)])) == if c then Set(e, name, value) else e
  {
    hide Set;
    ApplyConcat(from, lines, When(c, [Attr(name, value)]));
    if c {
      ApplyAttr(e, name, value);
      assert ApplyAll(e, [Attr(name, value)]) == ApplyAll(Apply(e, Attr(name, value)), []);
    }
  }

  lemma BehindTwo(from: Entry, lines: seq<string>, e: Entry, c: bool, n1: string, v1: string, n2: string, v2: string)
    requires ApplyAll(from, lines) == e && (c ==> IsName(n1) && IsName(n2) && Field(v1) && Field(v2))
    ensures ApplyAll(from, lines + When(c, [Attr(n1, v1), Attr(n2, v2)])) == if c then Set(Set(e, n1, v1), n2, v2) else e
  {
    hide Set;
    if c {
      var l1 := lines + When(true, [Attr(n1, v1)]);
      Behind(from, lines, e, true, n1, v1);
      Behind(from, l1, Set(e, n1, v1), true, n2, v2);
      assert lines + [Attr(n1, v1), Attr(n2, v2)] == l1 + [Attr(n2, v2)];
    } else {
      assert lines + [] == lines;
    }
  }

  lemma RcptApplied(from: Entry, e: Entry, quote: string -> string, same: (string, string) -> bool)
    requires Writable(e, quote)
    requires from.origAddr == from.dsnOrcpt == "" && from.offset == from.notify == 0
    ensures var d := Stored(e, quote, same);
            ApplyAll(from, RcptLines(e, quote, same))
            == from.(address := d.address, origAddr := d.origAddr, offset := d.offset, dsnOrcpt := d.dsnOrcpt, notify := d.notify)
  {
    hide ApplyAll, When, Attr, IsName, Field, NotifyOk, Decimal, Atol;
    Names();
    DecimalField(e.offset);
    DecimalField(e.notify);
    AtolDecimal(e.offset);
    AtolDecimal(e.notify);
    NothingApplied(from);
    var a := if e.address == "" then "<>" else quote(e.address);
    AngleField();
    var o := e.origAddr != "" && !same(e.address, e.origAddr);
    var l1 := [] + When(true, [Attr(RECIP, a)]);
    Behind(from, [], from, true, RECIP, a);
    var e1 := Set(from, RECIP, a);
    var l2 := l1 + When(o, [Attr(ORCPT, quote(e.origAddr))]);
    Behind(from, l1, e1, o, ORCPT, quote(e.origAddr));
    var e2 := if o then Set(e1, ORCPT, quote(e.origAddr)) else e1;
    var l3 := l2 + When(e.offset > 0, [Attr(OFFSET, Decimal(e.offset))]);
    Behind(from, l2, e2, e.offset > 0, OFFSET, Decimal(e.offset));
    var e3 := if e.offset > 0 then Set(e2, OFFSET, Decimal(e.offset)) else e2;
    var l4 := l3 + When(e.dsnOrcpt != "", [Attr(DSN_ORCPT, e.dsnOrcpt)]);
    Behind(from, l3, e3, e.dsnOrcpt != "", DSN_ORCPT, e.dsnOrcpt);
    var e4 := if e.dsnOrcpt != "" then Set(e3, DSN_ORCPT, e.dsnOrcpt) else e3;
    Behind(from, l4, e4, e.notify != 0, DSN_NOTIFY, Decimal(e.notify));
  }

  lemma NothingApplied(e: Entry)
    ensures ApplyAll(e, []) == e
  {
  }

  lemma AngleField()
    ensures Field("<>")
  {
  }

  function StatusLines(e: Entry): seq<string> {
    [] + When(e.status != "", [Attr(STATUS, e.status)])
    + When(e.action != "", [Attr(ACTION, e.action)])
    + When(e.dtype != "" && e.dtext != "", [Attr(DTYPE, e.dtype), Attr(DTEXT, e.dtext)])
  }

  lemma StatusApplied(from: Entry, e: Entry, quote: string -> string, same: (string, string) -> bool)
    requires Writable(e, quote)
    requires from.status == from.action == from.dtype == from.dtext == ""
    ensures var d := Stored(e, quote, same);
            ApplyAll(from, StatusLines(e)) == from.(status := e.status, action := e.action, dtype := d.dtype, dtext := d.dtext)
  {
    hide ApplyAll, When, Attr, IsName, Field, Set;
    Names();
    NothingApplied(from);
    var diag := e.dtype != "" && e.dtext != "";
    var l1 := [] + When(e.status != "", [Attr(STATUS, e.status)]);
    Behind(from, [], from, e.status != "", STATUS, e.status);
    var e1 := if e.status != "" then Set(from, STATUS, e.status) else from;
    var l2 := l1 + When(e.action != "", [Attr(ACTION, e.action)]);
    Behind(from, l1, e1, e.action != "", ACTION, e.action);
    var e2 := if e.action != "" then Set(e1, ACTION, e.action) else e1;
    BehindTwo(from, l2, e2, diag, DTYPE, e.dtype, DTEXT, e.dtext);
    SetDsn(from, e.status);
    SetDsn(e1, e.action);
    SetDsn(e2, e.dtype);
    SetDsn(Set(e2, DTYPE, e.dtype), e.dtext);
  }

  lemma DsnApplied(from: Entry, e: Entry, quote: string -> string, same: (string, string) -> bool)
    requires Writable(e, quote)
    requires from.status == from.action == from.dtype == from.dtext == from.mtype == from.mname == ""
    ensures var d := Stored(e, quote, same);
            ApplyAll(from, DsnLines(e))
            == from.(status := e.status, action := e.action, dtype := d.dtype, dtext := d.dtext, mtype := d.mtype,
                     mname := d.mname, reason := if e.reason != "" then e.reason else from.reason)
  {
    hide ApplyAll, When, Attr, IsName, Field, Set;
    Names();
    StatusApplied(from, e, quote, same);
    var mta := e.mtype != "" && e.mname != "";
    var l3 := StatusLines(e);
    var e3 := ApplyAll(from, l3);
    var l4 := l3 + When(mta, [Attr(MTYPE, e.mtype), Attr(MNAME, e.mname)]);
    BehindTwo(from, l3, e3, mta, MTYPE, e.mtype, MNAME, e.mname);
    var e4 := if mta then Set(Set(e3, MTYPE, e.mtype), MNAME, e.mname) else e3;
    Behind(from, l4, e4, e.reason != "", WHY, e.reason);
    SetDsn(e3, e.mtype);
    SetDsn(Set(e3, MTYPE, e.mtype), e.mname);
    SetDsn(e4, e.reason);
  }

  lemma SetDsn(e: Entry, v: string)
    ensures Set(e, STATUS, v) == e.(status := v) && Set(e, ACTION, v) == e.(action := v)
    ensures Set(e, DTYPE, v) == e.(dtype := v) && Set(e, DTEXT, v) == e.(dtext := v)
    ensures Set(e, MTYPE, v) == e.(mtype := v) && Set(e, MNAME, v) == e.(mname := v)
    ensures Set(e, WHY, v) == e.(reason := v)
  {
  }

  /** The end-of-address mark of an old-style line is found too early. */
  predicate Misread(e: Entry, quote: string -> string, compat: bool) {
    compat && e.reason == "" && e.address != "" && AddressLength(quote(e.address)).Some?
  }

  /** The lines of an entry give it back, whether or not an old-style line comes first, unless
      that line is misread and no reason comes after it. */
  lemma EntryAppliedIff(e: Entry, quote: string -> string, same: (string, string) -> bool, compat: bool)
    requires Writable(e, quote)
    ensures ApplyAll(EMPTY, EntryLines(e, quote, same, compat)) == Stored(e, quote, same) <==> !Misread(e, quote, compat)
  {
    hide ApplyAll, RcptLines, DsnLines, Field, Apply;
    var before := When(compat, OldLines(e, quote));
    ApplyConcat(EMPTY, before + RcptLines(e, quote, same), DsnLines(e));
    ApplyConcat(EMPTY, before, RcptLines(e, quote, same));
    var x := ApplyAll(EMPTY, before);
    NothingApplied(EMPTY);
    if compat {
      var a := if e.address == "" then "" else quote(e.address);
      NoField();
      ApplyOld(EMPTY, a, e.reason);
      OneApplied(EMPTY, "<" + a + ">: " + e.reason);
    }
    RcptApplied(x, e, quote, same);
    DsnApplied(ApplyAll(x, RcptLines(e, quote, same)), e, quote, same);
  }

  /** What is taken for the reason then: the rest of the quoted address and its real end. */
  function Leftover(a: string): string
    requires AddressLength(a).Some?
  {
    AddressLengthFits(a);
    SkipSpace((a + ">: ")[AddressLength(a).value + 2..])
  }

  lemma ApplyMisread(e: Entry, a: string)
    requires Field(a) && AddressLength(a).Some?
    ensures Apply(e, "<" + a + ">: " + "") == e.(address := Apply(e, "<" + a + ">: " + "").address, reason := Leftover(a))
  {
    OldLinePrints(a, "");
    MarkInside(a, ">: ");
    AddressLengthFits(a);
    hide SkipSpace, AddressLength, SplitNameVal, Set, Field, Printable;
    assert a + ">: " + "" == a + ">: ";
  }

  /** An entry that is misread keeps everything but its reason. */
  lemma MisreadEntry(e: Entry, quote: string -> string, same: (string, string) -> bool)
    requires Writable(e, quote) && Misread(e, quote, true)
    ensures ApplyAll(EMPTY, EntryLines(e, quote, same, true))
         == Stored(e, quote, same).(reason := Leftover(quote(e.address)))
  {
    hide ApplyAll, RcptLines, DsnLines, Field, Apply, Leftover;
    var before, a := When(true, OldLines(e, quote)), quote(e.address);
    ApplyConcat(EMPTY, before + RcptLines(e, quote, same), DsnLines(e));
    ApplyConcat(EMPTY, before, RcptLines(e, quote, same));
    var x := ApplyAll(EMPTY, before);
    NoField();
    ApplyMisread(EMPTY, a);
    OneApplied(EMPTY, "<" + a + ">: " + "");
    RcptApplied(x, e, quote, same);
    DsnApplied(ApplyAll(x, RcptLines(e, quote, same)), e, quote, same);
  }

  /** The local part "a>: b" must be quoted, and is: the reader of the log returns a reason that
      nobody wrote. */
  lemma MisreadExample(quote: string -> string, same: (string, string) -> bool, compat: (string, string))
    requires quote("a>: b@x") == "\"a>: b\"@x"
    ensures var e := EMPTY.(address := "a>: b@x", status := "5.1.1", action := "failed");
            && Writable(e, quote)
            && ReadAll(Lines(EntryText(e, quote, same, true)), compat)
               == [e.(address := "\"a>: b\"@x", reason := "b\"@x>: ")]
  {
    var e, a := EMPTY.(address := "a>: b@x", status := "5.1.1", action := "failed"), "\"a>: b\"@x";
    ExampleText(a);
    NoField();
    MisreadEntry(e, quote, same);
    hide ReadAll, Lines, EntryText, EntryLines, ApplyAll, Leftover, AddressLength, Field;
    EntryRead(e, quote, same, true, compat, "");
    assert EntryText(e, quote, same, true) + "" == EntryText(e, quote, same, true);
    NothingRead(compat);
  }

  lemma ExampleText(a: string)
    requires a == "\"a>: b\"@x"
    ensures Field(a) && Field("5.1.1") && Field("failed")
    ensures AddressLength(a) == Some(2) && Leftover(a) == "b\"@x>: "
  {
    assert a[1..][1..][..3] == ">: ";
    assert AddressLength(a[1..][1..]) == Some(0);
    assert a[..3] == "\"a>" && a[1..][..3] == "a>:";
    ExampleLeftover(a);
  }

  lemma ExampleLeftover(a: string)
    requires a == "\"a>: b\"@x" && AddressLength(a) == Some(2)
    ensures Leftover(a) == "b\"@x>: "
  {
    hide AddressLength;
    var t := (a + ">: ")[4..];
    assert t == " b\"@x>: ";
    assert t[1..] == "b\"@x>: ";
    assert SkipSpace(t) == SkipSpace(t[1..]) == t[1..];
  }

  lemma NothingRead(compat: (string, string))
    ensures ReadAll(Lines(""), compat) == []
  {
  }

  lemma NoField()
    ensures Field("")
  {
  }

  lemma OneApplied(e: Entry, line: string)
    requires line != ""
    ensures ApplyAll(e, [line]) == Apply(e, line)
  {
    assert ApplyAll(e, [line]) == ApplyAll(Apply(e, line), []);
  }

  // ----- Whole logs -----

  predicate NoBlank(lines: seq<string>) { forall i :: 0 <= i < |lines| ==> lines[i] != "" }

  /** Lines of an entry are read until the blank line behind them, and not without it. */
  lemma {:induction false} ReadLines(lines: seq<string>, rest: seq<string>, found: bool, e: Entry, compat: (string, string))
    requires NoBlank(lines) && (found || lines != [])
    ensures ReadFrom(lines + [""] + rest, found, e, compat) == Got(Complete(ApplyAll(e, lines), compat), rest)
    ensures ReadFrom(lines, found, e, compat) == End
    decreases |lines|
  {
    hide Apply, Complete;
    var all := lines + [""] + rest;
    if lines == [] {
      assert all[1..] == rest;
    } else {
      assert all[1..] == lines[1..] + [""] + rest;
      ReadLines(lines[1..], rest, true, Apply(e, lines[0]), compat);
    }
  }

  lemma AttrLine(name: string, value: string)
    requires IsName(name) && Field(value)
    ensures '\n' !in Attr(name, value) && Attr(name, value) != ""
  {
    var s := Attr(name, value);
    forall i | 0 <= i < |s| ensures IsPrint(s[i]) { }
  }

  predicate Good(lines: seq<string>) { NoNewlines(lines) && NoBlank(lines) }

  lemma WhenGood(before: seq<string>, c: bool, name: string, value: string)
    requires Good(before) && (c ==> IsName(name) && Field(value))
    ensures Good(before + When(c, [Attr(name, value)]))
  {
    if c { AttrLine(name, value); }
  }

  lemma RcptGood(e: Entry, quote: string -> string, same: (string, string) -> bool)
    requires Writable(e, quote)
    ensures Good(RcptLines(e, quote, same)) && RcptLines(e, quote, same) != []
  {
    hide IsName, Field, Attr, NotifyOk, Decimal, Good;
    Names();
    DecimalField(e.offset);
    DecimalField(e.notify);
    AngleField();
    NoneGood();
    var a := if e.address == "" then "<>" else quote(e.address);
    var o := e.origAddr != "" && !same(e.address, e.origAddr);
    var l1 := [] + When(true, [Attr(RECIP, a)]);
    WhenGood([], true, RECIP, a);
    var l2 := l1 + When(o, [Attr(ORCPT, quote(e.origAddr))]);
    WhenGood(l1, o, ORCPT, quote(e.origAddr));
    var l3 := l2 + When(e.offset > 0, [Attr(OFFSET, Decimal(e.offset))]);
    WhenGood(l2, e.offset > 0, OFFSET, Decimal(e.offset));
    var l4 := l3 + When(e.dsnOrcpt != "", [Attr(DSN_ORCPT, e.dsnOrcpt)]);
    WhenGood(l3, e.dsnOrcpt != "", DSN_ORCPT, e.dsnOrcpt);
    WhenGood(l4, e.notify != 0, DSN_NOTIFY, Decimal(e.notify));
    assert l1 != [];
  }

  lemma NoneGood()
    ensures Good([])
  {
  }

  lemma DsnGood(e: Entry, quote: string -> string)
    requires Writable(e, quote)
    ensures Good(DsnLines(e))
  {
    hide IsName, Field, Attr, Good, When;
    Names();
    NoneGood();
    var diag, mta := e.dtype != "" && e.dtext != "", e.mtype != "" && e.mname != "";
    var l1 := [] + When(e.status != "", [Attr(STATUS, e.status)]);
    WhenGood([], e.status != "", STATUS, e.status);
    var l2 := l1 + When(e.action != "", [Attr(ACTION, e.action)]);
    WhenGood(l1, e.action != "", ACTION, e.action);
    var l3 := l2 + When(diag, [Attr(DTYPE, e.dtype), Attr(DTEXT, e.dtext)]);
    WhenGoodTwo(l2, diag, DTYPE, e.dtype, DTEXT, e.dtext);
    var l4 := l3 + When(mta, [Attr(MTYPE, e.mtype), Attr(MNAME, e.mname)]);
    WhenGoodTwo(l3, mta, MTYPE, e.mtype, MNAME, e.mname);
    WhenGood(l4, e.reason != "", WHY, e.reason);
  }

  lemma WhenGoodTwo(before: seq<string>, c: bool, n1: string, v1: string, n2: string, v2: string)
    requires Good(before) && (c ==> IsName(n1) && IsName(n2) && Field(v1) && Field(v2))
    ensures Good(before + When(c, [Attr(n1, v1), Attr(n2, v2)]))
  {
    if c { AttrLine(n1, v1); AttrLine(n2, v2); }
  }

  lemma EntryGood(e: Entry, quote: string -> string, same: (string, string) -> bool, compat: bool)
    requires Writable(e, quote)
    ensures Good(EntryLines(e, quote, same, compat)) && EntryLines(e, quote, same, compat) != []
  {
    hide Field, RcptLines, DsnLines;
    RcptGood(e, quote, same);
    DsnGood(e, quote);
    if compat { OldGood(e, quote); }
  }

  lemma OldGood(e: Entry, quote: string -> string)
    requires Writable(e, quote)
    ensures Good(OldLines(e, quote))
  {
    var a := if e.address == "" then "" else quote(e.address);
    var s := "<" + a + ">: " + e.reason;
    forall i | 0 <= i < |s| ensures s[i] != '\n' {
      if 1 <= i < |a| + 1 { assert s[i] == a[i - 1]; }
      if i >= |a| + 4 { assert s[i] == e.reason[i - |a| - 4]; }
    }
  }

  /** What is appended for one entry. */
  datatype Written = Written(entry: Entry, oldStyle: bool)

  predicate AllWritable(es: seq<Written>, quote: string -> string) {
    forall i :: 0 <= i < |es| ==> Writable(es[i].entry, quote) && !Misread(es[i].entry, quote, es[i].oldStyle)
  }

  function LogText(es: seq<Written>, quote: string -> string, same: (string, string) -> bool): string {
    if es == [] then "" else EntryText(es[0].entry, quote, same, es[0].oldStyle) + LogText(es[1..], quote, same)
  }

  function Shown(es: seq<Written>, quote: string -> string, same: (string, string) -> bool, compat: (string, string)): seq<Entry> {
    if es == [] then []
    else [Complete(Stored(es[0].entry, quote, same), compat)] + Shown(es[1..], quote, same, compat)
  }

  /** One entry is read as its lines say, whatever comes after it. */
  lemma EntryRead(e: Entry, quote: string -> string, same: (string, string) -> bool, oldStyle: bool,
                  compat: (string, string), tail: string)
    requires Writable(e, quote)
    ensures ReadAll(Lines(EntryText(e, quote, same, oldStyle) + tail), compat)
         == [Complete(ApplyAll(EMPTY, EntryLines(e, quote, same, oldStyle)), compat)] + ReadAll(Lines(tail), compat)
  {
    hide Lines, EntryLines, Complete, Writable, ApplyAll, Apply;
    var lines := EntryLines(e, quote, same, oldStyle);
    EntryGood(e, quote, same, oldStyle);
    var rest := Join(lines) + "\n" + tail;
    assert EntryText(e, quote, same, oldStyle) + tail == "" + "\n" + rest;
    LinesFirst("", rest);
    LinesOfJoin(lines, "\n" + tail);
    assert rest == Join(lines) + ("\n" + tail);
    LinesFirst("", tail);
    assert "" + "\n" + tail == "\n" + tail;
    var all := lines + [""] + Lines(tail);
    assert lines + ([""] + Lines(tail)) == all;
    ReadLines(lines, Lines(tail), false, EMPTY, compat);
    assert ([""] + all)[1..] == all;
    assert ReadFrom([""] + all, false, EMPTY, compat) == ReadFrom(all, false, EMPTY, compat);
  }

  lemma EntryRoundTrip(w: Written, quote: string -> string, same: (string, string) -> bool, compat: (string, string), tail: string)
    requires AllWritable([w], quote)
    ensures ReadAll(Lines(EntryText(w.entry, quote, same, w.oldStyle) + tail), compat)
         == [Complete(Stored(w.entry, quote, same), compat)] + ReadAll(Lines(tail), compat)
  {
    hide Lines, EntryLines, EntryText, Complete, Stored, Writable, Misread, ApplyAll, ReadAll;
    assert Writable([w][0].entry, quote) && !Misread([w][0].entry, quote, [w][0].oldStyle);
    EntryRead(w.entry, quote, same, w.oldStyle, compat, tail);
    EntryAppliedIff(w.entry, quote, same, w.oldStyle);
  }

  /** An entry that was not written to its end is not returned. */
  lemma CutOffEntry(w: Written, k: nat, quote: string -> string, same: (string, string) -> bool, compat: (string, string))
    requires AllWritable([w], quote) && k < |EntryText(w.entry, quote, same, w.oldStyle)|
    ensures ReadAll(Lines(EntryText(w.entry, quote, same, w.oldStyle)[..k]), compat) == []
  {
    hide EntryLines, Complete, Writable, Lines, Apply;
    assert Writable([w][0].entry, quote) && !Misread([w][0].entry, quote, [w][0].oldStyle);
    var lines := EntryLines(w.entry, quote, same, w.oldStyle);
    EntryGood(w.entry, quote, same, w.oldStyle);
    var text := EntryText(w.entry, quote, same, w.oldStyle);
    if k == 0 {
      LinesNone("", 0);
      assert text[..0] == ""[0..] == "";
    } else {
      var part := Join(lines)[..k - 1];
      assert text[..k] == "" + "\n" + part;
      LinesFirst("", part);
      CutOffLines(lines, k - 1);
      if Lines(part) != [] { ReadLines(Lines(part), [], false, EMPTY, compat); }
      assert ([""] + Lines(part))[1..] == Lines(part);
    }
  }

  lemma {:induction false} CutOffLines(lines: seq<string>, k: nat)
    requires Good(lines) && k <= |Join(lines)|
    ensures NoBlank(Lines(Join(lines)[..k]))
    decreases |lines|
  {
    hide Lines;
    var s := Join(lines)[..k];
    if lines == [] {
      NoLines(s);
    } else {
      var n := |lines[0]|;
      if k <= n {
        assert s == lines[0][..k];
        if s != "" { WholeLine(s); } else { NoLines(s); }
      } else {
        assert s == lines[0] + "\n" + Join(lines[1..])[..k - n - 1];
        LinesFirst(lines[0], Join(lines[1..])[..k - n - 1]);
        CutOffLines(lines[1..], k - n - 1);
      }
    }
  }

  lemma NoLines(s: string)
    requires s == ""
    ensures Lines(s) == []
  {
  }

  lemma {:induction false} WholeLine(s: string)
    requires s != "" && '\n' !in s
    ensures LineLength(s) == |s| && Lines(s) == [s]
  {
    if s[1..] != "" { WholeLine(s[1..]); }
    assert s[..|s|] == s;
  }

  /** Reading a log until nothing is returned gives the entries that were appended, in order; a
      last entry that was cut off at any point is not returned. */
  lemma {:induction false} LogRoundTrip(es: seq<Written>, w: Written, k: nat, quote: string -> string,
                                        same: (string, string) -> bool, compat: (string, string))
    requires AllWritable(es, quote) && AllWritable([w], quote) && k < |EntryText(w.entry, quote, same, w.oldStyle)|
    ensures ReadAll(Lines(LogText(es, quote, same) + EntryText(w.entry, quote, same, w.oldStyle)[..k]), compat)
         == Shown(es, quote, same, compat)
    decreases |es|
  {
    hide Lines, EntryText, Complete, Stored, Writable, Misread, ReadAll;
    var part := EntryText(w.entry, quote, same, w.oldStyle)[..k];
    if es == [] {
      CutOffEntry(w, k, quote, same, compat);
      assert LogText(es, quote, same) + part == part;
    } else {
      var tail := LogText(es[1..], quote, same) + part;
      assert LogText(es, quote, same) + part == EntryText(es[0].entry, quote, same, es[0].oldStyle) + tail;
      assert AllWritable([es[0]], quote);
      EntryRoundTrip(es[0], quote, same, compat, tail);
      LogRoundTrip(es[1..], w, k, quote, same, compat);
    }
  }

  // ----- What single lines and old entries say -----

  lemma AttrText(name: string, value: string)
    ensures Attr(name, value) == name + "=" + value
  {
  }

  /** The attribute names of a log file, and what they set. */
  lemma AttributesAre(e: Entry, v: string, n: nat)
    requires Field(v) && (n == 1 || n in {2, 4, 6, 8, 10, 12, 14})
    ensures v != "" ==> Apply(e, "recipient" + "=" + v) == e.(address := v)
    ensures v != "" ==> Apply(e, "original_recipient" + "=" + v) == e.(origAddr := v)
    ensures Apply(e, "dsn_orig_rcpt" + "=" + v) == e.(dsnOrcpt := v)
    ensures Apply(e, "status" + "=" + v) == e.(status := v)
    ensures Apply(e, "action" + "=" + v) == e.(action := v)
    ensures Apply(e, "diag_type" + "=" + v) == e.(dtype := v) && Apply(e, "diag_text" + "=" + v) == e.(dtext := v)
    ensures Apply(e, "mta_type" + "=" + v) == e.(mtype := v) && Apply(e, "mta_mname" + "=" + v) == e.(mname := v)
    ensures Apply(e, "reason" + "=" + v) == e.(reason := v)
    ensures Apply(e, "notify_flags" + "=" + Decimal(n)) == e.(notify := n)
    ensures Apply(e, "offset" + "=" + Decimal(n)) == e.(offset := n)
  {
    hide Apply, Attr, Field, IsName, Decimal, Atol;
    Names();
    DecimalField(n);
    AtolDecimal(n);
    forall name | name in {RECIP, ORCPT, DSN_ORCPT, STATUS, ACTION, DTYPE, DTEXT, MTYPE, MNAME, WHY}
      ensures name + "=" + v != "" && Apply(e, name + "=" + v) == Set(e, name, v)
    {
      AttrText(name, v);
      ApplyAttr(e, name, v);
    }
    forall name | name in {DSN_NOTIFY, OFFSET}
      ensures name + "=" + Decimal(n) != "" && Apply(e, name + "=" + Decimal(n)) == Set(e, name, Decimal(n))
    {
      AttrText(name, Decimal(n));
      ApplyAttr(e, name, Decimal(n));
    }
    SetDsn(e, v);
  }

  /** The mark that ends an address is not part of it. */
  predicate NoMark(a: string) { forall i :: 0 <= i < |a| - 2 ==> !(a[i] == '>' && a[i + 1] == ':' && a[i + 2] == ' ') }

  lemma {:induction false} NoMarkIff(a: string)
    ensures NoMark(a) <==> AddressLength(a).None?
  {
    if |a| >= 3 {
      NoMarkIff(a[1..]);
      assert a[..3] == ">: " <==> a[0] == '>' && a[1] == ':' && a[2] == ' ';
      assert forall i :: 0 <= i < |a| - 1 ==> a[1..][i] == a[i + 1];
      if NoMark(a[1..]) && a[..3] != ">: " {
        forall i | 0 <= i < |a| - 2 ensures !(a[i] == '>' && a[i + 1] == ':' && a[i + 2] == ' ') {
          if i > 0 { assert a[1..][i - 1] == a[i]; }
        }
      }
    }
  }

  /** An old-style line gives address and reason. */
  lemma OldLineSays(e: Entry, a: string, reason: string)
    requires Field(a) && Field(reason) && NoMark(a)
    ensures var line := "<" + a + ">: " + reason;
            line != "" && Apply(e, line) == e.(address := if a == "" then "(MAILER-DAEMON)" else a, reason := reason)
  {
    var rest := a + ">: " + reason;
    NoMarkIff(a);
    OldLinePrints(a, reason);
    MarkAtEnd(a, reason);
    AddressLengthFits(rest);
    ReasonFound(a, reason);
    hide SkipSpace, AddressLength, SplitNameVal, Set, Field, Printable;
  }

  lemma ReasonFound(a: string, reason: string)
    requires Field(reason)
    ensures var rest := a + ">: " + reason; rest[..|a|] == a && SkipSpace(rest[|a| + 2..]) == reason
  {
    var t := " " + reason;
    assert (a + ">: " + reason)[|a| + 2..] == t;
    assert t[1..] == reason;
    assert SkipSpace(t) == SkipSpace(reason);
  }

  /** An entry with only an old-style line is read with the status and action that the file stands for
      (4.0.0 and delayed in a file of deferred mail, else 5.0.0 and failed). */
  lemma OldEntryReads(a: string, reason: string, compat: (string, string))
    requires Field(a) && Field(reason) && NoMark(a)
    ensures ReadAll(Lines("\n" + ("<" + a + ">: " + reason) + "\n\n"), compat)
         == [Entry(if a == "" then "(MAILER-DAEMON)" else a, "", "", 0, 0,
                   compat.0, compat.1, "", "", "", "",
                   if reason == "" then "(description unavailable)" else reason)]
  {
    var line := "<" + a + ">: " + reason;
    OldLineSays(EMPTY, a, reason);
    LineHasNoNewline(a, reason);
    hide ReadAll, Lines, Apply, ApplyAll, Field, NoMark;
    OneEntry(line, compat);
    OneApplied(EMPTY, line);
  }

  lemma LineHasNoNewline(a: string, reason: string)
    requires Field(a) && Field(reason)
    ensures '\n' !in "<" + a + ">: " + reason
  {
    var s := "<" + a + ">: " + reason;
    forall i | 0 <= i < |s| ensures s[i] != '\n' {
      if 1 <= i < |a| + 1 { assert s[i] == a[i - 1]; }
      if i >= |a| + 4 { assert s[i] == reason[i - |a| - 4]; }
    }
  }

  /** A file with one line between blank lines. */
  lemma OneEntry(line: string, compat: (string, string))
    requires line != "" && '\n' !in line
    ensures ReadAll(Lines("\n" + line + "\n\n"), compat) == [Complete(ApplyAll(EMPTY, [line]), compat)]
  {
    hide Lines, Complete, Apply, ApplyAll;
    var text := "\n" + line + "\n\n";
    assert text == "" + "\n" + (line + "\n" + "\n");
    LinesFirst("", line + "\n" + "\n");
    LinesFirst(line, "\n");
    assert "\n" == "" + "\n" + "";
    LinesFirst("", "");
    NoLines("");
    var all := [line] + [""] + [];
    assert Lines(text) == [""] + all;
    ReadLines([line], [], false, EMPTY, compat);
    assert ([""] + all)[1..] == all;
    assert ReadFrom([""] + all, false, EMPTY, compat) == ReadFrom(all, false, EMPTY, compat);
    assert ReadAll([], compat) == [];
  }

  /** An entry that names no recipient gets a place holder. */
  lemma NoAddressReads(reason: string, compat: (string, string))
    requires Field(reason) && reason != ""
    ensures ReadAll(Lines("\n" + ("reason" + "=" + reason) + "\n\n"), compat)
         == [Entry("(recipient address unavailable)", "", "", 0, 0, compat.0, compat.1, "", "", "", "", reason)]
  {
    var line := "reason" + "=" + reason;
    AttributesAre(EMPTY, reason, 1);
    Names();
    AttrLine(WHY, reason);
    AttrText(WHY, reason);
    OneEntry(line, compat);
    OneApplied(EMPTY, line);
    hide ReadAll, Lines, Apply, ApplyAll, Field, Attr;
  }
}
