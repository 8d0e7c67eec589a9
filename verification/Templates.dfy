/** Query and result templates of network dictionaries (src/global/db_common.c): validation when
    the configuration is read, and expansion for every lookup. */
module Templates {
  import opened Addresses

  datatype Option<+T> = None | Some(value: T)

  /** What a template is for. */
  datatype Mode = Query | Result

  // ----- Templates -----

  datatype Token = Plain(c: char) | Conv(c: char)

  predicate IsLabel(c: char) { '1' <= c <= '9' }

  predicate IsConv(c: char) {
    c == '%' || c == 'u' || c == 'd' || c == 's' || c == 'S' || c == 'U' || c == 'D' || IsLabel(c)
  }

  /** A percent sign must be followed by a known letter. */
  function Tokens(format: string): Option<seq<Token>> {
    if format == "" then Some([])
    else if format[0] != '%' then Prepend(Plain(format[0]), Tokens(format[1..]))
    else if |format| == 1 || !IsConv(format[1]) then None
    else Prepend(Conv(format[1]), Tokens(format[2..]))
  }

  function Prepend(t: Token, ts: Option<seq<Token>>): Option<seq<Token>> {
    if ts.None? then None else Some([t] + ts.value)
  }

  // ----- The text that a template stands for -----

  /** The part before the last '@', or everything. */
  function User(s: string): string { if LastAt(s) < 0 then s else s[..LastAt(s)] }

  function Domain(s: string): string { s[LastAt(s) + 1..] }

  predicate HasDomain(s: string) { LastAt(s) >= 0 && Domain(s) != "" }

  function LabelLength(s: string): (n: nat)
    ensures n <= |s|
  {
    if s == "" || s[0] == '.' then 0 else 1 + LabelLength(s[1..])
  }

  /** argv_split() on dots: empty labels are skipped. */
  function Labels(s: string): (r: seq<string>)
    ensures forall i :: 0 <= i < |r| ==> r[i] != ""
  {
    if s == "" then []
    else if s[0] == '.' then Labels(s[1..])
    else [s[..LabelLength(s)]] + Labels(s[LabelLength(s)..])
  }

  /** An input value, and for a result the key that was looked up. */
  datatype Input = Input(value: string, key: Option<string>)

  /** The address that uppercase conversions and labels refer to. */
  function Subject(x: Input): string { if x.key.Some? then x.key.value else x.value }

  function Number(c: char): nat
    requires IsLabel(c)
  {
    c as nat - '0' as nat
  }

  /** Labels are numbered from the right. */
  function Label(x: Input, n: nat): string {
    var ls := Labels(Domain(Subject(x)));
    if 1 <= n <= |ls| then ls[|ls| - n] else ""
  }

  function Text(t: Token, x: Input, quote: string -> string): string {
    match t
    case Plain(c) => [c]
    case Conv(c) =>
      if c == '%' then "%"
      else if c == 's' then quote(x.value)
      else if c == 'u' then quote(User(x.value))
      else if c == 'd' then quote(Domain(x.value))
      else if c == 'S' then quote(Subject(x))
      else if c == 'U' then quote(User(Subject(x)))
      else if c == 'D' then quote(Domain(Subject(x)))
      else if IsLabel(c) then quote(Label(x, Number(c)))
      else ""
  }

  function Subst(ts: seq<Token>, x: Input, quote: string -> string): string {
    if ts == [] then "" else Text(ts[0], x, quote) + Subst(ts[1..], x, quote)
  }

  // ----- What a template needs from its input -----

  datatype Flags = Flags(keyDomain: bool, keyUser: bool, valueDomain: bool, valueUser: bool, keyPartial: bool)

  const NO_FLAGS := Flags(false, false, false, false, false)

  function Join(a: Flags, b: Flags): Flags {
    Flags(a.keyDomain || b.keyDomain, a.keyUser || b.keyUser, a.valueDomain || b.valueDomain,
          a.valueUser || b.valueUser, a.keyPartial || b.keyPartial)
  }

  function Need(t: Token, mode: Mode): Flags {
    if t.Plain? || t.c == '%' || t.c == 's' || t.c == 'S' then NO_FLAGS
    else if t.c == 'u' then if mode.Query? then NO_FLAGS.(keyUser := true, keyPartial := true) else NO_FLAGS.(valueUser := true)
    else if t.c == 'd' then if mode.Query? then NO_FLAGS.(keyDomain := true, keyPartial := true) else NO_FLAGS.(valueDomain := true)
    else if t.c == 'U' then NO_FLAGS.(keyUser := true, keyPartial := true)
    else NO_FLAGS.(keyDomain := true, keyPartial := true)
  }

  function Needs(ts: seq<Token>, mode: Mode): Flags {
    if ts == [] then NO_FLAGS else Join(Need(ts[0], mode), Needs(ts[1..], mode))
  }

  function Parts(ts: seq<Token>): nat {
    if ts == [] then 0 else
      var n := if ts[0].Conv? && IsLabel(ts[0].c) then Number(ts[0].c) else 0;
      if n > Parts(ts[1..]) then n else Parts(ts[1..])
  }

  predicate Dynamic(ts: seq<Token>) { exists i :: 0 <= i < |ts| && ts[i].Conv? && ts[i].c != '%' }

  /** The address has a non-empty domain part, and a user part that is not empty, where needed. */
  predicate Holds(s: string, domain: bool, user: bool) {
    (domain ==> HasDomain(s)) && (user ==> LastAt(s) != 0)
  }

  /** The input has what some template that was accepted needs; other inputs are skipped. */
  predicate Suits(flags: Flags, nparts: nat, x: Input) {
    && x.value != ""
    && (x.key.Some? ==> Holds(x.value, flags.valueDomain, flags.valueUser))
    && Holds(Subject(x), flags.keyDomain, flags.keyUser)
    && nparts <= |Labels(Domain(Subject(x)))|
  }

  /** The context asks for all that this template needs. */
  predicate Covers(flags: Flags, nparts: nat, ts: seq<Token>, mode: Mode) {
    Within(Needs(ts, mode), flags) && Parts(ts) <= nparts
  }

  predicate Within(a: Flags, b: Flags) {
    && (a.keyDomain ==> b.keyDomain) && (a.keyUser ==> b.keyUser)
    && (a.valueDomain ==> b.valueDomain) && (a.valueUser ==> b.valueUser) && (a.keyPartial ==> b.keyPartial)
  }

  // ----- Templates one token at a time -----

  function After(done: seq<Token>, rest: Option<seq<Token>>): Option<seq<Token>> {
    if rest.None? then None else Some(done + rest.value)
  }

  lemma AfterNone(rest: Option<seq<Token>>)
    ensures After([], rest) == rest
  {
    if rest.Some? { assert [] + rest.value == rest.value; }
  }

  predicate ConvDynamic(t: Token) { t.Conv? && t.c != '%' }

  lemma NoTokens(mode: Mode)
    ensures Needs([], mode) == NO_FLAGS && Parts([]) == 0 && !Dynamic([])
  {
  }

  lemma TokensAt(format: string, i: nat)
    requires i <= |format|
    ensures Tokens(format[i..]) ==
              if i == |format| then Some([])
              else if format[i] != '%' then Prepend(Plain(format[i]), Tokens(format[i + 1..]))
              else if i + 1 == |format| || !IsConv(format[i + 1]) then None
              else Prepend(Conv(format[i + 1]), Tokens(format[i + 2..]))
  {
    hide IsConv;
    if i < |format| {
      assert format[i..][1..] == format[i + 1..];
      if i + 1 < |format| { assert format[i..][2..] == format[i + 2..]; }
    }
  }

  lemma {:induction false} NeedsNext(ts: seq<Token>, t: Token, mode: Mode)
    ensures Needs(ts + [t], mode) == Join(Needs(ts, mode), Need(t, mode))
  {
    hide Need;
    if ts == [] {
      assert (ts + [t])[1..] == [];
    } else {
      assert (ts + [t])[1..] == ts[1..] + [t];
      NeedsNext(ts[1..], t, mode);
    }
  }

  lemma {:induction false} PartsNext(ts: seq<Token>, t: Token)
    ensures Parts(ts + [t]) == var n := Parts([t]); if n > Parts(ts) then n else Parts(ts)
  {
    if ts == [] {
      assert ts + [t] == [t];
    } else {
      assert (ts + [t])[1..] == ts[1..] + [t];
      PartsNext(ts[1..], t);
    }
  }

  lemma PartsOne(t: Token)
    ensures Parts([t]) == if t.Conv? && IsLabel(t.c) then Number(t.c) else 0
  {
    assert Parts([t][1..]) == 0;
  }

  lemma AfterNext(done: seq<Token>, t: Token, rest: Option<seq<Token>>)
    ensures After(done, Prepend(t, rest)) == After(done + [t], rest)
  {
    if rest.Some? { assert done + ([t] + rest.value) == done + [t] + rest.value; }
  }

  lemma TokenDone(done: seq<Token>, t: Token, rest: Option<seq<Token>>, mode: Mode)
    ensures After(done, Prepend(t, rest)) == After(done + [t], rest)
    ensures Needs(done + [t], mode) == Join(Needs(done, mode), Need(t, mode))
    ensures Parts(done + [t]) == var n := if t.Conv? && IsLabel(t.c) then Number(t.c) else 0; if n > Parts(done) then n else Parts(done)
    ensures Dynamic(done + [t]) == (Dynamic(done) || ConvDynamic(t))
  {
    hide Needs, Need, Parts;
    NeedsNext(done, t, mode);
    PartsNext(done, t);
    PartsOne(t);
    AfterNext(done, t, rest);
    DynamicNext(done, t);
  }

  lemma DynamicNext(ts: seq<Token>, t: Token)
    ensures Dynamic(ts + [t]) == (Dynamic(ts) || ConvDynamic(t))
  {
    var s := ts + [t];
    if i :| 0 <= i < |ts| && ts[i].Conv? && ts[i].c != '%' { assert s[i] == ts[i]; }
    if ConvDynamic(t) { assert s[|ts|] == t; }
  }

  // ----- The context -----

  class Context {
    var flags: Flags
    var nparts: nat

    predicate Valid()
      reads this
    {
      nparts > 0 ==> flags.keyDomain
    }

    constructor ()
      ensures Valid() && flags == NO_FLAGS && nparts == 0
    {
      flags, nparts := NO_FLAGS, 0;
    }

    /** db_common_parse.  A template that is not accepted is a fatal error. */
    method Parse(format: string, mode: Mode) returns (ok: bool, dynamic: bool)
      requires Valid()
      modifies this
      ensures Valid() && ok == Tokens(format).Some?
      ensures ok ==>
        var ts := Tokens(format).value;
        && flags == Join(old(flags), Needs(ts, mode))
        && nparts == (if Parts(ts) > old(nparts) then Parts(ts) else old(nparts))
        && dynamic == Dynamic(ts)
    {
      hide Tokens, Parts, Needs, Dynamic;
      dynamic := false;
      NoTokens(mode);
      assert format[0..] == format;
      AfterNone(Tokens(format));
      var i := 0;
      ghost var done: seq<Token> := [];
      while i < |format|
        invariant i <= |format| && Valid()
        invariant Tokens(format) == After(done, Tokens(format[i..]))
        invariant flags == Join(old(flags), Needs(done, mode))
        invariant nparts == if Parts(done) > old(nparts) then Parts(done) else old(nparts)
        invariant dynamic == Dynamic(done)
      {
        TokensAt(format, i);
        if format[i] != '%' {
          TokenDone(done, Plain(format[i]), Tokens(format[i + 1..]), mode);
          done := done + [Plain(format[i])];
          i := i + 1;
        } else if i + 1 == |format| {
          return false, dynamic;
        } else {
          var c := format[i + 1];
          var known := Conversion(c, mode);
          if !known { return false, dynamic; }
          dynamic := dynamic || c != '%';
          TokenDone(done, Conv(c), Tokens(format[i + 2..]), mode);
          done := done + [Conv(c)];
          i := i + 2;
        }
      }
      TokensAt(format, i);
      assert done + [] == done;
      ok := true;
    }

    /** What the context keeps of one conversion. */
    method Conversion(c: char, mode: Mode) returns (known: bool)
      requires Valid()
      modifies this
      ensures Valid() && known == IsConv(c)
      ensures known ==> flags == Join(old(flags), Need(Conv(c), mode))
      ensures known ==> nparts == if IsLabel(c) && Number(c) > old(nparts) then Number(c) else old(nparts)
    {
      known := true;
      match c
      case '%' =>
      case 's' =>
      case 'S' =>
      case 'u' =>
        if mode.Query? { flags := flags.(keyUser := true, keyPartial := true); } else { flags := flags.(valueUser := true); }
      case 'd' =>
        if mode.Query? { flags := flags.(keyDomain := true, keyPartial := true); } else { flags := flags.(valueDomain := true); }
      case 'U' =>
        flags := flags.(keyPartial := true, keyUser := true);
      case _ =>
        if !IsLabel(c) && c != 'D' { return false; }
        if IsLabel(c) && nparts < Number(c) { nparts := Number(c); }
        flags := flags.(keyPartial := true, keyDomain := true);
    }
  
    /** Whether the input is skipped, and the user and domain parts that expansion will use. */
    method Split(x: Input) returns (ok: bool, vdomain: Option<nat>, kdomain: Option<nat>)
      requires Valid()
      ensures ok <==> Suits(flags, nparts, x)
      ensures ok ==> vdomain == At(x.value, if x.key.Some? then flags.valueDomain || flags.valueUser else flags.keyDomain || flags.keyUser)
      ensures ok && x.key.Some? ==> kdomain == At(x.key.value, flags.keyDomain || flags.keyUser)
    {
      hide Holds;
      vdomain, kdomain := None, None;
      if x.value == "" { return false, vdomain, kdomain; }
      if x.key.Some? {
        ok, vdomain := Part(x.value, flags.valueDomain, flags.valueUser);
        if !ok { return; }
        ok, kdomain := Part(x.key.value, flags.keyDomain, flags.keyUser);
        if !ok { return; }
      } else {
        ok, vdomain := Part(x.value, flags.keyDomain, flags.keyUser);
        if !ok { return; }
      }
      if nparts > 0 {
        DomainHeld(Subject(x), flags.keyUser);
        var domain := if x.key.Some? then x.key.value[kdomain.value..] else x.value[vdomain.value..];
        // Labels are never empty, so that there is no need to look for empty ones.
        ok := nparts <= |Labels(domain)|;
      }
    }

    /** db_common_expand.  A template that was accepted in this mode never leads to a panic or to
        a fatal error, for any input.  Unsuitable inputs leave the result alone. */
    method Expand(format: string, x: Input, quote: string -> string, start: string) returns (ok: bool, result: string)
      requires Valid() && Tokens(format).Some?
      requires Covers(flags, nparts, Tokens(format).value, if x.key.Some? then Result else Query)
      ensures ok <==> Suits(flags, nparts, x)
      ensures !ok ==> result == start
      ensures ok ==> result == start + (if start != "" then "," else "") + Subst(Tokens(format).value, x, quote)
    {
      hide Tokens, Text, Suits, Covers;
      ghost var mode := if x.key.Some? then Result else Query;
      ghost var ts := Tokens(format).value;
      result := start;
      var vdomain, kdomain;
      ok, vdomain, kdomain := Split(x);
      if !ok { return; }
      if result != "" { result := result + ","; }
      ghost var before := result;
      assert format[0..] == format;
      AfterNone(Tokens(format));
      var i := 0;
      ghost var done: seq<Token> := [];
      while i < |format|
        invariant i <= |format|
        invariant Tokens(format) == After(done, Tokens(format[i..]))
        invariant result == before + Subst(done, x, quote)
      {
        TokensAt(format, i);
        ghost var t := if format[i] == '%' then Conv(format[i + 1]) else Plain(format[i]);
        AfterNext(done, t, Tokens(format[if format[i] == '%' then i + 2 else i + 1..]));
        NextToken(flags, nparts, ts, mode, done, t);
        SubstNext(done, t, x, quote);
        if format[i] == '%' {
          var text := Convert(format[i + 1], x, vdomain, kdomain, quote);
          result := result + text;
          i := i + 2;
        } else {
          TextPlain(format[i], x, quote);
          result := result + [format[i]];
          i := i + 1;
        }
        done := done + [t];
      }
      TokensAt(format, i);
      assert done + [] == done;
    }

    /** The text of one conversion. */
    method Convert(c: char, x: Input, vdomain: Option<nat>, kdomain: Option<nat>, quote: string -> string) returns (text: string)
      requires Valid() && Suits(flags, nparts, x) && IsConv(c)
      requires CoversOne(flags, nparts, Conv(c), if x.key.Some? then Result else Query)
      requires vdomain == At(x.value, if x.key.Some? then flags.valueDomain || flags.valueUser else flags.keyDomain || flags.keyUser)
      requires x.key.Some? ==> kdomain == At(x.key.value, flags.keyDomain || flags.keyUser)
      ensures text == Text(Conv(c), x, quote)
    {
      hide Suits, CoversOne, LastAt, Labels;
      ConvertReady(flags, nparts, c, x);
      var domain := if x.key.Some? then kdomain else vdomain;
      match c
      case '%' => text := "%";
      case 's' => text := quote(x.value);
      case 'u' => text := quote(if vdomain.Some? then x.value[..vdomain.value - 1] else x.value);
      case 'd' =>
        if !(if x.key.Some? then flags.valueDomain else flags.keyDomain) { assert false; }   // msg_panic
        if vdomain.None? { assert false; }                                                 // msg_panic
        text := quote(x.value[vdomain.value..]);
      case 'S' => text := quote(if x.key.Some? then x.key.value else x.value);
      case 'U' =>
        var subject := if x.key.Some? then x.key.value else x.value;
        text := quote(if domain.Some? then subject[..domain.value - 1] else subject);
      case _ =>
        var subject := if x.key.Some? then x.key.value else x.value;
        if !flags.keyDomain { assert false; }   // msg_panic
        if domain.None? { assert false; }       // msg_panic
        if c == 'D' {
          text := quote(subject[domain.value..]);
        } else if IsLabel(c) {
          if nparts < Number(c) { assert false; }      // msg_panic
          var parts := Labels(subject[domain.value..]);
          if |parts| < nparts { assert false; }        // msg_panic
          text := quote(parts[|parts| - Number(c)]);
        } else {
          assert false;                                // msg_fatal
        }
    }
  }

  // ----- Expansion one token at a time -----

  /** strrchr() for '@', and the position after it, if that is wanted. */
  function At(s: string, wanted: bool): Option<nat> {
    if wanted && LastAt(s) >= 0 then Some(LastAt(s) + 1) else None
  }

  lemma DomainHeld(s: string, user: bool)
    requires Holds(s, true, user)
    ensures At(s, true).Some? && s[At(s, true).value..] == Domain(s)
  {
  }

  /** Finds the domain part if it is wanted; an address that has no user part or no domain part
      is not suitable where that part is needed. */
  method Part(s: string, domain: bool, user: bool) returns (ok: bool, at: Option<nat>)
    ensures ok <==> Holds(s, domain, user)
    ensures at == At(s, domain || user)
  {
    at := None;
    if domain || user { at := StrRChr(s); }
    ok := !((at.None? || at.value == |s|) && domain) && !(at == Some(1) && user);
  }

  method StrRChr(s: string) returns (n: Option<nat>)
    ensures n == At(s, true)
  {
    var i: nat := |s|;
    assert s[..i] == s;
    while i > 0
      invariant i <= |s| && LastAt(s) == LastAt(s[..i])
    {
      assert s[..i][..i - 1] == s[..i - 1];
      if s[i - 1] == '@' { return Some(i); }
      i := i - 1;
    }
    n := None;
  }

  predicate CoversOne(flags: Flags, nparts: nat, t: Token, mode: Mode) {
    Within(Need(t, mode), flags) && (t.Conv? && IsLabel(t.c) ==> Number(t.c) <= nparts)
  }

  /** What a conversion uses was found in the input. */
  lemma ConvertReady(flags: Flags, nparts: nat, c: char, x: Input)
    requires Suits(flags, nparts, x) && IsConv(c)
    requires CoversOne(flags, nparts, Conv(c), if x.key.Some? then Result else Query)
    ensures c == 'u' ==> if x.key.Some? then flags.valueUser else flags.keyUser
    ensures c == 'U' ==> flags.keyUser
    ensures c == 'd' ==> LastAt(x.value) >= 0 && if x.key.Some? then flags.valueDomain else flags.keyDomain
    ensures c == 'D' || IsLabel(c) ==> LastAt(Subject(x)) >= 0 && flags.keyDomain
    ensures IsLabel(c) ==> Number(c) <= nparts <= |Labels(Domain(Subject(x)))|
  {
    hide Suits, Need;
    NeedOf(c, if x.key.Some? then Result else Query);
    SuitsMeans(flags, nparts, x);
  }

  lemma NeedOf(c: char, mode: Mode)
    ensures c == 'u' ==> if mode.Result? then Need(Conv(c), mode).valueUser else Need(Conv(c), mode).keyUser
    ensures c == 'U' ==> Need(Conv(c), mode).keyUser
    ensures c == 'd' ==> if mode.Result? then Need(Conv(c), mode).valueDomain else Need(Conv(c), mode).keyDomain
    ensures c == 'D' || IsLabel(c) ==> Need(Conv(c), mode).keyDomain
  {
  }

  lemma SuitsMeans(flags: Flags, nparts: nat, x: Input)
    requires Suits(flags, nparts, x)
    ensures (if x.key.Some? then flags.valueDomain else flags.keyDomain) ==> LastAt(x.value) >= 0
    ensures flags.keyDomain ==> LastAt(Subject(x)) >= 0
    ensures nparts <= |Labels(Domain(Subject(x)))|
  {
  }

  lemma {:induction false} CoversEach(flags: Flags, nparts: nat, ts: seq<Token>, mode: Mode, i: nat)
    requires Covers(flags, nparts, ts, mode) && i < |ts|
    ensures CoversOne(flags, nparts, ts[i], mode)
  {
    hide Need;
    if i > 0 { CoversEach(flags, nparts, ts[1..], mode, i - 1); }
  }

  lemma NextToken(flags: Flags, nparts: nat, ts: seq<Token>, mode: Mode, done: seq<Token>, t: Token)
    requires Covers(flags, nparts, ts, mode) && |done| < |ts| && ts[|done|] == t
    ensures CoversOne(flags, nparts, t, mode)
  {
    CoversEach(flags, nparts, ts, mode, |done|);
  }

  lemma {:induction false} SubstNext(ts: seq<Token>, t: Token, x: Input, quote: string -> string)
    ensures Subst(ts + [t], x, quote) == Subst(ts, x, quote) + Text(t, x, quote)
  {
    hide Text;
    if ts == [] {
      assert (ts + [t])[1..] == [];
    } else {
      assert (ts + [t])[1..] == ts[1..] + [t];
      SubstNext(ts[1..], t, x, quote);
    }
  }

  lemma TextPlain(c: char, x: Input, quote: string -> string)
    ensures Text(Plain(c), x, quote) == [c]
  {
  }

  // ----- Templates together -----

  /** A template that was accepted stays covered when others are accepted after it. */
  lemma StillCovered(flags: Flags, nparts: nat, ts: seq<Token>, mode: Mode, more: Flags, parts: nat)
    requires Covers(flags, nparts, ts, mode) && nparts <= parts
    ensures Covers(Join(flags, more), parts, ts, mode)
  {
    hide Needs;
  }

  /** Reads a whole configuration: if every template is accepted, all of them may be expanded. */
  method Configure(templates: seq<(string, Mode)>) returns (ctx: Context, ok: bool)
    ensures fresh(ctx) && ctx.Valid()
    ensures ok <==> forall i :: 0 <= i < |templates| ==> Tokens(templates[i].0).Some?
    ensures ok ==> forall i :: 0 <= i < |templates| ==> Covers(ctx.flags, ctx.nparts, Tokens(templates[i].0).value, templates[i].1)
  {
    hide Tokens, Needs, Covers;
    ctx := new Context();
    for i := 0 to |templates|
      invariant fresh(ctx) && ctx.Valid()
      invariant forall j :: 0 <= j < i ==> Tokens(templates[j].0).Some?
      invariant forall j :: 0 <= j < i ==> Covers(ctx.flags, ctx.nparts, Tokens(templates[j].0).value, templates[j].1)
    {
      ghost var flags, nparts := ctx.flags, ctx.nparts;
      var dynamic;
      ok, dynamic := ctx.Parse(templates[i].0, templates[i].1);
      if !ok { return; }
      ghost var ts := Tokens(templates[i].0).value;
      forall j | 0 <= j < i ensures Covers(ctx.flags, ctx.nparts, Tokens(templates[j].0).value, templates[j].1) {
        StillCovered(flags, nparts, Tokens(templates[j].0).value, templates[j].1, Needs(ts, templates[i].1), ctx.nparts);
      }
      NowCovered(flags, ctx.nparts, ts, templates[i].1);
    }
    ok := true;
  }

  lemma NowCovered(flags: Flags, nparts: nat, ts: seq<Token>, mode: Mode)
    requires Parts(ts) <= nparts
    ensures Covers(Join(flags, Needs(ts, mode)), nparts, ts, mode)
  {
    hide Needs, Parts;
  }

  lemma {:induction false} LabelLengthIs(w: string, rest: string)
    requires '.' !in w && (rest == "" || rest[0] == '.')
    ensures LabelLength(w + rest) == |w|
  {
    if w == "" {
      assert w + rest == rest;
    } else {
      assert (w + rest)[1..] == w[1..] + rest;
      LabelLengthIs(w[1..], rest);
    }
  }

  lemma FirstLabel(w: string, rest: string)
    requires w != "" && '.' !in w && (rest == "" || rest[0] == '.')
    ensures Labels(w + rest) == [w] + Labels(rest)
  {
    LabelLengthIs(w, rest);
    assert (w + rest)[..|w|] == w && (w + rest)[|w|..] == rest;
  }

  lemma {:induction false} LabelSplit(a: string)
    requires a != "" && a[0] != '.'
    ensures var n := LabelLength(a);
            && a[..n] != "" && '.' !in a[..n] && (a[n..] == "" || a[n..][0] == '.')
  {
    if a[1..] != "" && a[1] != '.' {
      LabelSplit(a[1..]);
      assert a[..LabelLength(a)] == [a[0]] + a[1..][..LabelLength(a) - 1];
    }
  }

  lemma SplitJoin(a: string, x: string, n: nat)
    requires n <= |a|
    ensures a + x == a[..n] + (a[n..] + x)
  {
  }

  /** The labels of a and what follows, when that begins with a dot. */
  lemma LabelsOn(a: string, x: string)
    requires a != "" && a[0] != '.' && x != "" && x[0] == '.'
    ensures var n := LabelLength(a); Labels(a + x) == [a[..n]] + Labels(a[n..] + x)
  {
    hide LabelLength, Labels;
    LabelSplit(a);
    var n := LabelLength(a);
    SplitJoin(a, x, n);
    var rest := a[n..] + x;
    assert rest[0] == '.' by { if a[n..] != "" { assert rest[0] == a[n..][0]; } }
    FirstLabel(a[..n], rest);
  }

  /** Dots next to each other count as one, wherever they are, and dots at either end count for
      nothing, so that they never make an address unsuitable. */
  lemma {:induction false} DotsIgnored(a: string, rest: string)
    ensures Labels(a + (".." + rest)) == Labels(a + ("." + rest))
    ensures Labels("." + rest) == Labels(rest) && Labels(a + ".") == Labels(a)
    decreases |a|
  {
    hide LabelLength;
    var one, two := "." + rest, ".." + rest;
    assert one[1..] == rest && two[1..] == one;
    if a == "" {
      assert a + one == one && a + two == two;
    } else if a[0] == '.' {
      assert (a + one)[1..] == a[1..] + one && (a + two)[1..] == a[1..] + two && (a + ".")[1..] == a[1..] + ".";
      DotsIgnored(a[1..], rest);
    } else {
      LabelSplit(a);
      LabelsOn(a, one);
      LabelsOn(a, two);
      LabelsOn(a, ".");
      DotsIgnored(a[LabelLength(a)..], rest);
    }
  }

  // ----- What the result of validation says -----

  /** A domain of so many equal labels, and an address in it. */
  function Repeat(w: string, n: nat): string { if n == 0 then "" else "." + w + Repeat(w, n - 1) }

  function Sample(w: string): Input { Input(w + "@" + Repeat(w, 9), None) }

  predicate IsWord(w: string) { w != "" && '.' !in w && '@' !in w }

  lemma {:induction false} RepeatLabels(w: string, n: nat)
    requires IsWord(w)
    ensures Labels(Repeat(w, n)) == seq(n, _ => w)
  {
    if n > 0 {
      var rest := Repeat(w, n - 1);
      FirstLabel(w, rest);
      assert Repeat(w, n)[1..] == w + rest;
      RepeatLabels(w, n - 1);
      assert [w] + seq(n - 1, _ => w) == seq(n, _ => w);
    }
  }

  lemma {:induction false} RepeatNoAt(w: string, n: nat)
    requires IsWord(w)
    ensures '@' !in Repeat(w, n) && |Repeat(w, n)| == n * (|w| + 1)
  {
    if n > 0 { RepeatNoAt(w, n - 1); }
  }

  lemma SampleParts(w: string)
    requires IsWord(w)
    ensures var v := Sample(w).value;
            && LastAt(v) == |w| && User(v) == w && Domain(v) == Repeat(w, 9)
            && |Domain(v)| == 9 * (|w| + 1) && Labels(Domain(v)) == seq(9, _ => w)
  {
    hide Labels, Repeat;
    var v := Sample(w).value;
    RepeatNoAt(w, 9);
    RepeatLabels(w, 9);
    assert v[|w|] == '@';
    assert forall i :: |w| < i < |v| ==> v[i] == Repeat(w, 9)[i - |w| - 1];
    assert v[|w| + 1..] == Repeat(w, 9) && v[..|w|] == w;
  }

  /** Every conversion gives the sample a text whose length depends on the length of the word. */
  lemma SampleText(c: char, w: string)
    requires IsConv(c) && c != '%' && IsWord(w)
    ensures |Text(Conv(c), Sample(w), s => s)| ==
              if c == 's' || c == 'S' then |w| + 1 + 9 * (|w| + 1)
              else if c == 'd' || c == 'D' then 9 * (|w| + 1)
              else |w|
  {
    hide Labels, Repeat, LastAt, User, Domain;
    SampleParts(w);
    assert |Sample(w).value| == |w| + 1 + |Repeat(w, 9)|;
    assert IsLabel(c) ==> Label(Sample(w), Number(c)) == w;
  }

  predicate Differ(ts: seq<Token>, x: Input, y: Input) { Subst(ts, x, s => s) != Subst(ts, y, s => s) }

  /** A template is reported as dynamic exactly when its expansion depends on the input. */
  lemma DynamicIff(ts: seq<Token>)
    requires forall i :: 0 <= i < |ts| && ts[i].Conv? ==> IsConv(ts[i].c)
    ensures Dynamic(ts) <==> exists x, y :: Differ(ts, x, y)
  {
    hide IsConv, Text, Subst;
    if Dynamic(ts) {
      Longer(ts);
      assert Differ(ts, Sample("a"), Sample("aa"));
    } else {
      forall x, y ensures !Differ(ts, x, y) { Constant(ts, x, y); }
    }
  }

  lemma {:induction false} Constant(ts: seq<Token>, x: Input, y: Input)
    requires !Dynamic(ts)
    ensures Subst(ts, x, s => s) == Subst(ts, y, s => s)
  {
    if ts != [] {
      assert !ConvDynamic(ts[0]);
      Constant(ts[1..], x, y);
    }
  }

  lemma {:induction false} Longer(ts: seq<Token>)
    requires forall i :: 0 <= i < |ts| && ts[i].Conv? ==> IsConv(ts[i].c)
    ensures |Subst(ts, Sample("a"), s => s)| <= |Subst(ts, Sample("aa"), s => s)|
    ensures Dynamic(ts) ==> |Subst(ts, Sample("a"), s => s)| < |Subst(ts, Sample("aa"), s => s)|
  {
    hide IsConv, Text;
    if ts != [] {
      LongerText(ts[0]);
      Longer(ts[1..]);
      if Dynamic(ts) && !ConvDynamic(ts[0]) {
        var i :| 0 <= i < |ts| && ts[i].Conv? && ts[i].c != '%';
        assert ts[1..][i - 1] == ts[i];
      }
    }
  }

  lemma LongerText(t: Token)
    requires t.Conv? ==> IsConv(t.c)
    ensures var a, b := |Text(t, Sample("a"), s => s)|, |Text(t, Sample("aa"), s => s)|;
            a <= b && (ConvDynamic(t) ==> a < b)
  {
    if ConvDynamic(t) {
      SampleText(t.c, "a");
      SampleText(t.c, "aa");
    }
  }

  // ----- What the conversions stand for -----

  /** Labels with dots between them. */
  function Dotted(labels: seq<string>): string {
    if labels == [] then "" else if |labels| == 1 then labels[0] else labels[0] + "." + Dotted(labels[1..])
  }

  predicate Words(labels: seq<string>) { forall i :: 0 <= i < |labels| ==> labels[i] != "" && '.' !in labels[i] && '@' !in labels[i] }

  lemma {:induction false} DottedLabels(labels: seq<string>)
    requires Words(labels)
    ensures Labels(Dotted(labels)) == labels && '@' !in Dotted(labels)
  {
    hide Labels;
    NoLabels();
    if |labels| == 1 {
      FirstLabel(labels[0], "");
      assert labels[0] + "" == labels[0] && labels == [labels[0]];
    } else if labels != [] {
      var rest := Dotted(labels[1..]);
      DottedLabels(labels[1..]);
      FirstLabel(labels[0], "." + rest);
      assert Dotted(labels) == labels[0] + ("." + rest);
      DotsIgnored("", rest);
      assert labels == [labels[0]] + labels[1..];
    }
  }

  lemma NoLabels()
    ensures Labels("") == []
  {
  }

  lemma AddressParts(user: string, domain: string)
    requires '@' !in domain
    ensures User(user + "@" + domain) == user && Domain(user + "@" + domain) == domain
  {
    var s := user + "@" + domain;
    assert s[|user|] == '@' && s[..|user|] == user && s[|user| + 1..] == domain;
    assert forall i :: |user| < i < |s| ==> s[i] == domain[i - |user| - 1];
  }

  /** In a result, lower case letters stand for the value and upper case letters for the key. */
  lemma ResultConversions(user: string, domain: string, kuser: string, kdomain: string, quote: string -> string)
    requires '@' !in domain && '@' !in kdomain
    ensures var x := Input(user + "@" + domain, Some(kuser + "@" + kdomain));
            && Text(Conv('s'), x, quote) == quote(user + "@" + domain)
            && Text(Conv('u'), x, quote) == quote(user) && Text(Conv('d'), x, quote) == quote(domain)
            && Text(Conv('S'), x, quote) == quote(kuser + "@" + kdomain)
            && Text(Conv('U'), x, quote) == quote(kuser) && Text(Conv('D'), x, quote) == quote(kdomain)
            && Text(Conv('%'), x, quote) == "%" && (forall c :: Text(Plain(c), x, quote) == [c])
  {
    hide User, Domain, Labels;
    AddressParts(user, domain);
    AddressParts(kuser, kdomain);
  }

  /** In a query, all of them stand for the value. */
  lemma QueryConversions(user: string, domain: string, quote: string -> string)
    requires '@' !in domain
    ensures var x := Input(user + "@" + domain, None);
            && Text(Conv('s'), x, quote) == Text(Conv('S'), x, quote) == quote(user + "@" + domain)
            && Text(Conv('u'), x, quote) == Text(Conv('U'), x, quote) == quote(user)
            && Text(Conv('d'), x, quote) == Text(Conv('D'), x, quote) == quote(domain)
            && Text(Conv('%'), x, quote) == "%" && (forall c :: Text(Plain(c), x, quote) == [c])
  {
    hide User, Domain, Labels;
    AddressParts(user, domain);
  }

  lemma LabelText(x: Input, labels: seq<string>, n: nat, quote: string -> string)
    requires 1 <= n <= 9 && n <= |labels|
    requires Labels(Domain(if x.key.Some? then x.key.value else x.value)) == labels
    ensures Text(Conv((48 + n) as char), x, quote) == quote(labels[|labels| - n])
  {
    hide Labels, Domain, User;
  }

  /** A digit (49 is '1') stands for that label of the domain of the key, or of the value of a query,
      counted from the right. */
  lemma LabelConversion(kuser: string, labels: seq<string>, n: nat, value: string, quote: string -> string)
    requires Words(labels) && 1 <= n <= 9 && n <= |labels|
    ensures var c, key := (48 + n) as char, kuser + "@" + Dotted(labels);
            && Text(Conv(c), Input(value, Some(key)), quote) == quote(labels[|labels| - n])
            && Text(Conv(c), Input(key, None), quote) == quote(labels[|labels| - n])
  {
    hide User, Domain, Labels, Dotted, Text;
    DottedLabels(labels);
    AddressParts(kuser, Dotted(labels));
    var key := kuser + "@" + Dotted(labels);
    hide *;
    LabelText(Input(value, Some(key)), labels, n, quote);
    LabelText(Input(key, None), labels, n, quote);
  }

  /** A value without an '@' is its own user part. */
  lemma NoDomainUser(s: string)
    requires '@' !in s
    ensures User(s) == s
  {
    assert LastAt(s) < 0;
  }

  /** How a token is written: a percent sign stands in front of each conversion. */
  function Source(ts: seq<Token>): string {
    if ts == [] then "" else (match ts[0] case Plain(c) => [c] case Conv(c) => ['%', c]) + Source(ts[1..])
  }

  /** The letters that may follow a percent sign. */
  const LETTERS := "%udsSUD123456789"

  predicate Written(ts: seq<Token>) {
    forall i :: 0 <= i < |ts| ==> match ts[i] case Plain(c) => c != '%' case Conv(c) => c in LETTERS
  }

  lemma LettersIff(c: char)
    ensures IsConv(c) <==> c in LETTERS
  {
    assert LETTERS[0] == '%' && LETTERS[1] == 'u' && LETTERS[2] == 'd' && LETTERS[3] == 's';
    assert LETTERS[4] == 'S' && LETTERS[5] == 'U' && LETTERS[6] == 'D' && LETTERS[7] == '1';
    assert LETTERS[8] == '2' && LETTERS[9] == '3' && LETTERS[10] == '4' && LETTERS[11] == '5';
    assert LETTERS[12] == '6' && LETTERS[13] == '7' && LETTERS[14] == '8' && LETTERS[15] == '9';
  }

  /** A text is accepted exactly if it is the writing of some tokens, and is then read as those. */
  lemma TokensIff(format: string, ts: seq<Token>)
    ensures Tokens(format) == Some(ts) <==> Written(ts) && Source(ts) == format
  {
    if Tokens(format) == Some(ts) { TokensSource(format); }
    if Written(ts) && Source(ts) == format { SourceTokens(ts); }
  }

  lemma {:induction false} TokensSource(format: string)
    ensures Tokens(format).Some? ==> Written(Tokens(format).value) && Source(Tokens(format).value) == format
    decreases |format|
  {
    hide IsConv;
    if format != "" && Tokens(format).Some? {
      var ts := Tokens(format).value;
      if format[0] != '%' {
        TokensSource(format[1..]);
        assert ts[1..] == Tokens(format[1..]).value;
      } else {
        LettersIff(format[1]);
        TokensSource(format[2..]);
        assert ts[1..] == Tokens(format[2..]).value;
        assert format == [format[0], format[1]] + format[2..];
      }
      forall i | 0 <= i < |ts| ensures match ts[i] case Plain(c) => c != '%' case Conv(c) => c in LETTERS {
        if i > 0 { assert ts[i] == ts[1..][i - 1]; }
      }
    }
  }

  lemma {:induction false} SourceTokens(ts: seq<Token>)
    requires Written(ts)
    ensures Tokens(Source(ts)) == Some(ts)
  {
    hide IsConv;
    if ts != [] {
      SourceTokens(ts[1..]);
      var f, rest := Source(ts), Source(ts[1..]);
      assert ts == [ts[0]] + ts[1..];
      match ts[0]
      case Plain(c) => assert f[1..] == rest;
      case Conv(c) =>
        LettersIff(c);
        assert f[2..] == rest;
    }
  }

  // ----- What is needed of the input -----

  predicate Uses(ts: seq<Token>, letters: string) { exists i :: 0 <= i < |ts| && ts[i].Conv? && ts[i].c in letters }

  /** A template asks for a part of its input exactly if one of its conversions stands for that part, and
      for as many labels as the greatest digit says. */
  lemma {:induction false} NeedsIff(ts: seq<Token>, mode: Mode)
    requires Written(ts)
    ensures var f := Needs(ts, mode);
            && (f.keyUser <==> Uses(ts, if mode.Query? then "uU" else "U"))
            && (f.keyDomain <==> Uses(ts, if mode.Query? then "dD123456789" else "D123456789"))
            && (f.valueUser <==> mode.Result? && Uses(ts, "u"))
            && (f.valueDomain <==> mode.Result? && Uses(ts, "d"))
  {
    hide IsConv;
    if ts != [] {
      NeedsIff(ts[1..], mode);
      NeedOne(ts[0], mode);
      UsesStep(ts, if mode.Query? then "uU" else "U");
      UsesStep(ts, if mode.Query? then "dD123456789" else "D123456789");
      UsesStep(ts, "u");
      UsesStep(ts, "d");
      hide Need, Uses;
    }
  }

  lemma UsesStep(ts: seq<Token>, letters: string)
    requires ts != []
    ensures Uses(ts, letters) <==> (ts[0].Conv? && ts[0].c in letters) || Uses(ts[1..], letters)
  {
    if i :| 0 <= i < |ts[1..]| && ts[1..][i].Conv? && ts[1..][i].c in letters { assert ts[i + 1] == ts[1..][i]; }
    if i :| 0 <= i < |ts| && ts[i].Conv? && ts[i].c in letters { if i > 0 { assert ts[1..][i - 1] == ts[i]; } }
  }

  lemma NeedOne(t: Token, mode: Mode)
    requires match t case Plain(c) => true case Conv(c) => c in LETTERS
    ensures var f := Need(t, mode);
            && (f.keyUser <==> t.Conv? && t.c in if mode.Query? then "uU" else "U")
            && (f.keyDomain <==> t.Conv? && t.c in if mode.Query? then "dD123456789" else "D123456789")
            && (f.valueUser <==> mode.Result? && t.Conv? && t.c in "u")
            && (f.valueDomain <==> mode.Result? && t.Conv? && t.c in "d")
  {
    NeedUser(t, mode);
    NeedDomain(t, mode);
    hide Need;
  }

  lemma NeedUser(t: Token, mode: Mode)
    ensures var f := Need(t, mode);
            && (f.keyUser <==> t.Conv? && t.c in if mode.Query? then "uU" else "U")
            && (f.valueUser <==> mode.Result? && t.Conv? && t.c in "u")
  {
  }

  lemma NeedDomain(t: Token, mode: Mode)
    requires t.Conv? ==> t.c in LETTERS
    ensures var f := Need(t, mode);
            && (f.keyDomain <==> t.Conv? && t.c in if mode.Query? then "dD123456789" else "D123456789")
            && (f.valueDomain <==> mode.Result? && t.Conv? && t.c in "d")
  {
    if t.Conv? {
      LettersIff(t.c);
      DigitLetters(t.c);
      hide LETTERS;
    }
  }

  lemma DigitLetters(c: char)
    ensures c in "dD123456789" <==> c == 'd' || c == 'D' || '1' <= c <= '9'
    ensures c in "D123456789" <==> c == 'D' || '1' <= c <= '9'
  {
    var s := "D123456789";
    assert s[1] == '1' && s[2] == '2' && s[3] == '3' && s[4] == '4' && s[5] == '5' && s[6] == '6' && s[7] == '7';
    assert s[8] == '8' && s[9] == '9';
    assert "dD123456789"[1..] == s;
  }

  /** The number of labels asked for is that of the greatest digit. */
  lemma {:induction false} PartsIs(ts: seq<Token>)
    ensures forall i :: 0 <= i < |ts| && ts[i].Conv? && '1' <= ts[i].c <= '9' ==> ts[i].c as nat - 48 <= Parts(ts)
    ensures Parts(ts) > 0 ==> exists i :: 0 <= i < |ts| && ts[i].Conv? && '1' <= ts[i].c <= '9' && ts[i].c as nat - 48 == Parts(ts)
  {
    if ts != [] {
      PartsIs(ts[1..]);
      forall i | 0 <= i < |ts| && ts[i].Conv? && '1' <= ts[i].c <= '9' ensures ts[i].c as nat - 48 <= Parts(ts) {
        if i > 0 { assert ts[1..][i - 1] == ts[i]; }
      }
      if Parts(ts) > 0 && Parts(ts) == Parts(ts[1..]) {
        var i :| 0 <= i < |ts[1..]| && ts[1..][i].Conv? && '1' <= ts[1..][i].c <= '9' && ts[1..][i].c as nat - 48 == Parts(ts);
        assert ts[i + 1] == ts[1..][i];
      }
    }
  }
}
