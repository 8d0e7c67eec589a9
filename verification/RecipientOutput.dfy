/** Envelope recipient output (src/cleanup/cleanup_out_recipient.c): alias expansion, duplicate
    elimination and the choice of delivery status notifications for expanded recipients. */
module RecipientOutput {
  import opened DupFilter
  import opened Dsn
  import AliasExpansion

  type Lookups = AliasExpansion.Address -> AliasExpansion.Lookup

  /** One recipient as it is offered for output. */
  datatype Offer = Offer(dsnOrcpt: string, notify: nat, orcpt: string, recip: string)

  /** Queue file records; notify and original-recipient attributes precede the recipient. */
  datatype Out = NotifyAttr(notify: nat) | DsnOrcptAttr(addr: string) | Orcp(addr: string) | Rcpt(addr: string)

  // ----- Notification requests -----

  /** What remains of a request with SUCCESS once the sender was told about the expansion. */
  function Relayed(n: nat): nat
    requires WantsSuccess(n)
  {
    if n == SUCCESS then NEVER else n - SUCCESS
  }

  /** The other requests survive, SUCCESS does not, and a sender that asked for SUCCESS only does
      not fall back to the default notifications, which no request at all stands for. */
  lemma RelayedDropsSuccessOnly(n: nat)
    requires NotifyOk(n) && WantsSuccess(n)
    ensures NotifyOk(Relayed(n)) && !WantsSuccess(Relayed(n)) && Relayed(n) != 0
    ensures WantsFailure(Relayed(n)) == WantsFailure(n) && WantsDelay(Relayed(n)) == WantsDelay(n)
  {
    assert n in {2, 6, 10, 14};
  }

  // ----- The duplicate filter key -----

  function Key(enableOrcpt: bool, o: Offer): string {
    if enableOrcpt then o.dsnOrcpt + "\n" + (Decimal(o.notify) + "\n" + (o.orcpt + "\n" + o.recip)) else o.recip
  }

  /** Case folding leaves newlines and digits alone and makes no new ones. */
  ghost predicate Plain(fold: char -> char) {
    && (forall c :: fold(c) == '\n' <==> c == '\n')
    && (forall c :: '0' <= c <= '9' ==> fold(c) == c)
  }

  predicate NoNewline(s: string) { '\n' !in s }

  /** No newline in any field but the last one. */
  predicate Clean(o: Offer) { NoNewline(o.dsnOrcpt) && NoNewline(o.orcpt) }

  /** Equal up to case in everything that distinguishes recipients. */
  predicate SameOffer(fold: char -> char, enableOrcpt: bool, a: Offer, b: Offer) {
    && AliasExpansion.Same(fold, a.recip, b.recip)
    && (enableOrcpt ==>
          && a.notify == b.notify
          && AliasExpansion.Same(fold, a.dsnOrcpt, b.dsnOrcpt) && AliasExpansion.Same(fold, a.orcpt, b.orcpt))
  }

  lemma FoldConcat(fold: char -> char, a: string, b: string)
    ensures Fold(fold, a + b) == Fold(fold, a) + Fold(fold, b)
  {
  }

  lemma FoldNewline(fold: char -> char, s: string)
    requires Plain(fold)
    ensures NoNewline(Fold(fold, s)) <==> NoNewline(s)
  {
    var r := Fold(fold, s);
    if '\n' in s { var i :| 0 <= i < |s| && s[i] == '\n'; assert r[i] == '\n'; }
    if '\n' in r { var i :| 0 <= i < |r| && r[i] == '\n'; assert s[i] == '\n'; }
  }

  /** Text up to the first newline and text after it are determined by the whole. */
  lemma CutAtNewline(a: string, b: string, c: string, d: string)
    requires NoNewline(a) && NoNewline(c) && a + "\n" + b == c + "\n" + d
    ensures a == c && b == d
  {
    var s, t := a + "\n" + b, c + "\n" + d;
    assert s[|a|] == '\n' && t[|c|] == '\n';
    assert a == s[..|a|] == t[..|c|] == c;
    assert b == s[|a| + 1..] == t[|c| + 1..] == d;
  }

  lemma FoldCut(fold: char -> char, a: string, b: string, c: string, d: string)
    requires Plain(fold) && NoNewline(a) && NoNewline(c)
    requires Fold(fold, a + "\n" + b) == Fold(fold, c + "\n" + d)
    ensures AliasExpansion.Same(fold, a, c) && AliasExpansion.Same(fold, b, d)
  {
    FoldConcat(fold, a + "\n", b);
    FoldConcat(fold, a, "\n");
    FoldConcat(fold, c + "\n", d);
    FoldConcat(fold, c, "\n");
    assert Fold(fold, "\n") == "\n";
    FoldNewline(fold, a);
    FoldNewline(fold, c);
    CutAtNewline(Fold(fold, a), Fold(fold, b), Fold(fold, c), Fold(fold, d));
  }

  /** The joined key separates exactly the recipients that differ in more than case. */
  lemma KeySeparates(fold: char -> char, enableOrcpt: bool, a: Offer, b: Offer)
    requires Plain(fold) && Clean(a) && Clean(b)
    ensures Fold(fold, Key(enableOrcpt, a)) == Fold(fold, Key(enableOrcpt, b)) <==> SameOffer(fold, enableOrcpt, a, b)
  {
    if enableOrcpt {
      var a2, b2 := a.orcpt + "\n" + a.recip, b.orcpt + "\n" + b.recip;
      var a1, b1 := Decimal(a.notify) + "\n" + a2, Decimal(b.notify) + "\n" + b2;
      if Fold(fold, Key(true, a)) == Fold(fold, Key(true, b)) {
        DecimalDigits(a.notify);
        DecimalDigits(b.notify);
        FoldCut(fold, a.dsnOrcpt, a1, b.dsnOrcpt, b1);
        FoldCut(fold, Decimal(a.notify), a2, Decimal(b.notify), b2);
        FoldCut(fold, a.orcpt, a.recip, b.orcpt, b.recip);
        assert Fold(fold, Decimal(a.notify)) == Decimal(a.notify);
        assert Fold(fold, Decimal(b.notify)) == Decimal(b.notify);
        AtolDecimal(a.notify);
        AtolDecimal(b.notify);
      }
      if SameOffer(fold, true, a, b) {
        FoldConcat(fold, a.dsnOrcpt + "\n", a1);
        FoldConcat(fold, b.dsnOrcpt + "\n", b1);
        FoldConcat(fold, a.dsnOrcpt, "\n");
        FoldConcat(fold, b.dsnOrcpt, "\n");
        FoldConcat(fold, Decimal(a.notify) + "\n", a2);
        FoldConcat(fold, Decimal(b.notify) + "\n", b2);
        FoldConcat(fold, a.orcpt + "\n", a.recip);
        FoldConcat(fold, b.orcpt + "\n", b.recip);
        FoldConcat(fold, a.orcpt, "\n");
        FoldConcat(fold, b.orcpt, "\n");
      }
    }
  }

  // ----- What a bounded filter lets through, over a whole run -----

  /** The keys that are remembered after these were offered. */
  function Remembered(keys: seq<string>, limit: int): set<string> {
    if keys == [] then {} else
      var t := Remembered(keys[..|keys| - 1], limit);
      if 0 < limit <= |t| then t else t + {keys[|keys| - 1]}
  }

  /** The offer at this position is written. */
  predicate Passes(keys: seq<string>, limit: int, j: nat)
    requires j < |keys|
  {
    keys[j] !in Remembered(keys[..j], limit)
  }

  lemma {:induction false} RememberedGrows(keys: seq<string>, limit: int, i: nat, j: nat)
    requires i <= j <= |keys|
    ensures Remembered(keys[..i], limit) <= Remembered(keys[..j], limit)
    decreases j - i
  {
    if i < j {
      RememberedGrows(keys, limit, i, j - 1);
      assert keys[..j][..j - 1] == keys[..j - 1];
    }
  }

  /** What is remembered was written. */
  lemma {:induction false} RememberedPassed(keys: seq<string>, limit: int, j: nat, k: string)
    requires j <= |keys| && k in Remembered(keys[..j], limit)
    ensures exists i :: 0 <= i < j && keys[i] == k && Passes(keys, limit, i)
    decreases j
  {
    assert keys[..j][..j - 1] == keys[..j - 1];
    if k in Remembered(keys[..j - 1], limit) {
      RememberedPassed(keys, limit, j - 1, k);
    } else {
      assert keys[j - 1] == k && Passes(keys, limit, j - 1);
    }
  }

  /** Nothing is lost: an offer that is not written has an equal that was written before. */
  lemma NothingLost(keys: seq<string>, limit: int, j: nat)
    requires j < |keys|
    ensures exists i :: 0 <= i <= j && keys[i] == keys[j] && Passes(keys, limit, i)
  {
    if keys[j] in Remembered(keys[..j], limit) {
      RememberedPassed(keys, limit, j, keys[j]);
    } else {
      assert Passes(keys, limit, j);
    }
  }

  lemma RememberedStep(keys: seq<string>, limit: int, i: nat)
    requires i < |keys|
    ensures var t := Remembered(keys[..i], limit);
            Remembered(keys[..i + 1], limit) == if 0 < limit <= |t| then t else t + {keys[i]}
  {
    assert keys[..i + 1][..i] == keys[..i];
  }

  /** A key that passes twice was not remembered the first time, for lack of room, and never is. */
  lemma {:induction false} NeverRemembered(keys: seq<string>, limit: int, i: nat, n: nat)
    requires i < n <= |keys| && keys[i] !in Remembered(keys[..i + 1], limit)
    ensures keys[i] !in Remembered(keys[..n], limit)
    ensures 0 < limit <= |Remembered(keys[..n], limit)|
    decreases n
  {
    if n == i + 1 {
      RememberedStep(keys, limit, i);
    } else {
      NeverRemembered(keys, limit, i, n - 1);
      RememberedStep(keys, limit, n - 1);
    }
  }

  function Distinct(keys: seq<string>): set<string> { set k | k in keys }

  ghost predicate NoDuplicates(keys: seq<string>, limit: int) {
    forall i, j :: 0 <= i < j < |keys| && Passes(keys, limit, i) && Passes(keys, limit, j) ==> keys[i] != keys[j]
  }

  /** Duplicates are avoided exactly when every key that is offered twice is one of those that
      found room in the filter. */
  lemma DuplicatesIff(keys: seq<string>, limit: int)
    ensures NoDuplicates(keys, limit)
       <==> forall i, j :: 0 <= i < j < |keys| && keys[i] == keys[j] ==> keys[i] in Remembered(keys, limit)
  {
    var n := |keys|;
    assert keys[..n] == keys;
    if NoDuplicates(keys, limit) {
      forall i, j | 0 <= i < j < n && keys[i] == keys[j] ensures keys[i] in Remembered(keys, limit) {
        RememberedGrows(keys, limit, i, n);
        RememberedGrows(keys, limit, j, n);
        if keys[i] !in Remembered(keys, limit) { assert Passes(keys, limit, i) && Passes(keys, limit, j); }
      }
    }
    if forall i, j :: 0 <= i < j < n && keys[i] == keys[j] ==> keys[i] in Remembered(keys, limit) {
      forall i, j | 0 <= i < j < n && Passes(keys, limit, i) && Passes(keys, limit, j) ensures keys[i] != keys[j] {
        if keys[i] == keys[j] {
          RememberedGrows(keys, limit, i + 1, j);
          NeverRemembered(keys, limit, i, n);
        }
      }
    }
  }

  /** Any new key passes a full filter as often as it is offered. */
  lemma FullFilter(keys: seq<string>, limit: int, k: string)
    requires 0 < limit <= |Remembered(keys, limit)| && k !in Remembered(keys, limit)
    ensures Passes(keys + [k, k], limit, |keys|) && Passes(keys + [k, k], limit, |keys| + 1)
    ensures !NoDuplicates(keys + [k, k], limit)
  {
    var all, n := keys + [k, k], |keys|;
    assert all[..n] == keys && all[..n + 1][..n] == keys;
    assert Remembered(all[..n + 1], limit) == Remembered(keys, limit);
  }

  /** In particular when there are no more different keys than the filter can hold. */
  lemma NoDuplicatesWithinLimit(keys: seq<string>, limit: int)
    requires limit <= 0 || |Distinct(keys)| <= limit
    ensures NoDuplicates(keys, limit)
  {
    forall i, j | 0 <= i < j < |keys| && Passes(keys, limit, i) && Passes(keys, limit, j) ensures keys[i] != keys[j] {
      if keys[i] == keys[j] {
        RememberedGrows(keys, limit, i + 1, j);
        NeverRemembered(keys, limit, i, i + 1);
        RememberedOffered(keys, limit, i + 1);
        var all := Distinct(keys);
        Smaller(Remembered(keys[..i + 1], limit), all, keys[i]);
      }
    }
  }

  lemma {:induction false} RememberedOffered(keys: seq<string>, limit: int, n: nat)
    requires n <= |keys|
    ensures forall k :: k in Remembered(keys[..n], limit) ==> k in keys
  {
    if n > 0 {
      RememberedOffered(keys, limit, n - 1);
      RememberedStep(keys, limit, n - 1);
    }
  }

  lemma {:induction false} Smaller<T>(a: set<T>, b: set<T>, x: T)
    requires a <= b && x in b && x !in a
    ensures |a| < |b|
  {
    if a != {} {
      var y :| y in a;
      Smaller(a - {y}, b - {y}, x);
    }
  }

  // ----- Records written for a recipient, and how they are read back -----

  function Encode(o: Offer): seq<Out> {
    (if o.notify != 0 then [NotifyAttr(o.notify)] else [])
    + (if o.dsnOrcpt != "" then [DsnOrcptAttr(o.dsnOrcpt)] else [])
    + [Orcp(o.orcpt), Rcpt(o.recip)]
  }

  function EncodeAll(offers: seq<Offer>): seq<Out> {
    if offers == [] then [] else EncodeAll(offers[..|offers| - 1]) + Encode(offers[|offers| - 1])
  }

  lemma EncodeStep(offers: seq<Offer>, o: Offer)
    ensures EncodeAll(offers + [o]) == EncodeAll(offers) + Encode(o)
  {
    assert (offers + [o])[..|offers|] == offers;
  }

  /** Attributes apply to the next recipient record and are then forgotten. */
  function Decode(out: seq<Out>, o: Offer): seq<Offer> {
    if out == [] then [] else
      match out[0]
      case NotifyAttr(n) => Decode(out[1..], o.(notify := n))
      case DsnOrcptAttr(s) => Decode(out[1..], o.(dsnOrcpt := s))
      case Orcp(s) => Decode(out[1..], o.(orcpt := s))
      case Rcpt(s) => [o.(recip := s)] + Decode(out[1..], NO_OFFER)
  }

  const NO_OFFER := Offer("", 0, "", "")

  lemma DecodeOne(o: Offer, rest: seq<Out>)
    ensures Decode(Encode(o) + rest, NO_OFFER) == [o] + Decode(rest, NO_OFFER)
  {
    var tail := [Orcp(o.orcpt), Rcpt(o.recip)] + rest;
    var p := Offer(o.dsnOrcpt, o.notify, "", "");
    assert tail[1..] == [Rcpt(o.recip)] + rest && tail[1..][1..] == rest;
    assert Decode(tail, p) == Decode(tail[1..], p.(orcpt := o.orcpt));
    assert Decode(tail, p) == [o] + Decode(rest, NO_OFFER);
    var mid := (if o.dsnOrcpt != "" then [DsnOrcptAttr(o.dsnOrcpt)] else []) + tail;
    var q := Offer("", o.notify, "", "");
    assert Decode(mid, q) == Decode(tail, p) by {
      if o.dsnOrcpt != "" { assert mid[1..] == tail; } else { assert mid == tail; }
    }
    var all := Encode(o) + rest;
    if o.notify != 0 { assert all[1..] == mid; } else { assert all == mid; }
  }

  /** Reading the records gives the recipients that were written, each with its own attributes. */
  lemma {:induction false} RecordsRoundTrip(offers: seq<Offer>, rest: seq<Out>)
    ensures Decode(EncodeAll(offers) + rest, NO_OFFER) == offers + Decode(rest, NO_OFFER)
    decreases |offers|
  {
    var n := |offers|;
    if n == 0 {
      assert EncodeAll(offers) + rest == rest;
    } else {
      var last := Encode(offers[n - 1]);
      assert EncodeAll(offers) + rest == EncodeAll(offers[..n - 1]) + (last + rest);
      RecordsRoundTrip(offers[..n - 1], last + rest);
      DecodeOne(offers[n - 1], rest);
      assert offers == offers[..n - 1] + [offers[n - 1]];
    }
  }

  // ----- A run of the recipient output filter -----

  function Keys(fold: char -> char, enableOrcpt: bool, offers: seq<Offer>): (r: seq<string>)
    ensures |r| == |offers|
  {
    seq(|offers|, i requires 0 <= i < |offers| => Fold(fold, Key(enableOrcpt, offers[i])))
  }

  /** The offers that are written. */
  function Kept(fold: char -> char, enableOrcpt: bool, limit: int, offers: seq<Offer>): seq<Offer> {
    if offers == [] then [] else
      var n := |offers| - 1;
      Kept(fold, enableOrcpt, limit, offers[..n])
      + if Passes(Keys(fold, enableOrcpt, offers), limit, n) then [offers[n]] else []
  }

  lemma KeysStep(fold: char -> char, enableOrcpt: bool, offers: seq<Offer>, o: Offer)
    ensures Keys(fold, enableOrcpt, offers + [o]) == Keys(fold, enableOrcpt, offers) + [Fold(fold, Key(enableOrcpt, o))]
  {
    hide Key, Fold;
  }

  lemma KeptStep(fold: char -> char, enableOrcpt: bool, limit: int, offers: seq<Offer>, o: Offer)
    ensures var keys := Keys(fold, enableOrcpt, offers);
            var k := Fold(fold, Key(enableOrcpt, o));
            var t := Remembered(keys, limit);
            && Keys(fold, enableOrcpt, offers + [o]) == keys + [k]
            && Remembered(keys + [k], limit) == (if 0 < limit <= |t| then t else t + {k})
            && Kept(fold, enableOrcpt, limit, offers + [o])
               == (var w := Kept(fold, enableOrcpt, limit, offers); if k in t then w else w + [o])
  {
    hide Key, Fold, Keys;
    var keys, k := Keys(fold, enableOrcpt, offers), Fold(fold, Key(enableOrcpt, o));
    KeysStep(fold, enableOrcpt, offers, o);
    assert (keys + [k])[..|keys|] == keys;
    assert (offers + [o])[..|offers|] == offers;
  }

  class Recipients {
    const enableOrcpt: bool
    const fold: char -> char
    const limit: int
    const dups: BeenHere
    var out: seq<Out>
    var rcptCount: nat
    /** Trace log: recipients reported as expanded. */
    var expanded: seq<Offer>
    /** Recipients that a verify request found deliverable. */
    var deliverable: seq<Offer>
    ghost var offered: seq<Offer>

    ghost predicate Valid()
      reads `out, `rcptCount, `offered, dups
    {
      && dups.folds && dups.limit == limit && dups.fold == fold
      && dups.table == Remembered(Keys(fold, enableOrcpt, offered), limit)
      && out == EncodeAll(Written())
      && rcptCount == |Written()|
    }

    ghost function Written(): seq<Offer>
      reads `offered
    {
      Kept(fold, enableOrcpt, limit, offered)
    }

    constructor (enableOrcpt: bool, fold: char -> char, limit: int)
      ensures Valid() && offered == [] && fresh(dups)
      ensures this.enableOrcpt == enableOrcpt && this.fold == fold && this.limit == limit
    {
      this.enableOrcpt, this.fold, this.limit := enableOrcpt, fold, limit;
      dups := new BeenHere(limit, true, fold);
      out, rcptCount, expanded, deliverable, offered := [], 0, [], [], [];
    }

    /** One recipient goes through the duplicate filter. */
    method Put(o: Offer)
      requires Valid()
      modifies this`out, this`rcptCount, this`offered, dups
      ensures Valid() && offered == old(offered) + [o]
    {
      hide Keys, Kept, Key, Encode, EncodeAll, Remembered, Fold;
      KeptStep(fold, enableOrcpt, limit, offered, o);
      EncodeStep(Written(), o);
      var seen := dups.Fixed(Key(enableOrcpt, o));
      if !seen {
        out := out + Encode(o);
        rcptCount := rcptCount + 1;
      }
      offered := offered + [o];
    }

    /** The offers since before: one for each address, in order, with these attributes. */
    ghost predicate Offered(before: seq<Offer>, list: seq<string>, dsnOrcpt: string, notify: nat, orcpt: string)
      reads `offered
    {
      && |offered| == |before| + |list| && offered[..|before|] == before
      && forall i :: 0 <= i < |list| ==> offered[|before| + i] == Offer(dsnOrcpt, notify, orcpt, list[i])
    }

    /** Each address goes through the duplicate filter. */
    method PutAll(p: Offer, list: seq<string>)
      requires Valid()
      modifies this`out, this`rcptCount, this`offered, dups
      ensures Valid() && Offered(old(offered), list, p.dsnOrcpt, p.notify, p.orcpt)
    {
      hide Valid;
      var i := 0;
      while i < |list|
        invariant i <= |list| && Valid() && Offered(old(offered), list[..i], p.dsnOrcpt, p.notify, p.orcpt)
      {
        Put(p.(recip := list[i]));
        i := i + 1;
      }
      assert list[..i] == list;
    }

    /** cleanup_out_recipient.  Without alias maps the recipient itself is offered; with them,
        each address of its expansion. */
    method Output(o: Offer, maps: Lookups, mapOk: bool, bounds: AliasExpansion.Bounds, probe: bool)
      returns (list: seq<string>, status: AliasExpansion.Outcome)
      requires Valid()
      modifies this`out, this`rcptCount, this`offered, this`expanded, this`deliverable, dups
      ensures Valid() && list != []
      ensures !mapOk ==> list == [o.recip] && status == AliasExpansion.Expanded
      ensures status != AliasExpansion.Expanded ==> list == [o.recip]
      ensures (mapOk && status == AliasExpansion.Expanded && AliasExpansion.Respects(fold, maps))
              ==> AliasExpansion.Correct(fold, maps, o.recip, list)
      ensures var many := mapOk && probe && |list| > 1;
              var tell := !many && o.notify / 2 % 2 == 1 && list != [o.recip];
              && (many ==> offered == old(offered))
              && (!many ==> Offered(old(offered), list, o.dsnOrcpt, if !tell then o.notify else if o.notify == 2 then 1 else o.notify - 2, o.orcpt))
              && expanded == old(expanded) + (if tell then [o] else [])
              && deliverable == old(deliverable) + (if many then [o] else [])
    {
      hide Valid, Key, Kept, AliasExpansion.Respects, AliasExpansion.Correct, Encode, EncodeAll;
      if !mapOk {
        Put(o);
        return [o.recip], AliasExpansion.Expanded;
      }
      list, status := AliasExpansion.MapOneToMany(maps, fold, o.recip, bounds);
      if |list| > 1 && probe {
        deliverable := deliverable + [o];
        return;
      }
      var p := o;
      if WantsSuccess(o.notify) && (|list| > 1 || o.recip != list[0]) {
        expanded := expanded + [o];
        p := o.(notify := Relayed(o.notify));
      }
      PutAll(p, list);
      assert list == [o.recip] <==> |list| == 1 && list[0] == o.recip;
    }
  }

  /** A filter with room for one key, and three recipients of which two are the same: all three
      are written. */
  lemma DuplicateExample(fold: char -> char)
    requires Fold(fold, "a@x") != Fold(fold, "b@x")
    ensures var a, b := Offer("", 0, "", "a@x"), Offer("", 0, "", "b@x");
            Kept(fold, false, 1, [a, b, b]) == [a, b, b]
  {
    var a, b := Offer("", 0, "", "a@x"), Offer("", 0, "", "b@x");
    var k := Fold(fold, "a@x");
    hide Fold, Keys, Kept, Remembered, Key;
    OneKept(fold, a, k);
    FullKept(fold, [a], [k], b);
    FullKept(fold, [a, b], [k, Fold(fold, "b@x")], b);
    assert [a] + [b] == [a, b] && [a, b] + [b] == [a, b, b];
  }

  /** The first offer takes the only place. */
  lemma OneKept(fold: char -> char, a: Offer, k: string)
    requires k == Fold(fold, a.recip)
    ensures Keys(fold, false, [a]) == [k] && Kept(fold, false, 1, [a]) == [a] && Remembered([k], 1) == {k}
  {
    hide Fold;
    NothingKept(fold, false, 1);
    KeptStep(fold, false, 1, [], a);
    assert [] + [a] == [a] && [] + [k] == [k];
  }

  lemma FullKept(fold: char -> char, offers: seq<Offer>, keys: seq<string>, b: Offer)
    requires Keys(fold, false, offers) == keys && |Remembered(keys, 1)| == 1 && Fold(fold, b.recip) !in Remembered(keys, 1)
    ensures var all := keys + [Fold(fold, b.recip)];
            && Keys(fold, false, offers + [b]) == all && Remembered(all, 1) == Remembered(keys, 1)
            && Kept(fold, false, 1, offers + [b]) == Kept(fold, false, 1, offers) + [b]
  {
    hide Fold, Keys, Kept, Remembered;
    KeptStep(fold, false, 1, offers, b);
  }

  lemma NothingKept(fold: char -> char, enableOrcpt: bool, limit: int)
    ensures Keys(fold, enableOrcpt, []) == [] && Kept(fold, enableOrcpt, limit, []) == [] && Remembered([], limit) == {}
  {
  }

  predicate HasEqual(fold: char -> char, enableOrcpt: bool, w: seq<Offer>, o: Offer) {
    exists i :: 0 <= i < |w| && SameOffer(fold, enableOrcpt, w[i], o)
  }

  /** Over a whole run: every recipient offered was written, or an equal one was; equal ones are
      written once as long as the filter can hold all different ones. */
  lemma RunLosesNothing(fold: char -> char, enableOrcpt: bool, limit: int, offers: seq<Offer>)
    requires Plain(fold) && forall i :: 0 <= i < |offers| ==> Clean(offers[i])
    ensures var w := Kept(fold, enableOrcpt, limit, offers);
            && (forall j :: 0 <= j < |offers| ==> HasEqual(fold, enableOrcpt, w, offers[j]))
            && (forall i :: 0 <= i < |w| ==> w[i] in offers)
            && (limit <= 0 || |Distinct(Keys(fold, enableOrcpt, offers))| <= limit ==>
                  forall i, j :: 0 <= i < j < |w| ==> !SameOffer(fold, enableOrcpt, w[i], w[j]))
  {
    hide Key, Keys, Remembered, Fold, SameOffer, Kept, Plain, Clean, Passes, Places;
    var w, keys := Kept(fold, enableOrcpt, limit, offers), Keys(fold, enableOrcpt, offers);
    var at := KeptAt(fold, enableOrcpt, limit, offers, |offers|);
    assert offers[..|offers|] == offers;
    forall j | 0 <= j < |offers| ensures HasEqual(fold, enableOrcpt, w, offers[j]) {
      var i := EqualWritten(fold, enableOrcpt, limit, offers, w, at, j);
    }
    forall i | 0 <= i < |w| ensures w[i] in offers { assert w[i] == offers[at[i]]; }
    if limit <= 0 || |Distinct(keys)| <= limit {
      forall i, j | 0 <= i < j < |w| ensures !SameOffer(fold, enableOrcpt, w[i], w[j]) {
        WrittenOnce(fold, enableOrcpt, limit, offers, w, at, i, j);
      }
    }
  }

  ghost predicate WrittenFrom(offers: seq<Offer>, w: seq<Offer>, at: seq<nat>) {
    |at| == |w| && forall i :: 0 <= i < |w| ==> at[i] < |offers| && w[i] == offers[at[i]]
  }

  lemma SameKeys(fold: char -> char, enableOrcpt: bool, offers: seq<Offer>, i: nat, j: nat)
    requires Plain(fold) && i < |offers| && j < |offers| && Clean(offers[i]) && Clean(offers[j])
    ensures Keys(fold, enableOrcpt, offers)[i] == Keys(fold, enableOrcpt, offers)[j] <==> SameOffer(fold, enableOrcpt, offers[i], offers[j])
  {
    hide Key, Fold, SameOffer, Plain, Clean;
    KeySeparates(fold, enableOrcpt, offers[i], offers[j]);
  }

  lemma EqualWritten(fold: char -> char, enableOrcpt: bool, limit: int, offers: seq<Offer>, w: seq<Offer>, at: seq<nat>, j: nat) returns (k: nat)
    requires Plain(fold) && forall i :: 0 <= i < |offers| ==> Clean(offers[i])
    requires j < |offers| && WrittenFrom(offers, w, at) && Places(Keys(fold, enableOrcpt, offers), limit, |offers|, at)
    ensures k < |w| && SameOffer(fold, enableOrcpt, w[k], offers[j])
  {
    hide Keys, Passes, SameOffer, Plain, Clean;
    var keys := Keys(fold, enableOrcpt, offers);
    NothingLost(keys, limit, j);
    var i :| 0 <= i <= j && keys[i] == keys[j] && Passes(keys, limit, i);
    SameKeys(fold, enableOrcpt, offers, i, j);
    assert i in at;
    k :| 0 <= k < |at| && at[k] == i;
  }

  lemma WrittenOnce(fold: char -> char, enableOrcpt: bool, limit: int, offers: seq<Offer>, w: seq<Offer>, at: seq<nat>, i: nat, j: nat)
    requires Plain(fold) && forall k :: 0 <= k < |offers| ==> Clean(offers[k])
    requires i < j < |w| && WrittenFrom(offers, w, at) && Places(Keys(fold, enableOrcpt, offers), limit, |offers|, at)
    requires limit <= 0 || |Distinct(Keys(fold, enableOrcpt, offers))| <= limit
    ensures !SameOffer(fold, enableOrcpt, w[i], w[j])
  {
    hide Keys, Passes, SameOffer, Plain, Clean;
    var keys := Keys(fold, enableOrcpt, offers);
    NoDuplicatesWithinLimit(keys, limit);
    SameKeys(fold, enableOrcpt, offers, at[i], at[j]);
    assert Passes(keys, limit, at[i]) && Passes(keys, limit, at[j]);
  }

  /** The positions below n of the keys that pass, in order. */
  ghost predicate Places(keys: seq<string>, limit: int, n: nat, at: seq<nat>)
    requires n <= |keys|
  {
    && (forall i :: 0 <= i < |at| ==> at[i] < n && Passes(keys, limit, at[i]))
    && (forall i, j :: 0 <= i < j < |at| ==> at[i] < at[j])
    && (forall j :: 0 <= j < n && Passes(keys, limit, j) ==> j in at)
  }

  lemma PlacesStep(keys: seq<string>, limit: int, n: nat, at: seq<nat>)
    requires n < |keys| && Places(keys, limit, n, at)
    ensures Places(keys, limit, n + 1, if Passes(keys, limit, n) then at + [n] else at)
  {
    hide Passes;
    var next := if Passes(keys, limit, n) then at + [n] else at;
    forall j | 0 <= j < n + 1 && Passes(keys, limit, j) ensures j in next {
      if j < n { assert j in at; } else { assert next[|at|] == n; }
    }
  }

  lemma KeptNext(fold: char -> char, enableOrcpt: bool, limit: int, offers: seq<Offer>, n: nat)
    requires n < |offers|
    ensures var w := Kept(fold, enableOrcpt, limit, offers[..n]);
            Kept(fold, enableOrcpt, limit, offers[..n + 1])
            == if Passes(Keys(fold, enableOrcpt, offers), limit, n) then w + [offers[n]] else w
  {
    hide Key, Remembered, Fold;
    KeptStep(fold, enableOrcpt, limit, offers[..n], offers[n]);
    assert offers[..n] + [offers[n]] == offers[..n + 1];
    assert Keys(fold, enableOrcpt, offers[..n]) == Keys(fold, enableOrcpt, offers)[..n];
  }

  /** Where the offers that are written come from. */
  lemma {:induction false} KeptAt(fold: char -> char, enableOrcpt: bool, limit: int, offers: seq<Offer>, n: nat) returns (at: seq<nat>)
    requires n <= |offers|
    ensures Places(Keys(fold, enableOrcpt, offers), limit, n, at)
    ensures var w := Kept(fold, enableOrcpt, limit, offers[..n]);
            |at| == |w| && forall i :: 0 <= i < |w| ==> at[i] < n && w[i] == offers[at[i]]
    decreases n
  {
    hide Keys, Passes, Kept, Places;
    if n == 0 {
      KeptNone(fold, enableOrcpt, limit, offers[..0]);
      NoPlaces(Keys(fold, enableOrcpt, offers), limit);
      return [];
    }
    var before := KeptAt(fold, enableOrcpt, limit, offers, n - 1);
    KeptNext(fold, enableOrcpt, limit, offers, n - 1);
    PlacesStep(Keys(fold, enableOrcpt, offers), limit, n - 1, before);
    at := if Passes(Keys(fold, enableOrcpt, offers), limit, n - 1) then before + [n - 1] else before;
  }

  lemma NoPlaces(keys: seq<string>, limit: int)
    ensures Places(keys, limit, 0, [])
  {
  }

  lemma KeptNone(fold: char -> char, enableOrcpt: bool, limit: int, offers: seq<Offer>)
    requires offers == []
    ensures Kept(fold, enableOrcpt, limit, offers) == []
  {
  }
}
