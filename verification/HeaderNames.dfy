/** Which header a name stands for, in terms of bytes (src/global/is_header.c:46-92,
    src/cleanup/cleanup_milter.c:829-884). */
module HeaderNames {
  import opened Records
  import opened Headers

  // ----- What a header looks like -----

  /** A visible ASCII character other than a colon. */
  predicate NameByte(b: byte) { 33 <= b <= 126 && b != 58 }

  /** The first n bytes are a name; blanks (32) and tabs (9) may stand between it and a colon (58). */
  predicate Heading(s: seq<byte>, n: nat) {
    && 0 < n < |s| && (forall i :: 0 <= i < n ==> NameByte(s[i]))
    && exists m :: n <= m < |s| && s[m] == 58 && forall i :: n <= i < m ==> s[i] == 32 || s[i] == 9
  }

  /** Blanks, then a colon. */
  predicate ColonNext(s: seq<byte>) {
    exists m :: 0 <= m < |s| && s[m] == 58 && forall i :: 0 <= i < m ==> s[i] == 32 || s[i] == 9
  }

  lemma ColonStep(s: seq<byte>)
    ensures ColonNext(s) <==> s != [] && (s[0] == 58 || ((s[0] == 32 || s[0] == 9) && ColonNext(s[1..])))
  {
    if s != [] && (s[0] == 32 || s[0] == 9) && ColonNext(s[1..]) {
      var m :| 0 <= m < |s[1..]| && s[1..][m] == 58 && forall i :: 0 <= i < m ==> s[1..][i] == 32 || s[1..][i] == 9;
      assert s[m + 1] == 58 && forall i :: 0 <= i < m + 1 ==> (i > 0 ==> s[i] == s[1..][i - 1]);
    }
    if ColonNext(s) && s[0] != 58 {
      var m :| 0 <= m < |s| && s[m] == 58 && forall i :: 0 <= i < m ==> s[i] == 32 || s[i] == 9;
      assert s[1..][m - 1] == 58 && forall i :: 0 <= i < m - 1 ==> s[1..][i] == s[i + 1];
    }
  }

  /** Behind the name. */
  lemma {:induction false} ScanBlanks(s: seq<byte>, len: nat)
    ensures ScanLabel(s, InSpace, len) == if ColonNext(s) then len else 0
    decreases |s|
  {
    hide ColonNext;
    ColonStep(s);
    if s != [] && SpaceOrTab(s[0]) { ScanBlanks(s[1..], len); }
  }

  /** Inside the name, of which n more bytes follow. */
  predicate NameThenColon(s: seq<byte>, n: nat) {
    n <= |s| && (forall i :: 0 <= i < n ==> NameByte(s[i])) && ColonNext(s[n..])
  }

  lemma {:induction false} ScanName(s: seq<byte>, len: nat, n: nat)
    requires NameThenColon(s, n)
    ensures ScanLabel(s, InChar, len) == len + n
    decreases n
  {
    hide ColonNext;
    ColonStep(s[n..]);
    if n > 0 {
      assert s[1..][n - 1..] == s[n..];
      ScanName(s[1..], len + 1, n - 1);
    } else {
      assert s[0..] == s;
      if s[0] != 58 { ScanBlanks(s[1..], len); }
    }
  }

  lemma {:induction false} ScanFails(s: seq<byte>, len: nat)
    requires ScanLabel(s, InChar, len) != 0
    ensures exists n: nat :: NameThenColon(s, n)
    decreases |s|
  {
    hide ColonNext;
    ColonStep(s);
    if SpaceOrTab(s[0]) || s[0] == COLON {
      ScanBlanks(s[1..], len);
      assert s[0..] == s;
      assert NameThenColon(s, 0);
    } else {
      ScanFails(s[1..], len + 1);
      var n: nat :| NameThenColon(s[1..], n);
      assert s[n + 1..] == s[1..][n..];
      assert NameThenColon(s, n + 1);
    }
  }

  lemma HeadingColon(s: seq<byte>, n: nat)
    requires n <= |s|
    ensures ColonNext(s[n..]) <==> exists m :: n <= m < |s| && s[m] == 58 && forall i :: n <= i < m ==> s[i] == 32 || s[i] == 9
  {
    var t := s[n..];
    if ColonNext(t) {
      var m :| 0 <= m < |t| && t[m] == 58 && forall i :: 0 <= i < m ==> t[i] == 32 || t[i] == 9;
      assert s[n + m] == 58 && forall i :: n <= i < n + m ==> s[i] == t[i - n];
    }
    if m :| n <= m < |s| && s[m] == 58 && forall i :: n <= i < m ==> s[i] == 32 || s[i] == 9 {
      assert t[m - n] == 58 && forall i :: 0 <= i < m - n ==> t[i] == s[n + i];
    }
  }

  /** is_header finds a name of n bytes exactly if the text starts with one, and none exactly if it
      does not. */
  lemma LabelIff(s: seq<byte>, n: nat)
    ensures n > 0 ==> (LabelLen(s) == n <==> Heading(s, n))
    ensures LabelLen(s) == 0 <==> forall k: nat :: !Heading(s, k)
  {
    hide ColonNext;
    forall k: nat | Heading(s, k) ensures LabelLen(s) == k { HeadingScan(s, k); }
    if LabelLen(s) != 0 {
      ScanFails(s[1..], 1);
      var k: nat :| NameThenColon(s[1..], k);
      assert s[k + 1..] == s[1..][k..];
      HeadingColon(s, k + 1);
      assert Heading(s, k + 1);
    }
  }

  lemma HeadingScan(s: seq<byte>, k: nat)
    requires Heading(s, k)
    ensures LabelLen(s) == k
  {
    hide ColonNext;
    HeadingColon(s, k);
    assert s[k..] == s[1..][k - 1..];
    ScanName(s[1..], 1, k - 1);
  }

  // ----- Which headers a name stands for -----

  /** Equal, or the two cases of one ASCII letter. */
  predicate SameLetter(a: byte, b: byte) {
    a == b || (65 <= a <= 90 && b == a + 32) || (65 <= b <= 90 && a == b + 32)
  }

  /** The header has this name, up to the case of ASCII letters. */
  predicate Called(h: Header, name: seq<byte>) {
    && h != [] && Heading(h[0].data, |name|)
    && forall i :: 0 <= i < |name| ==> SameLetter(h[0].data[i], name[i])
  }

  lemma FoldIff(name: seq<byte>, d: seq<byte>)
    requires |name| <= |d|
    ensures SameFold(name, d[..|name|]) <==> forall i :: 0 <= i < |name| ==> SameLetter(d[i], name[i])
  {
    var t := d[..|name|];
    forall i | 0 <= i < |name| ensures Lower(name[i]) == Lower(t[i]) <==> SameLetter(d[i], name[i]) { assert t[i] == d[i]; }
    hide Lower, SameLetter;
  }

  lemma CalledIff(h: Header, name: seq<byte>)
    requires IsHeader(h)
    ensures Matches(Named(name), h[0].data) <==> Called(h, name)
  {
    hide Heading, ScanLabel, Folded, FindEnd, Lower, SameLetter;
    var d := h[0].data;
    LabelIff(d, |name|);
    ScanLabelBound(d, Init, 0);
    var n := LabelLen(d);
    assert Matches(Named(name), d) == SameFold(name, d[..n]);
    if n == |name| {
      FoldIff(name, d);
      hide SameFold;
      assert Heading(d, n);
    } else if Heading(d, |name|) {
      HeadingScan(d, |name|);
    }
  }

  function Calls(hs: seq<Header>, name: seq<byte>): nat {
    if hs == [] then 0 else (if Called(hs[0], name) then 1 else 0) + Calls(hs[1..], name)
  }

  /** The nth header of this name, not counting the first skip headers. */
  predicate Nth(hs: seq<Header>, nth: nat, name: seq<byte>, skip: nat, p: nat) {
    skip <= p < |hs| && Called(hs[p], name) && Calls(hs[skip..p], name) == nth - 1
  }

  lemma {:induction false} PickNth(hs: seq<Header>, nth: nat, name: seq<byte>, skip: nat, p: nat)
    requires nth >= 1 && AllHeaders(hs)
    ensures Pick(hs, nth, Named(name), skip) == Some(p) <==> Nth(hs, nth, name, skip, p)
    decreases |hs|
  {
    hide Called, IsHeader, Matches;
    if hs != [] {
      CalledIff(hs[0], name);
      var nth' := if skip > 0 || !Called(hs[0], name) then nth else nth - 1;
      var skip' := if skip > 0 then skip - 1 else 0;
      if p > 0 && nth' > 0 { PickNth(hs[1..], nth', name, skip', p - 1); }
      if skip == 0 && p > 0 && p < |hs| {
        TailSlice(hs, 1, p);
        assert hs[0..p][1..] == hs[1..p];
      } else if skip > 0 && skip <= p < |hs| {
        TailSlice(hs, skip, p);
      }
      if p == 0 && nth' > 0 { PickLater(hs, nth', name, skip'); }
    }
  }

  lemma TailSlice(hs: seq<Header>, a: nat, b: nat)
    requires 1 <= a <= b <= |hs|
    ensures hs[a..b] == hs[1..][a - 1..b - 1]
  {
    var t, x := hs[1..], hs[a..b];
    var y := t[a - 1..b - 1];
    forall k | 0 <= k < b - a ensures x[k] == y[k] { assert y[k] == t[a - 1 + k] && t[a - 1 + k] == hs[a + k]; }
  }

  lemma PickLater(hs: seq<Header>, nth: nat, name: seq<byte>, skip: nat)
    requires nth >= 1 && AllHeaders(hs) && hs != []
    ensures Later(Pick(hs[1..], nth, Named(name), skip)) != Some(0)
  {
    hide Pick;
  }

  /** A deletion removes exactly the nth header of this name behind the first header of the message, and
      nothing when there is none; an update replaces exactly that one, and appends when there is none. */
  lemma EditsByName(hs: seq<Header>, nth: nat, name: seq<byte>, h: Header)
    requires nth >= 1 && AllHeaders(hs)
    ensures forall p: nat :: Nth(hs, nth, name, 1, p) ==>
              && DelList(hs, nth, name) == hs[..p] + hs[p + 1..]
              && UpdList(hs, nth, name, h) == hs[..p] + [h] + hs[p + 1..]
    ensures (forall p: nat :: !Nth(hs, nth, name, 1, p)) ==>
              DelList(hs, nth, name) == hs && UpdList(hs, nth, name, h) == hs + [h]
  {
    hide IsHeader, Nth, Pick;
    forall p: nat ensures Pick(hs, nth, Named(name), 1) == Some(p) <==> Nth(hs, nth, name, 1, p) {
      PickNth(hs, nth, name, 1, p);
    }
  }
}
