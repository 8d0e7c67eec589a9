/** Queue file records (src/global/record.c): one type byte, the payload length in
    7-bit portions with the high bit meaning "more follows", then the payload.
    A queue file is a sequence of bytes; a record is read at, or written over, an offset. */
module Records {

  type byte = x: int | 0 <= x < 256

  datatype Option<+T> = None | Some(value: T)

  datatype Rec = Rec(typ: byte, data: seq<byte>)

  /** What a length field says, and how many bytes it takes. */
  datatype Length = Length(len: nat, used: nat)

  /** A record that was read, and the offset behind it. */
  datatype ReadRec = ReadRec(rec: Rec, next: nat)

  // Record types (src/global/rec_type.h).
  const FROM: byte := 83   // 'S'
  const DONE: byte := 68   // 'D'
  const RCPT: byte := 82   // 'R'
  const ORCP: byte := 79   // 'O'
  const DRCP: byte := 47   // '/'
  const MESG: byte := 77   // 'M'
  const CONT: byte := 76   // 'L'
  const NORM: byte := 78   // 'N'
  const DTXT: byte := 119  // 'w'
  const XTRA: byte := 88   // 'X'
  const PTR: byte := 112   // 'p'
  const END: byte := 69    // 'E'

  const SPACE: byte := 32
  const TAB: byte := 9
  const ZERO: byte := 48   // '0'

  const PTR_PAYLOAD := 15
  const PTR_SIZE := 17

  /** First value that no longer fits the 15 columns of a pointer record. */
  const PTR_LIMIT: nat := 1_000_000_000_000_000

  /** Largest payload that rec_get_raw can read back into an int. */
  const MAX_PAYLOAD: nat := 0x8000_0000

  // ----- Lengths -----

  function LenEnc(n: nat): seq<byte> {
    if n < 128 then [n] else [n % 128 + 128] + LenEnc(n / 128)
  }

  /** Number of length bytes, as counted by REC_SPACE_NEED. */
  function LenLen(n: nat): nat {
    if n < 128 then 1 else 1 + LenLen(n / 128)
  }

  /** REC_SPACE_NEED: space taken by a record with an n-byte payload. */
  function SpaceNeed(n: nat): nat { 1 + LenLen(n) + n }

  function Size(r: Rec): nat { SpaceNeed(|r.data|) }

  function Enc(r: Rec): seq<byte> { [r.typ] + LenEnc(|r.data|) + r.data }

  lemma LenEncSize(n: nat)
    ensures |LenEnc(n)| == LenLen(n) >= 1
  {
  }

  lemma EncSize(r: Rec)
    ensures |Enc(r)| == Size(r) >= 2 + |r.data|
  {
    LenEncSize(|r.data|);
  }

  /** The last length byte after k others.  It is shifted in an int: of the fifth byte, bit 3 is
      the sign, which makes the length illegal, and the bits above it are lost. */
  function LastLen(b: byte, k: nat): Option<nat> {
    if k < 4 then Some(b) else if b % 16 >= 8 then None else Some(b % 16)
  }

  /** The length scanner of rec_get_raw, after k length bytes; at most five are accepted.
      Yields the length and the number of bytes it takes. */
  function ReadLen(s: seq<byte>, k: nat): Option<Length>
    decreases |s|
  {
    if k >= 5 || s == [] then None
    else if s[0] < 128 then
      match LastLen(s[0], k)
      case None => None
      case Some(n) => Some(Length(n, 1))
    else match ReadLen(s[1..], k + 1)
      case None => None
      case Some(Length(n, used)) => Some(Length(s[0] - 128 + 128 * n, used + 1))
  }

  /** The record at offset o and the offset after it, if the bytes there form a record. */
  function Read(f: seq<byte>, o: nat): Option<ReadRec> {
    if o >= |f| then None
    else match ReadLen(f[o + 1..], 0)
      case None => None
      case Some(Length(n, used)) =>
        var p := o + 1 + used;
        if p + n <= |f| then Some(ReadRec(Rec(f[o], f[p..p + n]), p + n)) else None
  }

  /** What is left to read, r, scaled by unit and added to the len already read from k bytes. */
  function Scaled(len: nat, unit: nat, k: nat, r: Option<Length>): Option<Length> {
    match r
    case None => None
    case Some(Length(n, used)) => Some(Length(len + unit * n, k + used))
  }

  lemma ScaledLast(len: nat, unit: nat, k: nat, s: seq<byte>)
    ensures k >= 5 || s == [] ==> Scaled(len, unit, k, ReadLen(s, k)) == None
    ensures k < 5 && s != [] && s[0] < 128 && LastLen(s[0], k).None? ==> Scaled(len, unit, k, ReadLen(s, k)) == None
    ensures k < 5 && s != [] && s[0] < 128 && LastLen(s[0], k).Some? ==>
              var n := LastLen(s[0], k).value;
              unit * n >= 0 && Scaled(len, unit, k, ReadLen(s, k)) == Some(Length(len + unit * n, k + 1))
  {
  }

  lemma Distribute(unit: nat, b: nat, n: nat)
    ensures unit * b >= 0 && unit * (b + 128 * n) == unit * b + unit * 128 * n
  {
  }

  lemma ScaledStep(len: nat, unit: nat, k: nat, s: seq<byte>)
    requires k < 5 && s != [] && s[0] >= 128
    ensures unit * (s[0] - 128) >= 0
    ensures Scaled(len, unit, k, ReadLen(s, k))
         == Scaled(len + unit * (s[0] - 128), unit * 128, k + 1, ReadLen(s[1..], k + 1))
  {
    var rest := ReadLen(s[1..], k + 1);
    if rest.Some? {
      Distribute(unit, s[0] - 128, rest.value.len);
    }
  }

  /** The length loop of rec_get_raw. */
  method ReadLength(f: seq<byte>, o: nat) returns (r: Option<Length>)
    requires o <= |f|
    ensures r == ReadLen(f[o..], 0)
  {
    hide ReadLen, LastLen;
    var len: nat, unit: nat, k: nat := 0, 1, 0;
    while true
      invariant o + k <= |f| && k <= 5
      invariant ReadLen(f[o..], 0) == Scaled(len, unit, k, ReadLen(f[o + k..], k))
      decreases 5 - k
    {
      ScaledLast(len, unit, k, f[o + k..]);
      if k >= 5 || o + k >= |f| { return None; }
      var b := f[o + k];
      if b < 128 {
        var last := LastLen(b, k);
        if last.None? { return None; }
        return Some(Length(len + unit * last.value, k + 1));
      }
      ScaledStep(len, unit, k, f[o + k..]);
      assert f[o + k..][1..] == f[o + (k + 1)..];
      len, unit, k := len + unit * (b - 128), unit * 128, k + 1;
    }
  }

  /** rec_get_raw without transparency flags. */
  method RecGetRaw(f: seq<byte>, o: nat) returns (r: Option<ReadRec>)
    ensures r == Read(f, o)
  {
    if o >= |f| { return None; }
    var len := ReadLength(f, o + 1);
    if len.None? { return None; }
    var p := o + 1 + len.value.used;
    if p + len.value.len > |f| { return None; }
    return Some(ReadRec(Rec(f[o], f[p..p + len.value.len]), p + len.value.len));
  }

  // ----- A record stored in the file -----

  predicate At(f: seq<byte>, o: nat, r: Rec) {
    o + Size(r) <= |f| && f[o..o + Size(r)] == Enc(r)
  }

  /** Lengths that still fit in an int after k length bytes. */
  function Cap(k: nat): nat { if k == 0 then MAX_PAYLOAD else Cap(k - 1) / 128 }

  lemma {:induction false} ReadLenEnc(n: nat, t: seq<byte>, k: nat)
    requires k < 5 && n < Cap(k)
    ensures ReadLen(LenEnc(n) + t, k) == Some(Length(n, LenLen(n)))
    decreases n
  {
    assert Cap(3) == 1024 && Cap(4) == 8;
    if n >= 128 {
      assert k < 4;
      ReadLenEnc(n / 128, t, k + 1);
      assert (LenEnc(n) + t)[1..] == LenEnc(n / 128) + t;
    }
  }

  lemma LenLenSmall(n: nat)
    requires n < MAX_PAYLOAD
    ensures LenLen(n) <= 5
  {
    var a, b, c, d := n / 128, n / 128 / 128, n / 128 / 128 / 128, n / 128 / 128 / 128 / 128;
    assert d < 128;
    assert LenLen(d) == 1;
    assert LenLen(c) <= 2;
    assert LenLen(b) <= 3;
    assert LenLen(a) <= 4;
  }

  lemma AtSplit(f: seq<byte>, o: nat, r: Rec)
    requires At(f, o, r)
    ensures f[o + 1..] == LenEnc(|r.data|) + (r.data + f[o + Size(r)..])
    ensures f[o] == r.typ
  {
    EncSize(r);
    LenEncSize(|r.data|);
    assert f[o..o + Size(r)][0] == f[o];
    assert f[o..] == f[o..o + Size(r)] + f[o + Size(r)..];
    assert f[o + 1..] == f[o..][1..];
    assert (Enc(r) + f[o + Size(r)..])[1..] == LenEnc(|r.data|) + (r.data + f[o + Size(r)..]);
  }

  /** What rec_put stored is what rec_get_raw reads. */
  lemma ReadAt(f: seq<byte>, o: nat, r: Rec)
    requires At(f, o, r) && |r.data| < MAX_PAYLOAD
    ensures Read(f, o) == Some(ReadRec(r, o + Size(r)))
  {
    var t := r.data + f[o + Size(r)..];
    EncSize(r);
    LenEncSize(|r.data|);
    ReadLenEnc(|r.data|, t, 0);
    AtSplit(f, o, r);
    var p := o + 1 + LenLen(|r.data|);
    assert f[p..] == f[o + 1..][LenLen(|r.data|)..] == t;
    assert f[p..p + |r.data|] == f[p..][..|r.data|] == t[..|r.data|] == r.data;
  }

  lemma AtUnique(f: seq<byte>, o: nat, r: Rec, r': Rec)
    requires At(f, o, r) && |r.data| < MAX_PAYLOAD
    requires At(f, o, r') && |r'.data| < MAX_PAYLOAD
    ensures r == r'
  {
    ReadAt(f, o, r);
    ReadAt(f, o, r');
  }

  /** rec_put at offset o: overwrites what is there and extends the file when needed. */
  function Put(f: seq<byte>, o: nat, r: Rec): seq<byte>
    requires o <= |f|
  {
    f[..o] + Enc(r) + if o + |Enc(r)| <= |f| then f[o + |Enc(r)|..] else []
  }

  predicate Disjoint(a: nat, n: nat, b: nat, m: nat) { a + n <= b || b + m <= a }

  lemma PutAt(f: seq<byte>, o: nat, r: Rec)
    requires o <= |f|
    ensures At(Put(f, o, r), o, r)
    ensures |Put(f, o, r)| == if o + Size(r) <= |f| then |f| else o + Size(r)
  {
    EncSize(r);
  }

  lemma PutKeeps(f: seq<byte>, o: nat, r: Rec, p: nat, q: Rec)
    requires o <= |f| && At(f, p, q) && Disjoint(o, Size(r), p, Size(q))
    ensures At(Put(f, o, r), p, q)
  {
    EncSize(r);
    EncSize(q);
    var g := Put(f, o, r);
    assert forall i :: p <= i < p + Size(q) ==> g[i] == f[i];
    assert g[p..p + Size(q)] == f[p..p + Size(q)];
  }

  lemma AppendKeeps(f: seq<byte>, xs: seq<byte>, p: nat, q: Rec)
    requires At(f, p, q)
    ensures At(f + xs, p, q)
  {
    assert (f + xs)[p..p + Size(q)] == f[p..p + Size(q)];
  }

  // ----- Several records in a row -----

  function EncAll(rs: seq<Rec>): seq<byte> {
    if rs == [] then [] else Enc(rs[0]) + EncAll(rs[1..])
  }

  function SizeAll(rs: seq<Rec>): nat {
    if rs == [] then 0 else Size(rs[0]) + SizeAll(rs[1..])
  }

  lemma EncAllSize(rs: seq<Rec>)
    ensures |EncAll(rs)| == SizeAll(rs)
  {
    if rs != [] {
      EncSize(rs[0]);
      EncAllSize(rs[1..]);
    }
  }

  lemma {:induction false} SizeAllConcat(a: seq<Rec>, b: seq<Rec>)
    ensures SizeAll(a + b) == SizeAll(a) + SizeAll(b)
  {
    if a == [] {
      assert a + b == b;
    } else {
      assert (a + b)[1..] == a[1..] + b;
      SizeAllConcat(a[1..], b);
    }
  }

  lemma {:induction false} EncAllConcat(a: seq<Rec>, b: seq<Rec>)
    ensures EncAll(a + b) == EncAll(a) + EncAll(b)
  {
    if a == [] {
      assert a + b == b;
    } else {
      assert (a + b)[1..] == a[1..] + b;
      EncAllConcat(a[1..], b);
    }
  }

  lemma PutEnd(f: seq<byte>, r: Rec)
    ensures Put(f, |f|, r) == f + Enc(r)
  {
    EncSize(r);
  }

  /** Records written one after the other, starting at offset o. */
  function PutAll(f: seq<byte>, o: nat, rs: seq<Rec>): seq<byte>
    requires o <= |f|
    decreases |rs|
  {
    if rs == [] then f
    else
      PutAt(f, o, rs[0]);
      PutAll(Put(f, o, rs[0]), o + Size(rs[0]), rs[1..])
  }

  lemma {:induction false} PutAllSize(f: seq<byte>, o: nat, rs: seq<Rec>)
    requires o <= |f|
    ensures |PutAll(f, o, rs)| == if o + SizeAll(rs) <= |f| then |f| else o + SizeAll(rs)
    decreases |rs|
  {
    if rs != [] {
      PutAt(f, o, rs[0]);
      PutAllSize(Put(f, o, rs[0]), o + Size(rs[0]), rs[1..]);
    }
  }

  lemma {:induction false} PutAllConcat(f: seq<byte>, o: nat, a: seq<Rec>, b: seq<Rec>)
    requires o <= |f|
    ensures o + SizeAll(a) <= |PutAll(f, o, a)|
    ensures PutAll(f, o, a + b) == PutAll(PutAll(f, o, a), o + SizeAll(a), b)
    decreases |a|
  {
    if a == [] {
      assert a + b == b;
    } else {
      assert (a + b)[1..] == a[1..] + b;
      PutAt(f, o, a[0]);
      PutAllConcat(Put(f, o, a[0]), o + Size(a[0]), a[1..], b);
    }
  }

  lemma {:induction false} PutAllEnd(f: seq<byte>, rs: seq<Rec>)
    ensures PutAll(f, |f|, rs) == f + EncAll(rs)
    decreases |rs|
  {
    if rs != [] {
      PutEnd(f, rs[0]);
      EncSize(rs[0]);
      PutAllEnd(f + Enc(rs[0]), rs[1..]);
      assert f + Enc(rs[0]) + EncAll(rs[1..]) == f + EncAll(rs);
    }
  }

  // ----- Pointer records -----

  function Digits(v: nat): seq<byte> {
    if v < 10 then [ZERO + v] else Digits(v / 10) + [ZERO + v % 10]
  }

  function Blanks(n: nat): seq<byte> { seq(n, _ => SPACE) }

  /** "%*s" of a text in a field of the given width. */
  function RightAlign(s: seq<byte>, width: nat): seq<byte> {
    if |s| < width then Blanks(width - |s|) + s else s
  }

  /** A pointer record, payload format "%15ld". */
  function PtrRec(target: nat): Rec { Rec(PTR, RightAlign(Digits(target), PTR_PAYLOAD)) }

  const OFF_T_MAX: nat := 0x7fff_ffff_ffff_ffff

  /** off_cvt_string: decimal digits only, and no overflow of off_t. */
  function ParseDigits(s: seq<byte>, acc: nat): Option<nat>
    decreases |s|
  {
    if s == [] then Some(acc)
    else if ZERO <= s[0] < ZERO + 10 && 10 * acc + (s[0] - ZERO) <= OFF_T_MAX then
      ParseDigits(s[1..], 10 * acc + (s[0] - ZERO))
    else None
  }

  predicate IsSpace(b: byte) { b == SPACE || 9 <= b <= 13 }

  function SkipBlanks(s: seq<byte>): seq<byte> {
    if s != [] && IsSpace(s[0]) then SkipBlanks(s[1..]) else s
  }

  /** The offset that rec_goto jumps to; None for a malformed value. */
  function Target(data: seq<byte>): Option<nat> { ParseDigits(SkipBlanks(data), 0) }

  function Pow10(n: nat): nat { if n == 0 then 1 else 10 * Pow10(n - 1) }

  /** acc with n more digits. */
  function Raised(acc: nat, n: nat): nat { if n == 0 then acc else 10 * Raised(acc, n - 1) }

  lemma {:induction false} RaisedZero(n: nat)
    ensures Raised(0, n) == 0
  {
    if n > 0 { RaisedZero(n - 1); }
  }

  lemma DigitStep(v: nat, t: seq<byte>, acc: nat)
    requires v < 10 && 10 * acc + v <= OFF_T_MAX
    ensures ParseDigits([ZERO + v] + t, acc) == ParseDigits(t, 10 * acc + v)
  {
    assert ([ZERO + v] + t)[1..] == t;
  }

  lemma {:induction false} DigitsParse(v: nat, t: seq<byte>, acc: nat)
    requires Raised(acc, |Digits(v)|) + v <= OFF_T_MAX
    ensures ParseDigits(Digits(v) + t, acc) == ParseDigits(t, Raised(acc, |Digits(v)|) + v)
  {
    if v < 10 {
      assert Raised(acc, 1) == 10 * Raised(acc, 0) == 10 * acc;
      DigitStep(v, t, acc);
    } else {
      var d: seq<byte> := [ZERO + v % 10];
      var n := |Digits(v / 10)|;
      assert Digits(v) + t == Digits(v / 10) + (d + t) && |Digits(v)| == n + 1;
      assert Raised(acc, n + 1) == 10 * Raised(acc, n);
      hide Raised, Digits, ParseDigits;
      DigitsParse(v / 10, d + t, acc);
      DigitStep(v % 10, t, Raised(acc, n) + v / 10);
    }
  }

  lemma {:induction false} DigitsLength(v: nat, n: nat)
    requires n >= 1 && v < Pow10(n)
    ensures 1 <= |Digits(v)| <= n
    ensures !IsSpace(Digits(v)[0])
  {
    if v >= 10 {
      assert Pow10(n) == 10 * Pow10(n - 1) && Pow10(0) == 1;
      DigitsLength(v / 10, n - 1);
    }
  }

  lemma {:induction false} SkipBlanksAligned(n: nat, s: seq<byte>)
    requires s != [] && !IsSpace(s[0])
    ensures SkipBlanks(Blanks(n) + s) == s
  {
    if n == 0 {
      assert Blanks(0) + s == s;
    } else {
      assert (Blanks(n) + s)[1..] == Blanks(n - 1) + s;
      SkipBlanksAligned(n - 1, s);
    }
  }

  lemma AlignedTarget(v: nat, width: nat)
    requires v < Pow10(15)
    ensures Target(RightAlign(Digits(v), width)) == Some(v)
  {
    DigitsLength(v, 15);
    var d := Digits(v);
    SkipBlanksAligned(if |d| < width then width - |d| else 0, d);
    assert Blanks(0) + d == d;
    Pow15();
    RaisedZero(|d|);
    DigitsParse(v, [], 0);
    assert d + [] == d;
  }

  lemma Pow15()
    ensures Pow10(15) == PTR_LIMIT
  {
    assert Pow10(5) == 100_000;
    assert Pow10(10) == 10_000_000_000;
  }

  /** The pointer format: every offset below 10^15 fits in exactly 17 bytes and is read back. */
  lemma PtrRoundTrip(v: nat)
    requires v < PTR_LIMIT
    ensures Target(PtrRec(v).data) == Some(v)
    ensures |PtrRec(v).data| == PTR_PAYLOAD
    ensures Size(PtrRec(v)) == PTR_SIZE
  {
    Pow15();
    AlignedTarget(v, PTR_PAYLOAD);
    DigitsLength(v, 15);
  }

  /** rec_pad: a record with payload "0", right-aligned to fill len bytes (at least 3). */
  function PadRec(typ: byte, len: int): Rec {
    Rec(typ, RightAlign([ZERO], if len - 2 < 1 then 1 else len - 2))
  }

  /** A short record (payload below 15 bytes) and its padding can hold a pointer record;
      the padding reads as a null pointer when it has the pointer type. */
  lemma PadFills(r: Rec, typ: byte)
    requires |r.data| < PTR_PAYLOAD
    ensures var pad := PadRec(typ, PTR_PAYLOAD - |r.data|);
            Size(r) + Size(pad) >= PTR_SIZE && Size(pad) < PTR_SIZE && Target(pad.data) == Some(0)
            && |pad.data| < PTR_PAYLOAD
  {
    var width := if PTR_PAYLOAD - |r.data| - 2 < 1 then 1 else PTR_PAYLOAD - |r.data| - 2;
    assert [ZERO] == Digits(0);
    Pow15();
    AlignedTarget(0, width);
  }

  // ----- The bytes of records -----

  /** The type, the length in 7-bit portions of which the last one has no high bit, and the payload. */
  lemma EncBytes(typ: byte, data: seq<byte>)
    ensures |data| < 128 ==> Enc(Rec(typ, data)) == [typ, |data|] + data
    ensures 128 <= |data| < 16384 ==> Enc(Rec(typ, data)) == [typ, 128 + |data| % 128, |data| / 128] + data
  {
    if 128 <= |data| < 16384 { assert LenEnc(|data| / 128) == [|data| / 128]; }
  }

  /** The digit of v with so many digits behind it. */
  function Place(v: nat, i: nat): nat { if i == 0 then v % 10 else Place(v / 10, i - 1) }

  predicate Reaches(v: nat, i: nat) { if i == 0 then true else v >= 10 && Reaches(v / 10, i - 1) }

  lemma {:induction false} DigitAt(v: nat, i: nat)
    ensures i < |Digits(v)| <==> Reaches(v, i)
    ensures i < |Digits(v)| ==> Digits(v)[|Digits(v)| - 1 - i] == 48 + Place(v, i)
  {
    if i > 0 && v >= 10 { DigitAt(v / 10, i - 1); }
  }

  /** A pointer record has 15 columns: the decimal digits of the offset at the right, and blanks (32). */
  lemma PtrBytes(v: nat, i: nat)
    requires v < PTR_LIMIT && i < 15
    ensures PtrRec(v).typ == 112 && |PtrRec(v).data| == 15
    ensures PtrRec(v).data[14 - i] == if Reaches(v, i) then 48 + Place(v, i) else 32
  {
    PtrRoundTrip(v);
    DigitAt(v, i);
  }
}
