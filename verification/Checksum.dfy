/**
 The Internet checksum of al_chksum.c on a little-endian host, over buffers at any alignment and
 chains of any lengths.
 */
module Checksum {

  import opened Octets

  type Bytes = seq<Byte>

  const W32 := 0x1_0000_0000

  /** A 16-bit word in memory, low byte first. */
  function Word(lo: nat, hi: nat): nat {
    lo + 256 * hi
  }

  /** The sum of the 16-bit words as a little-endian host loads them, a last odd byte being followed by zero. */
  function Sum(b: Bytes): nat {
    if b == [] then 0 else if |b| == 1 then b[0] else Word(b[0], b[1]) + Sum(b[2..])
  }

  /** The sum of the 16-bit words in network byte order, as in section 1 of RFC 1071. */
  function NetSum(b: Bytes): nat {
    if b == [] then 0 else if |b| == 1 then Word(0, b[0]) else Word(b[1], b[0]) + NetSum(b[2..])
  }

  // ---------- one's complement arithmetic ----------

  ghost predicate Shifts(x: nat, y: nat, t: int) {
    x == y + 65535 * t && (x == 0 <==> y == 0)
  }

  /** The same number in 16-bit one's complement: carries out of 16 bits count as ones, and only zero is zero. */
  ghost predicate Same(x: nat, y: nat) {
    exists t: int :: Shifts(x, y, t)
  }

  /** r is x in 16 bits. */
  ghost predicate Is(r: nat, x: nat) {
    r <= 65535 && Same(r, x)
  }

  lemma SameBy(x: nat, y: nat, t: int)
    requires Shifts(x, y, t)
    ensures Same(x, y)
  {}

  lemma SameSym(x: nat, y: nat)
    requires Same(x, y)
    ensures Same(y, x)
  {
    var t: int :| Shifts(x, y, t);
    assert Shifts(y, x, -t);
  }

  lemma SameTrans(x: nat, y: nat, z: nat)
    requires Same(x, y) && Same(y, z)
    ensures Same(x, z)
  {
    var s: int :| Shifts(x, y, s);
    var t: int :| Shifts(y, z, t);
    assert Shifts(x, z, s + t);
  }

  lemma SameAdd(x: nat, y: nat, a: nat, b: nat)
    requires Same(x, y) && Same(a, b)
    ensures Same(x + a, y + b)
  {
    var s: int :| Shifts(x, y, s);
    var t: int :| Shifts(a, b, t);
    assert Shifts(x + a, y + b, s + t);
  }

  lemma SameTimes(x: nat, y: nat)
    requires Same(x, y)
    ensures Same(256 * x, 256 * y)
  {
    var t: int :| Shifts(x, y, t);
    assert Shifts(256 * x, 256 * y, 256 * t);
  }

  lemma SameTwice(x: nat)
    ensures Same(256 * (256 * x), x)
  {
    SameBy(256 * (256 * x), x, x);
  }

  /** 16 bits hold a number in one way only. */
  lemma IsUnique(r: nat, s: nat, x: nat)
    requires Is(r, x) && Is(s, x)
    ensures r == s
  {
    var a: int :| Shifts(r, x, a);
    var b: int :| Shifts(s, x, b);
    var d := a - b;
    assert r - s == 65535 * d;
  }

  /** That number is zero for zero, and otherwise the residue modulo 65535 in 1..65535. */
  lemma IsResidue(r: nat, x: nat)
    requires r <= 65535
    ensures Is(r, x) <==> r == if x == 0 then 0 else 1 + (x - 1) % 65535
  {
    var s: nat := if x == 0 then 0 else 1 + (x - 1) % 65535;
    SameBy(s, x, if x == 0 then 0 else -((x - 1) / 65535));
    if Is(r, x) { IsUnique(r, s, x); }
  }

  // ---------- folding and swapping ----------

  /** FOLD_U32T: the upper half added to the lower. */
  function Fold(u: nat): nat {
    u / 65536 + u % 65536
  }

  function Swap(w: nat): (r: nat)
    requires w <= 65535
    ensures r <= 65535
  {
    256 * (w % 256) + w / 256
  }

  lemma FoldSame(u: nat)
    ensures Same(Fold(u), u)
  {
    SameBy(Fold(u), u, -(u / 65536));
  }

  /** Two folds bring a 32-bit sum down to 16 bits. */
  lemma FoldTwice(u: nat)
    requires u < W32
    ensures Is(Fold(Fold(u)), u)
  {
    FoldSame(u);
    FoldSame(Fold(u));
    SameTrans(Fold(Fold(u)), Fold(u), u);
  }

  /** One fold is enough for the sum of two 16-bit numbers. */
  lemma FoldOnce(x: nat, y: nat)
    requires x <= 65535 && y <= 65535
    ensures Is(Fold(x + y), x + y)
  {
    FoldSame(x + y);
  }

  /** Swapping the bytes multiplies by 256. */
  lemma SwapSame(w: nat)
    requires w <= 65535
    ensures Same(Swap(w), 256 * w)
  {
    SameBy(Swap(w), 256 * w, -(w / 256));
  }

  lemma SwapIs(r: nat, x: nat)
    requires Is(r, x)
    ensures Is(Swap(r), 256 * x)
  {
    SwapSame(r);
    SameTimes(r, x);
    SameTrans(Swap(r), 256 * r, 256 * x);
  }

  lemma IsSame(r: nat, x: nat, y: nat)
    requires Is(r, x) && Same(x, y)
    ensures Is(r, y)
  {
    SameTrans(r, x, y);
  }

  /** Swapping undoes a shift by one byte. */
  lemma SwapBack(r: nat, x: nat)
    requires Is(r, 256 * x)
    ensures Is(Swap(r), x)
  {
    SwapIs(r, 256 * x);
    SameTwice(x);
    IsSame(Swap(r), 256 * (256 * x), x);
  }

  // ---------- sums of parts ----------

  lemma {:induction false} SumEven(a: Bytes, b: Bytes)
    requires |a| % 2 == 0
    ensures Sum(a + b) == Sum(a) + Sum(b)
  {
    if a == [] {
      assert a + b == b;
    } else {
      assert (a + b)[2..] == a[2..] + b;
      SumEven(a[2..], b);
    }
  }

  /** The sum of b when it is read one byte off, its first byte being the high one of a word. */
  function OffSum(b: Bytes): nat {
    if b == [] then 0 else Word(0, b[0]) + Sum(b[1..])
  }

  /** It is the sum but for swapped bytes. */
  lemma {:induction false} OffSame(b: Bytes)
    ensures Same(256 * Sum(b), OffSum(b))
  {
    if |b| <= 1 {
      SameBy(256 * Sum(b), OffSum(b), 0);
    } else {
      OffSame(b[2..]);
      var x: nat, y: nat := b[0], b[1];
      assert Sum(b) == Word(x, y) + Sum(b[2..]);
      assert OffSum(b) == Word(y, x) + OffSum(b[2..]) by { OffStep(b); }
      SameBy(256 * Word(x, y), Word(y, x), y);
      SameAdd(256 * Word(x, y), Word(y, x), 256 * Sum(b[2..]), OffSum(b[2..]));
    }
  }

  lemma OffStep(b: Bytes)
    requires |b| >= 2
    ensures OffSum(b) == Word(b[1], b[0]) + OffSum(b[2..])
  {
    if |b| > 2 { assert b[1..][2..] == b[2..][1..]; }
  }

  lemma {:induction false} SumOdd(a: Bytes, b: Bytes)
    requires |a| % 2 == 1
    ensures Sum(a + b) == Sum(a) + OffSum(b)
  {
    if b == [] {
      assert a + b == a;
    } else if |a| == 1 {
      assert (a + b)[2..] == b[1..];
    } else {
      assert (a + b)[2..] == a[2..] + b;
      SumOdd(a[2..], b);
    }
  }

  /** The two byte orders. */
  lemma {:induction false} NetSame(b: Bytes)
    ensures Same(256 * Sum(b), NetSum(b))
  {
    if |b| <= 1 {
      SameBy(256 * Sum(b), NetSum(b), 0);
    } else {
      NetSame(b[2..]);
      var x: nat, y: nat := b[0], b[1];
      SameBy(256 * Word(x, y), Word(y, x), y);
      SameAdd(256 * Word(x, y), Word(y, x), 256 * Sum(b[2..]), NetSum(b[2..]));
    }
  }

  // ---------- lwip_standard_chksum ----------

  /** The bulk loop: all full words from byte `from` on, in 32 bits. */
  method Bulk(b: Bytes, from: nat) returns (sum: nat, at: nat)
    requires from <= |b| <= 0x20000
    ensures from <= at <= |b| && (at - from) % 2 == 0 && |b| - at <= 1 && sum == Sum(b[from..at])
    ensures sum <= 65535 * ((at - from) / 2)
  {
    sum, at := 0, from;
    while |b| - at > 1
      invariant from <= at <= |b| && (at - from) % 2 == 0 && sum == Sum(b[from..at]) && sum <= 65535 * ((at - from) / 2)
    {
      assert b[from..at + 2] == b[from..at] + b[at..at + 2];
      SumEven(b[from..at], b[at..at + 2]);
      assert Sum(b[at..at + 2]) == Word(b[at], b[at + 1]);
      sum := Add(sum, Word(b[at], b[at + 1]));
      at := at + 2;
    }
  }

  lemma EndBytes(b: Bytes, from: nat, at: nat, sum: nat)
    requires from <= 1 && from <= at <= |b| <= 0x20000 && |b| - at <= 1 && (at - from) % 2 == 0
    requires sum == Sum(b[from..at]) && sum <= 65535 * ((at - from) / 2)
    ensures var last: nat := if at < |b| then b[at] else 0;
        sum + last == Sum(b[from..]) && sum + last + (if from == 1 then Word(0, b[0]) else 0) < W32
  {
    assert b[from..] == b[from..at] + b[at..];
    SumEven(b[from..at], b[at..]);
  }

  /** The words from byte `from` on, and the end bytes. */
  method Total(b: Bytes, from: nat, first: nat) returns (sum: nat)
    requires from <= 1 && from <= |b| <= 0x20000 && first == if from == 1 then Word(0, b[0]) else 0
    ensures sum == first + Sum(b[from..]) < W32
  {
    var at;
    sum, at := Bulk(b, from);
    EndBytes(b, from, at, sum);
    var last: nat := if |b| - at > 0 then b[at] else 0;
    sum := Add(sum, first + last);
  }

  /**
   lwip_standard_chksum: at either alignment the one's complement sum of the words, with no overflow
   of the 32-bit sum for up to 0x20000 bytes.
   */
  method StandardChecksum(b: Bytes, odd: bool) returns (r: nat)
    requires |b| <= 0x20000
    ensures Is(r, Sum(b))
  {
    var from, first := 0, 0;
    if odd && |b| > 0 {
      first := Word(0, b[0]);
      from := 1;
    }
    var sum := Total(b, from, first);
    FoldTwice(sum);
    r := Fold(sum);
    r := Fold(r);
    if odd {
      assert sum == OffSum(b);
      OffSame(b);
      SameSym(256 * Sum(b), OffSum(b));
      IsSame(r, OffSum(b), 256 * Sum(b));
      SwapBack(r, Sum(b));
      r := Swap(r);
    } else {
      assert b[0..] == b;
    }
  }

  /** inet_chksum. */
  method InetChecksum(b: Bytes, odd: bool) returns (r: nat)
    requires |b| <= 65535
    ensures r <= 65535 && Is(65535 - r, Sum(b))
  {
    var s := StandardChecksum(b, odd);
    r := 65535 - s;
  }

  // ---------- inet_chksum_pseudo ----------

  /** All bytes of a chain. */
  function Concat(chain: seq<Bytes>): Bytes {
    if chain == [] then [] else Concat(chain[..|chain| - 1]) + chain[|chain| - 1]
  }

  /** One buffer is its own bytes, and a chain of two parts has the bytes of the one and then of the other. */
  lemma {:induction false} ConcatParts(b: Bytes, c: seq<Bytes>, d: seq<Bytes>)
    ensures Concat([b]) == b && Concat(c + d) == Concat(c) + Concat(d)
  {
    if d == [] {
      assert c + d == c;
    } else {
      var n := |d| - 1;
      ConcatParts(b, c, d[..n]);
      assert (c + d)[..|c + d| - 1] == c + d[..n];
    }
  }

  /** The accumulator after the bytes b of the chain: swapped after an odd number of bytes. */
  ghost predicate Accumulated(acc: nat, swapped: bool, b: Bytes) {
    (swapped <==> |b| % 2 == 1) && Is(acc, if swapped then 256 * Sum(b) else Sum(b))
  }

  lemma AddPart(acc: nat, x: nat, s: nat, y: nat)
    requires Is(acc, x) && Is(s, y)
    ensures Is(Fold(acc + s), x + y)
  {
    FoldOnce(acc, s);
    SameAdd(acc, x, s, y);
    IsSame(Fold(acc + s), acc + s, x + y);
  }

  /** 256 times a sum that goes on with b at an odd place. */
  lemma OddPart(a: Bytes, b: Bytes)
    requires |a| % 2 == 1
    ensures Same(256 * Sum(a) + Sum(b), 256 * Sum(a + b))
  {
    SumOdd(a, b);
    OffSame(b);
    SameTimes(256 * Sum(b), OffSum(b));
    SameTwice(Sum(b));
    SameSym(256 * (256 * Sum(b)), Sum(b));
    SameTrans(Sum(b), 256 * (256 * Sum(b)), 256 * OffSum(b));
    SameBy(256 * Sum(a), 256 * Sum(a), 0);
    SameAdd(256 * Sum(a), 256 * Sum(a), Sum(b), 256 * OffSum(b));
  }

  lemma PartAtOdd(acc: nat, a: Bytes, b: Bytes, s: nat, u: nat)
    requires |a| % 2 == 1 && Is(acc, 256 * Sum(a)) && Is(s, Sum(b)) && u == Fold(acc + s)
    ensures Is(u, 256 * Sum(a + b)) && Is(Swap(u), Sum(a + b))
  {
    AddPart(acc, 256 * Sum(a), s, Sum(b));
    OddPart(a, b);
    IsSame(u, 256 * Sum(a) + Sum(b), 256 * Sum(a + b));
    SwapBack(u, Sum(a + b));
  }

  lemma PartAtEven(acc: nat, a: Bytes, b: Bytes, s: nat, u: nat)
    requires |a| % 2 == 0 && Is(acc, Sum(a)) && Is(s, Sum(b)) && u == Fold(acc + s)
    ensures Is(u, Sum(a + b)) && Is(Swap(u), 256 * Sum(a + b))
  {
    AddPart(acc, Sum(a), s, Sum(b));
    SumEven(a, b);
    SwapIs(u, Sum(a + b));
  }

  lemma Parity(a: Bytes, b: Bytes)
    ensures |a + b| % 2 == if |b| % 2 == 0 then |a| % 2 else 1 - |a| % 2
  {}

  /** u is the sum of c, its bytes swapped or not, and swapping them gives the other. */
  ghost predicate Either(u: nat, swapped: bool, c: Bytes) {
    && Is(u, if swapped then 256 * Sum(c) else Sum(c))
    && Is(Swap(u), if swapped then Sum(c) else 256 * Sum(c))
  }

  /** acc += w. */
  method Add(acc: nat, w: nat) returns (r: nat)
    requires acc + w < W32
    ensures r == acc + w
  {
    r := (acc + w) % W32;
  }

  method AddSum(acc: nat, swapped: bool, s: nat, ghost a: Bytes, ghost b: Bytes) returns (u: nat)
    requires Accumulated(acc, swapped, a) && Is(s, Sum(b))
    ensures Either(u, swapped, a + b)
  {
    u := Add(acc, s);
    u := Fold(u);
    if swapped { PartAtOdd(acc, a, b, s, u); } else { PartAtEven(acc, a, b, s, u); }
  }

  /** One buffer more: one fold, and a swap if its length is odd. */
  method AddBuffer(acc: nat, swapped: bool, b: Bytes, odd: bool, ghost a: Bytes) returns (acc': nat, swapped': bool)
    requires Accumulated(acc, swapped, a) && |b| <= 65535
    ensures Accumulated(acc', swapped', a + b)
  {
    var s := StandardChecksum(b, odd);
    acc' := AddSum(acc, swapped, s, a, b);
    swapped' := swapped;
    Parity(a, b);
    if |b| % 2 != 0 {
      swapped' := !swapped;
      acc' := Swap(acc');
    }
  }

  /** The loop over the chain. */
  method ChainSum(chain: seq<Bytes>, odd: seq<bool>) returns (acc: nat)
    requires |odd| == |chain| && forall i :: 0 <= i < |chain| ==> |chain[i]| <= 65535
    ensures Is(acc, Sum(Concat(chain)))
  {
    acc := 0;
    var swapped, i := false, 0;
    SameBy(0, 0, 0);
    ghost var a: Bytes := [];
    while i < |chain|
      invariant i <= |chain| && a == Concat(chain[..i]) && Accumulated(acc, swapped, a)
    {
      acc, swapped := AddBuffer(acc, swapped, chain[i], odd[i], a);
      assert chain[..i + 1][..i] == chain[..i];
      a := a + chain[i];
      i := i + 1;
    }
    assert chain[..i] == chain;
    if swapped {
      SwapBack(acc, Sum(a));
      acc := Swap(acc);
    }
  }

  /** The IPv4 pseudo header of section 3.1 of RFC 793: source, destination, zero, protocol and length. */
  function PseudoHeader(src: Bytes, dst: Bytes, proto: Byte, len: nat): Bytes
    requires len < 65536
  {
    src + dst + [0, proto, len / 256, len % 256]
  }

  lemma HeaderSum(src: Bytes, dst: Bytes, proto: Byte, len: nat)
    requires |src| == |dst| == 4 && len < 65536
    ensures Sum(PseudoHeader(src, dst, proto, len)) ==
      Word(src[0], src[1]) + Word(src[2], src[3]) + Word(dst[0], dst[1]) + Word(dst[2], dst[3])
      + Word(0, proto) + Word(len / 256, len % 256)
  {
    SumFour(src);
    SumFour(dst);
    SumFour([0, proto, len / 256, len % 256]);
    SumEven(src, dst);
    SumEven(src + dst, [0, proto, len / 256, len % 256]);
  }

  lemma SumFour(b: Bytes)
    requires |b| == 4
    ensures Sum(b) == Word(b[0], b[1]) + Word(b[2], b[3])
  {
    SumTwo(b[2..]);
  }

  /** The words of the pseudo header added in 32 bits. */
  method AddHeader(acc0: nat, src: Bytes, dst: Bytes, proto: Byte, len: nat) returns (acc: nat)
    requires acc0 <= 65535 && |src| == |dst| == 4 && len < 65536
    ensures acc == acc0 + Sum(PseudoHeader(src, dst, proto, len)) < W32
  {
    HeaderSum(src, dst, proto, len);
    acc := Add(acc0, Word(src[0], src[1]));
    acc := Add(acc, Word(src[2], src[3]));
    acc := Add(acc, Word(dst[0], dst[1]));
    acc := Add(acc, Word(dst[2], dst[3]));
    acc := Add(acc, Word(0, proto));
    acc := Add(acc, Word(len / 256, len % 256));
  }

  lemma WholeSum(acc: nat, head: Bytes, body: Bytes, total: nat, r: nat)
    requires Is(acc, Sum(body)) && |head| % 2 == 0 && total == acc + Sum(head) && Is(r, total)
    ensures Is(r, Sum(head + body))
  {
    SumEven(head, body);
    AddMore(acc, Sum(body), Sum(head), r);
  }

  lemma AddMore(acc: nat, x: nat, h: nat, r: nat)
    requires Is(acc, x) && Is(r, acc + h)
    ensures Is(r, h + x)
  {
    SameBy(h, h, 0);
    SameAdd(acc, x, h, h);
    IsSame(r, acc + h, x + h);
  }

  /**
   inet_chksum_pseudo: for every chain of buffers, the first of them from byte boff on, the complement
   of the one's complement sum of the pseudo header and all bytes.
   */
  method PseudoChecksum(chain: seq<Bytes>, odd: seq<bool>, boff: nat, src: Bytes, dst: Bytes, proto: Byte, len: nat)
      returns (r: nat)
    requires |odd| == |chain| > 0 && (forall i :: 0 <= i < |chain| ==> |chain[i]| <= 65535) && boff <= |chain[0]|
    requires |src| == |dst| == 4 && len < 65536
    ensures r <= 65535 && Is(65535 - r, Sum(PseudoHeader(src, dst, proto, len) + Concat(chain[0 := chain[0][boff..]])))
  {
    var data: seq<Bytes> := chain[0 := chain[0][boff..]];
    var sum := ChainSum(data, odd);
    var acc := AddHeader(sum, src, dst, proto, len);
    var low := FoldDown(acc);
    WholeSum(sum, PseudoHeader(src, dst, proto, len), Concat(data), acc, low);
    r := 65535 - low;
  }

  /** A number has one complement. */
  lemma OneChecksum(r: nat, s: nat, x: nat)
    requires r <= 65535 && s <= 65535 && Is(65535 - r, x) && Is(65535 - s, x)
    ensures r == s
  {
    IsUnique(65535 - r, 65535 - s, x);
  }

  /**
   However the bytes are split into buffers, and wherever the buffers lie, the checksum is that of the
   pseudo header and the bytes in one flat buffer.
   */
  method FlatChecksum(chain: seq<Bytes>, odd: seq<bool>, boff: nat, src: Bytes, dst: Bytes, proto: Byte, len: nat,
      flat: Bytes, flatOdd: bool)
    returns (r: nat, s: nat)
    requires |odd| == |chain| > 0 && (forall i :: 0 <= i < |chain| ==> |chain[i]| <= 65535) && boff <= |chain[0]|
    requires |src| == |dst| == 4 && len < 65536 && |flat| <= 65535 - 12
    requires flat == Concat(chain[0 := chain[0][boff..]])
    ensures r == s
  {
    r := PseudoChecksum(chain, odd, boff, src, dst, proto, len);
    s := InetChecksum(src + dst + [0, proto, len / 256, len % 256] + flat, flatOdd);
    OneChecksum(r, s, Sum(src + dst + [0, proto, len / 256, len % 256] + flat));
  }

  /** Two chains with the same bytes in order have the same checksum. */
  method SplitAnywhere(c: seq<Bytes>, codd: seq<bool>, d: seq<Bytes>, dodd: seq<bool>, src: Bytes, dst: Bytes,
      proto: Byte, len: nat)
    returns (r: nat, s: nat)
    requires |codd| == |c| > 0 && |dodd| == |d| > 0 && |src| == |dst| == 4 && len < 65536
    requires (forall i :: 0 <= i < |c| ==> |c[i]| <= 65535) && forall i :: 0 <= i < |d| ==> |d[i]| <= 65535
    requires Concat(c) == Concat(d)
    ensures r == s
  {
    r := PseudoChecksum(c, codd, 0, src, dst, proto, len);
    s := PseudoChecksum(d, dodd, 0, src, dst, proto, len);
    assert c[0 := c[0][0..]] == c && d[0 := d[0][0..]] == d;
    OneChecksum(r, s, Sum(PseudoHeader(src, dst, proto, len) + Concat(c)));
  }

  /** Two buffers of two bytes, from and to 0.0.0.0, protocol 6. */
  method KnownAnswer() returns (r: nat)
    ensures r == 0x4997
  {
    var chain: seq<Bytes> := [[0x12, 0x34], [0x56, 0x78]];
    r := PseudoChecksum(chain, [false, true], 0, [0, 0, 0, 0], [0, 0, 0, 0], 6, 4);
    KnownSum(chain);
    IsResidue(65535 - 0x4997, 0x3412 + 0x7856 + 0x600 + 0x400);
    OneChecksum(r, 0x4997, 0x3412 + 0x7856 + 0x600 + 0x400);
  }

  lemma KnownBody(chain: seq<Bytes>)
    requires chain == [[0x12, 0x34], [0x56, 0x78]]
    ensures Concat(chain[0 := chain[0][0..]]) == [0x12, 0x34, 0x56, 0x78]
  {
    ConcatParts(chain[0], [chain[0]], [chain[1]]);
    ConcatParts(chain[1], [chain[0]], [chain[1]]);
    assert chain[0 := chain[0][0..]] == [chain[0]] + [chain[1]] == chain;
  }

  lemma KnownSum(chain: seq<Bytes>)
    requires chain == [[0x12, 0x34], [0x56, 0x78]]
    ensures Sum(PseudoHeader([0, 0, 0, 0], [0, 0, 0, 0], 6, 4) + Concat(chain[0 := chain[0][0..]])) ==
        0x3412 + 0x7856 + 0x600 + 0x400
  {
    KnownBody(chain);
    BodyAdded([0, 0, 0, 0], [0, 0, 0, 0], 6, 4, [0x12, 0x34, 0x56, 0x78]);
    HeaderSum([0, 0, 0, 0], [0, 0, 0, 0], 6, 4);
  }

  lemma BodyAdded(src: Bytes, dst: Bytes, proto: Byte, len: nat, body: Bytes)
    requires |src| == |dst| == |body| == 4 && len < 65536
    ensures Sum(PseudoHeader(src, dst, proto, len) + body) ==
        Sum(PseudoHeader(src, dst, proto, len)) + Word(body[0], body[1]) + Word(body[2], body[3])
  {
    SumFour(body);
    SumEven(PseudoHeader(src, dst, proto, len), body);
  }

  method FoldDown(acc: nat) returns (r: nat)
    requires acc < W32
    ensures Is(r, acc)
  {
    FoldTwice(acc);
    r := Fold(acc);
    r := Fold(r);
  }

  // ---------- what the checksum is for ----------

  /** Stored in the message, low byte first, it is the checksum in network byte order. */
  lemma InNetworkOrder(r: nat, b: Bytes)
    requires r <= 65535 && Is(65535 - r, Sum(b))
    ensures Is(65535 - Swap(r), NetSum(b))
  {
    NetIs(65535 - r, b);
    SwapComplement(r);
  }

  lemma NetIs(s: nat, b: Bytes)
    requires Is(s, Sum(b))
    ensures Is(Swap(s), NetSum(b))
  {
    SwapIs(s, Sum(b));
    NetSame(b);
    IsSame(Swap(s), 256 * Sum(b), NetSum(b));
  }

  lemma SwapComplement(r: nat)
    requires r <= 65535
    ensures Swap(65535 - r) == 65535 - Swap(r)
  {
    var lo, hi := r % 256, r / 256;
    assert (65535 - r) % 256 == 255 - lo && (65535 - r) / 256 == 255 - hi;
  }

  /** The message with the 16-bit word r at byte f. */
  function Store(b: Bytes, f: nat, r: nat): Bytes
    requires f + 1 < |b| && r <= 65535
  {
    b[..f] + [r % 256, r / 256] + b[f + 2..]
  }

  lemma SumMiddle(a: Bytes, w: Bytes, c: Bytes)
    requires |a| % 2 == 0 && |w| == 2
    ensures Sum(a + w + c) == Sum(a) + Sum(w) + Sum(c)
  {
    SumEven(a, w);
    SumEven(a + w, c);
  }

  lemma SumStored(b: Bytes, f: nat, r: nat)
    requires f + 1 < |b| && f % 2 == 0 && r <= 65535
    ensures Sum(Store(b, f, r)) + Sum(b[f..f + 2]) == Sum(b) + Sum([r % 256, r / 256])
  {
    SumMiddle(b[..f], [r % 256, r / 256], b[f + 2..]);
    SumMiddle(b[..f], b[f..f + 2], b[f + 2..]);
    assert b == b[..f] + b[f..f + 2] + b[f + 2..];
  }

  lemma SumTwo(b: Bytes)
    requires |b| == 2
    ensures Sum(b) == Word(b[0], b[1])
  {}

  /** Storing the checksum in a zeroed, aligned field makes the message check: the checksum is then zero. */
  lemma StoredChecks(b: Bytes, f: nat, r: nat, r': nat)
    requires f + 1 < |b| && f % 2 == 0 && b[f] == 0 && b[f + 1] == 0 && r <= 65535 && Is(65535 - r, Sum(b))
    requires r' <= 65535 && Is(65535 - r', Sum(Store(b, f, r)))
    ensures r' == 0
  {
    SumStored(b, f, r);
    SumTwo(b[f..f + 2]);
    SumTwo([r % 256, r / 256]);
    var x := Sum(b);
    var t: int :| Shifts(65535 - r, x, t);
    SameBy(65535, x + r, t);
    IsUnique(65535 - r', 65535, x + r);
  }
}
