/** base64.h: the printer and the parser, and the round trip. */
module Base64 {

  import opened Octets

  // ---------- the alphabet ----------

  /** base64_chars[v]. */
  function Letter(v: nat): (c: char)
    requires v < 64
    ensures IsLetter(c)
  {
    if v < 26 then ('A' as int + v) as char
    else if v < 52 then ('a' as int + (v - 26)) as char
    else if v < 62 then ('0' as int + (v - 52)) as char
    else if v == 62 then '+' else '/'
  }

  /** is_base64. */
  predicate IsLetter(c: char) {
    'A' <= c <= 'Z' || 'a' <= c <= 'z' || '0' <= c <= '9' || c == '+' || c == '/'
  }

  /** base64_chars.find(c) in an unsigned char: 255 where there is no such letter. */
  function Value(c: char): Byte
  {
    if 'A' <= c <= 'Z' then c as int - 'A' as int
    else if 'a' <= c <= 'z' then c as int - 'a' as int + 26
    else if '0' <= c <= '9' then c as int - '0' as int + 52
    else if c == '+' then 62 else if c == '/' then 63 else 255
  }

  /** base64_chars, line by line. */
  const UPPER := "ABCDEFGHIJKLMNOPQRSTUVWXYZ"
  const LOWER := "abcdefghijklmnopqrstuvwxyz"
  const DIGITS := "0123456789+/"

  /** The letters in order. */
  lemma LetterIs(v: nat)
    requires v < 64
    ensures Letter(v) == (UPPER + LOWER + DIGITS)[v]
  {
    if v < 26 { UpperIs(v); } else if v < 52 { LowerIs(v - 26); } else { DigitIs(v - 52); }
  }

  lemma UpperIs(v: nat)
    requires v < 26
    ensures Letter(v) == UPPER[v]
  {}

  lemma LowerIs(v: nat)
    requires v < 26
    ensures Letter(26 + v) == LOWER[v]
  {}

  lemma DigitIs(v: nat)
    requires v < 12
    ensures Letter(52 + v) == DIGITS[v]
  {}

  /** The letters and the values below 64 are each other's names. */
  lemma LetterValue(v: nat, c: char)
    ensures v < 64 ==> Value(Letter(v)) == v
    ensures if IsLetter(c) then Value(c) < 64 && Letter(Value(c)) == c else Value(c) == 255
  {}

  // ---------- groups ----------

  /** Three bytes as four letters. */
  function Group(a: Byte, b: Byte, c: Byte): string {
    [Letter(a / 4), Letter(a % 4 * 16 + b / 16), Letter(b % 16 * 4 + c / 64), Letter(c % 64)]
  }

  /** Four values as three bytes. */
  function Triple(p: Byte, q: Byte, r: Byte, s: Byte): seq<Byte> {
    [(p * 4 + q / 16 % 4) % 256, q % 16 * 16 + r / 4 % 16, (r % 4 * 64 + s) % 256]
  }

  lemma GroupValues(a: Byte, b: Byte, c: Byte)
    ensures var g := Group(a, b, c);
            Value(g[0]) == a / 4 && Value(g[1]) == a % 4 * 16 + b / 16 && Value(g[2]) == b % 16 * 4 + c / 64
                && Value(g[3]) == c % 64
  {
    LetterValue(a / 4, 'A');
    LetterValue(a % 4 * 16 + b / 16, 'A');
    LetterValue(b % 16 * 4 + c / 64, 'A');
    LetterValue(c % 64, 'A');
  }

  /** The digits of one number, in base 256 and in base 64. */
  lemma GroupValue(a: Byte, b: Byte, c: Byte)
    ensures var g := Group(a, b, c);
            ((Value(g[0]) * 64 + Value(g[1])) * 64 + Value(g[2])) * 64 + Value(g[3]) == (a * 256 + b) * 256 + c
  {
    GroupValues(a, b, c);
    assert a == a / 4 * 4 + a % 4 && b == b / 16 * 16 + b % 16 && c == c / 64 * 64 + c % 64;
  }

  /** And back: below 64, the four values are the digits of the number that the three bytes are. */
  lemma TripleValue(p: Byte, q: Byte, r: Byte, s: Byte)
    requires p < 64 && q < 64 && r < 64 && s < 64
    ensures var t := Triple(p, q, r, s);
            var x: nat, y: nat, z: nat := t[0], t[1], t[2];
            (x * 256 + y) * 256 + z == ((p * 64 + q) * 64 + r) * 64 + s
  {
    assert q == q / 16 * 16 + q % 16 && r == r / 4 * 4 + r % 4;
  }

  lemma FirstBack(a: Byte, b: Byte)
    ensures (a / 4 * 4 + (a % 4 * 16 + b / 16) / 16 % 4) % 256 == a
  {
    assert (a % 4 * 16 + b / 16) / 16 == a % 4;
  }

  lemma SecondBack(b: Byte, c: Byte)
    ensures (b / 16) * 16 + (b % 16 * 4 + c / 64) / 4 % 16 == b
  {
    assert (b % 16 * 4 + c / 64) / 4 == b % 16;
  }

  lemma ThirdBack(b: Byte, c: Byte)
    ensures ((b % 16 * 4 + c / 64) % 4 * 64 + c % 64) % 256 == c
  {
    assert (b % 16 * 4 + c / 64) % 4 == c / 64;
  }

  // ---------- the printer ----------

  /** The encoding of section 4 of RFC 4648. */
  function Encoding(x: seq<Byte>): string {
    if |x| >= 3 then Group(x[0], x[1], x[2]) + Encoding(x[3..]) else Tail(x)
  }

  /** The last one or two bytes, padded. */
  function Tail(x: seq<Byte>): string
    requires |x| < 3
  {
    if |x| == 0 then ""
    else if |x| == 1 then Group(x[0], 0, 0)[..2] + "=="
    else Group(x[0], x[1], 0)[..3] + "="
  }

  /** The letters at the end are the leading digits of the number, filled up with zero bits, and then padding. */
  lemma TailValue(x: seq<Byte>)
    requires 0 < |x| < 3
    ensures |Tail(x)| == 4
    ensures var p: nat, q: nat, r: nat := Value(Tail(x)[0]), Value(Tail(x)[1]), Value(Tail(x)[2]);
            var a: nat := x[0];
            if |x| == 1 then Tail(x)[2..] == "==" && p * 64 + q == a * 16
            else Tail(x)[3..] == "=" && (p * 64 + q) * 64 + r == (a * 256 + x[1]) * 4
  {
    var a, b: Byte := x[0], if |x| == 2 then x[1] else 0;
    GroupValues(a, b, 0);
    assert a == a / 4 * 4 + a % 4 && b == b / 16 * 16 + b % 16;
  }

  lemma Joined<T>(s: seq<T>, t: seq<T>, u: seq<T>)
    ensures s + t + u == s + (t + u)
  {}

  /** What is printed and what is still to be printed, from byte k on, make up the whole. */
  ghost predicate Printed(x: seq<Byte>, k: nat, ret: string) {
    k <= |x| && ret + Encoding(x[k..]) == Encoding(x)
  }

  lemma PrintGroup(x: seq<Byte>, k: nat, ret: string)
    requires Printed(x, k, ret) && k + 3 <= |x|
    ensures Printed(x, k + 3, ret + Group(x[k], x[k + 1], x[k + 2]))
  {
    assert x[k..][3..] == x[k + 3..];
    Joined(ret, Group(x[k], x[k + 1], x[k + 2]), Encoding(x[k + 3..]));
  }

  /** The group g is being filled, from byte k on, and what is before it is printed. */
  ghost predicate Printing(x: seq<Byte>, k: nat, g: seq<Byte>, ret: string) {
    |g| < 3 && k + |g| <= |x| && g == x[k..k + |g|] && Printed(x, k, ret)
  }

  /** base64_encode. */
  method Encode(x: seq<Byte>) returns (ret: string)
    ensures ret == Encoding(x)
  {
    ret := "";
    var g: seq<Byte> := [];
    var n := 0;
    ghost var k: nat := 0;
    PrintingStart(x);
    while n < |x|
      invariant Printing(x, k, g, ret) && n == k + |g|
    {
      ret, g, k := EncodeByte(x, n, k, g, ret);
      n := n + 1;
    }
    assert x[k..] == g;
    if g != [] {
      var tail := EncodeTail(g);
      ret := ret + tail;
    }
  }

  lemma PrintingStart(x: seq<Byte>)
    ensures Printing(x, 0, [], "")
  {
    assert x[0..] == x && x[0..0] == [];
  }

  /** One byte more; a full group is printed. */
  method EncodeByte(x: seq<Byte>, n: nat, ghost k0: nat, g0: seq<Byte>, ret0: string)
      returns (ret: string, g: seq<Byte>, ghost k: nat)
    requires Printing(x, k0, g0, ret0) && n == k0 + |g0| < |x|
    ensures Printing(x, k, g, ret) && n + 1 == k + |g|
  {
    ret, g, k := ret0, g0 + [x[n]], k0;
    if |g| == 3 {
      LastOfGroup(x, k, g0, ret0);
      ret, g, k := ret + Group(g[0], g[1], g[2]), [], k + 3;
    } else {
      NotLastOfGroup(x, k, g0, ret0);
    }
  }

  lemma NotLastOfGroup(x: seq<Byte>, k: nat, g: seq<Byte>, ret: string)
    requires Printing(x, k, g, ret) && k + |g| < |x| && |g| < 2
    ensures Printing(x, k, g + [x[k + |g|]], ret)
  {
    assert g + [x[k + |g|]] == x[k..k + |g| + 1];
  }

  lemma LastOfGroup(x: seq<Byte>, k: nat, g: seq<Byte>, ret: string)
    requires Printing(x, k, g, ret) && k + |g| < |x| && |g| == 2
    ensures Printing(x, k + 3, [], ret + Group(g[0], g[1], x[k + 2]))
  {
    PrintGroup(x, k, ret);
    assert g == [x[k], x[k + 1]] && x[k + 3..k + 3] == [];
  }

  /** The end of base64_encode: fill up with zero bytes, and pad. */
  method EncodeTail(g: seq<Byte>) returns (ret: string)
    requires 0 < |g| < 3
    ensures ret == Tail(g)
  {
    var full := g + seq(3 - |g|, _ => 0);
    var letters := Group(full[0], full[1], full[2]);
    ret := letters[..|g| + 1];
    var i := |g|;
    while i < 3
      invariant |g| <= i <= 3 && ret == letters[..|g| + 1] + seq(i - |g|, _ => '=')
    {
      ret := ret + "=";
      i := i + 1;
    }
  }

  // ---------- the parser ----------

  /** How many letters the text begins with. */
  function Leading(s: string): (k: nat)
    ensures k <= |s| && (k < |s| ==> !IsLetter(s[k])) && forall j :: 0 <= j < k ==> IsLetter(s[j])
  {
    if s != [] && IsLetter(s[0]) then 1 + Leading(s[1..]) else 0
  }

  /** What the text decodes to: its letters by fours, and of what is left one byte less than there are letters. */
  function Decoding(s: string): seq<Byte> {
    if Leading(s) >= 4 then Triple(Value(s[0]), Value(s[1]), Value(s[2]), Value(s[3])) + Decoding(s[4..])
    else Partial(s[..Leading(s)])
  }

  function Partial(s: string): seq<Byte>
    requires |s| < 4
  {
    if |s| < 2 then []
    else if |s| == 2 then Triple(Value(s[0]), Value(s[1]), 255, 255)[..1]
    else Triple(Value(s[0]), Value(s[1]), Value(s[2]), 255)[..2]
  }

  ghost predicate AllLetters(s: string) {
    forall j :: 0 <= j < |s| ==> IsLetter(s[j])
  }

  lemma DecodeFirst(s: string)
    requires |s| >= 4 && AllLetters(s[..4])
    ensures Decoding(s) == Triple(Value(s[0]), Value(s[1]), Value(s[2]), Value(s[3])) + Decoding(s[4..])
  {
    assert forall j :: 0 <= j < 4 ==> s[j] == s[..4][j];
  }

  /** What is parsed and what is still to be parsed, from character k on, make up the whole. */
  ghost predicate Parsed(s: string, k: nat, ret: seq<Byte>) {
    k <= |s| && ret + Decoding(s[k..]) == Decoding(s)
  }

  lemma ParseGroup(s: string, k: nat, g: string, ret: seq<Byte>)
    requires Parsed(s, k, ret) && k + 4 <= |s| && g == s[k..k + 4] && AllLetters(g)
    ensures Parsed(s, k + 4, ret + Triple(Value(g[0]), Value(g[1]), Value(g[2]), Value(g[3])))
  {
    assert s[k..][..4] == g && s[k..][4..] == s[k + 4..];
    DecodeFirst(s[k..]);
    Joined(ret, Triple(Value(g[0]), Value(g[1]), Value(g[2]), Value(g[3])), Decoding(s[k + 4..]));
  }

  lemma OneMore(s: string, k: nat, g: string)
    requires k + |g| < |s| && g == s[k..k + |g|] && AllLetters(g) && IsLetter(s[k + |g|])
    ensures g + [s[k + |g|]] == s[k..k + |g| + 1] && AllLetters(g + [s[k + |g|]])
  {}

  lemma DecodeLast(s: string, g: string)
    requires |g| < 4 && |g| <= |s| && g == s[..|g|] && AllLetters(g) && (|g| < |s| ==> !IsLetter(s[|g|]))
    ensures Decoding(s) == Partial(g)
  {
    assert forall j :: 0 <= j < |g| ==> s[j] == g[j];
    assert Leading(s) == |g|;
  }

  /** The group g is being filled, from character k on, and what is before it is parsed. */
  ghost predicate Parsing(s: string, k: nat, g: string, ret: seq<Byte>) {
    |g| < 4 && k + |g| <= |s| && g == s[k..k + |g|] && AllLetters(g) && Parsed(s, k, ret)
  }

  /** base64_decode, for every text. */
  method Decode(s: string) returns (ret: seq<Byte>)
    ensures ret == Decoding(s)
  {
    ret := [];
    var g: string := "";
    var n := 0;
    ghost var k: nat := 0;
    ParsingStart(s);
    while n < |s| && s[n] != '=' && IsLetter(s[n])
      invariant Parsing(s, k, g, ret) && n == k + |g|
    {
      ret, g, k := DecodeLetter(s, n, k, g, ret);
      n := n + 1;
    }
    ParsedAll(s, k, g, ret);
    if g != [] {
      var bytes := DecodeTail(g);
      ret := ret + bytes;
    }
  }

  lemma ParsingStart(s: string)
    ensures Parsing(s, 0, "", [])
  {
    assert s[0..] == s && s[0..0] == "";
  }

  /** One letter more; a full group is parsed. */
  method DecodeLetter(s: string, n: nat, ghost k0: nat, g0: string, ret0: seq<Byte>)
      returns (ret: seq<Byte>, g: string, ghost k: nat)
    requires Parsing(s, k0, g0, ret0) && n == k0 + |g0| < |s| && IsLetter(s[n])
    ensures Parsing(s, k, g, ret) && n + 1 == k + |g|
  {
    ret, g, k := ret0, g0 + [s[n]], k0;
    if |g| == 4 {
      LastLetter(s, k, g0, ret0);
      ret, g, k := ret + Triple(Value(g[0]), Value(g[1]), Value(g[2]), Value(g[3])), "", k + 4;
    } else {
      NotLastLetter(s, k, g0, ret0);
    }
  }

  lemma NotLastLetter(s: string, k: nat, g: string, ret: seq<Byte>)
    requires Parsing(s, k, g, ret) && k + |g| < |s| && IsLetter(s[k + |g|]) && |g| < 3
    ensures Parsing(s, k, g + [s[k + |g|]], ret)
  {
    OneMore(s, k, g);
  }

  lemma LastLetter(s: string, k: nat, g: string, ret: seq<Byte>)
    requires Parsing(s, k, g, ret) && k + |g| < |s| && IsLetter(s[k + |g|]) && |g| == 3
    ensures Parsing(s, k + 4, "", ret + Triple(Value(g[0]), Value(g[1]), Value(g[2]), Value(s[k + 3])))
  {
    OneMore(s, k, g);
    ParseGroup(s, k, g + [s[k + 3]], ret);
    assert s[k + 4..k + 4] == "";
  }

  /** What is parsed, and the group that is being filled, are all there is. */
  lemma ParsedAll(s: string, k: nat, g: string, ret: seq<Byte>)
    requires Parsing(s, k, g, ret) && (k + |g| < |s| ==> !IsLetter(s[k + |g|]))
    ensures ret + Partial(g) == Decoding(s)
  {
    assert s[k..][..|g|] == g;
    DecodeLast(s[k..], g);
  }

  /** The end of base64_decode: fill up with what is no letter, and drop the bytes it spoils. */
  method DecodeTail(g: string) returns (ret: seq<Byte>)
    requires 0 < |g| < 4
    ensures ret == Partial(g)
  {
    var full := g + seq(4 - |g|, _ => '\0');
    var bytes := Triple(Value(full[0]), Value(full[1]), Value(full[2]), Value(full[3]));
    ret := bytes[..|g| - 1];
  }

  // ---------- what the codec is for ----------

  /** A full group comes back, in front of whatever follows. */
  lemma GroupBack(a: Byte, b: Byte, c: Byte, t: string)
    ensures Decoding(Group(a, b, c) + t) == [a, b, c] + Decoding(t)
  {
    var g := Group(a, b, c);
    assert (g + t)[..4] == g && (g + t)[4..] == t;
    DecodeFirst(g + t);
    TripleBack(a, b, c);
  }

  lemma TripleBack(a: Byte, b: Byte, c: Byte)
    ensures var g := Group(a, b, c); Triple(Value(g[0]), Value(g[1]), Value(g[2]), Value(g[3])) == [a, b, c]
  {
    var g := Group(a, b, c);
    GroupValues(a, b, c);
    Back(a, b, c, Value(g[0]), Value(g[1]), Value(g[2]), Value(g[3]));
  }

  lemma Back(a: Byte, b: Byte, c: Byte, p: Byte, q: Byte, r: Byte, s: Byte)
    requires p == a / 4 && q == a % 4 * 16 + b / 16
    ensures Triple(p, q, r, s)[0] == a
    ensures r == b % 16 * 4 + c / 64 ==> Triple(p, q, r, s)[1] == b && (s == c % 64 ==> Triple(p, q, r, s)[2] == c)
  {
    FirstBack(a, b);
    SecondBack(b, c);
    ThirdBack(b, c);
    assert q / 16 == a % 4 && q % 16 == b / 16;
  }

  lemma TailBack(x: seq<Byte>)
    requires 0 < |x| < 3
    ensures Decoding(Tail(x)) == x
  {
    var s, n := Tail(x), |x| + 1;
    assert AllLetters(s[..n]);
    DecodeLast(s, s[..n]);
    PartialBack(x);
  }

  lemma PartialBack(x: seq<Byte>)
    requires 0 < |x| < 3
    ensures Partial(Tail(x)[..|x| + 1]) == x
  {
    var a, b: Byte := x[0], if |x| == 2 then x[1] else 0;
    var g := Group(a, b, 0);
    GroupValues(a, b, 0);
    Back(a, b, 0, Value(g[0]), Value(g[1]), if |x| == 2 then Value(g[2]) else 255, 255);
  }

  lemma FirstGroupBack(x: seq<Byte>, e: string)
    requires |x| >= 3 && Decoding(e) == x[3..]
    ensures Decoding(Group(x[0], x[1], x[2]) + e) == x
  {
    GroupBack(x[0], x[1], x[2], e);
  }

  /** Every byte sequence comes back. */
  lemma {:induction false} RoundTrip(x: seq<Byte>)
    ensures Decoding(Encoding(x)) == x
  {
    if |x| >= 3 {
      RoundTrip(x[3..]);
      FirstGroupBack(x, Encoding(x[3..]));
    } else if x != [] {
      TailBack(x);
    }
  }

  lemma TwoDigits(p: nat, q: nat)
    requires p < 64 && q < 64
    ensures (p * 64 + q) / 16 == (p * 4 + q / 16 % 4) % 256
  {
    assert p * 64 + q == 16 * (p * 4 + q / 16) + q % 16;
  }

  lemma ThreeDigits(p: nat, q: nat, r: nat)
    requires p < 64 && q < 64 && r < 64
    ensures ((p * 64 + q) * 64 + r) / 4 == ((p * 4 + q / 16 % 4) % 256) * 256 + q % 16 * 16 + r / 4 % 16
  {
    assert (p * 64 + q) * 64 + r == 4 * ((p * 64 + q) * 16 + r / 4) + r % 4;
    assert q == q / 16 * 16 + q % 16;
  }

  /** The letters that are left at the end: the leading bytes of the number they are the digits of. */
  lemma PartialValue(s: string)
    requires 2 <= |s| < 4 && AllLetters(s)
    ensures |Partial(s)| == |s| - 1
    ensures var p: nat, q: nat, x: nat := Value(s[0]), Value(s[1]), Partial(s)[0];
            if |s| == 2 then x == (p * 64 + q) / 16
            else x * 256 + Partial(s)[1] == ((p * 64 + q) * 64 + Value(s[2])) / 4
  {
    LetterValue(0, s[0]);
    LetterValue(0, s[1]);
    if |s| == 2 {
      TwoDigits(Value(s[0]), Value(s[1]));
    } else {
      LetterValue(0, s[2]);
      ThreeDigits(Value(s[0]), Value(s[1]), Value(s[2]));
    }
  }

  /** The examples of section 10 of RFC 4648. */
  lemma Examples()
    ensures Encoding([0x66]) == "Zg==" && Encoding([0x66, 0x6f]) == "Zm8="
    ensures Encoding([0x66, 0x6f, 0x6f]) == "Zm9v" && Encoding([0x66, 0x6f, 0x6f, 0x62]) == "Zm9vYg=="
  {
    var x: seq<Byte> := [0x66, 0x6f, 0x6f, 0x62];
    assert x[3..] == [0x62];
    assert Group(0x66, 0x6f, 0x6f) == "Zm9v" && Tail([0x62]) == "Yg==";
    assert [0x66, 0x6f, 0x6f][3..] == [];
  }

  lemma Shifted<T>(x: seq<T>, y: seq<T>, g: seq<T>, a: seq<T>, b: seq<T>, c: seq<T>)
    requires x == g + c && y == g + a && c == a + b
    ensures x == y + b
  {
    Joined(g, a, b);
  }

  lemma EncodingFirst(x: seq<Byte>, y: seq<Byte>, z: seq<Byte>)
    requires |x| >= 3 && z == x[3..] + y
    ensures Encoding(x + y) == Group(x[0], x[1], x[2]) + Encoding(z)
  {
    assert (x + y)[3..] == z;
  }

  /** Whole groups in front are encoded on their own. */
  lemma {:induction false} EncodingParts(x: seq<Byte>, y: seq<Byte>, n: nat)
    requires |x| == 3 * n
    ensures Encoding(x + y) == Encoding(x) + Encoding(y)
  {
    if n == 0 {
      assert x + y == y;
    } else {
      var z := x[3..];
      EncodingParts(z, y, n - 1);
      EncodingFirst(x, y, z + y);
      Shifted(Encoding(x + y), Encoding(x), Group(x[0], x[1], x[2]), Encoding(z), Encoding(y), Encoding(z + y));
    }
  }

  lemma DecodingFirst(s: string, t: string, z: string)
    requires |s| >= 4 && AllLetters(s) && z == s[4..] + t
    ensures Decoding(s + t) == Triple(Value(s[0]), Value(s[1]), Value(s[2]), Value(s[3])) + Decoding(z)
  {
    assert (s + t)[..4] == s[..4] && (s + t)[4..] == z;
    DecodeFirst(s + t);
  }

  lemma LettersFirst(s: string, z: string)
    requires |s| >= 4 && AllLetters(s) && z == s[4..]
    ensures Decoding(s) == Triple(Value(s[0]), Value(s[1]), Value(s[2]), Value(s[3])) + Decoding(z) && AllLetters(z)
  {
    DecodeFirst(s);
  }

  lemma NoLetters(t: string)
    ensures Decoding("" + t) == Decoding("") + Decoding(t)
  {
    assert "" + t == t;
  }

  /** And decoded. */
  lemma {:induction false} DecodingParts(s: string, t: string, n: nat)
    requires |s| == 4 * n && AllLetters(s)
    ensures Decoding(s + t) == Decoding(s) + Decoding(t)
  {
    if n == 0 {
      NoLetters(t);
    } else {
      var z, g := s[4..], Triple(Value(s[0]), Value(s[1]), Value(s[2]), Value(s[3]));
      LettersFirst(s, z);
      DecodingParts(z, t, n - 1);
      DecodingFirst(s, t, z + t);
      Shifted(Decoding(s + t), Decoding(s), g, Decoding(z), Decoding(t), Decoding(z + t));
    }
  }

  /** The number of padding characters for n bytes. */
  function Padding(n: nat): nat {
    if n % 3 == 0 then 0 else 3 - n % 3
  }

  /** Letters, and then k padding characters. */
  ghost predicate Padded(s: string, k: nat) {
    k <= |s| && forall j :: 0 <= j < |s| ==> if j < |s| - k then IsLetter(s[j]) else s[j] == '='
  }

  lemma PaddedMore(x: seq<Byte>, k: nat)
    requires |x| >= 3 && Padded(Encoding(x[3..]), k)
    ensures |Encoding(x)| == 4 + |Encoding(x[3..])| && Padded(Encoding(x), k)
  {
    var g, s := Group(x[0], x[1], x[2]), Encoding(x[3..]);
    assert AllLetters(g);
    assert forall j :: 4 <= j < |g + s| ==> (g + s)[j] == s[j - 4];
  }

  lemma TailPadded(x: seq<Byte>)
    requires |x| < 3
    ensures |Tail(x)| == (if x == [] then 0 else 4) && Padded(Tail(x), Padding(|x|))
  {}

  lemma GroupLess(n: nat)
    requires n >= 3
    ensures Padding(n - 3) == Padding(n) && (n + 2) / 3 * 4 == 4 + (n - 3 + 2) / 3 * 4
  {}

  /** Four letters for every three bytes begun, and padding at the end only. */
  lemma {:induction false} Shape(x: seq<Byte>)
    ensures |Encoding(x)| == (|x| + 2) / 3 * 4 && Padded(Encoding(x), Padding(|x|))
  {
    if |x| >= 3 {
      Shape(x[3..]);
      GroupLess(|x|);
      PaddedMore(x, Padding(|x|));
    } else {
      TailPadded(x);
    }
  }

  /** Decoding stops at the first character that is not a letter, whatever follows. */
  lemma {:induction false} OnlyLetters(s: string)
    ensures Decoding(s) == Decoding(s[..Leading(s)])
  {
    var k := Leading(s);
    assert Leading(s[..k]) == k;
    if k >= 4 {
      OnlyLetters(s[4..]);
      assert Leading(s[4..]) == k - 4;
      assert s[..k][4..] == s[4..][..k - 4];
    } else {
      assert s[..k][..k] == s[..k];
    }
  }
}
