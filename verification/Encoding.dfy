/** Splitting and joining, decimal, hexadecimal and unpadded base64 text (sections 4, 5 and 8 of RFC 4648),
    each printer with its parser and the round trip between them. */
module Encoding {
  import opened Base

  type sextet = x: int | 0 <= x < 64
  type nibble = x: int | 0 <= x < 16

  // ---------- Split and join ----------

  function Split(s: string, sep: char): (parts: seq<string>)
    ensures parts != []
  {
    if s == "" then [""]
    else
      var rest := Split(s[1..], sep);
      if s[0] == sep then [""] + rest else [[s[0]] + rest[0]] + rest[1..]
  }

  function Join(parts: seq<string>, sep: char): string {
    if parts == [] then ""
    else if |parts| == 1 then parts[0]
    else parts[0] + [sep] + Join(parts[1..], sep)
  }

  lemma {:induction false} SplitAfterPart(p: string, t: string, sep: char)
    requires sep !in p
    ensures Split(p + t, sep) == [p + Split(t, sep)[0]] + Split(t, sep)[1..]
  {
    if p == "" {
      assert p + t == t;
      assert p + Split(t, sep)[0] == Split(t, sep)[0];
    } else {
      assert (p + t)[1..] == p[1..] + t;
      SplitAfterPart(p[1..], t, sep);
      assert [p[0]] + (p[1..] + Split(t, sep)[0]) == p + Split(t, sep)[0];
    }
  }

  /** Parts without the separator are recovered from the joined text. */
  lemma {:induction false} SplitJoin(parts: seq<string>, sep: char)
    requires parts != [] && forall p | p in parts :: sep !in p
    ensures Split(Join(parts, sep), sep) == parts
  {
    if |parts| == 1 {
      SplitAfterPart(parts[0], "", sep);
      assert parts[0] + "" == parts[0];
    } else {
      var rest := Join(parts[1..], sep);
      SplitJoin(parts[1..], sep);
      SplitAfterPart(parts[0], [sep] + rest, sep);
      assert ([sep] + rest)[1..] == rest;
      assert parts[0] + ([sep] + rest) == parts[0] + [sep] + rest;
      assert parts[0] + "" == parts[0];
    }
  }

  /** Splitting loses nothing. */
  lemma {:induction false} JoinSplit(s: string, sep: char)
    ensures Join(Split(s, sep), sep) == s
  {
    if s != "" {
      var rest := Split(s[1..], sep);
      JoinSplit(s[1..], sep);
      if s[0] == sep {
        assert ([""] + rest)[1..] == rest;
        assert "" + [sep] + s[1..] == s;
      } else if |rest| == 1 {
        assert [s[0]] + s[1..] == s;
      } else {
        var parts := [[s[0]] + rest[0]] + rest[1..];
        assert parts[1..] == rest[1..];
        assert [s[0]] + rest[0] + [sep] + Join(rest[1..], sep) == [s[0]] + (rest[0] + [sep] + Join(rest[1..], sep));
      }
    }
  }

  lemma {:induction false} SplitConcat(a: string, b: string, sep: char)
    ensures Split(a + [sep] + b, sep) == Split(a, sep) + Split(b, sep)
  {
    if a == "" {
      assert a + [sep] + b == [sep] + b && ([sep] + b)[1..] == b;
    } else {
      var s, rest := a + [sep] + b, a[1..] + [sep] + b;
      assert s[1..] == rest && s[0] == a[0];
      SplitConcat(a[1..], b, sep);
      SplitStep(s, sep);
      SplitStep(a, sep);
      hide Split;
      HeadFirst([a[0]], Split(a[1..], sep), Split(b, sep));
    }
  }

  lemma SplitStep(s: string, sep: char)
    requires s != ""
    ensures var rest := Split(s[1..], sep);
      Split(s, sep) == if s[0] == sep then [""] + rest else [[s[0]] + rest[0]] + rest[1..]
  {
  }

  lemma HeadFirst<T>(h: seq<T>, x: seq<seq<T>>, y: seq<seq<T>>)
    requires x != []
    ensures [[]] + (x + y) == [[]] + x + y
    ensures [h + (x + y)[0]] + (x + y)[1..] == [h + x[0]] + x[1..] + y
  {
  }

  lemma {:induction false} JoinConcat(p: seq<string>, q: seq<string>, sep: char)
    requires p != [] && q != []
    ensures Join(p + q, sep) == Join(p, sep) + [sep] + Join(q, sep)
  {
    if |p| == 1 {
      assert (p + q)[1..] == q;
    } else {
      JoinConcat(p[1..], q, sep);
      assert (p + q)[1..] == p[1..] + q;
      assert p[0] + [sep] + (Join(p[1..], sep) + [sep] + Join(q, sep)) ==
             p[0] + [sep] + Join(p[1..], sep) + [sep] + Join(q, sep);
    }
  }

  // ---------- Decimal ----------

  predicate IsDigit(c: char) {
    '0' <= c <= '9'
  }

  function Digit(d: int): char
    requires 0 <= d < 10
  {
    '0' + d as char
  }

  function PrintNat(n: nat): (s: string)
    ensures s != "" && forall c | c in s :: IsDigit(c)
  {
    if n < 10 then [Digit(n)] else PrintNat(n / 10) + [Digit(n % 10)]
  }

  function PrintInt(n: int): (s: string)
    ensures s != "" && forall c | c in s :: IsDigit(c) || c == '-'
  {
    if n < 0 then "-" + PrintNat(-n) else PrintNat(n)
  }

  /** The value of a nonempty digit string. */
  function ParseDigits(s: string): Option<nat> {
    if s == "" || !IsDigit(s[|s| - 1]) then None
    else
      var d := s[|s| - 1] as int - '0' as int;
      if |s| == 1 then Some(d)
      else
        match ParseDigits(s[..|s| - 1])
        case None => None
        case Some(n) => Some(10 * n + d)
  }

  /** strconv.ParseInt(s, 10, 64): optional sign, range checked. */
  function ParseInt64(s: string): Option<int64> {
    var negative := s != "" && s[0] == '-';
    var digits := if s != "" && (s[0] == '-' || s[0] == '+') then s[1..] else s;
    match ParseDigits(digits)
    case None => None
    case Some(value) =>
      var n: int := value;
      if !negative && n < 0x8000_0000_0000_0000 then Some(n)
      else if negative && n <= 0x8000_0000_0000_0000 then Some(-n)
      else None
  }

  /** strconv.ParseUint(s, 10, 32): no sign. */
  function ParseUint32(s: string): Option<nat> {
    match ParseDigits(s)
    case None => None
    case Some(n) => if n < 0x1_0000_0000 then Some(n) else None
  }

  lemma {:induction false} ParsePrintNat(n: nat)
    ensures ParseDigits(PrintNat(n)) == Some(n)
  {
    if n >= 10 {
      ParsePrintNat(n / 10);
      var s := PrintNat(n);
      assert s[..|s| - 1] == PrintNat(n / 10);
    }
  }

  lemma ParsePrintInt64(n: int64)
    ensures ParseInt64(PrintInt(n)) == Some(n)
  {
    var magnitude: int := if n < 0 then -(n as int) else n;
    ParsePrintNat(magnitude);
    if n < 0 {
      assert PrintInt(n)[1..] == PrintNat(magnitude);
    } else {
      assert IsDigit(PrintInt(n)[0]);
    }
  }

  function Zeros(k: nat): string {
    seq(k, i => '0')
  }

  /** The numerals of `n`: its decimal text behind any number of zeros. */
  ghost predicate Numeral(s: string, n: nat) {
    exists k: nat :: s == Zeros(k) + PrintNat(n)
  }

  lemma {:induction false} LeadingZero(t: string)
    requires ParseDigits(t).Some?
    ensures ParseDigits("0" + t) == ParseDigits(t)
  {
    var s := "0" + t;
    assert s[..|s| - 1] == "0" + t[..|t| - 1];
    if |t| == 1 {
      assert s[..1] == "0" && ParseDigits("0") == Some(0);
    } else {
      LeadingZero(t[..|t| - 1]);
    }
  }

  lemma {:induction false} LeadingZeros(k: nat, t: string)
    requires ParseDigits(t).Some?
    ensures ParseDigits(Zeros(k) + t) == ParseDigits(t)
  {
    if k == 0 {
      assert Zeros(k) + t == t;
    } else {
      LeadingZeros(k - 1, t);
      LeadingZero(Zeros(k - 1) + t);
      assert Zeros(k) + t == "0" + (Zeros(k - 1) + t);
    }
  }

  lemma {:induction false} DigitsAreNumeral(s: string)
    requires ParseDigits(s).Some?
    ensures Numeral(s, ParseDigits(s).value)
  {
    var d := s[|s| - 1] as int - '0' as int;
    if |s| == 1 {
      assert s == Zeros(0) + PrintNat(d);
    } else {
      var rest := s[..|s| - 1];
      var m := ParseDigits(rest).value;
      assert s == rest + [Digit(d)];
      DigitsAreNumeral(rest);
      hide ParseDigits;
      OneDigitMore(rest, m, d);
    }
  }

  lemma OneDigitMore(s: string, m: nat, d: nat)
    requires Numeral(s, m) && d < 10
    ensures Numeral(s + [Digit(d)], 10 * m + d)
  {
    var k: nat :| s == Zeros(k) + PrintNat(m);
    if m == 0 {
      assert s == Zeros(k + 1) && PrintNat(d) == [Digit(d)];
      assert s + [Digit(d)] == Zeros(k + 1) + PrintNat(10 * m + d);
    } else {
      assert (10 * m + d) / 10 == m && (10 * m + d) % 10 == d;
      assert PrintNat(10 * m + d) == PrintNat(m) + [Digit(d)];
      assert s + [Digit(d)] == Zeros(k) + (PrintNat(m) + [Digit(d)]);
    }
  }

  /** Exactly the numerals of a number parse, and to that number. */
  lemma ParseDigitsMeaning(s: string, n: nat)
    ensures ParseDigits(s) == Some(n) <==> Numeral(s, n)
  {
    if Numeral(s, n) {
      var k: nat :| s == Zeros(k) + PrintNat(n);
      ParsePrintNat(n);
      LeadingZeros(k, PrintNat(n));
    }
    if ParseDigits(s).Some? { DigitsAreNumeral(s); }
  }

  /** Exactly the numerals with an optional sign parse, and only inside the 64-bit range. */
  lemma ParseInt64Meaning(s: string, n: int64)
    ensures ParseInt64(s) == Some(n) <==>
            || (n >= 0 && (Numeral(s, n) || (s != "" && s[0] == '+' && Numeral(s[1..], n))))
            || (n <= 0 && s != "" && s[0] == '-' && Numeral(s[1..], -(n as int)))
  {
    if n >= 0 {
      ParseDigitsMeaning(s, n);
      if s != "" { ParseDigitsMeaning(s[1..], n); }
      if s != "" && (s[0] == '+' || s[0] == '-') { SignedNotDigits(s); }
    }
    if n <= 0 && s != "" { ParseDigitsMeaning(s[1..], -(n as int)); }
    hide Numeral;
  }

  /** A text is an unsigned number exactly when it is its numeral, leading zeros allowed, and fits in 32 bits. */
  lemma ParseUint32Meaning(s: string, n: nat)
    ensures ParseUint32(s) == Some(n) <==> Numeral(s, n) && n <= 0xFFFF_FFFF
  {
    ParseDigitsMeaning(s, n);
    hide Numeral;
  }

  lemma {:induction false} SignedNotDigits(s: string)
    requires s != "" && !IsDigit(s[0])
    ensures ParseDigits(s).None?
  {
    if |s| > 1 { SignedNotDigits(s[..|s| - 1]); }
  }

  lemma PrintIntInjective(a: int64, b: int64)
    requires PrintInt(a) == PrintInt(b)
    ensures a == b
  {
    ParsePrintInt64(a);
    ParsePrintInt64(b);
  }

  // ---------- Hexadecimal ----------

  function HexDigit(d: nibble): char
  {
    if d < 10 then '0' + d as char else 'a' + (d - 10) as char
  }

  function HexValue(c: char): Option<nibble> {
    if '0' <= c <= '9' then Some(c as int - '0' as int)
    else if 'a' <= c <= 'f' then Some(c as int - 'a' as int + 10)
    else if 'A' <= c <= 'F' then Some(c as int - 'A' as int + 10)
    else None
  }

  predicate IsHex(c: char) {
    '0' <= c <= '9' || 'a' <= c <= 'f'
  }

  function HexEncode(b: seq<byte>): (s: string)
    ensures |s| == 2 * |b| && forall c | c in s :: IsHex(c)
  {
    if b == [] then "" else [HexDigit(b[0] / 16), HexDigit(b[0] % 16)] + HexEncode(b[1..])
  }

  function HexDecode(s: string): Option<seq<byte>> {
    if s == "" then Some([])
    else if |s| == 1 then None
    else
      match (HexValue(s[0]), HexValue(s[1]), HexDecode(s[2..]))
      case (Some(high), Some(low), Some(rest)) => Some([16 * (high as int) + low] + rest)
      case _ => None
  }

  lemma {:induction false} HexRoundTrip(b: seq<byte>)
    ensures HexDecode(HexEncode(b)) == Some(b)
  {
    if b != [] {
      HexRoundTrip(b[1..]);
      var s := HexEncode(b);
      assert s[2..] == HexEncode(b[1..]);
      assert b == [b[0]] + b[1..];
      assert HexValue(HexDigit(b[0] / 16)) == Some(b[0] / 16) && HexValue(HexDigit(b[0] % 16)) == Some(b[0] % 16);
    }
  }

  /** The digits are those of section 8 of RFC 4648, in lower case. */
  lemma HexAlphabet(d: nibble)
    ensures HexDigit(d) == "0123456789abcdef"[d]
  {
  }

  function LowerDigit(c: char): char {
    if 'A' <= c <= 'F' then c - 'A' + 'a' else c
  }

  function LowerHex(s: string): (t: string)
    ensures |t| == |s|
  {
    if s == "" then "" else [LowerDigit(s[0])] + LowerHex(s[1..])
  }

  lemma HexValueMeaning(c: char, d: nibble)
    ensures HexValue(c) == Some(d) <==> LowerDigit(c) == HexDigit(d)
  {
  }

  lemma HexDecodeStep(s: string, b: seq<byte>)
    requires |s| >= 2 && b != []
    ensures HexDecode(s) == Some(b) <==>
            && HexValue(s[0]) == Some(b[0] / 16) && HexValue(s[1]) == Some(b[0] % 16)
            && HexDecode(s[2..]) == Some(b[1..])
  {
    hide HexValue;
    assert b == [b[0]] + b[1..];
    if HexValue(s[0]).Some? && HexValue(s[1]).Some? && HexDecode(s[2..]).Some? {
      var first: byte := 16 * (HexValue(s[0]).value as int) + HexValue(s[1]).value;
      assert ([first] + HexDecode(s[2..]).value)[1..] == HexDecode(s[2..]).value;
    }
  }

  lemma PairFirst<T>(a: T, b: T, c: T, d: T, s: seq<T>, t: seq<T>)
    ensures [a] + ([b] + s) == [c, d] + t <==> a == c && b == d && s == t
  {
    if [a] + ([b] + s) == [c, d] + t {
      assert ([a] + ([b] + s))[0] == ([c, d] + t)[0] && ([a] + ([b] + s))[1] == ([c, d] + t)[1];
      assert ([a] + ([b] + s))[2..] == s && ([c, d] + t)[2..] == t;
    }
  }

  /** Exactly the texts that are an encoding up to case decode, and to what is encoded. */
  lemma {:induction false} HexDecodeMeaning(s: string, b: seq<byte>)
    ensures HexDecode(s) == Some(b) <==> LowerHex(s) == HexEncode(b)
  {
    if |s| >= 2 && b != [] {
      HexDecodeStep(s, b);
      HexDecodeMeaning(s[2..], b[1..]);
      HexValueMeaning(s[0], b[0] / 16);
      HexValueMeaning(s[1], b[0] % 16);
      assert s[1..][1..] == s[2..];
      PairFirst(LowerDigit(s[0]), LowerDigit(s[1]), HexDigit(b[0] / 16), HexDigit(b[0] % 16), LowerHex(s[2..]),
                HexEncode(b[1..]));
      hide HexDecode, HexValue, LowerDigit, HexDigit;
    }
  }

  // ---------- Unpadded base64 ----------

  datatype Alphabet = Std | Url

  function Symbol(a: Alphabet, v: sextet): char
  {
    if v < 26 then 'A' + v as char
    else if v < 52 then 'a' + (v - 26) as char
    else if v < 62 then '0' + (v - 52) as char
    else if v == 62 then (if a.Std? then '+' else '-')
    else if a.Std? then '/' else '_'
  }

  function SymbolValue(a: Alphabet, c: char): Option<sextet>
  {
    if 'A' <= c <= 'Z' then Some(c as int - 'A' as int)
    else if 'a' <= c <= 'z' then Some(c as int - 'a' as int + 26)
    else if '0' <= c <= '9' then Some(c as int - '0' as int + 52)
    else if c == (if a.Std? then '+' else '-') then Some(62)
    else if c == (if a.Std? then '/' else '_') then Some(63)
    else None
  }

  predicate IsSymbol(c: char) {
    'A' <= c <= 'Z' || 'a' <= c <= 'z' || '0' <= c <= '9' || c in "+/-_"
  }

  lemma SymbolRoundTrip(a: Alphabet, v: sextet)
    ensures SymbolValue(a, Symbol(a, v)) == Some(v) && IsSymbol(Symbol(a, v))
  {
  }

  /** The sextets of a byte string, low bits of the last one zero. */
  function Sextets(b: seq<byte>): seq<sextet>
  {
    if |b| == 0 then []
    else if |b| == 1 then [b[0] / 4, b[0] % 4 * 16]
    else if |b| == 2 then [b[0] / 4, b[0] % 4 * 16 + b[1] / 16, b[1] % 16 * 4]
    else [b[0] / 4, b[0] % 4 * 16 + b[1] / 16, b[1] % 16 * 4 + b[2] / 64, b[2] % 64] + Sextets(b[3..])
  }

  function FirstByte(v: sextet, w: sextet): byte { (v as int) * 4 + w / 16 }
  function SecondByte(v: sextet, w: sextet): byte { (v % 16 as int) * 16 + w / 4 }
  function ThirdByte(v: sextet, w: sextet): byte { (v % 4 as int) * 64 + w }

  /** Bytes from sextets. A single left-over sextet is an error; left-over low bits are ignored. */
  function Bytes(v: seq<sextet>): Option<seq<byte>> {
    if |v| == 0 then Some([])
    else if |v| == 1 then None
    else if |v| == 2 then Some([FirstByte(v[0], v[1])])
    else if |v| == 3 then Some([FirstByte(v[0], v[1]), SecondByte(v[1], v[2])])
    else
      match Bytes(v[4..])
      case None => None
      case Some(rest) => Some([FirstByte(v[0], v[1]), SecondByte(v[1], v[2]), ThirdByte(v[2], v[3])] + rest)
  }

  /** How many values of the last sextet stand for the same bytes. */
  function Slack(n: nat): (u: nat)
    ensures u > 0
  {
    if n % 3 == 1 then 16 else if n % 3 == 2 then 4 else 1
  }

  /** The same sextets, but for the unused low bits of the last. */
  ghost predicate SameBits(v: seq<sextet>, w: seq<sextet>, slack: nat)
    requires slack > 0
  {
    && |v| == |w| && (forall i | 0 <= i < |v| - 1 :: v[i] == w[i])
    && (v != [] ==> v[|v| - 1] / slack == w[|w| - 1] / slack)
  }

  lemma OneByte(v: sextet, w: sextet, x: byte)
    ensures FirstByte(v, w) == x <==> v == x / 4 && w / 16 == (x % 4 * 16) / 16
  {
  }

  lemma TwoBytes(u: sextet, v: sextet, w: sextet, x: byte, y: byte)
    ensures FirstByte(u, v) == x && SecondByte(v, w) == y <==>
            u == x / 4 && v == x % 4 * 16 + y / 16 && w / 4 == (y % 16 * 4) / 4
  {
    SplitSextet(v, 16, x % 4, y / 16);
  }

  lemma ThreeBytes(t: sextet, u: sextet, v: sextet, w: sextet, x: byte, y: byte, z: byte)
    ensures FirstByte(t, u) == x && SecondByte(u, v) == y && ThirdByte(v, w) == z <==>
            t == x / 4 && u == x % 4 * 16 + y / 16 && v == y % 16 * 4 + z / 64 && w == z % 64
  {
    SplitSextet(u, 16, x % 4, y / 16);
    SplitSextet(v, 4, y % 16, z / 64);
  }

  lemma SplitSextet(v: sextet, unit: nat, high: nat, low: nat)
    requires unit in {4, 16} && low < unit
    ensures v == high * unit + low <==> v / unit == high && v % unit == low
  {
  }

  lemma BytesStep(v: seq<sextet>, b: seq<byte>)
    requires |v| >= 4
    ensures Bytes(v) == Some(b) <==>
            && |b| >= 3 && FirstByte(v[0], v[1]) == b[0] && SecondByte(v[1], v[2]) == b[1]
            && ThirdByte(v[2], v[3]) == b[2] && Bytes(v[4..]) == Some(b[3..])
  {
    hide FirstByte, SecondByte, ThirdByte;
    if Bytes(v[4..]).Some? {
      var first := [FirstByte(v[0], v[1]), SecondByte(v[1], v[2]), ThirdByte(v[2], v[3])];
      assert (first + Bytes(v[4..]).value)[3..] == Bytes(v[4..]).value;
      if |b| >= 3 { assert b == [b[0], b[1], b[2]] + b[3..]; }
    }
  }

  lemma SextetsStep(b: seq<byte>)
    requires |b| >= 3
    ensures var w := Sextets(b);
      && |w| >= 4 && w[0] == b[0] / 4 && w[1] == b[0] % 4 * 16 + b[1] / 16
      && w[2] == b[1] % 16 * 4 + b[2] / 64 && w[3] == b[2] % 64 && w[4..] == Sextets(b[3..])
  {
  }

  lemma SameBitsStep(v: seq<sextet>, w: seq<sextet>, slack: nat)
    requires slack > 0 && |v| >= 4 && |w| >= 4 && (|v| == 4 && |w| == 4 ==> slack == 1)
    ensures SameBits(v, w, slack) <==>
            v[0] == w[0] && v[1] == w[1] && v[2] == w[2] && v[3] == w[3] && SameBits(v[4..], w[4..], slack)
  {
    if SameBits(v, w, slack) {
      forall i | 0 <= i < |v| - 5 ensures v[4..][i] == w[4..][i] { assert v[i + 4] == w[i + 4]; }
    }
    if v[0] == w[0] && v[1] == w[1] && v[2] == w[2] && v[3] == w[3] && SameBits(v[4..], w[4..], slack) {
      forall i | 4 <= i < |v| - 1 ensures v[i] == w[i] { assert v[4..][i - 4] == w[4..][i - 4]; }
    }
  }

  lemma {:induction false} SextetCount(b: seq<byte>)
    ensures |Sextets(b)| == |b| / 3 * 4 + (if |b| % 3 == 0 then 0 else |b| % 3 + 1)
  {
    if |b| >= 3 { SextetCount(b[3..]); }
  }

  /** Exactly the sextets of `b`, up to unused bits, stand for `b`. */
  lemma {:induction false} BytesMeaning(v: seq<sextet>, b: seq<byte>)
    ensures Bytes(v) == Some(b) <==> SameBits(v, Sextets(b), Slack(|b|))
    decreases |v|
  {
    hide Bytes, Sextets, FirstByte, SecondByte, ThirdByte;
    SextetCount(b);
    if |v| >= 4 {
      BytesStep(v, b);
      if |b| >= 3 {
        BytesMeaning(v[4..], b[3..]);
        OneMoreGroup(v, b);
      }
    } else {
      FewBytes(v, b);
    }
  }

  lemma OneMoreGroup(v: seq<sextet>, b: seq<byte>)
    requires |v| >= 4 && |b| >= 3
    ensures SameBits(v, Sextets(b), Slack(|b|)) <==>
            && FirstByte(v[0], v[1]) == b[0] && SecondByte(v[1], v[2]) == b[1] && ThirdByte(v[2], v[3]) == b[2]
            && SameBits(v[4..], Sextets(b[3..]), Slack(|b| - 3))
  {
    hide Sextets, SameBits, FirstByte, SecondByte, ThirdByte;
    SextetCount(b);
    SextetsStep(b);
    ThreeBytes(v[0], v[1], v[2], v[3], b[0], b[1], b[2]);
    SameBitsStep(v, Sextets(b), Slack(|b|));
  }

  lemma FewBytes(v: seq<sextet>, b: seq<byte>)
    requires |v| < 4
    ensures Bytes(v) == Some(b) <==> SameBits(v, Sextets(b), Slack(|b|))
  {
    hide Sextets, FirstByte, SecondByte, SameBits;
    SextetCount(b);
    BytesOfFew(v);
    if |b| == 0 {
      NoSextets(v);
    } else if |b| == 1 {
      TwoSextets(v, b);
    } else if |b| == 2 {
      ThreeSextets(v, b);
    } else {
      TooManySextets(v, b);
    }
  }

  lemma BytesOfFew(v: seq<sextet>)
    requires |v| < 4
    ensures Bytes(v) == if |v| == 0 then Some([]) else if |v| == 1 then None
                        else if |v| == 2 then Some([FirstByte(v[0], v[1])])
                        else Some([FirstByte(v[0], v[1]), SecondByte(v[1], v[2])])
  {
  }

  lemma NoSextets(v: seq<sextet>)
    ensures SameBits(v, Sextets([]), 1) <==> v == []
  {
  }

  lemma TooManySextets(v: seq<sextet>, b: seq<byte>)
    requires |v| < 4 && |b| >= 3
    ensures !SameBits(v, Sextets(b), Slack(|b|))
  {
    hide Sextets;
    SextetCount(b);
  }

  lemma TwoSextets(v: seq<sextet>, b: seq<byte>)
    requires |b| == 1
    ensures SameBits(v, Sextets(b), 16) <==> |v| == 2 && [FirstByte(v[0], v[1])] == b
  {
    hide FirstByte;
    assert b == [b[0]];
    if |v| == 2 { OneByte(v[0], v[1], b[0]); }
  }

  lemma ThreeSextets(v: seq<sextet>, b: seq<byte>)
    requires |b| == 2
    ensures SameBits(v, Sextets(b), 4) <==> |v| == 3 && [FirstByte(v[0], v[1]), SecondByte(v[1], v[2])] == b
  {
    hide FirstByte, SecondByte, SameBits, Sextets;
    assert b == [b[0], b[1]];
    SextetsOfTwo(b);
    SameThree(v, Sextets(b), 4);
    if |v| == 3 { TwoBytes(v[0], v[1], v[2], b[0], b[1]); }
  }

  lemma SextetsOfTwo(b: seq<byte>)
    requires |b| == 2
    ensures Sextets(b) == [b[0] / 4, b[0] % 4 * 16 + b[1] / 16, b[1] % 16 * 4]
  {
  }

  lemma SameThree(v: seq<sextet>, w: seq<sextet>, slack: nat)
    requires |w| == 3 && slack > 0
    ensures SameBits(v, w, slack) <==> |v| == 3 && v[0] == w[0] && v[1] == w[1] && v[2] / slack == w[2] / slack
  {
  }

  lemma BytesOfSextets(b: seq<byte>)
    ensures Bytes(Sextets(b)) == Some(b)
  {
    BytesMeaning(Sextets(b), b);
  }

  function Symbols(a: Alphabet, v: seq<sextet>): (s: string)
    ensures forall c | c in s :: IsSymbol(c)
  {
    if v == [] then "" else
    SymbolRoundTrip(a, v[0]);
    [Symbol(a, v[0])] + Symbols(a, v[1..])
  }

  /** The sextets a text stands for; carriage returns and line feeds are skipped. */
  function Values(a: Alphabet, s: string): Option<seq<sextet>>
  {
    if s == "" then Some([])
    else if s[0] == '\r' || s[0] == '\n' then Values(a, s[1..])
    else
      match (SymbolValue(a, s[0]), Values(a, s[1..]))
      case (Some(v), Some(rest)) => Some([v] + rest)
      case _ => None
  }

  lemma {:induction false} ValuesOfSymbols(a: Alphabet, v: seq<sextet>)
    ensures Values(a, Symbols(a, v)) == Some(v)
  {
    if v != [] {
      SymbolRoundTrip(a, v[0]);
      ValuesOfSymbols(a, v[1..]);
      assert Symbols(a, v)[1..] == Symbols(a, v[1..]);
      assert v == [v[0]] + v[1..];
    }
  }

  function Base64Encode(a: Alphabet, b: seq<byte>): (s: string)
    ensures forall c | c in s :: IsSymbol(c)
  {
    Symbols(a, Sextets(b))
  }

  function Base64Decode(a: Alphabet, s: string): Option<seq<byte>> {
    match Values(a, s)
    case None => None
    case Some(v) => Bytes(v)
  }

  /** The alphabets of sections 4 and 5 of RFC 4648. */
  lemma Base64Alphabet(a: Alphabet, v: sextet)
    ensures v < 26 ==> Symbol(a, v) == "ABCDEFGHIJKLMNOPQRSTUVWXYZ"[v]
    ensures 26 <= v < 52 ==> Symbol(a, v) == "abcdefghijklmnopqrstuvwxyz"[v - 26]
    ensures 52 <= v < 62 ==> Symbol(a, v) == "0123456789"[v - 52]
    ensures 62 <= v ==> Symbol(a, v) == (if a.Std? then "+/" else "-_")[v - 62]
  {
  }

  /** The text without line breaks, which decoding skips. */
  function Unwrapped(s: string): string {
    if s == "" then "" else (if s[0] == '\r' || s[0] == '\n' then "" else [s[0]]) + Unwrapped(s[1..])
  }

  lemma SymbolMeaning(a: Alphabet, c: char, v: sextet)
    ensures SymbolValue(a, c) == Some(v) <==> c == Symbol(a, v)
  {
  }

  lemma ConsEqual<T>(x: T, s: seq<T>, y: T, t: seq<T>)
    ensures [x] + s == [y] + t <==> x == y && s == t
  {
    if [x] + s == [y] + t { assert ([x] + s)[0] == ([y] + t)[0] && ([x] + s)[1..] == s && ([y] + t)[1..] == t; }
  }

  lemma {:induction false} ValuesMeaning(a: Alphabet, s: string, v: seq<sextet>)
    ensures Values(a, s) == Some(v) <==> Unwrapped(s) == Symbols(a, v)
  {
    if s != "" {
      if s[0] == '\r' || s[0] == '\n' {
        ValuesMeaning(a, s[1..], v);
        assert "" + Unwrapped(s[1..]) == Unwrapped(s[1..]);
      } else if v != [] {
        ValuesMeaning(a, s[1..], v[1..]);
        SymbolMeaning(a, s[0], v[0]);
        ConsEqual(s[0], Unwrapped(s[1..]), Symbol(a, v[0]), Symbols(a, v[1..]));
        if SymbolValue(a, s[0]).Some? && Values(a, s[1..]).Some? {
          ConsEqual(SymbolValue(a, s[0]).value, Values(a, s[1..]).value, v[0], v[1..]);
        }
        assert v == [v[0]] + v[1..];
        hide Symbol, SymbolValue;
      }
    }
  }

  /** Exactly the encodings of `b`, with line breaks and unused bits ignored, decode to `b`. */
  lemma Base64DecodeMeaning(a: Alphabet, s: string, b: seq<byte>)
    ensures Base64Decode(a, s) == Some(b) <==>
            exists v :: Unwrapped(s) == Symbols(a, v) && SameBits(v, Sextets(b), Slack(|b|))
  {
    hide Values, Bytes, Symbols, Sextets, SameBits;
    if Base64Decode(a, s) == Some(b) {
      var v := Values(a, s).value;
      ValuesMeaning(a, s, v);
      BytesMeaning(v, b);
    }
    if v :| Unwrapped(s) == Symbols(a, v) && SameBits(v, Sextets(b), Slack(|b|)) {
      ValuesMeaning(a, s, v);
      BytesMeaning(v, b);
    }
  }

  lemma Base64RoundTrip(a: Alphabet, b: seq<byte>)
    ensures Base64Decode(a, Base64Encode(a, b)) == Some(b)
  {
    ValuesOfSymbols(a, Sextets(b));
    BytesOfSextets(b);
  }
}
