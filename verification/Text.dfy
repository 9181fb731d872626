/** Bytes, whitespace, UTF-8 and decimal numerals, as Rust's standard library defines them. */
module Text {

  type byte = x: int | 0 <= x < 256

  datatype Option<+T> = None | Some(value: T)

  // -- whitespace -------------------------------------------------------------

  /** `u8::is_ascii_whitespace`: space, tab, line feed, form feed, carriage return (no vertical tab). */
  predicate IsAsciiWhite(c: char) {
    c == ' ' || c == '\t' || c == '\n' || c == '\r' || c as int == 0x0C
  }

  /** `char::is_whitespace`: the Unicode White_Space property. */
  predicate IsWhite(c: char) {
    var x := c as int;
    0x09 <= x <= 0x0D || x == 0x20 || x == 0x85 || x == 0xA0 || x == 0x1680 ||
    0x2000 <= x <= 0x200A || x == 0x2028 || x == 0x2029 || x == 0x202F || x == 0x205F || x == 0x3000
  }

  /** The Unicode White_Space characters, one by one. */
  lemma WhiteSpelledOut(c: char)
    ensures IsWhite(c)
       <==> c in " \t\n\r\U{0B}\U{0C}\U{85}\U{A0}\U{1680}\U{2028}\U{2029}\U{202F}\U{205F}\U{3000}"
            || c in "\U{2000}\U{2001}\U{2002}\U{2003}\U{2004}\U{2005}\U{2006}\U{2007}\U{2008}\U{2009}\U{200A}"
    ensures IsAsciiWhite(c) <==> c in " \t\n\r\U{0C}"
  {
    var x := c as int;
    assert 0x2000 <= x <= 0x200A ==>
             x in {0x2000, 0x2001, 0x2002, 0x2003, 0x2004, 0x2005, 0x2006, 0x2007, 0x2008, 0x2009, 0x200A};
  }

  predicate AllWhite(s: string) {
    forall k :: 0 <= k < |s| ==> IsWhite(s[k])
  }

  function TrimStart(s: string): (r: string)
    ensures r != "" ==> !IsWhite(r[0])
  {
    if s != "" && IsWhite(s[0]) then TrimStart(s[1..]) else s
  }

  function TrimEnd(s: string): (r: string)
    ensures r <= s
    ensures r != "" ==> !IsWhite(r[|r| - 1])
  {
    if s != "" && IsWhite(s[|s| - 1]) then TrimEnd(s[..|s| - 1]) else s
  }

  /** `str::trim`. */
  function Trim(s: string): string {
    TrimEnd(TrimStart(s))
  }

  /** What trimming takes off is whitespace, and it leaves none at either end. */
  lemma {:induction false} TrimStartSplit(s: string) returns (a: string)
    ensures s == a + TrimStart(s) && AllWhite(a)
  {
    a := "";
    if s != "" && IsWhite(s[0]) {
      var rest := TrimStartSplit(s[1..]);
      a := [s[0]] + rest;
    }
  }

  lemma {:induction false} TrimEndSplit(s: string) returns (b: string)
    ensures s == TrimEnd(s) + b && AllWhite(b)
  {
    b := "";
    if s != "" && IsWhite(s[|s| - 1]) {
      var rest := TrimEndSplit(s[..|s| - 1]);
      b := rest + [s[|s| - 1]];
    }
  }

  lemma TrimSplit(s: string) returns (a: string, b: string)
    ensures s == a + Trim(s) + b && AllWhite(a) && AllWhite(b)
    ensures Trim(s) != "" ==> !IsWhite(Trim(s)[0]) && !IsWhite(Trim(s)[|Trim(s)| - 1])
  {
    a := TrimStartSplit(s);
    b := TrimEndSplit(TrimStart(s));
  }

  lemma {:induction false} TrimStartAround(a: string, t: string)
    requires AllWhite(a) && (t != "" ==> !IsWhite(t[0]))
    ensures TrimStart(a + t) == t
  {
    if a == "" {
      assert a + t == t;
    } else {
      assert (a + t)[1..] == a[1..] + t;
      TrimStartAround(a[1..], t);
    }
  }

  lemma {:induction false} TrimEndAround(t: string, b: string)
    requires AllWhite(b) && (t != "" ==> !IsWhite(t[|t| - 1]))
    ensures TrimEnd(t + b) == t
  {
    if b == "" {
      assert t + b == t;
    } else {
      assert (t + b)[..|t + b| - 1] == t + b[..|b| - 1];
      TrimEndAround(t, b[..|b| - 1]);
    }
  }

  /** So trimming gives back what stands between whitespace. */
  lemma TrimAroundAny(a: string, t: string, b: string)
    requires AllWhite(a) && AllWhite(b) && t != "" && !IsWhite(t[0]) && !IsWhite(t[|t| - 1])
    ensures Trim(a + t + b) == t
  {
    assert a + t + b == a + (t + b);
    TrimStartAround(a, t + b);
    TrimEndAround(t, b);
  }

  // -- sequences --------------------------------------------------------------

  function Flatten<T>(parts: seq<seq<T>>): seq<T> {
    if parts == [] then [] else parts[0] + Flatten(parts[1..])
  }

  lemma {:induction false} FlattenAppend<T>(a: seq<seq<T>>, b: seq<seq<T>>)
    ensures Flatten(a + b) == Flatten(a) + Flatten(b)
  {
    if a == [] {
      assert a + b == b;
    } else {
      assert (a + b)[1..] == a[1..] + b;
      FlattenAppend(a[1..], b);
    }
  }

  // -- ASCII and UTF-8 --------------------------------------------------------

  predicate IsAscii(s: string) {
    forall k :: 0 <= k < |s| ==> s[k] as int < 128
  }

  /** The bytes of an ASCII string. */
  function Ascii(s: string): (r: seq<byte>)
    requires IsAscii(s)
    ensures |r| == |s| && forall k :: 0 <= k < |s| ==> r[k] == s[k] as int
  {
    seq(|s|, i requires 0 <= i < |s| => s[i] as int)
  }

  predicate IsContinuation(b: byte) {
    0x80 <= b < 0xC0
  }

  function Payload(b: byte): int {
    b as int - 0x80
  }

  /** Length of the well-formed UTF-8 sequence that `s` starts with; 0 when there is none. */
  function Utf8Width(s: seq<byte>): (w: nat)
    ensures w <= |s| && w <= 4
  {
    if |s| >= 1 && s[0] < 0x80 then 1
    else if |s| >= 2 && 0xC2 <= s[0] < 0xE0 && IsContinuation(s[1]) then 2
    else if |s| >= 3 && 0xE0 <= s[0] < 0xF0 && IsContinuation(s[1]) && IsContinuation(s[2])
            && (s[0] == 0xE0 ==> s[1] >= 0xA0) && (s[0] == 0xED ==> s[1] < 0xA0) then 3
    else if |s| >= 4 && 0xF0 <= s[0] < 0xF5 && IsContinuation(s[1]) && IsContinuation(s[2]) && IsContinuation(s[3])
            && (s[0] == 0xF0 ==> s[1] >= 0x90) && (s[0] == 0xF4 ==> s[1] < 0x90) then 4
    else 0
  }

  /** The scalar value of the sequence of width `w` at the head of `s`. */
  function Utf8Head(s: seq<byte>): char
    requires Utf8Width(s) > 0
  {
    var w := Utf8Width(s);
    if w == 1 then s[0] as char
    else if w == 2 then ((s[0] as int - 0xC0) * 64 + Payload(s[1])) as char
    else if w == 3 then ((s[0] as int - 0xE0) * 4096 + Payload(s[1]) * 64 + Payload(s[2])) as char
    else ((s[0] as int - 0xF0) * 262144 + Payload(s[1]) * 4096 + Payload(s[2]) * 64 + Payload(s[3])) as char
  }

  /** `std::str::from_utf8`: `None` on the first ill-formed sequence. */
  function Utf8Decode(s: seq<byte>): Option<string> {
    if s == [] then Some("")
    else
      var w := Utf8Width(s);
      if w == 0 then None
      else match Utf8Decode(s[w..])
           case None => None
           case Some(rest) => Some([Utf8Head(s)] + rest)
  }

  lemma {:induction false} Utf8DecodeAscii(s: string)
    requires IsAscii(s)
    ensures Utf8Decode(Ascii(s)) == Some(s)
  {
    if s != "" {
      var b := Ascii(s);
      assert b[1..] == Ascii(s[1..]);
      Utf8DecodeAscii(s[1..]);
      assert [s[0]] + s[1..] == s;
    }
  }

  /** The UTF-8 encoding of one character, by section 3 of RFC 3629. */
  function Utf8Bytes(c: char): (b: seq<byte>)
    ensures 1 <= |b| <= 4
  {
    var x := c as int;
    if x < 0x80 then [x as byte]
    else if x < 0x800 then [(0xC0 + x / 64) as byte, (0x80 + x % 64) as byte]
    else if x < 0x1_0000 then [(0xE0 + x / 4096) as byte, (0x80 + x / 64 % 64) as byte, (0x80 + x % 64) as byte]
    else [(0xF0 + x / 262144) as byte, (0x80 + x / 4096 % 64) as byte,
          (0x80 + x / 64 % 64) as byte, (0x80 + x % 64) as byte]
  }

  function Utf8Encode(s: string): seq<byte> {
    if s == "" then [] else Utf8Bytes(s[0]) + Utf8Encode(s[1..])
  }

  lemma Utf8HeadOf(c: char, rest: seq<byte>)
    ensures var s := Utf8Bytes(c) + rest;
            Utf8Width(s) == |Utf8Bytes(c)| && Utf8Head(s) == c
  {
    var x, b, s := c as int, Utf8Bytes(c), Utf8Bytes(c) + rest;
    assert forall k :: 0 <= k < |b| ==> s[k] == b[k];
    assert x == x / 64 * 64 + x % 64 && x / 64 == x / 4096 * 64 + x / 64 % 64 && x / 4096 == x / 262144 * 64 + x / 4096 % 64;
  }

  /** The digits of a number in base 64. */
  lemma Base64(a: nat, b: nat, c: nat, d: nat, x: nat)
    requires b < 64 && c < 64 && d < 64 && x == a * 262144 + b * 4096 + c * 64 + d
    ensures x % 64 == d && x / 64 % 64 == c && x / 4096 % 64 == b && x / 262144 == a
    ensures x / 64 == a * 4096 + b * 64 + c && x / 4096 == a * 64 + b
  {}

  lemma Utf8BytesOf(s: seq<byte>)
    requires Utf8Width(s) > 0
    ensures Utf8Bytes(Utf8Head(s)) == s[..Utf8Width(s)]
  {
    var w := Utf8Width(s);
    var x := Utf8Head(s) as int;
    if w == 2 {
      Base64(0, 0, s[0] as int - 0xC0, Payload(s[1]), x);
    } else if w == 3 {
      Base64(0, s[0] as int - 0xE0, Payload(s[1]), Payload(s[2]), x);
    } else if w == 4 {
      Base64(s[0] as int - 0xF0, Payload(s[1]), Payload(s[2]), Payload(s[3]), x);
    }
  }

  /** Decoding is the inverse of encoding: it accepts exactly the encodings. */
  lemma {:induction false} Utf8RoundTrip(s: string)
    ensures Utf8Decode(Utf8Encode(s)) == Some(s)
  {
    if s != "" {
      Utf8RoundTrip(s[1..]);
      Utf8HeadOf(s[0], Utf8Encode(s[1..]));
      hide Utf8Width, Utf8Head, Utf8Bytes;
      assert Utf8Encode(s)[|Utf8Bytes(s[0])|..] == Utf8Encode(s[1..]);
      assert [s[0]] + s[1..] == s;
    }
  }

  lemma EncodeCons(c: char, rest: string)
    ensures Utf8Encode([c] + rest) == Utf8Bytes(c) + Utf8Encode(rest)
  {
    hide Utf8Bytes;
    assert ([c] + rest)[1..] == rest;
  }

  lemma TakeDrop<T>(s: seq<T>, n: nat)
    requires n <= |s|
    ensures s[..n] + s[n..] == s
  {}

  lemma {:induction false} Utf8Only(b: seq<byte>)
    ensures Utf8Decode(b).Some? ==> Utf8Encode(Utf8Decode(b).value) == b
  {
    if b != [] && Utf8Width(b) > 0 {
      var w := Utf8Width(b);
      hide Utf8Width, Utf8Head, Utf8Bytes, Utf8Encode;
      Utf8Only(b[w..]);
      if Utf8Decode(b[w..]).Some? {
        Utf8BytesOf(b);
        EncodeCons(Utf8Head(b), Utf8Decode(b[w..]).value);
        TakeDrop(b, w);
      }
    }
  }

  // -- decimal numerals -------------------------------------------------------

  const USIZE_MAX: nat := 0xFFFF_FFFF_FFFF_FFFF
  const ISIZE_MAX: nat := 0x7FFF_FFFF_FFFF_FFFF

  predicate IsDigit(c: char) {
    '0' <= c <= '9'
  }

  predicate AllDigits(s: string) {
    forall k :: 0 <= k < |s| ==> IsDigit(s[k])
  }

  /** `format!("{n}")` of an unsigned number. */
  function Decimal(n: nat): (s: string)
    ensures s != "" && AllDigits(s)
  {
    var last := [('0' as int + n % 10) as char];
    if n < 10 then last else Decimal(n / 10) + last
  }

  /** Value of a digit string, most significant digit first. */
  function DigitsValue(s: string): nat
    requires AllDigits(s)
  {
    if s == "" then 0 else DigitsValue(s[..|s| - 1]) * 10 + (s[|s| - 1] as int - '0' as int)
  }

  /** Rust's `parse` for an unsigned type with the given greatest value: an optional `+`, then digits only. */
  function ParseUnsigned(s: string, max: nat): Option<nat> {
    var digits := if s != "" && s[0] == '+' then s[1..] else s;
    if digits != "" && AllDigits(digits) && DigitsValue(digits) <= max then Some(DigitsValue(digits)) else None
  }

  lemma DigitsSpelledOut(s: string, d: nat)
    requires AllDigits(s) && d < 10
    ensures AllDigits(s + ["0123456789"[d]]) && DigitsValue(s + ["0123456789"[d]]) == DigitsValue(s) * 10 + d
    ensures DigitsValue("") == 0
  {
    var t := s + ["0123456789"[d]];
    assert "0123456789"[d] as int == '0' as int + d;
    assert t[..|t| - 1] == s;
  }

  /** What parses: digits, at least one, behind at most one plus sign, of a value that fits. */
  lemma NumeralSpelledOut(s: string, max: nat, v: nat)
    ensures ParseUnsigned(s, max) == Some(v)
       <==> v <= max && exists d :: (s == d || s == "+" + d) && d != "" && AllDigits(d) && DigitsValue(d) == v
  {
    if s != "" && s[0] == '+' {
      assert s == "+" + s[1..];
      assert !IsDigit(s[0]);
    }
    forall d | (s == d || s == "+" + d) && d != "" && AllDigits(d) && DigitsValue(d) == v
      ensures ParseUnsigned(s, max) == if v <= max then Some(v) else None
    {
      if s == "+" + d {
        assert s[1..] == d;
      } else {
        assert IsDigit(s[0]);
      }
    }
    hide DigitsValue;
  }

  lemma {:induction false} DecimalValue(n: nat)
    ensures DigitsValue(Decimal(n)) == n
  {
    if n >= 10 {
      DecimalValue(n / 10);
      assert Decimal(n)[..|Decimal(n)| - 1] == Decimal(n / 10);
    }
  }

  /** Printing then parsing a number gives it back, for every number the type can hold. */
  lemma ParseDecimal(n: nat, max: nat)
    requires n <= max
    ensures ParseUnsigned(Decimal(n), max) == Some(n)
  {
    DecimalValue(n);
  }

  lemma TrimStartFixed(s: string)
    requires s != "" ==> !IsWhite(s[0])
    ensures TrimStart(s) == s
  {}

  lemma TrimEndFixed(s: string)
    requires s != "" ==> !IsWhite(s[|s| - 1])
    ensures TrimEnd(s) == s
  {}
}
