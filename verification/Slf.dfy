/** The SLF0 token stream of a build log (engine/xcactivitylog.rs): reading, and the encoder its tests define. */
module Slf {
  import opened Text

  const MAGIC := "SLF0"
  const HEX := "0123456789abcdef"

  /** Double quote, `#`, `^`, `(`, `%`, `@`, `-` and `*`. */
  predicate IsDelim(b: byte) {
    b == 0x22 || b == 0x23 || b == 0x5E || b == 0x28 || b == 0x25 || b == 0x40 || b == 0x2D || b == 0x2A
  }

  /** The tokens whose payload follows: string, class and JSON. */
  predicate IsFramed(b: byte) {
    b == 0x22 || b == 0x25 || b == 0x2A
  }

  predicate IsString(b: byte) {
    b == 0x22
  }

  function ParseLen(prefix: seq<byte>): Option<nat> {
    if prefix == [] then None
    else match Utf8Decode(prefix)
         case None => None
         case Some(text) => ParseUnsigned(text, USIZE_MAX)
  }

  /** Where the next delimiter is. */
  function Delim(s: seq<byte>, i: nat): (j: nat)
    requires i <= |s|
    ensures i <= j <= |s| && (j < |s| ==> IsDelim(s[j]))
    decreases |s| - i
  {
    if i == |s| || IsDelim(s[i]) then i else Delim(s, i + 1)
  }

  function Slice<T>(s: seq<T>, i: nat, j: nat): seq<T>
    requires i <= j <= |s|
  {
    s[i..j]
  }

  /** Only a string's payload is kept. */
  function Keep(delim: byte, payload: seq<byte>, rest: seq<seq<byte>>): seq<seq<byte>> {
    if IsString(delim) then [payload] + rest else rest
  }

  /** The string payloads from `i` on, up to the first token that is truncated or has a bad length. */
  function Scan(s: seq<byte>, i: nat): seq<seq<byte>>
    requires i <= |s|
    decreases |s| - i
  {
    var j := Delim(s, i);
    if j == |s| then []
    else if !IsFramed(s[j]) then Scan(s, j + 1)
    else
      match ParseLen(Slice(s, i, j))
      case None => []
      case Some(len) =>
        var end := j + 1 + len;
        if end > |s| then [] else Keep(s[j], Slice(s, j + 1, end), Scan(s, end))
  }

  function Strings(s: seq<byte>): seq<seq<byte>> {
    Scan(s, 0)
  }

  function SlfStrings(data: seq<byte>): seq<seq<byte>> {
    if |data| < 4 || data[..4] != Ascii(MAGIC) then [] else Scan(data, 4)
  }

  lemma {:induction false} DelimIs(s: seq<byte>, i: nat, j: nat)
    requires i <= j <= |s| && (forall k :: i <= k < j ==> !IsDelim(s[k])) && (j < |s| ==> IsDelim(s[j]))
    ensures Delim(s, i) == j
    decreases j - i
  {
    if i < j {
      DelimIs(s, i + 1, j);
    }
  }

  /** The scan of the source: always in bounds, and it stops at the first truncated or malformed token. A slice is
      never longer than `isize::MAX`. */
  method ScanStrings(data: seq<byte>) returns (out: seq<seq<byte>>)
    requires |data| <= ISIZE_MAX
    ensures out == SlfStrings(data)
  {
    hide ParseLen, Delim, IsFramed, IsString, IsDelim;
    out := [];
    if |data| < 4 || data[..4] != Ascii(MAGIC) {
      return;
    }
    var n, i := |data|, 4;
    while i < n
      invariant 4 <= i <= n
      invariant out + Scan(data, i) == Scan(data, 4)
      decreases n - i
    {
      var start := i;
      while i < n && !IsDelim(data[i])
        invariant start <= i <= n
        invariant forall k :: start <= k < i ==> !IsDelim(data[k])
      {
        i := i + 1;
      }
      DelimIs(data, start, i);
      if i >= n {
        break;
      }
      var delim, prefix := data[i], data[start..i];
      i := i + 1;
      if IsFramed(delim) {
        var len := ParseLen(prefix);
        if len.None? {
          break;
        }
        if i + len.value > USIZE_MAX || i + len.value > n {
          break;
        }
        var end := i + len.value;
        if IsString(delim) {
          out := out + [data[i..end]];
        }
        i := end;
      }
    }
  }

  // -- where the scan starts does not matter ----------------------------------

  lemma SliceOfDrop<T>(s: seq<T>, a: nat, i: nat, j: nat)
    requires a <= |s| && i <= j <= |s| - a
    ensures Slice(s[a..], i, j) == Slice(s, a + i, a + j)
  {}

  lemma {:induction false} DelimShift(s: seq<byte>, a: nat, i: nat)
    requires a + i <= |s|
    ensures Delim(s, a + i) == a + Delim(s[a..], i)
    decreases |s| - i
  {
    hide IsDelim;
    if a + i < |s| && !IsDelim(s[a + i]) {
      DelimShift(s, a, i + 1);
    }
  }

  lemma {:induction false} ScanShift(s: seq<byte>, a: nat, i: nat)
    requires a + i <= |s|
    ensures Scan(s, a + i) == Scan(s[a..], i)
    decreases |s| - i
  {
    hide ParseLen, Delim, IsFramed, IsDelim, Slice, Keep;
    DelimShift(s, a, i);
    var t := s[a..];
    var j := Delim(t, i);
    if j < |t| {
      assert t[j] == s[a + j];
      SliceOfDrop(s, a, i, j);
      if !IsFramed(t[j]) {
        ScanShift(s, a, j + 1);
      } else if ParseLen(Slice(t, i, j)).Some? {
        var end := j + 1 + ParseLen(Slice(t, i, j)).value;
        if end <= |t| {
          ScanShift(s, a, end);
          SliceOfDrop(s, a, j + 1, end);
        }
      }
    }
  }

  // -- the encoder ------------------------------------------------------------

  datatype Token =
    | Str(payload: seq<byte>)
    | Class(payload: seq<byte>)
    | Json(payload: seq<byte>)
    | Int(number: int)
    | Array(value: nat)
    | Instance(value: nat)
    | Double(bits: seq<byte>)
    | Null

  function HexByte(b: byte): string {
    [HEX[b / 16], HEX[b % 16]]
  }

  function HexText(bits: seq<byte>): string {
    if bits == [] then "" else HexByte(bits[0]) + HexText(bits[1..])
  }

  /** What comes before the delimiter, the delimiter, and what comes after. */
  function Prefix(t: Token): string {
    match t
    case Str(p) => Decimal(|p|)
    case Class(p) => Decimal(|p|)
    case Json(p) => Decimal(|p|)
    case Int(v) => Decimal(if v < 0 then -v else v)
    case Array(v) => Decimal(v)
    case Instance(v) => Decimal(v)
    case Double(bits) => HexText(bits)
    case Null => ""
  }

  function Delimiter(t: Token): byte {
    match t
    case Str(_) => 0x22
    case Class(_) => 0x25
    case Json(_) => 0x2A
    case Int(_) => 0x23
    case Array(_) => 0x28
    case Instance(_) => 0x40
    case Double(_) => 0x5E
    case Null => 0x2D
  }

  function Payload(t: Token): seq<byte> {
    if t.Str? || t.Class? || t.Json? then t.payload else []
  }

  lemma {:induction false} HexPlain(bits: seq<byte>)
    ensures forall k :: 0 <= k < |HexText(bits)| ==> HexText(bits)[k] in HEX
  {
    if bits != [] {
      HexPlain(bits[1..]);
    }
  }

  /** A prefix is ASCII and holds no delimiter. */
  lemma PrefixPlain(t: Token)
    ensures IsAscii(Prefix(t)) && forall k :: 0 <= k < |Prefix(t)| ==> !IsDelim(Prefix(t)[k] as int)
  {
    if t.Double? {
      HexPlain(t.bits);
    } else {
      assert AllDigits(Prefix(t));
    }
    var p := Prefix(t);
    hide HexText, Prefix, AllDigits, IsDelim;
    forall k | 0 <= k < |p| ensures p[k] as int < 128 && !IsDelim(p[k] as int) {
      assert IsDigit(p[k]) || p[k] in HEX;
      PlainChar(p[k]);
    }
  }

  lemma PlainChar(c: char)
    requires IsDigit(c) || c in HEX
    ensures c as int < 128 && !IsDelim(c as int)
  {}

  function EncodedUnsigned(t: Token): (r: seq<byte>)
    ensures |r| > |Payload(t)|
  {
    PrefixPlain(t);
    Ascii(Prefix(t)) + [Delimiter(t)] + Payload(t)
  }

  /** A minus sign reads as a null token of its own. */
  function Encoded(t: Token): (r: seq<byte>)
    ensures |r| > |Payload(t)|
  {
    if t.Int? && t.number < 0 then EncodedUnsigned(Null) + EncodedUnsigned(t) else EncodedUnsigned(t)
  }

  function Encode(ts: seq<Token>): seq<byte> {
    if ts == [] then [] else Encoded(ts[0]) + Encode(ts[1..])
  }

  function EncodeStream(ts: seq<Token>): seq<byte> {
    [0x53, 0x4C, 0x46, 0x30] + Encode(ts)
  }

  function Payloads(ts: seq<Token>): seq<seq<byte>> {
    if ts == [] then [] else (if ts[0].Str? then [ts[0].payload] else []) + Payloads(ts[1..])
  }

  lemma LenRead(t: Token)
    requires IsFramed(Delimiter(t)) && |Payload(t)| <= USIZE_MAX
    ensures IsAscii(Prefix(t)) && ParseLen(Ascii(Prefix(t))) == Some(|Payload(t)|)
  {
    PrefixPlain(t);
    Utf8DecodeAscii(Prefix(t));
    ParseDecimal(|Payload(t)|, USIZE_MAX);
  }

  lemma Parts(t: Token, rest: seq<byte>)
    ensures IsAscii(Prefix(t))
    ensures var p, s := Ascii(Prefix(t)), EncodedUnsigned(t) + rest;
            var end := |p| + 1 + |Payload(t)|;
            end <= |s| && Slice(s, 0, |p|) == p && s[|p|] == Delimiter(t) && Slice(s, |p| + 1, end) == Payload(t)
            && s[end..] == rest && Delim(s, 0) == |p|
  {
    PrefixPlain(t);
    hide Prefix, Payload, Delimiter;
    var p, s := Ascii(Prefix(t)), EncodedUnsigned(t) + rest;
    assert IsDelim(Delimiter(t)) by { AlwaysDelim(t); }
    DelimIs(s, 0, |p|);
    hide Delim;
  }

  lemma AlwaysDelim(t: Token)
    ensures IsDelim(Delimiter(t))
    ensures IsFramed(Delimiter(t)) <==> t.Str? || t.Class? || t.Json?
    ensures IsString(Delimiter(t)) <==> t.Str?
  {}

  lemma FramedScan(s: seq<byte>, j: nat, len: nat)
    requires j < |s| && j + 1 + len <= |s| && Delim(s, 0) == j && IsFramed(s[j])
    requires ParseLen(Slice(s, 0, j)) == Some(len)
    ensures Scan(s, 0) == Keep(s[j], Slice(s, j + 1, j + 1 + len), Scan(s, j + 1 + len))
  {
    hide ParseLen, Delim, Slice, IsFramed, Keep;
  }

  lemma FramedFirst(s: seq<byte>, j: nat, len: nat)
    requires j < |s| && j + 1 + len <= |s| && Delim(s, 0) == j && IsFramed(s[j])
    requires ParseLen(Slice(s, 0, j)) == Some(len)
    ensures Strings(s) == Keep(s[j], Slice(s, j + 1, j + 1 + len), Strings(s[j + 1 + len..]))
  {
    hide ParseLen, Delim, Slice, IsFramed, Keep, Scan;
    FramedScan(s, j, len);
    ScanShift(s, j + 1 + len, 0);
  }

  lemma PlainFirst(s: seq<byte>, j: nat)
    requires j < |s| && Delim(s, 0) == j && !IsFramed(s[j])
    ensures Strings(s) == Strings(s[j + 1..])
  {
    hide ParseLen, Delim, Slice, IsFramed, Keep;
    assert Scan(s, 0) == Scan(s, j + 1);
    hide Scan;
    ScanShift(s, j + 1, 0);
  }

  lemma OneUnsigned(t: Token, rest: seq<byte>)
    requires |Payload(t)| <= USIZE_MAX
    ensures Strings(EncodedUnsigned(t) + rest) == (if t.Str? then [t.payload] else []) + Strings(rest)
  {
    hide Strings, ParseLen, Prefix, Delim, EncodedUnsigned, Slice, IsFramed, IsString, Delimiter, Ascii;
    var s := EncodedUnsigned(t) + rest;
    Parts(t, rest);
    AlwaysDelim(t);
    if IsFramed(Delimiter(t)) {
      LenRead(t);
      FramedFirst(s, |Ascii(Prefix(t))|, |Payload(t)|);
    } else {
      PlainFirst(s, |Ascii(Prefix(t))|);
    }
  }

  /** One token is read off the front, whatever its payload and whatever follows. */
  lemma OneToken(t: Token, rest: seq<byte>)
    requires |Payload(t)| <= USIZE_MAX
    ensures Strings(Encoded(t) + rest) == (if t.Str? then [t.payload] else []) + Strings(rest)
  {
    hide Strings, EncodedUnsigned;
    OneUnsigned(t, rest);
    if t.Int? && t.number < 0 {
      OneUnsigned(Null, EncodedUnsigned(t) + rest);
      assert Encoded(t) + rest == EncodedUnsigned(Null) + (EncodedUnsigned(t) + rest);
    }
  }

  predicate Fits(ts: seq<Token>) {
    forall k :: 0 <= k < |ts| ==> |Payload(ts[k])| <= USIZE_MAX
  }

  lemma {:induction false} TokensThen(ts: seq<Token>, rest: seq<byte>)
    requires Fits(ts)
    ensures Strings(Encode(ts) + rest) == Payloads(ts) + Strings(rest)
  {
    hide Strings, Encoded;
    if ts == [] {
      assert Encode(ts) + rest == rest;
    } else {
      TokensThen(ts[1..], rest);
      OneToken(ts[0], Encode(ts[1..]) + rest);
      Regroup(Encoded(ts[0]), Encode(ts[1..]), rest);
      Regroup(if ts[0].Str? then [ts[0].payload] else [], Payloads(ts[1..]), Strings(rest));
    }
  }

  lemma Regroup<T>(a: seq<T>, b: seq<T>, c: seq<T>)
    ensures (a + b) + c == a + (b + c)
  {}

  /** Reading back what the encoder wrote gives exactly the string payloads, in order. */
  lemma RoundTrip(ts: seq<Token>)
    requires Fits(ts)
    ensures SlfStrings(EncodeStream(ts)) == Payloads(ts)
  {
    var s := EncodeStream(ts);
    assert Ascii(MAGIC) == [0x53, 0x4C, 0x46, 0x30];
    assert s[..4] == Ascii(MAGIC) && s[4..] == Encode(ts);
    ScanShift(s, 4, 0);
    TokensThen(ts, []);
    assert Encode(ts) + [] == Encode(ts);
    assert Strings([]) == [];
    hide Scan, Encode;
  }

  // -- truncation -------------------------------------------------------------

  lemma {:induction false} DelimCut(s: seq<byte>, i: nat, n: nat)
    requires i <= n <= |s|
    ensures Delim(s[..n], i) == if Delim(s, i) < n then Delim(s, i) else n
    decreases n - i
  {
    hide IsDelim;
    if i < n && !IsDelim(s[i]) {
      DelimCut(s, i + 1, n);
    }
  }

  lemma SliceOfTake<T>(s: seq<T>, n: nat, i: nat, j: nat)
    requires i <= j <= n <= |s|
    ensures Slice(s[..n], i, j) == Slice(s, i, j)
  {}

  lemma {:induction false} ScanCut(s: seq<byte>, i: nat, n: nat)
    requires i <= n <= |s|
    ensures Scan(s[..n], i) <= Scan(s, i)
    decreases n - i
  {
    hide ParseLen, Delim, IsFramed, IsDelim, Slice;
    DelimCut(s, i, n);
    var j, cut := Delim(s, i), s[..n];
    if j < n {
      SliceOfTake(s, n, i, j);
      if !IsFramed(s[j]) {
        ScanCut(s, j + 1, n);
      } else if ParseLen(Slice(s, i, j)).Some? {
        var end := j + 1 + ParseLen(Slice(s, i, j)).value;
        if end <= n {
          ScanCut(s, end, n);
          SliceOfTake(s, n, j + 1, end);
        }
      }
    }
  }

  /** Any bytes cut short anywhere yield a prefix of what the whole yields. */
  lemma TruncatedPrefix(data: seq<byte>, n: nat)
    requires n <= |data|
    ensures SlfStrings(data[..n]) <= SlfStrings(data)
  {
    hide Scan;
    if n >= 4 {
      SliceOfTake(data, n, 0, 4);
      ScanCut(data, 4, n);
    }
  }

  lemma PartOfUnsigned(t: Token, n: nat)
    requires |Payload(t)| <= USIZE_MAX && n < |EncodedUnsigned(t)|
    ensures Strings(EncodedUnsigned(t)[..n]) == []
  {
    PrefixPlain(t);
    var p, s := Ascii(Prefix(t)), EncodedUnsigned(t)[..n];
    if n <= |p| {
      DelimIs(s, 0, n);
    } else {
      DelimIs(s, 0, |p|);
      assert s[0..|p|] == p;
      LenRead(t);
    }
    hide ParseLen, Prefix, Delim;
  }

  /** Nothing is read from less than a whole token. */
  lemma PartOfToken(t: Token, n: nat)
    requires |Payload(t)| <= USIZE_MAX && n < |Encoded(t)|
    ensures Strings(Encoded(t)[..n]) == []
  {
    hide Strings, EncodedUnsigned;
    if t.Int? && t.number < 0 {
      var sign := EncodedUnsigned(Null);
      if n < |sign| {
        PartOfUnsigned(Null, n);
        assert Encoded(t)[..n] == sign[..n];
      } else {
        var rest := EncodedUnsigned(t)[..n - |sign|];
        PartOfUnsigned(t, n - |sign|);
        OneUnsigned(Null, rest);
        assert Encoded(t)[..n] == sign + rest;
      }
    } else {
      PartOfUnsigned(t, n);
    }
  }

  lemma {:induction false} EncodeSplit(ts: seq<Token>, k: nat)
    requires k < |ts|
    ensures Encode(ts) == Encode(ts[..k]) + Encoded(ts[k]) + Encode(ts[k + 1..])
  {
    hide Encoded;
    if k == 0 {
      assert Encode(ts[..0]) == [];
      assert [] + Encoded(ts[0]) + Encode(ts[1..]) == Encoded(ts[0]) + Encode(ts[1..]);
    } else {
      EncodeSplit(ts[1..], k - 1);
      assert ts[1..][..k - 1] == ts[..k][1..] && ts[1..][k - 1] == ts[k] && ts[1..][k..] == ts[k + 1..];
      var a, b, c, d := Encoded(ts[0]), Encode(ts[..k][1..]), Encoded(ts[k]), Encode(ts[k + 1..]);
      Regroup(a, b, c);
      Regroup(a, b + c, d);
      assert Encode(ts[..k]) == a + b;
    }
  }

  /** Exactly: an encoding cut anywhere yields the strings of the tokens that are still whole. */
  lemma TruncatedExact(ts: seq<Token>, k: nat, n: nat)
    requires Fits(ts) && k < |ts| && |Encode(ts[..k])| <= n < |Encode(ts[..k])| + |Encoded(ts[k])|
    ensures n <= |Encode(ts)| && Strings(Encode(ts)[..n]) == Payloads(ts[..k])
  {
    hide Strings, Encoded, Encode, Payloads;
    EncodeSplit(ts, k);
    var whole := Encode(ts[..k]);
    var part := Encoded(ts[k])[..n - |whole|];
    assert Encode(ts)[..n] == whole + part;
    TokensThen(ts[..k], part);
    PartOfToken(ts[k], n - |whole|);
  }

  // -- what is no stream, and lengths that do not parse -----------------------

  /** Without the four bytes `SLF0` at its head nothing is read. */
  lemma OtherMagic(data: seq<byte>)
    requires |data| < 4 || data[..4] != [0x53, 0x4C, 0x46, 0x30]
    ensures SlfStrings(data) == []
  {
    assert Ascii(MAGIC) == [0x53, 0x4C, 0x46, 0x30];
  }

  /** A string, class or JSON token whose length is no numeral ends the reading, whatever comes after: the strings
      before it are all there is. */
  lemma BadLengthStops(ts: seq<Token>, prefix: seq<byte>, delim: byte, rest: seq<byte>)
    requires Fits(ts) && delim in [0x22, 0x25, 0x2A]
    requires forall k :: 0 <= k < |prefix| ==> prefix[k] !in [0x22, 0x23, 0x5E, 0x28, 0x25, 0x40, 0x2D, 0x2A]
    requires forall text, v :: Utf8Encode(text) == prefix ==> ParseUnsigned(text, 0xFFFF_FFFF_FFFF_FFFF) != Some(v)
    ensures Strings(Encode(ts) + (prefix + [delim] + rest)) == Payloads(ts)
  {
    var s := prefix + [delim] + rest;
    assert forall k :: 0 <= k < |prefix| ==> s[k] == prefix[k];
    DelimIs(s, 0, |prefix|);
    assert Slice(s, 0, |prefix|) == prefix;
    NoLength(prefix);
    assert Strings(s) == [];
    hide Scan, Strings, Encode, Payloads, ParseLen;
    TokensThen(ts, s);
    assert Payloads(ts) + [] == Payloads(ts);
  }

  lemma NoLength(prefix: seq<byte>)
    requires forall text, v :: Utf8Encode(text) == prefix ==> ParseUnsigned(text, 0xFFFF_FFFF_FFFF_FFFF) != Some(v)
    ensures ParseLen(prefix).None?
  {
    Utf8Only(prefix);
    hide Utf8Decode, Utf8Encode, ParseUnsigned;
  }
}
