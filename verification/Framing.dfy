/** The `Content-Length` codec (dap/framing.rs). */
module Framing {
  import opened Text

  datatype Error =
    | NonUtf8Header
    | InvalidLength
    | MissingLength
    | TooLarge
    | ClosedMidFrame(buffered: nat)

  /** What `parse_header` answers: more bytes needed, a header block, or a malformed block. */
  datatype Header = NeedMore | Block(bodyStart: nat, bodyLen: nat) | Malformed(error: Error)

  /** What one call of `next_message` comes to; `Cancelled` is a future dropped while it waits for bytes. */
  datatype Outcome = Message(body: seq<byte>) | End | Failed(error: Error) | Cancelled

  // -- the header block -------------------------------------------------------

  const BLANK_LINE: seq<byte> := [13, 10, 13, 10]
  const LENGTH_NAME := "content-length"

  predicate WindowAt(haystack: seq<byte>, needle: seq<byte>, k: nat) {
    k + |needle| <= |haystack| && haystack[k..k + |needle|] == needle
  }

  /** `find_subslice`: position of the first window equal to `needle`. */
  function FindSubslice(haystack: seq<byte>, needle: seq<byte>): (r: Option<nat>)
    requires needle != []
    ensures r.Some? ==> WindowAt(haystack, needle, r.value)
  {
    if |haystack| < |needle| then None
    else if haystack[..|needle|] == needle then Some(0)
    else match FindSubslice(haystack[1..], needle)
         case None => None
         case Some(k) =>
           assert haystack[k + 1..k + 1 + |needle|] == haystack[1..][k..k + |needle|];
           Some(k + 1)
  }

  /** No window before the one found, and none at all when none is found. */
  lemma {:induction false} FindSubsliceFirst(haystack: seq<byte>, needle: seq<byte>, k: nat)
    requires needle != [] && WindowAt(haystack, needle, k)
    ensures FindSubslice(haystack, needle).Some? && FindSubslice(haystack, needle).value <= k
  {
    if haystack[..|needle|] != needle {
      assert k >= 1;
      assert haystack[1..][k - 1..k - 1 + |needle|] == haystack[k..k + |needle|];
      FindSubsliceFirst(haystack[1..], needle, k - 1);
    }
  }

  /** `str::split("\r\n")`. */
  function SplitLines(s: string): (lines: seq<string>)
    ensures lines != []
  {
    if |s| < 2 then [s]
    else if s[..2] == "\r\n" then [""] + SplitLines(s[2..])
    else
      var rest := SplitLines(s[1..]);
      [[s[0]] + rest[0]] + rest[1..]
  }

  /** `split_once(':')`: name and value of a header line. */
  function SplitColon(line: string): Option<(string, string)> {
    if line == "" then None
    else if line[0] == ':' then Some(("", line[1..]))
    else match SplitColon(line[1..])
         case None => None
         case Some((name, value)) => Some(([line[0]] + name, value))
  }

  function LowerAscii(s: string): string {
    seq(|s|, i requires 0 <= i < |s| => if 'A' <= s[i] <= 'Z' then (s[i] as int + 32) as char else s[i])
  }

  predicate IsLengthLine(line: string) {
    var split := SplitColon(line);
    split.Some? && LowerAscii(Trim(split.value.0)) == LENGTH_NAME
  }

  function LengthValue(line: string): Option<nat>
    requires IsLengthLine(line)
  {
    ParseUnsigned(Trim(SplitColon(line).value.1), USIZE_MAX)
  }

  /** Body length a header block declares: its last length line, unless any length line is invalid. */
  datatype Declared = Nothing | Length(len: nat) | Invalid

  function DeclaredLength(lines: seq<string>): Declared {
    if lines == [] then Nothing
    else
      var before, line := DeclaredLength(lines[..|lines| - 1]), lines[|lines| - 1];
      if before.Invalid? || !IsLengthLine(line) then before
      else match LengthValue(line)
           case None => Invalid
           case Some(len) => Length(len)
  }

  /** The header block that `buf` starts with. */
  function HeaderOf(buf: seq<byte>): (h: Header)
    ensures h.Block? ==> 4 <= h.bodyStart <= |buf|
  {
    match FindSubslice(buf, BLANK_LINE)
    case None => NeedMore
    case Some(end) =>
      match Utf8Decode(buf[..end])
      case None => Malformed(NonUtf8Header)
      case Some(header) =>
        match DeclaredLength(SplitLines(header))
        case Invalid => Malformed(InvalidLength)
        case Nothing => Malformed(MissingLength)
        case Length(len) => Block(end + 4, len)
  }

  method ParseHeader(buf: seq<byte>) returns (h: Header)
    ensures h == HeaderOf(buf)
  {
    hide IsLengthLine, LengthValue, Utf8Decode, SplitLines, FindSubslice;
    var end := FindSubslice(buf, BLANK_LINE);
    if end.None? {
      return NeedMore;
    }
    var header := Utf8Decode(buf[..end.value]);
    if header.None? {
      return Malformed(NonUtf8Header);
    }
    var lines := SplitLines(header.value);
    var len: Option<nat> := None;
    for i := 0 to |lines|
      invariant DeclaredLength(lines[..i]) == if len.None? then Nothing else Length(len.value)
    {
      assert lines[..i + 1][..i] == lines[..i];
      if IsLengthLine(lines[i]) {
        len := LengthValue(lines[i]);
        if len.None? {
          InvalidStays(lines, i + 1);
          return Malformed(InvalidLength);
        }
      }
    }
    assert lines[..|lines|] == lines;
    if len.None? {
      return Malformed(MissingLength);
    }
    return Block(end.value + 4, len.value);
  }

  lemma {:induction false} InvalidStays(lines: seq<string>, i: nat)
    requires i <= |lines| && DeclaredLength(lines[..i]) == Invalid
    ensures DeclaredLength(lines) == Invalid
    decreases |lines| - i
  {
    if i == |lines| {
      assert lines[..i] == lines;
    } else {
      assert lines[..i + 1][..i] == lines[..i];
      InvalidStays(lines, i + 1);
    }
  }

  // -- the reader -------------------------------------------------------------

  /** What `next_message` yields when all that is left of the stream is `bytes`, and what is left after it. */
  function NextFrame(bytes: seq<byte>): (Outcome, seq<byte>) {
    match HeaderOf(bytes)
    case Malformed(e) => (Failed(e), bytes)
    case NeedMore => (if bytes == [] then End else Failed(ClosedMidFrame(|bytes|)), bytes)
    case Block(start, len) =>
      if start + len > USIZE_MAX then (Failed(TooLarge), bytes)
      else if |bytes| < start + len then (Failed(ClosedMidFrame(|bytes|)), bytes)
      else (Message(bytes[start..start + len]), bytes[start + len..])
  }

  /** Every message of a byte stream in order, then how the stream ends. */
  function DecodeAll(bytes: seq<byte>): (seq<seq<byte>>, Outcome)
    decreases |bytes|
  {
    var (outcome, rest) := NextFrame(bytes);
    if outcome.Message? then
      var (more, last) := DecodeAll(rest);
      ([outcome.body] + more, last)
    else ([], outcome)
  }

  lemma DecodeMessage(bytes: seq<byte>, body: seq<byte>, rest: seq<byte>)
    requires NextFrame(bytes) == (Message(body), rest)
    ensures DecodeAll(bytes) == ([body] + DecodeAll(rest).0, DecodeAll(rest).1) && |rest| < |bytes|
  {
    hide HeaderOf;
  }

  lemma DecodeStop(bytes: seq<byte>)
    requires !NextFrame(bytes).0.Message?
    ensures DecodeAll(bytes) == ([], NextFrame(bytes).0)
  {
    hide NextFrame;
  }

  lemma NextFromHeader(bytes: seq<byte>)
    ensures match HeaderOf(bytes)
            case Malformed(e) => NextFrame(bytes) == (Failed(e), bytes)
            case NeedMore => NextFrame(bytes) == (if bytes == [] then End else Failed(ClosedMidFrame(|bytes|)), bytes)
            case Block(start, len) =>
              NextFrame(bytes) == if start + len > USIZE_MAX then (Failed(TooLarge), bytes)
                                  else if |bytes| < start + len then (Failed(ClosedMidFrame(|bytes|)), bytes)
                                  else (Message(bytes[start..start + len]), bytes[start + len..])
  {
    hide HeaderOf;
  }

  lemma NextSpelledOut(bytes: seq<byte>)
    ensures NextFrame(bytes).0.End? <==> bytes == []
    ensures !NextFrame(bytes).0.Cancelled?
    ensures var (r, left) := NextFrame(bytes);
            match HeaderOf(bytes)
            case Malformed(e) => r == Failed(e)
            case NeedMore => bytes == [] || r == Failed(ClosedMidFrame(|bytes|))
            case Block(start, len) =>
              if start + len > 0xFFFF_FFFF_FFFF_FFFF then r == Failed(TooLarge)
              else if |bytes| < start + len then r == Failed(ClosedMidFrame(|bytes|))
              else r.Message? && bytes == bytes[..start] + r.body + left && |r.body| == len
  {
    if bytes == [] {
      assert HeaderOf(bytes) == NeedMore;
    }
    hide HeaderOf;
  }

  lemma BodyInside(buf: seq<byte>, more: seq<byte>, start: nat, total: nat)
    requires start <= total <= |buf|
    ensures (buf + more)[start..total] == buf[start..total] && (buf + more)[total..] == buf[total..] + more
  {}

  lemma NoneLeft(buf: seq<byte>)
    ensures buf + Flatten([]) == buf
  {}

  lemma OneRead(buf: seq<byte>, inner: seq<seq<byte>>)
    requires inner != []
    ensures buf + Flatten(inner) == (buf + inner[0]) + Flatten(inner[1..])
  {
    assert buf + (inner[0] + Flatten(inner[1..])) == (buf + inner[0]) + Flatten(inner[1..]);
  }

  class DapReader {
    /** The results of the reads still to come; an exhausted stream reads zero bytes. */
    var inner: seq<seq<byte>>
    var buf: seq<byte>

    ghost predicate Valid()
      reads this
    {
      forall k :: 0 <= k < |inner| ==> inner[k] != []
    }

    /** Every byte not yet delivered in a message. */
    function Remaining(): seq<byte>
      reads this
    {
      buf + Flatten(inner)
    }

    constructor (chunks: seq<seq<byte>>)
      requires forall k :: 0 <= k < |chunks| ==> chunks[k] != []
      ensures Valid() && Remaining() == Flatten(chunks)
    {
      inner := chunks;
      buf := [];
    }

    /** One call; the caller drops the future after `patience` completed reads. */
    method NextMessage(patience: nat) returns (r: Outcome)
      requires Valid()
      modifies this
      ensures Valid()
      ensures r.Cancelled? ==> Remaining() == old(Remaining())
      ensures !r.Cancelled? ==> (r, Remaining()) == NextFrame(old(Remaining()))
      ensures patience > |old(inner)| ==> !r.Cancelled?
      ensures !r.Cancelled? ==> (r.End? <==> old(Remaining()) == [])
      ensures !r.Cancelled? ==>
                var bytes := old(Remaining());
                match HeaderOf(bytes)
                case Malformed(e) => r == Failed(e)
                case NeedMore => bytes == [] || r == Failed(ClosedMidFrame(|bytes|))
                case Block(start, len) =>
                  if start + len > 0xFFFF_FFFF_FFFF_FFFF then r == Failed(TooLarge)
                  else if |bytes| < start + len then r == Failed(ClosedMidFrame(|bytes|))
                  else r.Message? && bytes == bytes[..start] + r.body + Remaining() && |r.body| == len
    {
      hide HeaderOf, Flatten, NextFrame;
      NextSpelledOut(Remaining());
      var done := 0;
      while true
        invariant Valid() && Remaining() == old(Remaining())
        invariant done + |inner| == |old(inner)|
        decreases |inner|
      {
        var header := ParseHeader(buf);
        HeaderStable(buf, Flatten(inner));
        NextFromHeader(Remaining());
        if header.Malformed? {
          return Failed(header.error);
        }
        if header.Block? {
          if header.bodyStart + header.bodyLen > USIZE_MAX {
            return Failed(TooLarge);
          }
          var total := header.bodyStart + header.bodyLen;
          if |buf| >= total {
            var body := buf[header.bodyStart..total];
            BodyInside(buf, Flatten(inner), header.bodyStart, total);
            buf := buf[total..];
            return Message(body);
          }
        }
        if done == patience {
          return Cancelled;
        }
        if inner == [] {
          NoneLeft(buf);
          return if buf == [] then End else Failed(ClosedMidFrame(|buf|));
        }
        OneRead(buf, inner);
        buf := buf + inner[0];
        inner := inner[1..];
        done := done + 1;
      }
    }

    /** The child-reader task: every message until the stream ends or fails. */
    method ReadAll() returns (messages: seq<seq<byte>>, last: Outcome)
      requires Valid()
      modifies this
      ensures (messages, last) == DecodeAll(old(Remaining()))
    {
      hide NextFrame, DecodeAll, Flatten;
      messages := [];
      assert [] + DecodeAll(Remaining()).0 == DecodeAll(Remaining()).0;
      while true
        invariant Valid()
        invariant DecodeAll(old(Remaining())) ==
                  (messages + DecodeAll(Remaining()).0, DecodeAll(Remaining()).1)
        decreases |Remaining()|
      {
        ghost var before := Remaining();
        last := NextMessage(|inner| + 1);
        if !last.Message? {
          DecodeStop(before);
          assert messages + [] == messages;
          return;
        }
        DecodeMessage(before, last.body, Remaining());
        assert messages + DecodeAll(before).0 == messages + [last.body] + DecodeAll(Remaining()).0;
        messages := messages + [last.body];
      }
    }
  }

  // -- interrupted reading ----------------------------------------------------

  lemma Reassociate<T>(a: seq<T>, b: seq<T>, c: seq<T>)
    ensures (a + b) + c == a + (b + c)
  {}

  /** The messages read so far and what is still to come make up the whole. */
  lemma DecodeOnwards(messages: seq<seq<byte>>, bytes: seq<byte>, body: seq<byte>, rest: seq<byte>)
    requires NextFrame(bytes) == (Message(body), rest)
    ensures messages + DecodeAll(bytes).0 == (messages + [body]) + DecodeAll(rest).0
    ensures DecodeAll(bytes).1 == DecodeAll(rest).1
  {
    hide NextFrame, DecodeAll;
    DecodeMessage(bytes, body, rest);
    Reassociate(messages, [body], DecodeAll(rest).0);
  }

  /** The client's side of the routing loop: each call has its own patience, after which another event cancels it.
      Over any number of calls, whatever is cancelled, the messages delivered are the first ones of the stream and
      exactly the others are still to come; once the stream has ended, all have been delivered. */
  method ReadInterrupted(reader: DapReader, patiences: seq<nat>)
    returns (messages: seq<seq<byte>>, ended: Option<Outcome>)
    requires reader.Valid()
    modifies reader
    ensures reader.Valid() && (ended.Some? ==> !ended.value.Message? && !ended.value.Cancelled?)
    ensures var (all, last) := DecodeAll(old(reader.Remaining()));
            if ended.Some? then messages == all && ended.value == last
            else (all, last) == (messages + DecodeAll(reader.Remaining()).0, DecodeAll(reader.Remaining()).1)
  {
    hide NextFrame, DecodeAll, Flatten;
    messages, ended := [], None;
    assert [] + DecodeAll(reader.Remaining()).0 == DecodeAll(reader.Remaining()).0;
    for i := 0 to |patiences|
      invariant reader.Valid()
      invariant DecodeAll(old(reader.Remaining()))
             == (messages + DecodeAll(reader.Remaining()).0, DecodeAll(reader.Remaining()).1)
    {
      ghost var before := reader.Remaining();
      var r := reader.NextMessage(patiences[i]);
      if r.Message? {
        DecodeOnwards(messages, before, r.body, reader.Remaining());
        messages := messages + [r.body];
      } else if !r.Cancelled? {
        DecodeStop(before);
        assert messages + [] == messages;
        return messages, Some(r);
      }
    }
  }

  // -- stability under more bytes ---------------------------------------------

  lemma {:induction false} FindSubsliceStable(a: seq<byte>, b: seq<byte>, needle: seq<byte>)
    requires needle != [] && FindSubslice(a, needle).Some?
    ensures FindSubslice(a + b, needle) == FindSubslice(a, needle)
  {
    assert (a + b)[..|needle|] == a[..|needle|];
    if a[..|needle|] != needle {
      assert (a + b)[1..] == a[1..] + b;
      FindSubsliceStable(a[1..], b, needle);
    }
  }

  /** Once a header block is complete, well formed or not, further bytes do not change the answer. */
  lemma HeaderStable(a: seq<byte>, b: seq<byte>)
    ensures !HeaderOf(a).NeedMore? ==> HeaderOf(a + b) == HeaderOf(a)
  {
    var end := FindSubslice(a, BLANK_LINE);
    if end.Some? {
      FindSubsliceStable(a, b, BLANK_LINE);
      assert (a + b)[..end.value] == a[..end.value];
    }
  }

  // -- writing ----------------------------------------------------------------

  const LENGTH_HEADER := "Content-Length"

  function HeaderText(n: nat): (s: string)
    ensures IsAscii(s)
  {
    LENGTH_HEADER + (":" + (" " + Decimal(n)))
  }

  /** `frame`: the header block followed by the body. */
  function Frame(body: seq<byte>): (bytes: seq<byte>)
    ensures IsAscii("Content-Length: " + Decimal(|body|) + "\r\n\r\n")
    ensures bytes == Ascii("Content-Length: " + Decimal(|body|) + "\r\n\r\n") + body
  {
    assert HeaderText(|body|) + "\r\n\r\n" == "Content-Length: " + Decimal(|body|) + "\r\n\r\n";
    assert Ascii("\r\n\r\n") == BLANK_LINE;
    assert Ascii(HeaderText(|body|) + "\r\n\r\n") == Ascii(HeaderText(|body|)) + Ascii("\r\n\r\n");
    Ascii(HeaderText(|body|)) + BLANK_LINE + body
  }

  function Frames(bodies: seq<seq<byte>>): seq<byte> {
    if bodies == [] then [] else Frame(bodies[0]) + Frames(bodies[1..])
  }

  lemma {:induction false} SplitLinesWithoutCr(s: string)
    requires forall k :: 0 <= k < |s| ==> s[k] != '\r'
    ensures SplitLines(s) == [s]
  {
    if |s| >= 2 {
      SplitLinesWithoutCr(s[1..]);
      assert s[..2][0] == s[0];
      assert [s[0]] + s[1..] == s;
    }
  }

  lemma {:induction false} SplitColonAt(name: string, value: string)
    requires forall k :: 0 <= k < |name| ==> name[k] != ':'
    ensures SplitColon(name + ":" + value) == Some((name, value))
  {
    var line := name + ":" + value;
    if name == "" {
      assert line[1..] == value;
    } else {
      assert line[1..] == name[1..] + ":" + value;
      SplitColonAt(name[1..], value);
      assert [name[0]] + name[1..] == name;
    }
  }

  /** The name of the header, trimmed and lower-cased. */
  lemma LengthNamed()
    ensures LowerAscii(Trim(LENGTH_HEADER)) == LENGTH_NAME
    ensures forall k :: 0 <= k < |LENGTH_HEADER| ==> LENGTH_HEADER[k] != ':'
  {
    assert LENGTH_HEADER[|LENGTH_HEADER| - 1] == 'h';
    TrimStartFixed(LENGTH_HEADER);
    TrimEndFixed(LENGTH_HEADER);
    assert LowerAscii(LENGTH_HEADER) == LENGTH_NAME;
  }

  /** A line made of the header's name and a value declares that value. */
  lemma LineDeclares(name: string, value: string)
    requires LowerAscii(Trim(name)) == LENGTH_NAME && forall k :: 0 <= k < |name| ==> name[k] != ':'
    ensures var line := name + (":" + value);
            IsLengthLine(line) && LengthValue(line) == ParseUnsigned(Trim(value), USIZE_MAX)
  {
    hide Trim, LowerAscii, SplitColon, ParseUnsigned;
    assert name + (":" + value) == name + ":" + value;
    SplitColonAt(name, value);
  }

  lemma OneLineDeclares(line: string)
    requires IsLengthLine(line) && LengthValue(line).Some?
    ensures DeclaredLength([line]) == Length(LengthValue(line).value)
  {
    hide IsLengthLine, LengthValue;
    assert [line][..0] == [];
  }

  lemma PaddedDecimal(n: nat)
    ensures Trim(" " + Decimal(n)) == Decimal(n)
  {
    var value := " " + Decimal(n);
    assert value[1..] == Decimal(n);
    TrimStartFixed(Decimal(n));
    TrimEndFixed(Decimal(n));
  }

  lemma HeaderTextDeclares(n: nat)
    requires n <= USIZE_MAX
    ensures DeclaredLength(SplitLines(HeaderText(n))) == Length(n)
  {
    hide Trim, LowerAscii, SplitLines, ParseUnsigned, IsLengthLine, LengthValue, DeclaredLength, Decimal;
    HeaderPlain(n);
    SplitLinesWithoutCr(HeaderText(n));
    LengthNamed();
    PaddedDecimal(n);
    ParseDecimal(n, USIZE_MAX);
    LineDeclares(LENGTH_HEADER, " " + Decimal(n));
    OneLineDeclares(HeaderText(n));
  }

  lemma HeaderPlain(n: nat)
    ensures forall k :: 0 <= k < |HeaderText(n)| ==> HeaderText(n)[k] != '\r'
  {}

  lemma FindBlankLineAfter(header: seq<byte>, rest: seq<byte>)
    requires forall k :: 0 <= k < |header| ==> header[k] != 13
    ensures FindSubslice(header + BLANK_LINE + rest, BLANK_LINE) == Some(|header|)
  {
    var all := header + BLANK_LINE + rest;
    var r := FindSubslice(all, BLANK_LINE);
    assert WindowAt(all, BLANK_LINE, |header|);
    FindSubsliceFirst(all, BLANK_LINE, |header|);
    assert all[r.value] == all[r.value..r.value + 4][0];
  }

  // -- any header block, written out -------------------------------------------

  /** Header lines joined by CRLF. */
  function Joined(lines: seq<string>): string
    requires lines != []
  {
    if |lines| == 1 then lines[0] else lines[0] + "\r\n" + Joined(lines[1..])
  }

  /** `content-length` in whatever letter case. */
  predicate NamesLength(t: string) {
    |t| == 14 && forall k :: 0 <= k < 14 ==> t[k] == "content-length"[k] || t[k] == "CONTENT-LENGTH"[k]
  }

  /** A line that gives the length: its name, with any blanks around, a colon, and `value`. */
  ghost predicate LengthField(line: string, value: string) {
    exists a, t, b :: line == a + t + b + ":" + value && AllWhite(a) && AllWhite(b) && NamesLength(t)
  }

  lemma LowerNames(t: string)
    ensures LowerAscii(t) == LENGTH_NAME <==> NamesLength(t)
  {
    var lower, upper := "content-length", "CONTENT-LENGTH";
    var s := LowerAscii(t);
    assert forall k :: 0 <= k < 14 ==>
        (lower[k] == upper[k] == '-') || ('a' <= lower[k] <= 'z' && upper[k] as int + 32 == lower[k] as int);
    assert |t| == 14 ==> forall k :: 0 <= k < 14 ==> (s[k] == lower[k] <==> t[k] == lower[k] || t[k] == upper[k]);
    if NamesLength(t) {
      assert s == lower;
    }
    if s == lower {
      assert forall k :: 0 <= k < 14 ==> s[k] == lower[k];
    }
  }

  lemma NoColons(a: string, t: string, b: string)
    requires AllWhite(a) && AllWhite(b) && NamesLength(t)
    ensures forall k :: 0 <= k < |a + t + b| ==> (a + t + b)[k] != ':'
  {
    var name := a + t + b;
    forall k | 0 <= k < |name| ensures name[k] != ':' {
      if k < |a| {
        assert IsWhite(a[k]);
      } else if k >= |a| + 14 {
        assert IsWhite(b[k - |a| - 14]);
      } else {
        assert name[k] == t[k - |a|];
      }
    }
  }

  lemma LengthFieldLine(line: string, value: string)
    requires LengthField(line, value)
    ensures IsLengthLine(line) && LengthValue(line) == ParseUnsigned(Trim(value), 0xFFFF_FFFF_FFFF_FFFF)
  {
    var a, t, b :| line == a + t + b + ":" + value && AllWhite(a) && AllWhite(b) && NamesLength(t);
    NoColons(a, t, b);
    SplitColonAt(a + t + b, value);
    TrimAroundAny(a, t, b);
    LowerNames(t);
    hide Trim, AllWhite, LowerAscii, SplitColon, NamesLength, ParseUnsigned;
  }

  lemma LengthLineField(line: string)
    requires IsLengthLine(line)
    ensures LengthField(line, SplitColon(line).value.1)
  {
    var (name, value) := SplitColon(line).value;
    SplitColonJoins(line);
    var a, b := TrimSplit(name);
    LowerNames(Trim(name));
    hide Trim, AllWhite, LowerAscii, SplitColon, NamesLength;
    assert line == a + Trim(name) + b + ":" + value;
  }

  lemma {:induction false} SplitColonJoins(line: string)
    requires SplitColon(line).Some?
    ensures var (name, value) := SplitColon(line).value; line == name + ":" + value
  {
    if line[0] != ':' {
      SplitColonJoins(line[1..]);
    }
  }

  lemma {:induction false} SplitLinesJoined(lines: seq<string>)
    requires lines != [] && forall i, k :: 0 <= i < |lines| && 0 <= k < |lines[i]| ==> lines[i][k] != '\r'
    ensures SplitLines(Joined(lines)) == lines
  {
    if |lines| == 1 {
      SplitLinesWithoutCr(lines[0]);
    } else {
      SplitLinesJoined(lines[1..]);
      SplitFirst(lines[0], Joined(lines[1..]));
    }
  }

  lemma {:induction false} SplitFirst(line: string, rest: string)
    requires forall k :: 0 <= k < |line| ==> line[k] != '\r'
    ensures SplitLines(line + "\r\n" + rest) == [line] + SplitLines(rest)
  {
    var s := line + "\r\n" + rest;
    if line == "" {
      assert s[..2] == "\r\n" && s[2..] == rest;
    } else {
      SplitFirst(line[1..], rest);
      assert s[1..] == line[1..] + "\r\n" + rest;
      assert s[..2][0] == line[0];
      assert [line[0]] + line[1..] == line;
    }
  }

  lemma {:induction false} JoinedAscii(lines: seq<string>)
    requires lines != [] && forall i :: 0 <= i < |lines| ==> IsAscii(lines[i])
    ensures IsAscii(Joined(lines))
  {
    if |lines| > 1 {
      JoinedAscii(lines[1..]);
      AsciiLines(lines[0], Joined(lines[1..]));
      hide IsAscii;
    }
  }

  lemma FindStep(haystack: seq<byte>, needle: seq<byte>)
    requires haystack != [] && needle != [] && !WindowAt(haystack, needle, 0)
    ensures FindSubslice(haystack, needle)
         == match FindSubslice(haystack[1..], needle) case None => None case Some(k) => Some(k + 1)
  {}

  /** Where the separator does not start it is looked for one further on. */
  lemma FindLater(c: byte, s: seq<byte>)
    requires c != 13 || (|s| >= 2 && s[1] != 13)
    ensures FindSubslice([c] + s, BLANK_LINE)
         == match FindSubslice(s, BLANK_LINE) case None => None case Some(k) => Some(k + 1)
  {
    hide FindSubslice;
    var all := [c] + s;
    assert all[1..] == s;
    assert |all| >= 4 ==> all[0..4][0] == c && all[0..4][2] == s[1];
    FindStep(all, BLANK_LINE);
  }

  lemma {:induction false} FindSkips(prefix: seq<byte>, tail: seq<byte>)
    requires forall k :: 0 <= k < |prefix| ==> prefix[k] != 13
    ensures FindSubslice(prefix + tail, BLANK_LINE)
         == match FindSubslice(tail, BLANK_LINE) case None => None case Some(k) => Some(|prefix| + k)
  {
    hide FindSubslice;
    if prefix == [] {
      assert prefix + tail == tail;
    } else {
      FindSkips(prefix[1..], tail);
      FindLater(prefix[0], prefix[1..] + tail);
      assert prefix + tail == [prefix[0]] + (prefix[1..] + tail);
    }
  }

  lemma FindSkipsCrlf(tail: seq<byte>)
    requires tail != [] && tail[0] != 13
    ensures FindSubslice([13, 10] + tail, BLANK_LINE)
         == match FindSubslice(tail, BLANK_LINE) case None => None case Some(k) => Some(2 + k)
  {
    hide FindSubslice;
    FindLater(10, tail);
    FindLater(13, [10] + tail);
    assert [13, 10] + tail == [13] + ([10] + tail);
  }

  /** Lines that are not empty hold no blank line. */
  lemma {:induction false} FindAfterLines(lines: seq<string>, rest: seq<byte>)
    requires lines != [] && forall i :: 0 <= i < |lines| ==> IsAscii(lines[i])
    requires forall i :: 0 <= i < |lines| ==> lines[i] != "" && forall k :: 0 <= k < |lines[i]| ==> lines[i][k] != '\r'
    ensures IsAscii(Joined(lines))
    ensures FindSubslice(Ascii(Joined(lines)) + BLANK_LINE + rest, BLANK_LINE) == Some(|Joined(lines)|)
  {
    JoinedAscii(lines);
    if |lines| == 1 {
      FindBlankLineAfter(Ascii(lines[0]), rest);
    } else {
      var more := lines[1..];
      FindAfterLines(more, rest);
      assert Joined(more)[0] == more[0][0];
      FindAfterOne(lines[0], Joined(more), rest);
      hide FindSubslice;
    }
  }

  lemma FindAfterOne(line: string, more: string, rest: seq<byte>)
    requires IsAscii(line) && IsAscii(more) && forall k :: 0 <= k < |line| ==> line[k] != '\r'
    requires more != "" && more[0] != '\r'
    requires FindSubslice(Ascii(more) + BLANK_LINE + rest, BLANK_LINE) == Some(|more|)
    ensures IsAscii(line + "\r\n" + more)
    ensures FindSubslice(Ascii(line + "\r\n" + more) + BLANK_LINE + rest, BLANK_LINE) == Some(|line + "\r\n" + more|)
  {
    hide FindSubslice;
    var tail := Ascii(more) + BLANK_LINE + rest;
    assert tail[0] == more[0] as int;
    assert forall k :: 0 <= k < |line| ==> Ascii(line)[k] != 13;
    AsciiLines(line, more);
    hide Ascii, IsAscii;
    FindSkipsCrlf(tail);
    FindSkips(Ascii(line), [13, 10] + tail);
    Reassociated(Ascii(line), [13, 10], Ascii(more), BLANK_LINE, rest);
  }

  lemma AsciiLines(line: string, more: string)
    requires IsAscii(line) && IsAscii(more)
    ensures IsAscii(line + "\r\n" + more)
    ensures Ascii(line + "\r\n" + more) == Ascii(line) + [13, 10] + Ascii(more)
  {}

  lemma Reassociated<T>(a: seq<T>, b: seq<T>, c: seq<T>, d: seq<T>, e: seq<T>)
    ensures a + b + c + d + e == a + (b + (c + d + e))
  {}

  lemma {:induction false} DeclaredIs(lines: seq<string>)
    ensures DeclaredLength(lines) == Invalid
       <==> exists i :: 0 <= i < |lines| && IsLengthLine(lines[i]) && LengthValue(lines[i]).None?
    ensures DeclaredLength(lines) == Nothing <==> forall i :: 0 <= i < |lines| ==> !IsLengthLine(lines[i])
    ensures DeclaredLength(lines).Length? ==>
              exists i :: 0 <= i < |lines| && IsLengthLine(lines[i])
                          && LengthValue(lines[i]) == Some(DeclaredLength(lines).len)
                          && forall j :: i < j < |lines| ==> !IsLengthLine(lines[j])
  {
    hide IsLengthLine, LengthValue;
    if lines != [] {
      var n := |lines| - 1;
      DeclaredIs(lines[..n]);
      assert forall i :: 0 <= i < n ==> lines[..n][i] == lines[i];
    }
  }

  /** A length line is a length field, with the value behind its first colon. */
  lemma FieldOrNot(line: string)
    ensures IsLengthLine(line) <==> exists v :: LengthField(line, v)
    ensures forall v :: LengthField(line, v) ==>
              IsLengthLine(line) && LengthValue(line) == ParseUnsigned(Trim(v), 0xFFFF_FFFF_FFFF_FFFF)
  {
    if IsLengthLine(line) {
      LengthLineField(line);
    }
    forall v | LengthField(line, v)
      ensures IsLengthLine(line) && LengthValue(line) == ParseUnsigned(Trim(v), 0xFFFF_FFFF_FFFF_FFFF)
    {
      LengthFieldLine(line, v);
    }
  }

  /** What the length fields among some lines come to. */
  ghost predicate Fields(lines: seq<string>, d: Declared) {
    if d.Nothing? then forall i, v :: 0 <= i < |lines| ==> !LengthField(lines[i], v)
    else if d.Invalid? then
      exists i, v :: 0 <= i < |lines| && LengthField(lines[i], v) && ParseUnsigned(Trim(v), 0xFFFF_FFFF_FFFF_FFFF).None?
    else
      (forall i, v :: 0 <= i < |lines| && LengthField(lines[i], v) ==>
         ParseUnsigned(Trim(v), 0xFFFF_FFFF_FFFF_FFFF).Some?)
      && exists i, v :: 0 <= i < |lines| && LengthField(lines[i], v)
                        && ParseUnsigned(Trim(v), 0xFFFF_FFFF_FFFF_FFFF) == Some(d.len)
                        && forall j, w :: i < j < |lines| ==> !LengthField(lines[j], w)
  }

  lemma DeclaredFields(lines: seq<string>)
    ensures Fields(lines, DeclaredLength(lines))
  {
    DeclaredIs(lines);
    hide IsLengthLine, LengthValue, LengthField, Trim, ParseUnsigned, DeclaredLength;
    forall i | 0 <= i < |lines|
      ensures IsLengthLine(lines[i]) <==> exists v :: LengthField(lines[i], v)
      ensures forall v :: LengthField(lines[i], v) ==>
                IsLengthLine(lines[i]) && LengthValue(lines[i]) == ParseUnsigned(Trim(v), 0xFFFF_FFFF_FFFF_FFFF)
    {
      FieldOrNot(lines[i]);
    }
  }

  /** Any header block of non-empty ASCII lines: without a length field it is malformed, with one that does not read as
      a 64-bit number it is malformed, and otherwise the last one gives the length; no other line has a say. */
  lemma HeaderSpelledOut(lines: seq<string>, rest: seq<byte>)
    requires lines != [] && forall i :: 0 <= i < |lines| ==> IsAscii(lines[i])
    requires forall i :: 0 <= i < |lines| ==> lines[i] != "" && forall k :: 0 <= k < |lines[i]| ==> lines[i][k] != '\r'
    ensures IsAscii(Joined(lines))
    ensures var h := HeaderOf(Ascii(Joined(lines)) + [13, 10, 13, 10] + rest);
            if h.Block? then h.bodyStart == |Joined(lines)| + 4 && Fields(lines, Length(h.bodyLen))
            else (h == Malformed(MissingLength) && Fields(lines, Nothing))
                 || (h == Malformed(InvalidLength) && Fields(lines, Invalid))
  {
    FindAfterLines(lines, rest);
    SplitLinesJoined(lines);
    Utf8DecodeAscii(Joined(lines));
    DeclaredFields(lines);
    hide SplitLines, Utf8Decode, FindSubslice, DeclaredLength, Joined, Fields, Ascii, IsAscii;
    var text := Ascii(Joined(lines));
    assert (text + BLANK_LINE + rest)[..|text|] == text;
  }

  /** A header block is rejected as text exactly when it is no string's UTF-8. */
  lemma HeaderNotText(header: seq<byte>, rest: seq<byte>)
    requires FindSubslice(header + BLANK_LINE + rest, BLANK_LINE) == Some(|header|)
    ensures HeaderOf(header + [13, 10, 13, 10] + rest) == Malformed(NonUtf8Header)
       <==> forall s :: Utf8Encode(s) != header
  {
    assert (header + BLANK_LINE + rest)[..|header|] == header;
    Utf8Only(header);
    forall s | Utf8Encode(s) == header ensures Utf8Decode(header).Some? {
      Utf8RoundTrip(s);
    }
    hide FindSubslice, Utf8Decode, Utf8Encode, DeclaredLength, SplitLines;
  }

  lemma HeaderOfFrame(body: seq<byte>, rest: seq<byte>)
    requires |body| <= USIZE_MAX
    ensures HeaderOf(Frame(body) + rest) == Block(|Frame(body)| - |body|, |body|)
  {
    var text := HeaderText(|body|);
    var header := Ascii(text);
    var all := Frame(body) + rest;
    assert all == header + BLANK_LINE + (body + rest);
    FindBlankLineAfter(header, body + rest);
    assert all[..|header|] == header;
    Utf8DecodeAscii(text);
    HeaderTextDeclares(|body|);
    assert |Frame(body)| == |header| + 4 + |body|;
    hide FindSubslice, DeclaredLength, SplitLines, Utf8Decode, HeaderText, Frame, Ascii;
  }

  lemma BodyOfFrame(body: seq<byte>, rest: seq<byte>)
    ensures var start := |Frame(body)| - |body|;
            start >= 0 && (Frame(body) + rest)[start..|Frame(body)|] == body && (Frame(body) + rest)[|Frame(body)|..] == rest
  {}

  /** A frame at the head of any stream is read back exactly. */
  lemma FrameRoundTrip(body: seq<byte>, rest: seq<byte>)
    requires |Frame(body)| <= USIZE_MAX
    ensures NextFrame(Frame(body) + rest) == (Message(body), rest)
  {
    hide HeaderOf, Frame;
    HeaderOfFrame(body, rest);
    BodyOfFrame(body, rest);
  }

  /** The codec round trip: concatenated frames decode to the bodies in order, then a clean end. */
  lemma {:induction false} FramesRoundTrip(bodies: seq<seq<byte>>)
    requires forall k :: 0 <= k < |bodies| ==> |Frame(bodies[k])| <= USIZE_MAX
    ensures DecodeAll(Frames(bodies)) == (bodies, End)
  {
    if bodies != [] {
      FrameRoundTrip(bodies[0], Frames(bodies[1..]));
      FramesRoundTrip(bodies[1..]);
      assert [bodies[0]] + bodies[1..] == bodies;
    }
  }

  /** A frame cut short anywhere is reported as such, and nothing of it is delivered. */
  lemma CutFrame(body: seq<byte>, n: nat)
    requires 0 < n < |Frame(body)| <= USIZE_MAX
    ensures NextFrame(Frame(body)[..n]) == (Failed(ClosedMidFrame(n)), Frame(body)[..n])
  {
    hide HeaderOf, NextFrame, Frame;
    var all, cut := Frame(body), Frame(body)[..n];
    assert cut + all[n..] == all && all + [] == all;
    HeaderStable(cut, all[n..]);
    FrameRoundTrip(body, []);
    NextFromHeader(all);
    NextFromHeader(cut);
  }

  /** A stream that breaks off inside a frame: the bodies before it, then the error. */
  lemma {:induction false} CutStream(bodies: seq<seq<byte>>, body: seq<byte>, n: nat)
    requires forall k :: 0 <= k < |bodies| ==> |Frame(bodies[k])| <= USIZE_MAX
    requires 0 < n < |Frame(body)| <= USIZE_MAX
    ensures DecodeAll(Frames(bodies) + Frame(body)[..n]) == (bodies, Failed(ClosedMidFrame(n)))
  {
    var cut := Frame(body)[..n];
    hide NextFrame, Frame, DecodeAll;
    if bodies == [] {
      assert Frames(bodies) + cut == cut;
      CutFrame(body, n);
      DecodeStop(cut);
    } else {
      var rest := Frames(bodies[1..]) + cut;
      Reassociate(Frame(bodies[0]), Frames(bodies[1..]), cut);
      FrameRoundTrip(bodies[0], rest);
      CutStream(bodies[1..], body, n);
      DecodeMessage(Frame(bodies[0]) + rest, bodies[0], rest);
      assert [bodies[0]] + bodies[1..] == bodies;
    }
  }

  /** The task that drains the child's output, from a fresh reader: however the stream was cut into reads, what comes
      out depends on its bytes alone; if they are frames, it is exactly their bodies and then a clean end. */
  method DrainStream(chunks: seq<seq<byte>>, ghost bodies: seq<seq<byte>>)
    returns (messages: seq<seq<byte>>, last: Outcome)
    requires forall k :: 0 <= k < |chunks| ==> chunks[k] != []
    requires forall k :: 0 <= k < |bodies| ==> |Frame(bodies[k])| <= USIZE_MAX
    ensures (messages, last) == DecodeAll(Flatten(chunks))
    ensures Flatten(chunks) == Frames(bodies) ==> messages == bodies && last == End
  {
    hide NextFrame, Frame, Frames, DecodeAll;
    var reader := new DapReader(chunks);
    messages, last := reader.ReadAll();
    FramesRoundTrip(bodies);
  }
}
