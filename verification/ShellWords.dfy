/** Splitting a logged command line into words (engine/xcactivitylog.rs). */
module ShellWords {
  import opened Text

  const BACKSLASH := '\\'
  const QUOTE := '\''
  const DOUBLE_QUOTE := '"'

  /** What was read, and what is left. */
  datatype Part = Part(text: string, rest: string)

  function Before(text: string, p: Part): Part {
    Part(text + p.text, p.rest)
  }

  /** Inside single quotes, up to and with the closing one. */
  function Single(s: string): (p: Part)
    ensures |p.rest| <= |s|
  {
    if s == "" then Part("", "")
    else if s[0] == QUOTE then Part("", s[1..])
    else Before([s[0]], Single(s[1..]))
  }

  predicate EscapedQuote(s: string) {
    |s| >= 2 && s[0] == BACKSLASH && s[1] == DOUBLE_QUOTE
  }

  /** Inside double quotes: an escaped quote stays as it is written, the first bare one closes. */
  function Double(s: string): (p: Part)
    ensures |p.rest| <= |s|
  {
    if s == "" then Part("", "")
    else if EscapedQuote(s) then Before(s[..2], Double(s[2..]))
    else if s[0] == DOUBLE_QUOTE then Part("", s[1..])
    else Before([s[0]], Double(s[1..]))
  }

  /** One word, up to whitespace that is neither escaped nor quoted. */
  function Word(s: string): (p: Part)
    ensures |p.rest| <= |s|
    ensures s != "" && !IsWhite(s[0]) ==> |p.rest| < |s|
    decreases |s|
  {
    if s == "" || IsWhite(s[0]) then Part("", s)
    else if s[0] == BACKSLASH then
      if |s| == 1 then Part([BACKSLASH], "")
      else Before(if s[1] == ' ' then " " else s[..2], Word(s[2..]))
    else if s[0] == QUOTE then
      var q := Single(s[1..]);
      Before(q.text, Word(q.rest))
    else if s[0] == DOUBLE_QUOTE then
      var q := Double(s[1..]);
      Before(q.text, Word(q.rest))
    else Before([s[0]], Word(s[1..]))
  }

  function SkipBlank(s: string): (r: string)
    ensures |r| <= |s| && (r != "" ==> !IsWhite(r[0]))
  {
    if s != "" && IsWhite(s[0]) then SkipBlank(s[1..]) else s
  }

  function Words(s: string): seq<string>
    decreases |s|
  {
    var t := SkipBlank(s);
    if t == "" then [] else [Word(t).text] + Words(Word(t).rest)
  }

  // -- the loops of the source ------------------------------------------------

  lemma BeforeBefore(a: string, b: string, p: Part)
    ensures Before(a, Before(b, p)) == Before(a + b, p)
  {
    assert a + (b + p.text) == (a + b) + p.text;
  }

  lemma DoubleAt(s: string, i: nat)
    requires i < |s|
    ensures Double(s[i..])
         == if i + 1 < |s| && s[i] == BACKSLASH && s[i + 1] == DOUBLE_QUOTE
            then Before([BACKSLASH, DOUBLE_QUOTE], Double(s[i + 2..]))
            else if s[i] == DOUBLE_QUOTE then Part("", s[i + 1..])
            else Before([s[i]], Double(s[i + 1..]))
  {
    var t := s[i..];
    assert t[1..] == s[i + 1..];
    if i + 1 < |s| {
      assert t[2..] == s[i + 2..] && t[..2] == [s[i], s[i + 1]];
    }
    hide Before;
  }

  lemma WordAt(s: string, i: nat)
    requires i < |s| && !IsWhite(s[i])
    ensures Word(s[i..])
         == if s[i] == BACKSLASH then
              if i + 1 < |s| then
                Before(if s[i + 1] == ' ' then " " else [BACKSLASH, s[i + 1]], Word(s[i + 2..]))
              else Part([BACKSLASH], "")
            else if s[i] == QUOTE then Before(Single(s[i + 1..]).text, Word(Single(s[i + 1..]).rest))
            else if s[i] == DOUBLE_QUOTE then Before(Double(s[i + 1..]).text, Word(Double(s[i + 1..]).rest))
            else Before([s[i]], Word(s[i + 1..]))
  {
    hide Before, Single, Double, IsWhite;
    var t := s[i..];
    assert t[1..] == s[i + 1..];
    if i + 1 < |s| {
      assert t[2..] == s[i + 2..] && t[..2] == [s[i], s[i + 1]];
    }
  }

  lemma AtEnd(s: string)
    ensures Word(s[|s|..]) == Part("", s[|s|..]) && Double(s[|s|..]) == Part("", s[|s|..])
    ensures Single(s[|s|..]) == Part("", s[|s|..])
  {}

  lemma WordStops(s: string, i: nat)
    requires i < |s| && IsWhite(s[i])
    ensures Word(s[i..]) == Part("", s[i..])
  {}

  lemma SingleAt(s: string, i: nat)
    requires i < |s|
    ensures Single(s[i..]) == if s[i] == QUOTE then Part("", s[i + 1..]) else Before([s[i]], Single(s[i + 1..]))
  {
    assert s[i..][1..] == s[i + 1..];
    hide Before;
  }

  method ReadSingle(s: string, from_: nat) returns (text: string, i: nat)
    requires from_ <= |s|
    ensures from_ <= i <= |s| && Single(s[from_..]) == Part(text, s[i..])
  {
    hide Single, Before;
    i, text := from_, "";
    BeforeNothing(Single(s[from_..]));
    while i < |s| && s[i] != QUOTE
      invariant from_ <= i <= |s|
      invariant Single(s[from_..]) == Before(text, Single(s[i..]))
    {
      SingleAt(s, i);
      BeforeBefore(text, [s[i]], Single(s[i + 1..]));
      text := text + [s[i]];
      i := i + 1;
    }
    if i < |s| {
      SingleAt(s, i);
      i := i + 1;
    } else {
      AtEnd(s);
    }
    BeforeEmpty(text, s[i..]);
  }

  method ReadDouble(s: string, from_: nat) returns (text: string, i: nat)
    requires from_ <= |s|
    ensures from_ <= i <= |s| && Double(s[from_..]) == Part(text, s[i..])
  {
    hide Double;
    i, text := from_, "";
    while i < |s|
      invariant from_ <= i <= |s|
      invariant Double(s[from_..]) == Before(text, Double(s[i..]))
    {
      DoubleAt(s, i);
      if s[i] == BACKSLASH && i + 1 < |s| && s[i + 1] == DOUBLE_QUOTE {
        BeforeBefore(text, [BACKSLASH, DOUBLE_QUOTE], Double(s[i + 2..]));
        text := text + [BACKSLASH, DOUBLE_QUOTE];
        i := i + 2;
      } else if s[i] == DOUBLE_QUOTE {
        i := i + 1;
        return;
      } else {
        BeforeBefore(text, [s[i]], Double(s[i + 1..]));
        text := text + [s[i]];
        i := i + 1;
      }
    }
    AtEnd(s);
  }

  method ReadWord(s: string, from_: nat) returns (cur: string, i: nat)
    requires from_ <= |s|
    ensures from_ <= i <= |s| && Word(s[from_..]) == Part(cur, s[i..])
  {
    hide Single, Double, Word, Before;
    i, cur := from_, "";
    BeforeNothing(Word(s[from_..]));
    while i < |s| && !IsWhite(s[i])
      invariant from_ <= i <= |s|
      invariant Word(s[from_..]) == Before(cur, Word(s[i..]))
      decreases |s| - i
    {
      WordAt(s, i);
      ghost var before, start := cur, i;
      if s[i] == BACKSLASH {
        if i + 1 < |s| {
          cur := cur + if s[i + 1] == ' ' then " " else [BACKSLASH, s[i + 1]];
          i := i + 2;
          BeforeBefore(before, if s[start + 1] == ' ' then " " else [BACKSLASH, s[start + 1]], Word(s[i..]));
        } else {
          cur := cur + [BACKSLASH];
          i := i + 1;
          LastBackslash(before, s);
        }
      } else if s[i] == QUOTE {
        var text, end := ReadSingle(s, i + 1);
        cur, i := cur + text, end;
        BeforeBefore(before, text, Word(s[i..]));
      } else if s[i] == DOUBLE_QUOTE {
        var text, end := ReadDouble(s, i + 1);
        cur, i := cur + text, end;
        BeforeBefore(before, text, Word(s[i..]));
      } else {
        cur := cur + [s[i]];
        i := i + 1;
        BeforeBefore(before, [s[start]], Word(s[i..]));
      }
    }
    if i < |s| {
      WordStops(s, i);
    } else {
      AtEnd(s);
    }
    BeforeEmpty(cur, s[i..]);
  }

  lemma BeforeNothing(p: Part)
    ensures Before("", p) == p
  {
    assert "" + p.text == p.text;
  }

  lemma BeforeEmpty(text: string, rest: string)
    ensures Before(text, Part("", rest)) == Part(text, rest)
  {
    assert text + "" == text;
  }

  lemma LastBackslash(text: string, s: string)
    ensures Before(text, Part([BACKSLASH], "")) == Before(text + [BACKSLASH], Word(s[|s|..]))
  {
    AtEnd(s);
    assert s[|s|..] == "";
    BeforeBefore(text, [BACKSLASH], Part("", ""));
  }

  method ShellSplit(s: string) returns (out: seq<string>)
    ensures out == Words(s)
  {
    hide Word;
    out := [];
    var i := 0;
    while i < |s|
      invariant i <= |s|
      invariant Words(s) == out + Words(s[i..])
      decreases |s| - i
    {
      ghost var start := i;
      while i < |s| && IsWhite(s[i])
        invariant start <= i <= |s| && SkipBlank(s[start..]) == SkipBlank(s[i..])
      {
        assert s[i..][1..] == s[i + 1..];
        i := i + 1;
      }
      if i >= |s| {
        break;
      }
      var cur, end := ReadWord(s, i);
      out, i := out + [cur], end;
    }
  }

  // -- splitting distributes --------------------------------------------------

  predicate ClosesSingle(s: string) {
    s != "" && (s[0] == QUOTE || ClosesSingle(s[1..]))
  }

  predicate ClosesDouble(s: string) {
    s != "" && (if EscapedQuote(s) then ClosesDouble(s[2..]) else s[0] == DOUBLE_QUOTE || ClosesDouble(s[1..]))
  }

  /** Every quote is closed, and no backslash dangles at the end. */
  predicate Balanced(s: string)
    decreases |s|
  {
    if s == "" then true
    else if IsWhite(s[0]) then Balanced(s[1..])
    else if s[0] == BACKSLASH then |s| > 1 && Balanced(s[2..])
    else if s[0] == QUOTE then ClosesSingle(s[1..]) && Balanced(Single(s[1..]).rest)
    else if s[0] == DOUBLE_QUOTE then ClosesDouble(s[1..]) && Balanced(Double(s[1..]).rest)
    else Balanced(s[1..])
  }

  function Then(p: Part, t: string): Part {
    Part(p.text, p.rest + t)
  }

  lemma {:induction false} SingleThen(s: string, t: string)
    requires ClosesSingle(s)
    ensures Single(s + t) == Then(Single(s), t)
  {
    assert (s + t)[1..] == s[1..] + t;
    if s[0] != QUOTE {
      SingleThen(s[1..], t);
    }
  }

  lemma {:induction false} DoubleThen(s: string, t: string)
    requires ClosesDouble(s)
    ensures Double(s + t) == Then(Double(s), t)
  {
    assert (s + t)[1..] == s[1..] + t;
    if EscapedQuote(s) {
      assert (s + t)[2..] == s[2..] + t && (s + t)[..2] == s[..2];
      DoubleThen(s[2..], t);
    } else if s[0] != DOUBLE_QUOTE {
      DoubleThen(s[1..], t);
    }
  }

  /** A blank or nothing. */
  predicate Ends(t: string) {
    t == "" || IsWhite(t[0])
  }

  lemma {:induction false} WordThen(s: string, t: string)
    requires Balanced(s) && Ends(t)
    ensures Word(s + t) == Then(Word(s), t) && Balanced(Word(s).rest)
    decreases |s|
  {
    hide Single, Double, ClosesSingle, ClosesDouble, IsWhite;
    if s == "" {
      assert s + t == t;
    } else if !IsWhite(s[0]) {
      assert (s + t)[1..] == s[1..] + t;
      if s[0] == BACKSLASH {
        assert (s + t)[2..] == s[2..] + t && (s + t)[..2] == s[..2];
        WordThen(s[2..], t);
      } else if s[0] == QUOTE {
        SingleThen(s[1..], t);
        WordThen(Single(s[1..]).rest, t);
      } else if s[0] == DOUBLE_QUOTE {
        DoubleThen(s[1..], t);
        WordThen(Double(s[1..]).rest, t);
      } else {
        WordThen(s[1..], t);
      }
    }
  }

  lemma {:induction false} SkipThen(s: string, t: string)
    requires Balanced(s)
    ensures Balanced(SkipBlank(s))
    ensures SkipBlank(s + t) == if SkipBlank(s) == "" then SkipBlank(t) else SkipBlank(s) + t
  {
    hide Single, Double, ClosesSingle, ClosesDouble, IsWhite;
    if s == "" {
      assert s + t == t;
    } else {
      assert (s + t)[1..] == s[1..] + t;
      if IsWhite(s[0]) {
        SkipThen(s[1..], t);
      }
    }
  }

  /** Splitting distributes over a boundary of whitespace after text that is balanced; what follows may be anything. */
  lemma {:induction false} SplitDistributes(s: string, t: string)
    requires Balanced(s) && Ends(t)
    ensures Words(s + t) == Words(s) + Words(t)
    decreases |s|
  {
    hide Word, Balanced, SkipBlank, IsWhite;
    SkipThen(s, t);
    var u := SkipBlank(s);
    if u != "" {
      WordThen(u, t);
      SplitDistributes(Word(u).rest, t);
    }
  }

  predicate Separator(s: string) {
    s != "" && AllWhite(s)
  }

  lemma {:induction false} BlankWords(s: string, t: string)
    requires AllWhite(s)
    ensures Words(s + t) == Words(t)
    ensures SkipBlank(s + t) == SkipBlank(t)
  {
    if s == "" {
      assert s + t == t;
    } else {
      assert (s + t)[0] == s[0] && (s + t)[1..] == s[1..] + t;
      BlankWords(s[1..], t);
    }
    hide Word;
  }

  /** Pieces written one after the other, each followed by its separator. */
  function Joined(pieces: seq<string>, separators: seq<string>): string
    requires |pieces| == |separators|
  {
    if pieces == [] then "" else pieces[0] + (separators[0] + Joined(pieces[1..], separators[1..]))
  }

  function WordsOfAll(pieces: seq<string>): seq<string> {
    if pieces == [] then [] else Words(pieces[0]) + WordsOfAll(pieces[1..])
  }

  /** So balanced pieces, each followed by whitespace, and any text after them split into the words of the pieces
      and then those of the text. */
  lemma {:induction false} PiecesDistribute(pieces: seq<string>, separators: seq<string>, tail: string)
    requires |pieces| == |separators|
    requires forall k :: 0 <= k < |pieces| ==> Balanced(pieces[k]) && Separator(separators[k])
    ensures Words(Joined(pieces, separators) + tail) == WordsOfAll(pieces) + Words(tail)
  {
    hide Balanced, Words, AllWhite;
    if pieces == [] {
      assert "" + tail == tail && [] + Words(tail) == Words(tail);
    } else {
      PiecesDistribute(pieces[1..], separators[1..], tail);
      var next := Joined(pieces[1..], separators[1..]) + tail;
      BlankWords(separators[0], next);
      StartsBlank(separators[0], next);
      SplitDistributes(pieces[0], separators[0] + next);
      assert Joined(pieces, separators) + tail == pieces[0] + (separators[0] + next);
      assert Words(pieces[0]) + (WordsOfAll(pieces[1..]) + Words(tail)) == WordsOfAll(pieces) + Words(tail);
    }
  }

  lemma NoWords()
    ensures Words("") == []
  {}

  lemma StartsBlank(s: string, t: string)
    requires Separator(s)
    ensures Ends(s + t)
  {}

  // -- writing words ----------------------------------------------------------

  /** A character between double quotes. */
  datatype Inner = Bare(c: char) | Quoted

  /** The ways to write a piece of a word. */
  datatype Atom =
    | Plain(c: char)
    | EscapedSpace
    | Pair(c: char)
    | InSingle(text: string)
    | InDouble(inner: seq<Inner>)

  function InnerText(inner: seq<Inner>): string {
    if inner == [] then ""
    else (if inner[0].Quoted? then "\\\"" else [inner[0].c]) + InnerText(inner[1..])
  }

  /** The content has no bare double quote, and the closing one is not taken for an escaped one. */
  predicate InnerOk(inner: seq<Inner>) {
    && (forall k :: 0 <= k < |inner| && inner[k].Bare? ==> inner[k].c != '"')
    && (inner != [] && inner[|inner| - 1].Bare? ==> inner[|inner| - 1].c != '\\')
  }

  predicate AtomOk(a: Atom) {
    match a
    case Plain(c) => !IsWhite(c) && c != '\\' && c != '\'' && c != '"'
    case EscapedSpace => true
    case Pair(c) => c != ' '
    case InSingle(text) => '\'' !in text
    case InDouble(inner) => InnerOk(inner)
  }

  function Written(a: Atom): string {
    match a
    case Plain(c) => [c]
    case EscapedSpace => ['\\', ' ']
    case Pair(c) => ['\\', c]
    case InSingle(text) => ['\''] + text + ['\'']
    case InDouble(inner) => ['"'] + InnerText(inner) + ['"']
  }

  function Value(a: Atom): string {
    match a
    case Plain(c) => [c]
    case EscapedSpace => " "
    case Pair(c) => ['\\', c]
    case InSingle(text) => text
    case InDouble(inner) => InnerText(inner)
  }

  function WrittenWord(w: seq<Atom>): string {
    if w == [] then "" else Written(w[0]) + WrittenWord(w[1..])
  }

  function WordValue(w: seq<Atom>): string {
    if w == [] then "" else Value(w[0]) + WordValue(w[1..])
  }

  predicate WordOk(w: seq<Atom>) {
    w != [] && forall k :: 0 <= k < |w| ==> AtomOk(w[k])
  }

  lemma {:induction false} SingleReads(text: string, rest: string)
    requires QUOTE !in text
    ensures Single(text + [QUOTE] + rest) == Part(text, rest)
    ensures ClosesSingle(text + [QUOTE] + rest)
  {
    var s := text + [QUOTE] + rest;
    if text == "" {
      assert s[1..] == rest;
    } else {
      assert s[1..] == text[1..] + [QUOTE] + rest;
      SingleReads(text[1..], rest);
    }
  }

  lemma {:induction false} DoubleReads(inner: seq<Inner>, rest: string)
    requires InnerOk(inner)
    ensures Double(InnerText(inner) + [DOUBLE_QUOTE] + rest) == Part(InnerText(inner), rest)
    ensures ClosesDouble(InnerText(inner) + [DOUBLE_QUOTE] + rest)
  {
    var s := InnerText(inner) + [DOUBLE_QUOTE] + rest;
    if inner == [] {
      assert s[1..] == rest;
    } else {
      var next := InnerText(inner[1..]) + [DOUBLE_QUOTE] + rest;
      DoubleReads(inner[1..], rest);
      if inner[0].Quoted? {
        assert s[..2] == [BACKSLASH, DOUBLE_QUOTE] && s[2..] == next;
      } else {
        assert s[0] == inner[0].c && s[1..] == next;
        if inner[0].c == BACKSLASH {
          InnerStarts(inner[1..], rest);
        }
      }
    }
  }

  /** What follows a bare backslash inside double quotes is no double quote. */
  lemma InnerStarts(inner: seq<Inner>, rest: string)
    requires InnerOk(inner) && inner != []
    ensures (InnerText(inner) + [DOUBLE_QUOTE] + rest)[0] != DOUBLE_QUOTE
  {}

  /** Whatever follows, the text starts with the atom's value and goes on with the rest. */
  predicate ReadsAs(s: string, value: string, rest: string) {
    && s != "" && !IsWhite(s[0])
    && Word(s) == Before(value, Word(rest))
    && (Balanced(rest) ==> Balanced(s))
  }

  lemma PlainReads(c: char, rest: string)
    requires AtomOk(Plain(c))
    ensures ReadsAs([c] + rest, [c], rest)
  {
    assert ([c] + rest)[1..] == rest;
  }

  lemma PairReads(c: char, rest: string)
    ensures ReadsAs([BACKSLASH, c] + rest, if c == ' ' then " " else [BACKSLASH, c], rest)
  {
    var s := [BACKSLASH, c] + rest;
    assert s[2..] == rest && s[..2] == [BACKSLASH, c];
  }

  lemma InSingleReads(text: string, rest: string)
    requires QUOTE !in text
    ensures ReadsAs([QUOTE] + text + [QUOTE] + rest, text, rest)
  {
    var s := [QUOTE] + text + [QUOTE] + rest;
    SingleReads(text, rest);
    assert s[1..] == text + [QUOTE] + rest;
    hide Single, ClosesSingle;
  }

  lemma InDoubleReads(inner: seq<Inner>, rest: string)
    requires InnerOk(inner)
    ensures ReadsAs([DOUBLE_QUOTE] + InnerText(inner) + [DOUBLE_QUOTE] + rest, InnerText(inner), rest)
  {
    var s := [DOUBLE_QUOTE] + InnerText(inner) + [DOUBLE_QUOTE] + rest;
    DoubleReads(inner, rest);
    assert s[1..] == InnerText(inner) + [DOUBLE_QUOTE] + rest;
    hide Double, ClosesDouble, InnerText, InnerOk;
  }

  lemma AtomReads(a: Atom, rest: string)
    requires AtomOk(a)
    ensures ReadsAs(Written(a) + rest, Value(a), rest)
  {
    match a {
      case Plain(c) => PlainReads(c, rest);
      case EscapedSpace => PairReads(' ', rest);
      case Pair(c) => PairReads(c, rest);
      case InSingle(text) => InSingleReads(text, rest);
      case InDouble(inner) => InDoubleReads(inner, rest);
    }
    hide ReadsAs, InnerText, InnerOk;
  }

  lemma BeforeRest(a: string, b: string, rest: string)
    ensures Before(a, Part(b, rest)) == Part(a + b, rest)
  {}

  lemma {:induction false} WordReads(w: seq<Atom>, rest: string)
    requires (forall k :: 0 <= k < |w| ==> AtomOk(w[k])) && Ends(rest)
    ensures Word(WrittenWord(w) + rest) == Part(WordValue(w), rest)
    ensures Balanced(rest) ==> Balanced(WrittenWord(w) + rest)
    ensures w != [] ==> WrittenWord(w) + rest != "" && !IsWhite((WrittenWord(w) + rest)[0])
  {
    hide Written, Value, Balanced, AtomOk;
    if w == [] {
      assert WrittenWord(w) + rest == rest;
    } else {
      var next := WrittenWord(w[1..]) + rest;
      assert WrittenWord(w) + rest == Written(w[0]) + next;
      WordReads(w[1..], rest);
      AtomReads(w[0], next);
      BeforeRest(Value(w[0]), WordValue(w[1..]), rest);
    }
  }

  /** What a line may break off in: a quote that is never closed, or a last backslash. */
  datatype Open = OpenSingle(text: string) | OpenDouble(inner: seq<Inner>) | LastBackslash

  predicate OpenOk(o: Open) {
    match o
    case OpenSingle(text) => '\'' !in text
    case OpenDouble(inner) => forall k :: 0 <= k < |inner| && inner[k].Bare? ==> inner[k].c != '"'
    case LastBackslash => true
  }

  function OpenWritten(o: Open): string {
    match o
    case OpenSingle(text) => "'" + text
    case OpenDouble(inner) => "\"" + InnerText(inner)
    case LastBackslash => "\\"
  }

  function OpenValue(o: Open): string {
    match o
    case OpenSingle(text) => text
    case OpenDouble(inner) => InnerText(inner)
    case LastBackslash => "\\"
  }

  lemma {:induction false} SingleOpen(text: string)
    requires QUOTE !in text
    ensures Single(text) == Part(text, "")
  {
    if text != "" {
      SingleOpen(text[1..]);
      assert [text[0]] + text[1..] == text;
    }
  }

  lemma {:induction false} DoubleOpen(inner: seq<Inner>)
    requires forall k :: 0 <= k < |inner| && inner[k].Bare? ==> inner[k].c != DOUBLE_QUOTE
    ensures Double(InnerText(inner)) == Part(InnerText(inner), "")
  {
    if inner != [] {
      var next := InnerText(inner[1..]);
      DoubleOpen(inner[1..]);
      if inner[0].Quoted? {
        assert InnerText(inner)[..2] == [BACKSLASH, DOUBLE_QUOTE] && InnerText(inner)[2..] == next;
        assert [BACKSLASH, DOUBLE_QUOTE] + next == InnerText(inner);
      } else {
        assert InnerText(inner)[0] == inner[0].c && InnerText(inner)[1..] == next;
        assert [inner[0].c] + next == InnerText(inner);
        assert next != "" ==> next[0] != DOUBLE_QUOTE;
      }
    }
  }

  lemma OpenReads(o: Open)
    requires OpenOk(o)
    ensures Word(OpenWritten(o)) == Part(OpenValue(o), "")
    ensures OpenWritten(o) != "" && !IsWhite(OpenWritten(o)[0])
  {
    var s := OpenWritten(o);
    match o {
      case OpenSingle(text) =>
        SingleOpen(text);
        assert s[1..] == text;
      case OpenDouble(inner) =>
        DoubleOpen(inner);
        assert s[1..] == InnerText(inner);
      case LastBackslash =>
    }
    hide Single, Double, InnerText;
  }

  /** A last word that breaks off is what it would have been, closed or not. */
  lemma {:induction false} BrokenWord(w: seq<Atom>, o: Open)
    requires OpenOk(o) && forall k :: 0 <= k < |w| ==> AtomOk(w[k])
    ensures Word(WrittenWord(w) + OpenWritten(o)) == Part(WordValue(w) + OpenValue(o), "")
    ensures WrittenWord(w) + OpenWritten(o) != "" && !IsWhite((WrittenWord(w) + OpenWritten(o))[0])
  {
    hide Written, Value, AtomOk, OpenOk, OpenWritten, OpenValue;
    OpenReads(o);
    if w == [] {
      assert WrittenWord(w) + OpenWritten(o) == OpenWritten(o);
      assert WordValue(w) + OpenValue(o) == OpenValue(o);
    } else {
      var next := WrittenWord(w[1..]) + OpenWritten(o);
      assert WrittenWord(w) + OpenWritten(o) == Written(w[0]) + next;
      BrokenWord(w[1..], o);
      AtomReads(w[0], next);
      BeforeRest(Value(w[0]), WordValue(w[1..]) + OpenValue(o), "");
      assert Value(w[0]) + (WordValue(w[1..]) + OpenValue(o)) == WordValue(w) + OpenValue(o);
    }
  }

  /** One word written down is one word read back. */
  lemma OneWord(w: seq<Atom>)
    requires WordOk(w)
    ensures Words(WrittenWord(w)) == [WordValue(w)] && Balanced(WrittenWord(w))
  {
    hide AtomOk, Word, WrittenWord, IsWhite;
    WordReads(w, "");
    assert WrittenWord(w) + "" == WrittenWord(w);
    NoWords();
    assert Balanced("");
    assert [WordValue(w)] + [] == [WordValue(w)];
  }

  function AllWritten(ws: seq<seq<Atom>>): seq<string> {
    if ws == [] then [] else [WrittenWord(ws[0])] + AllWritten(ws[1..])
  }

  function AllValues(ws: seq<seq<Atom>>): seq<string> {
    if ws == [] then [] else [WordValue(ws[0])] + AllValues(ws[1..])
  }

  lemma {:induction false} WrittenPieces(ws: seq<seq<Atom>>)
    requires forall k :: 0 <= k < |ws| ==> WordOk(ws[k])
    ensures |AllWritten(ws)| == |ws| && WordsOfAll(AllWritten(ws)) == AllValues(ws)
    ensures forall k :: 0 <= k < |ws| ==> Balanced(AllWritten(ws)[k])
  {
    hide WordOk, Words, Balanced, WrittenWord;
    if ws != [] {
      OneWord(ws[0]);
      WrittenPieces(ws[1..]);
    }
  }

  lemma {:induction false} JoinedSnoc(pieces: seq<string>, separators: seq<string>)
    requires |pieces| == |separators| && pieces != []
    ensures var n := |pieces| - 1;
            Joined(pieces, separators) == Joined(pieces[..n], separators[..n]) + (pieces[n] + separators[n])
  {
    var n := |pieces| - 1;
    if n == 0 {
      assert pieces[0] + (separators[0] + "") == "" + (pieces[0] + separators[0]);
    } else {
      JoinedSnoc(pieces[1..], separators[1..]);
      assert pieces[1..][..n - 1] == pieces[..n][1..] && separators[1..][..n - 1] == separators[..n][1..];
      JoinedRegrouped(pieces[0], separators[0], Joined(pieces[..n][1..], separators[..n][1..]), pieces[n] + separators[n]);
    }
  }

  lemma JoinedRegrouped(a: string, b: string, c: string, d: string)
    ensures a + (b + (c + d)) == (a + (b + c)) + d
  {}

  lemma {:induction false} WrittenSnoc(ws: seq<seq<Atom>>)
    requires ws != []
    ensures var n := |ws| - 1;
            AllWritten(ws) == AllWritten(ws[..n]) + [WrittenWord(ws[n])]
            && AllValues(ws) == AllValues(ws[..n]) + [WordValue(ws[n])]
  {
    hide WrittenWord, WordValue;
    var n := |ws| - 1;
    if n > 0 {
      WrittenSnoc(ws[1..]);
      assert ws[1..][..n - 1] == ws[..n][1..] && ws[1..][n - 1] == ws[n];
    }
  }

  /** A last word and any blanks after it. */
  lemma LastWord(w: seq<Atom>, blanks: string)
    requires WordOk(w) && AllWhite(blanks)
    ensures Words(WrittenWord(w) + blanks) == [WordValue(w)]
  {
    OneWord(w);
    assert Ends(blanks);
    hide WordOk, AllWhite, Words, WrittenWord, WordValue, Balanced;
    SplitDistributes(WrittenWord(w), blanks);
    BlankWords(blanks, "");
    NoWords();
    assert blanks + "" == blanks && [WordValue(w)] + [] == [WordValue(w)];
  }

  /** Round trip: words written with escaped spaces, verbatim backslash pairs and quotes, with runs of whitespace
      between them and any blanks, or none, before and after, split back into the same words. */
  lemma RoundTrip(lead: string, ws: seq<seq<Atom>>, separators: seq<string>)
    requires AllWhite(lead) && |ws| == |separators|
    requires forall k :: 0 <= k < |ws| ==> WordOk(ws[k]) && AllWhite(separators[k])
    requires forall k :: 0 <= k < |ws| - 1 ==> separators[k] != ""
    ensures |AllWritten(ws)| == |ws|
    ensures Words(lead + Joined(AllWritten(ws), separators)) == AllValues(ws)
  {
    hide WordOk, Balanced, Words, AllWhite, WrittenWord, WordValue;
    WrittenPieces(ws);
    BlankWords(lead, Joined(AllWritten(ws), separators));
    if ws == [] {
      NoWords();
    } else {
      var n := |ws| - 1;
      var pieces := AllWritten(ws);
      WrittenSnoc(ws);
      WrittenPieces(ws[..n]);
      assert pieces[..n] == AllWritten(ws[..n]);
      JoinedSnoc(pieces, separators);
      PiecesDistribute(pieces[..n], separators[..n], pieces[n] + separators[n]);
      LastWord(ws[n], separators[n]);
    }
  }

  /** A line that breaks off inside its last word: the words before it, and that one as far as it got. */
  lemma BrokenLine(ws: seq<seq<Atom>>, separators: seq<string>, w: seq<Atom>, o: Open)
    requires |ws| == |separators| && OpenOk(o) && forall k :: 0 <= k < |w| ==> AtomOk(w[k])
    requires forall k :: 0 <= k < |ws| ==> WordOk(ws[k]) && Separator(separators[k])
    ensures |AllWritten(ws)| == |ws|
    ensures Words(Joined(AllWritten(ws), separators) + (WrittenWord(w) + OpenWritten(o)))
         == AllValues(ws) + [WordValue(w) + OpenValue(o)]
  {
    hide WordOk, AtomOk, OpenOk, Balanced, Word, WrittenWord, WordValue, OpenWritten, OpenValue, IsWhite;
    WrittenPieces(ws);
    PiecesDistribute(AllWritten(ws), separators, WrittenWord(w) + OpenWritten(o));
    BrokenWord(w, o);
    NoWords();
    assert [WordValue(w) + OpenValue(o)] + [] == [WordValue(w) + OpenValue(o)];
  }
}
