/** What the shared classification of setup/jsonc.rs means, by the grammar of JSON with comments: every text is a
    sequence of code characters, string literals and comments in one way, and is classified as such. */
module JsoncPieces {
  import opened Text
  import opened JsoncLexer

  /** A character of a string literal, or a backslash and the character after it. */
  datatype Inner = Char(c: char) | Escaped(c: char)

  datatype Piece =
    | CodeChar(c: char)
    | Quoted(inner: seq<Inner>)
    | LineRemark(text: string)
    | BlockRemark(text: string)

  /** What the end of the file may cut off: a string, perhaps right after a backslash, or a comment. */
  datatype Tail =
    | NoTail
    | OpenQuoted(inner: seq<Inner>, dangling: bool)
    | OpenLineRemark(text: string)
    | OpenBlockRemark(text: string)

  function InnerText(inner: seq<Inner>): string {
    if inner == [] then ""
    else (match inner[0] case Char(c) => [c] case Escaped(c) => ['\\', c]) + InnerText(inner[1..])
  }

  function PieceText(p: Piece): (s: string)
    ensures s != ""
  {
    match p
    case CodeChar(c) => [c]
    case Quoted(inner) => "\"" + InnerText(inner) + "\""
    case LineRemark(text) => "//" + text + "\n"
    case BlockRemark(text) => "/*" + text + "*/"
  }

  function TailText(t: Tail): string {
    match t
    case NoTail => ""
    case OpenQuoted(inner, dangling) => "\"" + InnerText(inner) + (if dangling then "\\" else "")
    case OpenLineRemark(text) => "//" + text
    case OpenBlockRemark(text) => "/*" + text
  }

  function Whole(ps: seq<Piece>, tail: Tail): string {
    if ps == [] then TailText(tail) else PieceText(ps[0]) + Whole(ps[1..], tail)
  }

  predicate InnerOk(inner: seq<Inner>) {
    forall k :: 0 <= k < |inner| && inner[k].Char? ==> inner[k].c != '"' && inner[k].c != '\\'
  }

  /** `text` followed by `end` holds no block comment end before the one that `end` is. */
  predicate NoEnd(text: string, end: string) {
    forall k :: 0 <= k < |text| && k + 1 < |text + end| ==> !((text + end)[k] == '*' && (text + end)[k + 1] == '/')
  }

  /** Strings end at the first bare quote, line comments at the newline, block comments at the first `*` with a slash, and
      a slash in code begins no comment. */
  predicate PieceOk(p: Piece, rest: string) {
    match p
    case CodeChar(c) => c != '"' && (c == '/' ==> rest == "" || (rest[0] != '/' && rest[0] != '*'))
    case Quoted(inner) => InnerOk(inner)
    case LineRemark(text) => '\n' !in text
    case BlockRemark(text) => NoEnd(text, "*/")
  }

  predicate TailOk(t: Tail) {
    match t
    case NoTail => true
    case OpenQuoted(inner, _) => InnerOk(inner)
    case OpenLineRemark(text) => '\n' !in text
    case OpenBlockRemark(text) => NoEnd(text, "")
  }

  predicate AllOk(ps: seq<Piece>, tail: Tail) {
    if ps == [] then TailOk(tail) else PieceOk(ps[0], Whole(ps[1..], tail)) && AllOk(ps[1..], tail)
  }

  function Repeat(k: Kind, n: nat): (ks: seq<Kind>)
    ensures |ks| == n && forall i :: 0 <= i < n ==> ks[i] == k
  {
    seq(n, _ => k)
  }

  /** Code characters are code, literals are literal with their quotes, comments are remarks with their marks; the newline
      that ends a line comment is code again. */
  function PieceKinds(p: Piece): (ks: seq<Kind>)
    ensures |ks| == |PieceText(p)|
  {
    match p
    case CodeChar(_) => [Code]
    case Quoted(inner) => Repeat(Literal, |InnerText(inner)| + 2)
    case LineRemark(text) => Repeat(Remark, |text| + 2) + [Code]
    case BlockRemark(text) => Repeat(Remark, |text| + 4)
  }

  function TailKinds(t: Tail): seq<Kind> {
    Repeat(if t.OpenQuoted? then Literal else Remark, |TailText(t)|)
  }

  function WholeKinds(ps: seq<Piece>, tail: Tail): seq<Kind> {
    if ps == [] then TailKinds(tail) else PieceKinds(ps[0]) + WholeKinds(ps[1..], tail)
  }

  // -- one piece at a time ----------------------------------------------------

  lemma KindsStep(c: char, s: string, st: State)
    ensures Kinds([c] + s, st, None)
         == [KindOf(st, c, Peek(s, None))] + Kinds(s, Next(st, c, Peek(s, None)), None)
  {
    assert ([c] + s)[1..] == s;
  }

  lemma OneText(x: Inner, more: string)
    requires x.Char? ==> x.c != '"' && x.c != '\\'
    ensures Kinds(InnerText([x]) + more, Str, None) == Repeat(Literal, |InnerText([x])|) + Kinds(more, Str, None)
  {
    assert [x][1..] == [];
    match x {
      case Char(c) =>
        assert InnerText([x]) == [c];
        KindsStep(c, more, Str);
      case Escaped(c) =>
        assert InnerText([x]) == ['\\', c];
        assert ['\\', c] + more == ['\\'] + ([c] + more);
        KindsStep('\\', [c] + more, Str);
        KindsStep(c, more, Escape);
    }
    hide Kinds;
  }

  lemma InnerCons(inner: seq<Inner>)
    requires inner != []
    ensures InnerText(inner) == InnerText([inner[0]]) + InnerText(inner[1..])
  {
    assert [inner[0]][1..] == [];
  }

  lemma Regrouped<T>(a: seq<T>, b: seq<T>, c: seq<T>)
    ensures a + b + c == a + (b + c)
  {}

  lemma RepeatMore(k: Kind, m: nat, n: nat)
    ensures Repeat(k, m) + Repeat(k, n) == Repeat(k, m + n)
  {}

  lemma {:induction false} InnerKinds(inner: seq<Inner>, rest: string)
    requires InnerOk(inner)
    ensures Kinds(InnerText(inner) + rest, Str, None) == Repeat(Literal, |InnerText(inner)|) + Kinds(rest, Str, None)
  {
    if inner == [] {
      assert InnerText(inner) + rest == rest;
    } else {
      InnerKinds(inner[1..], rest);
      InnerCons(inner);
      OneText(inner[0], InnerText(inner[1..]) + rest);
      hide Kinds, InnerText, Repeat;
      var a, b := InnerText([inner[0]]), InnerText(inner[1..]);
      Regrouped(a, b, rest);
      RepeatMore(Literal, |a|, |b|);
      Regrouped(Repeat(Literal, |a|), Repeat(Literal, |b|), Kinds(rest, Str, None));
    }
  }

  lemma QuotedKinds(inner: seq<Inner>, rest: string)
    requires InnerOk(inner)
    ensures Kinds("\"" + InnerText(inner) + "\"" + rest, Normal, None)
         == Repeat(Literal, |InnerText(inner)| + 2) + Kinds(rest, Normal, None)
  {
    var t := InnerText(inner);
    assert "\"" + t + "\"" + rest == ['"'] + (t + (['"'] + rest));
    KindsStep('"', t + (['"'] + rest), Normal);
    InnerKinds(inner, ['"'] + rest);
    KindsStep('"', rest, Str);
  }

  lemma {:induction false} LineKinds(text: string, rest: string)
    requires '\n' !in text
    ensures Kinds(text + rest, Line, None) == Repeat(Remark, |text|) + Kinds(rest, Line, None)
  {
    if text == "" {
      assert text + rest == rest;
    } else {
      LineKinds(text[1..], rest);
      assert text + rest == [text[0]] + (text[1..] + rest);
      KindsStep(text[0], text[1..] + rest, Line);
    }
  }

  lemma LineStarts(s: string)
    ensures Kinds("//" + s, Normal, None) == [Remark, Remark] + Kinds(s, Line, None)
  {
    assert "//" + s == ['/'] + (['/'] + s);
    KindsStep('/', ['/'] + s, Normal);
    KindsStep('/', s, OpenLine);
  }

  lemma BlockStarts(s: string)
    ensures Kinds("/*" + s, Normal, None) == [Remark, Remark] + Kinds(s, Block, None)
  {
    assert "/*" + s == ['/'] + (['*'] + s);
    KindsStep('/', ['*'] + s, Normal);
    KindsStep('*', s, OpenBlock);
  }

  lemma {:induction false} BlockKinds(text: string, end: string, rest: string)
    requires NoEnd(text, end) && (end == "*/" || (end == "" && rest == ""))
    ensures Kinds(text + (end + rest), Block, None) == Repeat(Remark, |text|) + Kinds(end + rest, Block, None)
  {
    if text == "" {
      assert text + (end + rest) == end + rest;
    } else {
      var more := text[1..] + (end + rest);
      forall k | 0 <= k < |text[1..]| && k + 1 < |text[1..] + end|
        ensures !((text[1..] + end)[k] == '*' && (text[1..] + end)[k + 1] == '/')
      {
        assert (text[1..] + end)[k] == (text + end)[k + 1] && (text[1..] + end)[k + 1] == (text + end)[k + 2];
      }
      BlockKinds(text[1..], end, rest);
      assert text + (end + rest) == [text[0]] + more;
      KindsStep(text[0], more, Block);
      if more != "" {
        assert (text + end)[0] == text[0] && (text + end)[1] == more[0];
      }
    }
  }

  lemma LineClassified(text: string, rest: string)
    requires '\n' !in text
    ensures Kinds("//" + text + "\n" + rest, Normal, None)
         == Repeat(Remark, |text| + 2) + [Code] + Kinds(rest, Normal, None)
  {
    assert "//" + text + "\n" + rest == "//" + (text + (['\n'] + rest));
    LineStarts(text + (['\n'] + rest));
    LineKinds(text, ['\n'] + rest);
    KindsStep('\n', rest, Line);
    hide Kinds;
  }

  lemma BlockClassified(text: string, rest: string)
    requires NoEnd(text, "*/")
    ensures Kinds("/*" + text + "*/" + rest, Normal, None) == Repeat(Remark, |text| + 4) + Kinds(rest, Normal, None)
  {
    assert "/*" + text + "*/" + rest == "/*" + (text + ("*/" + rest));
    BlockStarts(text + ("*/" + rest));
    BlockKinds(text, "*/", rest);
    assert "*/" + rest == ['*'] + (['/'] + rest);
    KindsStep('*', ['/'] + rest, Block);
    KindsStep('/', rest, CloseBlock);
    hide Kinds, NoEnd;
  }

  lemma PieceClassified(p: Piece, rest: string)
    requires PieceOk(p, rest)
    ensures Kinds(PieceText(p) + rest, Normal, None) == PieceKinds(p) + Kinds(rest, Normal, None)
  {
    match p {
      case CodeChar(c) => KindsStep(c, rest, Normal);
      case Quoted(inner) => QuotedKinds(inner, rest);
      case LineRemark(text) => LineClassified(text, rest);
      case BlockRemark(text) => BlockClassified(text, rest);
    }
    hide Kinds, InnerText, Repeat, NoEnd, InnerOk;
  }

  lemma OpenQuotedClassified(inner: seq<Inner>, end: string)
    requires InnerOk(inner) && (end == "" || end == "\\")
    ensures Kinds("\"" + InnerText(inner) + end, Normal, None) == Repeat(Literal, |InnerText(inner)| + 1 + |end|)
  {
    assert "\"" + InnerText(inner) + end == ['"'] + (InnerText(inner) + end);
    KindsStep('"', InnerText(inner) + end, Normal);
    InnerKinds(inner, end);
    if end == "\\" {
      assert end == ['\\'] + "";
      KindsStep('\\', "", Str);
    }
    hide InnerText, InnerOk;
  }

  lemma TwoMore(k: Kind, n: nat)
    ensures [k, k] + (Repeat(k, n) + []) == Repeat(k, n + 2)
  {}

  lemma OpenLineClassified(text: string)
    requires '\n' !in text
    ensures Kinds("//" + text, Normal, None) == Repeat(Remark, |text| + 2)
  {
    LineStarts(text);
    LineKinds(text, "");
    EmptyKinds();
    TwoMore(Remark, |text|);
    Bare(text);
    hide Kinds, Repeat;
  }

  lemma OpenBlockClassified(text: string)
    requires NoEnd(text, "")
    ensures Kinds("/*" + text, Normal, None) == Repeat(Remark, |text| + 2)
  {
    BlockStarts(text);
    BlockKinds(text, "", "");
    EmptyKinds();
    TwoMore(Remark, |text|);
    Bare(text);
    hide Kinds, NoEnd, Repeat;
  }

  lemma Bare(text: string)
    ensures text + "" == text && text + ("" + "") == text && "" + "" == ""
  {}

  lemma EmptyKinds()
    ensures Kinds("", Block, None) == [] && Kinds("", Line, None) == []
  {}

  lemma TailClassified(t: Tail)
    requires TailOk(t)
    ensures Kinds(TailText(t), Normal, None) == TailKinds(t)
  {
    match t {
      case NoTail =>
      case OpenQuoted(inner, dangling) => OpenQuotedClassified(inner, if dangling then "\\" else "");
      case OpenLineRemark(text) => OpenLineClassified(text);
      case OpenBlockRemark(text) => OpenBlockClassified(text);
    }
    hide InnerText, NoEnd, InnerOk, Repeat;
  }

  /** Whatever a text is made of, it is classified as that. */
  lemma {:induction false} PiecesClassified(ps: seq<Piece>, tail: Tail)
    requires AllOk(ps, tail)
    ensures Lex(Whole(ps, tail)) == WholeKinds(ps, tail)
  {
    if ps == [] {
      TailClassified(tail);
    } else {
      PiecesClassified(ps[1..], tail);
      PieceClassified(ps[0], Whole(ps[1..], tail));
    }
  }

  // -- every text is made of pieces -------------------------------------------

  /** Up to the quote that closes a string, or to the end of the text. */
  lemma {:induction false} SplitQuoted(s: string) returns (inner: seq<Inner>, closed: bool, dangling: bool, rest: string)
    ensures InnerOk(inner) && |rest| <= |s| && !(closed && dangling)
    ensures s == InnerText(inner) + if closed then "\"" + rest else if dangling then "\\" else ""
    ensures closed ==> |rest| < |s|
  {
    if s == "" {
      inner, closed, dangling, rest := [], false, false, "";
    } else if s[0] == '"' {
      inner, closed, dangling, rest := [], true, false, s[1..];
    } else if s == "\\" {
      inner, closed, dangling, rest := [], false, true, "";
    } else if s[0] == '\\' {
      inner, closed, dangling, rest := SplitQuoted(s[2..]);
      inner := [Escaped(s[1])] + inner;
      assert s == ['\\', s[1]] + s[2..];
    } else {
      inner, closed, dangling, rest := SplitQuoted(s[1..]);
      inner := [Char(s[0])] + inner;
      assert s == [s[0]] + s[1..];
    }
  }

  lemma {:induction false} SplitLine(s: string) returns (text: string, closed: bool, rest: string)
    ensures '\n' !in text && s == text + (if closed then "\n" + rest else "")
    ensures closed ==> |rest| < |s|
  {
    if s == "" {
      text, closed, rest := "", false, "";
    } else if s[0] == '\n' {
      text, closed, rest := "", true, s[1..];
    } else {
      text, closed, rest := SplitLine(s[1..]);
      text := [s[0]] + text;
    }
  }

  lemma {:induction false} SplitBlock(s: string) returns (text: string, closed: bool, rest: string)
    ensures s == text + (if closed then "*/" + rest else "") && NoEnd(text, if closed then "*/" else "")
    ensures closed ==> |rest| < |s|
  {
    if s == "" {
      text, closed, rest := "", false, "";
    } else if |s| >= 2 && s[0] == '*' && s[1] == '/' {
      text, closed, rest := "", true, s[2..];
      assert s == "*/" + rest;
    } else {
      text, closed, rest := SplitBlock(s[1..]);
      var end := if closed then "*/" else "";
      var more := [s[0]] + text;
      assert s == more + (if closed then "*/" + rest else "");
      assert |more + end| >= 2 ==> (more + end)[0] == s[0] && (more + end)[1] == s[1];
      forall k | 0 < k < |more| && k + 1 < |more + end|
        ensures !((more + end)[k] == '*' && (more + end)[k + 1] == '/')
      {
        assert (more + end)[k] == (text + end)[k - 1] && (more + end)[k + 1] == (text + end)[k];
      }
      text := more;
    }
  }

  /** Every text is a sequence of pieces, so the classification is fixed on all texts. */
  lemma {:induction false} EveryText(s: string) returns (ps: seq<Piece>, tail: Tail)
    ensures AllOk(ps, tail) && Whole(ps, tail) == s
    decreases |s|
  {
    hide InnerText, InnerOk, NoEnd, AllOk, Whole;
    ps, tail := [], NoTail;
    if s == "" {
      OnlyTail(tail);
      return;
    }
    if s[0] == '"' {
      var inner, closed, dangling, rest := SplitQuoted(s[1..]);
      if closed {
        ps, tail := EveryText(rest);
        ps := Added(Quoted(inner), ps, tail, s);
      } else {
        tail := OpenQuoted(inner, dangling);
        assert s == ['"'] + s[1..];
        OnlyTail(tail);
      }
    } else if |s| >= 2 && s[0] == '/' && s[1] == '/' {
      var text, closed, rest := SplitLine(s[2..]);
      assert s == "//" + s[2..];
      if closed {
        ps, tail := EveryText(rest);
        ps := Added(LineRemark(text), ps, tail, s);
      } else {
        tail := OpenLineRemark(text);
        OnlyTail(tail);
      }
    } else if |s| >= 2 && s[0] == '/' && s[1] == '*' {
      var text, closed, rest := SplitBlock(s[2..]);
      assert s == "/*" + s[2..];
      if closed {
        ps, tail := EveryText(rest);
        ps := Added(BlockRemark(text), ps, tail, s);
      } else {
        tail := OpenBlockRemark(text);
        OnlyTail(tail);
      }
    } else {
      ps, tail := EveryText(s[1..]);
      assert s == [s[0]] + s[1..];
      ps := Added(CodeChar(s[0]), ps, tail, s);
    }
  }

  lemma OnlyTail(tail: Tail)
    requires TailOk(tail)
    ensures AllOk([], tail) && Whole([], tail) == TailText(tail)
  {}

  lemma Added(p: Piece, ps: seq<Piece>, tail: Tail, s: string) returns (all: seq<Piece>)
    requires AllOk(ps, tail) && PieceOk(p, Whole(ps, tail)) && s == PieceText(p) + Whole(ps, tail)
    ensures all == [p] + ps && AllOk(all, tail) && Whole(all, tail) == s
  {
    all := [p] + ps;
    assert all[1..] == ps;
  }
}
