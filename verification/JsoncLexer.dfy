/**
 * The two lexers of setup/jsonc.rs: `scan_structure`, which finds the closing bracket, and
 * `strip_jsonc`, which removes comments and trailing commas. Both are proved against one
 * classification of every character as code, string or comment.
 *
 * The source lexes UTF-8 bytes; every byte it tests is ASCII, and a byte of a multi-byte character
 * never is, so the model lexes characters.
 */
module JsoncLexer {
  import opened Text

  /** Lexical state between two characters. The `Open` and `Close` states are in the middle of a two-character mark. */
  datatype State = Normal | OpenLine | OpenBlock | Str | Escape | Line | Block | CloseBlock

  datatype Kind = Code | Literal | Remark

  /** State after `c`, read in `st`, when `next` is the following character. */
  function Next(st: State, c: char, next: Option<char>): State {
    match st
    case Normal =>
      if c == '"' then Str
      else if c == '/' && next == Some('/') then OpenLine
      else if c == '/' && next == Some('*') then OpenBlock
      else Normal
    case OpenLine => Line
    case OpenBlock => Block
    case Str => if c == '\\' then Escape else if c == '"' then Normal else Str
    case Escape => Str
    case Line => if c == '\n' then Normal else Line
    case Block => if c == '*' && next == Some('/') then CloseBlock else Block
    case CloseBlock => Normal
  }

  function KindOf(st: State, c: char, next: Option<char>): Kind {
    match st
    case Normal =>
      if c == '"' then Literal
      else if Next(st, c, next) == Normal then Code
      else Remark
    case Str => Literal
    case Escape => Literal
    case Line => if c == '\n' then Code else Remark
    case _ => Remark
  }

  function Peek(s: string, next: Option<char>): Option<char> {
    if s == "" then next else Some(s[0])
  }

  /** Classification of `s`, entered in state `st` and followed by `next`. */
  function Kinds(s: string, st: State, next: Option<char>): (ks: seq<Kind>)
    ensures |ks| == |s|
  {
    if s == "" then [] else
    var p := Peek(s[1..], next);
    [KindOf(st, s[0], p)] + Kinds(s[1..], Next(st, s[0], p), next)
  }

  /** State after `s`. */
  function After(s: string, st: State, next: Option<char>): State {
    if s == "" then st else After(s[1..], Next(st, s[0], Peek(s[1..], next)), next)
  }

  /** Classification of a whole file. */
  function Lex(text: string): (ks: seq<Kind>)
    ensures |ks| == |text|
  {
    Kinds(text, Normal, None)
  }

  /** Lexing a concatenation is lexing the parts, the first with sight of the second. */
  lemma {:induction false} Compose(a: string, b: string, st: State, next: Option<char>)
    ensures Kinds(a + b, st, next)
         == Kinds(a, st, Peek(b, next)) + Kinds(b, After(a, st, Peek(b, next)), next)
    ensures After(a + b, st, next) == After(b, After(a, st, Peek(b, next)), next)
  {
    if a == "" {
      assert a + b == b;
    } else {
      hide Next, KindOf;
      assert (a + b)[1..] == a[1..] + b && (a + b)[0] == a[0];
      var rest := Next(st, a[0], Peek(a[1..] + b, next));
      Compose(a[1..], b, rest, next);
      PeekConcat(a[1..], b, next);
      Associate([KindOf(st, a[0], Peek(a[1..] + b, next))], Kinds(a[1..], rest, Peek(b, next)),
                Kinds(b, After(a[1..], rest, Peek(b, next)), next));
      hide Peek;
    }
  }

  lemma PeekConcat(a: string, b: string, next: Option<char>)
    ensures Peek(a + b, next) == Peek(a, Peek(b, next))
  {}

  lemma Associate<T>(a: seq<T>, b: seq<T>, c: seq<T>)
    ensures a + (b + c) == (a + b) + c
  {}

  predicate OpensMark(next: Option<char>) {
    next == Some('/') || next == Some('*')
  }

  /** What follows `s` matters only when its last character begins or ends a comment. */
  lemma {:induction false} LookaheadIrrelevant(s: string, st: State, x: Option<char>, y: Option<char>)
    requires !OpensMark(y)
    requires OpensMark(x) ==> s != "" && Kinds(s, st, x)[|s| - 1] != Remark
    ensures Kinds(s, st, x) == Kinds(s, st, y) && After(s, st, x) == After(s, st, y)
  {
    if |s| > 1 {
      var p := Peek(s[1..], x);
      assert p == Peek(s[1..], y);
      assert OpensMark(x) ==> Kinds(s, st, x)[|s| - 1] == Kinds(s[1..], Next(st, s[0], p), x)[|s| - 2];
      LookaheadIrrelevant(s[1..], Next(st, s[0], p), x, y);
    } else if |s| == 1 {
      assert s[1..] == "";
    }
  }

  // -- scan_structure ---------------------------------------------------------

  datatype Scan = Scan(lastCloser: Option<nat>, sigBeforeCloser: Option<nat>)

  predicate IsCloser(c: char) {
    c == ']' || c == '}'
  }

  predicate CloserAt(text: string, ks: seq<Kind>, k: nat)
    requires |ks| == |text| && k < |text|
  {
    ks[k] == Code && IsCloser(text[k])
  }

  /** Outside comments and, unless inside a string, not ASCII whitespace. */
  predicate SignificantAt(text: string, ks: seq<Kind>, k: nat)
    requires |ks| == |text| && k < |text|
  {
    ks[k] == Literal || (ks[k] == Code && !IsAsciiWhite(text[k]))
  }

  /** Position of the last structural closer before `n`. */
  function LastCloser(text: string, ks: seq<Kind>, n: nat): (r: Option<nat>)
    requires |ks| == |text| && n <= |text|
    ensures r.Some? ==> r.value < n
  {
    if n == 0 then None else if CloserAt(text, ks, n - 1) then Some(n - 1) else LastCloser(text, ks, n - 1)
  }

  lemma {:induction false} LastCloserSpec(text: string, ks: seq<Kind>, n: nat)
    requires |ks| == |text| && n <= |text|
    ensures var r := LastCloser(text, ks, n);
            (r.Some? ==> CloserAt(text, ks, r.value))
            && forall k: nat :: k < n && CloserAt(text, ks, k) ==> r.Some? && k <= r.value
  {
    if n > 0 {
      LastCloserSpec(text, ks, n - 1);
    }
  }

  /** Position of the last significant character before `n`. */
  function LastSignificant(text: string, ks: seq<Kind>, n: nat): (r: Option<nat>)
    requires |ks| == |text| && n <= |text|
    ensures r.Some? ==> r.value < n
  {
    if n == 0 then None else if SignificantAt(text, ks, n - 1) then Some(n - 1) else LastSignificant(text, ks, n - 1)
  }

  lemma {:induction false} LastSignificantSpec(text: string, ks: seq<Kind>, n: nat)
    requires |ks| == |text| && n <= |text|
    ensures var r := LastSignificant(text, ks, n);
            (r.Some? ==> SignificantAt(text, ks, r.value))
            && forall k: nat :: k < n && SignificantAt(text, ks, k) ==> r.Some? && k <= r.value
  {
    if n > 0 {
      LastSignificantSpec(text, ks, n - 1);
    }
  }

  /** The scan finds a structural closer and the last significant character before it, and misses none. */
  lemma StructureSpec(text: string)
    ensures var scan, ks := Structure(text), Lex(text);
            (scan.lastCloser.None? ==> forall k: nat :: k < |text| ==> !CloserAt(text, ks, k))
            && (scan.lastCloser.Some? ==>
                  CloserAt(text, ks, scan.lastCloser.value)
                  && (forall k: nat :: scan.lastCloser.value < k < |text| ==> !CloserAt(text, ks, k))
                  && (scan.sigBeforeCloser.Some? ==> SignificantAt(text, ks, scan.sigBeforeCloser.value))
                  && (forall k: nat :: k < scan.lastCloser.value && SignificantAt(text, ks, k)
                                       ==> scan.sigBeforeCloser.Some? && k <= scan.sigBeforeCloser.value))
  {
    var ks := Lex(text);
    LastCloserSpec(text, ks, |text|);
    if Structure(text).lastCloser.Some? {
      LastSignificantSpec(text, ks, Structure(text).lastCloser.value);
    }
  }

  /** The scan in characters: the last `]` or `}` in code, and the last character of a string or of code that is no
      space, tab, line feed, form feed or carriage return before it. */
  lemma StructureSpelledOut(text: string)
    ensures var scan, ks := Structure(text), Lex(text);
            (scan.lastCloser.None? ==> forall k: nat :: k < |text| && ks[k] == Code ==> text[k] != ']' && text[k] != '}')
            && (scan.lastCloser.Some? ==>
                  var c := scan.lastCloser.value;
                  ks[c] == Code && (text[c] == ']' || text[c] == '}')
                  && forall k: nat :: c < k < |text| && ks[k] == Code ==> text[k] != ']' && text[k] != '}')
    ensures var scan, ks := Structure(text), Lex(text);
            (scan.sigBeforeCloser.Some? ==>
               var i := scan.sigBeforeCloser.value;
               (ks[i] == Literal || (ks[i] == Code && text[i] !in " \t\n\U{0C}\r"))
               && forall k: nat :: i < k < scan.lastCloser.value && ks[k] != Remark ==>
                    ks[k] == Code && text[k] in " \t\n\U{0C}\r")
            && (scan.lastCloser.Some? && scan.sigBeforeCloser.None? ==>
                  forall k: nat :: k < scan.lastCloser.value && ks[k] != Remark ==>
                    ks[k] == Code && text[k] in " \t\n\U{0C}\r")
  {
    var scan, ks := Structure(text), Lex(text);
    StructureSpec(text);
    hide Structure, Lex, LastCloser, LastSignificant;
    forall k: nat | k < |text| && ks[k] != Remark && (ks[k] != Code || text[k] !in " \t\n\U{0C}\r")
      ensures SignificantAt(text, ks, k)
    {}
    forall k: nat | k < |text| && ks[k] == Code && (text[k] == ']' || text[k] == '}') ensures CloserAt(text, ks, k) {}
  }

  function Structure(text: string): (scan: Scan)
    ensures scan.lastCloser.Some? ==> scan.lastCloser.value < |text|
    ensures scan.sigBeforeCloser.Some? ==> scan.lastCloser.Some? && scan.sigBeforeCloser.value < scan.lastCloser.value
  {
    var ks := Lex(text);
    var closer := LastCloser(text, ks, |text|);
    Scan(closer, if closer.None? then None else LastSignificant(text, ks, closer.value))
  }

  // -- the same classification, by position -----------------------------------

  function PeekAt(text: string, i: nat): Option<char> {
    if i < |text| then Some(text[i]) else None
  }

  function StateAt(text: string, i: nat): State
    requires i <= |text|
  {
    if i == 0 then Normal else Next(StateAt(text, i - 1), text[i - 1], PeekAt(text, i))
  }

  lemma {:induction false} LexSuffix(text: string, i: nat)
    requires i <= |text|
    ensures Lex(text)[i..] == Kinds(text[i..], StateAt(text, i), None)
    ensures After(text, Normal, None) == After(text[i..], StateAt(text, i), None)
  {
    if i == 0 {
      assert text[0..] == text && Lex(text)[0..] == Lex(text);
    } else {
      LexSuffix(text, i - 1);
      assert text[i - 1..][1..] == text[i..] && Lex(text)[i - 1..][1..] == Lex(text)[i..];
    }
  }

  lemma LexAt(text: string, i: nat)
    requires i < |text|
    ensures Lex(text)[i] == KindOf(StateAt(text, i), text[i], PeekAt(text, i + 1))
  {
    LexSuffix(text, i);
    assert text[i..][1..] == text[i + 1..] && Lex(text)[i..][0] == Lex(text)[i];
  }

  /** The forward lexer with one mode and skipping of the second character of a pair. */
  method ScanStructure(text: string) returns (scan: Scan)
    ensures scan == Structure(text)
  {
    ghost var ks := Lex(text);
    var mode := Normal;
    var lastCloser: Option<nat> := None;
    var sigBeforeCloser: Option<nat> := None;
    var lastSig: Option<nat> := None;
    var i := 0;
    while i < |text|
      invariant i <= |text| + 1
      invariant mode in {Normal, Str, Line, Block}
      invariant i <= |text| ==> mode == StateAt(text, i)
      invariant i > |text| ==> mode == Str
      invariant lastCloser == LastCloser(text, ks, if i < |text| then i else |text|)
      invariant mode != Str ==> lastSig == LastSignificant(text, ks, i)
      invariant sigBeforeCloser == if lastCloser.None? then None else LastSignificant(text, ks, lastCloser.value)
    {
      var c := text[i];
      LexAt(text, i);
      if i + 1 < |text| {
        LexAt(text, i + 1);
      }
      match mode {
        case Normal =>
          if c == '"' {
            mode := Str;
            lastSig := Some(i);
          } else if c == '/' && i + 1 < |text| && text[i + 1] == '/' {
            mode := Line;
            i := i + 1;
          } else if c == '/' && i + 1 < |text| && text[i + 1] == '*' {
            mode := Block;
            i := i + 1;
          } else if c == ']' || c == '}' {
            lastCloser := Some(i);
            sigBeforeCloser := lastSig;
            lastSig := Some(i);
          } else if !IsAsciiWhite(c) {
            lastSig := Some(i);
          }
        case Str =>
          lastSig := Some(i);
          if c == '\\' {
            i := i + 1;  // skip the escaped character
          } else if c == '"' {
            mode := Normal;
          }
        case Line =>
          if c == '\n' {
            mode := Normal;
          }
        case Block =>
          if c == '*' && i + 1 < |text| && text[i + 1] == '/' {
            mode := Normal;
            i := i + 1;
          }
      }
      i := i + 1;
    }
    return Scan(lastCloser, sigBeforeCloser);
  }

  // -- strip_jsonc, pass 1: comments ------------------------------------------

  /** The characters of `s` that are not in a comment. */
  function Keep(s: string, ks: seq<Kind>): string
    requires |ks| == |s|
  {
    if s == "" then "" else (if ks[0] != Remark then [s[0]] else "") + Keep(s[1..], ks[1..])
  }

  function Uncommented(text: string): string {
    Keep(text, Lex(text))
  }

  function KeepTo(s: string, ks: seq<Kind>, n: nat): string
    requires |ks| == |s| && n <= |s|
  {
    if n == 0 then "" else KeepTo(s, ks, n - 1) + if ks[n - 1] != Remark then [s[n - 1]] else ""
  }

  lemma {:induction false} KeepSplit(s: string, ks: seq<Kind>, n: nat)
    requires |ks| == |s| && n <= |s|
    ensures Keep(s, ks) == KeepTo(s, ks, n) + Keep(s[n..], ks[n..])
  {
    if n == 0 {
      assert s[0..] == s && ks[0..] == ks;
    } else {
      KeepSplit(s, ks, n - 1);
      assert s[n - 1..][1..] == s[n..] && ks[n - 1..][1..] == ks[n..];
    }
  }

  /** The first loop of `strip_jsonc`, with its own string flag and inner comment loops. */
  method RemoveComments(text: string) returns (noComments: string)
    ensures noComments == Uncommented(text)
  {
    ghost var ks := Lex(text);
    noComments := "";
    var inStr := false;
    var i := 0;
    while i < |text|
      invariant i <= |text|
      invariant noComments == KeepTo(text, ks, i)
      invariant i < |text| ==> StateAt(text, i) == (if inStr then Str else Normal)
                               || (!inStr && StateAt(text, i) == Line && text[i] == '\n')
    {
      var c := text[i];
      LexAt(text, i);
      if i + 1 < |text| {
        LexAt(text, i + 1);
      }
      if inStr {
        noComments := noComments + [c];
        if c == '\\' && i + 1 < |text| {
          noComments := noComments + [text[i + 1]];
          i := i + 2;
          continue;
        }
        if c == '"' {
          inStr := false;
        }
        i := i + 1;
      } else if c == '"' {
        inStr := true;
        noComments := noComments + [c];
        i := i + 1;
      } else if c == '/' && i + 1 < |text| && text[i + 1] == '/' {
        i := SkipLine(text, ks, i);
      } else if c == '/' && i + 1 < |text| && text[i + 1] == '*' {
        i := SkipBlock(text, ks, i);
      } else {
        noComments := noComments + [c];
        i := i + 1;
      }
    }
    KeepSplit(text, ks, |text|);
  }

  /** The inner loop at `//`: up to, not including, the newline. */
  method SkipLine(text: string, ghost ks: seq<Kind>, start: nat) returns (i: nat)
    requires start + 1 < |text| && text[start] == '/' && text[start + 1] == '/'
    requires ks == Lex(text) && StateAt(text, start) == Normal
    ensures start < i <= |text| && KeepTo(text, ks, i) == KeepTo(text, ks, start)
    ensures i < |text| ==> StateAt(text, i) == Line && text[i] == '\n'
  {
    i := start;
    while i < |text| && text[i] != '\n'
      invariant start <= i <= |text| && KeepTo(text, ks, i) == KeepTo(text, ks, start)
      invariant StateAt(text, i) == if i == start then Normal else if i == start + 1 then OpenLine else Line
    {
      LexAt(text, i);
      i := i + 1;
    }
  }

  /** The inner loop at a block comment: past its end, or past the end of the text. */
  method SkipBlock(text: string, ghost ks: seq<Kind>, start: nat) returns (i: nat)
    requires start + 1 < |text| && text[start] == '/' && text[start + 1] == '*'
    requires ks == Lex(text) && StateAt(text, start) == Normal
    ensures start < i <= |text| && KeepTo(text, ks, i) == KeepTo(text, ks, start)
    ensures i < |text| ==> StateAt(text, i) == Normal
  {
    hide Lex;
    LexAt(text, start);
    LexAt(text, start + 1);
    i := start + 2;
    while i + 1 < |text| && !(text[i] == '*' && text[i + 1] == '/')
      invariant start + 2 <= i <= |text| && KeepTo(text, ks, i) == KeepTo(text, ks, start)
      invariant StateAt(text, i) == Block
    {
      LexAt(text, i);
      i := i + 1;
    }
    if i < |text| {
      LexAt(text, i);
    }
    if i + 1 < |text| {
      LexAt(text, i + 1);
    }
    i := if i + 2 < |text| then i + 2 else |text|;
  }
}
