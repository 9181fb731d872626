/** `strip_jsonc` (setup/jsonc.rs): removing comments, then commas before a closing bracket. */
module JsoncStrip {
  import opened Text
  import opened JsoncLexer

  // -- what pass 1 leaves -----------------------------------------------------

  predicate CommentFree(text: string) {
    Remark !in Lex(text)
  }

  function KeepKinds(ks: seq<Kind>): (r: seq<Kind>)
    ensures Remark !in r
  {
    if ks == [] then [] else (if ks[0] != Remark then [ks[0]] else []) + KeepKinds(ks[1..])
  }

  /** The state in which the kept characters are read back: comments have gone. */
  function Base(st: State): State {
    if st == Str || st == Escape then st else Normal
  }

  /** Characters inside string literals, quotes included. */
  function Literals(s: string, ks: seq<Kind>): string
    requires |ks| == |s|
  {
    if s == "" then "" else (if ks[0] == Literal then [s[0]] else "") + Literals(s[1..], ks[1..])
  }

  function Strings(text: string): string {
    Literals(text, Lex(text))
  }

  lemma KindsCons(c: char, s: string, st: State, next: Option<char>)
    ensures Kinds([c] + s, st, next)
         == [KindOf(st, c, Peek(s, next))] + Kinds(s, Next(st, c, Peek(s, next)), next)
  {
    assert ([c] + s)[1..] == s;
  }

  lemma LiteralsCons(c: char, s: string, k: Kind, ks: seq<Kind>)
    requires |ks| == |s|
    ensures Literals([c] + s, [k] + ks) == (if k == Literal then [c] else "") + Literals(s, ks)
    ensures Keep([c] + s, [k] + ks) == (if k != Remark then [c] else "") + Keep(s, ks)
    ensures KeepKinds([k] + ks) == (if k != Remark then [k] else []) + KeepKinds(ks)
  {
    assert ([c] + s)[1..] == s && ([k] + ks)[1..] == ks;
  }

  /** A kept character is classified the same when comments around it have gone. */
  lemma SameStep(st: State, c: char, p: Option<char>, q: Option<char>)
    requires KindOf(st, c, p) != Remark
    requires st == Normal && c == '/' ==> !OpensMark(q)
    ensures KindOf(Base(st), c, q) == KindOf(st, c, p)
    ensures Next(Base(st), c, q) == Base(Next(st, c, p))
  {}

  /** After a code slash the next character is kept, and is no comment mark. */
  lemma AfterCodeSlash(s: string)
    requires KindOf(Normal, '/', Peek(s, None)) == Code
    ensures !OpensMark(Peek(Keep(s, Kinds(s, Normal, None)), None))
  {}

  /** Removing comments never makes a new one: the kept characters keep their classification. */
  lemma {:induction false} UncommentedKinds(s: string, st: State)
    ensures var ks := Kinds(s, st, None);
            Kinds(Keep(s, ks), Base(st), None) == KeepKinds(ks)
            && Literals(Keep(s, ks), KeepKinds(ks)) == Literals(s, ks)
  {
    if s != "" {
      var c, tail := s[0], s[1..];
      var p := Peek(tail, None);
      var st', k := Next(st, c, p), KindOf(st, c, p);
      var ks := Kinds(tail, st', None);
      var rest := Keep(tail, ks);
      UncommentedKinds(tail, st');
      assert [c] + tail == s;
      LiteralsCons(c, tail, k, ks);
      if k != Remark {
        if st == Normal && c == '/' {
          AfterCodeSlash(tail);
        }
        SameStep(st, c, p, Peek(rest, None));
        KindsCons(c, rest, Base(st), None);
        LiteralsCons(c, rest, k, KeepKinds(ks));
      } else {
        assert Base(st) == Base(st');
        assert Keep(s, [k] + ks) == rest && KeepKinds([k] + ks) == KeepKinds(ks);
      }
    }
  }

  lemma {:induction false} KeepAll(s: string, ks: seq<Kind>)
    requires |ks| == |s| && Remark !in ks
    ensures Keep(s, ks) == s
  {
    if s != "" {
      KeepAll(s[1..], ks[1..]);
    }
  }

  /** Pass 1 is idempotent, its result has no comment, and every string survives it. */
  lemma UncommentedIdempotent(text: string)
    ensures CommentFree(Uncommented(text))
    ensures Uncommented(Uncommented(text)) == Uncommented(text)
    ensures Strings(Uncommented(text)) == Strings(text)
  {
    UncommentedKinds(text, Normal);
    KeepAll(Uncommented(text), Lex(Uncommented(text)));
  }

  // -- pass 2: trailing commas ------------------------------------------------

  /** After ASCII whitespace, a closing bracket. */
  predicate ClosesNext(s: string) {
    s != "" && (IsCloser(s[0]) || (IsAsciiWhite(s[0]) && ClosesNext(s[1..])))
  }

  /** `s`, entered in state `st`, without the commas that directly precede a closing bracket. */
  function DropCommas(s: string, st: State): string {
    if s == "" then "" else
    (if st == Normal && s[0] == ',' && ClosesNext(s[1..]) then "" else [s[0]])
    + DropCommas(s[1..], Next(st, s[0], Peek(s[1..], None)))
  }

  function Stripped(text: string): string {
    DropCommas(Uncommented(text), Normal)
  }

  predicate DropsAt(text: string, i: nat)
    requires i < |text|
  {
    StateAt(text, i) == Normal && text[i] == ',' && ClosesNext(text[i + 1..])
  }

  function DropTo(text: string, n: nat): string
    requires n <= |text|
  {
    if n == 0 then "" else DropTo(text, n - 1) + if DropsAt(text, n - 1) then "" else [text[n - 1]]
  }

  lemma {:induction false} DropSplit(text: string, n: nat)
    requires n <= |text|
    ensures DropCommas(text, Normal) == DropTo(text, n) + DropCommas(text[n..], StateAt(text, n))
  {
    if n == 0 {
      assert text[0..] == text;
    } else {
      hide DropCommas, StateAt, DropsAt;
      DropSplit(text, n - 1);
      DropAt(text, n - 1);
      var last := if DropsAt(text, n - 1) then "" else [text[n - 1]];
      assert DropTo(text, n - 1) + (last + DropCommas(text[n..], StateAt(text, n)))
          == DropTo(text, n - 1) + last + DropCommas(text[n..], StateAt(text, n));
    }
  }

  lemma DropAt(text: string, i: nat)
    requires i < |text|
    ensures DropCommas(text[i..], StateAt(text, i))
         == (if DropsAt(text, i) then "" else [text[i]]) + DropCommas(text[i + 1..], StateAt(text, i + 1))
  {
    hide Next, ClosesNext;
    assert text[i..][1..] == text[i + 1..];
  }

  // -- which commas go, written out -------------------------------------------

  /** A comma outside strings from which only spaces, tabs, line feeds, form feeds and carriage returns lead to a
      closing bracket or brace. */
  ghost predicate TrailingComma(text: string, i: nat) {
    && i < |text| && text[i] == ',' && Lex(text)[i] == Code
    && exists j :: i < j < |text| && (text[j] == ']' || text[j] == '}')
                   && forall k :: i < k < j ==> text[k] in " \t\n\U{0C}\r"
  }

  ghost function TrailingCommas(text: string): set<nat> {
    set i: nat | i < |text| && TrailingComma(text, i)
  }

  ghost function Comments(text: string): set<nat> {
    set i: nat | i < |text| && Lex(text)[i] == Remark
  }

  /** The text without the characters at some positions. */
  ghost function Sieve(text: string, gone: set<nat>): string {
    if text == "" then ""
    else Sieve(text[..|text| - 1], gone) + if |text| - 1 in gone then "" else [text[|text| - 1]]
  }

  lemma {:induction false} ClosesNextAt(s: string)
    ensures ClosesNext(s)
       <==> exists j :: 0 <= j < |s| && (s[j] == ']' || s[j] == '}')
                        && forall k :: 0 <= k < j ==> s[k] in " \t\n\U{0C}\r"
  {
    if s != "" && s[0] in " \t\n\U{0C}\r" {
      var rest := s[1..];
      ClosesNextAt(rest);
      if ClosesNext(rest) {
        var j :| 0 <= j < |rest| && (rest[j] == ']' || rest[j] == '}')
                 && forall k :: 0 <= k < j ==> rest[k] in " \t\n\U{0C}\r";
        assert s[j + 1] == rest[j];
        assert forall k :: 0 < k < j + 1 ==> s[k] == rest[k - 1];
      }
      forall j | 0 <= j < |s| && (s[j] == ']' || s[j] == '}')
                 && forall k :: 0 <= k < j ==> s[k] in " \t\n\U{0C}\r"
        ensures ClosesNext(rest)
      {
        assert rest[j - 1] == s[j];
        assert forall k :: 0 <= k < j - 1 ==> rest[k] == s[k + 1];
      }
    } else if s != "" && IsCloser(s[0]) {
      assert s[0] == ']' || s[0] == '}';
    }
  }

  lemma DropsTrailing(text: string, i: nat)
    requires CommentFree(text) && i < |text|
    ensures DropsAt(text, i) <==> TrailingComma(text, i)
  {
    LexAt(text, i);
    assert Lex(text)[i] in Lex(text);
    var s := text[i + 1..];
    ClosesNextAt(s);
    hide ClosesNext, StateAt, Lex;
    if ClosesNext(s) {
      var j :| 0 <= j < |s| && (s[j] == ']' || s[j] == '}')
               && forall k :: 0 <= k < j ==> s[k] in " \t\n\U{0C}\r";
      assert text[i + 1 + j] == s[j];
      assert forall k :: i < k < i + 1 + j ==> text[k] == s[k - i - 1];
    }
    forall j | i < j < |text| && (text[j] == ']' || text[j] == '}')
               && forall k :: i < k < j ==> text[k] in " \t\n\U{0C}\r"
      ensures ClosesNext(s)
    {
      assert s[j - i - 1] == text[j];
      assert forall k :: 0 <= k < j - i - 1 ==> s[k] == text[k + i + 1];
    }
  }

  lemma {:induction false} DroppedAre(text: string, n: nat)
    requires CommentFree(text) && n <= |text|
    ensures DropTo(text, n) == Sieve(text[..n], TrailingCommas(text))
  {
    if n > 0 {
      DroppedAre(text, n - 1);
      DropsTrailing(text, n - 1);
      assert text[..n][..n - 1] == text[..n - 1];
      hide DropsAt, TrailingComma, CommentFree;
    }
  }

  /** On text without comments exactly the trailing commas go. */
  lemma DropsExactly(text: string)
    requires CommentFree(text)
    ensures DropCommas(text, Normal) == Sieve(text, TrailingCommas(text))
  {
    hide DropCommas, TrailingCommas, Sieve, StateAt, CommentFree;
    DropSplit(text, |text|);
    DroppedAre(text, |text|);
    assert text[..|text|] == text && text[|text|..] == "";
    DropNothing(StateAt(text, |text|));
  }

  lemma DropNothing(st: State)
    ensures DropCommas("", st) == ""
  {}

  lemma {:induction false} KeptAre(s: string, ks: seq<Kind>, gone: set<nat>)
    requires |ks| == |s| && forall i: nat :: i < |s| ==> (i in gone <==> ks[i] == Remark)
    ensures Keep(s, ks) == Sieve(s, gone)
  {
    if s != "" {
      var n := |s| - 1;
      KeptAre(s[..n], ks[..n], gone);
      KeepSnoc(s, ks);
    }
  }

  lemma {:induction false} KeepSnoc(s: string, ks: seq<Kind>)
    requires |ks| == |s| > 0
    ensures Keep(s, ks) == Keep(s[..|s| - 1], ks[..|s| - 1]) + if ks[|s| - 1] == Remark then "" else [s[|s| - 1]]
  {
    if |s| > 1 {
      KeepSnoc(s[1..], ks[1..]);
      assert s[1..][..|s| - 2] == s[..|s| - 1][1..] && ks[1..][..|s| - 2] == ks[..|s| - 1][1..];
    }
  }

  /** Stripping drops exactly the comments, then exactly the trailing commas of what is left. */
  lemma StripsExactly(text: string)
    ensures Uncommented(text) == Sieve(text, Comments(text))
    ensures Stripped(text) == Sieve(Uncommented(text), TrailingCommas(Uncommented(text)))
  {
    KeptAre(text, Lex(text), Comments(text));
    UncommentedIdempotent(text);
    DropsExactly(Uncommented(text));
  }

  /** The inner loop at a comma: skip whitespace, look at what follows. */
  method SeesCloser(text: string, start: nat) returns (b: bool)
    requires start <= |text|
    ensures b == ClosesNext(text[start..])
  {
    var j := start;
    while j < |text| && IsAsciiWhite(text[j])
      invariant start <= j <= |text|
      invariant ClosesNext(text[start..]) == ClosesNext(text[j..])
    {
      assert text[j..][1..] == text[j + 1..];
      j := j + 1;
    }
    b := j < |text| && (text[j] == ']' || text[j] == '}');
  }

  /** The second loop of `strip_jsonc`, run on what pass 1 leaves. */
  method RemoveTrailingCommas(text: string) returns (out: string)
    requires CommentFree(text)
    ensures out == DropCommas(text, Normal)
    ensures out == Sieve(text, TrailingCommas(text))
  {
    DropsExactly(text);
    out := "";
    var inStr := false;
    var i := 0;
    while i < |text|
      invariant i <= |text|
      invariant i < |text| ==> StateAt(text, i) == if inStr then Str else Normal
      invariant out == DropTo(text, i)
    {
      var c := text[i];
      LexAt(text, i);
      assert Lex(text)[i] in Lex(text);
      if inStr {
        out := out + [c];
        if c == '\\' && i + 1 < |text| {
          out := out + [text[i + 1]];
          i := i + 2;
          continue;
        }
        if c == '"' {
          inStr := false;
        }
      } else if c == '"' {
        inStr := true;
        out := out + [c];
      } else if c == ',' {
        var trailing := SeesCloser(text, i + 1);
        if !trailing {
          out := out + [c];
        }
      } else {
        out := out + [c];
      }
      i := i + 1;
    }
    DropSplit(text, |text|);
  }

  /** `strip_jsonc`. */
  method StripJsonc(text: string) returns (out: string)
    ensures out == Stripped(text)
    ensures var left := Sieve(text, Comments(text)); out == Sieve(left, TrailingCommas(left))
  {
    StripsExactly(text);
    var noComments := RemoveComments(text);
    UncommentedIdempotent(text);
    out := RemoveTrailingCommas(noComments);
  }

  /** Before a closing bracket nothing is dropped from the front, so no comment can begin there. */
  lemma DropKeepsHead(s: string)
    requires ClosesNext(s)
    ensures DropCommas(s, Normal) != "" && DropCommas(s, Normal)[0] == s[0] != '/' && s[0] != '*'
  {}

  /** The character before dropped commas sees either the same successor or no comment mark. */
  lemma DropStepKind(c: char, tail: string, st: State)
    requires KindOf(st, c, Peek(tail, None)) != Remark
    ensures var q := Peek(DropCommas(tail, Next(st, c, Peek(tail, None))), None);
            KindOf(st, c, q) == KindOf(st, c, Peek(tail, None)) && Next(st, c, q) == Next(st, c, Peek(tail, None))
  {
    if st == Normal && c == '/' && tail != "" && tail[0] == ',' && ClosesNext(tail[1..]) {
      DropKeepsHead(tail[1..]);
    }
  }

  lemma {:induction false} DropKinds(s: string, st: State)
    requires Remark !in Kinds(s, st, None)
    ensures var d := DropCommas(s, st);
            Remark !in Kinds(d, st, None)
            && Literals(d, Kinds(d, st, None)) == Literals(s, Kinds(s, st, None))
  {
    if s != "" {
      var c, tail := s[0], s[1..];
      var p := Peek(tail, None);
      var st', k := Next(st, c, p), KindOf(st, c, p);
      var rest := DropCommas(tail, st');
      assert [c] + tail == s;
      assert Kinds(s, st, None)[0] in Kinds(s, st, None);
      assert forall j :: j in Kinds(tail, st', None) ==> j in Kinds(s, st, None);
      DropKinds(tail, st');
      LiteralsCons(c, tail, k, Kinds(tail, st', None));
      if !(st == Normal && c == ',' && ClosesNext(tail)) {
        DropStepKind(c, tail, st);
        KindsCons(c, rest, st, None);
        LiteralsCons(c, rest, k, Kinds(rest, st', None));
      } else {
        assert DropCommas(s, st) == rest;
      }
    }
  }

  /** Stripping leaves no comment and every string literal as it was, quote marks, escapes and all. */
  lemma StringsSurvive(text: string)
    ensures Strings(Stripped(text)) == Strings(text)
    ensures CommentFree(Stripped(text))
  {
    UncommentedIdempotent(text);
    DropKinds(Uncommented(text), Normal);
  }

  // -- stripping twice --------------------------------------------------------

  predicate CommaThenCloses(s: string) {
    s != "" && ((s[0] == ',' && ClosesNext(s[1..])) || (IsAsciiWhite(s[0]) && CommaThenCloses(s[1..])))
  }

  /** Some comma outside strings is followed, over whitespace, by another that precedes a closing bracket. */
  predicate DoubledComma(s: string, st: State) {
    s != "" &&
    ((st == Normal && s[0] == ',' && CommaThenCloses(s[1..]))
     || DoubledComma(s[1..], Next(st, s[0], Peek(s[1..], None))))
  }

  /** After dropping, a closing bracket comes next exactly if it did, or did after one comma. */
  lemma {:induction false} ClosesNextAfterDrop(s: string)
    requires Remark !in Kinds(s, Normal, None)
    ensures ClosesNext(DropCommas(s, Normal)) <==> ClosesNext(s) || CommaThenCloses(s)
  {
    if s != "" {
      var rest := s[1..];
      if IsAsciiWhite(s[0]) {
        assert DropCommas(s, Normal)[1..] == DropCommas(rest, Normal);
        assert forall k :: k in Kinds(rest, Normal, None) ==> k in Kinds(s, Normal, None);
        ClosesNextAfterDrop(rest);
      } else if s[0] == ',' && ClosesNext(rest) {
        assert DropCommas(s, Normal) == DropCommas(rest, Normal);
        assert forall k :: k in Kinds(rest, Normal, None) ==> k in Kinds(s, Normal, None);
        ClosesNextAfterDrop(rest);
      } else {
        assert DropCommas(s, Normal)[0] == s[0];
      }
    }
  }

  lemma DropCons(c: char, s: string, st: State)
    ensures DropCommas([c] + s, st)
         == (if st == Normal && c == ',' && ClosesNext(s) then "" else [c])
            + DropCommas(s, Next(st, c, Peek(s, None)))
  {
    assert ([c] + s)[1..] == s;
  }

  lemma {:induction false} DropTwice(s: string, st: State)
    requires Remark !in Kinds(s, st, None)
    ensures |DropCommas(DropCommas(s, st), st)| <= |DropCommas(s, st)|
    ensures DropCommas(DropCommas(s, st), st) == DropCommas(s, st) <==> !DoubledComma(s, st)
  {
    if s != "" {
      var c, tail := s[0], s[1..];
      var st' := Next(st, c, Peek(tail, None));
      var rest := DropCommas(tail, st');
      assert [c] + tail == s;
      assert Kinds(s, st, None)[0] in Kinds(s, st, None);
      assert forall j :: j in Kinds(tail, st', None) ==> j in Kinds(s, st, None);
      DropTwice(tail, st');
      if st == Normal && c == ',' {
        ClosesNextAfterDrop(tail);
      }
      if st == Normal && c == ',' && ClosesNext(tail) {
        assert DropCommas(s, st) == rest;
        ClosesNextNotComma(tail);
      } else {
        DropStepKind(c, tail, st);
        DropCons(c, rest, st);
        var again := DropCommas(rest, st');
        assert ([c] + rest)[1..] == rest && ([c] + again)[1..] == again;
      }
    }
  }

  lemma {:induction false} ClosesNextNotComma(s: string)
    requires ClosesNext(s)
    ensures !CommaThenCloses(s)
  {
    if !IsCloser(s[0]) {
      ClosesNextNotComma(s[1..]);
    }
  }

  /** Stripping is not idempotent in general; it is exactly on files without a doubled trailing comma. */
  lemma StripTwiceIff(text: string)
    ensures Stripped(Stripped(text)) == Stripped(text) <==> !DoubledComma(Uncommented(text), Normal)
  {
    UncommentedIdempotent(text);
    DropKinds(Uncommented(text), Normal);
    DropTwice(Uncommented(text), Normal);
    KeepAll(Stripped(text), Lex(Stripped(text)));
  }

  lemma StripTwiceFails()
    ensures Stripped("[,,]") == "[,]" && Stripped("[,]") == "[]"
  {
    var t := "[,,]";
    assert t[1..] == ",,]" && ",,]"[1..] == ",]" && ",]"[1..] == "]" && "]"[1..] == "";
    var u := "[,]";
    assert u[1..] == ",]";
    assert Lex(t) == [Code, Code, Code, Code];
    assert Lex(u) == [Code, Code, Code];
    KeepAll(t, Lex(t));
    KeepAll(u, Lex(u));
    assert ClosesNext("]") && ClosesNext(",]") == false;
    assert DropCommas("]", Normal) == "]";
    assert DropCommas(",]", Normal) == "]";
    assert DropCommas(",,]", Normal) == ",]";
  }
}
