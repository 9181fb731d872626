/** `insert_before_final_closer` and `render_region` (setup/jsonc.rs): splicing a marker region into a file. */
module JsoncSplice {
  import opened Text
  import opened JsoncLexer

  // -- the region -------------------------------------------------------------

  function StartMarker(id: string): string {
    "//" + (" >>> zedxcode:" + id + " >>>")
  }

  function EndMarker(id: string): string {
    "//" + (" <<< zedxcode:" + id + " <<<")
  }

  /** `trim_end_matches('\n')`. */
  function TrimNewlines(s: string): (r: string)
    ensures r <= s
    ensures r != "" ==> r[|r| - 1] != '\n'
  {
    if s != "" && s[|s| - 1] == '\n' then TrimNewlines(s[..|s| - 1]) else s
  }

  function RenderRegion(id: string, block: string): string {
    "  " + StartMarker(id) + "\n" + TrimNewlines(block) + "\n" + "  " + EndMarker(id)
  }

  // -- insertion --------------------------------------------------------------

  /** Start of the line that position `n` is on: just after the last newline before it. */
  function LineStart(text: string, n: nat): (r: nat)
    requires n <= |text|
    ensures r <= n && (r == 0 || text[r - 1] == '\n')
    ensures forall k :: r <= k < n ==> text[k] != '\n'
  {
    if n == 0 || text[n - 1] == '\n' then n else LineStart(text, n - 1)
  }

  predicate OwnLine(text: string, closer: nat)
    requires closer <= |text|
  {
    AllWhite(text[LineStart(text, closer)..closer])
  }

  predicate NeedsComma(text: string, sig: Option<nat>)
    requires sig.Some? ==> sig.value < |text|
  {
    sig.Some? && text[sig.value] != ',' && text[sig.value] != '[' && text[sig.value] != '{'
  }

  function InsertAt(text: string, closer: nat): (at: nat)
    requires closer <= |text|
    ensures at <= closer
  {
    if OwnLine(text, closer) then LineStart(text, closer) else closer
  }

  function BlockText(ownLine: bool, rendered: string): string {
    if ownLine then rendered + "\n" else "\n" + rendered + "\n"
  }

  function InsertSeq<T>(s: seq<T>, at: nat, x: seq<T>): (r: seq<T>)
    requires at <= |s|
    ensures |r| == |s| + |x|
  {
    s[..at] + x + s[at..]
  }

  /** `String::insert_str`. */
  function InsertStr(s: string, at: nat, x: string): string
    requires at <= |s|
  {
    InsertSeq(s, at, x)
  }

  /** The file after insertion; `None` when it has no structural closing bracket. */
  function Inserted(text: string, rendered: string): Option<string> {
    var scan := Structure(text);
    if scan.lastCloser.None? then None else
    var closer := scan.lastCloser.value;
    var x := BlockText(OwnLine(text, closer), rendered);
    Some(if NeedsComma(text, scan.sigBeforeCloser)
         then InsertStr(InsertStr(text, scan.sigBeforeCloser.value + 1, ","), InsertAt(text, closer) + 1, x)
         else InsertStr(text, InsertAt(text, closer), x))
  }

  /** `rfind('\n')` on the text before the closing bracket, plus one. */
  method FindLineStart(text: string, closer: nat) returns (lineStart: nat)
    requires closer <= |text|
    ensures lineStart == LineStart(text, closer)
  {
    lineStart := closer;
    while lineStart > 0 && text[lineStart - 1] != '\n'
      invariant lineStart <= closer
      invariant LineStart(text, lineStart) == LineStart(text, closer)
    {
      lineStart := lineStart - 1;
    }
  }

  method InsertBeforeFinalCloser(text: string, rendered: string) returns (r: Option<string>)
    ensures r == Inserted(text, rendered)
  {
    hide Structure, OwnLine, InsertAt, InsertSeq;
    var scan := ScanStructure(text);
    if scan.lastCloser.None? {
      return None;
    }
    var closer := scan.lastCloser.value;
    var needComma := match scan.sigBeforeCloser
      case None => false
      case Some(i) => !(text[i] == ',' || text[i] == '[' || text[i] == '{');
    var insertAt, onlyWsBefore := PlaceBlock(text, closer);
    var blockText := if onlyWsBefore then rendered + "\n" else "\n" + rendered + "\n";
    var out := text;
    if needComma {
      out := InsertStr(out, scan.sigBeforeCloser.value + 1, ",");
      insertAt := insertAt + 1;
    }
    return Some(InsertStr(out, insertAt, blockText));
  }

  method PlaceBlock(text: string, closer: nat) returns (insertAt: nat, onlyWsBefore: bool)
    requires closer <= |text|
    ensures onlyWsBefore == OwnLine(text, closer) && insertAt == InsertAt(text, closer)
  {
    var lineStart := FindLineStart(text, closer);
    TrimEmpty(text[lineStart..closer]);
    onlyWsBefore := Trim(text[lineStart..closer]) == "";
    insertAt := if onlyWsBefore then lineStart else closer;
  }

  lemma {:induction false} TrimEmpty(s: string)
    ensures Trim(s) == "" <==> AllWhite(s)
  {
    if s != "" && IsWhite(s[0]) {
      TrimEmpty(s[1..]);
      assert forall k :: 0 < k < |s| ==> s[k] == s[1..][k - 1];
    } else if s != "" {
      TrimEndKeeps(s);
    }
  }

  lemma {:induction false} TrimEndKeeps(s: string)
    requires s != "" && !IsWhite(s[0])
    ensures TrimEnd(s) != ""
  {
    if IsWhite(s[|s| - 1]) {
      TrimEndKeeps(s[..|s| - 1]);
    }
  }

  /** The insertion, spelled out: the block goes in front of the bracket's line if only whitespace stands before the
      bracket there, else before the bracket on lines of its own; a comma goes behind the last significant character
      unless there is none or it is a comma or an opening bracket. */
  lemma InsertionSpelledOut(text: string, rendered: string) returns (at: nat, x: string)
    requires Structure(text).lastCloser.Some?
    ensures var closer := Structure(text).lastCloser.value;
            exists ls: nat :: ls <= closer && (ls == 0 || text[ls - 1] == '\n')
                              && (forall k :: ls <= k < closer ==> text[k] != '\n')
                              && at == (if AllWhite(text[ls..closer]) then ls else closer)
                              && x == if AllWhite(text[ls..closer]) then rendered + "\n" else "\n" + rendered + "\n"
    ensures var sig := Structure(text).sigBeforeCloser;
            at <= |text|
            && (sig.None? || text[sig.value] in ",[{" ==> Inserted(text, rendered) == Some(text[..at] + x + text[at..]))
            && (sig.Some? && text[sig.value] !in ",[{" && sig.value < at ==>
                  Inserted(text, rendered)
                  == Some(text[..sig.value + 1] + "," + text[sig.value + 1..at] + x + text[at..]))
            && (sig.Some? && text[sig.value] !in ",[{" && at <= sig.value ==>
                  Inserted(text, rendered)
                  == Some(text[..at + 1] + x + text[at + 1..sig.value + 1] + "," + text[sig.value + 1..]))
  {
    hide Structure, InsertSeq, AllWhite;
    var closer, sig := Structure(text).lastCloser.value, Structure(text).sigBeforeCloser;
    at := InsertAt(text, closer);
    x := BlockText(OwnLine(text, closer), rendered);
    InsertOnce(text, at, x);
    if NeedsComma(text, sig) {
      CommaThenBlock(text, sig.value + 1, at, x);
    }
  }

  lemma InsertOnce(text: string, at: nat, x: string)
    requires at <= |text|
    ensures InsertStr(text, at, x) == text[..at] + x + text[at..]
  {}

  lemma CommaThenBlock(text: string, c: nat, at: nat, x: string)
    requires c <= |text| && at <= |text|
    ensures c <= at ==>
              InsertStr(InsertStr(text, c, ","), at + 1, x) == text[..c] + "," + text[c..at] + x + text[at..]
    ensures at < c ==>
              InsertStr(InsertStr(text, c, ","), at + 1, x) == text[..at + 1] + x + text[at + 1..c] + "," + text[c..]
  {
    var mid := InsertStr(text, c, ",");
    InsertOnce(text, c, ",");
    InsertOnce(mid, at + 1, x);
    hide InsertSeq;
    if c <= at {
      assert mid[..at + 1] == text[..c] + "," + text[c..at] && mid[at + 1..] == text[at..];
    } else {
      assert mid[..at + 1] == text[..at + 1] && mid[at + 1..] == text[at + 1..c] + "," + text[c..];
      Grouped(text[..at + 1] + x, text[at + 1..c], ",", text[c..]);
    }
  }

  lemma Grouped(a: string, b: string, c: string, d: string)
    ensures a + (b + c + d) == a + b + c + d
  {}

  // -- states around the closing bracket --------------------------------------

  lemma {:induction false} StateIsAfter(text: string, n: nat)
    requires n <= |text|
    ensures StateAt(text, n) == After(text[..n], Normal, Peek(text[n..], None))
  {
    if n > 0 {
      StateIsAfter(text, n - 1);
      var a, c := text[..n - 1], text[n - 1..n];
      assert text[..n] == a + c && text[n - 1..] == c + text[n..];
      Compose(a, c, Normal, Peek(text[n..], None));
      assert c[1..] == "";
    }
  }

  predicate Closed(x: string) {
    x != "" && After(x, Normal, None) == Normal && !OpensMark(Some(x[0])) && !OpensMark(Some(x[|x| - 1]))
  }

  /** Inserting a lexically closed `x`, free of comment marks at both ends, leaves the rest lexed as it was. */
  lemma InsertLex(text: string, n: nat, x: string)
    requires n <= |text| && StateAt(text, n) == Normal && Closed(x)
    ensures Lex(InsertStr(text, n, x)) == InsertSeq(Lex(text), n, Lex(x))
    ensures After(text[..n] + x, Normal, Peek(text[n..], None)) == Normal
  {
    var a, b := text[..n], text[n..];
    var p, q := Peek(b, None), Some(x[0]);
    assert text == a + b && InsertStr(text, n, x) == a + (x + b);
    StateIsAfter(text, n);
    Compose(a, b, Normal, None);
    Compose(a, x + b, Normal, None);
    Compose(x, b, Normal, None);
    Compose(a, x, Normal, p);
    SeamLookahead(a, Normal, p, q);
    CloseLookahead(x, Normal, p);
  }

  lemma InsertState(text: string, n: nat, x: string, m: nat)
    requires n <= m <= |text| && StateAt(text, n) == Normal && Closed(x)
    ensures StateAt(InsertStr(text, n, x), m + |x|) == StateAt(text, m)
  {
    InsertLex(text, n, x);
    StatesAgree(text, InsertStr(text, n, x), n, m, x);
  }

  lemma {:induction false} StatesAgree(text: string, out: string, n: nat, m: nat, x: string)
    requires n <= m <= |text| && out == InsertStr(text, n, x)
    requires StateAt(text, n) == Normal
    requires After(text[..n] + x, Normal, Peek(text[n..], None)) == Normal
    ensures StateAt(out, m + |x|) == StateAt(text, m)
  {
    if m == n {
      assert out[..n + |x|] == text[..n] + x && out[n + |x|..] == text[n..];
      StateIsAfter(out, n + |x|);
    } else {
      StatesAgree(text, out, n, m - 1, x);
    }
  }

  /** A prefix that ends in the normal state is lexed alike before anything but a comment mark. */
  lemma {:induction false} SeamLookahead(a: string, st: State, p: Option<char>, q: Option<char>)
    requires After(a, st, p) == Normal && !OpensMark(q)
    ensures Kinds(a, st, q) == Kinds(a, st, p) && After(a, st, q) == Normal
  {
    if a != "" {
      SeamLookahead(a[1..], Next(st, a[0], Peek(a[1..], p)), p, q);
    }
  }

  /** A text whose last character is no comment mark, or that ends the file, is lexed alike before anything. */
  lemma {:induction false} CloseLookahead(x: string, st: State, p: Option<char>)
    requires x != "" && (!OpensMark(p) || !OpensMark(Some(x[|x| - 1])))
    ensures Kinds(x, st, p) == Kinds(x, st, None) && After(x, st, p) == After(x, st, None)
  {
    if |x| > 1 {
      CloseLookahead(x[1..], Next(st, x[0], Peek(x[1..], p)), p);
    } else {
      assert x[1..] == "";
    }
  }

  // -- the splice theorem -----------------------------------------------------

  /** The block neither opens a comment nor a string that it does not close (a line comment closes with the line). */
  predicate LexClosed(block: string) {
    After(TrimNewlines(block) + "\n", Normal, None) == Normal
  }

  predicate OneLine(id: string) {
    forall k :: 0 <= k < |id| ==> id[k] != '\n'
  }

  /** Where the comma goes, or would go if one were needed, and where the block goes, in the original text. */
  function CommaPoint(text: string): (c: nat)
    requires Structure(text).lastCloser.Some?
  {
    var scan := Structure(text);
    if NeedsComma(text, scan.sigBeforeCloser) then scan.sigBeforeCloser.value + 1 else BlockPoint(text)
  }

  function BlockPoint(text: string): (at: nat)
    requires Structure(text).lastCloser.Some?
    ensures at <= Structure(text).lastCloser.value <= |text|
  {
    InsertAt(text, Structure(text).lastCloser.value)
  }

  /** The comma goes before the block. Fails only when the last significant character is itself whitespace to
      `trim` but not to the lexer, and shares the closing bracket's line. */
  predicate CommaFirst(text: string)
    requires Structure(text).lastCloser.Some?
  {
    CommaPoint(text) <= BlockPoint(text)
  }

  function CommaText(text: string): string
    requires Structure(text).lastCloser.Some?
  {
    if NeedsComma(text, Structure(text).sigBeforeCloser) then "," else ""
  }

  function Inlay(text: string, rendered: string): string
    requires Structure(text).lastCloser.Some?
  {
    BlockText(OwnLine(text, Structure(text).lastCloser.value), rendered)
  }

  /** A line comment on a line of its own. */
  lemma {:induction false} LineComment(s: string, st: State, rest: string)
    requires st == Line && OneLine(s)
    ensures After(s + "\n" + rest, st, None) == After(rest, Normal, None)
  {
    if s == "" {
      assert (s + "\n" + rest)[1..] == rest;
    } else {
      assert (s + "\n" + rest)[1..] == s[1..] + "\n" + rest;
      LineComment(s[1..], st, rest);
    }
  }

  lemma Indent(rest: string)
    ensures After("  //" + rest, Normal, None) == After(rest, Line, None)
  {
    var two, one := "//" + rest, "/" + rest;
    assert ("  //" + rest)[1..] == " //" + rest && (" //" + rest)[1..] == two;
    assert two[1..] == one && one[1..] == rest;
    assert After(one, OpenLine, None) == After(rest, Line, None);
    assert After(two, Normal, None) == After(one, OpenLine, None);
    assert After(" //" + rest, Normal, None) == After(two, Normal, None);
  }

  lemma MarkerLine(body: string, rest: string)
    requires OneLine(body)
    ensures After("  " + ("//" + body) + "\n" + rest, Normal, None) == After(rest, Normal, None)
  {
    assert "  " + ("//" + body) + "\n" + rest == "  //" + (body + "\n" + rest);
    Indent(body + "\n" + rest);
    LineComment(body, Line, rest);
  }

  lemma MarkerLines(start: string, block: string, end: string)
    requires OneLine(start) && OneLine(end) && LexClosed(block)
    ensures var x := "  " + ("//" + start) + "\n" + TrimNewlines(block) + "\n" + "  " + ("//" + end) + "\n";
            After(x, Normal, None) == Normal && After("\n" + x, Normal, None) == Normal
  {
    var b := TrimNewlines(block) + "\n";
    var last := "  " + ("//" + end) + "\n";
    var x := "  " + ("//" + start) + "\n" + TrimNewlines(block) + "\n" + "  " + ("//" + end) + "\n";
    assert x == "  " + ("//" + start) + "\n" + (b + last);
    assert last == last + "";
    MarkerLine(start, b + last);
    MarkerLine(end, "");
    Compose(b, last, Normal, None);
    CloseLookahead(b, Normal, Peek(last, None));
    assert ("\n" + x)[1..] == x;
  }

  lemma RegionClosed(id: string, block: string)
    requires OneLine(id) && LexClosed(block)
    ensures After(RenderRegion(id, block) + "\n", Normal, None) == Normal
    ensures After("\n" + RenderRegion(id, block) + "\n", Normal, None) == Normal
  {
    var start, end := " >>> zedxcode:" + id + " >>>", " <<< zedxcode:" + id + " <<<";
    MarkerLines(start, block, end);
    var x := RenderRegion(id, block);
    assert "\n" + x + "\n" == "\n" + (x + "\n");
  }

  lemma InlayClosed(text: string, id: string, block: string)
    requires Structure(text).lastCloser.Some? && OneLine(id) && LexClosed(block)
    ensures Closed(Inlay(text, RenderRegion(id, block)))
  {
    RegionClosed(id, block);
  }

  /** The state is normal right after a significant character with nothing significant up to the closer. */
  lemma AfterSignificant(text: string)
    requires Structure(text).lastCloser.Some? && Structure(text).sigBeforeCloser.Some?
    ensures StateAt(text, Structure(text).sigBeforeCloser.value + 1) == Normal
  {
    var scan, ks := Structure(text), Lex(text);
    var sig := scan.sigBeforeCloser.value;
    StructureSpec(text);
    LexAt(text, sig);
    LexAt(text, sig + 1);
    assert sig + 1 < scan.lastCloser.value ==> !SignificantAt(text, ks, sig + 1);
  }

  /** Going back over whitespace within a line from a normal state meets only normal states. */
  lemma {:induction false} NormalBackwards(text: string, lo: nat, hi: nat)
    requires lo <= hi <= |text| && StateAt(text, hi) == Normal
    requires forall k :: lo <= k < hi ==> IsWhite(text[k]) && text[k] != '\n'
    ensures StateAt(text, lo) == Normal
    decreases hi
  {
    if lo < hi {
      assert IsWhite(text[hi - 1]);
      NormalBackwards(text, lo, hi - 1);
    }
  }

  /** The block goes where the lexer is outside every string and comment. */
  lemma BlockPointNormal(text: string)
    requires Structure(text).lastCloser.Some?
    ensures StateAt(text, BlockPoint(text)) == Normal
    ensures Peek(text[BlockPoint(text)..], None).Some? && !OpensMark(Peek(text[BlockPoint(text)..], None))
  {
    var closer := Structure(text).lastCloser.value;
    StructureSpec(text);
    LexAt(text, closer);
    if OwnLine(text, closer) {
      var start := LineStart(text, closer);
      assert forall k :: start <= k < closer ==> text[k] == text[start..closer][k - start];
      NormalBackwards(text, start, closer);
    }
    PeekFrom(text, BlockPoint(text));
    hide Structure, StateAt, LineStart;
  }

  lemma PeekFrom(text: string, at: nat)
    requires at < |text|
    ensures Peek(text[at..], None) == Some(text[at])
  {}

  /** `s` with `y` put in at `c` and `x` at `at`. */
  function InsertBoth<T>(s: seq<T>, c: nat, at: nat, y: seq<T>, x: seq<T>): (r: seq<T>)
    requires c <= at <= |s|
    ensures |r| == |s| + |y| + |x|
  {
    s[..c] + y + s[c..at] + x + s[at..]
  }

  lemma InsertTwice<T>(s: seq<T>, c: nat, at: nat, y: seq<T>, x: seq<T>)
    requires c <= at <= |s|
    ensures InsertSeq(InsertSeq(s, c, y), at + |y|, x) == InsertBoth(s, c, at, y, x)
  {
    var mid := InsertSeq(s, c, y);
    assert mid[..at + |y|] == s[..c] + y + s[c..at] && mid[at + |y|..] == s[at..];
  }

  lemma CommaAlone()
    ensures Lex(",") == [Code] && After(",", Normal, None) == Normal
  {
    assert ","[1..] == "";
  }

  /** Lexing after both insertions, the comma first. */
  lemma InsertLexTwice(text: string, c: nat, at: nat, x: string)
    requires c <= at <= |text| && StateAt(text, c) == Normal && StateAt(text, at) == Normal && Closed(x)
    ensures InsertStr(InsertStr(text, c, ","), at + 1, x) == InsertBoth(text, c, at, ",", x)
    ensures Lex(InsertBoth(text, c, at, ",", x)) == InsertBoth(Lex(text), c, at, [Code], Lex(x))
  {
    hide Lex, StateAt, After;
    var mid := InsertStr(text, c, ",");
    CommaAlone();
    InsertLex(text, c, ",");
    InsertState(text, c, ",", at);
    InsertLex(mid, at + 1, x);
    InsertTwice(text, c, at, ",", x);
    InsertTwice(Lex(text), c, at, [Code], Lex(x));
  }

  lemma InsertedForms(text: string, rendered: string)
    requires Structure(text).lastCloser.Some?
    ensures var c, at, x := CommaPoint(text), BlockPoint(text), Inlay(text, rendered);
            Inserted(text, rendered) == Some(if CommaText(text) == "" then InsertStr(text, at, x)
                                             else InsertStr(InsertStr(text, c, ","), at + 1, x))
  {
    hide Structure, InsertStr, InsertAt, BlockText, OwnLine;
  }

  /** The splice theorem: the merged file is the original with at most one comma and the region put in, at a
      point outside every string and comment, and every character of both is classified as it was alone. */
  lemma SpliceTheorem(text: string, id: string, block: string)
    requires Structure(text).lastCloser.Some? && OneLine(id) && LexClosed(block) && CommaFirst(text)
    ensures var region := RenderRegion(id, block);
            var c, at, x, comma := CommaPoint(text), BlockPoint(text), Inlay(text, region), CommaText(text);
            StateAt(text, at) == Normal
            && Inserted(text, region) == Some(InsertBoth(text, c, at, comma, x))
            && Lex(InsertBoth(text, c, at, comma, x)) == InsertBoth(Lex(text), c, at, Lex(comma), Lex(x))
  {
    hide Lex, InsertBoth, InsertSeq, RenderRegion, LexClosed, OwnLine, LastCloser, LastSignificant;
    BlockPointNormal(text);
    InlayClosed(text, id, block);
    InsertedForms(text, RenderRegion(id, block));
    CommaAlone();
    if CommaText(text) == "" {
      SpliceAt(text, BlockPoint(text), Inlay(text, RenderRegion(id, block)));
    } else {
      AfterSignificant(text);
      InsertLexTwice(text, CommaPoint(text), BlockPoint(text), Inlay(text, RenderRegion(id, block)));
    }
  }

  lemma SpliceAt(text: string, at: nat, x: string)
    requires at <= |text| && StateAt(text, at) == Normal && Closed(x)
    ensures InsertStr(text, at, x) == InsertBoth(text, at, at, "", x)
    ensures Lex(InsertBoth(text, at, at, "", x)) == InsertBoth(Lex(text), at, at, [], Lex(x))
  {
    InsertLex(text, at, x);
    InsertNone(text, at, x);
    InsertNone(Lex(text), at, Lex(x));
  }

  lemma InsertNone<T>(s: seq<T>, at: nat, x: seq<T>)
    requires at <= |s|
    ensures InsertBoth(s, at, at, [], x) == InsertSeq(s, at, x)
  {}

  lemma {:induction false} KeepConcat(a: string, b: string, ka: seq<Kind>, kb: seq<Kind>)
    requires |ka| == |a| && |kb| == |b|
    ensures Keep(a + b, ka + kb) == Keep(a, ka) + Keep(b, kb)
  {
    if a == "" {
      assert a + b == b && ka + kb == kb;
    } else {
      assert (a + b)[1..] == a[1..] + b && (ka + kb)[1..] == ka[1..] + kb;
      KeepConcat(a[1..], b, ka[1..], kb);
    }
  }

  /** What pass 1 keeps of a stretch of the file. */
  function KeptRange(text: string, lo: nat, hi: nat): string
    requires lo <= hi <= |text|
  {
    Keep(text[lo..hi], Lex(text)[lo..hi])
  }

  /** Comment-stripping the merged file: stripped prefix, at most one comma, stripped block, stripped suffix. */
  lemma StrippedSplice(text: string, id: string, block: string)
    requires Structure(text).lastCloser.Some? && OneLine(id) && LexClosed(block) && CommaFirst(text)
    ensures var region := RenderRegion(id, block);
            var c, at, x, comma := CommaPoint(text), BlockPoint(text), Inlay(text, region), CommaText(text);
            Uncommented(text) == KeptRange(text, 0, c) + KeptRange(text, c, at) + KeptRange(text, at, |text|)
            && Uncommented(Inserted(text, region).value)
               == KeptRange(text, 0, c) + comma + KeptRange(text, c, at) + Uncommented(x) + KeptRange(text, at, |text|)
  {
    SpliceTheorem(text, id, block);
    var c, at, comma := CommaPoint(text), BlockPoint(text), CommaText(text);
    var x := Inlay(text, RenderRegion(id, block));
    CommaAlone();
    assert Keep(",", [Code]) == "," by { assert ","[1..] == ""; }
    KeepBoth(text, Lex(text), c, at, comma, Lex(comma), x, Lex(x));
    KeepNone(text, Lex(text), c, at);
  }

  lemma KeepBoth(s: string, ks: seq<Kind>, c: nat, at: nat, y: string, ky: seq<Kind>, x: string, kx: seq<Kind>)
    requires |ks| == |s| && c <= at <= |s| && |ky| == |y| && |kx| == |x|
    ensures Keep(InsertBoth(s, c, at, y, x), InsertBoth(ks, c, at, ky, kx))
         == Keep(s[0..c], ks[0..c]) + Keep(y, ky) + Keep(s[c..at], ks[c..at]) + Keep(x, kx)
            + Keep(s[at..|s|], ks[at..|s|])
  {
    assert s[0..c] == s[..c] && ks[0..c] == ks[..c] && s[at..|s|] == s[at..] && ks[at..|s|] == ks[at..];
    KeepFive(s[..c], y, s[c..at], x, s[at..], ks[..c], ky, ks[c..at], kx, ks[at..]);
  }

  lemma KeepNone(s: string, ks: seq<Kind>, c: nat, at: nat)
    requires |ks| == |s| && c <= at <= |s|
    ensures Keep(s, ks) == Keep(s[0..c], ks[0..c]) + Keep(s[c..at], ks[c..at]) + Keep(s[at..|s|], ks[at..|s|])
  {
    assert s == s[0..c] + s[c..at] + s[at..|s|] && ks == ks[0..c] + ks[c..at] + ks[at..|s|];
    KeepConcat(s[0..c], s[c..at], ks[0..c], ks[c..at]);
    KeepConcat(s[0..c] + s[c..at], s[at..|s|], ks[0..c] + ks[c..at], ks[at..|s|]);
  }

  lemma KeepFive(a: string, b: string, c: string, d: string, e: string,
                 ka: seq<Kind>, kb: seq<Kind>, kc: seq<Kind>, kd: seq<Kind>, ke: seq<Kind>)
    requires |ka| == |a| && |kb| == |b| && |kc| == |c| && |kd| == |d| && |ke| == |e|
    ensures Keep(a + b + c + d + e, ka + kb + kc + kd + ke)
         == Keep(a, ka) + Keep(b, kb) + Keep(c, kc) + Keep(d, kd) + Keep(e, ke)
  {
    KeepConcat(a, b, ka, kb);
    KeepConcat(a + b, c, ka + kb, kc);
    KeepConcat(a + b + c, d, ka + kb + kc, kd);
    KeepConcat(a + b + c + d, e, ka + kb + kc + kd, ke);
  }

  // -- what surrounds the block -----------------------------------------------

  /** Position of the block in the merged file, and of the closing bracket after it. */
  function BlockStart(text: string): nat
    requires Structure(text).lastCloser.Some?
  {
    BlockPoint(text) + |CommaText(text)|
  }

  function CloserAfter(text: string, rendered: string): nat
    requires Structure(text).lastCloser.Some?
  {
    Structure(text).lastCloser.value + |CommaText(text)| + |Inlay(text, rendered)|
  }

  lemma {:induction false} LastSignificantEqual(s: string, ks: seq<Kind>, t: string, kt: seq<Kind>, n: nat)
    requires |ks| == |s| && |kt| == |t| && n <= |s| && n <= |t|
    requires s[..n] == t[..n] && ks[..n] == kt[..n]
    ensures LastSignificant(s, ks, n) == LastSignificant(t, kt, n)
  {
    if n > 0 {
      assert s[n - 1] == s[..n][n - 1] && t[n - 1] == t[..n][n - 1];
      assert ks[n - 1] == ks[..n][n - 1] && kt[n - 1] == kt[..n][n - 1];
      assert s[..n - 1] == s[..n][..n - 1] && t[..n - 1] == t[..n][..n - 1];
      assert ks[..n - 1] == ks[..n][..n - 1] && kt[..n - 1] == kt[..n][..n - 1];
      LastSignificantEqual(s, ks, t, kt, n - 1);
    }
  }

  lemma {:induction false} LastSignificantSkips(s: string, ks: seq<Kind>, m: nat, n: nat)
    requires |ks| == |s| && m <= n <= |s|
    requires forall k :: m <= k < n ==> !SignificantAt(s, ks, k)
    ensures LastSignificant(s, ks, n) == LastSignificant(s, ks, m)
  {
    if m < n {
      LastSignificantSkips(s, ks, m, n - 1);
    }
  }

  /** The last significant character before the block is `[`, `{` or a comma (or there is none), and the comma
      is added only behind a character that is not one: no doubled comma is introduced. */
  lemma SeparatorBeforeBlock(text: string, id: string, block: string)
    requires Structure(text).lastCloser.Some? && OneLine(id) && LexClosed(block) && CommaFirst(text)
    ensures var m := Inserted(text, RenderRegion(id, block)).value;
            var sig := Structure(text).sigBeforeCloser;
            BlockStart(text) <= |m|
            && (CommaText(text) == "," <==> sig.Some? && text[sig.value] !in ",[{")
            && (CommaText(text) == "," ==> LastSignificant(m, Lex(m), BlockStart(text)) == Some(CommaPoint(text))
                                           && m[CommaPoint(text)] == ',' && text[sig.value] != ',')
            && (CommaText(text) == "" ==> LastSignificant(m, Lex(m), BlockStart(text)) == sig
                                          && (sig.Some? ==> m[sig.value] in {',', '[', '{'}))
  {
    hide Lex, RenderRegion, LexClosed, InsertSeq;
    SpliceTheorem(text, id, block);
    var c, at, comma := CommaPoint(text), BlockPoint(text), CommaText(text);
    var x := Inlay(text, RenderRegion(id, block));
    var m := Inserted(text, RenderRegion(id, block)).value;
    var closer := Structure(text).lastCloser.value;
    if comma == "" {
      InsertNone(text, at, x);
      InsertNone(Lex(text), at, Lex(x));
      LastSignificantEqual(text, Lex(text), m, Lex(m), at);
      SigBeforePoint(text);
      LastSignificantSkips(text, Lex(text), at, closer);
    } else {
      CommaAlone();
      StructureSpec(text);
      CommaStands(text, Lex(text), c, at, x, Lex(x));
    }
  }

  /** In the text with a comma at `c` and `x` at `at`, the comma is the last significant character before `x`. */
  lemma CommaStands(s: string, ks: seq<Kind>, c: nat, at: nat, x: string, kx: seq<Kind>)
    requires |ks| == |s| && c <= at <= |s| && |kx| == |x|
    requires forall k :: c <= k < at ==> !SignificantAt(s, ks, k)
    ensures var m, km := InsertBoth(s, c, at, ",", x), InsertBoth(ks, c, at, [Code], kx);
            LastSignificant(m, km, at + 1) == Some(c) && m[c] == ','
  {
    var m, km := InsertBoth(s, c, at, ",", x), InsertBoth(ks, c, at, [Code], kx);
    forall k | c + 1 <= k < at + 1 ensures !SignificantAt(m, km, k) {
      assert m[k] == s[k - 1] && km[k] == ks[k - 1];
      assert !SignificantAt(s, ks, k - 1);
    }
    LastSignificantSkips(m, km, c + 1, at + 1);
  }

  /** With no comma to add, the last significant character lies before the insertion point. */
  lemma SigBeforePoint(text: string)
    requires Structure(text).lastCloser.Some? && CommaText(text) == ""
    ensures forall k :: BlockPoint(text) <= k < Structure(text).lastCloser.value ==> !SignificantAt(text, Lex(text), k)
  {
    var closer, at := Structure(text).lastCloser.value, BlockPoint(text);
    StructureSpec(text);
    assert forall k :: at <= k < closer ==> text[k] == text[at..closer][k - at];
  }

  /** Nothing significant stands between the block and the closing bracket: the block is the last element. */
  predicate BlockIsLast(text: string, rendered: string)
    requires Structure(text).lastCloser.Some?
  {
    var m := Inserted(text, rendered).value;
    forall k :: BlockStart(text) + |Inlay(text, rendered)| <= k < CloserAfter(text, rendered) && k < |m|
                ==> !SignificantAt(m, Lex(m), k)
  }

  lemma {:induction false} StatePrefix(s: string, t: string, n: nat)
    requires n < |s| && n < |t| && s[..n + 1] == t[..n + 1]
    ensures StateAt(s, n) == StateAt(t, n)
  {
    if n > 0 {
      assert s[..n] == s[..n + 1][..n] && t[..n] == t[..n + 1][..n];
      assert s[n] == s[..n + 1][n] && t[n] == t[..n + 1][n] && s[n - 1] == s[..n + 1][n - 1];
      assert t[n - 1] == t[..n + 1][n - 1];
      StatePrefix(s, t, n - 1);
    }
  }

  /** A comma put in behind a whitespace character leaves the state after that character normal. */
  lemma StateBeforeComma(text: string, c: nat, at: nat)
    requires at < c <= |text| && StateAt(text, at) == Normal && IsWhite(text[at])
    ensures StateAt(InsertStr(text, c, ","), at + 1) == Normal
  {
    var mid := InsertStr(text, c, ",");
    assert mid[..at + 1] == text[..at + 1];
    StatePrefix(text, mid, at);
    assert mid[at] == text[at];
  }

  lemma CommaBehind(text: string, c: nat, at: nat, x: string)
    requires at < c <= |text| && StateAt(text, at) == Normal && IsWhite(text[at])
    requires StateAt(text, c) == Normal && Closed(x)
    ensures var m := InsertStr(InsertStr(text, c, ","), at + 1, x);
            SignificantAt(m, Lex(m), c + |x|)
  {
    hide Kinds, StateAt, After;
    var mid := InsertStr(text, c, ",");
    CommaAlone();
    InsertLex(text, c, ",");
    StateBeforeComma(text, c, at);
    InsertLex(mid, at + 1, x);
    var m := InsertStr(mid, at + 1, x);
    assert m[c + |x|] == mid[c] == ',';
    assert Lex(m)[c + |x|] == Lex(mid)[c] == Code;
  }

  /** When the comma does not come first it ends up between the block and the bracket. */
  lemma CommaStranded(text: string, region: string)
    requires Structure(text).lastCloser.Some? && !CommaFirst(text) && Closed(Inlay(text, region))
    ensures !BlockIsLast(text, region)
  {
    var c, at, x := CommaPoint(text), BlockPoint(text), Inlay(text, region);
    var closer := Structure(text).lastCloser.value;
    assert OwnLine(text, closer) && at < c <= closer && CommaText(text) == ",";
    assert text[at] == text[at..closer][0];
    BlockPointNormal(text);
    AfterSignificant(text);
    CommaBehind(text, c, at, x);
    InsertedForms(text, region);
    var m := Inserted(text, region).value;
    var k := c + |x|;
    assert BlockStart(text) + |x| <= k < CloserAfter(text, region) && k < |m|;
  }

  lemma CommaFirstSuffices(text: string, id: string, block: string)
    requires Structure(text).lastCloser.Some? && OneLine(id) && LexClosed(block) && CommaFirst(text)
    ensures BlockIsLast(text, RenderRegion(id, block))
  {
    SpliceTheorem(text, id, block);
    var c, at, x := CommaPoint(text), BlockPoint(text), Inlay(text, RenderRegion(id, block));
    if CommaText(text) == "" {
      SigBeforePoint(text);
    } else {
      StructureSpec(text);
    }
    TailInsignificant(text, Lex(text), c, at, Structure(text).lastCloser.value,
                      CommaText(text), Lex(CommaText(text)), x, Lex(x));
  }

  lemma TailInsignificant(s: string, ks: seq<Kind>, c: nat, at: nat, end: nat,
                          y: string, ky: seq<Kind>, x: string, kx: seq<Kind>)
    requires |ks| == |s| && |ky| == |y| && |kx| == |x| && c <= at <= end <= |s|
    requires forall k :: at <= k < end ==> !SignificantAt(s, ks, k)
    ensures var m, km, shift := InsertBoth(s, c, at, y, x), InsertBoth(ks, c, at, ky, kx), |y| + |x|;
            forall k :: at + shift <= k < end + shift ==> !SignificantAt(m, km, k)
  {
    var m, km, shift := InsertBoth(s, c, at, y, x), InsertBoth(ks, c, at, ky, kx), |y| + |x|;
    forall k | at + shift <= k < end + shift ensures !SignificantAt(m, km, k) {
      assert m[k] == s[k - shift] && km[k] == ks[k - shift];
      assert !SignificantAt(s, ks, k - shift);
    }
  }

  /** The block becomes the last element of the collection exactly when the comma comes first. */
  lemma BlockIsLastIff(text: string, id: string, block: string)
    requires Structure(text).lastCloser.Some? && OneLine(id) && LexClosed(block)
    ensures BlockIsLast(text, RenderRegion(id, block)) <==> CommaFirst(text)
  {
    if CommaFirst(text) {
      CommaFirstSuffices(text, id, block);
    } else {
      InlayClosed(text, id, block);
      CommaStranded(text, RenderRegion(id, block));
    }
  }

  /** It does on every file whose whitespace is spaces, tabs, carriage returns, line feeds and form feeds. */
  lemma OrdinaryWhitespace(text: string)
    requires Structure(text).lastCloser.Some?
    requires forall k :: 0 <= k < |text| && IsWhite(text[k]) ==> IsAsciiWhite(text[k])
    ensures CommaFirst(text)
  {
    var scan := Structure(text);
    var closer := scan.lastCloser.value;
    if !CommaFirst(text) {
      var sig := scan.sigBeforeCloser.value;
      AfterSignificant(text);
      StructureSpec(text);
      LexAt(text, sig);
      assert OwnLine(text, closer) && LineStart(text, closer) <= sig < closer;
      assert text[LineStart(text, closer)..closer][sig - LineStart(text, closer)] == text[sig];
      assert IsAsciiWhite(text[sig]);
      WhiteEndsNoString(StateAt(text, sig), text[sig], PeekAt(text, sig + 1));
    }
  }

  /** A whitespace character is never the last of a string. */
  lemma WhiteEndsNoString(st: State, c: char, next: Option<char>)
    requires IsAsciiWhite(c) && KindOf(st, c, next) == Literal
    ensures Next(st, c, next) != Normal
  {}

  /** A vertical tab before the bracket is whitespace to `trim` and significant to the lexer. */
  lemma CommaFirstFails()
    ensures var text := "[1\n\U{00000B}]";
            Structure(text).lastCloser.Some? && !CommaFirst(text)
  {
    var text := "[1\n\U{00000B}]";
    assert StateAt(text, 1) == Normal;
    assert StateAt(text, 2) == Normal;
    assert StateAt(text, 3) == Normal;
    assert StateAt(text, 4) == Normal;
    LexAt(text, 3);
    LexAt(text, 4);
    assert LastCloser(text, Lex(text), 5) == Some(4);
    assert LastSignificant(text, Lex(text), 4) == Some(3);
    assert LineStart(text, 4) == 3;
    assert AllWhite(text[3..4]);
  }
}
