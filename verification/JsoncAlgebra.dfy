/** What merging, merging again, replacing and removing do to one another (setup/jsonc.rs). */
module JsoncAlgebra {
  import opened Text
  import opened JsoncLexer
  import opened JsoncSplice
  import opened JsoncMarkers

  // -- the file on either side of an inserted region --------------------------

  /** What precedes the region in the merged file: the original up to the insertion point, with its comma, and
      the newline that ends a line the closing bracket shares. */
  function Before(text: string): string
    requires Structure(text).lastCloser.Some? && CommaFirst(text)
  {
    var c, at := CommaPoint(text), BlockPoint(text);
    text[..c] + CommaText(text) + text[c..at] + BreakText(text)
  }

  function BreakText(text: string): string
    requires Structure(text).lastCloser.Some?
  {
    if OwnLine(text, Structure(text).lastCloser.value) then "" else "\n"
  }

  function Behind(text: string): string
    requires Structure(text).lastCloser.Some?
  {
    text[BlockPoint(text)..]
  }

  /** Whether a marker file can take a first merge. */
  predicate Fresh(text: string, id: string) {
    PlainId(id) && Clean(text, id) && Structure(text).lastCloser.Some? && CommaFirst(text)
  }

  predicate CleanBlock(block: string, id: string) {
    Clean(TrimNewlines(block) + "\n", id)
  }

  lemma InsertedShape(text: string, rendered: string)
    requires Structure(text).lastCloser.Some? && CommaFirst(text)
    ensures JsoncSplice.Inserted(text, rendered) == Some(Before(text) + (rendered + "\n") + Behind(text))
  {
    hide Structure, OwnLine, NeedsComma, InsertAt, JsoncSplice.Inserted;
    var c, at, x := CommaPoint(text), BlockPoint(text), Inlay(text, rendered);
    InsertedForms(text, rendered);
    if CommaText(text) == "" {
      InsertNone(text, at, x);
    } else {
      InsertTwice(text, c, at, ",", x);
    }
    Reassociate(text[..c] + CommaText(text) + text[c..at], BreakText(text), rendered + "\n", Behind(text), x);
  }

  lemma Reassociate(a: string, br: string, r: string, b: string, x: string)
    requires x == br + r
    ensures a + x + b == a + br + r + b
  {}

  // -- no line becomes a marker line ------------------------------------------

  lemma {:induction false} TrimStartKeeps(s: string, k: nat)
    requires k < |s| && !IsWhite(s[k])
    ensures s[k] in TrimStart(s)
  {
    if IsWhite(s[0]) {
      TrimStartKeeps(s[1..], k - 1);
    }
  }

  lemma {:induction false} TrimEndKeepsChar(s: string, k: nat)
    requires k < |s| && !IsWhite(s[k])
    ensures s[k] in TrimEnd(s)
  {
    if IsWhite(s[|s| - 1]) {
      TrimEndKeepsChar(s[..|s| - 1], k);
    }
  }

  /** Trimming loses only whitespace. */
  lemma TrimKeepsChar(s: string, k: nat)
    requires k < |s| && !IsWhite(s[k])
    ensures s[k] in Trim(s)
  {
    TrimStartKeeps(s, k);
    var t := TrimStart(s);
    var j :| 0 <= j < |t| && t[j] == s[k];
    TrimEndKeepsChar(t, j);
  }

  /** Characters a marker of a plain identifier does not contain. */
  predicate OffMarker(c: char) {
    c == ',' || c == ']' || c == '}' || c == '"' || c == '*' || c == '\n'
  }

  lemma MarkerChars(id: string, c: char)
    requires PlainId(id) && OffMarker(c)
    ensures c !in StartMarker(id) && c !in EndMarker(id)
  {}

  lemma NotMarkerWith(line: string, k: nat, id: string)
    requires PlainId(id) && k < |line| && OffMarker(line[k]) && !IsWhite(line[k])
    ensures Trim(line) != StartMarker(id) && Trim(line) != EndMarker(id)
  {
    TrimKeepsChar(line, k);
    MarkerChars(id, line[k]);
  }

  lemma CleanConcat(a: string, b: string, id: string)
    requires AtLineEnd(a)
    ensures Clean(a + b, id) <==> Clean(a, id) && Clean(b, id)
  {
    hide Trim, Lines, StartMarker, EndMarker;
    LinesConcat(a, b);
    var la, lb, ls := Lines(a), Lines(b), Lines(a + b);
    assert forall k :: 0 <= k < |la| ==> ls[k] == la[k];
    assert forall k :: 0 <= k < |lb| ==> ls[|la| + k] == lb[k];
  }

  lemma CleanEmpty(id: string)
    ensures Clean("", id)
  {}

  lemma CleanTail(text: string, id: string)
    requires text != ""
    ensures Clean(text, id) <==> Trim(text[..LineLength(text)]) != StartMarker(id)
                                 && Trim(text[..LineLength(text)]) != EndMarker(id)
                                 && Clean(text[LineLength(text)..], id)
  {
    var ls, rest := Lines(text), Lines(text[LineLength(text)..]);
    assert ls[0] == text[..LineLength(text)] && ls[1..] == rest;
  }

  lemma {:induction false} LineLengthAt(text: string, n: nat)
    requires 0 < n <= |text| && (text[n - 1] == '\n' || n == |text|)
    requires forall k :: 0 <= k < n - 1 ==> text[k] != '\n'
    ensures LineLength(text) == n
  {
    if text[0] != '\n' && |text| > 1 {
      LineLengthAt(text[1..], n - 1);
    }
  }

  /** Lines that two texts share from the front. */
  lemma LineLengthShared(s: string, t: string, n: nat)
    requires 0 < n <= |s| && n <= |t| && s[..n] == t[..n] && LineLength(s) == n && s[n - 1] == '\n'
    ensures LineLength(t) == n
  {
    assert t[n - 1] == t[..n][n - 1] == s[..n][n - 1] == '\n';
    assert forall k :: 0 <= k < n - 1 ==> t[k] == t[..n][k] == s[..n][k] == s[k];
    LineLengthAt(t, n);
  }

  /** A comma on the first line keeps that line from being a marker line. */
  lemma CleanCommaHere(u: string, v: string, id: string)
    requires PlainId(id) && Clean(u + v, id) && OneLine(u)
    ensures Clean(u + "," + v, id)
  {
    hide Trim, Clean;
    CleanEmpty(id);
    var was, now := u + v, u + "," + v;
    var n := LineLength(now);
    assert n > |u| && now[|u|] == ',' by {
      assert now[n - 1] == '\n' || n == |now|;
    }
    assert now[..n][|u|] == ',';
    NotMarkerWith(now[..n], |u|, id);
    if was != "" && (v != "" || u != "") {
      if n < |now| || (now[n - 1] == '\n') {
        assert forall k :: |u| <= k < n - 1 ==> was[k] == now[k + 1];
        assert forall k :: 0 <= k < |u| ==> was[k] == now[k];
        if n > 1 {
          LineLengthAt(was, n - 1);
          assert was[n - 1..] == now[n..];
          CleanTail(was, id);
        }
      } else {
        assert now[n..] == "";
      }
    } else {
      assert now[n..] == "";
    }
    CleanTail(now, id);
  }

  lemma CommaShifts(u: string, v: string, n: nat)
    requires n <= |u|
    ensures (u + v)[..n] == u[..n] && (u + "," + v)[..n] == u[..n]
    ensures (u + v)[n..] == u[n..] + v && (u + "," + v)[n..] == u[n..] + "," + v
  {}

  lemma FirstLineEnds(u: string)
    requires !OneLine(u)
    ensures u != "" && u[LineLength(u) - 1] == '\n'
  {
    assert exists k :: 0 <= k < |u| && u[k] == '\n';
  }

  /** A comma put into a text makes no marker line. */
  lemma {:induction false} CleanComma(u: string, v: string, id: string)
    requires PlainId(id) && Clean(u + v, id)
    ensures Clean(u + "," + v, id)
    decreases |u|
  {
    hide Clean, Trim, LineLength, OneLine;
    if OneLine(u) {
      CleanCommaHere(u, v, id);
    } else {
      var was, now := u + v, u + "," + v;
      FirstLineEnds(u);
      var n := LineLength(u);
      CommaShifts(u, v, n);
      LineLengthShared(u, was, n);
      LineLengthShared(u, now, n);
      CleanTail(was, id);
      CleanComma(u[n..], v, id);
      CleanTail(now, id);
    }
  }

  // -- a shared line is no marker line ----------------------------------------

  /** Without quote, star or newline, a string, comment or line comment does not end. */
  lemma {:induction false} StaysOpen(s: string, st: State, next: Option<char>)
    requires st in {Str, Escape, Line, Block}
    requires forall k :: 0 <= k < |s| ==> s[k] != '"' && s[k] != '*' && s[k] != '\n'
    ensures After(s, st, next) in {Str, Escape, Line, Block}
  {
    if s != "" {
      StaysOpen(s[1..], Next(st, s[0], Peek(s[1..], next)), next);
    }
  }

  /** A line that is a comment opener when trimmed does not get back to the normal state. */
  lemma {:induction false} CommentLineStaysOpen(s: string, st: State, next: Option<char>)
    requires st in {Normal, Str, Escape, Line, Block}
    requires forall k :: 0 <= k < |s| ==> s[k] != '"' && s[k] != '*' && s[k] != '\n'
    requires "//" <= TrimStart(s)
    ensures After(s, st, next) != Normal
  {
    if st != Normal {
      StaysOpen(s, st, next);
    } else if IsWhite(s[0]) {
      CommentLineStaysOpen(s[1..], st, next);
    } else {
      assert s[0] == '/' && s[1] == '/' && s[1..][0] == '/';
      var t := s[1..][1..];
      StaysOpen(t, Line, next);
      assert After(s, Normal, next) == After(s[1..], OpenLine, next) == After(t, Line, next);
    }
  }

  lemma {:induction false} StateRange(text: string, lo: nat, hi: nat)
    requires lo <= hi <= |text|
    ensures StateAt(text, hi) == After(text[lo..hi], StateAt(text, lo), Peek(text[hi..], None))
  {
    if lo < hi {
      StateRange(text, lo, hi - 1);
      var a, c := text[lo..hi - 1], text[hi - 1..hi];
      assert text[lo..hi] == a + c && text[hi - 1..] == c + text[hi..];
      Compose(a, c, StateAt(text, lo), Peek(text[hi..], None));
      assert c[1..] == "";
    }
  }

  lemma StateAfterNewline(text: string, n: nat)
    requires 0 < n <= |text| && text[n - 1] == '\n'
    ensures StateAt(text, n) in {Normal, Str, Block}
  {
    if n >= 2 {
      assert StateAt(text, n - 1) == Next(StateAt(text, n - 2), text[n - 2], Some('\n'));
    }
  }

  lemma TrimMarkerOpens(line: string, m: string)
    requires Trim(line) == "//" + m
    ensures "//" <= TrimStart(line)
  {
    var t := TrimStart(line);
    assert Trim(line) <= t;
    assert t[..2] == ("//" + m)[..2] == "//";
  }

  /** The part of the closing bracket's line before the bracket, ended by a newline, is no marker line. */
  lemma SharedLineNotMarker(text: string, id: string)
    requires PlainId(id) && Structure(text).lastCloser.Some?
    ensures var closer := Structure(text).lastCloser.value;
            var line := text[LineStart(text, closer)..closer] + "\n";
            Trim(line) != StartMarker(id) && Trim(line) != EndMarker(id)
  {
    var closer := Structure(text).lastCloser.value;
    var start := LineStart(text, closer);
    var p := text[start..closer];
    StructureSpec(text);
    LexAt(text, closer);
    StateRange(text, start, closer);
    if start > 0 {
      StateAfterNewline(text, start);
    }
    if Trim(p + "\n") == StartMarker(id) || Trim(p + "\n") == EndMarker(id) {
      TrimMarkerOpens(p + "\n", Trim(p + "\n")[2..]);
      TrimStartSnoc(p);
      forall k | 0 <= k < |p| ensures p[k] != '"' && p[k] != '*' && p[k] != '\n' {
        assert p[k] == text[start + k];
        if p[k] == '"' || p[k] == '*' {
          NotMarkerWith(p + "\n", k, id);
        }
      }
      CommentLineStaysOpen(p, StateAt(text, start), Peek(text[closer..], None));
    }
  }

  lemma {:induction false} TrimStartSnoc(p: string)
    requires "//" <= TrimStart(p + "\n")
    ensures "//" <= TrimStart(p)
  {
    if p == "" {
      assert (p + "\n")[1..] == "";
    } else {
      assert (p + "\n")[1..] == p[1..] + "\n";
      if IsWhite(p[0]) {
        TrimStartSnoc(p[1..]);
      } else {
        assert TrimStart(p + "\n") == p + "\n" && TrimStart(p) == p;
        assert (p + "\n")[0] == '/' && (p + "\n")[1] == '/';
        assert |p| > 1 && p[0] == '/' && p[1] == '/';
      }
    }
  }

  // -- both sides stay free of markers ----------------------------------------

  lemma CleanSingle(line: string, id: string)
    requires OneLine(line) && Trim(line + "\n") != StartMarker(id) && Trim(line + "\n") != EndMarker(id)
    ensures Clean(line + "\n", id)
  {
    OneLineLines(line);
  }

  /** Breaking a marker-free file at the closing bracket leaves two marker-free files. */
  lemma CleanBreak(text: string, id: string)
    requires PlainId(id) && Clean(text, id) && Structure(text).lastCloser.Some?
    ensures var closer := Structure(text).lastCloser.value;
            Clean(text[..closer] + "\n", id) && Clean(text[closer..], id)
  {
    hide Structure, Clean;
    var closer := Structure(text).lastCloser.value;
    var start := LineStart(text, closer);
    SharedLineNotMarker(text, id);
    StructureSpec(text);
    assert text == text[..start] + (text[start..closer] + text[closer..]);
    CleanBreakAt(text[..start], text[start..closer], text[closer..], id);
    assert text[..closer] + "\n" == text[..start] + (text[start..closer] + "\n");
  }

  lemma CleanBreakAt(head: string, p: string, q: string, id: string)
    requires PlainId(id) && AtLineEnd(head) && OneLine(p) && q != "" && IsCloser(q[0])
    requires Clean(head + (p + q), id)
    requires Trim(p + "\n") != StartMarker(id) && Trim(p + "\n") != EndMarker(id)
    ensures Clean(head + (p + "\n"), id) && Clean(q, id)
  {
    CleanConcat(head, p + q, id);
    CleanSingle(p, id);
    CleanConcat(head, p + "\n", id);
    BreakLine(p, q, id);
  }

  lemma BreakLine(p: string, q: string, id: string)
    requires PlainId(id) && OneLine(p) && Clean(p + q, id)
    requires q != "" && IsCloser(q[0])
    ensures Clean(q, id)
  {
    hide Clean, Trim;
    var n := LineLength(q);
    var line := p + q;
    assert forall k :: |p| <= k < |line| ==> line[k] == q[k - |p|];
    LineLengthAt(line, |p| + n);
    assert line[|p| + n..] == q[n..];
    CleanTail(line, id);
    NotMarkerWith(q[..n], 0, id);
    CleanTail(q, id);
  }

  lemma CleanSides(text: string, id: string)
    requires Fresh(text, id)
    ensures AtLineEnd(Before(text)) && Clean(Before(text), id) && Clean(Behind(text), id)
  {
    hide Structure, NeedsComma, Clean;
    var closer := Structure(text).lastCloser.value;
    var c, at, comma := CommaPoint(text), BlockPoint(text), CommaText(text);
    var whole := text[..at] + BreakText(text);
    if OwnLine(text, closer) {
      assert text == text[..at] + text[at..] && whole == text[..at];
      CleanConcat(text[..at], text[at..], id);
    } else {
      CleanBreak(text, id);
    }
    var u, v := text[..c], text[c..at] + BreakText(text);
    assert whole == u + v;
    if comma == "" {
      assert Before(text) == whole;
    } else {
      assert Before(text) == u + "," + v;
      CleanComma(u, v, id);
      CommaInsideLine(text);
    }
  }

  /** The comma never lands at the very end of a line. */
  lemma CommaInsideLine(text: string)
    requires Structure(text).lastCloser.Some? && CommaFirst(text) && CommaText(text) == ","
    ensures AtLineEnd(Before(text))
    ensures OwnLine(text, Structure(text).lastCloser.value) ==> CommaPoint(text) < BlockPoint(text)
  {
    var c, at := CommaPoint(text), BlockPoint(text);
    AfterSignificant(text);
    LexAt(text, c - 1);
    StructureSpec(text);
    if OwnLine(text, Structure(text).lastCloser.value) {
      assert text[at - 1] == '\n';
      assert text[c - 1] != '\n';
    }
  }

  // -- the algebra ------------------------------------------------------------

  /** The file with a region for `block` in it, in the form every later operation sees. */
  function WithRegion(text: string, id: string, block: string): string
    requires Structure(text).lastCloser.Some? && CommaFirst(text)
  {
    Before(text) + (RenderRegion(id, block) + "\n") + Behind(text)
  }

  lemma FirstMerge(text: string, id: string, block: string)
    requires Fresh(text, id)
    ensures MergeText(text, id, block) == Merged(WithRegion(text, id, block), Inserted)
  {
    CleanIsAbsent(text, id);
    InsertedShape(text, RenderRegion(id, block));
  }

  /** In a file with a region, a merge finds it: same block, nothing to do; another block, only it changes. */
  lemma LaterMerge(text: string, id: string, b1: string, b2: string)
    requires Fresh(text, id) && CleanBlock(b1, id)
    ensures MergeText(WithRegion(text, id, b1), id, b2)
         == Merged(WithRegion(text, id, b2), if RenderRegion(id, b1) == RenderRegion(id, b2) then Unchanged else Replaced)
  {
    hide Structure, Before, Behind, Clean, CommaFirst, RenderRegion, RegionOf;
    CleanSides(text, id);
    FoundAt(Before(text), id, b1, Behind(text));
    Exchange(Before(text), RenderRegion(id, b1), "\n", Behind(text), RenderRegion(id, b2));
  }

  lemma Exchange(a: string, r: string, nl: string, b: string, r2: string)
    ensures var t := a + (r + nl) + b;
            t[|a|..|a| + |r|] == r && t[..|a|] + r2 + t[|a| + |r|..] == a + (r2 + nl) + b
  {}

  /** Merging twice changes nothing; merging `b2` over `b1` gives what merging `b2` alone gives. */
  lemma MergeAlgebra(text: string, id: string, b1: string, b2: string)
    requires Fresh(text, id) && CleanBlock(b1, id)
    ensures var once := MergeText(text, id, b1);
            once.Merged? && once.outcome == Inserted
            && MergeText(once.content, id, b1) == Merged(once.content, Unchanged)
            && MergeText(once.content, id, b2).Merged?
            && MergeText(once.content, id, b2).content == MergeText(text, id, b2).content
  {
    FirstMerge(text, id, b1);
    FirstMerge(text, id, b2);
    LaterMerge(text, id, b1, b1);
    LaterMerge(text, id, b1, b2);
  }

  lemma StrandedShape(text: string, id: string, block: string)
    requires PlainId(id) && Clean(text, id) && Structure(text).lastCloser.Some? && !CommaFirst(text)
    ensures var c, at, r := CommaPoint(text), BlockPoint(text), RenderRegion(id, block);
            at < c <= |text|
            && MergeText(text, id, block)
            == Merged(text[..at] + (text[at..at + 1] + (r + "\n")) + (text[at + 1..c] + "," + text[c..]), Inserted)
  {
    hide Structure, Clean, RenderRegion, LineStart, InsertSeq;
    CleanIsAbsent(text, id);
    InsertedForms(text, RenderRegion(id, block));
    Stranded(text, CommaPoint(text), BlockPoint(text), RenderRegion(id, block) + "\n");
  }

  lemma RewritesPadded(a: string, pad: string, id: string, block: string, b: string)
    requires PlainId(id) && AtLineEnd(a) && AllWhite(pad) && OneLine(pad) && pad != ""
    requires Clean(a, id) && CleanBlock(block, id)
    ensures var again := MergeText(a + (pad + (RenderRegion(id, block) + "\n")) + b, id, block);
            again.Merged? && again.outcome == Replaced
  {
    var r := RenderRegion(id, block);
    FoundAfter(a, pad, id, block, b);
    Slice(a, pad + r, b);
    assert pad + (r + "\n") == pad + r + "\n";
    assert |pad + r| != |r|;
  }

  /** A block stranded mid-line is found with the whitespace before it, so a second merge rewrites it. */
  lemma StrandedMerge(text: string, id: string, block: string)
    requires PlainId(id) && Clean(text, id) && CleanBlock(block, id)
    requires Structure(text).lastCloser.Some? && !CommaFirst(text)
    ensures var once := MergeText(text, id, block);
            once.Merged? && MergeText(once.content, id, block).Merged?
            && MergeText(once.content, id, block).outcome == Replaced
  {
    hide Structure, Clean, MergeText, RenderRegion;
    var c, at, closer := CommaPoint(text), BlockPoint(text), Structure(text).lastCloser.value;
    StrandedShape(text, id, block);
    assert text[at] == text[at..closer][0];
    assert text == text[..at] + text[at..];
    CleanConcat(text[..at], text[at..], id);
    RewritesPadded(text[..at], text[at..at + 1], id, block, text[at + 1..c] + "," + text[c..]);
  }

  lemma Stranded(text: string, c: nat, at: nat, x: string)
    requires at < c <= |text|
    ensures InsertStr(InsertStr(text, c, ","), at + 1, x)
         == text[..at] + (text[at..at + 1] + x) + (text[at + 1..c] + "," + text[c..])
  {
    var mid := InsertStr(text, c, ",");
    assert mid[..at + 1] == text[..at] + text[at..at + 1];
    assert mid[at + 1..] == text[at + 1..c] + "," + text[c..];
  }

  lemma Slice(a: string, r: string, b: string)
    ensures var t := a + (r + "\n") + b;
            |a| + |r| <= |t| && t[|a|..|a| + |r|] == r
  {}

  /** A second merge of the same block is a no-op exactly when the first put its comma before the block. */
  lemma MergeTwiceIff(text: string, id: string, block: string)
    requires PlainId(id) && Clean(text, id) && CleanBlock(block, id) && Structure(text).lastCloser.Some?
    ensures var once := MergeText(text, id, block);
            once.Merged? && (MergeText(once.content, id, block) == Merged(once.content, Unchanged) <==> CommaFirst(text))
  {
    if CommaFirst(text) {
      MergeAlgebra(text, id, block, block);
    } else {
      StrandedMerge(text, id, block);
    }
  }

  /** What remains after a merge and a removal. */
  function Remainder(text: string): string
    requires Structure(text).lastCloser.Some? && CommaFirst(text)
  {
    Before(text) + Behind(text)
  }

  lemma CutOut(a: string, r: string, b: string)
    ensures var t := a + (r + "\n") + b;
            var e := |a| + |r|;
            e < |t| && t[e] == '\n' && t[..|a|] + t[e + 1..] == a + b
  {}

  lemma RemoveFound(t: string, id: string, start: nat, end: nat)
    requires RegionOf(t, id) == Found(start, end) && end < |t| && t[end] == '\n'
    ensures RemoveText(t, id) == Some(t[..start] + t[end + 1..])
  {}

  lemma RemoveRegion(text: string, id: string, block: string)
    requires Fresh(text, id) && CleanBlock(block, id)
    ensures RemoveText(WithRegion(text, id, block), id) == Some(Remainder(text))
  {
    var a, r, b := Before(text), RenderRegion(id, block), Behind(text);
    CleanSides(text, id);
    FoundAt(a, id, block, b);
    CutOut(a, r, b);
    RemoveFound(a + (r + "\n") + b, id, |a|, |a| + |r|);
  }

  lemma RemainderIff(text: string)
    requires Structure(text).lastCloser.Some? && CommaFirst(text)
    ensures Remainder(text) == text
            <==> CommaText(text) == "" && OwnLine(text, Structure(text).lastCloser.value)
    ensures Remainder(text) == InsertBoth(text, CommaPoint(text), BlockPoint(text), CommaText(text), BreakText(text))
  {
    var c, at := CommaPoint(text), BlockPoint(text);
    assert |Remainder(text)| == |text| + |CommaText(text)| + |BreakText(text)|;
    if CommaText(text) == "" && BreakText(text) == "" {
      assert text[..c] + "" + text[c..at] + "" + text[at..] == text;
    }
  }

  /** What remains when the comma did not come first: the whitespace character that shared the block's line is gone
      and the comma stays. */
  function Mangled(text: string): string
    requires Structure(text).lastCloser.Some? && !CommaFirst(text)
  {
    var c, at := CommaPoint(text), BlockPoint(text);
    text[..at] + (text[at + 1..c] + "," + text[c..])
  }

  function Removed(text: string): string
    requires Structure(text).lastCloser.Some?
  {
    if CommaFirst(text) then Remainder(text) else Mangled(text)
  }

  lemma CutPadded(a: string, pad: string, r: string, b: string)
    ensures var t := a + (pad + (r + "\n")) + b;
            var e := |a| + |pad| + |r|;
            e < |t| && t[e] == '\n' && t[..|a|] + t[e + 1..] == a + b
  {}

  lemma RemovePadded(a: string, pad: string, id: string, block: string, b: string)
    requires PlainId(id) && AtLineEnd(a) && AllWhite(pad) && OneLine(pad)
    requires Clean(a, id) && CleanBlock(block, id)
    ensures RemoveText(a + (pad + (RenderRegion(id, block) + "\n")) + b, id) == Some(a + b)
  {
    hide Clean, RenderRegion, RemoveText, AllWhite, OneLine, PlainId;
    var r := RenderRegion(id, block);
    FoundAfter(a, pad, id, block, b);
    CutPadded(a, pad, r, b);
    assert pad + (r + "\n") == pad + r + "\n";
    RemoveFound(a + (pad + (r + "\n")) + b, id, |a|, |a| + |pad| + |r|);
  }

  /** The block stands alone behind one whitespace character at the start of a line. */
  lemma StrandedPad(text: string, id: string)
    requires Clean(text, id) && Structure(text).lastCloser.Some? && !CommaFirst(text)
    ensures var at := BlockPoint(text);
            at < |text| && AtLineEnd(text[..at]) && AllWhite(text[at..at + 1]) && OneLine(text[at..at + 1])
            && Clean(text[..at], id)
  {
    hide Structure, Clean;
    var at, closer := BlockPoint(text), Structure(text).lastCloser.value;
    assert text[at] == text[at..closer][0];
    assert text == text[..at] + text[at..];
    CleanConcat(text[..at], text[at..], id);
  }

  lemma RemoveStranded(text: string, id: string, block: string)
    requires PlainId(id) && Clean(text, id) && CleanBlock(block, id)
    requires Structure(text).lastCloser.Some? && !CommaFirst(text)
    ensures var merged := MergeText(text, id, block);
            merged.Merged? && RemoveText(merged.content, id) == Some(Mangled(text))
  {
    StrandedPad(text, id);
    StrandedShape(text, id, block);
    hide Structure, Clean, CleanBlock, MergeText, RenderRegion, RemoveText, AllWhite, OneLine, PlainId, CommaPoint;
    hide BlockPoint, CommaFirst, AtLineEnd;
    var c, at := CommaPoint(text), BlockPoint(text);
    RemovePadded(text[..at], text[at..at + 1], id, block, text[at + 1..c] + "," + text[c..]);
  }

  /** `t` is the text with nothing taken away: at most one comma and, not before it, one newline put in. */
  ghost predicate OnlyAdds(text: string, t: string) {
    exists c: nat, at: nat, comma: string, nl: string ::
      c <= at <= |text| && comma in {"", ","} && nl in {"", "\n"} && t == InsertBoth(text, c, at, comma, nl)
  }

  lemma MangledDiffers(text: string)
    requires Structure(text).lastCloser.Some? && !CommaFirst(text)
    ensures |Mangled(text)| == |text| && Mangled(text) != text && !OnlyAdds(text, Mangled(text))
  {
    var c, at := CommaPoint(text), BlockPoint(text);
    assert c == Structure(text).sigBeforeCloser.value + 1 && text[c - 1] != ',';
    hide Structure;
    assert Mangled(text)[c - 1] == ',';
    hide CommaPoint, BlockPoint, Mangled;
    AddsNothing(text, Mangled(text));
  }

  /** A text of the same length that only adds is the text itself. */
  lemma AddsNothing(text: string, t: string)
    requires |t| == |text| && t != text
    ensures !OnlyAdds(text, t)
  {
    forall c: nat, at: nat, comma: string, nl: string |
      c <= at <= |text| && comma in {"", ","} && nl in {"", "\n"} && |InsertBoth(text, c, at, comma, nl)| == |text|
      ensures InsertBoth(text, c, at, comma, nl) == text
    {
      assert comma == "" && nl == "";
      assert text[..c] + "" + text[c..at] + "" + text[at..] == text;
    }
  }

  /** For any file with a bracket: removing what was merged gives back the original plus the added comma and newline
      exactly when the comma came first; exactly the original when besides no comma was needed and the bracket stood
      on its own line. Otherwise a character of the original is lost. */
  lemma RemoveAfterMerge(text: string, id: string, block: string)
    requires PlainId(id) && Clean(text, id) && CleanBlock(block, id) && Structure(text).lastCloser.Some?
    ensures var merged := MergeText(text, id, block);
            merged.Merged? && RemoveText(merged.content, id) == Some(Removed(text))
    ensures OnlyAdds(text, Removed(text)) <==> CommaFirst(text)
    ensures Removed(text) == text
       <==> CommaFirst(text) && CommaText(text) == "" && OwnLine(text, Structure(text).lastCloser.value)
    ensures CommaFirst(text) ==>
              Removed(text) == InsertBoth(text, CommaPoint(text), BlockPoint(text), CommaText(text), BreakText(text))
  {
    if CommaFirst(text) {
      FirstMerge(text, id, block);
      RemoveRegion(text, id, block);
      RemainderIff(text);
      assert CommaText(text) in {"", ","} && BreakText(text) in {"", "\n"};
      assert OnlyAdds(text, InsertBoth(text, CommaPoint(text), BlockPoint(text), CommaText(text), BreakText(text)));
    } else {
      RemoveStranded(text, id, block);
      MangledDiffers(text);
    }
    hide Structure, MergeText, RemoveText, Remainder, Mangled, OnlyAdds, InsertBoth;
  }

  // -- the second round -------------------------------------------------------

  lemma BreakAlone()
    ensures Lex("\n") == [Code] && After("\n", Normal, None) == Normal
  {
    assert "\n"[1..] == "";
  }

  lemma RemainderKinds(text: string)
    requires Structure(text).lastCloser.Some? && CommaFirst(text)
    ensures Lex(Remainder(text))
         == InsertBoth(Lex(text), CommaPoint(text), BlockPoint(text), Lex(CommaText(text)), Lex(BreakText(text)))
  {
    var c, at := CommaPoint(text), BlockPoint(text);
    RemainderIff(text);
    BlockPointNormal(text);
    BreakAlone();
    CommaAlone();
    if CommaText(text) == "" {
      if BreakText(text) == "\n" {
        SpliceAt(text, at, "\n");
      } else {
        InsertNone(Lex(text), at, []);
      }
    } else {
      AfterSignificant(text);
      if BreakText(text) == "\n" {
        InsertLexTwice(text, c, at, "\n");
      } else {
        InsertLex(text, c, ",");
        OnlyFirst(text, c, at, ",");
        OnlyFirst(Lex(text), c, at, [Code]);
      }
    }
  }

  lemma OnlyFirst<T>(s: seq<T>, c: nat, at: nat, y: seq<T>)
    requires c <= at <= |s|
    ensures InsertBoth(s, c, at, y, []) == InsertSeq(s, c, y)
  {}

  /** The last closer is carried along by insertions before it. */
  lemma CloserShifts(s: string, ks: seq<Kind>, c: nat, at: nat, closer: nat, y: string, ky: seq<Kind>, x: string, kx: seq<Kind>)
    requires |ks| == |s| && |ky| == |y| && |kx| == |x| && c <= at <= closer < |s|
    requires LastCloser(s, ks, |s|) == Some(closer)
    ensures var m, km := InsertBoth(s, c, at, y, x), InsertBoth(ks, c, at, ky, kx);
            LastCloser(m, km, |m|) == Some(closer + |y| + |x|)
  {
    var m, km, shift := InsertBoth(s, c, at, y, x), InsertBoth(ks, c, at, ky, kx), |y| + |x|;
    LastCloserSpec(s, ks, |s|);
    LastCloserSpec(m, km, |m|);
    assert m[closer + shift] == s[closer] && km[closer + shift] == ks[closer];
    assert CloserAt(m, km, closer + shift);
    forall k: nat | closer + shift < k < |m| ensures !CloserAt(m, km, k) {
      assert m[k] == s[k - shift] && km[k] == ks[k - shift];
      assert !CloserAt(s, ks, k - shift);
    }
  }

  lemma {:induction false} LineStartIs(text: string, n: nat, r: nat)
    requires r <= n <= |text| && (r == 0 || text[r - 1] == '\n')
    requires forall k :: r <= k < n ==> text[k] != '\n'
    ensures LineStart(text, n) == r
  {
    if r < n {
      LineStartIs(text, n - 1, r);
    }
  }

  lemma InsertedTail<T>(s: seq<T>, c: nat, at: nat, y: seq<T>, x: seq<T>, k: nat)
    requires c <= at <= |s|
    ensures var m := InsertBoth(s, c, at, y, x);
            |m| == |s| + |y| + |x|
            && (at <= k < |s| ==> m[k + |y| + |x|] == s[k])
            && (c <= k < at ==> m[k + |y|] == s[k])
  {}

  /** A line that begins at `at` still does after insertions at or before it, unless one ends right there. */
  lemma OwnLineShifts(s: string, c: nat, at: nat, closer: nat, y: string, x: string)
    requires c <= at <= closer <= |s|
    requires forall k :: at <= k < closer ==> IsWhite(s[k]) && s[k] != '\n'
    requires x == "\n" || (x == "" && (at > 0 ==> s[at - 1] == '\n') && (y != "" ==> c < at))
    ensures closer + |y| + |x| <= |InsertBoth(s, c, at, y, x)|
    ensures OwnLine(InsertBoth(s, c, at, y, x), closer + |y| + |x|)
  {
    var m, shift := InsertBoth(s, c, at, y, x), |y| + |x|;
    forall k | at + shift <= k < closer + shift ensures m[k] == s[k - shift] {
      InsertedTail(s, c, at, y, x, k - shift);
    }
    if at > 0 {
      InsertedTail(s, c, at, y, x, at - 1);
    }
    assert at + shift == 0 || m[at + shift - 1] == '\n';
    LineStartIs(m, closer + shift, at + shift);
  }

  lemma RemainderOwnLine(text: string)
    requires Structure(text).lastCloser.Some? && CommaFirst(text)
    ensures var closer := Structure(text).lastCloser.value + |CommaText(text)| + |BreakText(text)|;
            closer <= |Remainder(text)| && OwnLine(Remainder(text), closer)
  {
    hide Structure, NeedsComma, Remainder, InsertBoth;
    var at, closer := BlockPoint(text), Structure(text).lastCloser.value;
    RemainderIff(text);
    if CommaText(text) == "," {
      CommaInsideLine(text);
    }
    assert forall k :: at <= k < closer ==> text[k] == text[at..closer][k - at];
    OwnLineShifts(text, CommaPoint(text), at, closer, CommaText(text), BreakText(text));
  }

  /** With a comma put in at `c`, the comma is the last significant character before the bracket. */
  lemma SettledByComma(s: string, ks: seq<Kind>, c: nat, at: nat, closer: nat, x: string, kx: seq<Kind>)
    requires |ks| == |s| && |kx| == |x| && c <= at <= closer <= |s|
    requires forall k :: c <= k < closer ==> !SignificantAt(s, ks, k)
    requires x == "" || (x == "\n" && kx == [Code])
    ensures var m, km := InsertBoth(s, c, at, ",", x), InsertBoth(ks, c, at, [Code], kx);
            LastSignificant(m, km, closer + 1 + |x|) == Some(c) && m[c] == ','
  {
    var m, km := InsertBoth(s, c, at, ",", x), InsertBoth(ks, c, at, [Code], kx);
    NothingAfter(s, ks, c, at, closer, ",", [Code], x, kx);
    LastSignificantSkips(m, km, c + 1, closer + 1 + |x|);
    assert m[c] == ',' && km[c] == Code;
  }

  /** With no comma to put in, the last significant character before the bracket stays what it was. */
  lemma SettledWithoutComma(s: string, ks: seq<Kind>, at: nat, closer: nat, x: string, kx: seq<Kind>)
    requires |ks| == |s| && |kx| == |x| && at <= closer <= |s|
    requires forall k :: at <= k < closer ==> !SignificantAt(s, ks, k)
    requires x == "" || (x == "\n" && kx == [Code])
    ensures var m, km := InsertBoth(s, at, at, "", x), InsertBoth(ks, at, at, [], kx);
            var sig := LastSignificant(s, ks, closer);
            LastSignificant(m, km, closer + |x|) == sig && (sig.Some? ==> m[sig.value] == s[sig.value])
  {
    var m, km := InsertBoth(s, at, at, "", x), InsertBoth(ks, at, at, [], kx);
    NothingAfter(s, ks, at, at, closer, "", [], x, kx);
    SamePrefix(s, at, x);
    SamePrefix(ks, at, kx);
    hide InsertBoth, LastSignificant, SignificantAt;
    LastSignificantSkips(m, km, at, closer + |x|);
    LastSignificantEqual(s, ks, m, km, at);
    LastSignificantSkips(s, ks, at, closer);
    assert LastSignificant(s, ks, at).Some? ==> m[..at][LastSignificant(s, ks, at).value] == m[LastSignificant(s, ks, at).value];
  }

  lemma SamePrefix<T>(s: seq<T>, at: nat, x: seq<T>)
    requires at <= |s|
    ensures InsertBoth(s, at, at, [], x)[..at] == s[..at]
  {}

  lemma RemainderNeedsNoComma(text: string)
    requires Structure(text).lastCloser.Some? && CommaFirst(text)
    ensures var t, km, shift := Remainder(text), Lex(Remainder(text)), |CommaText(text)| + |BreakText(text)|;
            var closer := Structure(text).lastCloser.value + shift;
            closer <= |t| && !NeedsComma(t, LastSignificant(t, km, closer))
  {
    hide Remainder, Lex, InsertBoth, SignificantAt, LastSignificant, LineStart;
    var c, at, closer := CommaPoint(text), BlockPoint(text), Structure(text).lastCloser.value;
    RemainderIff(text);
    RemainderKinds(text);
    BreakAlone();
    CommaAlone();
    if CommaText(text) == "" {
      SigBeforePoint(text);
      SettledWithoutComma(text, Lex(text), at, closer, BreakText(text), Lex(BreakText(text)));
    } else {
      StructureSpec(text);
      SettledByComma(text, Lex(text), c, at, closer, BreakText(text), Lex(BreakText(text)));
    }
  }

  /** Between the comma and the bracket only whitespace and comments stand, the added newline included. */
  lemma NothingAfter(s: string, ks: seq<Kind>, c: nat, at: nat, closer: nat, y: string, ky: seq<Kind>, x: string, kx: seq<Kind>)
    requires |ks| == |s| && |ky| == |y| && |kx| == |x| && c <= at <= closer <= |s|
    requires forall k :: c <= k < closer ==> !SignificantAt(s, ks, k)
    requires x == "" || (x == "\n" && kx == [Code])
    ensures var m, km := InsertBoth(s, c, at, y, x), InsertBoth(ks, c, at, ky, kx);
            forall k :: c + |y| <= k < closer + |y| + |x| ==> !SignificantAt(m, km, k)
  {
    var m, km := InsertBoth(s, c, at, y, x), InsertBoth(ks, c, at, ky, kx);
    forall k | c + |y| <= k < closer + |y| + |x| ensures !SignificantAt(m, km, k) {
      if k < at + |y| {
        assert m[k] == s[k - |y|] && km[k] == ks[k - |y|];
        assert !SignificantAt(s, ks, k - |y|);
      } else if k < at + |y| + |x| {
        assert m[k] == '\n' && km[k] == Code;
      } else {
        assert m[k] == s[k - |y| - |x|] && km[k] == ks[k - |y| - |x|];
        assert !SignificantAt(s, ks, k - |y| - |x|);
      }
    }
  }

  /** After one round the file is marker-free, needs no comma and has its bracket on its own line. */
  lemma RoundSettles(text: string, id: string)
    requires Fresh(text, id)
    ensures Fresh(Remainder(text), id) && CommaText(Remainder(text)) == ""
    ensures Remainder(Remainder(text)) == Remainder(text)
  {
    var t := Remainder(text);
    var c, at, closer := CommaPoint(text), BlockPoint(text), Structure(text).lastCloser.value;
    CleanSides(text, id);
    CleanConcat(Before(text), Behind(text), id);
    RemainderStructure(text);
    RemainderIff(t);
  }

  lemma RemainderStructure(text: string)
    requires Structure(text).lastCloser.Some? && CommaFirst(text)
    ensures var t := Remainder(text);
            Structure(t).lastCloser.Some? && CommaText(t) == "" && OwnLine(t, Structure(t).lastCloser.value)
  {
    hide Remainder, Lex, InsertBoth, LineStart, LastCloser, LastSignificant;
    RemainderKinds(text);
    RemainderIff(text);
    CloserShifts(text, Lex(text), CommaPoint(text), BlockPoint(text), Structure(text).lastCloser.value,
                 CommaText(text), Lex(CommaText(text)), BreakText(text), Lex(BreakText(text)));
    RemainderOwnLine(text);
    RemainderNeedsNoComma(text);
  }

  /** After one round merge and removal undo each other exactly, whatever the block. */
  lemma SecondRoundExact(text: string, id: string, b1: string, b2: string)
    requires Fresh(text, id) && CleanBlock(b1, id) && CleanBlock(b2, id)
    ensures var first := MergeText(text, id, b1);
            first.Merged? && RemoveText(first.content, id).Some?
            && var once := RemoveText(first.content, id).value;
               var second := MergeText(once, id, b2);
               second.Merged? && RemoveText(second.content, id) == Some(once)
  {
    RemoveAfterMerge(text, id, b1);
    RoundSettles(text, id);
    RemoveAfterMerge(Remainder(text), id, b2);
  }
}
