/** Finding, replacing and removing a marker region; `merge_marker_block` and `remove_marker_block` (setup/jsonc.rs). */
module JsoncMarkers {
  import opened Text
  import opened JsoncStrip
  import opened JsoncSplice

  // -- lines ------------------------------------------------------------------

  /** Length of the first line, its newline included. */
  function LineLength(text: string): (n: nat)
    requires text != ""
    ensures 0 < n <= |text|
    ensures n < |text| ==> text[n - 1] == '\n'
    ensures forall k :: 0 <= k < n - 1 ==> text[k] != '\n'
  {
    if text[0] == '\n' || |text| == 1 then 1 else 1 + LineLength(text[1..])
  }

  /** `split_inclusive('\n')`. */
  function Lines(text: string): seq<string> {
    if text == "" then [] else var n := LineLength(text); [text[..n]] + Lines(text[n..])
  }

  predicate AtLineEnd(text: string) {
    text == "" || text[|text| - 1] == '\n'
  }

  lemma {:induction false} LinesFlatten(text: string)
    ensures Flatten(Lines(text)) == text
  {
    if text != "" {
      LinesFlatten(text[LineLength(text)..]);
      assert Lines(text)[1..] == Lines(text[LineLength(text)..]);
    }
  }

  lemma {:induction false} LineLengthPrefix(a: string, b: string)
    requires a != "" && AtLineEnd(a)
    ensures LineLength(a + b) == LineLength(a)
  {
    assert (a + b)[0] == a[0];
    if a[0] != '\n' {
      assert (a + b)[1..] == a[1..] + b;
      LineLengthPrefix(a[1..], b);
    }
  }

  lemma {:induction false} LinesConcat(a: string, b: string)
    requires AtLineEnd(a)
    ensures Lines(a + b) == Lines(a) + Lines(b)
  {
    if a == "" {
      assert a + b == b;
    } else {
      var n := LineLength(a);
      LineLengthPrefix(a, b);
      assert (a + b)[..n] == a[..n] && (a + b)[n..] == a[n..] + b;
      LinesConcat(a[n..], b);
    }
  }

  lemma OneLineLines(s: string)
    requires OneLine(s)
    ensures Lines(s + "\n") == [s + "\n"]
  {
    var t := s + "\n";
    assert t[|t| - 1] == '\n';
    assert LineLength(t) == |t|;
    assert t[..|t|] == t && t[|t|..] == "";
  }

  // -- finding the region -----------------------------------------------------

  datatype Region = Absent | Found(start: nat, end: nat) | Corrupt

  /** `trim_end_matches(['\n', '\r'])`. */
  function TrimEol(s: string): (r: string)
    ensures r <= s
  {
    if s != "" && (s[|s| - 1] == '\n' || s[|s| - 1] == '\r') then TrimEol(s[..|s| - 1]) else s
  }

  function Shift(n: nat, o: Option<nat>): Option<nat> {
    match o case None => None case Some(v) => Some(n + v)
  }

  /** Offset of the first line that is `marker` when trimmed. */
  function FirstStart(lines: seq<string>, marker: string): Option<nat> {
    if lines == [] then None
    else if Trim(lines[0]) == marker then Some(0)
    else Shift(|lines[0]|, FirstStart(lines[1..], marker))
  }

  /** Offset of the end of that line, line ending excluded. */
  function FirstEnd(lines: seq<string>, marker: string): Option<nat> {
    if lines == [] then None
    else if Trim(lines[0]) == marker then Some(|TrimEol(lines[0])|)
    else Shift(|lines[0]|, FirstEnd(lines[1..], marker))
  }

  lemma {:induction false} FirstEndBound(lines: seq<string>, marker: string)
    ensures FirstEnd(lines, marker).Some? ==> FirstEnd(lines, marker).value <= |Flatten(lines)|
  {
    if lines != [] {
      FirstEndBound(lines[1..], marker);
    }
  }

  function RegionOf(text: string, id: string): (r: Region)
    ensures r.Found? ==> r.start < r.end <= |text|
  {
    LinesFlatten(text);
    FirstEndBound(Lines(text), EndMarker(id));
    match (FirstStart(Lines(text), StartMarker(id)), FirstEnd(Lines(text), EndMarker(id)))
    case (None, None) => Absent
    case (Some(s), Some(e)) => if e > s then Found(s, e) else Corrupt
    case _ => Corrupt
  }

  lemma MarkersDiffer(id: string)
    ensures StartMarker(id) != EndMarker(id)
  {
    assert StartMarker(id)[3] == '>' && EndMarker(id)[3] == '<';
  }

  method FindMarkerRegion(text: string, id: string) returns (r: Region)
    ensures r == RegionOf(text, id)
  {
    MarkersDiffer(id);
    var start, end := ScanMarkers(Lines(text), StartMarker(id), EndMarker(id));
    return match (start, end)
      case (None, None) => Absent
      case (Some(s), Some(e)) => if e > s then Found(s, e) else Corrupt
      case _ => Corrupt;
  }

  function Resume(found: Option<nat>, offset: nat, rest: Option<nat>): Option<nat> {
    if found.Some? then found else Shift(offset, rest)
  }

  lemma ScanStep(lines: seq<string>, i: nat, marker: string, found: Option<nat>, offset: nat)
    requires i < |lines|
    ensures Resume(found, offset, FirstStart(lines[i..], marker))
         == Resume(if found.None? && Trim(lines[i]) == marker then Some(offset) else found,
                   offset + |lines[i]|, FirstStart(lines[i + 1..], marker))
    ensures Resume(found, offset, FirstEnd(lines[i..], marker))
         == Resume(if found.None? && Trim(lines[i]) == marker then Some(offset + |TrimEol(lines[i])|) else found,
                   offset + |lines[i]|, FirstEnd(lines[i + 1..], marker))
  {
    assert lines[i..][1..] == lines[i + 1..];
  }

  /** The loop over the lines, with a running offset. */
  method ScanMarkers(lines: seq<string>, startM: string, endM: string) returns (start: Option<nat>, end: Option<nat>)
    requires startM != endM
    ensures start == FirstStart(lines, startM) && end == FirstEnd(lines, endM)
  {
    hide Trim, TrimEol, FirstStart, FirstEnd;
    start, end := None, None;
    var offset: nat := 0;
    ScansStart(lines, startM, endM);
    for i := 0 to |lines|
      invariant FirstStart(lines, startM) == Resume(start, offset, FirstStart(lines[i..], startM))
      invariant FirstEnd(lines, endM) == Resume(end, offset, FirstEnd(lines[i..], endM))
    {
      var line := lines[i];
      ScanStep(lines, i, startM, start, offset);
      ScanStep(lines, i, endM, end, offset);
      var trimmed := Trim(line);
      if trimmed == startM && start.None? {
        start := Some(offset);
      } else if trimmed == endM && end.None? {
        end := Some(offset + |TrimEol(line)|);
      }
      offset := offset + |line|;
    }
    ScansEnd(lines, startM, endM);
  }

  lemma ScansStart(lines: seq<string>, startM: string, endM: string)
    ensures Resume(None, 0, FirstStart(lines[0..], startM)) == FirstStart(lines, startM)
    ensures Resume(None, 0, FirstEnd(lines[0..], endM)) == FirstEnd(lines, endM)
  {
    assert lines[0..] == lines;
  }

  lemma ScansEnd(lines: seq<string>, startM: string, endM: string)
    ensures FirstStart(lines[|lines|..], startM).None? && FirstEnd(lines[|lines|..], endM).None?
  {}

  // -- the region, spelled out ------------------------------------------------

  /** Pieces that are not empty, each cut behind a newline but perhaps the last, and none holding one before its end. */
  ghost predicate CutAtNewlines(ls: seq<string>) {
    forall i :: 0 <= i < |ls| ==>
      ls[i] != "" && (forall k :: 0 <= k < |ls[i]| - 1 ==> ls[i][k] != '\n')
      && (i < |ls| - 1 ==> ls[i][|ls[i]| - 1] == '\n')
  }

  lemma CutOneMore(line: string, ls: seq<string>)
    requires line != "" && CutAtNewlines([line]) && CutAtNewlines(ls) && (ls != [] ==> line[|line| - 1] == '\n')
    ensures CutAtNewlines([line] + ls)
  {
    assert [line][0] == line;
    forall i | 0 <= i < |[line] + ls|
      ensures ([line] + ls)[i] == if i == 0 then line else ls[i - 1]
    {}
  }

  /** The lines are the text cut behind every newline. */
  lemma {:induction false} LinesSpelledOut(text: string)
    ensures Flatten(Lines(text)) == text && CutAtNewlines(Lines(text))
  {
    LinesFlatten(text);
    if text != "" {
      var n := LineLength(text);
      LinesSpelledOut(text[n..]);
      assert n < |text| ==> text[..n][n - 1] == '\n';
      assert n == |text| ==> text[n..] == "";
      CutOneMore(text[..n], Lines(text[n..]));
      hide CutAtNewlines, Flatten;
    }
  }

  /** The end of a line is all its carriage returns and newlines at the end. */
  lemma {:induction false} EolSpelledOut(s: string)
    ensures TrimEol(s) <= s && forall k :: |TrimEol(s)| <= k < |s| ==> s[k] == '\n' || s[k] == '\r'
    ensures TrimEol(s) != "" ==> TrimEol(s)[|TrimEol(s)| - 1] != '\n' && TrimEol(s)[|TrimEol(s)| - 1] != '\r'
  {
    if s != "" && (s[|s| - 1] == '\n' || s[|s| - 1] == '\r') {
      EolSpelledOut(s[..|s| - 1]);
    }
  }

  ghost predicate IsFirst(lines: seq<string>, i: nat, marker: string) {
    i < |lines| && Trim(lines[i]) == marker && forall k :: 0 <= k < i ==> Trim(lines[k]) != marker
  }

  ghost predicate Unmarked(lines: seq<string>, marker: string) {
    forall k :: 0 <= k < |lines| ==> Trim(lines[k]) != marker
  }

  lemma FirstAmongRest(lines: seq<string>, i: nat, marker: string)
    requires IsFirst(lines, i, marker) && Trim(lines[0]) != marker
    ensures 0 < i < |lines| && IsFirst(lines[1..], i - 1, marker) && lines[1..][i - 1] == lines[i]
    ensures |Flatten(lines[..i])| == |lines[0]| + |Flatten(lines[1..][..i - 1])|
  {
    hide Trim;
    assert forall k :: 0 < k < |lines| ==> lines[k] == lines[1..][k - 1];
    assert lines[..i][1..] == lines[1..][..i - 1] && lines[..i][0] == lines[0];
  }

  lemma {:induction false} FirstSpelledOut(lines: seq<string>, marker: string)
    ensures FirstStart(lines, marker).None? <==> Unmarked(lines, marker)
    ensures FirstEnd(lines, marker).None? <==> Unmarked(lines, marker)
    ensures forall i: nat :: IsFirst(lines, i, marker) ==>
              FirstStart(lines, marker) == Some(|Flatten(lines[..i])|)
              && FirstEnd(lines, marker) == Some(|Flatten(lines[..i])| + |TrimEol(lines[i])|)
  {
    hide Trim, TrimEol;
    if lines != [] {
      FirstSpelledOut(lines[1..], marker);
      UnmarkedCons(lines, marker);
      hide Unmarked;
      if Trim(lines[0]) == marker {
        assert Flatten(lines[..0]) == "";
        assert forall i :: IsFirst(lines, i, marker) ==> i == 0;
        hide Flatten, IsFirst;
      } else {
        forall i: nat | IsFirst(lines, i, marker)
          ensures FirstStart(lines, marker) == Some(|Flatten(lines[..i])|)
          ensures FirstEnd(lines, marker) == Some(|Flatten(lines[..i])| + |TrimEol(lines[i])|)
        {
          FirstAmongRest(lines, i, marker);
          hide IsFirst, Flatten;
        }
      }
    }
  }

  lemma UnmarkedCons(lines: seq<string>, marker: string)
    requires lines != []
    ensures Unmarked(lines, marker) <==> Trim(lines[0]) != marker && Unmarked(lines[1..], marker)
  {
    hide Trim;
    assert forall k :: 0 < k < |lines| ==> lines[k] == lines[1..][k - 1];
  }

  lemma MarkersSpelledOut(id: string)
    ensures StartMarker(id) == "// >>> zedxcode:" + id + " >>>" && EndMarker(id) == "// <<< zedxcode:" + id + " <<<"
  {
    assert "//" + " >>> zedxcode:" == "// >>> zedxcode:" && "//" + " <<< zedxcode:" == "// <<< zedxcode:";
  }

  /** There is no region exactly when no line is a marker, blanks around it aside. */
  lemma AbsentSpelledOut(text: string, id: string)
    ensures RegionOf(text, id) == Absent
       <==> Unmarked(Lines(text), "// >>> zedxcode:" + id + " >>>") && Unmarked(Lines(text), "// <<< zedxcode:" + id + " <<<")
  {
    MarkersSpelledOut(id);
    FirstSpelledOut(Lines(text), StartMarker(id));
    FirstSpelledOut(Lines(text), EndMarker(id));
    hide StartMarker, EndMarker, Lines, Unmarked, IsFirst, FirstStart, FirstEnd;
  }

  /** With both markers the region runs from the start of the first line that is the start marker to the end of the first
      that is the end marker, and is corrupt when that does not come later. */
  lemma RegionSpelledOut(text: string, id: string, i: nat, j: nat)
    requires IsFirst(Lines(text), i, "// >>> zedxcode:" + id + " >>>")
    requires IsFirst(Lines(text), j, "// <<< zedxcode:" + id + " <<<")
    ensures var s, e := |Flatten(Lines(text)[..i])|, |Flatten(Lines(text)[..j])| + |TrimEol(Lines(text)[j])|;
            RegionOf(text, id) == if s < e then Found(s, e) else Corrupt
  {
    MarkersSpelledOut(id);
    FirstSpelledOut(Lines(text), StartMarker(id));
    FirstSpelledOut(Lines(text), EndMarker(id));
    hide StartMarker, EndMarker, Lines, Unmarked, IsFirst, FirstStart, FirstEnd, Flatten, TrimEol, Trim;
  }

  /** With one marker only it is corrupt. */
  lemma CorruptSpelledOut(text: string, id: string)
    requires RegionOf(text, id) != Absent
    requires Unmarked(Lines(text), "// >>> zedxcode:" + id + " >>>")
             || Unmarked(Lines(text), "// <<< zedxcode:" + id + " <<<")
    ensures RegionOf(text, id) == Corrupt
  {
    MarkersSpelledOut(id);
    FirstSpelledOut(Lines(text), StartMarker(id));
    FirstSpelledOut(Lines(text), EndMarker(id));
    hide StartMarker, EndMarker, Lines, Unmarked, IsFirst, FirstStart, FirstEnd, Flatten, TrimEol, Trim;
  }

  /** A rendered region: the two markers, indented, around the block without the newlines at its end. */
  lemma RenderedSpelledOut(id: string, block: string) returns (body: string, newlines: string)
    ensures RenderRegion(id, block)
         == "  // >>> zedxcode:" + id + " >>>\n" + body + "\n  // <<< zedxcode:" + id + " <<<"
    ensures block == body + newlines && (forall k :: 0 <= k < |newlines| ==> newlines[k] == '\n')
            && (body != "" ==> body[|body| - 1] != '\n')
  {
    body := TrimNewlines(block);
    newlines := NewlinesTrimmed(block);
    MarkersSpelledOut(id);
    hide StartMarker, EndMarker, TrimNewlines;
    Rendering(id, body);
  }

  lemma Rendering(id: string, body: string)
    ensures "  " + ("// >>> zedxcode:" + id + " >>>") + "\n" + body + "\n" + "  " + ("// <<< zedxcode:" + id + " <<<")
         == "  // >>> zedxcode:" + id + " >>>\n" + body + "\n  // <<< zedxcode:" + id + " <<<"
  {
    assert "  " + ("// >>> zedxcode:" + id + " >>>") + "\n" == "  // >>> zedxcode:" + id + " >>>\n";
    assert ("\n" + "  ") + ("// <<< zedxcode:" + id + " <<<") == "\n  // <<< zedxcode:" + id + " <<<";
    var head := "  // >>> zedxcode:" + id + " >>>\n" + body;
    assert head + "\n" + "  " + ("// <<< zedxcode:" + id + " <<<") == head + (("\n" + "  ") + ("// <<< zedxcode:" + id + " <<<"));
    assert head + ("\n  // <<< zedxcode:" + id + " <<<") == head + "\n  // <<< zedxcode:" + id + " <<<";
  }

  lemma {:induction false} NewlinesTrimmed(s: string) returns (newlines: string)
    ensures s == TrimNewlines(s) + newlines && forall k :: 0 <= k < |newlines| ==> newlines[k] == '\n'
  {
    newlines := "";
    if s != "" && s[|s| - 1] == '\n' {
      var more := NewlinesTrimmed(s[..|s| - 1]);
      newlines := more + "\n";
    }
  }

  // -- merging and removing, on contents --------------------------------------

  datatype MergeOutcome = Inserted | Replaced | Unchanged

  datatype MergeError = CorruptMarkers | NoInsertionPoint

  datatype Merge = Merged(content: string, outcome: MergeOutcome) | Refused(error: MergeError)

  function MergeText(text: string, id: string, block: string): Merge {
    var rendered := RenderRegion(id, block);
    match RegionOf(text, id)
    case Corrupt => Refused(CorruptMarkers)
    case Found(s, e) =>
      if text[s..e] == rendered then Merged(text, Unchanged)
      else Merged(text[..s] + rendered + text[e..], Replaced)
    case Absent =>
      match JsoncSplice.Inserted(text, rendered)
      case None => Refused(NoInsertionPoint)
      case Some(content) => Merged(content, Inserted)
  }

  /** The file without the region, its last newline included; `None` when there is no region to remove. */
  function RemoveText(text: string, id: string): Option<string> {
    match RegionOf(text, id)
    case Found(s, e) =>
      if e < |text| && text[e] == '\n' then Some(text[..s] + text[e + 1..])
      else Some(text[..s] + text[e..])
    case _ => None
  }

  // -- the file ---------------------------------------------------------------

  datatype Error = Missing | Refusal(error: MergeError) | NoBackup | NotWritten | NotRead | Invalid | NotRestored

  datatype Result<T> = Done(value: T) | Failed(error: Error)

  /** Which writes and reads succeed; `left` is what a failed restore leaves in the file. */
  datatype Io = Io(backup: bool, write: bool, reread: bool, restore: bool, left: string)

  /** `write_validated`: what went wrong, if anything; the file afterwards; the backups made. */
  datatype Written = Written(error: Option<Error>, content: string, backups: seq<string>)

  function AfterWrite(original: string, newContent: string, io: Io, valid: string -> bool): Written {
    if !io.backup then Written(Some(NoBackup), original, [])
    else if !io.write then Written(Some(NotWritten), original, [original])
    else if !io.reread then Written(Some(NotRead), newContent, [original])
    else if valid(Stripped(newContent)) then Written(None, newContent, [original])
    else if io.restore then Written(Some(Invalid), original, [original])
    else Written(Some(NotRestored), io.left, [original])
  }

  /** A JSONC file and its backups; `valid` stands for the JSON parser run on the stripped text. */
  class ConfigFile {
    var content: Option<string>
    var backups: seq<string>

    constructor (content: Option<string>)
      ensures this.content == content && backups == []
    {
      this.content := content;
      backups := [];
    }

    /** `write_validated`: back up, write, read back, restore when the result does not parse. Whatever fails, the
        original is in the file or in a backup. */
    method WriteValidated(original: string, newContent: string, io: Io, valid: string -> bool)
      returns (error: Option<Error>)
      requires content == Some(original)
      modifies this
      ensures var w := AfterWrite(original, newContent, io, valid);
              error == w.error && content == Some(w.content) && backups == old(backups) + w.backups
      ensures !io.backup <==> error == Some(NoBackup)
      ensures io.backup && !io.write <==> error == Some(NotWritten)
      ensures io.backup && io.write && !io.reread <==> error == Some(NotRead)
      ensures io.backup && io.write && io.reread ==>
                if valid(Stripped(newContent)) then error.None?
                else if io.restore then error == Some(Invalid) else error == Some(NotRestored)
      ensures error == Some(NoBackup) || error == Some(NotWritten) || error == Some(Invalid) ==> content == Some(original)
      ensures error.None? || error == Some(NotRead) ==> content == Some(newContent)
      ensures error == Some(NotRestored) ==> content == Some(io.left)
      ensures error != Some(NoBackup) ==> backups == old(backups) + [original]
      ensures content == Some(original) || original in backups
    {
      if !io.backup {
        return Some(NoBackup);
      }
      backups := backups + [original];
      if !io.write {
        return Some(NotWritten);
      }
      content := Some(newContent);
      if !io.reread {
        return Some(NotRead);
      }
      var reread := content.value;
      var stripped := StripJsonc(reread);
      if !valid(stripped) {
        if !io.restore {
          content := Some(io.left);
          return Some(NotRestored);
        }
        content := Some(original);
        return Some(Invalid);
      }
      error := None;
    }

    method MergeMarkerBlock(id: string, block: string, io: Io, valid: string -> bool) returns (r: Result<MergeOutcome>)
      modifies this
      ensures match old(content)
              case None => r == Failed(Missing) && unchanged(this)
              case Some(text) =>
                match MergeText(text, id, block)
                case Refused(e) => r == Failed(Refusal(e)) && unchanged(this)
                case Merged(c, o) =>
                  if o.Unchanged? then r == Done(o) && unchanged(this)
                  else
                    var w := AfterWrite(text, c, io, valid);
                    r == (if w.error.None? then Done(o) else Failed(w.error.value))
                    && content == Some(w.content) && backups == old(backups) + w.backups
      ensures r.Failed? && r.error !in [NotRead, NotRestored] ==> content == old(content)
      ensures r.Done? && r.value != Unchanged ==>
                valid(Stripped(content.value))
                && var text, region := old(content).value, RegionOf(old(content).value, id);
                   (r.value == Replaced ==>
                      region.Found?
                      && content == Some(text[..region.start] + RenderRegion(id, block) + text[region.end..]))
                   && (r.value == MergeOutcome.Inserted ==>
                         region.Absent? && content == JsoncSplice.Inserted(text, RenderRegion(id, block)))
      ensures r == Done(Unchanged) ==>
                var text, region := old(content).value, RegionOf(old(content).value, id);
                content == old(content) && region.Found? && text[region.start..region.end] == RenderRegion(id, block)
      ensures content == old(content) || old(content).value in backups
    {
      if content.None? {
        return Failed(Missing);
      }
      var original := content.value;
      var rendered := RenderRegion(id, block);
      var region := FindMarkerRegion(original, id);
      var newContent: string;
      var outcome: MergeOutcome;
      match region {
        case Corrupt =>
          return Failed(Refusal(CorruptMarkers));
        case Found(start, end) =>
          if original[start..end] == rendered {
            return Done(Unchanged);
          }
          newContent, outcome := original[..start] + rendered + original[end..], Replaced;
        case Absent =>
          var inserted := InsertBeforeFinalCloser(original, rendered);
          if inserted.None? {
            return Failed(Refusal(NoInsertionPoint));
          }
          newContent, outcome := inserted.value, Inserted;
      }
      var error := WriteValidated(original, newContent, io, valid);
      return if error.None? then Done(outcome) else Failed(error.value);
    }

    method RemoveMarkerBlock(id: string, io: Io, valid: string -> bool) returns (r: Result<bool>)
      modifies this
      ensures match old(content)
              case None => r == Failed(Missing) && unchanged(this)
              case Some(text) =>
                match RegionOf(text, id)
                case Corrupt => r == Failed(Refusal(CorruptMarkers)) && unchanged(this)
                case Absent => r == Done(false) && unchanged(this)
                case Found(_, _) =>
                  var w := AfterWrite(text, RemoveText(text, id).value, io, valid);
                  r == (if w.error.None? then Done(true) else Failed(w.error.value))
                  && content == Some(w.content) && backups == old(backups) + w.backups
      ensures r.Failed? && r.error !in [NotRead, NotRestored] ==> content == old(content)
      ensures r == Done(true) ==>
                valid(Stripped(content.value))
                && var text, region := old(content).value, RegionOf(old(content).value, id);
                   region.Found?
                   && content == Some(text[..region.start]
                                      + if region.end < |text| && text[region.end] == '\n' then text[region.end + 1..]
                                        else text[region.end..])
      ensures content == old(content) || old(content).value in backups
    {
      if content.None? {
        return Failed(Missing);
      }
      var original := content.value;
      var region := FindMarkerRegion(original, id);
      match region {
        case Corrupt =>
          return Failed(Refusal(CorruptMarkers));
        case Absent =>
          return Done(false);
        case Found(start, end) =>
          var stop := end;
          if stop < |original| && original[stop] == '\n' {
            stop := stop + 1;
          }
          var error := WriteValidated(original, original[..start] + original[stop..], io, valid);
          return if error.None? then Done(true) else Failed(error.value);
      }
    }
  }

  // -- lines without markers --------------------------------------------------

  /** An identifier of letters, digits, `-` and `_`; the repository uses `keymap` and `settings`. */
  predicate PlainId(id: string) {
    forall k :: 0 <= k < |id| ==> 'a' <= id[k] <= 'z' || 'A' <= id[k] <= 'Z' || IsDigit(id[k]) || id[k] == '-' || id[k] == '_'
  }

  predicate Without(lines: seq<string>, marker: string) {
    forall k :: 0 <= k < |lines| ==> Trim(lines[k]) != marker
  }

  predicate NoMarkers(lines: seq<string>, id: string) {
    Without(lines, StartMarker(id)) && Without(lines, EndMarker(id))
  }

  predicate Clean(text: string, id: string) {
    NoMarkers(Lines(text), id)
  }

  lemma {:induction false} SkipLines(a: seq<string>, b: seq<string>, marker: string)
    requires Without(a, marker)
    ensures FirstStart(a + b, marker) == Shift(|Flatten(a)|, FirstStart(b, marker))
    ensures FirstEnd(a + b, marker) == Shift(|Flatten(a)|, FirstEnd(b, marker))
  {
    hide Trim, TrimEol;
    if a == [] {
      assert a + b == b;
    } else {
      assert (a + b)[1..] == a[1..] + b && (a + b)[0] == a[0];
      SkipLines(a[1..], b, marker);
    }
  }

  lemma CleanIsAbsent(text: string, id: string)
    requires Clean(text, id)
    ensures RegionOf(text, id) == Absent
  {
    SkipLines(Lines(text), [], StartMarker(id));
    SkipLines(Lines(text), [], EndMarker(id));
    assert Lines(text) + [] == Lines(text);
  }

  lemma {:induction false} TrimStartPadded(pad: string, s: string)
    requires AllWhite(pad)
    ensures TrimStart(pad + s) == TrimStart(s)
  {
    if pad == "" {
      assert pad + s == s;
    } else {
      assert (pad + s)[1..] == pad[1..] + s;
      TrimStartPadded(pad[1..], s);
    }
  }

  lemma TrimIndented(pad: string, m: string)
    requires AllWhite(pad) && m != "" && !IsWhite(m[0]) && !IsWhite(m[|m| - 1])
    ensures Trim(pad + m + "\n") == m
    ensures m[|m| - 1] != '\r' ==> TrimEol(pad + m + "\n") == pad + m
  {
    var s := pad + m + "\n";
    assert s == pad + (m + "\n");
    TrimStartPadded(pad, m + "\n");
    TrimStartFixed(m + "\n");
    TrimLine(m);
    EolTrimmed(pad + m);
    hide AllWhite, IsWhite, TrimStart, TrimEnd, TrimEol;
  }

  lemma TrimLine(m: string)
    requires m != "" && !IsWhite(m[|m| - 1])
    ensures TrimEnd(m + "\n") == m
  {
    assert (m + "\n")[..|m|] == m;
    TrimEndFixed(m);
  }

  lemma EolTrimmed(line: string)
    requires line != "" && line[|line| - 1] != '\n'
    ensures line[|line| - 1] != '\r' ==> TrimEol(line + "\n") == line
  {
    assert (line + "\n")[..|line|] == line;
  }

  lemma MarkerEnds(id: string)
    ensures var s, e := StartMarker(id), EndMarker(id);
            s != "" && e != "" && s[0] == e[0] == '/' && s[|s| - 1] == '>' && e[|e| - 1] == '<'
  {}

  /** The lines of a region that begins after `pad` on its line. */
  function RegionLines(pad: string, id: string, block: string): seq<string> {
    [pad + "  " + StartMarker(id) + "\n"] + Lines(TrimNewlines(block) + "\n") + ["  " + EndMarker(id) + "\n"]
  }

  lemma MarkerLinesPlain(pad: string, id: string)
    requires PlainId(id) && OneLine(pad)
    ensures OneLine(pad + "  " + StartMarker(id)) && OneLine("  " + EndMarker(id))
  {}

  lemma RegionRegrouped(pad: string, i: string, m: string, n: string, b: string, e: string)
    ensures pad + (i + m + n + b + n + i + e) + n == ((pad + i + m) + n) + ((b + n) + ((i + e) + n))
  {}

  lemma RegionLinesOf(pad: string, id: string, block: string)
    requires PlainId(id) && OneLine(pad)
    ensures Lines(pad + RenderRegion(id, block) + "\n") == RegionLines(pad, id, block)
  {
    MarkerLinesPlain(pad, id);
    hide Lines, TrimNewlines, StartMarker, EndMarker, OneLine;
    var s, b, e := pad + "  " + StartMarker(id), TrimNewlines(block) + "\n", "  " + EndMarker(id);
    RegionRegrouped(pad, "  ", StartMarker(id), "\n", TrimNewlines(block), EndMarker(id));
    OneLineLines(s);
    OneLineLines(e);
    LinesConcat(s + "\n", b + (e + "\n"));
    LinesConcat(b, e + "\n");
  }

  /** Lines around and inside a region: where the two scans come to rest. */
  lemma ScansRest(a: seq<string>, s: string, body: seq<string>, e: string, b: seq<string>, startM: string, endM: string)
    requires Without(a, startM) && Without(a, endM) && Without(body, endM)
    requires Trim(s) == startM != endM && Trim(e) == endM
    ensures FirstStart(a + ([s] + (body + ([e] + b))), startM) == Some(|Flatten(a)|)
    ensures FirstEnd(a + ([s] + (body + ([e] + b))), endM)
         == Some(|Flatten(a)| + |s| + |Flatten(body)| + |TrimEol(e)|)
  {
    var tail := [e] + b;
    var mid := [s] + (body + tail);
    SkipLines(a, mid, startM);
    SkipLines(a, mid, endM);
    SkipLines(body, tail, endM);
    assert mid[1..] == body + tail;
  }

  /** A region behind marker-free text, with only whitespace before it on its line, is found from the start of
      that line to the end of its end marker. */
  lemma FoundAfter(a: string, pad: string, id: string, block: string, b: string)
    requires PlainId(id) && AtLineEnd(a) && AllWhite(pad) && OneLine(pad)
    requires Clean(a, id) && Clean(TrimNewlines(block) + "\n", id)
    ensures RegionOf(a + (pad + RenderRegion(id, block) + "\n") + b, id)
         == Found(|a|, |a| + |pad| + |RenderRegion(id, block)|)
  {
    hide Lines, StartMarker, EndMarker, TrimNewlines, Trim;
    var r := pad + RenderRegion(id, block) + "\n";
    var s, e := pad + "  " + StartMarker(id) + "\n", "  " + EndMarker(id) + "\n";
    var body := Lines(TrimNewlines(block) + "\n");
    RegionTextLines(a, r, b, s, body, e, pad, id, block);
    MarkerEnds(id);
    MarkersDiffer(id);
    TrimIndented(pad + "  ", StartMarker(id));
    TrimIndented("  ", EndMarker(id));
    LinesFlatten(a);
    LinesFlatten(TrimNewlines(block) + "\n");
    ScansRest(Lines(a), s, body, e, Lines(b), StartMarker(id), EndMarker(id));
  }

  /** At the start of a line, exactly the region is found. */
  lemma FoundAt(a: string, id: string, block: string, b: string)
    requires PlainId(id) && AtLineEnd(a)
    requires Clean(a, id) && Clean(TrimNewlines(block) + "\n", id)
    ensures RegionOf(a + (RenderRegion(id, block) + "\n") + b, id) == Found(|a|, |a| + |RenderRegion(id, block)|)
  {
    FoundAfter(a, "", id, block, b);
    assert "" + RenderRegion(id, block) + "\n" == RenderRegion(id, block) + "\n";
  }

  lemma RegionTextLines(a: string, r: string, b: string, s: string, body: seq<string>, e: string,
                        pad: string, id: string, block: string)
    requires PlainId(id) && AtLineEnd(a) && OneLine(pad)
    requires r == pad + RenderRegion(id, block) + "\n" && [s] + body + [e] == RegionLines(pad, id, block)
    ensures Lines(a + r + b) == Lines(a) + ([s] + (body + ([e] + Lines(b))))
  {
    hide Lines, RenderRegion, RegionLines, PlainId, OneLine;
    RegionLinesOf(pad, id, block);
    assert AtLineEnd(r);
    assert a + r + b == a + (r + b);
    LinesConcat(a, r + b);
    LinesConcat(r, b);
    Regroup(s, body, e, Lines(b));
  }

  lemma Regroup<T>(s: T, body: seq<T>, e: T, b: seq<T>)
    ensures [s] + body + [e] + b == [s] + (body + ([e] + b))
  {}
}
