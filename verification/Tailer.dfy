/** Following a growing capture file line by line (engine/consoles.rs). */
module Tailer {
  import opened Text

  const NEWLINE: byte := 0x0A
  const RETURN: byte := 0x0D

  // -- lines ------------------------------------------------------------------

  /** The lines that are complete, without their newlines. */
  function Complete(s: seq<byte>): seq<seq<byte>> {
    if s == [] then []
    else
      var before := s[..|s| - 1];
      if s[|s| - 1] == NEWLINE then Complete(before) + [Rest(before)] else Complete(before)
  }

  /** What stands after the last newline. */
  function Rest(s: seq<byte>): seq<byte> {
    if s == [] || s[|s| - 1] == NEWLINE then [] else Rest(s[..|s| - 1]) + [s[|s| - 1]]
  }

  /** `trim_end_matches('\r')`. */
  function TrimReturns(s: seq<byte>): seq<byte> {
    if s != [] && s[|s| - 1] == RETURN then TrimReturns(s[..|s| - 1]) else s
  }

  function Trimmed(lines: seq<seq<byte>>): (r: seq<seq<byte>>)
    ensures |r| == |lines| && forall k :: 0 <= k < |lines| ==> r[k] == TrimReturns(lines[k])
  {
    seq(|lines|, i requires 0 <= i < |lines| => TrimReturns(lines[i]))
  }

  /** The lines put together again, each with its newline. */
  function Reassembled(lines: seq<seq<byte>>): seq<byte> {
    if lines == [] then [] else Reassembled(lines[..|lines| - 1]) + lines[|lines| - 1] + [NEWLINE]
  }

  /** Splitting loses nothing: lines and rest reassemble the text, and hold no newline. */
  lemma {:induction false} SplitReassembles(s: seq<byte>)
    ensures Reassembled(Complete(s)) + Rest(s) == s
    ensures NEWLINE !in Rest(s) && forall k :: 0 <= k < |Complete(s)| ==> NEWLINE !in Complete(s)[k]
  {
    if s != [] {
      var before := s[..|s| - 1];
      SplitReassembles(before);
      if s[|s| - 1] == NEWLINE {
        assert Complete(s)[..|Complete(s)| - 1] == Complete(before);
      }
      assert s == before + [s[|s| - 1]];
    }
  }

  /** Lines do not depend on where the text was cut into pieces. */
  lemma {:induction false} SplitContinues(a: seq<byte>, b: seq<byte>)
    ensures Complete(a + b) == Complete(a) + Complete(Rest(a) + b)
    ensures Rest(a + b) == Rest(Rest(a) + b)
  {
    if b == [] {
      assert a + b == a && Rest(a) + b == Rest(a);
      NothingComplete(a);
    } else {
      var c, last := b[..|b| - 1], b[|b| - 1];
      SplitContinues(a, c);
      assert (a + b)[..|a + b| - 1] == a + c;
      assert (Rest(a) + b)[..|Rest(a) + b| - 1] == Rest(a) + c;
      assert (a + b)[|a + b| - 1] == last && (Rest(a) + b)[|Rest(a) + b| - 1] == last;
    }
  }

  /** A rest holds no complete line and is its own rest. */
  lemma {:induction false} NothingComplete(s: seq<byte>)
    ensures Complete(Rest(s)) == [] && Rest(Rest(s)) == Rest(s)
  {
    if s != [] && s[|s| - 1] != NEWLINE {
      NothingComplete(s[..|s| - 1]);
      assert Rest(s)[..|Rest(s)| - 1] == Rest(s[..|s| - 1]);
    }
  }

  lemma {:induction false} PlainRest(s: seq<byte>)
    requires NEWLINE !in s
    ensures Complete(s) == [] && Rest(s) == s
  {
    if s != [] {
      PlainRest(s[..|s| - 1]);
      assert s == s[..|s| - 1] + [s[|s| - 1]];
    }
  }

  /** Taking the first line off the front. */
  lemma FirstLine(line: seq<byte>, rest: seq<byte>)
    requires NEWLINE !in line
    ensures Complete(line + [NEWLINE] + rest) == [line] + Complete(rest)
    ensures Rest(line + [NEWLINE] + rest) == Rest(rest)
  {
    var s := line + [NEWLINE];
    PlainRest(line);
    assert s[..|s| - 1] == line;
    assert Complete(s) == [line] && Rest(s) == [];
    SplitContinues(s, rest);
    assert [] + rest == rest;
  }

  lemma TrimmedConcat(a: seq<seq<byte>>, b: seq<seq<byte>>)
    ensures Trimmed(a + b) == Trimmed(a) + Trimmed(b)
  {}

  // -- the tailer -------------------------------------------------------------

  /** What one poll met: no file, or a length from the metadata and then what the read brought, if it succeeded. */
  datatype Poll = Missing | Seen(len: nat, got: Option<seq<byte>>)

  datatype State = State(offset: nat, partial: seq<byte>, emitted: seq<seq<byte>>)

  function Fresh(emitted: seq<seq<byte>>): State {
    State(0, [], emitted)
  }

  function Took(t: State, buf: seq<byte>): State {
    State(t.offset + |buf|, Rest(t.partial + buf), t.emitted + Trimmed(Complete(t.partial + buf)))
  }

  /** `drain_new`: a file shorter than the offset was truncated, so start over. */
  function Drain(t: State, p: Poll): State {
    match p
    case Missing => t
    case Seen(len, got) =>
      var u := if len < t.offset then Fresh(t.emitted) else t;
      if len == u.offset || got.None? then u else Took(u, got.value)
  }

  /** The last partial line goes out when the tailer stops. */
  function Flush(t: State): State {
    if t.partial == [] then t else t.(emitted := t.emitted + [TrimReturns(t.partial)])
  }

  function DrainAll(t: State, ps: seq<Poll>): State {
    if ps == [] then t else Drain(DrainAll(t, ps[..|ps| - 1]), ps[|ps| - 1])
  }

  class FileTailer {
    var offset: nat
    var partial: seq<byte>
    var emitted: seq<seq<byte>>

    ghost function Now(): State
      reads this
    {
      State(offset, partial, emitted)
    }

    constructor ()
      ensures Now() == Fresh([])
    {
      offset, partial, emitted := 0, [], [];
    }

    method EmitLines()
      modifies this`partial, this`emitted
      ensures partial == Rest(old(partial)) && emitted == old(emitted) + Trimmed(Complete(old(partial)))
    {
      hide Complete, Rest, TrimReturns;
      var pos := Position(partial);
      while pos.Some?
        invariant match pos
                  case None => NEWLINE !in partial
                  case Some(i) => 0 <= i < |partial| && partial[i] == NEWLINE && NEWLINE !in partial[..i]
        invariant Rest(partial) == Rest(old(partial))
        invariant emitted + Trimmed(Complete(partial)) == old(emitted) + Trimmed(Complete(old(partial)))
        decreases |partial|
      {
        var line, left := partial[..pos.value], partial[pos.value + 1..];
        assert partial == line + [NEWLINE] + left;
        FirstLine(line, left);
        TrimmedConcat([line], Complete(left));
        assert Trimmed([line]) == [TrimReturns(line)];
        emitted := emitted + [TrimReturns(line)];
        partial := left;
        pos := Position(partial);
      }
      PlainRest(partial);
    }

    method DrainNew(p: Poll)
      modifies this
      ensures Now() == Drain(old(Now()), p)
      ensures p.Missing? ==> unchanged(this)
      ensures p.Seen? ==>
                var start, kept := if p.len < old(offset) then 0 else old(offset),
                                   if p.len < old(offset) then [] else old(partial);
                if p.len == start || p.got.None? then offset == start && partial == kept && emitted == old(emitted)
                else offset == start + |p.got.value| && partial == Rest(kept + p.got.value)
                     && emitted == old(emitted) + Trimmed(Complete(kept + p.got.value))
    {
      hide Complete, Rest;
      if p.Missing? {
        return;
      }
      if p.len < offset {
        offset, partial := 0, [];
      }
      if p.len == offset || p.got.None? {
        return;
      }
      offset, partial := offset + |p.got.value|, partial + p.got.value;
      EmitLines();
    }

    /** Poll until told to stop, then once more, then flush. */
    method TailFile(ps: seq<Poll>, last: Poll)
      modifies this
      ensures Now() == Flush(Drain(DrainAll(old(Now()), ps), last))
    {
      hide Drain;
      for i := 0 to |ps|
        invariant Now() == DrainAll(old(Now()), ps[..i])
      {
        assert ps[..i + 1][..i] == ps[..i];
        DrainNew(ps[i]);
      }
      assert ps[..|ps|] == ps;
      DrainNew(last);
      if partial != [] {
        emitted := emitted + [TrimReturns(partial)];
      }
    }
  }

  method Position(s: seq<byte>) returns (r: Option<nat>)
    ensures match r
            case None => NEWLINE !in s
            case Some(i) => i < |s| && s[i] == NEWLINE && NEWLINE !in s[..i]
  {
    for i := 0 to |s|
      invariant NEWLINE !in s[..i]
    {
      if s[i] == NEWLINE {
        return Some(i);
      }
    }
    assert s[..|s|] == s;
    r := None;
  }

  // -- any schedule -----------------------------------------------------------

  /** The poll met a file that so far holds a prefix of `content` and is not shorter than what was read of it; the
      read may have come up short or failed. */
  predicate Grows(content: seq<byte>, t: State, p: Poll) {
    match p
    case Missing => true
    case Seen(len, got) =>
      t.offset <= len <= |content|
      && (got.Some? ==> t.offset + |got.value| <= len && got.value == content[t.offset..t.offset + |got.value|])
  }

  predicate AllGrow(content: seq<byte>, t: State, ps: seq<Poll>) {
    ps == [] || (AllGrow(content, t, ps[..|ps| - 1]) && Grows(content, DrainAll(t, ps[..|ps| - 1]), ps[|ps| - 1]))
  }

  /** The state says exactly what was read of the content, after what had been emitted before. */
  predicate Tracks(content: seq<byte>, before: seq<seq<byte>>, t: State) {
    && t.offset <= |content|
    && t.partial == Rest(content[..t.offset])
    && t.emitted == before + Trimmed(Complete(content[..t.offset]))
  }

  lemma TracksDrain(content: seq<byte>, before: seq<seq<byte>>, t: State, p: Poll)
    requires Tracks(content, before, t) && Grows(content, t, p)
    ensures Tracks(content, before, Drain(t, p))
  {
    hide Complete, Rest, Trimmed;
    if p.Seen? && p.got.Some? && p.len != t.offset {
      TracksTook(content, before, t, p.got.value);
    }
  }

  lemma TracksTook(content: seq<byte>, before: seq<seq<byte>>, t: State, buf: seq<byte>)
    requires Tracks(content, before, t)
    requires t.offset + |buf| <= |content| && buf == content[t.offset..t.offset + |buf|]
    ensures Tracks(content, before, Took(t, buf))
  {
    hide Complete, Rest, Trimmed;
    var have := content[..t.offset];
    assert content[..t.offset + |buf|] == have + buf;
    SplitContinues(have, buf);
    var a, b := Complete(have), Complete(Rest(have) + buf);
    TrimmedConcat(a, b);
    Regroup(before, Trimmed(a), Trimmed(b));
  }

  lemma Regroup<T>(a: seq<T>, b: seq<T>, c: seq<T>)
    ensures a + (b + c) == (a + b) + c
  {}

  /** However a growing file is polled, the lines emitted and the partial line depend only on how far it was read:
      they are its newline split up to there. */
  lemma {:induction false} ScheduleIndependent(content: seq<byte>, before: seq<seq<byte>>, ps: seq<Poll>)
    requires AllGrow(content, Fresh(before), ps)
    ensures Tracks(content, before, DrainAll(Fresh(before), ps))
  {
    if ps == [] {
      assert content[..0] == [];
      assert before + Trimmed([]) == before;
    } else {
      ScheduleIndependent(content, before, ps[..|ps| - 1]);
      TracksDrain(content, before, DrainAll(Fresh(before), ps[..|ps| - 1]), ps[|ps| - 1]);
      hide Tracks, Grows, Drain;
    }
  }

  /** The whole content as lines: the newline split, a last line without newline included, trailing CRs trimmed. */
  function Lines(content: seq<byte>): seq<seq<byte>> {
    Trimmed(Complete(content)) + (if Rest(content) == [] then [] else [TrimReturns(Rest(content))])
  }

  lemma ReadToTheEnd(content: seq<byte>, t: State, p: Poll)
    requires Grows(content, t, p)
    requires t.offset == |content| || (p.Seen? && p.got.Some? && t.offset + |p.got.value| == |content|)
    ensures Drain(t, p).offset == |content|
  {
    hide Complete, Rest, Trimmed;
  }

  /** When the last drain read the file to its end, exactly the lines of the content have been emitted. */
  lemma FinalDrainExact(content: seq<byte>, ps: seq<Poll>, last: Poll)
    requires AllGrow(content, Fresh([]), ps) && Grows(content, DrainAll(Fresh([]), ps), last)
    requires var t := DrainAll(Fresh([]), ps);
             t.offset == |content| || (last.Seen? && last.got.Some? && t.offset + |last.got.value| == |content|)
    ensures Flush(Drain(DrainAll(Fresh([]), ps), last)).emitted == Lines(content)
  {
    var t := DrainAll(Fresh([]), ps);
    ScheduleIndependent(content, [], ps);
    TracksDrain(content, [], t, last);
    ReadToTheEnd(content, t, last);
    hide Complete, Rest, Trimmed, TrimReturns, Drain, DrainAll, AllGrow, Grows;
    assert content[..|content|] == content;
  }

  /** `n` carriage returns. */
  function Returns(n: nat): seq<byte> {
    seq(n, _ => 0x0D)
  }

  /** Lines written out, each with any number of carriage returns before its newline. */
  function Terminated(bodies: seq<seq<byte>>, counts: seq<nat>): seq<byte>
    requires |bodies| == |counts|
  {
    if bodies == [] then [] else bodies[0] + Returns(counts[0]) + [0x0A] + Terminated(bodies[1..], counts[1..])
  }

  /** No newline inside, no carriage return at the end. */
  predicate PlainBody(b: seq<byte>) {
    0x0A !in b && (b != [] ==> b[|b| - 1] != 0x0D)
  }

  lemma {:induction false} ReturnsTrimmed(b: seq<byte>, n: nat)
    requires PlainBody(b)
    ensures TrimReturns(b + Returns(n)) == b && NEWLINE !in b + Returns(n)
  {
    if n == 0 {
      assert b + Returns(0) == b;
    } else {
      ReturnsTrimmed(b, n - 1);
      assert (b + Returns(n))[..|b| + n - 1] == b + Returns(n - 1);
    }
  }

  /** Lines written out are the lines read: the carriage returns at their ends go, and a last line without newline
      counts unless it is empty. */
  lemma {:induction false} LinesSpelledOut(bodies: seq<seq<byte>>, counts: seq<nat>, last: seq<byte>, more: nat)
    requires |bodies| == |counts| && PlainBody(last) && forall k :: 0 <= k < |bodies| ==> PlainBody(bodies[k])
    ensures Lines(Terminated(bodies, counts) + (last + Returns(more)))
         == bodies + if last == [] && more == 0 then [] else [last]
  {
    var end := last + Returns(more);
    if bodies == [] {
      assert Terminated(bodies, counts) + end == end;
      ReturnsTrimmed(last, more);
      PlainRest(end);
    } else {
      var rest := Terminated(bodies[1..], counts[1..]) + end;
      LinesSpelledOut(bodies[1..], counts[1..], last, more);
      OneLineOff(bodies[0], counts[0], rest);
      hide Lines, PlainBody;
      Regrouped(bodies[0] + Returns(counts[0]) + [0x0A], Terminated(bodies[1..], counts[1..]), end);
      assert [bodies[0]] + bodies[1..] == bodies;
    }
  }

  lemma Regrouped<T>(a: seq<T>, b: seq<T>, c: seq<T>)
    ensures (a + b) + c == a + (b + c)
  {}

  /** The first line, as it is emitted, off the front. */
  lemma OneLineOff(body: seq<byte>, n: nat, rest: seq<byte>)
    requires PlainBody(body)
    ensures Lines(body + Returns(n) + [0x0A] + rest) == [body] + Lines(rest)
  {
    var line := body + Returns(n);
    ReturnsTrimmed(body, n);
    FirstLine(line, rest);
    TrimmedConcat([line], Complete(rest));
    assert Trimmed([line]) == [body];
    hide Complete, Rest, TrimReturns, Trimmed;
    Regrouped([body], Trimmed(Complete(rest)), if Rest(rest) == [] then [] else [TrimReturns(Rest(rest))]);
  }

  // -- truncation -------------------------------------------------------------

  /** One life of the file between truncations: what it came to hold, and the polls that met it. */
  datatype Life = Life(content: seq<byte>, polls: seq<Poll>)

  /** Each life after the first is met while shorter than what was read of the one before; then it only grows. */
  predicate Lives(t: State, ls: seq<Life>) {
    ls == [] ||
    var before := DrainLives(t, ls[..|ls| - 1]);
    var life := ls[|ls| - 1];
    Lives(t, ls[..|ls| - 1])
    && (|ls| > 1 ==> life.polls != [] && life.polls[0].Seen? && life.polls[0].len < before.offset)
    && AllGrow(life.content, Fresh(before.emitted), life.polls)
  }

  function DrainLives(t: State, ls: seq<Life>): State {
    if ls == [] then t else DrainAll(DrainLives(t, ls[..|ls| - 1]), ls[|ls| - 1].polls)
  }

  /** What was emitted of each life: the lines complete by the time it ended. */
  function Emitted(t: State, ls: seq<Life>): seq<seq<byte>>
    requires Lives(t, ls)
  {
    if ls == [] then t.emitted
    else
      var emitted := DrainLives(t, ls[..|ls| - 1]).emitted;
      var end := DrainAll(Fresh(emitted), ls[|ls| - 1].polls).offset;
      Emitted(t, ls[..|ls| - 1])
      + Trimmed(Complete(if end <= |ls[|ls| - 1].content| then ls[|ls| - 1].content[..end] else []))
  }

  /** A truncation that is seen is a fresh start with the emitted lines kept. */
  lemma TruncationRestarts(t: State, p: Poll)
    requires p.Seen? && p.len < t.offset
    ensures Drain(t, p) == Drain(Fresh(t.emitted), p)
  {
    hide Took;
  }

  lemma {:induction false} RestartedPolls(t: State, ps: seq<Poll>)
    requires ps != [] && ps[0].Seen? && ps[0].len < t.offset
    ensures DrainAll(t, ps) == DrainAll(Fresh(t.emitted), ps)
  {
    hide Drain;
    if |ps| == 1 {
      TruncationRestarts(t, ps[0]);
      assert ps[..0] == [];
    } else {
      RestartedPolls(t, ps[..|ps| - 1]);
    }
  }

  /** Over any number of truncations, each seen as the file being too short: what has been emitted is, life by life,
      the newline split of what was read of that life. Only a partial line is lost to a truncation. */
  lemma {:induction false} LivesTracked(ls: seq<Life>)
    requires Lives(Fresh([]), ls)
    ensures DrainLives(Fresh([]), ls).emitted == Emitted(Fresh([]), ls)
  {
    if ls != [] {
      var t, life := DrainLives(Fresh([]), ls[..|ls| - 1]), ls[|ls| - 1];
      LivesTracked(ls[..|ls| - 1]);
      if |ls| > 1 {
        RestartedPolls(t, life.polls);
      } else {
        assert ls[..0] == [];
      }
      ScheduleIndependent(life.content, t.emitted, life.polls);
      hide DrainAll, AllGrow, Complete, Trimmed, Rest;
    }
  }

  // -- truncations that are not seen ------------------------------------------

  /** What a poll meets when the file holds `content`, read to its end from wherever the drain reads. */
  function Meets(t: State, content: seq<byte>): Poll {
    Seen(|content|, Some(if |content| < t.offset then content else content[t.offset..]))
  }

  /** Carriage returns up to a newline. */
  predicate ReturnsThenNewline(s: seq<byte>) {
    s != [] && (s[0] == NEWLINE || (s[0] == RETURN && ReturnsThenNewline(s[1..])))
  }

  /** The partial line goes on as if it had been read from `content`: it is what `content` begins with, or differs
      from that only in carriage returns that the end of the line trims. */
  predicate Continues(t: State, content: seq<byte>)
    requires t.offset <= |content|
  {
    var head, tail := content[..t.offset], content[t.offset..];
    t.partial == head
    || (NEWLINE !in head && ReturnsThenNewline(tail) && TrimReturns(t.partial) == TrimReturns(head))
  }

  /** The first line of a text that has one. */
  lemma {:induction false} SplitFirst(s: seq<byte>) returns (line: seq<byte>, rest: seq<byte>)
    requires NEWLINE in s
    ensures s == line + [NEWLINE] + rest && NEWLINE !in line
  {
    if s[0] == NEWLINE {
      line, rest := [], s[1..];
    } else {
      line, rest := SplitFirst(s[1..]);
      line := [s[0]] + line;
    }
  }

  predicate AllReturns(s: seq<byte>) {
    forall k :: 0 <= k < |s| ==> s[k] == RETURN
  }

  lemma {:induction false} ReturnsBeforeNewline(line: seq<byte>, rest: seq<byte>)
    requires NEWLINE !in line
    ensures ReturnsThenNewline(line + [NEWLINE] + rest) <==> AllReturns(line)
  {
    var s := line + [NEWLINE] + rest;
    if line != [] {
      assert s[1..] == line[1..] + [NEWLINE] + rest;
      ReturnsBeforeNewline(line[1..], rest);
    }
  }

  /** What a line ends with decides whether trimming sees what it begins with. */
  lemma {:induction false} TrimSeesHead(a: seq<byte>, b: seq<byte>, x: seq<byte>)
    ensures TrimReturns(a + x) == TrimReturns(b + x)
       <==> if AllReturns(x) then TrimReturns(a) == TrimReturns(b) else a == b
  {
    if x == [] {
      assert a + x == a && b + x == b;
    } else {
      var y, last := x[..|x| - 1], x[|x| - 1];
      assert (a + x)[..|a + x| - 1] == a + y && (b + x)[..|b + x| - 1] == b + y;
      assert AllReturns(x) <==> last == RETURN && AllReturns(y);
      if last == RETURN {
        TrimSeesHead(a, b, y);
      } else {
        SameTail(a, b, x);
      }
    }
  }

  lemma SameTail<T>(a: seq<T>, b: seq<T>, x: seq<T>)
    ensures a + x == b + x <==> a == b
  {
    if a + x == b + x {
      assert a == (a + x)[..|a|] && b == (b + x)[..|b|];
    }
  }

  /** The same split of the same end behind two heads, the first without a newline. */
  lemma SameSplit(p: seq<byte>, head: seq<byte>, tail: seq<byte>)
    requires NEWLINE !in p
    ensures Complete(p + tail) == Complete(head + tail) && Rest(p + tail) == Rest(head + tail) <==> p == head
  {
    hide Complete, Rest;
    SplitReassembles(p + tail);
    SplitReassembles(head + tail);
    SameTail(p, head, tail);
  }

  /** What is emitted and kept behind two heads. */
  predicate SameOutput(p: seq<byte>, head: seq<byte>, tail: seq<byte>) {
    Trimmed(Complete(p + tail)) == Trimmed(Complete(head + tail)) && Rest(p + tail) == Rest(head + tail)
  }

  lemma SameOutputOpen(p: seq<byte>, head: seq<byte>, tail: seq<byte>)
    requires NEWLINE !in p && NEWLINE !in tail
    ensures SameOutput(p, head, tail) <==> p == head
  {
    hide Complete, Rest, TrimReturns;
    PlainRest(p + tail);
    if Trimmed(Complete(head + tail)) == [] {
      assert Complete(head + tail) == [];
    }
    SameSplit(p, head, tail);
  }

  /** The split of a head, the rest of its last line, and what follows. */
  lemma LineBehind(head: seq<byte>, line: seq<byte>, rest: seq<byte>)
    requires NEWLINE !in line
    ensures var s := head + (line + [NEWLINE] + rest);
            Complete(s) == Complete(head) + ([Rest(head) + line] + Complete(rest)) && Rest(s) == Rest(rest)
  {
    hide Complete, Rest;
    var tail := line + [NEWLINE] + rest;
    SplitContinues(head, tail);
    SplitReassembles(head);
    assert Rest(head) + tail == (Rest(head) + line) + [NEWLINE] + rest;
    FirstLine(Rest(head) + line, rest);
  }

  lemma NoLineIffPlain(head: seq<byte>)
    ensures Complete(head) == [] <==> NEWLINE !in head
    ensures NEWLINE !in head ==> Rest(head) == head
  {
    SplitReassembles(head);
    if NEWLINE !in head {
      PlainRest(head);
    }
    hide Complete, Rest;
  }

  lemma SameLines(lines: seq<seq<byte>>, x: seq<byte>, y: seq<byte>, more: seq<seq<byte>>)
    ensures Trimmed([x] + more) == Trimmed(lines + ([y] + more)) <==> lines == [] && TrimReturns(x) == TrimReturns(y)
  {
    hide TrimReturns, Trimmed;
    TrimmedConcat([x], more);
    TrimmedConcat(lines, [y] + more);
    TrimmedConcat([y], more);
    TrimmedOne(x);
    TrimmedOne(y);
    OneLineMore(Trimmed(lines), TrimReturns(x), TrimReturns(y), Trimmed(more));
  }

  lemma TrimmedOne(x: seq<byte>)
    ensures Trimmed([x]) == [TrimReturns(x)]
  {}

  lemma OneLineMore<T>(lines: seq<T>, x: T, y: T, more: seq<T>)
    ensures [x] + more == lines + ([y] + more) <==> lines == [] && x == y
  {
    if [x] + more == lines + ([y] + more) {
      assert |[x] + more| == |lines + ([y] + more)|;
      assert ([x] + more)[0] == x && ([y] + more)[0] == y;
    }
  }

  lemma SameOutputLine(p: seq<byte>, head: seq<byte>, line: seq<byte>, rest: seq<byte>)
    requires NEWLINE !in p && NEWLINE !in line
    ensures SameOutput(p, head, line + [NEWLINE] + rest)
       <==> NEWLINE !in head && TrimReturns(p + line) == TrimReturns(head + line)
  {
    LineBehind(p, line, rest);
    LineBehind(head, line, rest);
    NoLineIffPlain(p);
    NoLineIffPlain(head);
    hide Complete, Rest, TrimReturns, Trimmed;
    var more := [p + line] + Complete(rest);
    assert [] + more == more;
    SameLines(Complete(head), p + line, Rest(head) + line, Complete(rest));
  }

  /** Exactly when a poll that meets new content goes on as a fresh start would: when the file is found too short, or
      the partial line continues into the content. */
  lemma FreshStartIff(t: State, content: seq<byte>)
    requires NEWLINE !in t.partial
    ensures Drain(t, Meets(t, content)) == Drain(Fresh(t.emitted), Meets(Fresh(t.emitted), content))
       <==> |content| < t.offset || Continues(t, content)
  {
    hide Complete, Rest, TrimReturns, ReturnsThenNewline, Trimmed;
    assert content[0..] == content;
    if |content| >= t.offset {
      var head, tail := content[..t.offset], content[t.offset..];
      assert head + tail == content;
      ReadOn(t, content);
      if NEWLINE in tail {
        var line, rest := SplitFirst(tail);
        SameOutputLine(t.partial, head, line, rest);
        ReturnsBeforeNewline(line, rest);
        TrimSeesHead(t.partial, head, line);
      } else {
        SameOutputOpen(t.partial, head, tail);
        NoReturnsThenNewline(tail);
      }
    }
  }

  lemma {:induction false} NoReturnsThenNewline(s: seq<byte>)
    requires NEWLINE !in s
    ensures !ReturnsThenNewline(s)
  {
    if s != [] {
      NoReturnsThenNewline(s[1..]);
    }
  }

  /** Reading on to the end of the content, against reading all of it. */
  lemma ReadOn(t: State, content: seq<byte>)
    requires NEWLINE !in t.partial && t.offset <= |content|
    ensures Drain(t, Meets(t, content)) == Drain(Fresh(t.emitted), Meets(Fresh(t.emitted), content))
       <==> SameOutput(t.partial, content[..t.offset], content[t.offset..])
  {
    hide Complete, Rest, TrimReturns;
    var tail := content[t.offset..];
    assert content[0..] == content && content[..t.offset] + tail == content;
    PlainRest(t.partial);
    PlainRest([]);
    if tail == [] {
      assert t.partial + tail == t.partial && content[..t.offset] == content;
    }
    assert t.emitted + [] == t.emitted;
    assert [] + content == content;
    SameTailOf(t.emitted, Trimmed(Complete(t.partial + tail)), Trimmed(Complete(content)));
  }

  lemma SameTailOf<T>(a: seq<T>, x: seq<T>, y: seq<T>)
    ensures a + x == a + y <==> x == y
  {
    if a + x == a + y {
      assert x == (a + x)[|a|..] && y == (a + y)[|a|..];
    }
  }

  /** A truncation that is not seen: `ab` has been read, the file is started over with other content and has grown
      past the offset by the next poll. The line emitted belongs to neither content. */
  lemma UnseenTruncation()
    ensures var first, second := [0x61, 0x62], [0x78, 0x78, 0x79, NEWLINE];
            var t := Drain(Fresh([]), Meets(Fresh([]), first));
            !Continues(t, second)
            && Drain(t, Meets(t, second)).emitted == [[0x61, 0x62, 0x79]]
            && Lines(second) == [[0x78, 0x78, 0x79]]
  {
    hide Complete, Rest;
    var ab, aby, xxy := [0x61, 0x62], [0x61, 0x62, 0x79], [0x78, 0x78, 0x79];
    var second := xxy + [NEWLINE] + [];
    PlainRest([]);
    PlainRest(ab);
    assert ab[0..] == ab && [] + ab == ab;
    assert Took(Fresh([]), ab) == State(2, ab, []);
    FirstLine(aby, []);
    FirstLine(xxy, []);
    assert second == [0x78, 0x78, 0x79, NEWLINE];
    assert second[..2] == [0x78, 0x78] && second[2..] == [0x79, NEWLINE];
    assert ab + [0x79, NEWLINE] == aby + [NEWLINE] + [];
    assert Trimmed([aby]) == [aby] && Trimmed([xxy]) == [xxy];
  }
}
