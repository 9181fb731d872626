/** From the sections of a build log to the modules handed to the store (engine/xcactivitylog.rs). */
module Sections {
  import opened Text
  import opened CompileStore

  /** The sections that parsed, in order. */
  function Parsed(sections: seq<Option<ParsedModule>>): seq<ParsedModule> {
    if sections == [] then []
    else
      var before, last := Parsed(sections[..|sections| - 1]), sections[|sections| - 1];
      if last.Some? then before + [last.value] else before
  }

  predicate Ascending(out: seq<ParsedModule>) {
    forall i, j :: 0 <= i < j < |out| ==> Less(out[i].name, out[j].name)
  }

  /** One entry a name, in order of name, each the newest parse of that name. */
  ghost predicate Collected(out: seq<ParsedModule>, parsed: seq<ParsedModule>) {
    && Ascending(out)
    && (forall i :: 0 <= i < |out| ==> LastParse(parsed, out[i].name) == Some(out[i].entry))
    && (forall name :: LastParse(parsed, name).Some? ==> exists i :: 0 <= i < |out| && out[i].name == name)
  }

  lemma LastParseAppend(parsed: seq<ParsedModule>, p: ParsedModule, name: string)
    ensures LastParse(parsed + [p], name) == if p.name == name then Some(p.entry) else LastParse(parsed, name)
  {
    assert (parsed + [p])[..|parsed|] == parsed;
  }

  /** The newest parse of a name is that of the last section that parsed to it. */
  lemma {:induction false} NewestSection(sections: seq<Option<ParsedModule>>, name: string)
    ensures match LastParse(Parsed(sections), name)
            case None => forall k :: 0 <= k < |sections| && sections[k].Some? ==> sections[k].value.name != name
            case Some(e) =>
              exists k :: 0 <= k < |sections| && sections[k] == Some(ParsedModule(name, e))
                          && forall j :: k < j < |sections| && sections[j].Some? ==> sections[j].value.name != name
  {
    if sections != [] {
      var last := |sections| - 1;
      NewestSection(sections[..last], name);
      assert forall j :: 0 <= j < last ==> sections[..last][j] == sections[j];
      if sections[last].Some? {
        var p := sections[last].value;
        assert p == ParsedModule(p.name, p.entry);
        LastParseAppend(Parsed(sections[..last]), p, name);
      }
    }
  }

  /** Insert section by section into a map, then read the map out in its order. */
  method CollectModules(sections: seq<Option<ParsedModule>>) returns (out: seq<ParsedModule>)
    ensures Collected(out, Parsed(sections))
    ensures forall i :: 0 <= i < |out| ==>
              exists k :: 0 <= k < |sections| && sections[k] == Some(out[i])
                          && forall j :: k < j < |sections| && sections[j].Some? ==> sections[j].value.name != out[i].name
    ensures forall k :: 0 <= k < |sections| && sections[k].Some? ==>
              exists i :: 0 <= i < |out| && out[i].name == sections[k].value.name
  {
    var byName: map<string, Entry> := map[];
    for i := 0 to |sections|
      invariant forall n :: n in byName <==> LastParse(Parsed(sections[..i]), n).Some?
      invariant forall n :: n in byName ==> LastParse(Parsed(sections[..i]), n) == Some(byName[n])
    {
      assert sections[..i + 1][..i] == sections[..i];
      ghost var before := Parsed(sections[..i]);
      if sections[i].Some? {
        var p := sections[i].value;
        forall n ensures LastParse(before + [p], n) == if p.name == n then Some(p.entry) else LastParse(before, n) {
          LastParseAppend(before, p, n);
        }
        byName := byName[p.name := p.entry];
      }
    }
    assert sections[..|sections|] == sections;
    out := ValuesInOrder(byName);
    forall i | 0 <= i < |out|
      ensures exists k :: 0 <= k < |sections| && sections[k] == Some(out[i])
                          && forall j :: k < j < |sections| && sections[j].Some? ==> sections[j].value.name != out[i].name
    {
      NewestSection(sections, out[i].name);
      assert out[i] == ParsedModule(out[i].name, out[i].entry);
    }
    forall k | 0 <= k < |sections| && sections[k].Some?
      ensures exists i :: 0 <= i < |out| && out[i].name == sections[k].value.name
    {
      NewestSection(sections, sections[k].value.name);
    }
  }

  method ValuesInOrder(byName: map<string, Entry>) returns (out: seq<ParsedModule>)
    ensures Ascending(out)
    ensures forall i :: 0 <= i < |out| ==> out[i].name in byName && byName[out[i].name] == out[i].entry
    ensures forall n :: n in byName ==> exists i :: 0 <= i < |out| && out[i].name == n
  {
    hide AtMost, Less;
    out := [];
    var rest := byName.Keys;
    while rest != {}
      invariant rest <= byName.Keys
      invariant Ascending(out)
      invariant forall i, n :: 0 <= i < |out| && n in rest ==> Less(out[i].name, n)
      invariant forall i :: 0 <= i < |out| ==> out[i].name in byName && byName[out[i].name] == out[i].entry
      invariant forall n :: n in byName && n !in rest ==> exists i :: 0 <= i < |out| && out[i].name == n
      decreases |rest|
    {
      ghost var least := LeastExists(rest);
      var name :| name in rest && forall n :: n in rest ==> AtMost(name, n);
      StrictlyLeast(rest, name);
      ghost var before := out;
      out := out + [ParsedModule(name, byName[name])];
      rest := rest - {name};
      assert out[|before|].name == name;
      forall n | n in byName && n !in rest ensures exists i :: 0 <= i < |out| && out[i].name == n {
        if n != name {
          var i :| 0 <= i < |before| && before[i].name == n;
          assert out[i].name == n;
        }
      }
    }
  }

  lemma StrictlyLeast(names: set<string>, least: string)
    requires forall n :: n in names ==> AtMost(least, n)
    ensures forall n :: n in names && n != least ==> Less(least, n)
  {
    hide Less;
  }

  lemma {:induction false} AscendingFound(out: seq<ParsedModule>, i: nat)
    requires Ascending(out) && i < |out|
    ensures LastParse(out, out[i].name) == Some(out[i].entry)
  {
    var last := |out| - 1;
    if i < last {
      LessAsymmetric(out[i].name, out[last].name);
      AscendingFound(out[..last], i);
    }
    hide Less;
  }

  lemma {:induction false} NotParsed(out: seq<ParsedModule>, name: string)
    requires forall i :: 0 <= i < |out| ==> out[i].name != name
    ensures LastParse(out, name).None?
  {
    if out != [] {
      NotParsed(out[..|out| - 1], name);
    }
  }

  /** Collecting first loses nothing: the store ends up as if every section had been merged in turn. */
  lemma CollectedMerges(modules: map<string, Entry>, parsed: seq<ParsedModule>, out: seq<ParsedModule>)
    requires Collected(out, parsed)
    ensures Merged(modules, out) == Merged(modules, parsed)
  {
    forall name ensures LastParse(out, name) == LastParse(parsed, name) {
      if i :| 0 <= i < |out| && out[i].name == name {
        AscendingFound(out, i);
      } else {
        NotParsed(out, name);
      }
    }
    hide Merged, LastParse, Collected;
    forall name
      ensures name in Merged(modules, out) <==> name in Merged(modules, parsed)
      ensures name in Merged(modules, out) ==> Merged(modules, out)[name] == Merged(modules, parsed)[name]
    {
      MergedLastWins(modules, out, name);
      MergedLastWins(modules, parsed, name);
    }
  }
}
