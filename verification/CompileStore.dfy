/** The compile-argument store and its derived indexes (engine/compile_store.rs). */
module CompileStore {
  import opened Text

  /** An absolute path as its components; the root is the empty list. */
  type Path = seq<string>

  const STORE_VERSION: nat := 1
  const DOT_SWIFT := ".swift"

  /** One module's arguments and the files it compiles, inline and through response files. */
  datatype Entry = Entry(args: seq<string>, workingDir: string, files: seq<Path>, fileLists: seq<Path>,
                         indexStorePath: Option<string>)

  datatype ParsedModule = ParsedModule(name: string, entry: Entry)

  datatype Watermark = Advance(log: Option<string>) | Keep

  /** What a store remembers from one process to the next. */
  datatype Contents = Contents(modules: map<string, Entry>, lastLog: Option<string>)

  datatype Persisted = Persisted(version: nat, buildRoot: string, scheme: string, contents: Contents)

  /** The file system, as far as the store looks at it: the lower-cased real path of a file, the response files
      that exist with the paths they list, and the directories holding a `.git`. */
  datatype Disk = Disk(key: Path -> Path, lists: map<Path, seq<Path>>, git: set<Path>)

  // -- the order of a BTreeMap's keys -----------------------------------------

  predicate Less(a: string, b: string) {
    b != "" && (a == "" || a[0] < b[0] || (a[0] == b[0] && Less(a[1..], b[1..])))
  }

  predicate AtMost(a: string, b: string) {
    a == b || Less(a, b)
  }

  lemma {:induction false} LessTransitive(a: string, b: string, c: string)
    requires Less(a, b) && Less(b, c)
    ensures Less(a, c)
  {
    if a != "" && a[0] == b[0] && b[0] == c[0] {
      LessTransitive(a[1..], b[1..], c[1..]);
    }
  }

  lemma {:induction false} LessTotal(a: string, b: string)
    ensures a == b || Less(a, b) || Less(b, a)
  {
    if a != "" && b != "" && a[0] == b[0] {
      LessTotal(a[1..], b[1..]);
      assert a == [a[0]] + a[1..] && b == [b[0]] + b[1..];
    }
  }

  lemma {:induction false} LessAsymmetric(a: string, b: string)
    requires Less(a, b)
    ensures !Less(b, a) && a != b
  {
    if a != "" && a[0] == b[0] {
      LessAsymmetric(a[1..], b[1..]);
    }
  }

  /** The order is the dictionary's: a proper prefix comes first, else the first difference decides. */
  lemma {:induction false} DictionaryOrder(a: string, b: string)
    ensures Less(a, b)
       <==> exists k :: 0 <= k <= |a| && k < |b| && a[..k] == b[..k] && (k == |a| || a[k] < b[k])
  {
    if b != "" && (a == "" || a[0] < b[0]) {
      assert a[..0] == b[..0];
    } else if a != "" && b != "" && a[0] == b[0] {
      DictionaryOrder(a[1..], b[1..]);
      if Less(a[1..], b[1..]) {
        var k :| 0 <= k <= |a[1..]| && k < |b[1..]| && a[1..][..k] == b[1..][..k]
                 && (k == |a[1..]| || a[1..][k] < b[1..][k]);
        assert a[..k + 1] == [a[0]] + a[1..][..k] && b[..k + 1] == [b[0]] + b[1..][..k];
      }
      forall k | 0 <= k <= |a| && k < |b| && a[..k] == b[..k] && (k == |a| || a[k] < b[k]) ensures Less(a[1..], b[1..]) {
        assert k > 0;
        assert a[1..][..k - 1] == a[..k][1..] && b[1..][..k - 1] == b[..k][1..];
      }
    } else if a != "" && b != "" {
      assert forall k :: 0 < k <= |a| && k < |b| ==> a[..k][0] == a[0] && b[..k][0] == b[0];
    }
  }

  predicate IsLeast(least: string, names: set<string>) {
    least in names && forall n :: n in names ==> AtMost(least, n)
  }

  lemma AtMostTransitive(a: string, b: string, c: string)
    requires AtMost(a, b) && AtMost(b, c)
    ensures AtMost(a, c)
  {
    if a != b && b != c {
      LessTransitive(a, b, c);
    }
  }

  /** The lesser of a name and the least of the others is the least of all. */
  lemma LeastOfMore(names: set<string>, n: string, least: string)
    requires n in names && IsLeast(least, names - {n})
    ensures IsLeast(if Less(n, least) then n else least, names)
  {
    hide Less;
    LessTotal(n, least);
    forall m | m in names ensures AtMost(if Less(n, least) then n else least, m) {
      if m != n {
        assert m in names - {n};
        if Less(n, least) {
          AtMostTransitive(n, least, m);
        }
      }
    }
  }

  /** A non-empty set of names has a least one. */
  lemma {:induction false} LeastExists(names: set<string>) returns (least: string)
    requires names != {}
    ensures IsLeast(least, names)
    decreases |names|
  {
    var n :| n in names;
    if names == {n} {
      least := n;
    } else {
      assert names - {n} != {};
      least := LeastExists(names - {n});
      LeastOfMore(names, n, least);
      least := if Less(n, least) then n else least;
    }
    hide Less;
  }

  // -- merging ----------------------------------------------------------------

  /** Later modules replace earlier ones of the same name; a nameless module is skipped. */
  function Merged(modules: map<string, Entry>, parsed: seq<ParsedModule>): map<string, Entry> {
    if parsed == [] then modules
    else
      var before := Merged(modules, parsed[..|parsed| - 1]);
      var last := parsed[|parsed| - 1];
      if last.name == "" then before else before[last.name := last.entry]
  }

  /** Some log of the batch parsed to a module. */
  predicate Changes(groups: seq<seq<ParsedModule>>) {
    exists i :: 0 <= i < |groups| && groups[i] != []
  }

  lemma ChangesIs(groups: seq<seq<ParsedModule>>)
    ensures Changes(groups) <==> exists i :: 0 <= i < |groups| && groups[i] != []
  {}

  lemma ChangesNext(groups: seq<seq<ParsedModule>>, i: nat)
    requires i < |groups|
    ensures Changes(groups[..i + 1]) <==> Changes(groups[..i]) || groups[i] != []
  {
    if Changes(groups[..i]) {
      var k :| 0 <= k < i && groups[..i][k] != [];
      assert groups[..i + 1][k] != [];
    } else if groups[i] != [] {
      assert groups[..i + 1][i] != [];
    }
  }

  function MergedAll(c: Contents, groups: seq<seq<ParsedModule>>, watermark: Watermark): Contents {
    Contents(Merged(c.modules, Flatten(groups)),
             if Changes(groups) && watermark.Advance? then watermark.log else c.lastLog)
  }

  /** A store file serves only its own version, build root and scheme. */
  function Read(file: Option<Persisted>, buildRoot: string, scheme: string): Contents {
    if file.Some? && file.value.version == STORE_VERSION && file.value.buildRoot == buildRoot
       && file.value.scheme == scheme
    then file.value.contents else Contents(map[], None)
  }

  function Written(c: Contents, buildRoot: string, scheme: string): Persisted {
    Persisted(STORE_VERSION, buildRoot, scheme, c)
  }

  /** The file after one locked merge: untouched when there was nothing to merge or the save failed. */
  function AfterMerge(file: Option<Persisted>, buildRoot: string, scheme: string,
                      groups: seq<seq<ParsedModule>>, watermark: Watermark, saved: bool): Option<Persisted> {
    if saved && Changes(groups)
    then Some(Written(MergedAll(Read(file, buildRoot, scheme), groups, watermark), buildRoot, scheme))
    else file
  }

  lemma {:induction false} MergedAppend(modules: map<string, Entry>, a: seq<ParsedModule>, b: seq<ParsedModule>)
    ensures Merged(modules, a + b) == Merged(Merged(modules, a), b)
  {
    if b == [] {
      assert a + b == a;
    } else {
      assert (a + b)[..|a + b| - 1] == a + b[..|b| - 1];
      MergedAppend(modules, a, b[..|b| - 1]);
    }
  }

  lemma MergeNothing(modules: map<string, Entry>, groups: seq<seq<ParsedModule>>)
    ensures Merged(modules, Flatten(groups[..0])) == modules && !Changes(groups[..0])
  {}

  lemma FlattenOne(group: seq<ParsedModule>)
    ensures Flatten([group]) == group
  {}

  /** The newest parse of a module, if there was one. */
  function LastParse(parsed: seq<ParsedModule>, name: string): Option<Entry> {
    if parsed == [] then None
    else if parsed[|parsed| - 1].name == name then Some(parsed[|parsed| - 1].entry)
    else LastParse(parsed[..|parsed| - 1], name)
  }

  /** Merging is last-wins per module and touches nothing else. */
  lemma {:induction false} MergedLastWins(modules: map<string, Entry>, parsed: seq<ParsedModule>, name: string)
    ensures var parse := if name == "" then None else LastParse(parsed, name);
            var merged := Merged(modules, parsed);
            (name in merged <==> parse.Some? || name in modules)
            && (name in merged ==> merged[name] == if parse.Some? then parse.value else modules[name])
  {
    if parsed != [] {
      MergedLastWins(modules, parsed[..|parsed| - 1], name);
    }
  }

  /** The parse that wins is the last of that name. */
  lemma {:induction false} LastParseIs(parsed: seq<ParsedModule>, name: string)
    ensures match LastParse(parsed, name)
            case None => forall i :: 0 <= i < |parsed| ==> parsed[i].name != name
            case Some(e) => exists i :: 0 <= i < |parsed| && parsed[i].name == name && parsed[i].entry == e
                                        && forall j :: i < j < |parsed| ==> parsed[j].name != name
  {
    if parsed != [] {
      var last := |parsed| - 1;
      if parsed[last].name != name {
        LastParseIs(parsed[..last], name);
        assert forall j :: 0 <= j < last ==> parsed[..last][j] == parsed[j];
      }
    }
  }

  lemma MergedEntry(modules: map<string, Entry>, parsed: seq<ParsedModule>, i: nat)
    requires i < |parsed| && parsed[i].name != "" && forall j :: i < j < |parsed| ==> parsed[j].name != parsed[i].name
    ensures parsed[i].name in Merged(modules, parsed) && Merged(modules, parsed)[parsed[i].name] == parsed[i].entry
  {
    MergedLastWins(modules, parsed, parsed[i].name);
    LastParseIs(parsed, parsed[i].name);
    hide Merged, LastParse;
  }

  lemma MergedElse(modules: map<string, Entry>, parsed: seq<ParsedModule>, name: string)
    requires name == "" || forall j :: 0 <= j < |parsed| ==> parsed[j].name != name
    ensures name in Merged(modules, parsed) <==> name in modules
    ensures name in modules ==> Merged(modules, parsed)[name] == modules[name]
  {
    MergedLastWins(modules, parsed, name);
    LastParseIs(parsed, name);
    hide Merged, LastParse;
  }

  /** Merging `skipped` before `next` would have changed nothing: each of its modules is parsed again in `next` or
      already stored as `skipped` has it. */
  ghost predicate Covered(stored: map<string, Entry>, skipped: seq<ParsedModule>, next: seq<ParsedModule>) {
    forall name :: name != "" && LastParse(skipped, name).Some? && LastParse(next, name).None? ==>
      name in stored && stored[name] == LastParse(skipped, name).value
  }

  /** Leaving a merge out is seen in the end exactly when it was not covered. */
  lemma SkippedIff(stored: map<string, Entry>, skipped: seq<ParsedModule>, next: seq<ParsedModule>)
    ensures Merged(stored, next) == Merged(Merged(stored, skipped), next) <==> Covered(stored, skipped, next)
  {
    var short, full := Merged(stored, next), Merged(Merged(stored, skipped), next);
    forall name
      ensures (name in short <==> name in full) && (name in short ==> short[name] == full[name])
         <==> (name != "" && LastParse(skipped, name).Some? && LastParse(next, name).None? ==>
                 name in stored && stored[name] == LastParse(skipped, name).value)
    {
      MergedLastWins(stored, next, name);
      MergedLastWins(stored, skipped, name);
      MergedLastWins(Merged(stored, skipped), next, name);
      hide Merged, LastParse;
    }
    hide Merged, LastParse;
  }

  /** The merge neither brings a module the store does not hold just so, nor moves the watermark. */
  ghost predicate NoOp(c: Contents, groups: seq<seq<ParsedModule>>, watermark: Watermark) {
    Covered(c.modules, Flatten(groups), []) && (watermark.Advance? && Changes(groups) ==> watermark.log == c.lastLog)
  }

  /** What `merge_save_locked` hands back. */
  function HandedBack(file: Option<Persisted>, buildRoot: string, scheme: string,
                      groups: seq<seq<ParsedModule>>, watermark: Watermark): Contents {
    if Changes(groups) then MergedAll(Read(file, buildRoot, scheme), groups, watermark)
    else Read(file, buildRoot, scheme)
  }

  /** The store handed back is the one on disk exactly when it was saved, nothing was parsed, or the merge changed
      nothing anyway. */
  lemma HandedBackIff(file: Option<Persisted>, buildRoot: string, scheme: string,
                      groups: seq<seq<ParsedModule>>, watermark: Watermark, saved: bool)
    ensures HandedBack(file, buildRoot, scheme, groups, watermark)
         == Read(AfterMerge(file, buildRoot, scheme, groups, watermark, saved), buildRoot, scheme)
       <==> saved || !Changes(groups) || NoOp(Read(file, buildRoot, scheme), groups, watermark)
  {
    var c := Read(file, buildRoot, scheme);
    SkippedIff(c.modules, Flatten(groups), []);
    assert Merged(c.modules, []) == c.modules;
    assert Merged(Merged(c.modules, Flatten(groups)), []) == Merged(c.modules, Flatten(groups));
    hide Merged, Flatten, Changes, Covered;
  }

  /** One new module and a failed save: the store handed back has it, the disk does not. */
  lemma HandedBackFails(e: Entry)
    ensures var groups := [[ParsedModule("App", e)]];
            "App" in HandedBack(None, "/b", "App", groups, Keep).modules
            && Read(AfterMerge(None, "/b", "App", groups, Keep, false), "/b", "App").modules == map[]
  {
    var group := [ParsedModule("App", e)];
    assert [group][0] != [];
    FlattenOne(group);
    MergedLastWins(map[], group, "App");
    assert LastParse(group, "App") == Some(e);
    hide Merged, Flatten, LastParse;
  }

  // -- which files a module owns ----------------------------------------------

  function KeysOf(files: seq<Path>, disk: Disk): set<Path> {
    set f | f in files :: disk.key(f)
  }

  function ListedKeys(lists: seq<Path>, disk: Disk): set<Path> {
    set l, f | l in lists && l in disk.lists && f in disk.lists[l] :: disk.key(f)
  }

  predicate AnyMissing(lists: seq<Path>, disk: Disk) {
    exists l :: l in lists && l !in disk.lists
  }

  /** A path that a response file of the module lists. */
  ghost predicate Lists(e: Entry, disk: Disk, key: Path) {
    exists l, f :: l in e.fileLists && l in disk.lists && f in disk.lists[l] && key == disk.key(f)
  }

  /** An inline file of a module without response files, or with one that has gone. */
  ghost predicate FallsBackTo(e: Entry, disk: Disk, key: Path) {
    (e.fileLists == [] || exists l :: l in e.fileLists && l !in disk.lists)
    && exists f :: f in e.files && key == disk.key(f)
  }

  ghost predicate Owns(e: Entry, disk: Disk, key: Path) {
    Lists(e, disk, key) || FallsBackTo(e, disk, key)
  }

  method Keys(files: seq<Path>, disk: Disk) returns (keys: seq<Path>)
    ensures forall k :: k in keys <==> k in KeysOf(files, disk)
  {
    keys := [];
    for i := 0 to |files|
      invariant forall k :: k in keys <==> k in KeysOf(files[..i], disk)
    {
      assert files[..i + 1] == files[..i] + [files[i]];
      keys := keys + [disk.key(files[i])];
    }
    assert files[..|files|] == files;
  }

  method ModuleFileKeys(e: Entry, disk: Disk) returns (keys: seq<Path>)
    ensures forall k :: Lists(e, disk, k) ==> k in keys
    ensures forall k :: k in keys ==> Lists(e, disk, k) || exists f :: f in e.files && k == disk.key(f)
    ensures forall f :: f in e.files ==>
              (disk.key(f) in keys
               <==> e.fileLists == [] || (exists l :: l in e.fileLists && l !in disk.lists) || Lists(e, disk, disk.key(f)))
    ensures forall k :: k in keys <==> Owns(e, disk, k)
  {
    if e.fileLists == [] {
      keys := Keys(e.files, disk);
      return;
    }
    keys := [];
    var anyMissing := false;
    for i := 0 to |e.fileLists|
      invariant forall k :: k in keys <==> k in ListedKeys(e.fileLists[..i], disk)
      invariant anyMissing <==> AnyMissing(e.fileLists[..i], disk)
    {
      var l := e.fileLists[i];
      assert e.fileLists[..i + 1] == e.fileLists[..i] + [l];
      if l in disk.lists {
        var more := Keys(disk.lists[l], disk);
        assert forall k :: k in ListedKeys(e.fileLists[..i + 1], disk)
                      <==> k in ListedKeys(e.fileLists[..i], disk) || k in KeysOf(disk.lists[l], disk);
        keys := keys + more;
      } else {
        anyMissing := true;
      }
    }
    assert e.fileLists[..|e.fileLists|] == e.fileLists;
    if anyMissing {
      var inline := Keys(e.files, disk);
      keys := keys + inline;
    }
  }

  // -- indexes ----------------------------------------------------------------

  function Parent(p: Path): Option<Path> {
    if p == [] then None else Some(p[..|p| - 1])
  }

  predicate EndsWith(s: string, suffix: string) {
    |suffix| <= |s| && s[|s| - |suffix|..] == suffix
  }

  /** `key.ends_with(".swift")`. */
  predicate IsSwiftKey(p: Path) {
    p != [] && EndsWith(p[|p| - 1], DOT_SWIFT)
  }

  /** `name` is the greatest of `names` whose module owns the file. */
  ghost predicate GreatestOwner(name: string, names: set<string>, modules: map<string, Entry>, disk: Disk, file: Path) {
    && name in names && name in modules && Owns(modules[name], disk, file)
    && forall n :: n in names && n in modules && Owns(modules[n], disk, file) ==> AtMost(n, name)
  }

  /** Every owned file, and no other, is indexed, under its greatest owner. */
  ghost predicate FileIndexOf(index: map<Path, string>, names: set<string>, modules: map<string, Entry>, disk: Disk) {
    && (forall n, k :: n in names && n in modules && Owns(modules[n], disk, k) ==> k in index)
    && (forall k :: k in index ==> GreatestOwner(index[k], names, modules, disk, k))
  }

  /** The parents of the Swift files among `files`, each under the module of one of its files. */
  ghost predicate DirIndexOf(dirs: map<Path, string>, files: set<Path>, index: map<Path, string>) {
    && (forall k :: k in files && IsSwiftKey(k) ==> Parent(k).value in dirs)
    && (forall d :: d in dirs ==>
          exists k :: k in files && k in index && IsSwiftKey(k) && Parent(k) == Some(d) && dirs[d] == index[k])
  }

  method InsertAll(index: map<Path, string>, keys: seq<Path>, name: string) returns (r: map<Path, string>)
    ensures forall k :: k in r <==> k in index || k in keys
    ensures forall k :: k in r ==> r[k] == if k in keys then name else index[k]
  {
    r := index;
    for i := 0 to |keys|
      invariant forall k :: k in r <==> k in index || k in keys[..i]
      invariant forall k :: k in r ==> r[k] == if k in keys[..i] then name else index[k]
    {
      assert keys[..i + 1] == keys[..i] + [keys[i]];
      r := r[keys[i] := name];
    }
    assert keys[..|keys|] == keys;
  }

  lemma FileIndexGrows(index: map<Path, string>, grown: map<Path, string>, names: set<string>, name: string,
                       modules: map<string, Entry>, disk: Disk)
    requires name in modules && FileIndexOf(index, names, modules, disk)
    requires forall n :: n in names ==> AtMost(n, name)
    requires forall k :: k in grown <==> k in index || Owns(modules[name], disk, k)
    requires forall k :: k in grown ==> grown[k] == if Owns(modules[name], disk, k) then name else index[k]
    ensures FileIndexOf(grown, names + {name}, modules, disk)
  {
    hide Owns, Less;
  }

  /** What every load and merge leaves behind: both indexes say what the modules and the disk say. */
  ghost predicate Indexed(modules: map<string, Entry>, disk: Disk, files: map<Path, string>, dirs: map<Path, string>) {
    FileIndexOf(files, modules.Keys, modules, disk) && DirIndexOf(dirs, files.Keys, files)
  }

  method IndexFiles(modules: map<string, Entry>, disk: Disk) returns (index: map<Path, string>)
    ensures FileIndexOf(index, modules.Keys, modules, disk)
  {
    index := map[];
    var rest := modules.Keys;
    ghost var done: set<string> := {};
    while rest != {}
      invariant done + rest == modules.Keys && done !! rest
      invariant forall d, r :: d in done && r in rest ==> AtMost(d, r)
      invariant FileIndexOf(index, done, modules, disk)
      decreases |rest|
    {
      ghost var least := LeastExists(rest);
      var name :| name in rest && forall n :: n in rest ==> AtMost(name, n);
      var keys := ModuleFileKeys(modules[name], disk);
      var grown := InsertAll(index, keys, name);
      FileIndexGrows(index, grown, done, name, modules, disk);
      index, rest, done := grown, rest - {name}, done + {name};
    }
    assert done == modules.Keys;
  }

  /** The files come in whatever order the hash map yields them; the first to name a directory keeps it. */
  method IndexDirs(index: map<Path, string>) returns (dirs: map<Path, string>)
    ensures DirIndexOf(dirs, index.Keys, index)
    ensures forall k :: k in index && k != [] && (exists stem :: k[|k| - 1] == stem + ".swift") ==> k[..|k| - 1] in dirs
    ensures forall d :: d in dirs ==>
              exists stem :: d + [stem + ".swift"] in index && index[d + [stem + ".swift"]] == dirs[d]
  {
    dirs := map[];
    var rest := index.Keys;
    ghost var done: set<Path> := {};
    while rest != {}
      invariant done + rest == index.Keys && done !! rest
      invariant DirIndexOf(dirs, done, index)
      decreases |rest|
    {
      var key :| key in rest;
      if IsSwiftKey(key) {
        var dir := Parent(key);
        if dir.Some? && dir.value !in dirs {
          dirs := dirs[dir.value := index[key]];
        }
      }
      rest, done := rest - {key}, done + {key};
    }
    assert done == index.Keys;
    DirsSpelledOut(dirs, index);
  }

  lemma SwiftChild(d: Path, k: Path) returns (stem: string)
    requires IsSwiftKey(k) && Parent(k) == Some(d)
    ensures k == d + [stem + ".swift"]
  {
    SwiftKeyEnds(k);
    stem :| k[|k| - 1] == stem + ".swift";
  }

  lemma DirsSpelledOut(dirs: map<Path, string>, index: map<Path, string>)
    requires DirIndexOf(dirs, index.Keys, index)
    ensures forall k :: k in index && k != [] && (exists stem :: k[|k| - 1] == stem + ".swift") ==> k[..|k| - 1] in dirs
    ensures forall d :: d in dirs ==>
              exists stem :: d + [stem + ".swift"] in index && index[d + [stem + ".swift"]] == dirs[d]
  {
    hide IsSwiftKey;
    forall k | k in index && k != [] && exists stem :: k[|k| - 1] == stem + ".swift" ensures k[..|k| - 1] in dirs {
      SwiftKeyEnds(k);
    }
    forall d | d in dirs
      ensures exists stem :: d + [stem + ".swift"] in index && index[d + [stem + ".swift"]] == dirs[d]
    {
      var k :| k in index.Keys && k in index && IsSwiftKey(k) && Parent(k) == Some(d) && dirs[d] == index[k];
      var stem := SwiftChild(d, k);
      assert d + [stem + ".swift"] in index;
    }
  }

  lemma SwiftKeyEnds(k: Path)
    ensures IsSwiftKey(k) <==> k != [] && exists stem :: k[|k| - 1] == stem + ".swift"
  {
    if k != [] {
      var name := k[|k| - 1];
      if IsSwiftKey(k) {
        assert name == name[..|name| - 6] + ".swift";
      }
      forall stem | name == stem + ".swift" ensures IsSwiftKey(k) {
        assert name[|stem|..] == ".swift";
      }
    }
  }

  // -- a file no module lists -------------------------------------------------

  predicate IsProjectRoot(p: Path, root: Option<Path>, disk: Disk) {
    (root.Some? && disk.key(root.value) == p) || p in disk.git
  }

  /** The walk gets to the ancestor of length `n`: no proper ancestor further in is a project root. */
  predicate Reached(dir: Path, n: nat, root: Option<Path>, disk: Disk) {
    n <= |dir| && forall k :: n < k < |dir| ==> !IsProjectRoot(dir[..k], root, disk)
  }

  /** `module` is indexed for the nearest indexed directory among those the walk gets to. */
  ghost predicate Nearest(module_: string, dir: Path, dirs: map<Path, string>, root: Option<Path>, disk: Disk) {
    exists n: nat :: Reached(dir, n, root, disk) && dir[..n] in dirs && dirs[dir[..n]] == module_
                     && forall k :: n < k <= |dir| ==> dir[..k] !in dirs
  }

  ghost predicate NoneNear(dir: Path, dirs: map<Path, string>, root: Option<Path>, disk: Disk) {
    forall n: nat :: Reached(dir, n, root, disk) ==> dir[..n] !in dirs
  }

  method NewFileModule(key: Path, dirs: map<Path, string>, root: Option<Path>, disk: Disk)
    returns (r: Option<string>)
    ensures key == [] ==> r.None?
    ensures key != [] && r.Some? ==> Nearest(r.value, Parent(key).value, dirs, root, disk)
    ensures key != [] && r.None? ==> NoneNear(Parent(key).value, dirs, root, disk)
    ensures r.Some? ==>
              exists n :: 0 <= n < |key| && key[..n] in dirs && dirs[key[..n]] == r.value
                          && forall k :: n < k < |key| ==>
                               key[..k] !in dirs
                               && (k < |key| - 1 ==> key[..k] !in disk.git && (root.Some? ==> key[..k] != disk.key(root.value)))
    ensures r.None? ==>
              forall n :: 0 <= n < |key| && key[..n] in dirs ==>
                exists k :: n < k < |key| - 1 && (key[..k] in disk.git || (root.Some? && key[..k] == disk.key(root.value)))
  {
    var parent := Parent(key);
    if parent.None? {
      return None;
    }
    var dir := parent.value;
    assert forall k :: 0 <= k < |key| ==> dir[..k] == key[..k];
    if dir in dirs {
      assert dir[..|dir|] == dir;
      assert Reached(dir, |dir|, root, disk);
      return Some(dirs[dir]);
    }
    assert dir[..|dir|] == dir;
    var current := dir;
    while current != []
      invariant current == dir[..|current|] && |current| <= |dir|
      invariant Reached(dir, |current|, root, disk)
      invariant |current| < |dir| ==> !IsProjectRoot(current, root, disk)
      invariant forall k :: |current| <= k <= |dir| ==> dir[..k] !in dirs
      decreases |current|
    {
      var up := current[..|current| - 1];
      assert up == dir[..|up|];
      assert Reached(dir, |up|, root, disk);
      if up in dirs {
        return Some(dirs[up]);
      }
      if IsProjectRoot(up, root, disk) {
        return None;
      }
      current := up;
    }
    return None;
  }

  // -- serving ----------------------------------------------------------------

  function ToLower(c: char): char {
    if 'A' <= c <= 'Z' then (c as int + 32) as char else c
  }

  /** `Path::extension` is `swift` in any letter case: a name that is only `.swift` has no extension. */
  predicate IsSwift(path: Path) {
    path != [] &&
    var name := path[|path| - 1];
    |name| > |DOT_SWIFT| &&
    var end := name[|name| - |DOT_SWIFT|..];
    forall k :: 0 <= k < |DOT_SWIFT| ==> ToLower(end[k]) == DOT_SWIFT[k]
  }

  /** A name with something before a last `.swift`, in whatever letter case. */
  lemma SwiftNames(path: Path)
    ensures IsSwift(path)
       <==> path != [] && exists stem, s, w, i, f, t ::
              path[|path| - 1] == stem + ['.', s, w, i, f, t] && stem != ""
              && s in "sS" && w in "wW" && i in "iI" && f in "fF" && t in "tT"
  {
    if path != [] {
      var name := path[|path| - 1];
      if |name| > 6 {
        var end := name[|name| - 6..];
        assert name == name[..|name| - 6] + [end[0], end[1], end[2], end[3], end[4], end[5]];
        assert DOT_SWIFT == ['.', 's', 'w', 'i', 'f', 't'];
        if IsSwift(path) {
          assert ToLower(end[0]) == '.' && ToLower(end[1]) == 's' && ToLower(end[2]) == 'w' && ToLower(end[3]) == 'i'
                 && ToLower(end[4]) == 'f' && ToLower(end[5]) == 't';
        }
      }
      forall stem: string, s, w, i, f, t |
        name == stem + ['.', s, w, i, f, t] && stem != ""
        && s in "sS" && w in "wW" && i in "iI" && f in "fF" && t in "tT"
        ensures IsSwift(path)
      {
        assert name[|name| - 6..] == ['.', s, w, i, f, t];
      }
    }
  }

  /** Whose arguments a file is served, and whether they are borrowed for a file no module lists yet. */
  datatype Served = Nothing | Own(entry: Entry) | Borrowed(entry: Entry)

  class Store {
    const buildRoot: string
    const scheme: string
    var modules: map<string, Entry>
    var lastLog: Option<string>
    var fileIndex: map<Path, string>
    var dirIndex: map<Path, string>

    ghost function Now(): Contents
      reads this
    {
      Contents(modules, lastLog)
    }

    ghost predicate Valid(disk: Disk)
      reads this
    {
      Indexed(modules, disk, fileIndex, dirIndex)
    }

    constructor (buildRoot: string, scheme: string)
      ensures this.buildRoot == buildRoot && this.scheme == scheme && Now() == Contents(map[], None)
      ensures forall disk :: Valid(disk)
    {
      this.buildRoot, this.scheme := buildRoot, scheme;
      modules, lastLog, fileIndex, dirIndex := map[], None, map[], map[];
    }

    method RebuildIndexes(disk: Disk)
      modifies this`fileIndex, this`dirIndex
      ensures Valid(disk)
    {
      fileIndex := IndexFiles(modules, disk);
      dirIndex := IndexDirs(fileIndex);
    }

    /** Take over a store file that is for us, or stay empty. */
    method ReadJson(file: Option<Persisted>, disk: Disk)
      requires Now() == Contents(map[], None)
      modifies this
      ensures Now() == Read(file, buildRoot, scheme) && Valid(disk)
      ensures Now() == if file.Some? && file.value.version == 1 && file.value.buildRoot == buildRoot
                          && file.value.scheme == scheme
                       then file.value.contents else Contents(map[], None)
    {
      if file.Some? {
        var p := file.value;
        if p.version == STORE_VERSION && p.buildRoot == buildRoot && p.scheme == scheme {
          modules, lastLog := p.contents.modules, p.contents.lastLog;
        }
      }
      RebuildIndexes(disk);
    }

    method Merge(parsed: seq<ParsedModule>, disk: Disk)
      modifies this
      ensures modules == Merged(old(modules), parsed) && lastLog == old(lastLog)
      ensures forall i :: 0 <= i < |parsed| && parsed[i].name != ""
                          && (forall j :: i < j < |parsed| ==> parsed[j].name != parsed[i].name) ==>
                parsed[i].name in modules && modules[parsed[i].name] == parsed[i].entry
      ensures forall n :: n == "" || (forall j :: 0 <= j < |parsed| ==> parsed[j].name != n) ==>
                (n in modules <==> n in old(modules)) && (n in modules ==> modules[n] == old(modules)[n])
      ensures parsed != [] || old(Valid(disk)) ==> Valid(disk)
      ensures parsed == [] ==> unchanged(this)
    {
      forall i | 0 <= i < |parsed| && parsed[i].name != ""
                 && (forall j :: i < j < |parsed| ==> parsed[j].name != parsed[i].name)
        ensures parsed[i].name in Merged(modules, parsed) && Merged(modules, parsed)[parsed[i].name] == parsed[i].entry
      {
        MergedEntry(modules, parsed, i);
      }
      forall n | n == "" || (forall j :: 0 <= j < |parsed| ==> parsed[j].name != n)
        ensures n in Merged(modules, parsed) <==> n in modules
        ensures n in modules ==> Merged(modules, parsed)[n] == modules[n]
      {
        MergedElse(modules, parsed, n);
      }
      if parsed == [] {
        return;
      }
      for i := 0 to |parsed|
        invariant modules == Merged(old(modules), parsed[..i]) && lastLog == old(lastLog)
      {
        assert parsed[..i + 1][..i] == parsed[..i];
        if parsed[i].name != "" {
          modules := modules[parsed[i].name := parsed[i].entry];
        }
      }
      assert parsed[..|parsed|] == parsed;
      RebuildIndexes(disk);
    }

    /** Fold in every group; the watermark moves only if one had modules. */
    method MergeAll(groups: seq<seq<ParsedModule>>, watermark: Watermark, disk: Disk) returns (changed: bool)
      modifies this
      ensures changed <==> exists i :: 0 <= i < |groups| && groups[i] != []
      ensures Now() == MergedAll(old(Now()), groups, watermark)
      ensures lastLog == if watermark.Advance? && changed then watermark.log else old(lastLog)
      ensures old(Valid(disk)) ==> Valid(disk)
    {
      hide Changes, Indexed, Flatten, Merged;
      ChangesIs(groups);
      changed := false;
      MergeNothing(old(modules), groups);
      for i := 0 to |groups|
        invariant changed <==> Changes(groups[..i])
        invariant modules == Merged(old(modules), Flatten(groups[..i])) && lastLog == old(lastLog)
        invariant old(Valid(disk)) ==> Valid(disk)
      {
        assert groups[..i + 1] == groups[..i] + [groups[i]];
        ChangesNext(groups, i);
        FlattenAppend(groups[..i], [groups[i]]);
        FlattenOne(groups[i]);
        MergedAppend(old(modules), Flatten(groups[..i]), groups[i]);
        if groups[i] != [] {
          Merge(groups[i], disk);
          changed := true;
        } else {
          assert Flatten(groups[..i + 1]) == Flatten(groups[..i]);
        }
      }
      assert groups[..|groups|] == groups;
      if watermark.Advance? && changed {
        lastLog := watermark.log;
      }
    }

    /** Serve a listed file the arguments of its greatest owner, and an unlisted Swift file those of the nearest
        directory's module. The indexes are those of the last rebuild, from the disk as it was `indexed`; the file is
        looked up on the disk as it is `now`. However the two differ, no entry points at a module that is gone. */
    method OptionsForFile(path: Path, root: Option<Path>, ghost indexed: Disk, now: Disk) returns (r: Served)
      requires Valid(indexed)
      ensures r.Own? <==> exists n :: n in modules && Owns(modules[n], indexed, now.key(path))
      ensures (exists n, l, f :: n in modules && l in modules[n].fileLists && l in indexed.lists
                                 && f in indexed.lists[l] && indexed.key(f) == now.key(path)) ==> r.Own?
      ensures r.Own? ==> exists n :: GreatestOwner(n, modules.Keys, modules, indexed, now.key(path)) && r.entry == modules[n]
      ensures r.Borrowed? ==> IsSwift(path) && now.key(path) != []
      ensures r.Borrowed? ==> exists n :: n in modules && r.entry == modules[n]
                                          && Nearest(n, Parent(now.key(path)).value, dirIndex, root, now)
      ensures r.Nothing? && IsSwift(path) && now.key(path) != [] ==>
                NoneNear(Parent(now.key(path)).value, dirIndex, root, now)
    {
      var key := now.key(path);
      if key in fileIndex {
        var name := fileIndex[key];
        assert GreatestOwner(name, modules.Keys, modules, indexed, key);
        return Own(modules[name]);
      }
      if !IsSwift(path) {
        return Nothing;
      }
      var name := NewFileModule(key, dirIndex, root, now);
      if name.None? {
        return Nothing;
      }
      IndexedDirLives(modules, indexed, now, fileIndex, dirIndex, name.value, Parent(key).value, root);
      r := Borrowed(modules[name.value]);
    }
  }

  /** A directory's module exists and owns a Swift file right in that directory. */
  lemma IndexedDirLives(modules: map<string, Entry>, indexed: Disk, now: Disk, files: map<Path, string>,
                        dirs: map<Path, string>, name: string, dir: Path, root: Option<Path>)
    requires Indexed(modules, indexed, files, dirs) && Nearest(name, dir, dirs, root, now)
    ensures name in modules
    ensures exists n: nat, f :: Reached(dir, n, root, now) && IsSwiftKey(f) && Parent(f) == Some(dir[..n])
                                && GreatestOwner(name, modules.Keys, modules, indexed, f)
  {
    var n: nat :| Reached(dir, n, root, now) && dir[..n] in dirs && dirs[dir[..n]] == name
                  && forall k :: n < k <= |dir| ==> dir[..k] !in dirs;
    var f :| f in files.Keys && f in files && IsSwiftKey(f) && Parent(f) == Some(dir[..n]) && dirs[dir[..n]] == files[f];
    assert GreatestOwner(files[f], modules.Keys, modules, indexed, f);
  }

  /** The file index is determined: only one map names every owned file's greatest owner. */
  lemma FileIndexUnique(modules: map<string, Entry>, disk: Disk, a: map<Path, string>, b: map<Path, string>)
    requires FileIndexOf(a, modules.Keys, modules, disk) && FileIndexOf(b, modules.Keys, modules, disk)
    ensures a == b
  {
    forall k | k in a ensures k in b && a[k] == b[k] {
      assert GreatestOwner(a[k], modules.Keys, modules, disk, k);
      assert GreatestOwner(b[k], modules.Keys, modules, disk, k);
      if a[k] != b[k] {
        LessAsymmetric(a[k], b[k]);
      }
    }
    forall k | k in b ensures k in a {
      assert GreatestOwner(b[k], modules.Keys, modules, disk, k);
    }
  }

  /** The store file and its time: one merge under its lock. */
  class StoreFile {
    var content: Option<Persisted>
    var mtime: Option<nat>

    constructor (content: Option<Persisted>, mtime: Option<nat>)
      ensures this.content == content && this.mtime == mtime
    {
      this.content, this.mtime := content, mtime;
    }

    /** Re-read, merge, save at time `now`. The store handed back is the merged one even when the save fails; the
        time handed back is the file's. */
    method MergeSave(buildRoot: string, scheme: string, groups: seq<seq<ParsedModule>>, watermark: Watermark,
                     saved: bool, now: nat, disk: Disk)
      returns (store: Store, time: Option<nat>, changed: bool)
      modifies this
      ensures fresh(store) && store.Valid(disk) && store.buildRoot == buildRoot && store.scheme == scheme
      ensures changed <==> exists i :: 0 <= i < |groups| && groups[i] != []
      ensures changed && watermark.Advance? ==> store.lastLog == watermark.log
      ensures !changed || watermark.Keep? ==> store.lastLog == Read(old(content), buildRoot, scheme).lastLog
      ensures !changed ==> store.modules == Read(old(content), buildRoot, scheme).modules
      ensures store.Now() == HandedBack(old(content), buildRoot, scheme, groups, watermark)
      ensures content == AfterMerge(old(content), buildRoot, scheme, groups, watermark, saved)
      ensures time == mtime == if changed && saved then Some(now) else old(mtime)
      ensures content == if changed && saved then Some(Persisted(1, buildRoot, scheme, store.Now())) else old(content)
      ensures store.Now() == Read(content, buildRoot, scheme)
         <==> saved || !changed || NoOp(Read(old(content), buildRoot, scheme), groups, watermark)
    {
      hide MergedAll, Indexed, Changes, NoOp;
      HandedBackIff(content, buildRoot, scheme, groups, watermark, saved);
      ChangesIs(groups);
      store := new Store(buildRoot, scheme);
      store.ReadJson(content, disk);
      changed := AnyNonEmpty(groups);
      if !changed {
        time := mtime;
        return;
      }
      changed := store.MergeAll(groups, watermark, disk);
      if saved {
        content := Some(Persisted(STORE_VERSION, buildRoot, scheme, Contents(store.modules, store.lastLog)));
        mtime := Some(now);
      }
      time := mtime;
    }
  }

  /** Without a path to a store file the merge is made in memory only, over an empty store. */
  method MergeInMemory(buildRoot: string, scheme: string, groups: seq<seq<ParsedModule>>, watermark: Watermark, disk: Disk)
    returns (store: Store, changed: bool)
    ensures fresh(store) && store.Valid(disk) && store.buildRoot == buildRoot && store.scheme == scheme
    ensures changed <==> exists i :: 0 <= i < |groups| && groups[i] != []
    ensures store.Now() == MergedAll(Contents(map[], None), groups, watermark)
  {
    hide MergedAll, Indexed, Changes;
    ChangesIs(groups);
    store := new Store(buildRoot, scheme);
    changed := store.MergeAll(groups, watermark, disk);
  }

  method AnyNonEmpty(groups: seq<seq<ParsedModule>>) returns (any: bool)
    ensures any <==> Changes(groups)
  {
    for i := 0 to |groups|
      invariant !Changes(groups[..i])
    {
      ChangesNext(groups, i);
      if groups[i] != [] {
        return true;
      }
    }
    assert groups[..|groups|] == groups;
    any := false;
  }
}
