/** The application registry and the file-transfer primitives
    (src/fileman.rs). The registry is an ordered list of applications kept in
    a TOML file; the transfers copy or delete the files of one application. */
module Fileman {
  import opened Outcomes
  import opened Seqs
  import opened Fs
  import opened Paths

  /** One registered application: its name, the directory its configuration
      files live in, and the names of those files. */
  datatype App = App(name: string, configPath: string, fileNames: seq<string>)

  /** `App::new`: the configuration path is given relative to the home
      directory. */
  function NewApp(home: string, name: string, configPath: string, fileNames: seq<string>): (a: App)
    ensures a.name == name && a.fileNames == fileNames
    ensures Components(a.configPath) == Components(home) + Components(configPath)
  {
    AbsolutePathComponents(home, configPath);
    App(name, GetAbsolutePath(home, configPath), fileNames)
  }

  // ---------------------------------------------------------------------------
  // The registry file

  /** The TOML reader and writer of the registry, which the model does not
      describe: a parser that may reject a document, and a printer. */
  datatype Toml = Toml(parse: string -> Option<seq<App>>, render: seq<App> -> string)

  /** `Apps::new`: an unreadable registry file stops the program; a document
      that does not parse is an empty registry. */
  function LoadItems(fs: FileSystem, applistPath: Path, toml: Toml): (r: Outcome<seq<App>>)
    ensures !r.Err?
    ensures r.Abort? <==> !IsFileAt(fs, applistPath)
  {
    if !IsFileAt(fs, applistPath) then Abort
    else
      match toml.parse(fs[applistPath].content)
      case Some(items) => Ok(items)
      case None => Ok([])
  }

  /** `write_toml`: the whole registry replaces the file. */
  function WriteToml(fs: FileSystem, applistPath: Path, toml: Toml, items: seq<App>): Outcome<FileSystem>
  {
    WriteFile(fs, applistPath, toml.render(items))
  }

  /** A document the parser rejects loads as a registry without items. */
  lemma LoadUnparseable(fs: FileSystem, applistPath: Path, toml: Toml)
    requires IsFileAt(fs, applistPath) && toml.parse(fs[applistPath].content).None?
    ensures LoadItems(fs, applistPath, toml) == Ok([])
  {
  }

  /** What is written is loaded back, when the TOML printer and parser agree
      on these items. */
  lemma LoadAfterWrite(fs: FileSystem, applistPath: Path, toml: Toml, items: seq<App>)
    requires WriteToml(fs, applistPath, toml, items).Ok?
    requires toml.parse(toml.render(items)) == Some(items)
    ensures LoadItems(WriteToml(fs, applistPath, toml, items).value, applistPath, toml) == Ok(items)
  {
  }

  // ---------------------------------------------------------------------------
  // Registry contents

  predicate HasName(items: seq<App>, name: string)
  {
    exists i :: 0 <= i < |items| && items[i].name == name
  }

  predicate UniqueNames(items: seq<App>)
  {
    forall i, j :: 0 <= i < j < |items| ==> items[i].name != items[j].name
  }

  /** `i` is the first position holding an application called `name`. */
  predicate IsFirstNamed(items: seq<App>, i: int, name: string)
  {
    0 <= i < |items| && items[i].name == name && forall j :: 0 <= j < i ==> items[j].name != name
  }

  /** `Iterator::position` with an exact name comparison. */
  function Position(items: seq<App>, name: string): (r: Option<nat>)
    ensures r.Some? ==> IsFirstNamed(items, r.value, name)
    ensures r.None? <==> !HasName(items, name)
    decreases |items|
  {
    if items == [] then None
    else if items[0].name == name then Some(0)
    else
      match Position(items[1..], name)
      case None => None
      case Some(k) =>
        assert items[k + 1] == items[1..][k];
        Some(k + 1)
  }

  /** `find_app_by_name`: a copy of the first application with exactly
      this name; a miss stops the program. */
  function FindByName(items: seq<App>, name: string): (r: Outcome<App>)
    ensures !r.Err?
    ensures r.Ok? <==> HasName(items, name)
    ensures r.Ok? ==> exists i :: IsFirstNamed(items, i, name) && items[i] == r.value
  {
    match Position(items, name)
    case None => Abort
    case Some(i) => Ok(items[i])
  }

  function NameIsNot(name: string): App -> bool
  {
    (a: App) => a.name != name
  }

  /** The registry after `retain` keeps the applications with another name. */
  function Without(items: seq<App>, name: string): seq<App>
  {
    Filter(items, NameIsNot(name))
  }

  /** The registry after `save_new_app`: a new name is appended, a name
      already present leaves the registry as it was. */
  function WithNew(items: seq<App>, app: App): seq<App>
  {
    if HasName(items, app.name) then items else items + [app]
  }

  /** The status and filesystem after `save_new_app` on a registry holding
      `items`. */
  function SaveNewAppEffect(items: seq<App>, app: App, fs: FileSystem, applistPath: Path, toml: Toml): Effect
  {
    if HasName(items, app.name) then Effect(Ok(()), fs)
    else Settle(WriteToml(fs, applistPath, toml, items + [app]), fs)
  }

  /** The status and filesystem after `remove_app` on a registry holding
      `items`. */
  function RemoveAppEffect(items: seq<App>, name: string, fs: FileSystem, applistPath: Path, toml: Toml): Effect
  {
    Settle(WriteToml(fs, applistPath, toml, Without(items, name)), fs)
  }

  /** A fresh application goes at the end, after all earlier items, and is
      then the one found under its name. */
  lemma SaveFresh(items: seq<App>, app: App)
    requires !HasName(items, app.name)
    ensures |WithNew(items, app)| == |items| + 1
    ensures WithNew(items, app)[..|items|] == items
    ensures Position(WithNew(items, app), app.name) == Some(|items|)
  {
    var s := items + [app];
    assert s[|items|].name == app.name;
    assert HasName(s, app.name);
  }

  /** Saving never introduces a second application with the same name. */
  lemma SaveKeepsUnique(items: seq<App>, app: App)
    requires UniqueNames(items)
    ensures UniqueNames(WithNew(items, app))
  {
  }

  /** Removal keeps exactly the applications with another name. */
  lemma RemoveMembers(items: seq<App>, name: string)
    ensures forall a :: a in Without(items, name) ==> a in items && a.name != name
    ensures forall a :: a in items && a.name != name ==> a in Without(items, name)
    ensures !HasName(Without(items, name), name)
  {
    FilterMembers(items, NameIsNot(name));
    var w := Without(items, name);
    if HasName(w, name) {
      var i :| 0 <= i < |w| && w[i].name == name;
      assert w[i] in w;
    }
  }

  /** Removal keeps the relative order: it works piecewise on a split
      registry. */
  lemma RemoveKeepsOrder(a: seq<App>, b: seq<App>, name: string)
    ensures Without(a + b, name) == Without(a, name) + Without(b, name)
  {
    FilterAppend(a, b, NameIsNot(name));
  }

  /** Removing a name nobody has changes nothing. */
  lemma RemoveAbsent(items: seq<App>, name: string)
    requires !HasName(items, name)
    ensures Without(items, name) == items
  {
    forall a | a in items
      ensures NameIsNot(name)(a)
    {
      var i :| 0 <= i < |items| && items[i] == a;
    }
    FilterKeepsAll(items, NameIsNot(name));
  }

  /** A second removal of the same name is a no-op. */
  lemma RemoveIdempotent(items: seq<App>, name: string)
    ensures Without(Without(items, name), name) == Without(items, name)
  {
    FilterIdempotent(items, NameIsNot(name));
  }

  /** Removal keeps the names unique. */
  lemma {:induction false} RemoveKeepsUnique(items: seq<App>, name: string)
    requires UniqueNames(items)
    ensures UniqueNames(Without(items, name))
    decreases |items|
  {
    if items != [] {
      var init := items[..|items| - 1];
      var last := items[|items| - 1];
      RemoveKeepsUnique(init, name);
      FilterMembers(init, NameIsNot(name));
      var w := Without(init, name);
      forall i | 0 <= i < |w|
        ensures w[i].name != last.name
      {
        assert w[i] in init;
        var j :| 0 <= j < |init| && init[j] == w[i];
      }
    }
  }

  // ---------------------------------------------------------------------------
  // The registry object

  /** `Apps`: the registry as loaded into memory. */
  class Apps {
    var items: seq<App>

    constructor (items: seq<App>)
      ensures this.items == items
    {
      this.items := items;
    }

    /** `Apps::new`. */
    static method Load(fs: FileSystem, applistPath: Path, toml: Toml) returns (r: Outcome<Apps>)
      ensures !r.Err?
      ensures r.Ok? <==> IsFileAt(fs, applistPath)
      ensures r.Ok? ==> fresh(r.value) && LoadItems(fs, applistPath, toml) == Ok(r.value.items)
    {
      var loaded := LoadItems(fs, applistPath, toml);
      if loaded.Ok? {
        var apps := new Apps(loaded.value);
        return Ok(apps);
      }
      return Abort;
    }

    /** `save_new_app`: a duplicate name is reported and ignored without
        writing; otherwise the application is appended and the registry
        file rewritten. */
    method SaveNewApp(app: App, fs: FileSystem, applistPath: Path, toml: Toml)
      returns (r: Outcome<()>, fs': FileSystem)
      modifies this
      ensures items == WithNew(old(items), app)
      ensures Effect(r, fs') == SaveNewAppEffect(old(items), app, fs, applistPath, toml)
    {
      var snapshot := items;
      for i := 0 to |snapshot|
        invariant forall j :: 0 <= j < i ==> snapshot[j].name != app.name
      {
        if snapshot[i].name == app.name {
          return Ok(()), fs;
        }
      }
      items := items + [app];
      match WriteToml(fs, applistPath, toml, items)
      case Ok(written) => r, fs' := Ok(()), written;
      case Err => r, fs' := Err, fs;
      case Abort => r, fs' := Abort, fs;
    }

    /** `remove_app`: drops every application with this name and rewrites
        the registry file. */
    method RemoveApp(appName: string, fs: FileSystem, applistPath: Path, toml: Toml)
      returns (r: Outcome<()>, fs': FileSystem)
      modifies this
      ensures items == Without(old(items), appName)
      ensures Effect(r, fs') == RemoveAppEffect(old(items), appName, fs, applistPath, toml)
    {
      items := Without(items, appName);
      match WriteToml(fs, applistPath, toml, items)
      case Ok(written) => r, fs' := Ok(()), written;
      case Err => r, fs' := Err, fs;
      case Abort => r, fs' := Abort, fs;
    }
  }

  // ---------------------------------------------------------------------------
  // Transfers

  /** `get_dir_names_in_path`: the names of the subdirectories, in the
      order the directory lists them. */
  method GetDirNamesInPath(fs: FileSystem, dir: Path, list: Lister) returns (r: Outcome<seq<string>>)
    ensures !r.Abort?
    ensures r.Err? <==> !IsDirAt(fs, dir)
    ensures r.Ok? ==> r.value == Filter(list(fs, dir), IsDirIn(fs, dir))
  {
    var read := ReadDir(fs, dir, list);
    if !read.Ok? {
      return Err;
    }
    var entries := read.value;
    var result: seq<string> := [];
    for i := 0 to |entries|
      invariant result == Filter(entries[..i], IsDirIn(fs, dir))
    {
      assert entries[..i + 1][..i] == entries[..i];
      if IsDirAt(fs, Child(dir, entries[i])) {
        result := result + [entries[i]];
      }
    }
    assert entries[..|entries|] == entries;
    return Ok(result);
  }

  /** Listed once each, the subdirectory names are exactly the entries that
      are directories: files are left out. */
  lemma DirNamesExact(fs: FileSystem, dir: Path, list: Lister)
    requires IsListing(fs, dir, list(fs, dir))
    ensures Distinct(Filter(list(fs, dir), IsDirIn(fs, dir)))
    ensures forall n :: n in Filter(list(fs, dir), IsDirIn(fs, dir)) ==> IsDirAt(fs, Child(dir, n))
    ensures forall n :: IsDirAt(fs, Child(dir, n)) ==> n in Filter(list(fs, dir), IsDirIn(fs, dir))
  {
    FilterMembers(list(fs, dir), IsDirIn(fs, dir));
    FilterDistinct(list(fs, dir), IsDirIn(fs, dir));
  }

  /** One copy per file name, each from the renamed source to the renamed
      destination. */
  function CopySteps(fileNames: seq<string>, source: Path, dest: Path): seq<Action>
  {
    seq(|fileNames|, i requires 0 <= i < |fileNames| =>
      Copy(SetFileName(source, fileNames[i]), SetFileName(dest, fileNames[i])))
  }

  /** What `copy_files` does: both ends must exist, then the copies in order. */
  function CopyPlan(fileNames: seq<string>, source: Path, dest: Path): seq<Action>
  {
    [Exists(source), Exists(dest)] + CopySteps(fileNames, source, dest)
  }

  /** `copy_files`. */
  method CopyFiles(fileNames: seq<string>, source: Path, dest: Path, fs: FileSystem)
    returns (r: Outcome<()>, fs': FileSystem)
    ensures source !in fs || dest !in fs ==> r == Abort && fs' == fs
    ensures Effect(r, fs') == Run(CopyPlan(fileNames, source, dest), fs)
  {
    if source !in fs || dest !in fs {
      return Abort, fs;
    }
    ghost var steps := CopySteps(fileNames, source, dest);
    assert Run(CopyPlan(fileNames, source, dest), fs) == Run(steps, fs) by {
      var plan := CopyPlan(fileNames, source, dest);
      assert plan[1..][1..] == steps;
    }
    var current := fs;
    for i := 0 to |fileNames|
      invariant Run(steps[i..], current) == Run(CopyPlan(fileNames, source, dest), fs)
    {
      var sourcePath := SetFileName(source, fileNames[i]);
      var destPath := SetFileName(dest, fileNames[i]);
      assert steps[i..][0] == Copy(sourcePath, destPath);
      assert steps[i..][1..] == steps[i + 1..];
      if sourcePath !in current {
        return Abort, current;
      }
      match CopyFile(current, sourcePath, destPath)
      case Ok(next) => current := next;
      case Err => return Err, current;
      case Abort => return Abort, current;
    }
    return Ok(()), current;
  }

  /** The paths `copy_files` writes to. */
  function Targets(fileNames: seq<string>, dest: Path): set<Path>
  {
    set f | f in fileNames :: SetFileName(dest, f)
  }

  /** No path that `copy_files` reads for one name is a path it writes for
      another. */
  predicate ReadsNotWritten(fileNames: seq<string>, source: Path, dest: Path)
  {
    forall f, g :: f in fileNames && g in fileNames ==> SetFileName(source, f) != SetFileName(dest, g)
  }

  /** A renamed source never coincides with a renamed destination whose
      parent differs, as long as the names are single components. */
  lemma SourcesAreNotTargets(source: Path, dest: Path)
    requires Parent(source) != Parent(dest)
    ensures forall f, g :: IsEntryName(f) && IsEntryName(g) ==> SetFileName(source, f) != SetFileName(dest, g)
  {
    forall f, g | IsEntryName(f) && IsEntryName(g)
      ensures SetFileName(source, f) != SetFileName(dest, g)
    {
      if SetFileName(source, f) == SetFileName(dest, g) {
        SetFileNameInjective(source, dest, f, g);
      }
    }
  }

  /** The paths a list of copies writes to. */
  function Written(steps: seq<Action>): set<Path>
  {
    set i | 0 <= i < |steps| && steps[i].Copy? :: steps[i].to
  }

  /** A list of copies where no path read is also written, and two copies
      that write the same path read the same path. */
  predicate SafeCopies(steps: seq<Action>)
  {
    && (forall i :: 0 <= i < |steps| ==> steps[i].Copy?)
    && (forall i, j :: 0 <= i < |steps| && 0 <= j < |steps| ==> steps[i].from != steps[j].to)
    && (forall i, j :: 0 <= i < |steps| && 0 <= j < |steps| && steps[i].to == steps[j].to ==>
          steps[i].from == steps[j].from)
  }

  /** The paths written by a list of copies are those of its first copy
      and those of the rest; what makes a list safe holds of its tail. */
  lemma WrittenTail(steps: seq<Action>)
    requires |steps| > 0 && steps[0].Copy?
    ensures Written(steps) == {steps[0].to} + Written(steps[1..])
    ensures SafeCopies(steps) ==> SafeCopies(steps[1..])
  {
    var rest := steps[1..];
    forall i | 1 <= i < |steps|
      ensures steps[i] == rest[i - 1]
    {
    }
    forall p | p in Written(rest)
      ensures p in Written(steps)
    {
      var j :| 0 <= j < |rest| && rest[j].Copy? && rest[j].to == p;
      assert steps[j + 1] == rest[j];
    }
  }

  /** `after` is `fs` with every destination of `steps` holding what its
      source holds in `fs`, and nothing else changed. */
  predicate CopiedFrom(steps: seq<Action>, fs: FileSystem, after: FileSystem)
  {
    && after.Keys == fs.Keys + Written(steps)
    && (forall i :: 0 <= i < |steps| && steps[i].Copy? ==>
          IsFileAt(fs, steps[i].from) && after[steps[i].to] == fs[steps[i].from])
    && (forall p :: p in fs && p !in Written(steps) ==> after[p] == fs[p])
  }

  /** After a safe list of copies succeeds, every destination holds what its
      source held, and nothing but the destinations has changed. */
  lemma {:induction false} CopiesDone(steps: seq<Action>, fs: FileSystem)
    requires SafeCopies(steps)
    requires Run(steps, fs).status.Ok?
    ensures CopiedFrom(steps, fs, Run(steps, fs).fs)
    decreases |steps|
  {
    if steps == [] {
      assert Written(steps) == {};
    } else {
      var s0, d0 := steps[0].from, steps[0].to;
      var fs1 := Perform(steps[0], fs).value;
      assert s0 != d0;
      assert IsFileAt(fs, s0) && fs1 == fs[d0 := fs[s0]];
      WrittenTail(steps);
      CopiesDone(steps[1..], fs1);
      CopyThenCopies(steps, fs, fs1, Run(steps, fs).fs);
    }
  }

  /** The step of `CopiesDone`: one copy followed by the rest of a safe list
      is the whole list's copy. */
  lemma CopyThenCopies(steps: seq<Action>, fs: FileSystem, fs1: FileSystem, after: FileSystem)
    requires SafeCopies(steps) && |steps| > 0
    requires IsFileAt(fs, steps[0].from) && fs1 == fs[steps[0].to := fs[steps[0].from]]
    requires CopiedFrom(steps[1..], fs1, after)
    ensures CopiedFrom(steps, fs, after)
  {
    var rest := steps[1..];
    WrittenTail(steps);
    FirstCopyKept(steps, fs, fs1, after);
    forall i | 0 < i < |steps|
      ensures IsFileAt(fs, steps[i].from) && after[steps[i].to] == fs[steps[i].from]
    {
      var c := rest[i - 1];
      assert steps[i] == c;
      assert c.from != steps[0].to;
      assert IsFileAt(fs1, c.from) && after[c.to] == fs1[c.from];
    }
  }

  /** The first copy of a safe list survives the later ones: a later copy
      that writes the same path reads the same path. */
  lemma FirstCopyKept(steps: seq<Action>, fs: FileSystem, fs1: FileSystem, after: FileSystem)
    requires SafeCopies(steps) && |steps| > 0
    requires IsFileAt(fs, steps[0].from) && fs1 == fs[steps[0].to := fs[steps[0].from]]
    requires CopiedFrom(steps[1..], fs1, after)
    ensures after[steps[0].to] == fs[steps[0].from]
  {
    var s0, d0, rest := steps[0].from, steps[0].to, steps[1..];
    assert s0 != d0;
    if d0 in Written(rest) {
      var j :| 0 <= j < |rest| && rest[j].Copy? && rest[j].to == d0;
      assert steps[j + 1] == rest[j];
      assert rest[j].from == s0;
      assert after[d0] == fs1[s0];
    } else {
      assert after[d0] == fs1[d0];
    }
  }

  /** After all copies succeed, every destination holds what its source held,
      and nothing but the destinations has changed, provided no path read is
      also written. */
  lemma CopyStepsDone(fileNames: seq<string>, source: Path, dest: Path, fs: FileSystem)
    requires ReadsNotWritten(fileNames, source, dest)
    requires Run(CopySteps(fileNames, source, dest), fs).status.Ok?
    ensures var after := Run(CopySteps(fileNames, source, dest), fs).fs;
      && after.Keys == fs.Keys + Targets(fileNames, dest)
      && (forall f :: f in fileNames ==>
            IsFileAt(fs, SetFileName(source, f)) && after[SetFileName(dest, f)] == fs[SetFileName(source, f)])
      && (forall p :: p in fs && p !in Targets(fileNames, dest) ==> after[p] == fs[p])
  {
    var steps := CopySteps(fileNames, source, dest);
    NamedCopiesSafe(fileNames, source, dest);
    CopiesDone(steps, fs);
    TargetsWritten(fileNames, source, dest);
    forall f | f in fileNames
      ensures var after := Run(steps, fs).fs;
        IsFileAt(fs, SetFileName(source, f)) && after[SetFileName(dest, f)] == fs[SetFileName(source, f)]
    {
      var i :| 0 <= i < |fileNames| && fileNames[i] == f;
      assert steps[i] == Copy(SetFileName(source, f), SetFileName(dest, f));
    }
  }

  /** When no path read is written, the copies of `copy_files` form a safe
      list: two names written to one path are read from one path. */
  lemma NamedCopiesSafe(fileNames: seq<string>, source: Path, dest: Path)
    requires ReadsNotWritten(fileNames, source, dest)
    ensures SafeCopies(CopySteps(fileNames, source, dest))
  {
    var steps := CopySteps(fileNames, source, dest);
    forall i, j | 0 <= i < |steps| && 0 <= j < |steps| && steps[i].to == steps[j].to
      ensures steps[i].from == steps[j].from
    {
      SetFileNameAlike(source, dest, fileNames[i], fileNames[j]);
    }
  }

  /** The paths `copy_files` writes are the destinations of its copies. */
  lemma TargetsWritten(fileNames: seq<string>, source: Path, dest: Path)
    ensures Targets(fileNames, dest) == Written(CopySteps(fileNames, source, dest))
  {
    var steps := CopySteps(fileNames, source, dest);
    forall f | f in fileNames
      ensures SetFileName(dest, f) in Written(steps)
    {
      var i :| 0 <= i < |fileNames| && fileNames[i] == f;
      assert steps[i].to == SetFileName(dest, f);
    }
  }

  /** A file name with a separator reaches into a subdirectory on both
      sides: `a/b` is copied from `a/b` next to the source to `a/b` next to
      the destination. */
  lemma CopyNestedName(fs: FileSystem, sourceDir: Path, destDir: Path, s: string, d: string, a: string, b: string)
    requires IsEntryName(a) && IsEntryName(b) && sourceDir != destDir
    requires sourceDir + [s] in fs && destDir + [d] in fs
    requires IsFileAt(fs, sourceDir + [a, b]) && IsDirAt(fs, destDir + [a]) && !IsDirAt(fs, destDir + [a, b])
    ensures Run(CopyPlan([a + "/" + b], sourceDir + [s], destDir + [d]), fs)
      == Effect(Ok(()), fs[destDir + [a, b] := fs[sourceDir + [a, b]]])
  {
    var name := a + "/" + b;
    ComponentsJoin(a, b);
    ComponentsOfName(a);
    ComponentsOfName(b);
    var from, to := sourceDir + [a, b], destDir + [a, b];
    assert (sourceDir + [s])[..|sourceDir|] == sourceDir;
    assert (destDir + [d])[..|destDir|] == destDir;
    assert SetFileName(sourceDir + [s], name) == from;
    assert SetFileName(destDir + [d], name) == to;
    var steps := CopySteps([name], sourceDir + [s], destDir + [d]);
    assert steps == [Copy(from, to)];
    var checks := [Exists(sourceDir + [s]), Exists(destDir + [d])];
    assert CopyPlan([name], sourceDir + [s], destDir + [d]) == checks + steps;
    RunAppend(checks, steps, fs);
    assert from != to by {
      assert from[..|from| - 2] == sourceDir;
      assert to[..|to| - 2] == destDir;
    }
    assert Parent(to) == destDir + [a];
    assert Perform(Copy(from, to), fs) == Ok(fs[to := fs[from]]);
    assert Run(steps, fs) == Run(steps[1..], fs[to := fs[from]]);
  }

  /** A successful run of copies that each read and write the same path
      leaves every written file empty and changes nothing else. */
  lemma {:induction false} SelfCopiesDone(steps: seq<Action>, fs: FileSystem)
    requires forall i :: 0 <= i < |steps| ==> steps[i].Copy? && steps[i].from == steps[i].to
    requires Run(steps, fs).status.Ok?
    ensures var after := Run(steps, fs).fs;
      && after.Keys == fs.Keys
      && (forall p :: p in Written(steps) ==> p in fs && after[p] == File(""))
      && (forall p :: p in fs && p !in Written(steps) ==> after[p] == fs[p])
    decreases |steps|
  {
    if steps == [] {
      assert Written(steps) == {};
    } else {
      var p0 := steps[0].to;
      var rest := steps[1..];
      var fs1 := Perform(steps[0], fs).value;
      assert IsFileAt(fs, p0) && fs1 == fs[p0 := File("")];
      assert forall i :: 0 <= i < |rest| ==> rest[i] == steps[i + 1];
      WrittenTail(steps);
      SelfCopiesDone(rest, fs1);
      assert Run(steps, fs) == Run(rest, fs1);
    }
  }

  /** When source and destination share a parent, every name is copied onto
      itself: after a successful run each of those files is empty, and
      nothing else changes. */
  lemma CopyOntoItself(fileNames: seq<string>, source: Path, dest: Path, fs: FileSystem)
    requires Parent(source) == Parent(dest)
    requires Run(CopySteps(fileNames, source, dest), fs).status.Ok?
    ensures var after := Run(CopySteps(fileNames, source, dest), fs).fs;
      && after.Keys == fs.Keys
      && (forall p :: p in Targets(fileNames, dest) ==> p in fs && after[p] == File(""))
      && (forall p :: p in fs && p !in Targets(fileNames, dest) ==> after[p] == fs[p])
  {
    var steps := CopySteps(fileNames, source, dest);
    forall i | 0 <= i < |steps|
      ensures steps[i].from == steps[i].to
    {
      assert SetFileName(source, fileNames[i]) == SetFileName(dest, fileNames[i]);
    }
    SelfCopiesDone(steps, fs);
    TargetsWritten(fileNames, source, dest);
  }

  /** `copy_files` on success: both ends existed, and the copies are
      exactly as `CopyStepsDone` describes. */
  lemma CopyFilesDone(fileNames: seq<string>, source: Path, dest: Path, fs: FileSystem)
    requires Run(CopyPlan(fileNames, source, dest), fs).status.Ok?
    ensures source in fs && dest in fs
    ensures Run(CopyPlan(fileNames, source, dest), fs) == Run(CopySteps(fileNames, source, dest), fs)
  {
    var plan := CopyPlan(fileNames, source, dest);
    assert plan[1..][1..] == CopySteps(fileNames, source, dest);
  }

  /** `copy_files` on failure: the copies of a prefix of the names were all
      made and stay in place, and the next name failed; the program stops
      exactly when that name's source is missing, otherwise the copy error is
      returned. */
  lemma CopyFilesStopsAtFailure(fileNames: seq<string>, source: Path, dest: Path, fs: FileSystem)
    returns (k: nat)
    requires source in fs && dest in fs
    requires !Run(CopyPlan(fileNames, source, dest), fs).status.Ok?
    ensures k < |fileNames|
    ensures Run(CopySteps(fileNames[..k], source, dest), fs)
      == Effect(Ok(()), Run(CopyPlan(fileNames, source, dest), fs).fs)
    ensures Run(CopyPlan(fileNames, source, dest), fs).status.Abort?
      <==> SetFileName(source, fileNames[k]) !in Run(CopyPlan(fileNames, source, dest), fs).fs
  {
    var plan := CopyPlan(fileNames, source, dest);
    var steps := CopySteps(fileNames, source, dest);
    assert plan[1..][1..] == steps;
    k := RunFailsAt(steps, fs);
    assert steps[..k] == CopySteps(fileNames[..k], source, dest);
  }

  /** One deletion per listed entry of the directory. */
  function DeleteSteps(dir: Path, entries: seq<string>): seq<Action>
  {
    seq(|entries|, i requires 0 <= i < |entries| => Delete(Child(dir, entries[i])))
  }

  /** What `remove_files` does: list the directory, then delete each entry. */
  function RemoveFilesEffect(fs: FileSystem, confPath: Path, list: Lister): Effect
  {
    if IsDirAt(fs, confPath) then Run(DeleteSteps(confPath, list(fs, confPath)), fs)
    else Effect(Err, fs)
  }

  /** `remove_files`. */
  method RemoveFiles(fs: FileSystem, confPath: Path, list: Lister) returns (r: Outcome<()>, fs': FileSystem)
    ensures !IsDirAt(fs, confPath) ==> r == Err && fs' == fs
    ensures Effect(r, fs') == RemoveFilesEffect(fs, confPath, list)
  {
    var read := ReadDir(fs, confPath, list);
    if !read.Ok? {
      return Err, fs;
    }
    var entries := read.value;
    ghost var steps := DeleteSteps(confPath, entries);
    var current := fs;
    for i := 0 to |entries|
      invariant Run(steps[i..], current) == Run(steps, fs)
    {
      var filePath := Child(confPath, entries[i]);
      assert steps[i..][0] == Delete(filePath);
      assert steps[i..][1..] == steps[i + 1..];
      match RemoveFile(current, filePath)
      case Ok(next) => current := next;
      case Err => return Err, current;
      case Abort => return Abort, current;
    }
    return Ok(()), current;
  }

  function EntryPaths(dir: Path, entries: seq<string>): set<Path>
  {
    set n | n in entries :: Child(dir, n)
  }

  /** Deleting distinct entries succeeds exactly when all of them are files,
      and then removes exactly them. */
  lemma {:induction false} DeleteStepsDone(dir: Path, entries: seq<string>, fs: FileSystem)
    requires Distinct(entries)
    ensures Run(DeleteSteps(dir, entries), fs).status.Ok?
      <==> forall n :: n in entries ==> IsFileAt(fs, Child(dir, n))
    ensures Run(DeleteSteps(dir, entries), fs).status.Ok?
      ==> Run(DeleteSteps(dir, entries), fs).fs == fs - EntryPaths(dir, entries)
    decreases |entries|
  {
    var steps := DeleteSteps(dir, entries);
    if entries == [] {
      assert EntryPaths(dir, entries) == {};
    } else {
      var n0 := entries[0];
      var rest := entries[1..];
      var c0 := Child(dir, n0);
      assert steps[0] == Delete(c0);
      assert steps[1..] == DeleteSteps(dir, rest);
      assert EntryPaths(dir, entries) == {c0} + EntryPaths(dir, rest) by {
        forall n | n in entries
          ensures n == n0 || n in rest
        {
          var i :| 0 <= i < |entries| && entries[i] == n;
          if i > 0 {
            assert rest[i - 1] == n;
          }
        }
      }
      if IsFileAt(fs, c0) {
        var fs1 := fs - {c0};
        assert Distinct(rest);
        DeleteStepsDone(dir, rest, fs1);
        forall n | n in rest
          ensures IsFileAt(fs1, Child(dir, n)) <==> IsFileAt(fs, Child(dir, n))
        {
          var i :| 0 <= i < |rest| && rest[i] == n;
          assert entries[i + 1] == n;
          assert n != n0;
          assert Child(dir, n)[|dir|] == n;
        }
      }
    }
  }

  /** `remove_files` on a listed directory: it succeeds exactly when every
      entry is a file; then every entry is gone and the directory itself
      stays. */
  lemma RemoveFilesDone(fs: FileSystem, dir: Path, list: Lister)
    requires IsDirAt(fs, dir) && IsListing(fs, dir, list(fs, dir))
    ensures var e := Run(DeleteSteps(dir, list(fs, dir)), fs);
      && (e.status.Ok? <==> forall n :: Child(dir, n) in fs ==> IsFileAt(fs, Child(dir, n)))
      && (e.status.Ok? ==> IsDirAt(e.fs, dir) && forall n :: Child(dir, n) !in e.fs)
      && (e.status.Ok? ==> forall p :: p in fs && Parent(p) != dir ==> p in e.fs && e.fs[p] == fs[p])
  {
    var entries := list(fs, dir);
    DeleteStepsDone(dir, entries, fs);
    assert dir !in EntryPaths(dir, entries);
  }
}
