/** The part of the standard library the program relies on, as an abstract
    model: `PathBuf` as a sequence of components, and the filesystem as a map
    from paths to files and directories. No permissions, links or partial
    writes. Operations that change the filesystem take it as a value and give
    back the new one. */
module Fs {
  import opened Outcomes
  import opened Seqs

  type Path = seq<string>

  datatype Node = File(content: string) | Dir

  type FileSystem = map<Path, Node>

  /** The order in which the operating system enumerates the entries of a
      directory (`read_dir`): decided by the platform, so a parameter here. */
  type Lister = (FileSystem, Path) -> seq<string>

  // ---------------------------------------------------------------------------
  // Paths: from text to components

  /** The pieces of `s` between the '/' separators, empty pieces included. */
  function Segments(s: string): (r: seq<string>)
    ensures |r| >= 1
    decreases |s|
  {
    if s == [] then [""]
    else
      var rest := Segments(s[1..]);
      if s[0] == '/' then [""] + rest
      else [[s[0]] + rest[0]] + rest[1..]
  }

  predicate NonEmpty(segment: string)
  {
    segment != ""
  }

  /** `PathBuf::from(s)` seen through `components()`: repeated and trailing
      separators do not produce components. */
  function Components(s: string): Path
  {
    Filter(Segments(s), NonEmpty)
  }

  /** A name without a separator is one segment. */
  lemma {:induction false} SegmentsOfName(n: string)
    requires '/' !in n
    ensures Segments(n) == [n]
    decreases |n|
  {
    if n != [] {
      assert forall c :: c in n[1..] ==> c in n;
      SegmentsOfName(n[1..]);
      assert [n[0]] + n[1..] == n;
    }
  }

  /** Joining two texts with a separator concatenates their segments. */
  lemma {:induction false} SegmentsJoin(a: string, b: string)
    ensures Segments(a + "/" + b) == Segments(a) + Segments(b)
    decreases |a|
  {
    var s := a + "/" + b;
    if a == [] {
      assert s[1..] == b;
    } else {
      assert s[0] == a[0] && s[1..] == a[1..] + "/" + b;
      SegmentsJoin(a[1..], b);
      var x, y := Segments(a[1..]), Segments(b);
      assert Segments(s[1..]) == x + y;
      if a[0] == '/' {
        assert Segments(s) == [""] + (x + y);
        assert Segments(a) == [""] + x;
        assert [""] + (x + y) == ([""] + x) + y;
      } else {
        var head := [a[0]] + x[0];
        assert Segments(s) == [head] + (x + y)[1..];
        assert Segments(a) == [head] + x[1..];
        assert (x + y)[1..] == x[1..] + y;
        assert [head] + (x[1..] + y) == ([head] + x[1..]) + y;
      }
    }
  }

  lemma ComponentsJoin(a: string, b: string)
    ensures Components(a + "/" + b) == Components(a) + Components(b)
  {
    SegmentsJoin(a, b);
    FilterAppend(Segments(a), Segments(b), NonEmpty);
  }

  lemma ComponentsOfName(n: string)
    requires n != "" && '/' !in n
    ensures Components(n) == [n]
  {
    SegmentsOfName(n);
    assert [n][..0] == [];
    assert NonEmpty(n);
    assert Filter([n], NonEmpty) == Filter([], NonEmpty) + [n];
  }

  // ---------------------------------------------------------------------------
  // Path operations

  function Child(dir: Path, name: string): Path
  {
    dir + [name]
  }

  /** `Path::parent`, with the root (or the empty path) as its own parent. */
  function Parent(p: Path): Path
  {
    if p == [] then [] else p[..|p| - 1]
  }

  /** Text that starts with a separator: pushing it replaces the whole path. */
  predicate IsAbsolute(s: string)
  {
    s != "" && s[0] == '/'
  }

  /** A name that is exactly one component. */
  predicate IsEntryName(s: string)
  {
    s != "" && '/' !in s
  }

  /** `PathBuf::set_file_name`: drops the last component and pushes the name.
      A name with separators adds several components; an absolute name
      replaces the whole path. */
  function SetFileName(p: Path, name: string): Path
  {
    if IsAbsolute(name) then Components(name) else Parent(p) + Components(name)
  }

  /** For one-component names, two renamed paths coincide only when the
      renamed paths share a parent and the names are equal. */
  lemma SetFileNameInjective(p: Path, q: Path, a: string, b: string)
    requires IsEntryName(a) && IsEntryName(b)
    requires SetFileName(p, a) == SetFileName(q, b)
    ensures Parent(p) == Parent(q) && a == b
  {
    ComponentsOfName(a);
    ComponentsOfName(b);
    var x := SetFileName(p, a);
    assert x[..|x| - 1] == Parent(p);
    assert SetFileName(q, b)[..|x| - 1] == Parent(q);
  }

  /** When neither name renames a path of `p` onto the same path of `q`, two
      names that `q` sends to the same place are sent to the same place by
      `p` too: only relative names can pass that test, and for them the
      renamed path is the parent followed by the name's components. */
  lemma SetFileNameAlike(p: Path, q: Path, f: string, g: string)
    requires SetFileName(p, f) != SetFileName(q, f) && SetFileName(p, g) != SetFileName(q, g)
    requires SetFileName(q, f) == SetFileName(q, g)
    ensures SetFileName(p, f) == SetFileName(p, g)
  {
    assert !IsAbsolute(f) && !IsAbsolute(g);
    var n := |Parent(q)|;
    assert Components(f) == SetFileName(q, f)[n..];
    assert Components(g) == SetFileName(q, g)[n..];
  }

  /** Renaming `dir/n` gives a path next to `dir/n`, not one inside it: the
      relative name's components under `dir`, which for a one-component name
      is the sibling `dir/f`. */
  lemma SetFileNameOfChild(dir: Path, n: string, f: string)
    ensures !IsAbsolute(f) ==> SetFileName(Child(dir, n), f) == dir + Components(f)
    ensures IsEntryName(f) ==> SetFileName(Child(dir, n), f) == Child(dir, f)
  {
    assert Child(dir, n)[..|dir|] == dir;
    if IsEntryName(f) {
      ComponentsOfName(f);
    }
  }

  // ---------------------------------------------------------------------------
  // The filesystem

  predicate IsDirAt(fs: FileSystem, p: Path)
  {
    p in fs && fs[p].Dir?
  }

  predicate IsFileAt(fs: FileSystem, p: Path)
  {
    p in fs && fs[p].File?
  }

  /** `names` enumerates the entries of `dir` exactly once each. */
  ghost predicate IsListing(fs: FileSystem, dir: Path, names: seq<string>)
  {
    && Distinct(names)
    && (forall n :: n in names ==> Child(dir, n) in fs)
    && (forall n :: Child(dir, n) in fs ==> n in names)
  }

  /** Whether the entry `n` of `dir` is a directory. */
  function IsDirIn(fs: FileSystem, dir: Path): string -> bool
  {
    (n: string) => IsDirAt(fs, Child(dir, n))
  }

  /** `fs::read_dir`: fails on anything but a directory. */
  function ReadDir(fs: FileSystem, dir: Path, list: Lister): Outcome<seq<string>>
  {
    if IsDirAt(fs, dir) then Ok(list(fs, dir)) else Err
  }

  /** `fs::write` / `File::create`: the parent must be a directory and the
      path must not be one. */
  function WriteFile(fs: FileSystem, p: Path, content: string): Outcome<FileSystem>
  {
    if p != [] && IsDirAt(fs, Parent(p)) && !IsDirAt(fs, p) then Ok(fs[p := File(content)])
    else Err
  }

  /** `fs::copy`: the source must be a file. The destination is opened with
      truncation before the source is read, so a file copied onto itself
      ends up empty. */
  function CopyFile(fs: FileSystem, from: Path, to: Path): Outcome<FileSystem>
  {
    if !IsFileAt(fs, from) then Err
    else if from == to then WriteFile(fs, to, "")
    else WriteFile(fs, to, fs[from].content)
  }

  /** Copying onto a different path duplicates the content; copying a file
      onto itself succeeds and empties it. */
  lemma CopyFileEffect(fs: FileSystem, from: Path, to: Path)
    requires IsFileAt(fs, from)
    ensures from != to && WriteFile(fs, to, fs[from].content).Ok? ==>
      CopyFile(fs, from, to) == Ok(fs[to := fs[from]])
    ensures from == to && from != [] && IsDirAt(fs, Parent(from)) ==>
      CopyFile(fs, from, to) == Ok(fs[to := File("")])
  {
  }

  /** `fs::remove_file`: only files can be removed. */
  function RemoveFile(fs: FileSystem, p: Path): Outcome<FileSystem>
  {
    if IsFileAt(fs, p) then Ok(fs - {p}) else Err
  }

  /** A successful write changes exactly the written path. */
  lemma WriteFileEffect(fs: FileSystem, p: Path, content: string)
    ensures WriteFile(fs, p, content).Ok? <==> p != [] && IsDirAt(fs, Parent(p)) && !IsDirAt(fs, p)
    ensures WriteFile(fs, p, content).Ok? ==>
      && WriteFile(fs, p, content).value[p] == File(content)
      && WriteFile(fs, p, content).value.Keys == fs.Keys + {p}
      && forall q :: q in fs && q != p ==> WriteFile(fs, p, content).value[q] == fs[q]
  {
  }

  // ---------------------------------------------------------------------------
  // Plans: sequences of filesystem actions that stop at the first failure

  /** The status of a run and the filesystem it leaves behind. */
  datatype Effect = Effect(status: Outcome<()>, fs: FileSystem)

  /** One step of the program that touches the filesystem or may fail. */
  datatype Action =
    | Exists(path: Path)                          // assert!(path.exists())
    | Copy(from: Path, to: Path)                  // assert!(from.exists()); fs::copy(from, to)?
    | Delete(path: Path)                          // fs::remove_file(path)?
    | Write(path: Path, content: string, fatal: bool) // a file write, unwrapped when fatal
    | Call(ok: bool, fatal: bool)                 // a library call that succeeds or not

  /** The state after a step, or the state at its failure. */
  function Settle(o: Outcome<FileSystem>, fs: FileSystem): Effect
  {
    match o
    case Ok(fs1) => Effect(Ok(()), fs1)
    case Err => Effect(Err, fs)
    case Abort => Effect(Abort, fs)
  }

  function Perform(a: Action, fs: FileSystem): Outcome<FileSystem>
  {
    match a
    case Exists(p) => if p in fs then Ok(fs) else Abort
    case Copy(from, to) => if from !in fs then Abort else CopyFile(fs, from, to)
    case Delete(p) => RemoveFile(fs, p)
    case Write(p, content, fatal) =>
      var w := WriteFile(fs, p, content);
      if fatal then Unwrap(w) else w
    case Call(ok, fatal) => if ok then Ok(fs) else if fatal then Abort else Err
  }

  /** Runs `plan` in order and stops at the first step that fails; what the
      earlier steps did stays done. */
  function Run(plan: seq<Action>, fs: FileSystem): Effect
    decreases |plan|
  {
    if plan == [] then Effect(Ok(()), fs)
    else
      match Perform(plan[0], fs)
      case Ok(fs1) => Run(plan[1..], fs1)
      case Err => Effect(Err, fs)
      case Abort => Effect(Abort, fs)
  }

  /** Running two plans one after the other is running their concatenation. */
  lemma {:induction false} RunAppend(a: seq<Action>, b: seq<Action>, fs: FileSystem)
    ensures Run(a + b, fs) == (var e := Run(a, fs); if e.status.Ok? then Run(b, e.fs) else e)
    decreases |a|
  {
    if a == [] {
      assert a + b == b;
    } else {
      assert (a + b)[0] == a[0];
      assert (a + b)[1..] == a[1..] + b;
      match Perform(a[0], fs)
      case Ok(fs1) => RunAppend(a[1..], b, fs1);
      case Err =>
      case Abort =>
    }
  }

  /** A run that fails has carried out a prefix of its plan completely and
      then failed at the next step, reporting that step's failure. */
  lemma {:induction false} RunFailsAt(plan: seq<Action>, fs: FileSystem) returns (k: nat)
    requires !Run(plan, fs).status.Ok?
    ensures k < |plan|
    ensures Run(plan[..k], fs) == Effect(Ok(()), Run(plan, fs).fs)
    ensures Settle(Perform(plan[k], Run(plan, fs).fs), Run(plan, fs).fs) == Run(plan, fs)
    decreases |plan|
  {
    match Perform(plan[0], fs)
    case Ok(fs1) =>
      var k' := RunFailsAt(plan[1..], fs1);
      k := k' + 1;
      assert plan[..k][0] == plan[0];
      assert plan[..k][1..] == plan[1..][..k'];
      assert plan[k] == plan[1..][k'];
    case Err =>
      k := 0;
    case Abort =>
      k := 0;
  }

  /** Steps that only check leave the filesystem as it was, whatever their
      outcome, and all pass exactly when each check holds. */
  lemma {:induction false} RunChecksOnly(plan: seq<Action>, fs: FileSystem)
    requires forall i :: 0 <= i < |plan| ==> plan[i].Call? || plan[i].Exists?
    ensures Run(plan, fs).fs == fs
    ensures Run(plan, fs).status.Ok? <==>
      forall i :: 0 <= i < |plan| ==> (plan[i].Call? ==> plan[i].ok) && (plan[i].Exists? ==> plan[i].path in fs)
    decreases |plan|
  {
    if plan != [] {
      RunChecksOnly(plan[1..], fs);
      forall i | 0 <= i < |plan[1..]|
        ensures plan[1..][i] == plan[i + 1]
      {
      }
    }
  }
}
