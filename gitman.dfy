/** The bookkeeping around the temporary clone of the upstream settings
    repository (src/gitman.rs): its location, which of its directories hold
    applications, the credentials offered to the remote, and the order of the
    steps that clone, commit and push. The git library itself is not
    described: which of its calls fail, what a clone contains and which ids
    it reports are parameters (`Upstream`). */
module Gitman {
  import opened Outcomes
  import opened Seqs
  import opened Fs

  datatype GitSettings = GitSettings(
    upstreamUrl: string,
    name: string,
    email: string,
    pass: Option<string>)

  /** `GitSettings::new`: a missing or unparseable configuration file stops
      the program. */
  function LoadGitSettings(fs: FileSystem, gitConfigPath: Path, parse: string -> Option<GitSettings>)
    : (r: Outcome<GitSettings>)
    ensures !r.Err?
    ensures r.Ok? <==> IsFileAt(fs, gitConfigPath) && parse(fs[gitConfigPath].content).Some?
  {
    if !IsFileAt(fs, gitConfigPath) then Abort
    else
      match parse(fs[gitConfigPath].content)
      case Some(settings) => Ok(settings)
      case None => Abort
  }

  datatype GitRepo = GitRepo(repoPath: Path, settings: GitSettings)

  /** The name of the temporary clone directory. */
  function TmpDirName(uuid: string): string
  {
    "setman-tmp-" + uuid
  }

  /** `GitRepo::new`, given the settings it loads and the generated id. */
  function NewGitRepo(settings: GitSettings, uuid: string): (g: GitRepo)
    ensures g.settings == settings
    ensures g.repoPath == ["tmp"] + Components(TmpDirName(uuid))
  {
    TmpComponents();
    ComponentsJoin("/tmp", TmpDirName(uuid));
    GitRepo(Components("/tmp" + "/" + TmpDirName(uuid)), settings)
  }

  lemma TmpComponents()
    ensures Components("/tmp") == ["tmp"]
  {
    assert "/tmp" == "" + "/" + "tmp";
    ComponentsJoin("", "tmp");
    ComponentsOfName("tmp");
    assert Segments("") == [""];
  }

  /** With an id free of separators (as the textual form of a UUID is), the
      clone lives in the directory `setman-tmp-<id>` directly under `/tmp`. */
  lemma RepoPathLayout(settings: GitSettings, uuid: string)
    requires '/' !in uuid
    ensures NewGitRepo(settings, uuid).repoPath == ["tmp", "setman-tmp-" + uuid]
  {
    var name := TmpDirName(uuid);
    assert forall i :: 0 <= i < |name| ==> name[i] != '/' by {
      forall i | 0 <= i < |name|
        ensures name[i] != '/'
      {
        if i >= 11 {
          assert name[i] == uuid[i - 11];
        }
      }
    }
    ComponentsOfName(name);
  }

  /** Different ids give different clone directories. */
  lemma RepoPathsDiffer(settings: GitSettings, uuid1: string, uuid2: string)
    requires '/' !in uuid1 && '/' !in uuid2 && uuid1 != uuid2
    ensures NewGitRepo(settings, uuid1).repoPath != NewGitRepo(settings, uuid2).repoPath
  {
    RepoPathLayout(settings, uuid1);
    RepoPathLayout(settings, uuid2);
    var a, b := "setman-tmp-" + uuid1, "setman-tmp-" + uuid2;
    assert a[11..] == uuid1 && b[11..] == uuid2;
    assert ["tmp", a][1] == a;
  }

  // ---------------------------------------------------------------------------
  // The application directories of the clone

  predicate NotGit(n: string)
  {
    n != ".git"
  }

  /** Whether the entry `n` of `dir` is a directory other than `.git`. */
  function IsAppDirIn(fs: FileSystem, dir: Path): string -> bool
  {
    (n: string) => IsDirAt(fs, Child(dir, n)) && n != ".git"
  }

  /** `get_dir_names`: the directories of the clone other than `.git`, in
      the order the clone lists them; an unreadable clone stops the program. */
  method GetDirNames(repo: GitRepo, fs: FileSystem, list: Lister) returns (r: Outcome<seq<string>>)
    ensures !r.Err?
    ensures r.Abort? <==> !IsDirAt(fs, repo.repoPath)
    ensures r.Ok? ==> r.value == Filter(list(fs, repo.repoPath), IsAppDirIn(fs, repo.repoPath))
  {
    var read := ReadDir(fs, repo.repoPath, list);
    if !read.Ok? {
      return Abort;
    }
    var entries := read.value;
    var dirNames: seq<string> := [];
    for i := 0 to |entries|
      invariant dirNames == Filter(entries[..i], IsAppDirIn(fs, repo.repoPath))
    {
      assert entries[..i + 1][..i] == entries[..i];
      if IsDirAt(fs, Child(repo.repoPath, entries[i])) && entries[i] != ".git" {
        dirNames := dirNames + [entries[i]];
      }
    }
    assert entries[..|entries|] == entries;
    return Ok(dirNames);
  }

  /** Listed once each, the names returned are exactly the directories
      other than `.git`. */
  lemma AppDirNamesExact(fs: FileSystem, dir: Path, list: Lister)
    requires IsListing(fs, dir, list(fs, dir))
    ensures Distinct(Filter(list(fs, dir), IsAppDirIn(fs, dir)))
    ensures forall n :: n in Filter(list(fs, dir), IsAppDirIn(fs, dir)) ==> IsDirAt(fs, Child(dir, n)) && n != ".git"
    ensures forall n :: IsDirAt(fs, Child(dir, n)) && n != ".git" ==> n in Filter(list(fs, dir), IsAppDirIn(fs, dir))
  {
    FilterMembers(list(fs, dir), IsAppDirIn(fs, dir));
    FilterDistinct(list(fs, dir), IsAppDirIn(fs, dir));
  }

  /** The clone's application directories are the subdirectories that
      `get_dir_names_in_path` would report, without `.git`, in the same
      order. */
  lemma {:induction false} AppDirsAreDirsWithoutGit(fs: FileSystem, dir: Path, entries: seq<string>)
    ensures Filter(entries, IsAppDirIn(fs, dir)) == Filter(Filter(entries, IsDirIn(fs, dir)), NotGit)
    decreases |entries|
  {
    if entries != [] {
      var init := entries[..|entries| - 1];
      var last := entries[|entries| - 1];
      AppDirsAreDirsWithoutGit(fs, dir, init);
      var kept := if IsDirIn(fs, dir)(last) then [last] else [];
      FilterAppend(Filter(init, IsDirIn(fs, dir)), kept, NotGit);
      if kept != [] {
        assert kept[..0] == [];
      }
    }
  }

  // ---------------------------------------------------------------------------
  // Credentials

  datatype Credential = UserPass(username: string, password: string)

  /** The credentials callback of `gen_callbacks`: the configured user name,
      with the configured password or else the answer to a password prompt,
      whose failure stops the program. */
  function ChooseCredential(settings: GitSettings, prompted: Outcome<string>): (r: Outcome<Credential>)
    ensures !r.Err?
    ensures r.Ok? ==> r.value.username == settings.name
    ensures settings.pass.Some? ==> r == Ok(UserPass(settings.name, settings.pass.value))
    ensures settings.pass.None? ==> (r.Ok? <==> prompted.Ok?)
    ensures settings.pass.None? && prompted.Ok? ==> r.value.password == prompted.value
  {
    match settings.pass
    case Some(pass) => Ok(UserPass(settings.name, pass))
    case None =>
      match prompted
      case Ok(password) => Ok(UserPass(settings.name, password))
      case _ => Abort
  }

  // ---------------------------------------------------------------------------
  // Clone, commit and push

  /** The calls into the git library (and the commit-message prompt) that
      can fail. */
  datatype Step =
    | OpenRepo | Signature | OpenIndex | StageAll | WriteIndex | WriteTree | FindTree
    | ResolveParent | ReadMessage | Prettify | CreateCommit | FindRemote | Push | Clone

  /** Whether a failure of the step stops the program (an `unwrap`,
      `expect`, `panic!` or `exit(0)`) rather than being returned with `?`. */
  function Fatal(s: Step): bool
  {
    s in {OpenRepo, OpenIndex, ResolveParent, ReadMessage, Prettify, CreateCommit, Clone}
  }

  /** What the remote and the git library do. */
  datatype Upstream = Upstream(
    failing: set<Step>,        // the calls that fail
    tree: FileSystem,          // what a clone checks out, relative to its root
    tip: string,               // the id of the commit `origin` resolves to
    newCommit: string,         // the id of the commit `push_changes` creates
    authRequired: bool,        // whether the remote asks for credentials
    prompted: Outcome<string>) // the answer to the password prompt

  function Try(u: Upstream, s: Step): Action
  {
    Call(s !in u.failing, Fatal(s))
  }

  /** The remote's request for credentials, when it makes one, stops the
      program if the password prompt fails. */
  function Authenticate(repo: GitRepo, u: Upstream): Action
  {
    Call(!(u.authRequired && ChooseCredential(repo.settings, u.prompted).Abort?), true)
  }

  /** The steps of `push_changes` before the commit id is saved. */
  const PrepareSteps: seq<Step> :=
    [OpenRepo, Signature, OpenIndex, StageAll, WriteIndex, WriteTree, FindTree,
     ResolveParent, ReadMessage, Prettify, CreateCommit]

  function PushPrepare(u: Upstream): seq<Action>
  {
    seq(|PrepareSteps|, i requires 0 <= i < |PrepareSteps| => Try(u, PrepareSteps[i]))
  }

  function PushPublish(repo: GitRepo, u: Upstream): seq<Action>
  {
    [Try(u, FindRemote), Authenticate(repo, u), Try(u, Push)]
  }

  /** `push_changes` in order: stage, write the tree, resolve the parent,
      commit, save the new commit id (unwrapped), then push. */
  function PushPlan(repo: GitRepo, commitIdPath: Path, u: Upstream): seq<Action>
  {
    PushPrepare(u) + [Write(commitIdPath, u.newCommit, true)] + PushPublish(repo, u)
  }

  /** `push_changes`. */
  method PushChanges(repo: GitRepo, fs: FileSystem, commitIdPath: Path, u: Upstream)
    returns (r: Outcome<()>, fs': FileSystem)
    ensures Effect(r, fs') == Run(PushPlan(repo, commitIdPath, u), fs)
  {
    ghost var plan := PushPlan(repo, commitIdPath, u);
    ghost var todo := plan;
    assert plan[..11] == PushPrepare(u);
    // The source makes these eleven library calls one after the other, each
    // followed by `?` or `unwrap`; the loop walks the fixed list of them.
    for i := 0 to |PrepareSteps|
      invariant todo == plan[i..]
      invariant Run(todo, fs) == Run(plan, fs)
    {
      assert todo[0] == Try(u, PrepareSteps[i]);
      if PrepareSteps[i] in u.failing {
        return if Fatal(PrepareSteps[i]) then Abort else Err, fs;
      }
      todo := todo[1..];
    }
    // save_commit_id(..).unwrap()
    assert todo[0] == Write(commitIdPath, u.newCommit, true);
    var current: FileSystem;
    match WriteFile(fs, commitIdPath, u.newCommit) {
      case Ok(saved) => current := saved;
      case _ => return Abort, fs;
    }
    todo := todo[1..];
    assert todo == PushPublish(repo, u);
    assert Run(todo, current) == Run(plan, fs);
    if FindRemote in u.failing {
      return Err, current;
    }
    todo := todo[1..];
    assert todo[0] == Authenticate(repo, u);
    assert Run(todo, current) == Run(plan, fs);
    if u.authRequired {
      var credential := ChooseCredential(repo.settings, u.prompted);
      if credential.Abort? {
        return Abort, current;
      }
    }
    todo := todo[1..];
    assert Run(todo, current) == Run(plan, fs);
    if Push in u.failing {
      return Err, current;
    }
    assert Run(todo[1..], current) == Run([], current);
    return Ok(()), current;
  }

  /** Whether every step of `push_changes` before the commit id is saved
      succeeds. */
  predicate Prepared(u: Upstream)
  {
    forall i :: 0 <= i < |PrepareSteps| ==> PrepareSteps[i] !in u.failing
  }

  /** Once the commit is created, its id is on disk even when finding the
      remote, authenticating or pushing then fails. */
  lemma PushSavesIdBeforePublishing(repo: GitRepo, fs: FileSystem, commitIdPath: Path, u: Upstream)
    requires Prepared(u) && WriteFile(fs, commitIdPath, u.newCommit).Ok?
    ensures Run(PushPlan(repo, commitIdPath, u), fs).fs == fs[commitIdPath := File(u.newCommit)]
  {
    var prepare, publish := PushPrepare(u), PushPublish(repo, u);
    var save := [Write(commitIdPath, u.newCommit, true)];
    RunAppend(prepare + save, publish, fs);
    RunAppend(prepare, save, fs);
    RunChecksOnly(prepare, fs);
    RunChecksOnly(publish, fs[commitIdPath := File(u.newCommit)]);
  }

  /** A failure before the commit is created leaves the filesystem, and so
      the saved commit id, untouched. */
  lemma PushFailsEarly(repo: GitRepo, fs: FileSystem, commitIdPath: Path, u: Upstream)
    requires !Prepared(u)
    ensures !Run(PushPlan(repo, commitIdPath, u), fs).status.Ok?
    ensures Run(PushPlan(repo, commitIdPath, u), fs).fs == fs
  {
    var prepare, publish := PushPrepare(u), PushPublish(repo, u);
    var save := [Write(commitIdPath, u.newCommit, true)];
    RunAppend(prepare + save, publish, fs);
    RunAppend(prepare, save, fs);
    RunChecksOnly(prepare, fs);
    var i :| 0 <= i < |PrepareSteps| && PrepareSteps[i] in u.failing;
    assert !prepare[i].ok;
  }

  /** `push_changes` succeeds exactly when every step does. */
  lemma PushSucceeds(repo: GitRepo, fs: FileSystem, commitIdPath: Path, u: Upstream)
    ensures Run(PushPlan(repo, commitIdPath, u), fs).status.Ok? <==>
      && Prepared(u)
      && WriteFile(fs, commitIdPath, u.newCommit).Ok?
      && FindRemote !in u.failing
      && !(u.authRequired && ChooseCredential(repo.settings, u.prompted).Abort?)
      && Push !in u.failing
  {
    var prepare, publish := PushPrepare(u), PushPublish(repo, u);
    var save := [Write(commitIdPath, u.newCommit, true)];
    RunAppend(prepare + save, publish, fs);
    RunAppend(prepare, save, fs);
    RunChecksOnly(prepare, fs);
    assert publish[0] == Try(u, FindRemote) && publish[1] == Authenticate(repo, u) && publish[2] == Try(u, Push);
    if Prepared(u) && WriteFile(fs, commitIdPath, u.newCommit).Ok? {
      var saved := fs[commitIdPath := File(u.newCommit)];
      assert Run(save, fs) == Run([], saved);
      RunChecksOnly(publish, saved);
    } else if !Prepared(u) {
      var i :| 0 <= i < |PrepareSteps| && PrepareSteps[i] in u.failing;
      assert !prepare[i].ok;
    }
  }

  /** The filesystem after a clone: the checked-out tree appears under the
      clone directory. */
  function Graft(fs: FileSystem, root: Path, tree: FileSystem): FileSystem
  {
    var placed := set p | p in tree :: root + p;
    (fs + map q | q in placed && |root| <= |q| && q[|root|..] in tree :: tree[q[|root|..]])[root := Dir]
  }

  /** `clone_repo`, with the commit id saved or not: a failed password
      prompt, clone or resolution of `origin` stops the program; a failure
      to save the id is ignored. */
  function CloneEffect(repo: GitRepo, fs: FileSystem, commitIdPath: Path, u: Upstream, save: bool): Effect
  {
    if u.authRequired && ChooseCredential(repo.settings, u.prompted).Abort? then Effect(Abort, fs)
    else if Clone in u.failing then Effect(Abort, fs)
    else
      var cloned := Graft(fs, repo.repoPath, u.tree);
      if ResolveParent in u.failing then Effect(Abort, cloned)
      else if !save then Effect(Ok(()), cloned)
      else
        match WriteFile(cloned, commitIdPath, u.tip)
        case Ok(saved) => Effect(Ok(()), saved)
        case _ => Effect(Ok(()), cloned)
  }

  /** `clone_repo` as written: it takes no flag and always saves the id of
      the commit it resolved. */
  method CloneRepo(repo: GitRepo, fs: FileSystem, commitIdPath: Path, u: Upstream)
    returns (r: Outcome<()>, fs': FileSystem)
    ensures Effect(r, fs') == CloneEffect(repo, fs, commitIdPath, u, true)
  {
    if u.authRequired {
      var credential := ChooseCredential(repo.settings, u.prompted);
      if credential.Abort? {
        return Abort, fs;
      }
    }
    if Clone in u.failing {
      return Abort, fs;
    }
    var cloned := Graft(fs, repo.repoPath, u.tree);
    if ResolveParent in u.failing {
      return Abort, cloned;
    }
    match WriteFile(cloned, commitIdPath, u.tip)
    case Ok(saved) => return Ok(()), saved;
    case _ => return Ok(()), cloned;
  }

  /** `clone_repo` as its callers use it: the flag they pass decides whether
      the resolved id is saved. */
  method CloneRepoSaving(repo: GitRepo, fs: FileSystem, commitIdPath: Path, u: Upstream, save: bool)
    returns (r: Outcome<()>, fs': FileSystem)
    ensures Effect(r, fs') == CloneEffect(repo, fs, commitIdPath, u, save)
  {
    if u.authRequired {
      var credential := ChooseCredential(repo.settings, u.prompted);
      if credential.Abort? {
        return Abort, fs;
      }
    }
    if Clone in u.failing {
      return Abort, fs;
    }
    var cloned := Graft(fs, repo.repoPath, u.tree);
    if ResolveParent in u.failing {
      return Abort, cloned;
    }
    if save {
      match WriteFile(cloned, commitIdPath, u.tip)
      case Ok(saved) => return Ok(()), saved;
      case _ => return Ok(()), cloned;
    }
    return Ok(()), cloned;
  }

  /** A clone places every checked-out path under the clone directory and
      changes nothing outside it but, when saving, the commit id file. */
  lemma CloneFrame(repo: GitRepo, fs: FileSystem, commitIdPath: Path, u: Upstream, save: bool, p: Path)
    requires CloneEffect(repo, fs, commitIdPath, u, save).status.Ok?
    requires !(repo.repoPath <= p) && (save ==> p != commitIdPath)
    ensures p in CloneEffect(repo, fs, commitIdPath, u, save).fs <==> p in fs
    ensures p in fs ==> CloneEffect(repo, fs, commitIdPath, u, save).fs[p] == fs[p]
  {
    var cloned := Graft(fs, repo.repoPath, u.tree);
    forall q | q in u.tree
      ensures repo.repoPath + q != p
    {
      assert (repo.repoPath + q)[..|repo.repoPath|] == repo.repoPath;
    }
  }

  /** A successful clone that saves leaves the resolved id in the commit id
      file whenever that file can be written. */
  lemma CloneSavesTip(repo: GitRepo, fs: FileSystem, commitIdPath: Path, u: Upstream)
    requires CloneEffect(repo, fs, commitIdPath, u, true).status.Ok?
    requires WriteFile(Graft(fs, repo.repoPath, u.tree), commitIdPath, u.tip).Ok?
    ensures IsFileAt(CloneEffect(repo, fs, commitIdPath, u, true).fs, commitIdPath)
    ensures CloneEffect(repo, fs, commitIdPath, u, true).fs[commitIdPath].content == u.tip
  {
  }
}
