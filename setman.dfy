/** The user-facing operations (src/setman.rs): install, uninstall, save,
    modify, remove and create one application, the same for all
    applications, synchronising the staging directory with the upstream
    repository, and comparing the last synchronised commit with upstream.
    Prompt answers are parameters; every `unwrap` turns a returned error into
    the program stopping. */
module Setman {
  import opened Outcomes
  import opened Seqs
  import opened Fs
  import opened Paths
  import opened Fileman
  import opened Gitman

  /** What the program takes from its surroundings: the home directory,
      where the registry and the last commit id are kept, the TOML readers
      and writer, and the platform's directory listing order. */
  datatype Env = Env(
    home: string,
    applistPath: Path,
    commitIdPath: Path,
    toml: Toml,
    parseGit: string -> Option<GitSettings>,
    list: Lister)

  /** `settings_path`, the staging directory. */
  function SettingsDir(env: Env): Path
  {
    Components(NewPaths(env.home).settingsPath)
  }

  function GitConfigFile(env: Env): Path
  {
    Components(NewPaths(env.home).gitConfigPath)
  }

  /** `get_app_path`: where an application's files are staged. */
  function LocalPath(env: Env, appName: string): Path
  {
    Components(GetAppPath(NewPaths(env.home), appName))
  }

  /** The effect of `.unwrap()` on an operation's result. */
  function Unwrapped(e: Effect): (u: Effect)
    ensures !u.status.Err? && u.fs == e.fs
    ensures u.status.Ok? <==> e.status.Ok?
  {
    Effect(Unwrap(e.status), e.fs)
  }

  // ---------------------------------------------------------------------------
  // Copying one application's files

  /** `copy_app_files`: installing copies from the staging directory to the
      configuration directory, saving the other way round. */
  function TransferEnds(env: Env, app: App, fromLocal: bool): (Path, Path)
  {
    if fromLocal then (LocalPath(env, app.name), Components(app.configPath))
    else (Components(app.configPath), LocalPath(env, app.name))
  }

  function CopyAppFilesEffect(env: Env, app: App, fromLocal: bool, fs: FileSystem): Effect
  {
    var (source, dest) := TransferEnds(env, app, fromLocal);
    Unwrapped(Run(CopyPlan(app.fileNames, source, dest), fs))
  }

  /** `copy_app_files`. */
  method CopyAppFiles(env: Env, app: App, fromLocal: bool, fs: FileSystem) returns (r: Outcome<()>, fs': FileSystem)
    ensures !r.Err?
    ensures Effect(r, fs') == CopyAppFilesEffect(env, app, fromLocal, fs)
  {
    var localPath := LocalPath(env, app.name);
    if fromLocal {
      r, fs' := CopyFiles(app.fileNames, localPath, Components(app.configPath), fs);
      r := Unwrap(r);
      return;
    }
    r, fs' := CopyFiles(app.fileNames, Components(app.configPath), localPath, fs);
    r := Unwrap(r);
  }

  /** Install and save move the same file names between the same two
      directories, in opposite directions. */
  lemma InstallSaveOpposite(env: Env, app: App)
    ensures TransferEnds(env, app, true).0 == TransferEnds(env, app, false).1
    ensures TransferEnds(env, app, true).1 == TransferEnds(env, app, false).0
  {
  }

  /** Because `copy_files` replaces the last component, the staged files of
      an application are read from and written to the staging directory
      itself, not the application's own directory inside it. */
  lemma StagedFileLocation(env: Env, appName: string, f: string)
    requires appName != "" && '/' !in appName
    ensures !IsAbsolute(f) ==> SetFileName(LocalPath(env, appName), f) == SettingsDir(env) + Components(f)
    ensures IsEntryName(f) ==> SetFileName(LocalPath(env, appName), f) == Child(SettingsDir(env), f)
  {
    AppPathIsEntry(NewPaths(env.home), appName);
    SetFileNameOfChild(SettingsDir(env), appName, f);
  }

  /** Saving right after installing leaves every staged file as it was, as
      long as no staged file is also a configuration file the install
      writes. */
  lemma InstallThenSave(env: Env, app: App, fs: FileSystem)
    requires ReadsNotWritten(app.fileNames, LocalPath(env, app.name), Components(app.configPath))
    requires CopyAppFilesEffect(env, app, true, fs).status.Ok?
    requires CopyAppFilesEffect(env, app, false, CopyAppFilesEffect(env, app, true, fs).fs).status.Ok?
    ensures var after := CopyAppFilesEffect(env, app, false, CopyAppFilesEffect(env, app, true, fs).fs).fs;
      forall f :: f in app.fileNames ==>
        SetFileName(LocalPath(env, app.name), f) in fs &&
        SetFileName(LocalPath(env, app.name), f) in after &&
        after[SetFileName(LocalPath(env, app.name), f)] == fs[SetFileName(LocalPath(env, app.name), f)]
  {
    var local, config := LocalPath(env, app.name), Components(app.configPath);
    var installed := Run(CopyPlan(app.fileNames, local, config), fs).fs;
    assert CopyAppFilesEffect(env, app, true, fs).fs == installed;
    CopyFilesDone(app.fileNames, local, config, fs);
    CopyStepsDone(app.fileNames, local, config, fs);
    var after := Run(CopyPlan(app.fileNames, config, local), installed).fs;
    assert CopyAppFilesEffect(env, app, false, installed).fs == after;
    CopyFilesDone(app.fileNames, config, local, installed);
    CopyStepsDone(app.fileNames, config, local, installed);
    forall f | f in app.fileNames
      ensures SetFileName(local, f) in fs && SetFileName(local, f) in after && after[SetFileName(local, f)] == fs[SetFileName(local, f)]
    {
      assert after[SetFileName(local, f)] == installed[SetFileName(config, f)];
    }
  }

  // ---------------------------------------------------------------------------
  // New applications

  /** `char::is_whitespace`: the characters with the Unicode White_Space
      property. */
  predicate IsWhitespace(c: char)
  {
    || c == ' ' || ('\t' <= c <= '\r')
    || c == '\U{0085}' || c == '\U{00A0}' || c == '\U{1680}'
    || ('\U{2000}' <= c <= '\U{200A}')
    || c == '\U{2028}' || c == '\U{2029}' || c == '\U{202F}' || c == '\U{205F}' || c == '\U{3000}'
  }

  predicate NotWhitespace(c: char)
  {
    !IsWhitespace(c)
  }

  /** The longest prefix of `s` without whitespace. */
  function TakeWord(s: string): (w: string)
    ensures |w| <= |s| && w == s[..|w|]
    ensures forall i :: 0 <= i < |w| ==> !IsWhitespace(w[i])
    ensures |w| == |s| || IsWhitespace(s[|w|])
    ensures s != [] && !IsWhitespace(s[0]) ==> |w| >= 1
    decreases |s|
  {
    if s == [] || IsWhitespace(s[0]) then "" else [s[0]] + TakeWord(s[1..])
  }

  /** `split_whitespace`: the maximal runs of non-whitespace characters. */
  function Words(s: string): seq<string>
    decreases |s|
  {
    if s == [] then []
    else if IsWhitespace(s[0]) then Words(s[1..])
    else
      var w := TakeWord(s);
      [w] + Words(s[|w|..])
  }

  function Concat(words: seq<string>): string
  {
    if words == [] then "" else words[0] + Concat(words[1..])
  }

  /** No file name of a new application is empty or contains whitespace. */
  lemma {:induction false} WordsAreWords(s: string)
    ensures forall w :: w in Words(s) ==> w != "" && forall i :: 0 <= i < |w| ==> !IsWhitespace(w[i])
    decreases |s|
  {
    if s != [] {
      if IsWhitespace(s[0]) {
        WordsAreWords(s[1..]);
      } else {
        WordsAreWords(s[|TakeWord(s)|..]);
      }
    }
  }

  /** Splitting loses exactly the whitespace: the words put back together
      are the input's other characters, in order. */
  lemma {:induction false} WordsKeepText(s: string)
    ensures Concat(Words(s)) == Filter(s, NotWhitespace)
    decreases |s|
  {
    if s != [] {
      if IsWhitespace(s[0]) {
        WordsKeepText(s[1..]);
        FilterCons(s[0], s[1..], NotWhitespace);
        assert s == [s[0]] + s[1..];
      } else {
        var w := TakeWord(s);
        var rest := s[|w|..];
        WordsKeepText(rest);
        assert s == w + rest;
        FilterAppend(w, rest, NotWhitespace);
        forall c | c in w
          ensures NotWhitespace(c)
        {
          var i :| 0 <= i < |w| && w[i] == c;
        }
        FilterKeepsAll(w, NotWhitespace);
        assert Words(s) == [w] + Words(rest);
        assert ([w] + Words(rest))[1..] == Words(rest);
      }
    }
  }

  // ---------------------------------------------------------------------------
  // Modifying an application

  /** The prompt answers `modify_application` reads, in order: the field to
      change, the file to rename (for the file names), the new text, and the
      confirmation. A prompt that fails gives `Err`. */
  datatype ModifyAnswers = ModifyAnswers(
    field: Outcome<nat>,
    fileIndex: Outcome<nat>,
    text: Outcome<string>,
    confirm: Outcome<bool>)

  /** The edit `modify_application` makes to its copy of the application:
      field 0 renames it, field 1 changes the configuration directory, field
      2 replaces one file name; any other field, or a file index past the
      end, stops the program. */
  function EditApp(home: string, app: App, answers: ModifyAnswers): Outcome<App>
  {
    if !answers.field.Ok? then Err
    else if answers.field.value == 0 then
      if answers.text.Ok? then Ok(app.(name := answers.text.value)) else Err
    else if answers.field.value == 1 then
      if answers.text.Ok? then Ok(app.(configPath := GetAbsolutePath(home, answers.text.value))) else Err
    else if answers.field.value == 2 then
      if !answers.fileIndex.Ok? || !answers.text.Ok? then Err
      else if answers.fileIndex.value >= |app.fileNames| then Abort
      else
        var i := answers.fileIndex.value;
        Ok(app.(fileNames := InsertAt(RemoveAt(app.fileNames, i), i, answers.text.value)))
    else Abort
  }

  /** Field 2 replaces the chosen file name and nothing else; an index at or
      past the end stops the program. */
  lemma FileNameReplaced(home: string, app: App, answers: ModifyAnswers)
    requires answers.field == Ok(2) && answers.fileIndex.Ok? && answers.text.Ok?
    ensures answers.fileIndex.value >= |app.fileNames| ==> EditApp(home, app, answers) == Abort
    ensures answers.fileIndex.value < |app.fileNames| ==>
      && EditApp(home, app, answers).Ok?
      && EditApp(home, app, answers).value.name == app.name
      && EditApp(home, app, answers).value.configPath == app.configPath
      && EditApp(home, app, answers).value.fileNames == app.fileNames[answers.fileIndex.value := answers.text.value]
  {
    if answers.fileIndex.value < |app.fileNames| {
      RemoveThenInsert(app.fileNames, answers.fileIndex.value, answers.text.value);
    }
  }

  /** `modify_application`: after the edit, a confirmed change removes the
      old entry and saves the edited one; an unconfirmed one writes
      nothing. */
  function ModifyEffect(env: Env, name: string, answers: ModifyAnswers, fs: FileSystem): Effect
  {
    match LoadItems(fs, env.applistPath, env.toml)
    case Ok(items) =>
      (match FindByName(items, name)
       case Ok(app) =>
         (match EditApp(env.home, app, answers)
          case Ok(edited) =>
            if !answers.confirm.Ok? then Effect(Err, fs)
            else if !answers.confirm.value then Effect(Ok(()), fs)
            else
              var removed := RemoveAppEffect(items, name, fs, env.applistPath, env.toml);
              if !removed.status.Ok? then removed
              else SaveNewAppEffect(Without(items, name), edited, removed.fs, env.applistPath, env.toml)
          case Err => Effect(Err, fs)
          case Abort => Effect(Abort, fs))
       case _ => Effect(Abort, fs))
    case _ => Effect(Abort, fs)
  }

  /** `modify_application`. */
  method ModifyApplication(env: Env, name: string, answers: ModifyAnswers, fs: FileSystem)
    returns (r: Outcome<()>, fs': FileSystem)
    ensures Effect(r, fs') == ModifyEffect(env, name, answers, fs)
  {
    var loaded := Apps.Load(fs, env.applistPath, env.toml);
    if !loaded.Ok? {
      return Abort, fs;
    }
    var apps := loaded.value;
    var found := FindByName(apps.items, name);
    if !found.Ok? {
      return Abort, fs;
    }
    var app := found.value;
    if !answers.field.Ok? {
      return Err, fs;
    }
    var field := answers.field.value;
    if field == 0 {
      if !answers.text.Ok? {
        return Err, fs;
      }
      app := app.(name := answers.text.value);
    } else if field == 1 {
      if !answers.text.Ok? {
        return Err, fs;
      }
      app := app.(configPath := GetAbsolutePath(env.home, answers.text.value));
    } else if field == 2 {
      var fileNames := app.fileNames;
      if !answers.fileIndex.Ok? {
        return Err, fs;
      }
      var fileIndex := answers.fileIndex.value;
      if !answers.text.Ok? {
        return Err, fs;
      }
      if fileIndex >= |fileNames| {
        return Abort, fs;
      }
      fileNames := RemoveAt(fileNames, fileIndex);
      fileNames := InsertAt(fileNames, fileIndex, answers.text.value);
      app := app.(fileNames := fileNames);
    } else {
      return Abort, fs;
    }
    if !answers.confirm.Ok? {
      return Err, fs;
    }
    if answers.confirm.value {
      var removed, afterRemove := apps.RemoveApp(name, fs, env.applistPath, env.toml);
      if !removed.Ok? {
        return removed, afterRemove;
      }
      r, fs' := apps.SaveNewApp(app, afterRemove, env.applistPath, env.toml);
      return;
    }
    return Ok(()), fs;
  }

  /** The registry a confirmed modification leaves behind. */
  function ModifiedRegistry(items: seq<App>, name: string, edited: App): seq<App>
  {
    WithNew(Without(items, name), edited)
  }

  /** Without confirmation the registry file is not touched. */
  lemma ModifyUnconfirmed(env: Env, name: string, answers: ModifyAnswers, fs: FileSystem)
    requires answers.confirm == Ok(false)
    ensures ModifyEffect(env, name, answers, fs).fs == fs
  {
  }

  /** A confirmed modification whose writes succeed leaves the registry file
      holding `ModifiedRegistry`. */
  lemma ModifyConfirmed(env: Env, name: string, answers: ModifyAnswers, fs: FileSystem)
    requires answers.confirm == Ok(true)
    requires ModifyEffect(env, name, answers, fs).status.Ok?
    ensures LoadItems(fs, env.applistPath, env.toml).Ok?
    ensures var items := LoadItems(fs, env.applistPath, env.toml).value;
      && FindByName(items, name).Ok?
      && EditApp(env.home, FindByName(items, name).value, answers).Ok?
      && var edited := EditApp(env.home, FindByName(items, name).value, answers).value;
         var removed := WriteToml(fs, env.applistPath, env.toml, Without(items, name));
         && removed.Ok?
         && (HasName(Without(items, name), edited.name) ==> ModifyEffect(env, name, answers, fs).fs == removed.value)
         && (!HasName(Without(items, name), edited.name) ==>
               ModifyEffect(env, name, answers, fs).fs
                 == WriteToml(removed.value, env.applistPath, env.toml, ModifiedRegistry(items, name, edited)).value)
  {
  }

  /** When the new name is taken by another entry, the edited application is
      dropped: the old entry is gone and nothing replaces it. */
  lemma ModifyCollisionDrops(items: seq<App>, name: string, edited: App)
    requires HasName(Without(items, name), edited.name)
    ensures ModifiedRegistry(items, name, edited) == Without(items, name)
    ensures !HasName(ModifiedRegistry(items, name, edited), name)
  {
    RemoveMembers(items, name);
  }

  /** Otherwise the edited application replaces the old entry, at the end of
      the registry. */
  lemma ModifyMovesToEnd(items: seq<App>, name: string, edited: App)
    requires !HasName(Without(items, name), edited.name)
    ensures |ModifiedRegistry(items, name, edited)| == |Without(items, name)| + 1
    ensures ModifiedRegistry(items, name, edited)[|Without(items, name)|] == edited
    ensures FindByName(ModifiedRegistry(items, name, edited), edited.name) == Ok(edited)
  {
    SaveFresh(Without(items, name), edited);
  }

  // ---------------------------------------------------------------------------
  // Actions on one application

  /** The single-application actions, with the prompt answers each reads. */
  datatype AppCommand =
    | Install(name: string)
    | Uninstall(name: string)
    | Save(name: string)
    | Modify(name: string, answers: ModifyAnswers)
    | Remove(name: string, confirmation: Outcome<bool>)
    | New(nameAnswer: Outcome<string>, pathAnswer: Outcome<string>, filesAnswer: Outcome<string>)

  /** `app_action`. */
  function AppActionEffect(env: Env, cmd: AppCommand, fs: FileSystem): Effect
  {
    match LoadItems(fs, env.applistPath, env.toml)
    case Ok(items) =>
      (match cmd
       case Install(name) =>
         if !HasName(items, name) then Effect(Abort, fs)
         else CopyAppFilesEffect(env, FindByName(items, name).value, true, fs)
       case Uninstall(name) =>
         if !HasName(items, name) then Effect(Abort, fs)
         else Unwrapped(RemoveFilesEffect(fs, Components(FindByName(items, name).value.configPath), env.list))
       case Save(name) =>
         if !HasName(items, name) then Effect(Abort, fs)
         else CopyAppFilesEffect(env, FindByName(items, name).value, false, fs)
       case Modify(name, answers) =>
         Unwrapped(ModifyEffect(env, name, answers, fs))
       case Remove(name, confirmation) =>
         if !confirmation.Ok? then Effect(Abort, fs)
         else
           var removed := Unwrapped(RemoveAppEffect(items, name, fs, env.applistPath, env.toml));
           if !removed.status.Ok? then removed
           else Unwrapped(RemoveFilesEffect(removed.fs, LocalPath(env, name), env.list))
       case New(nameAnswer, pathAnswer, filesAnswer) =>
         if !nameAnswer.Ok? || !pathAnswer.Ok? || !filesAnswer.Ok? then Effect(Abort, fs)
         else
           var app := NewApp(env.home, nameAnswer.value, pathAnswer.value, Words(filesAnswer.value));
           Unwrapped(SaveNewAppEffect(items, app, fs, env.applistPath, env.toml)))
    case _ => Effect(Abort, fs)
  }

  /** `app_action`. */
  method AppAction(env: Env, cmd: AppCommand, fs: FileSystem) returns (r: Outcome<()>, fs': FileSystem)
    ensures Effect(r, fs') == AppActionEffect(env, cmd, fs)
  {
    var loaded := Apps.Load(fs, env.applistPath, env.toml);
    if !loaded.Ok? {
      return Abort, fs;
    }
    var apps := loaded.value;
    match cmd {
      case Install(name) =>
        var found := FindByName(apps.items, name);
        if !found.Ok? {
          return Abort, fs;
        }
        r, fs' := CopyAppFiles(env, found.value, true, fs);
      case Uninstall(name) =>
        var found := FindByName(apps.items, name);
        if !found.Ok? {
          return Abort, fs;
        }
        r, fs' := RemoveFiles(fs, Components(found.value.configPath), env.list);
        r := Unwrap(r);
      case Save(name) =>
        var found := FindByName(apps.items, name);
        if !found.Ok? {
          return Abort, fs;
        }
        r, fs' := CopyAppFiles(env, found.value, false, fs);
      case Modify(name, answers) =>
        r, fs' := ModifyApplication(env, name, answers, fs);
        r := Unwrap(r);
      case Remove(name, confirmation) =>
        // the answer itself is not looked at
        if !confirmation.Ok? {
          return Abort, fs;
        }
        var removed, afterRemove := apps.RemoveApp(name, fs, env.applistPath, env.toml);
        if !removed.Ok? {
          return Abort, afterRemove;
        }
        r, fs' := RemoveFiles(afterRemove, LocalPath(env, name), env.list);
        r := Unwrap(r);
      case New(nameAnswer, pathAnswer, filesAnswer) =>
        if !nameAnswer.Ok? || !pathAnswer.Ok? || !filesAnswer.Ok? {
          return Abort, fs;
        }
        var fileNames := Words(filesAnswer.value);
        // the registry is loaded a second time, from the unchanged file
        var reloaded := Apps.Load(fs, env.applistPath, env.toml);
        if !reloaded.Ok? {
          assert false;
        }
        r, fs' := reloaded.value.SaveNewApp(NewApp(env.home, nameAnswer.value, pathAnswer.value, fileNames),
                                            fs, env.applistPath, env.toml);
        r := Unwrap(r);
    }
  }

  /** Removal does not depend on the answer to "are you sure?". */
  lemma RemoveIgnoresAnswer(env: Env, name: string, fs: FileSystem)
    ensures AppActionEffect(env, Remove(name, Ok(true)), fs) == AppActionEffect(env, Remove(name, Ok(false)), fs)
  {
  }

  /** Removal rewrites the registry before it deletes the staged files: when
      the registry cannot be written nothing is deleted; otherwise the staged
      files are deleted from the filesystem holding the shortened registry. */
  lemma RemoveRegistryFirst(env: Env, name: string, answer: bool, fs: FileSystem)
    requires LoadItems(fs, env.applistPath, env.toml).Ok?
    ensures var items := LoadItems(fs, env.applistPath, env.toml).value;
      var written := WriteToml(fs, env.applistPath, env.toml, Without(items, name));
      && (!written.Ok? ==> AppActionEffect(env, Remove(name, Ok(answer)), fs) == Effect(Abort, fs))
      && (written.Ok? ==>
            AppActionEffect(env, Remove(name, Ok(answer)), fs)
              == Unwrapped(RemoveFilesEffect(written.value, LocalPath(env, name), env.list)))
  {
  }

  /** A new application's file names are the words of the answer: none is
      empty or holds whitespace. */
  lemma NewAppFileNames(env: Env, name: string, path: string, files: string)
    ensures forall f :: f in NewApp(env.home, name, path, Words(files)).fileNames ==>
      f != "" && forall i :: 0 <= i < |f| ==> !IsWhitespace(f[i])
  {
    WordsAreWords(files);
  }

  // ---------------------------------------------------------------------------
  // Actions on all applications

  datatype BulkCommand = InstallAll | UninstallAll | SaveAll

  function NotSkipped(skip: seq<string>): App -> bool
  {
    (a: App) => a.name !in skip
  }

  /** What one of the "all" actions does to one application. */
  function BulkStep(env: Env, cmd: BulkCommand, app: App, fs: FileSystem): Effect
  {
    match cmd
    case InstallAll => CopyAppFilesEffect(env, app, true, fs)
    case UninstallAll => Unwrapped(RemoveFilesEffect(fs, Components(app.configPath), env.list))
    case SaveAll => CopyAppFilesEffect(env, app, false, fs)
  }

  /** The action applied to each application in turn, up to the first
      failure. */
  function BulkRun(env: Env, cmd: BulkCommand, apps: seq<App>, fs: FileSystem): Effect
    decreases |apps|
  {
    if apps == [] then Effect(Ok(()), fs)
    else
      var e := BulkStep(env, cmd, apps[0], fs);
      if e.status.Ok? then BulkRun(env, cmd, apps[1..], e.fs) else e
  }

  /** `all_apps_action`: the registry applications whose names are not in
      the skip list, in registry order. */
  function AllAppsEffect(env: Env, cmd: BulkCommand, skip: seq<string>, fs: FileSystem): Effect
  {
    match LoadItems(fs, env.applistPath, env.toml)
    case Ok(items) => BulkRun(env, cmd, Filter(items, NotSkipped(skip)), fs)
    case _ => Effect(Abort, fs)
  }

  /** What the loop of `all_apps_action` does with one application that is
      not skipped. */
  method ActOnApp(env: Env, cmd: BulkCommand, app: App, fs: FileSystem) returns (r: Outcome<()>, fs': FileSystem)
    ensures Effect(r, fs') == BulkStep(env, cmd, app, fs)
  {
    match cmd {
      case InstallAll =>
        r, fs' := CopyAppFiles(env, app, true, fs);
      case UninstallAll =>
        r, fs' := RemoveFiles(fs, Components(app.configPath), env.list);
        r := Unwrap(r);
      case SaveAll =>
        r, fs' := CopyAppFiles(env, app, false, fs);
    }
  }

  /** One turn of the loop of `all_apps_action`: a skipped application is
      passed over, any other is acted on, and a failure ends the run. */
  lemma BulkRunNext(env: Env, cmd: BulkCommand, skip: seq<string>, app: App, rest: seq<App>, fs: FileSystem)
    ensures app.name in skip ==>
      BulkRun(env, cmd, Filter([app] + rest, NotSkipped(skip)), fs) == BulkRun(env, cmd, Filter(rest, NotSkipped(skip)), fs)
    ensures app.name !in skip ==>
      BulkRun(env, cmd, Filter([app] + rest, NotSkipped(skip)), fs)
        == (var e := BulkStep(env, cmd, app, fs);
            if e.status.Ok? then BulkRun(env, cmd, Filter(rest, NotSkipped(skip)), e.fs) else e)
  {
    var kept := Filter(rest, NotSkipped(skip));
    FilterCons(app, rest, NotSkipped(skip));
    if app.name !in skip {
      assert Filter([app] + rest, NotSkipped(skip)) == [app] + kept;
      assert ([app] + kept)[0] == app && ([app] + kept)[1..] == kept;
    } else {
      assert Filter([app] + rest, NotSkipped(skip)) == kept;
    }
  }

  /** The body of the loop of `all_apps_action`: skip the application if
      its name is listed, otherwise act on it. The run of the remaining
      applications is what is left of the run before this turn. */
  method ActOnUnskipped(env: Env, cmd: BulkCommand, skip: seq<string>, app: App, rest: seq<App>, fs: FileSystem)
    returns (r: Outcome<()>, fs': FileSystem)
    ensures r.Ok? ==>
      BulkRun(env, cmd, Filter(rest, NotSkipped(skip)), fs') == BulkRun(env, cmd, Filter([app] + rest, NotSkipped(skip)), fs)
    ensures !r.Ok? ==> Effect(r, fs') == BulkRun(env, cmd, Filter([app] + rest, NotSkipped(skip)), fs)
  {
    BulkRunNext(env, cmd, skip, app, rest, fs);
    if app.name in skip {
      return Ok(()), fs;
    }
    r, fs' := ActOnApp(env, cmd, app, fs);
  }

  /** `all_apps_action`. */
  method AllAppsAction(env: Env, cmd: BulkCommand, skip: seq<string>, fs: FileSystem)
    returns (r: Outcome<()>, fs': FileSystem)
    ensures Effect(r, fs') == AllAppsEffect(env, cmd, skip, fs)
  {
    var loaded := Apps.Load(fs, env.applistPath, env.toml);
    if !loaded.Ok? {
      return Abort, fs;
    }
    var items := loaded.value.items;
    fs' := fs;
    for i := 0 to |items|
      invariant BulkRun(env, cmd, Filter(items[i..], NotSkipped(skip)), fs')
        == BulkRun(env, cmd, Filter(items, NotSkipped(skip)), fs)
    {
      assert items[i..] == [items[i]] + items[i + 1..];
      var status;
      status, fs' := ActOnUnskipped(env, cmd, skip, items[i], items[i + 1..], fs');
      if !status.Ok? {
        return status, fs';
      }
    }
    assert items[|items|..] == [];
    return Ok(()), fs';
  }

  /** The "all" actions reach exactly the applications that are not skipped. */
  lemma AllAppsSelection(items: seq<App>, skip: seq<string>)
    ensures forall a :: a in Filter(items, NotSkipped(skip)) ==> a in items && a.name !in skip
    ensures forall a :: a in items && a.name !in skip ==> a in Filter(items, NotSkipped(skip))
  {
    FilterMembers(items, NotSkipped(skip));
  }

  /** The applications are handled one after the other: acting on a split
      list acts on the first part, then, if that succeeded, on the second. */
  lemma {:induction false} BulkRunAppend(env: Env, cmd: BulkCommand, a: seq<App>, b: seq<App>, fs: FileSystem)
    ensures BulkRun(env, cmd, a + b, fs)
      == (var e := BulkRun(env, cmd, a, fs); if e.status.Ok? then BulkRun(env, cmd, b, e.fs) else e)
    decreases |a|
  {
    if a == [] {
      assert a + b == b;
    } else {
      assert (a + b)[0] == a[0];
      assert (a + b)[1..] == a[1..] + b;
      var e := BulkStep(env, cmd, a[0], fs);
      if e.status.Ok? {
        BulkRunAppend(env, cmd, a[1..], b, e.fs);
      }
    }
  }

  /** Every failure of an "all" action stops the program. */
  lemma {:induction false} BulkRunNeverReturnsError(env: Env, cmd: BulkCommand, apps: seq<App>, fs: FileSystem)
    ensures !BulkRun(env, cmd, apps, fs).status.Err?
    decreases |apps|
  {
    if apps != [] {
      var e := BulkStep(env, cmd, apps[0], fs);
      if e.status.Ok? {
        BulkRunNeverReturnsError(env, cmd, apps[1..], e.fs);
      }
    }
  }

  // ---------------------------------------------------------------------------
  // Synchronising with the upstream repository

  datatype Direction = SyncUp | SyncDown

  /** The copies of a sync up: each directory of the staging area must be a
      registered application, whose files go to the directory of the same
      name in the clone. */
  function SyncUpCopies(items: seq<App>, dirs: seq<string>, settingsDir: Path, repoPath: Path, fs: FileSystem): Effect
    decreases |dirs|
  {
    if dirs == [] then Effect(Ok(()), fs)
    else
      match FindByName(items, dirs[0])
      case Ok(app) =>
        var e := Unwrapped(Run(CopyPlan(app.fileNames, Child(settingsDir, dirs[0]), Child(repoPath, dirs[0])), fs));
        if e.status.Ok? then SyncUpCopies(items, dirs[1..], settingsDir, repoPath, e.fs) else e
      case _ => Effect(Abort, fs)
  }

  /** The copies of a sync down: every entry listed in each directory of the
      clone, towards the staging directory of the same name. */
  function SyncDownCopies(list: Lister, dirs: seq<string>, repoPath: Path, settingsDir: Path, fs: FileSystem): Effect
    decreases |dirs|
  {
    if dirs == [] then Effect(Ok(()), fs)
    else
      var source := Child(repoPath, dirs[0]);
      if !IsDirAt(fs, source) then Effect(Abort, fs)
      else
        var e := Unwrapped(Run(CopyPlan(list(fs, source), source, Child(settingsDir, dirs[0])), fs));
        if e.status.Ok? then SyncDownCopies(list, dirs[1..], repoPath, settingsDir, e.fs) else e
  }

  /** `sync_settings` after the clone, going up: every directory of the
      staging area is copied into the clone, then the clone is pushed. */
  function SyncUpEffect(env: Env, repo: GitRepo, u: Upstream, fs: FileSystem): Effect
  {
    if !IsDirAt(fs, SettingsDir(env)) then Effect(Abort, fs)
    else
      var dirs := Filter(env.list(fs, SettingsDir(env)), IsDirIn(fs, SettingsDir(env)));
      match LoadItems(fs, env.applistPath, env.toml)
      case Ok(items) =>
        var copied := SyncUpCopies(items, dirs, SettingsDir(env), repo.repoPath, fs);
        if !copied.status.Ok? then copied
        else Unwrapped(Run(PushPlan(repo, env.commitIdPath, u), copied.fs))
      case _ => Effect(Abort, fs)
  }

  /** `sync_settings` after the clone, going down: every application
      directory of the clone is copied into the staging area. */
  function SyncDownEffect(env: Env, repo: GitRepo, fs: FileSystem): Effect
  {
    var dirs := Filter(env.list(fs, repo.repoPath), IsAppDirIn(fs, repo.repoPath));
    SyncDownCopies(env.list, dirs, repo.repoPath, SettingsDir(env), fs)
  }

  /** `sync_settings`: clone (saving the upstream id), then copy up and push,
      or copy down. */
  function SyncEffect(env: Env, direction: Direction, uuid: string, u: Upstream, fs: FileSystem): Effect
  {
    match LoadGitSettings(fs, GitConfigFile(env), env.parseGit)
    case Ok(settings) =>
      var repo := NewGitRepo(settings, uuid);
      var cloned := CloneEffect(repo, fs, env.commitIdPath, u, true);
      if !cloned.status.Ok? then cloned
      else if direction == SyncUp then SyncUpEffect(env, repo, u, cloned.fs)
      else SyncDownEffect(env, repo, cloned.fs)
    case _ => Effect(Abort, fs)
  }

  /** The copying loop of a sync up. */
  method CopyUp(items: seq<App>, dirs: seq<string>, settingsDir: Path, repoPath: Path, fs: FileSystem)
    returns (r: Outcome<()>, fs': FileSystem)
    ensures Effect(r, fs') == SyncUpCopies(items, dirs, settingsDir, repoPath, fs)
  {
    fs' := fs;
    for i := 0 to |dirs|
      invariant SyncUpCopies(items, dirs[i..], settingsDir, repoPath, fs')
        == SyncUpCopies(items, dirs, settingsDir, repoPath, fs)
    {
      var dirName := dirs[i];
      assert dirs[i..][0] == dirName && dirs[i..][1..] == dirs[i + 1..];
      var source := Child(settingsDir, dirName);
      var dest := Child(repoPath, dirName);
      var app := FindByName(items, dirName);
      if !app.Ok? {
        return Abort, fs';
      }
      var copied;
      copied, fs' := CopyFiles(app.value.fileNames, source, dest, fs');
      if !copied.Ok? {
        return Abort, fs';
      }
    }
    assert dirs[|dirs|..] == [];
    return Ok(()), fs';
  }

  /** The copying loop of a sync down. */
  method CopyDown(list: Lister, dirs: seq<string>, repoPath: Path, settingsDir: Path, fs: FileSystem)
    returns (r: Outcome<()>, fs': FileSystem)
    ensures Effect(r, fs') == SyncDownCopies(list, dirs, repoPath, settingsDir, fs)
  {
    fs' := fs;
    for i := 0 to |dirs|
      invariant SyncDownCopies(list, dirs[i..], repoPath, settingsDir, fs')
        == SyncDownCopies(list, dirs, repoPath, settingsDir, fs)
    {
      var dirName := dirs[i];
      assert dirs[i..][0] == dirName && dirs[i..][1..] == dirs[i + 1..];
      var source := Child(repoPath, dirName);
      var dest := Child(settingsDir, dirName);
      var files := ReadDir(fs', source, list);
      if !files.Ok? {
        return Abort, fs';
      }
      var copied;
      copied, fs' := CopyFiles(files.value, source, dest, fs');
      if !copied.Ok? {
        return Abort, fs';
      }
    }
    assert dirs[|dirs|..] == [];
    return Ok(()), fs';
  }

  /** `sync_settings`. */
  method SyncSettings(env: Env, direction: Direction, uuid: string, u: Upstream, fs: FileSystem)
    returns (r: Outcome<()>, fs': FileSystem)
    ensures Effect(r, fs') == SyncEffect(env, direction, uuid, u, fs)
  {
    var settingsPath := SettingsDir(env);
    var settings := LoadGitSettings(fs, GitConfigFile(env), env.parseGit);
    if !settings.Ok? {
      return Abort, fs;
    }
    var gitman := NewGitRepo(settings.value, uuid);
    var cloned, current := CloneRepoSaving(gitman, fs, env.commitIdPath, u, true);
    if !cloned.Ok? {
      return cloned, current;
    }
    match direction {
      case SyncUp =>
        var dirNames := GetDirNamesInPath(current, settingsPath, env.list);
        if !dirNames.Ok? {
          return Abort, current;
        }
        var loaded := Apps.Load(current, env.applistPath, env.toml);
        if !loaded.Ok? {
          return Abort, current;
        }
        var copied;
        copied, current := CopyUp(loaded.value.items, dirNames.value, settingsPath, gitman.repoPath, current);
        if !copied.Ok? {
          return copied, current;
        }
        r, fs' := PushChanges(gitman, current, env.commitIdPath, u);
        r := Unwrap(r);
      case SyncDown =>
        var dirsToCopy := GetDirNames(gitman, current, env.list);
        if !dirsToCopy.Ok? {
          assert false;
        }
        r, fs' := CopyDown(env.list, dirsToCopy.value, gitman.repoPath, settingsPath, current);
    }
  }

  /** A sync up that gets past the copies found every staging directory in
      the registry; an unregistered one stops the program. */
  lemma {:induction false} SyncUpNeedsRegistration(items: seq<App>, dirs: seq<string>, settingsDir: Path, repoPath: Path, fs: FileSystem)
    ensures !SyncUpCopies(items, dirs, settingsDir, repoPath, fs).status.Err?
    ensures SyncUpCopies(items, dirs, settingsDir, repoPath, fs).status.Ok? ==>
      forall d :: d in dirs ==> HasName(items, d)
    decreases |dirs|
  {
    if dirs != [] {
      match FindByName(items, dirs[0])
      case Ok(app) =>
        var e := Unwrapped(Run(CopyPlan(app.fileNames, Child(settingsDir, dirs[0]), Child(repoPath, dirs[0])), fs));
        if e.status.Ok? {
          SyncUpNeedsRegistration(items, dirs[1..], settingsDir, repoPath, e.fs);
          forall d | d in dirs
            ensures d == dirs[0] || d in dirs[1..]
          {
            var i :| 0 <= i < |dirs| && dirs[i] == d;
            if i > 0 {
              assert dirs[1..][i - 1] == d;
            }
          }
        }
      case _ =>
    }
  }

  /** Because `copy_files` replaces the last component, syncing the
      directory `d` copies each file `f` from the top level of one side to the
      top level of the other (clone to staging area going down, staging area
      to clone going up), not from `d` to `d`. */
  lemma SyncCopyPairs(from: Path, to: Path, d: string, names: seq<string>)
    ensures |CopySteps(names, Child(from, d), Child(to, d))| == |names|
    ensures forall i :: 0 <= i < |names| && !IsAbsolute(names[i]) ==>
      CopySteps(names, Child(from, d), Child(to, d))[i]
        == Copy(from + Components(names[i]), to + Components(names[i]))
    ensures forall i :: 0 <= i < |names| && IsEntryName(names[i]) ==>
      CopySteps(names, Child(from, d), Child(to, d))[i] == Copy(Child(from, names[i]), Child(to, names[i]))
  {
    forall i | 0 <= i < |names|
      ensures !IsAbsolute(names[i]) ==>
        CopySteps(names, Child(from, d), Child(to, d))[i] == Copy(from + Components(names[i]), to + Components(names[i]))
      ensures IsEntryName(names[i]) ==>
        CopySteps(names, Child(from, d), Child(to, d))[i] == Copy(Child(from, names[i]), Child(to, names[i]))
    {
      SetFileNameOfChild(from, d, names[i]);
      SetFileNameOfChild(to, d, names[i]);
    }
  }

  // ---------------------------------------------------------------------------
  // Comparing with upstream

  datatype Freshness = UpToDate | Behind

  /** The comparison of `compare_upstream`: exact equality of the saved text
      and the upstream id, with no trimming. */
  function Compare(contents: string, tip: string): (f: Freshness)
    ensures f == UpToDate <==> contents == tip
  {
    if contents == tip then UpToDate else Behind
  }

  /** `compare_upstream`, with the clone saving the upstream id (`save`) or
      not: the report, and the filesystem afterwards. */
  function CompareEffect(env: Env, uuid: string, u: Upstream, fs: FileSystem, save: bool): (Outcome<Freshness>, FileSystem)
  {
    match LoadGitSettings(fs, GitConfigFile(env), env.parseGit)
    case Ok(settings) => CompareCloned(env, u, CloneEffect(NewGitRepo(settings, uuid), fs, env.commitIdPath, u, save))
    case _ => (Abort, fs)
  }

  /** The rest of `compare_upstream` once the clone has run: a failed clone
      stops the program, and so do a failed open and a missing id file. */
  function CompareCloned(env: Env, u: Upstream, cloned: Effect): (Outcome<Freshness>, FileSystem)
  {
    if !cloned.status.Ok? then (Abort, cloned.fs)
    else if OpenRepo in u.failing then (Abort, cloned.fs)
    else if !IsFileAt(cloned.fs, env.commitIdPath) then (Abort, cloned.fs)
    else (Ok(Compare(cloned.fs[env.commitIdPath].content, u.tip)), cloned.fs)
  }

  /** `compare_upstream` as written: its clone saves the upstream id first. */
  method CompareUpstream(env: Env, uuid: string, u: Upstream, fs: FileSystem)
    returns (r: Outcome<Freshness>, fs': FileSystem)
    ensures (r, fs') == CompareEffect(env, uuid, u, fs, true)
  {
    var settings := LoadGitSettings(fs, GitConfigFile(env), env.parseGit);
    if !settings.Ok? {
      return Abort, fs;
    }
    var gitRepo := NewGitRepo(settings.value, uuid);
    var cloned;
    cloned, fs' := CloneRepo(gitRepo, fs, env.commitIdPath, u);
    assert CompareEffect(env, uuid, u, fs, true) == CompareCloned(env, u, Effect(cloned, fs'));
    if !cloned.Ok? {
      return Abort, fs';
    }
    r := ReadAndCompare(env, u, fs');
  }

  /** `compare_upstream` with the clone told not to save, as its call
      evidently intends. */
  method CompareUpstreamFixed(env: Env, uuid: string, u: Upstream, fs: FileSystem)
    returns (r: Outcome<Freshness>, fs': FileSystem)
    ensures (r, fs') == CompareEffect(env, uuid, u, fs, false)
  {
    var settings := LoadGitSettings(fs, GitConfigFile(env), env.parseGit);
    if !settings.Ok? {
      return Abort, fs;
    }
    var gitRepo := NewGitRepo(settings.value, uuid);
    var cloned;
    cloned, fs' := CloneRepoSaving(gitRepo, fs, env.commitIdPath, u, false);
    assert CompareEffect(env, uuid, u, fs, false) == CompareCloned(env, u, Effect(cloned, fs'));
    if !cloned.Ok? {
      return Abort, fs';
    }
    r := ReadAndCompare(env, u, fs');
  }

  /** The part of `compare_upstream` after the clone: open it, resolve
      `origin` (which the clone already did), read the saved id, compare. */
  method ReadAndCompare(env: Env, u: Upstream, fs: FileSystem) returns (r: Outcome<Freshness>)
    ensures !r.Err?
    ensures r.Ok? <==> OpenRepo !in u.failing && IsFileAt(fs, env.commitIdPath)
    ensures r.Ok? ==> r.value == Compare(fs[env.commitIdPath].content, u.tip)
  {
    if OpenRepo in u.failing {
      return Abort;
    }
    if !IsFileAt(fs, env.commitIdPath) {
      return Abort;
    }
    var contents := fs[env.commitIdPath].content;
    return Ok(Compare(contents, u.tip));
  }

  /** As written, whenever the comparison is reached and the clone could save
      the id, the report is "up to date", whatever was saved before. */
  lemma AsWrittenAlwaysUpToDate(env: Env, uuid: string, u: Upstream, fs: FileSystem)
    requires CompareEffect(env, uuid, u, fs, true).0.Ok?
    requires var repo := NewGitRepo(LoadGitSettings(fs, GitConfigFile(env), env.parseGit).value, uuid);
      WriteFile(Graft(fs, repo.repoPath, u.tree), env.commitIdPath, u.tip).Ok?
    ensures CompareEffect(env, uuid, u, fs, true).0 == Ok(UpToDate)
  {
    var repo := NewGitRepo(LoadGitSettings(fs, GitConfigFile(env), env.parseGit).value, uuid);
    CloneSavesTip(repo, fs, env.commitIdPath, u);
  }

  /** Without the save, the report compares the id saved by the last sync
      with the upstream id: "up to date" exactly when they are equal. */
  lemma FixedComparesSavedId(env: Env, uuid: string, u: Upstream, fs: FileSystem)
    requires CompareEffect(env, uuid, u, fs, false).0.Ok?
    requires env.commitIdPath == [] || env.commitIdPath[0] != "tmp"
    ensures IsFileAt(fs, env.commitIdPath)
    ensures CompareEffect(env, uuid, u, fs, false).0 == Ok(UpToDate) <==> fs[env.commitIdPath].content == u.tip
  {
    var repo := NewGitRepo(LoadGitSettings(fs, GitConfigFile(env), env.parseGit).value, uuid);
    assert !(repo.repoPath <= env.commitIdPath);
    CloneFrame(repo, fs, env.commitIdPath, u, false, env.commitIdPath);
  }

  /** An outdated saved id is reported as up to date as written, and as
      behind once the clone does not save. */
  lemma StaleIdMisreported(env: Env, uuid: string, u: Upstream, fs: FileSystem)
    requires CompareEffect(env, uuid, u, fs, true).0.Ok? && CompareEffect(env, uuid, u, fs, false).0.Ok?
    requires env.commitIdPath == [] || env.commitIdPath[0] != "tmp"
    requires IsFileAt(fs, env.commitIdPath) && fs[env.commitIdPath].content != u.tip
    requires var repo := NewGitRepo(LoadGitSettings(fs, GitConfigFile(env), env.parseGit).value, uuid);
      WriteFile(Graft(fs, repo.repoPath, u.tree), env.commitIdPath, u.tip).Ok?
    ensures CompareEffect(env, uuid, u, fs, true).0 == Ok(UpToDate)
    ensures CompareEffect(env, uuid, u, fs, false).0 == Ok(Behind)
  {
    AsWrittenAlwaysUpToDate(env, uuid, u, fs);
    FixedComparesSavedId(env, uuid, u, fs);
  }
}
