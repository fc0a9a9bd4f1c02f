# setman: a Dafny model of the registry, file transfers and sync rules

setman keeps an application's configuration files in a staging directory
(`~/.config/setman/settings/<app>`) and syncs that directory with a Git
repository. This project models its core and proves properties of the model:

- **Registry** (`Apps`). An ordered list of applications: a name, a
  configuration directory, and the names of the files to manage. It is loaded
  from and written back to a TOML file.
- **File transfers.** Listing subdirectories, copying named files between two
  directories, and deleting the files of a directory.
- **Commands.** Install, uninstall, save, modify, remove and create one
  application; the same for every application not in a skip list; sync up or
  down with the upstream repository; compare the last synchronised commit with
  upstream.
- **Paths.** Derived from the home directory by text concatenation.
- **Git bookkeeping.** The temporary clone directory and the directories taken
  from the clone. The credential choice. The order of the steps of pushing
  and cloning, any of which may fail.

## How it is modelled

- The filesystem is a value: a map from paths (sequences of components) to
  `File(content)` or `Dir`. An operation that changes it takes the old map and
  returns the new one. Directory enumeration order is a `Lister` parameter.
  Lemmas about listings require that it enumerates each entry exactly once.
- Every operation ends in `Ok`, `Err` or `Abort`. `Err` is an error returned
  with `?`. `Abort` stands for every way the program stops: `panic!`,
  `assert!`, `exit(0)`, and `unwrap`/`expect` on an error.
- A sequence of filesystem steps that stops at its first failure is an
  `Action` plan, interpreted by `Fs.Run`. `copy_files`, `remove_files` and
  `push_changes` are imperative methods. Each is proved equal to running its
  plan, and the lemmas about the plan state what the source promises.
- The registry is a class `Fileman.Apps` whose `items` field `SaveNewApp` and
  `RemoveApp` update in place. Loops of the source (`get_dir_names_in_path`,
  `copy_files`, `remove_files`, `get_dir_names`, `all_apps_action`, both
  branches of `sync_settings`) are `for` loops with invariants.
- The following are parameters:
  - prompt answers;
  - the TOML parser and printer;
  - the generated UUID;
  - the home directory;
  - what the Git library and the remote do (`Gitman.Upstream`: which steps
    fail, the checked-out tree, the ids).
- `Paths` has no `applist_path` or `commit_id_path`, although `fileman.rs` and
  `gitman.rs` use them. Both are abstract paths in `Setman.Env`.

Where the documented design and the code disagree, the model follows the code:

- A missing registry file stops the program. It is not read as an empty
  registry.
- Inserting a duplicate name returns `Ok` without writing. It does not report
  a duplicate.
- `copy_files` requires the destination to exist and does not create it.
- `copy_files` builds each path with `set_file_name`, which replaces the last
  component. It copies `parent(source)/f` to `parent(dest)/f`, not
  `source/f` to `dest/f`. This affects install, save and sync alike
  (`Fs.SetFileNameOfChild`, `Setman.StagedFileLocation`,
  `Setman.SyncCopyPairs`). A name with separators, such as `lua/init.lua`,
  adds all its components, so it reaches into a subdirectory on both sides
  (`Fileman.CopyNestedName`).

## Model

| member | source | states |
|---|---|---|
| Fs.SetFileNameOfChild | src/fileman.rs:111-114 | Renaming the path `dir/n` with a relative name gives `dir` followed by the name's components: next to `dir/n`, not inside it. A one-component name `f` gives the sibling `dir/f`. |
| Fs.SetFileNameInjective | src/fileman.rs:111-114 | For one-component names, two renamed paths coincide only when the original paths have the same parent and the new names are equal. |
| Fs.SetFileNameAlike | src/fileman.rs:111-114 | If neither of two names renames a path of `p` onto the same path of `q`, and `q` renames both to one path, then `p` renames both to one path too. |
| Fs.WriteFileEffect | src/fileman.rs:89 | A write succeeds exactly when the parent is a directory and the path is not one. It then sets that path to the content and changes no other path. |
| Fs.CopyFileEffect | src/fileman.rs:117 | A copy between two different paths gives the destination the source's content. A file copied onto itself is truncated to empty, as `fs::copy` opens the destination with truncation before reading. |
| Paths.NewPaths | src/paths.rs:16-24 | The configuration directory is `home + "/.config/setman"`. The staging directory, `apps.toml` and `git.toml` are that directory followed by `/settings`, `/apps.toml` and `/git.toml`. |
| Paths.GetAppPath | src/paths.rs:26-28 | The result is the staging directory followed by `/` and the name: a prefix, one separator, and the name as the suffix. |
| Paths.GetAbsolutePath | src/paths.rs:30-32 | The result is the home directory, `/` and the relative text unchanged. |
| Paths.ConfigLayout | src/paths.rs:18-22 | As components: the configuration directory is `.config/setman` under home, and the staging directory and both TOML files are entries of it. |
| Paths.ConfigPathsDistinct | src/paths.rs:19-22 | The staging directory and the two configuration files are three different paths. |
| Paths.AppPathInjective | src/paths.rs:27 | Different application names give different staging paths. |
| Paths.AppPathIsEntry | src/paths.rs:26-28 | For a name without separators, the staging path of an application is the entry of that name in the staging directory. |
| Paths.AbsolutePathComponents | src/paths.rs:30-32 | The components of an absolute path are those of home followed by those of the relative text. Nothing is normalised away but empty pieces. |
| Fileman.NewApp | src/fileman.rs:29-36 | Keeps the name and file names. The configuration directory is the given path taken relative to home. |
| Fileman.LoadItems | src/fileman.rs:40-53 | Loading never returns an error. It stops the program exactly when the registry file cannot be read. |
| Fileman.LoadUnparseable | src/fileman.rs:49-52 | A registry file that does not parse loads as the empty registry. |
| Fileman.LoadAfterWrite | src/fileman.rs:87-91 | After a successful write, loading gives back the written items, provided the TOML printer and parser round-trip. |
| Fileman.Position | src/fileman.rs:56 | The position found holds the first item with exactly that name. There is none exactly when no item has the name. |
| Fileman.FindByName | src/fileman.rs:55-67 | The lookup succeeds exactly when some item has the name, and returns the first such item. A miss stops the program and never returns an error. |
| Fileman.Apps.Load | src/fileman.rs:40-53 | Succeeds exactly when the registry file can be read, with a fresh registry holding the loaded items. Otherwise the program stops. |
| Fileman.Apps.SaveNewApp | src/fileman.rs:69-79 | With the name already present: items unchanged, nothing written, `Ok`. Otherwise: the app is appended and the whole list is written. |
| Fileman.SaveFresh | src/fileman.rs:76-78 | A fresh name grows the list by one, keeps every earlier item, and puts the new app last, where it is the first with its name. |
| Fileman.SaveKeepsUnique | src/fileman.rs:69-79 | Saving keeps the names of a registry unique. |
| Fileman.Apps.RemoveApp | src/fileman.rs:81-85 | The items become those whose name differs, and that list is written. |
| Fileman.RemoveMembers | src/fileman.rs:82 | After removal: every remaining item was there before and has another name; every item with another name remains; the name is gone. |
| Fileman.RemoveKeepsOrder | src/fileman.rs:82 | Removal keeps relative order: removing from a concatenation concatenates the removals. |
| Fileman.RemoveAbsent | src/fileman.rs:82 | Removing a name no item has changes nothing. |
| Fileman.RemoveIdempotent | src/fileman.rs:82 | A second removal of the same name changes nothing. |
| Fileman.RemoveKeepsUnique | src/fileman.rs:82 | Removal keeps the names of a registry unique. |
| Fileman.GetDirNamesInPath | src/fileman.rs:94-104 | Returns an error exactly when the path is not a directory, and never stops the program. On success, the entries that are directories, in enumeration order. |
| Fileman.DirNamesExact | src/fileman.rs:94-104 | With each entry listed once: every returned name is a subdirectory, every subdirectory is returned, and none twice. |
| Fileman.CopyFiles | src/fileman.rs:106-121 | If source or destination is missing, the program stops and nothing changes. Otherwise the result is running the copy plan: each name copied between the renamed paths, in order, up to the first failure. A name whose two renamed paths coincide is copied onto itself, which empties the file. A name with separators is copied between subdirectories. |
| Fileman.SourcesAreNotTargets | src/fileman.rs:111-114 | When source and destination have different parents, no path read for a one-component name is a path written for another. |
| Fileman.NamedCopiesSafe | src/fileman.rs:111-117 | When no path read for a name is a path written for another, two names that write the same path read the same path. |
| Fileman.CopiesDone | src/fileman.rs:110-119 | After a successful run of copies where no path read is written and each written path has one source, every destination holds its source's content and nothing else changes. |
| Fileman.CopyStepsDone | src/fileman.rs:110-119 | When no path read is also written and every copy succeeds, each renamed destination holds what its renamed source held, and only those paths are added or changed. Names with separators are included. |
| Fileman.CopyNestedName | src/fileman.rs:110-118 | The name `a/b` is copied from `a/b` beside the source to `a/b` beside the destination when that subdirectory exists, and the copy succeeds. |
| Fileman.CopyOntoItself | src/fileman.rs:110-119 | When source and destination share a parent, each renamed path is both read and written. After a successful run every such file is empty, and nothing else changes. |
| Fileman.CopyFilesDone | src/fileman.rs:106-121 | A successful `copy_files` had both ends present, and its effect is that of its copies alone. |
| Fileman.CopyFilesStopsAtFailure | src/fileman.rs:108-117 | A failed `copy_files` made the copies of a prefix of the names, which stay in place, then failed at the next name. It stops the program exactly when that source is missing, and otherwise returns the copy error. |
| Fileman.RemoveFiles | src/fileman.rs:123-134 | A path that is not a directory returns an error and changes nothing. Otherwise every listed entry is deleted in order, up to the first failure. |
| Fileman.DeleteStepsDone | src/fileman.rs:126-132 | The deletions all succeed exactly when every listed entry is a file. Then exactly those entries are gone and nothing else changes. |
| Fileman.RemoveFilesDone | src/fileman.rs:123-134 | On a directory with a faithful listing, the call succeeds exactly when all entries are files. It empties the directory, the directory itself stays, and no path outside it changes. |
| Gitman.LoadGitSettings | src/gitman.rs:35-54 | The settings load exactly when the file exists and parses. Otherwise the program stops; no error is returned. |
| Gitman.NewGitRepo | src/gitman.rs:58-69 | Keeps the loaded settings. The clone path is `/tmp` followed by the components of `"setman-tmp-"` plus the id. |
| Gitman.TmpComponents | src/gitman.rs:62 | `/tmp` is the single component `tmp`. |
| Gitman.RepoPathLayout | src/gitman.rs:60-64 | For an id without separators, the clone path is exactly `tmp` then `setman-tmp-<id>`. |
| Gitman.RepoPathsDiffer | src/gitman.rs:60-64 | Different ids give different clone directories. |
| Gitman.GetDirNames | src/gitman.rs:71-87 | The program stops exactly when the clone is not a directory. Otherwise the result is the subdirectories other than `.git`, in enumeration order. |
| Gitman.AppDirNamesExact | src/gitman.rs:75-86 | With each entry listed once: every name returned is a subdirectory other than `.git`, every such subdirectory is returned, and none twice. |
| Gitman.AppDirsAreDirsWithoutGit | src/gitman.rs:80 | The names `get_dir_names` keeps are those `get_dir_names_in_path` would keep, minus `.git`, in the same order. |
| Gitman.ChooseCredential | src/gitman.rs:166-178 | The user name is always the configured name. A configured password is used as is. Otherwise the prompted one is used, and a failed prompt stops the program. |
| Gitman.PushChanges | src/gitman.rs:93-164 | The result is the push plan up to its first failure. The plan runs: open, signature, index, stage all, write index, write tree, find tree, resolve parent, read and prettify the message, commit; then save the id (fatal), find `origin`, authenticate, push. |
| Gitman.PushSavesIdBeforePublishing | src/gitman.rs:109-121 | Once the commit is created and the id file can be written, the id is on disk after the push, whether or not the push succeeds. |
| Gitman.PushFailsEarly | src/gitman.rs:94-110 | A failure before the commit is created fails the push and leaves the filesystem untouched. |
| Gitman.PushSucceeds | src/gitman.rs:93-127 | The push succeeds exactly when every step succeeds, the id file can be written, and authentication, if requested, gets a password. |
| Gitman.CloneRepo | src/gitman.rs:194-210 | As written: authenticate, clone (fatal), resolve `origin` (fatal), then always try to save the resolved id, ignoring a failed write. |
| Gitman.CloneRepoSaving | src/gitman.rs:194-210 | The same steps, with the resolved id saved only when the caller's flag asks for it. |
| Gitman.CloneFrame | src/gitman.rs:204-209 | A successful clone changes nothing outside the clone directory, except, when it saves, the commit id file. |
| Gitman.CloneSavesTip | src/gitman.rs:208-209 | A clone that saves, where the id file can be written, leaves the upstream id in that file. |
| Setman.Unwrapped | src/setman.rs:113 | `unwrap` turns an error into the program stopping and keeps success and the filesystem as they are. |
| Setman.CopyAppFiles | src/setman.rs:105-115 | Runs `copy_files` with the staging path as source and the configuration directory as destination when installing, and the reverse when saving. Every failure stops the program. |
| Setman.InstallSaveOpposite | src/setman.rs:109-114 | Install and save use the same two directories with the ends swapped. |
| Setman.StagedFileLocation | src/setman.rs:106-114 | Because of `set_file_name`, an application's staged files are read and written under the top of the staging directory, not inside its own directory there. A one-component name is an entry of the staging directory. |
| Setman.InstallThenSave | src/setman.rs:105-134 | When no staged file is also a configuration file the install writes, saving right after a successful install leaves every staged file as it was. Different parents of the two directories and one-component names ensure this (`Fileman.SourcesAreNotTargets`). When they share a parent, the files are emptied instead (`Fileman.CopyOntoItself`). |
| Setman.TakeWord | src/setman.rs:157 | The word taken is a prefix of the text, holds no whitespace, stops at whitespace or the end, and is non-empty when the text starts with another character. |
| Setman.WordsAreWords | src/setman.rs:157 | No word of `split_whitespace` is empty or contains whitespace. |
| Setman.WordsKeepText | src/setman.rs:157 | The words put back together are the input with its whitespace removed, in order. |
| Setman.FileNameReplaced | src/setman.rs:207-219 | Choosing the file names replaces the name at the chosen index and changes nothing else. An index at or past the end stops the program. |
| Setman.ModifyApplication | src/setman.rs:194-228 | Loads and looks up the application (stopping on a miss). Then edits one field, or stops on an invalid field. A failed prompt is returned as an error. Only if confirmed: removes the old name, then saves the edited application. |
| Setman.ModifyUnconfirmed | src/setman.rs:222-227 | Without confirmation nothing is written. |
| Setman.ModifyConfirmed | src/setman.rs:222-227 | A confirmed modification writes the registry without the old name. If the new name is free, it then writes that registry with the edited application appended. |
| Setman.ModifyCollisionDrops | src/setman.rs:222-227 | If the new name belongs to another entry, the edited application is dropped: the old entry is gone and nothing replaces it. |
| Setman.ModifyMovesToEnd | src/setman.rs:222-227 | Otherwise the edited application replaces the old entry at the end of the registry, and a lookup of the new name finds it. |
| Setman.AppAction | src/setman.rs:117-163 | Every single-application command is as specified: install, uninstall, save, modify, remove (prompt, registry, then staged files) and new (three prompts, split file names, insert). |
| Setman.RemoveIgnoresAnswer | src/setman.rs:139-149 | Removal does the same whether the answer to "are you sure?" is yes or no. |
| Setman.RemoveRegistryFirst | src/setman.rs:142-149 | Removal rewrites the registry before deleting staged files. If the registry write fails, the program stops with nothing deleted. Otherwise the deletion runs on the filesystem that already holds the shortened registry. |
| Setman.NewAppFileNames | src/setman.rs:151-159 | A new application's file names are all non-empty and free of whitespace. |
| Setman.ActOnApp | src/setman.rs:168-189 | The action taken for one application not skipped: install or save its files, or delete the files in its configuration directory. |
| Setman.BulkRunNext | src/setman.rs:168-189 | A skipped application is passed over. Any other is acted on, and a failure ends the run. |
| Setman.ActOnUnskipped | src/setman.rs:168-189 | One turn of the loop: when it succeeds, what remains of the run over the other applications is what remained before the turn. When it fails, its result is the result of the whole run. |
| Setman.AllAppsAction | src/setman.rs:165-192 | The result is the action applied, in registry order, to the applications not in the skip list, up to the first failure. |
| Setman.AllAppsSelection | src/setman.rs:171-187 | The applications acted on are exactly the registry entries whose names are not skipped. |
| Setman.BulkRunAppend | src/setman.rs:168-189 | The applications are handled one after the other: the second part runs only after the first succeeded. |
| Setman.BulkRunNeverReturnsError | src/setman.rs:168-189 | Every failure of an "all" action stops the program. |
| Setman.CopyUp | src/setman.rs:45-53 | For each staging subdirectory in turn: look it up in the registry (stopping on a miss), copy its files into the clone, and stop on a failed copy. |
| Setman.CopyDown | src/setman.rs:57-68 | For each application directory of the clone in turn: list its entries (stopping if it cannot be read), copy them to the staging directory, and stop on a failed copy. |
| Setman.SyncSettings | src/setman.rs:37-72 | Loads the Git settings, clones saving the upstream id, then goes up (copy, then push, with failures stopping the program) or down (copy). |
| Setman.SyncUpNeedsRegistration | src/setman.rs:42-54 | A sync up never returns an error. Getting past the copies means every staging subdirectory was a registered application. |
| Setman.SyncCopyPairs | src/setman.rs:46-52 | Syncing directory `d` copies each relative name `f` from under the top of one side to under the top of the other, not from `d` to `d`. |
| Setman.Compare | src/setman.rs:249-253 | Up to date exactly when the saved text equals the upstream id, with no trimming. |
| Setman.ReadAndCompare | src/setman.rs:236-253 | Stops the program if the clone cannot be opened or the id file cannot be read. Otherwise it reports the comparison of the saved text with the upstream id. |
| Setman.CompareUpstream | src/setman.rs:230-254 | As written: settings, a clone that saves the upstream id, then the comparison. |
| Setman.CompareUpstreamFixed | src/setman.rs:230-254 | The same with a clone that does not save, as the call's flag asks. |
| Setman.AsWrittenAlwaysUpToDate | src/setman.rs:233 | As written, whenever the comparison is reached and the clone could save, the report is "up to date", whatever was saved before. |
| Setman.FixedComparesSavedId | src/setman.rs:249-253 | With a clone that does not save, the report is "up to date" exactly when the id saved by the last sync equals the upstream id. |
| Setman.StaleIdMisreported | src/setman.rs:233 | An outdated saved id is reported "up to date" as written and "behind" once the clone does not save. |

## Findings

| source | as written | input that shows it | evidently intended | confidence | as-written member | corrected member |
|---|---|---|---|---|---|---|
| src/gitman.rs:194-210, src/setman.rs:233 | `clone_repo` always saves the id of the upstream commit it resolved. `compare_upstream` clones and then compares the saved id with that same upstream id. | A saved id `a`, an upstream id `b != a`, and an id file the clone can write. `compare_upstream` reports "Local is up to date". | The call `clone_repo(false)` evidently means "do not save", so the comparison sees the id saved by the last sync: "up to date" exactly when it equals upstream. | not executed; the source passes a flag that `clone_repo` does not take | Gitman.CloneRepo, Setman.CompareUpstream, Setman.StaleIdMisreported | Gitman.CloneRepoSaving, Setman.CompareUpstreamFixed, Setman.FixedComparesSavedId |

## Left out

- Git library internals (clone, index, tree, commit, `message_prettify`, push) are not modelled. Each is a step that succeeds or fails as `Gitman.Upstream` says. A clone is the checked-out tree placed under the clone directory.
- TOML (de)serialisation is left out: the parser and printer are parameters.
- UUID generation, `home_dir()` and the interactive prompts (src/readline.rs) are left out. Their results are parameters, and a failed `home_dir()` is not modelled.
- Console output (src/logger.rs, every `print_*` and `println!`) is left out.
- src/main.rs and src/args.rs are not part of this model. They are argument parsing and dispatch, and they call functions setman.rs does not define. The invalid-option branches of `sync_settings`, `app_action` and `all_apps_action` are left out because the command types here have no invalid variants.
- `print_app_list` is left out: it looks applications up and prints them, and changes nothing.
- `find_apps_from_regex` is not part of this model: it is called (src/setman.rs:95-97) to return the applications matching a pattern, but the source does not define it.
- `get_repo_path` is left out: it returns the clone path as text, and its only use is the panic message of `push_changes`.
- Paths are modelled as sequences of components, and text becomes components by splitting at `/` and dropping empty pieces. `.` and `..` are kept as ordinary components and are not resolved.
- Fs.SetFileName: always drops the last component before pushing the name. `PathBuf::set_file_name` keeps a last component `..`, because such a path has no file name.
- A leading `/` is dropped with the empty piece before it, so the texts `/x` and `x` name the same path in the model. Absolute and relative paths are not told apart, except by `Fs.SetFileName`: there a name that starts with `/` replaces the whole path, as `PathBuf::push` does.
- Some calls do not compile as written: `push` is called on the `String` `settings_path` (src/setman.rs:46-47, 60-61), and `String`s are passed where `&PathBuf` is expected (src/setman.rs:106-114). The model reads every such value as the path its text names, and `push` as adding a component.
- Non-UTF-8 file names (`to_str().unwrap()`) cannot occur in the model.
- Read errors on single directory entries (the `e?` and `file?` inside the listing loops) cannot occur in the model.
- Setman.ReadAndCompare: the second resolution of `origin` in `compare_upstream` is not repeated, because the clone has already resolved it on the same repository.
