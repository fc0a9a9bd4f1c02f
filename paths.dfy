/** Where the program keeps its files, derived from the user's home directory
    by plain text concatenation (src/paths.rs). The home directory, which the
    program asks the platform for, is a parameter. */
module Paths {
  import opened Fs

  datatype Paths = Paths(
    userConfPath: string,
    settingsPath: string,
    appsConfigPath: string,
    gitConfigPath: string)

  /** `Paths::new`. */
  function NewPaths(home: string): (p: Paths)
    ensures p.userConfPath == home + "/.config/setman"
    ensures p.settingsPath == p.userConfPath + "/settings"
    ensures p.appsConfigPath == p.userConfPath + "/apps.toml"
    ensures p.gitConfigPath == p.userConfPath + "/git.toml"
  {
    Paths(
      home + "/.config/setman",
      home + "/.config/setman/settings",
      home + "/.config/setman/apps.toml",
      home + "/.config/setman/git.toml")
  }

  /** `get_app_path`: the staging directory of one application. */
  function GetAppPath(p: Paths, appName: string): (r: string)
    ensures |r| == |p.settingsPath| + 1 + |appName|
    ensures r[..|p.settingsPath|] == p.settingsPath && r[|p.settingsPath|] == '/'
    ensures r[|p.settingsPath| + 1..] == appName
  {
    p.settingsPath + "/" + appName
  }

  /** `get_absolute_path`: the relative text is appended to the home
      directory as is, without any normalisation. */
  function GetAbsolutePath(home: string, relPath: string): (r: string)
    ensures |r| == |home| + 1 + |relPath|
    ensures r[..|home|] == home && r[|home|] == '/'
    ensures r[|home| + 1..] == relPath
  {
    home + "/" + relPath
  }

  /** `dir + "/" + name` for a plain name is the entry `name` of `dir`. */
  lemma EntryComponents(dir: string, name: string)
    requires name != "" && '/' !in name
    ensures Components(dir + "/" + name) == Components(dir) + [name]
  {
    ComponentsJoin(dir, name);
    ComponentsOfName(name);
  }

  /** The configuration directory is `.config/setman` inside the home
      directory, and the staging directory and both configuration files are
      entries of it. */
  lemma ConfigLayout(home: string)
    ensures Components(NewPaths(home).userConfPath) == Components(home) + [".config", "setman"]
    ensures Components(NewPaths(home).settingsPath) == Components(NewPaths(home).userConfPath) + ["settings"]
    ensures Components(NewPaths(home).appsConfigPath) == Components(NewPaths(home).userConfPath) + ["apps.toml"]
    ensures Components(NewPaths(home).gitConfigPath) == Components(NewPaths(home).userConfPath) + ["git.toml"]
  {
    var p := NewPaths(home);
    var hidden := home + "/" + ".config";
    assert p.userConfPath == hidden + "/" + "setman";
    EntryComponents(home, ".config");
    EntryComponents(hidden, "setman");
    ConfigEntries(p.userConfPath);
  }

  /** The three entries of a configuration directory, as components. */
  lemma ConfigEntries(conf: string)
    ensures Components(conf + "/settings") == Components(conf) + ["settings"]
    ensures Components(conf + "/apps.toml") == Components(conf) + ["apps.toml"]
    ensures Components(conf + "/git.toml") == Components(conf) + ["git.toml"]
  {
    assert conf + "/settings" == conf + "/" + "settings";
    EntryComponents(conf, "settings");
    assert conf + "/apps.toml" == conf + "/" + "apps.toml";
    EntryComponents(conf, "apps.toml");
    assert conf + "/git.toml" == conf + "/" + "git.toml";
    EntryComponents(conf, "git.toml");
  }

  /** The three entries of the configuration directory are different paths. */
  lemma ConfigPathsDistinct(home: string)
    ensures Components(NewPaths(home).settingsPath) != Components(NewPaths(home).appsConfigPath)
    ensures Components(NewPaths(home).settingsPath) != Components(NewPaths(home).gitConfigPath)
    ensures Components(NewPaths(home).appsConfigPath) != Components(NewPaths(home).gitConfigPath)
  {
    ConfigLayout(home);
    var c := Components(NewPaths(home).userConfPath);
    assert (c + ["settings"])[|c|] == "settings";
    assert (c + ["apps.toml"])[|c|] == "apps.toml";
    assert (c + ["git.toml"])[|c|] == "git.toml";
  }

  /** Different applications are staged in different directories. */
  lemma AppPathInjective(p: Paths, a: string, b: string)
    requires GetAppPath(p, a) == GetAppPath(p, b)
    ensures a == b
  {
    assert GetAppPath(p, a)[|p.settingsPath| + 1..] == a;
  }

  /** For a name without separators, the staging directory of an application
      is the entry of that name in the staging directory. */
  lemma AppPathIsEntry(p: Paths, appName: string)
    requires appName != "" && '/' !in appName
    ensures Components(GetAppPath(p, appName)) == Components(p.settingsPath) + [appName]
  {
    EntryComponents(p.settingsPath, appName);
  }

  /** An absolute path names, inside the home directory, the components of
      the relative text; separators in the text are kept, empty pieces
      vanish. */
  lemma AbsolutePathComponents(home: string, relPath: string)
    ensures Components(GetAbsolutePath(home, relPath)) == Components(home) + Components(relPath)
  {
    ComponentsJoin(home, relPath);
  }
}
