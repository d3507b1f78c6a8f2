/** The list of root directories to scan (src-tauri/src/config.rs). */
module AppConfig {
  import opened Wrappers

  /** The errors the configuration reports: a duplicate directory, or a
      failed write. */
  datatype ConfigError = PathExists | IoError

  /** No entry occurs twice. */
  predicate NoDuplicates(dirs: seq<string>)
  {
    forall i, j :: 0 <= i < j < |dirs| ==> dirs[i] != dirs[j]
  }

  /** `retain(|d| path != d)`: every entry equal to `path` dropped, the
      others kept in order. */
  function Without(dirs: seq<string>, path: string): (r: seq<string>)
    ensures path !in r
    ensures forall d :: d != path ==> (d in r <==> d in dirs)
    ensures |r| <= |dirs|
  {
    if dirs == [] then []
    else if dirs[0] == path then Without(dirs[1..], path)
    else [dirs[0]] + Without(dirs[1..], path)
  }

  /** Removing an absent path changes nothing. */
  lemma {:induction false} WithoutAbsent(dirs: seq<string>, path: string)
    requires path !in dirs
    ensures Without(dirs, path) == dirs
  {
    if dirs != [] {
      WithoutAbsent(dirs[1..], path);
      assert dirs == [dirs[0]] + dirs[1..];
    }
  }

  /** Removal works piecewise, so the survivors keep their relative order. */
  lemma {:induction false} WithoutConcat(a: seq<string>, b: seq<string>, path: string)
    ensures Without(a + b, path) == Without(a, path) + Without(b, path)
  {
    if a != [] {
      assert (a + b)[1..] == a[1..] + b;
      WithoutConcat(a[1..], b, path);
    } else {
      assert a + b == b;
    }
  }

  /** The file `lp.config.json` as loading finds it: unopenable, or opened
      with its list of directories if it parses. */
  datatype ConfigFile = Unopenable | Opened(parsed: Option<seq<string>>)

  /** `Config::load`: panics when the file cannot be opened (or created);
      falls back to no directories when it does not parse. */
  function Load(f: ConfigFile): (r: Outcome<seq<string>>)
    ensures f.Unopenable? <==> r.Panicked?
    ensures f.Opened? && f.parsed.None? ==> r == Returned([])
    ensures f.Opened? && f.parsed.Some? ==> r == Returned(f.parsed.value)
  {
    match f
    case Unopenable => Panicked
    case Opened(None) => Returned([])
    case Opened(Some(dirs)) => Returned(dirs)
  }

  class Config {
    var projectDirs: seq<string>

    /** `Config::new`. */
    constructor New()
      ensures projectDirs == []
    {
      projectDirs := [];
    }

    /** A configuration holding the directories `Load` returned. */
    constructor FromDirs(dirs: seq<string>)
      ensures projectDirs == dirs
    {
      projectDirs := dirs;
    }

    /** `add_dir`: a path already listed is refused with `PathExists` and
        nothing changes; otherwise it is appended. Keeps the list free of
        duplicates. */
    method AddDir(path: string) returns (r: Result<(), ConfigError>)
      modifies this
      ensures path in old(projectDirs) ==> r == Err(PathExists) && projectDirs == old(projectDirs)
      ensures path !in old(projectDirs) ==> r == Ok(()) && projectDirs == old(projectDirs) + [path]
      ensures NoDuplicates(old(projectDirs)) ==> NoDuplicates(projectDirs)
    {
      if path in projectDirs {
        return Err(PathExists);
      }
      projectDirs := projectDirs + [path];
      r := Ok(());
    }

    /** `remove_dir`: drops every entry equal to `path`; always succeeds. */
    method RemoveDir(path: string) returns (r: Result<(), ConfigError>)
      modifies this
      ensures projectDirs == Without(old(projectDirs), path)
      ensures r == Ok(())
    {
      projectDirs := Without(projectDirs, path);
      r := Ok(());
    }

    /** `save`: when the write succeeds, loading the file gives back the
        same directories. */
    method Save(writeOk: bool) returns (r: Result<(), ConfigError>, file: Option<ConfigFile>)
      ensures writeOk ==> r.Ok? && file.Some? && Load(file.value) == Returned(projectDirs)
      ensures !writeOk ==> r == Err(IoError) && file.None?
    {
      if writeOk {
        r, file := Ok(()), Some(Opened(Some(projectDirs)));
      } else {
        // the write error is reported; what the file then holds is unknown
        r, file := Err(IoError), None;
      }
    }
  }

  /** `Config::load`: an open failure panics, a parse failure gives
      `Config::new`, and otherwise the stored directories make the
      configuration. */
  method LoadConfig(f: ConfigFile) returns (r: Outcome<Config>)
    ensures r.Panicked? <==> f.Unopenable?
    ensures r.Returned? ==> fresh(r.value) && r.value.projectDirs == Load(f).value
  {
    var dirs := Load(f);
    if dirs.Panicked? {
      return Panicked;
    }
    if f.parsed.None? {
      var config := new Config.New();
      return Returned(config);
    }
    var config := new Config.FromDirs(dirs.value);
    return Returned(config);
  }

  /** From a new configuration, adding a directory gives one entry and
      removing it again gives none. */
  method AddThenRemove(d: string) returns (afterAdd: nat, afterRemove: nat)
    ensures afterAdd == 1 && afterRemove == 0
  {
    var config := new Config.New();
    var _ := config.AddDir(d);
    afterAdd := |config.projectDirs|;
    var _ := config.RemoveDir(d);
    afterRemove := |config.projectDirs|;
  }
}
