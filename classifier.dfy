/** The project classifier of src-tauri/src/dir_walker/walker.rs: from a
    directory's file listing, pick the identifier file and the
    documentation file, extract a project from the manifest, and attach
    the directory's remotes, language shares, time and documentation. */
module Classifier {
  import opened Wrappers
  import opened Values
  import opened Paths
  import opened FileHandler

  /** What reading and parsing a manifest file gives. */
  datatype Manifest = Malformed | Parsed(root: Value)

  /** What the classifier takes from outside the listing: the manifest
      files that can be read (an absent path cannot be read), the git
      remotes of each directory and the code lines the line counter
      reports for each of its languages, in the counter's key order
      (absent means none), and the clock. */
  datatype Env = Env(
    manifests: map<string, Manifest>,
    remotes: map<string, seq<string>>,
    languages: map<string, seq<(string, nat)>>,
    now: int)

  /** Why a manifest gave no project: it could not be read, or (JSON,
      YAML) did not parse. */
  datatype ExtractError = ReadFailed | ParseFailed

  function ManifestAt(env: Env, file: string): Option<Manifest>
  {
    if file in env.manifests then Some(env.manifests[file]) else None
  }

  /** `PROJECT_IDENTIFIERS`, in the source's order. */
  const ProjectIdentifiers: seq<string> := [
    "Cargo.toml", "package.json", "pubspec.yaml", "main.go",
    "main.py", "next.config.js", "svelte.config.json", "angular.json"]

  /** The identifiers that have an extractor. */
  const ExtractedIdentifiers: set<string> := {"Cargo.toml", "package.json", "pubspec.yaml"}

  /** `NODE_PROJECT_IDENTIFIERS`. */
  const NodeProjectIdentifiers: seq<string> := [
    "svelte.config.json", "svelte.config.js", "angular.json", "metro.config.js",
    "react-native.config.js", "next.config.js", "next.config.json", "vue.config.js"]

  predicate IsIdentifier(file: string)
  {
    FileName(file).Some? && FileName(file).value in ProjectIdentifiers
  }

  predicate IsDocFile(file: string)
  {
    FileName(file).Some? &&
    (Lower(FileName(file).value) == "readme.md" || Lower(FileName(file).value) == "doc.md")
  }

  predicate IsNodeConfig(file: string)
  {
    FileName(file).Some? && FileName(file).value in NodeProjectIdentifiers
  }

  /** The position of the identifier file: the first entry of the listing
      whose name is an identifier. Later entries are never looked at. */
  function FirstIdentifier(files: seq<string>): (r: Option<nat>)
    ensures r.Some? ==> r.value < |files| && IsIdentifier(files[r.value])
    ensures r.Some? ==> forall j :: 0 <= j < r.value ==> !IsIdentifier(files[j])
    ensures r.None? ==> forall j :: 0 <= j < |files| ==> !IsIdentifier(files[j])
  {
    if files == [] then None
    else if IsIdentifier(files[0]) then Some(0)
    else match FirstIdentifier(files[1..])
      case None => None
      case Some(k) => Some(k + 1)
  }

  /** The position of the documentation file seen among the first `n`
      entries: the last of them named README.md or DOC.md in any case. */
  function DocIndexBefore(files: seq<string>, n: nat): (r: Option<nat>)
    requires n <= |files|
    ensures r.Some? ==> r.value < n && IsDocFile(files[r.value])
    ensures r.Some? ==> forall j :: r.value < j < n ==> !IsDocFile(files[j])
    ensures r.None? ==> forall j :: 0 <= j < n ==> !IsDocFile(files[j])
  {
    if n == 0 then None
    else if IsDocFile(files[n - 1]) then Some(n - 1)
    else DocIndexBefore(files, n - 1)
  }

  /** `doc_file`: the path of that documentation file. */
  function DocFileBefore(files: seq<string>, n: nat): Option<string>
    requires n <= |files|
  {
    match DocIndexBefore(files, n)
    case None => None
    case Some(k) => Some(files[k])
  }

  /** The position of the last framework config file of the listing: the
      `for_each` over the files overwrites its match each time. */
  function LastNodeConfigIndex(files: seq<string>): (r: Option<nat>)
    ensures r.Some? ==> r.value < |files| && IsNodeConfig(files[r.value])
    ensures r.Some? ==> forall j :: r.value < j < |files| ==> !IsNodeConfig(files[j])
    ensures r.None? ==> forall j :: 0 <= j < |files| ==> !IsNodeConfig(files[j])
  {
    if files == [] then None
    else if IsNodeConfig(files[|files| - 1]) then Some(|files| - 1)
    else LastNodeConfigIndex(files[..|files| - 1])
  }

  /** `identifier_file` after the loop in `node_project`. */
  function LastNodeConfig(files: seq<string>): Option<string>
  {
    match LastNodeConfigIndex(files)
    case None => None
    case Some(k) => Some(files[k])
  }

  /** `cargo_project`: the manifest is read first (a read failure is an
      error), then the directory name is taken (the `unwrap` panics when
      there is none); a TOML parse failure is tolerated. The name is
      `package.name` when present (it must be a string), else the
      directory's name; the description is `package.description`
      serialised. */
  function CargoProject(m: Option<Manifest>, dir: string, now: int): (r: Outcome<Result<Project, ExtractError>>)
    ensures m.None? ==> r == Returned(Err(ReadFailed))
    ensures m.Some? && FileName(dir).None? ==> r.Panicked?
    ensures r.Returned? && r.value.Ok? ==> r.value.value.projectType == Rust && r.value.value.path == dir
    ensures m == Some(Malformed) && FileName(dir).Some? ==>
              r == Returned(Ok(Base(FileName(dir).value, dir, None, Rust, now)))
    ensures m.Some? && m.value.Parsed? && FileName(dir).Some? ==>
              (r.Panicked? <==>
                 && Get(m.value.root, "package").Some?
                 && Get(Get(m.value.root, "package").value, "name").Some?
                 && !Get(Get(m.value.root, "package").value, "name").value.Str?)
  {
    if m.None? then Returned(Err(ReadFailed))
    else if FileName(dir).None? then Panicked
    else
      var dirName := FileName(dir).value;
      var package := if m.value.Parsed? then Get(m.value.root, "package") else None;
      if package.None? then Returned(Ok(Base(dirName, dir, None, Rust, now)))
      else
        var name := Get(package.value, "name");
        var description := Get(package.value, "description");
        if name.Some? && !name.value.Str? then Panicked
        else
          Returned(Ok(Base(
            if name.Some? then name.value.s else dirName,
            dir,
            if description.Some? then Some(Render(description.value)) else None,
            Rust, now)))
  }

  /** `flutter_project`: directory name first, then read and parse (both
      errors drop the project); `name` and `description` must be strings
      when present. */
  function FlutterProject(m: Option<Manifest>, dir: string, now: int): (r: Outcome<Result<Project, ExtractError>>)
    ensures FileName(dir).None? ==> r.Panicked?
    ensures FileName(dir).Some? && m.None? ==> r == Returned(Err(ReadFailed))
    ensures FileName(dir).Some? && m == Some(Malformed) ==> r == Returned(Err(ParseFailed))
    ensures r.Returned? && r.value.Ok? ==> r.value.value.projectType == Flutter && r.value.value.path == dir
  {
    if FileName(dir).None? then Panicked
    else if m.None? then Returned(Err(ReadFailed))
    else if m.value.Malformed? then Returned(Err(ParseFailed))
    else
      var name := Get(m.value.root, "name");
      var description := Get(m.value.root, "description");
      if (name.Some? && !name.value.Str?) || (description.Some? && !description.value.Str?) then Panicked
      else
        Returned(Ok(Base(
          if name.Some? then name.value.s else FileName(dir).value,
          dir,
          if description.Some? then Some(description.value.s) else None,
          Flutter, now)))
  }

  /** The type a framework config file name stands for. */
  function ConfigFileType(name: string): (t: Option<ProjectType>)
    ensures t.Some? ==> t.value in {Svelte, Angular, NextJs, ReactNative, Vue}
    ensures t.Some? <==> name in NodeProjectIdentifiers
  {
    if name == "svelte.config.json" || name == "svelte.config.js" then Some(Svelte)
    else if name == "angular.json" then Some(Angular)
    else if name == "next.config.js" || name == "next.config.json" then Some(NextJs)
    else if name == "metro.config.js" || name == "react-native.config.js" then Some(ReactNative)
    else if name == "vue.config.js" then Some(Vue)
    else None
  }

  /** The dependency cascade, run when no config file set the type:
      Node, then React for `dependencies.react`, else Angular for
      `dependencies["@angular/core"]`, then Svelte for
      `devDependencies.svelte` over either. A dependency section that is
      present but not an object makes `as_object().unwrap()` panic. */
  function DependencyType(root: Value): (r: Outcome<ProjectType>)
    ensures r.Panicked? <==>
              || (Get(root, "dependencies").Some? && !Get(root, "dependencies").value.Obj?)
              || (Get(root, "devDependencies").Some? && !Get(root, "devDependencies").value.Obj?)
    ensures r.Returned? ==> r.value in {Node, React, Angular, Svelte}
  {
    var deps := Get(root, "dependencies");
    var devDeps := Get(root, "devDependencies");
    if (deps.Some? && !deps.value.Obj?) || (devDeps.Some? && !devDeps.value.Obj?) then Panicked
    else
      var t :=
        if deps.None? then Node
        else if Get(deps.value, "react").Some? then React
        else if Get(deps.value, "@angular/core").Some? then Angular
        else Node;
      if devDeps.Some? && Get(devDeps.value, "svelte").Some? then Returned(Svelte) else Returned(t)
  }

  /** The node sub-type: the type the matched config key stands for, if
      any, else the dependency cascade. */
  function NodeType(configKey: Option<string>, root: Value): Outcome<ProjectType>
  {
    if configKey.Some? && ConfigFileType(configKey.value).Some? then Returned(ConfigFileType(configKey.value).value)
    else DependencyType(root)
  }

  /** The body of `node_project`, given the string the config file is
      matched by. */
  function NodeProjectKeyed(m: Option<Manifest>, configKey: Option<string>, dir: string, now: int)
    : (r: Outcome<Result<Project, ExtractError>>)
    ensures FileName(dir).None? ==> r.Panicked?
    ensures FileName(dir).Some? && m.None? ==> r == Returned(Err(ReadFailed))
    ensures FileName(dir).Some? && m == Some(Malformed) ==> r == Returned(Err(ParseFailed))
    ensures r.Returned? && r.value.Ok? ==>
              && r.value.value.path == dir
              && r.value.value.projectType in {Node, React, Angular, Svelte, NextJs, ReactNative, Vue}
  {
    if FileName(dir).None? then Panicked
    else if m.None? then Returned(Err(ReadFailed))
    else if m.value.Malformed? then Returned(Err(ParseFailed))
    else
      var root := m.value.root;
      var name := Get(root, "name");
      var description := Get(root, "description");
      var t := NodeType(configKey, root);
      if (name.Some? && !name.value.Str?) || t.Panicked? then Panicked
      else
        Returned(Ok(Base(
          if name.Some? then name.value.s else FileName(dir).value,
          dir,
          if description.Some? then Some(Render(description.value)) else None,
          t.value, now)))
  }

  /** `node_project` as the code is evidently meant to work: the config
      file found in the listing is matched by its file name. */
  function NodeProject(m: Option<Manifest>, configFile: Option<string>, dir: string, now: int)
    : (r: Outcome<Result<Project, ExtractError>>)
    ensures configFile.Some? && FileName(configFile.value).Some? &&
            ConfigFileType(FileName(configFile.value).value).Some? && r.Returned? && r.value.Ok? ==>
              Some(r.value.value.projectType) == ConfigFileType(FileName(configFile.value).value)
  {
    NodeProjectKeyed(m, if configFile.Some? then FileName(configFile.value) else None, dir, now)
  }

  /** `node_project` as written: the config file's full path string is
      compared with the bare config names. */
  function NodeProjectAsWritten(m: Option<Manifest>, configFile: Option<string>, dir: string, now: int)
    : (r: Outcome<Result<Project, ExtractError>>)
    ensures configFile.Some? && '/' in configFile.value ==> r == NodeProjectKeyed(m, None, dir, now)
  {
    if configFile.Some? && '/' in configFile.value then
      SlashNeverConfigName(configFile.value);
      UnknownKeyIgnored(m, configFile.value, dir, now);
      NodeProjectKeyed(m, configFile, dir, now)
    else NodeProjectKeyed(m, configFile, dir, now)
  }

  /** The code lines of all the languages counted. */
  function CodeTotal(counts: seq<(string, nat)>): nat
  {
    if counts == [] then 0 else CodeTotal(counts[..|counts| - 1]) + counts[|counts| - 1].1
  }

  /** Every language's lines are part of the total. */
  lemma {:induction false} CountWithinTotal(counts: seq<(string, nat)>, i: int)
    requires 0 <= i < |counts|
    ensures counts[i].1 <= CodeTotal(counts)
  {
    if i < |counts| - 1 {
      CountWithinTotal(counts[..|counts| - 1], i);
    }
  }

  /** One language's share: its lines over the total, times 100. With no
      code lines at all the f32 quotient 0/0 is not a number. */
  function ShareOf(lines: nat, total: nat): (r: Share)
    ensures r.NotANumber? <==> total == 0
    ensures lines <= total && r.Percent? ==> 0.0 <= r.value <= 100.0
  {
    if total == 0 then NotANumber
    else
      assert lines <= total ==> lines as real / total as real <= 1.0;
      Percent(lines as real / total as real * 100.0)
  }

  /** The map built by the loop of `get_project_language_map`. */
  function SharesOver(counts: seq<(string, nat)>, total: nat): (r: map<string, Share>)
    ensures forall l :: l in r <==> exists i :: 0 <= i < |counts| && counts[i].0 == l
    ensures forall l :: l in r ==> exists i :: 0 <= i < |counts| && counts[i].0 == l && r[l] == ShareOf(counts[i].1, total)
  {
    if counts == [] then map[]
    else
      var init := counts[..|counts| - 1];
      var last := counts[|counts| - 1];
      var r := SharesOver(init, total)[last.0 := ShareOf(last.1, total)];
      assert forall i :: 0 <= i < |init| ==> init[i] == counts[i];
      r
  }

  /** `get_project_language_map`: every counted language gets a share;
      the shares are numbers exactly when some code line was counted. */
  function LanguageShares(counts: seq<(string, nat)>): (r: map<string, Share>)
    ensures forall l :: l in r <==> exists i :: 0 <= i < |counts| && counts[i].0 == l
    ensures counts != [] ==> (SharesFinite(r) <==> CodeTotal(counts) > 0)
    ensures forall l :: l in r && r[l].Percent? ==> 0.0 <= r[l].value <= 100.0
  {
    var total := CodeTotal(counts);
    var r := SharesOver(counts, total);
    assert counts != [] ==> counts[0].0 in r;
    assert forall i :: 0 <= i < |counts| ==> counts[i].1 <= total by {
      forall i | 0 <= i < |counts| {
        CountWithinTotal(counts, i);
      }
    }
    r
  }

  /** A directory whose only counted language has no code lines, such as
      one holding just an empty Cargo.toml, gets a share that is not a
      number. */
  lemma NoCodeLines()
    ensures LanguageShares([("TOML", 0)]) == map["TOML" := NotANumber]
  {
    assert CodeTotal([("TOML", 0)]) == 0;
  }

  /** The extracted project completed with what only a positively
      identified directory gets. */
  function Complete(env: Env, p: Project, dir: string, modified: int, doc: Option<string>): Project
  {
    p.(git := if dir in env.remotes then env.remotes[dir] else [],
       languageMap := LanguageShares(if dir in env.languages then env.languages[dir] else []),
       lastModified := modified,
       documentationFile := doc)
  }

  /** `get_relevant_project` as written: the project a directory holds, or
      None, or a panic from the extractor. A package.json is handed to
      `node_project` as the code has it, matching the config file by its
      full path. */
  function RelevantProject(env: Env, files: seq<string>, dir: string, modified: int): (r: Outcome<Option<Project>>)
    ensures FirstIdentifier(files).None? ==> r == Returned(None)
    ensures r.Returned? && r.value.Some? ==> r.value.value.path == dir && r.value.value.lastModified == modified
  {
    Classify(env, files, dir, modified, false)
  }

  /** `get_relevant_project` with `node_project` matching the config file
      by its file name, as it is evidently meant to. */
  function RelevantProjectCorrected(env: Env, files: seq<string>, dir: string, modified: int): Outcome<Option<Project>>
  {
    Classify(env, files, dir, modified, true)
  }

  /** The body of `get_relevant_project`; `corrected` picks which
      `node_project` a package.json goes to. */
  function Classify(env: Env, files: seq<string>, dir: string, modified: int, corrected: bool): Outcome<Option<Project>>
  {
    match FirstIdentifier(files)
    case None => Returned(None)
    case Some(i) =>
      var idFile := files[i];
      var name := FileName(idFile).value;
      var m := ManifestAt(env, idFile);
      if name !in ExtractedIdentifiers then Returned(None)
      else
        var extracted :=
          if name == "Cargo.toml" then CargoProject(m, dir, env.now)
          else if name == "package.json" then
            if corrected then NodeProject(m, LastNodeConfig(files), dir, env.now)
            else NodeProjectAsWritten(m, LastNodeConfig(files), dir, env.now)
          else FlutterProject(m, dir, env.now);
        match extracted
        case Panicked => Panicked
        case Returned(Err(_)) => Returned(None)
        case Returned(Ok(p)) => Returned(Some(Complete(env, p, dir, modified, DocFileBefore(files, i))))
  }

  /** The `for_each` over the files in `node_project`. */
  method FindNodeConfig(files: seq<string>) returns (idFile: Option<string>)
    ensures idFile == LastNodeConfig(files)
  {
    idFile := None;
    for i := 0 to |files|
      invariant idFile == LastNodeConfig(files[..i])
    {
      assert files[..i + 1][..i] == files[..i];
      if IsNodeConfig(files[i]) {
        idFile := Some(files[i]);
      }
    }
    assert files[..|files|] == files;
  }

  /** The loop of `get_relevant_project`: it stops at the first
      identifier and records the documentation files seen before it. */
  method FindIdentifier(files: seq<string>) returns (idFile: Option<nat>, docFile: Option<string>)
    ensures idFile == FirstIdentifier(files)
    ensures idFile.Some? ==> docFile == DocFileBefore(files, idFile.value)
  {
    idFile := None;
    docFile := None;
    for i := 0 to |files|
      invariant idFile.None?
      invariant forall j :: 0 <= j < i ==> !IsIdentifier(files[j])
      invariant docFile == DocFileBefore(files, i)
    {
      DocFileStep(files, i);
      if FileName(files[i]).Some? {
        var name := FileName(files[i]).value;
        if name in ProjectIdentifiers {
          FirstIdentifierAt(files, i);
          idFile := Some(i);
          break;
        }
        if Lower(name) == "readme.md" || Lower(name) == "doc.md" {
          docFile := Some(files[i]);
        }
      }
    }
  }

  /** An identifier with none before it is the first. */
  lemma FirstIdentifierAt(files: seq<string>, i: nat)
    requires i < |files| && IsIdentifier(files[i])
    requires forall j :: 0 <= j < i ==> !IsIdentifier(files[j])
    ensures FirstIdentifier(files) == Some(i)
  {
  }

  /** One more entry seen by the loop of `get_relevant_project`. */
  lemma DocFileStep(files: seq<string>, i: nat)
    requires i < |files|
    ensures DocFileBefore(files, i + 1) == if IsDocFile(files[i]) then Some(files[i]) else DocFileBefore(files, i)
  {
  }

  /** `get_relevant_project`: find the identifier, then hand its manifest
      to the extractor for its name. */
  method GetRelevantProject(env: Env, files: seq<string>, dir: string, modified: int)
    returns (r: Outcome<Option<Project>>)
    ensures r == RelevantProject(env, files, dir, modified)
  {
    var idFile, docFile := FindIdentifier(files);
    if idFile.None? {
      return Returned(None);
    }
    var id := files[idFile.value];
    var name := FileName(id).value;
    var project: Outcome<Result<Project, ExtractError>>;
    if name == "Cargo.toml" {
      project := CargoProject(ManifestAt(env, id), dir, env.now);
    } else if name == "package.json" {
      var config := FindNodeConfig(files);
      project := NodeProjectAsWritten(ManifestAt(env, id), config, dir, env.now);
    } else if name == "pubspec.yaml" {
      project := FlutterProject(ManifestAt(env, id), dir, env.now);
    } else {
      return Returned(None);
    }
    match project {
      case Panicked => r := Panicked;
      case Returned(Err(_)) => r := Returned(None);
      case Returned(Ok(p)) => r := Returned(Some(Complete(env, p, dir, modified, docFile)));
    }
  }

  // ---------------------------------------------------------------------
  // Properties of the classifier

  /** A project comes only from the first identifier of the listing, and
      only when it is Cargo.toml (Rust), package.json (the Node family) or
      pubspec.yaml (Flutter). It carries the directory as its path, the
      directory's time, its remotes and language shares, and the last
      documentation file listed before the identifier. */
  lemma RelevantProjectShape(env: Env, files: seq<string>, dir: string, modified: int)
    requires RelevantProject(env, files, dir, modified).Returned?
    requires RelevantProject(env, files, dir, modified).value.Some?
    ensures FirstIdentifier(files).Some?
    ensures var i := FirstIdentifier(files).value;
            var name := FileName(files[i]).value;
            var p := RelevantProject(env, files, dir, modified).value.value;
            && name in ExtractedIdentifiers
            && (name == "Cargo.toml" ==> p.projectType == Rust)
            && (name == "pubspec.yaml" ==> p.projectType == Flutter)
            && (name == "package.json" ==>
                  p.projectType in {Node, React, Angular, Svelte, NextJs, ReactNative, Vue})
            && p.path == dir
            && p.lastModified == modified
            && p.documentationFile == DocFileBefore(files, i)
            && p.git == (if dir in env.remotes then env.remotes[dir] else [])
  {
  }

  /** No identifier, or a first identifier without an extractor (main.go,
      main.py, next.config.js, svelte.config.json, angular.json), gives no
      project, whatever follows it in the listing. */
  lemma NoExtractorNoProject(env: Env, files: seq<string>, dir: string, modified: int)
    requires FirstIdentifier(files).None? ||
             FileName(files[FirstIdentifier(files).value]).value !in ExtractedIdentifiers
    ensures RelevantProject(env, files, dir, modified) == Returned(None)
  {
  }

  /** The identifier is chosen by listing order: with package.json listed
      before Cargo.toml, package.json is the identifier although Cargo.toml
      comes first in `PROJECT_IDENTIFIERS`. */
  lemma IdentifierByListingOrder()
    ensures FirstIdentifier(["/w/p/package.json", "/w/p/Cargo.toml"]) == Some(0)
  {
    FileNameOfChild("/w/p", "package.json");
    assert "/w/p/package.json" == "/w/p" + "/" + "package.json";
  }

  /** A documentation file listed after the identifier is never seen. */
  lemma DocFileOnlyBeforeIdentifier()
    ensures FirstIdentifier(["/p/Cargo.toml", "/p/README.md"]) == Some(0)
    ensures DocFileBefore(["/p/Cargo.toml", "/p/README.md"], 0) == None
    ensures DocFileBefore(["/p/README.md", "/p/Cargo.toml"], 1) == Some("/p/README.md")
  {
    CargoAndReadme();
  }

  /** How the two files of `DocFileOnlyBeforeIdentifier` are classified. */
  lemma CargoAndReadme()
    ensures IsIdentifier("/p/Cargo.toml") && !IsDocFile("/p/Cargo.toml")
    ensures IsDocFile("/p/README.md")
  {
    CargoTomlListed();
    ReadmeListed();
  }

  lemma CargoTomlListed()
    ensures IsIdentifier("/p/Cargo.toml") && !IsDocFile("/p/Cargo.toml")
  {
    ChildOfP("Cargo.toml");
    assert "/p/" + "Cargo.toml" == "/p/Cargo.toml";
  }

  lemma ReadmeListed()
    ensures IsDocFile("/p/README.md")
  {
    ChildOfP("README.md");
    assert "/p/" + "README.md" == "/p/README.md";
    assert Lower("README.md") == "readme.md";
  }

  /** A file listed under /p is named by what follows the separator. */
  lemma ChildOfP(name: string)
    requires name != [] && '/' !in name && name != "." && name != ".."
    ensures FileName("/p/" + name) == Some(name)
  {
    FileNameOfChild("/p", name);
    assert "/p/" + name == "/p" + "/" + name;
  }

  /** A malformed package.json or pubspec.yaml drops the project; a
      malformed Cargo.toml still gives a Rust project named after the
      directory, with no description. */
  lemma ManifestParseErrors(env: Env, files: seq<string>, dir: string, modified: int)
    requires FirstIdentifier(files).Some? && FileName(dir).Some?
    requires ManifestAt(env, files[FirstIdentifier(files).value]) == Some(Malformed)
    ensures var name := FileName(files[FirstIdentifier(files).value]).value;
            var r := RelevantProject(env, files, dir, modified);
            && (name == "package.json" || name == "pubspec.yaml" ==> r == Returned(None))
            && (name == "Cargo.toml" ==>
                  r.Returned? && r.value.Some? &&
                  r.value.value.name == FileName(dir).value &&
                  r.value.value.description == None && r.value.value.projectType == Rust)
  {
  }

  /** An unreadable manifest drops the project, for every extractor. */
  lemma UnreadableManifest(env: Env, files: seq<string>, dir: string, modified: int)
    requires FirstIdentifier(files).Some? && FileName(dir).Some?
    requires ManifestAt(env, files[FirstIdentifier(files).value]).None?
    ensures RelevantProject(env, files, dir, modified) == Returned(None)
  {
  }

  /** `cargo_project` names the project after `package.name` when it is
      present, else after the directory. */
  lemma CargoName(root: Value, dir: string, now: int)
    requires FileName(dir).Some?
    requires var r := CargoProject(Some(Parsed(root)), dir, now); r.Returned? && r.value.Ok?
    ensures var p := CargoProject(Some(Parsed(root)), dir, now).value.value;
            var package := Get(root, "package");
            && (package.Some? && Get(package.value, "name").Some? ==> p.name == Get(package.value, "name").value.s)
            && (package.None? || Get(package.value, "name").None? ==> p.name == FileName(dir).value)
  {
  }

  /** `flutter_project` names the project after the pubspec's `name` when
      present, else after the directory; a `name` or `description` that is
      not a string makes `as_str().unwrap()` panic. */
  lemma FlutterName(root: Value, dir: string, now: int)
    requires FileName(dir).Some?
    ensures var r := FlutterProject(Some(Parsed(root)), dir, now);
            var name := Get(root, "name");
            var description := Get(root, "description");
            && (r.Panicked? <==> (name.Some? && !name.value.Str?) || (description.Some? && !description.value.Str?))
            && (r.Returned? ==> r.value.Ok?)
            && (r.Returned? && name.Some? ==> r.value.value.name == name.value.s)
            && (r.Returned? && name.None? ==> r.value.value.name == FileName(dir).value)
            && (r.Returned? && description.Some? ==> r.value.value.description == Some(description.value.s))
            && (r.Returned? && description.None? ==> r.value.value.description == None)
  {
  }

  /** `node_project` names the project after package.json's `name` when
      present, else after the directory, and keeps `description`
      serialised. A non-string `name` panics; so does a dependency section
      that is not an object, but only when no config key set the type. */
  lemma NodeName(root: Value, configKey: Option<string>, dir: string, now: int)
    requires FileName(dir).Some?
    ensures var r := NodeProjectKeyed(Some(Parsed(root)), configKey, dir, now);
            var name := Get(root, "name");
            var description := Get(root, "description");
            var keyed := configKey.Some? && ConfigFileType(configKey.value).Some?;
            && (keyed ==> (r.Panicked? <==> name.Some? && !name.value.Str?))
            && (!keyed ==> (r.Panicked? <==> (name.Some? && !name.value.Str?) || DependencyType(root).Panicked?))
            && (r.Returned? ==> r.value.Ok?)
            && (r.Returned? && name.Some? ==> r.value.value.name == name.value.s)
            && (r.Returned? && name.None? ==> r.value.value.name == FileName(dir).value)
            && (r.Returned? && description.Some? ==> r.value.value.description == Some(Render(description.value)))
            && (r.Returned? && description.None? ==> r.value.value.description == None)
            && (r.Returned? && keyed ==> Some(r.value.value.projectType) == ConfigFileType(configKey.value))
            && (r.Returned? && !keyed ==> r.value.value.projectType == DependencyType(root).value)
  {
  }

  /** Rust and Node descriptions are the serialised value, so a string
      description keeps its quotes (and, for Node, its JSON escapes);
      Flutter descriptions are the string. */
  lemma DescriptionForms(s: string, dir: string, now: int)
    requires FileName(dir).Some?
    ensures var cargo := Obj([("package", Obj([("description", Str(s))]))]);
            Plain(s) ==> CargoProject(Some(Parsed(cargo)), dir, now).value.value.description == Some("\"" + s + "\"")
    ensures var node := Obj([("description", Str(s))]);
            NodeProjectAsWritten(Some(Parsed(node)), None, dir, now).value.value.description == Some(Quote(s))
    ensures var pubspec := Obj([("description", Str(s))]);
            FlutterProject(Some(Parsed(pubspec)), dir, now).value.value.description == Some(s)
  {
    if Plain(s) {
      CargoDescription(s, dir, now);
    }
    NodeDescription(s, dir, now);
    FlutterDescription(s, dir, now);
  }

  lemma CargoDescription(s: string, dir: string, now: int)
    requires FileName(dir).Some? && Plain(s)
    ensures var cargo := Obj([("package", Obj([("description", Str(s))]))]);
            CargoProject(Some(Parsed(cargo)), dir, now).value.value.description == Some("\"" + s + "\"")
  {
    assert Quote(s)[1..|Quote(s)| - 1] == s;
    assert Quote(s) == "\"" + s + "\"";
  }

  lemma NodeDescription(s: string, dir: string, now: int)
    requires FileName(dir).Some?
    ensures var node := Obj([("description", Str(s))]);
            NodeProjectAsWritten(Some(Parsed(node)), None, dir, now).value.value.description == Some(Quote(s))
  {
  }

  lemma FlutterDescription(s: string, dir: string, now: int)
    requires FileName(dir).Some?
    ensures var pubspec := Obj([("description", Str(s))]);
            FlutterProject(Some(Parsed(pubspec)), dir, now).value.value.description == Some(s)
  {
  }

  /** The dependency cascade: `devDependencies.svelte` gives Svelte over
      anything else; otherwise `dependencies.react` gives React, else
      `dependencies["@angular/core"]` gives Angular, else Node. */
  lemma DependencyCascade(root: Value)
    requires DependencyType(root).Returned?
    ensures var deps := Get(root, "dependencies");
            var devDeps := Get(root, "devDependencies");
            var svelte := devDeps.Some? && Get(devDeps.value, "svelte").Some?;
            var react := deps.Some? && Get(deps.value, "react").Some?;
            var angular := deps.Some? && Get(deps.value, "@angular/core").Some?;
            var t := DependencyType(root).value;
            && (svelte <==> t == Svelte)
            && (t == React <==> !svelte && react)
            && (t == Angular <==> !svelte && !react && angular)
            && (t == Node <==> !svelte && !react && !angular)
  {
  }

  /** With a framework config file in the listing, its name decides the
      type and the dependencies are not consulted. */
  lemma ConfigFilePrecedence(m: Manifest, files: seq<string>, dir: string, now: int)
    requires FileName(dir).Some? && m.Parsed?
    requires Get(m.root, "name").None? || Get(m.root, "name").value.Str?
    requires LastNodeConfig(files).Some?
    ensures var config := LastNodeConfig(files).value;
            var r := NodeProject(Some(m), LastNodeConfig(files), dir, now);
            r.Returned? && r.value.Ok? &&
            Some(r.value.value.projectType) == ConfigFileType(FileName(config).value)
  {
    var k := LastNodeConfigIndex(files).value;
    assert IsNodeConfig(files[k]);
  }

  /** No config name contains a '/'. */
  lemma SlashNeverConfigName(f: string)
    requires '/' in f
    ensures ConfigFileType(f).None?
  {
    forall name | name in NodeProjectIdentifiers
      ensures '/' !in name
    {
    }
  }

  /** A config key that names no framework is the same as no key. */
  lemma UnknownKeyIgnored(m: Option<Manifest>, key: string, dir: string, now: int)
    requires ConfigFileType(key).None?
    ensures NodeProjectKeyed(m, Some(key), dir, now) == NodeProjectKeyed(m, None, dir, now)
  {
    if m.Some? && m.value.Parsed? {
      assert NodeType(Some(key), m.value.root) == NodeType(None, m.value.root);
    }
  }

  /** As written, no framework config file is ever recognised in a
      listing: every listed path carries its directory, so its full
      string is never a bare config name and only the dependencies
      decide. */
  lemma ConfigIgnoredAsWritten(m: Option<Manifest>, files: seq<string>, dir: string, now: int)
    requires forall j :: 0 <= j < |files| ==> '/' in files[j]
    ensures NodeProjectAsWritten(m, LastNodeConfig(files), dir, now) == NodeProjectKeyed(m, None, dir, now)
  {
    if LastNodeConfigIndex(files).Some? {
      var k := LastNodeConfigIndex(files).value;
      SlashNeverConfigName(files[k]);
      UnknownKeyIgnored(m, files[k], dir, now);
    }
  }

  /** The corrected classification differs from the one as written only
      where a package.json is the identifier and a config file is listed. */
  lemma CorrectedAgreesWithoutConfig(env: Env, files: seq<string>, dir: string, modified: int)
    requires FirstIdentifier(files).None? || LastNodeConfig(files).None? ||
             FileName(files[FirstIdentifier(files).value]) != Some("package.json")
    ensures RelevantProjectCorrected(env, files, dir, modified) == RelevantProject(env, files, dir, modified)
  {
  }

  /** Where both classifications find a project, they find the same one
      but for its type. */
  lemma CorrectedDiffersOnlyInType(env: Env, files: seq<string>, dir: string, modified: int)
    requires RelevantProject(env, files, dir, modified).Returned?
    requires RelevantProject(env, files, dir, modified).value.Some?
    requires RelevantProjectCorrected(env, files, dir, modified).Returned?
    requires RelevantProjectCorrected(env, files, dir, modified).value.Some?
    ensures var p := RelevantProject(env, files, dir, modified).value.value;
            var q := RelevantProjectCorrected(env, files, dir, modified).value.value;
            q == p.(projectType := q.projectType)
  {
    var i := FirstIdentifier(files).value;
    if FileName(files[i]).value == "package.json" {
      var c := LastNodeConfig(files);
      KeyOnlySetsType(ManifestAt(env, files[i]), c,
                      if c.Some? then FileName(c.value) else None, dir, env.now);
    }
  }

  /** Two config keys give the same Node project but for its type. */
  lemma KeyOnlySetsType(m: Option<Manifest>, k1: Option<string>, k2: Option<string>, dir: string, now: int)
    requires NodeProjectKeyed(m, k1, dir, now).Returned? && NodeProjectKeyed(m, k1, dir, now).value.Ok?
    requires NodeProjectKeyed(m, k2, dir, now).Returned? && NodeProjectKeyed(m, k2, dir, now).value.Ok?
    ensures var p := NodeProjectKeyed(m, k1, dir, now).value.value;
            var q := NodeProjectKeyed(m, k2, dir, now).value.value;
            q == p.(projectType := q.projectType)
  {
  }

  /** The type an extraction settled on, if it settled on one. */
  function TypeOf(r: Outcome<Result<Project, ExtractError>>): Option<ProjectType>
  {
    if r.Returned? && r.value.Ok? then Some(r.value.value.projectType) else None
  }

  /** svelte.config.json listed under /w/app is a node config file. */
  lemma SvelteConfigListed()
    ensures FileName("/w/app/svelte.config.json") == Some("svelte.config.json")
    ensures IsNodeConfig("/w/app/svelte.config.json")
  {
    SvelteConfigName();
    assert NodeProjectIdentifiers[0] == "svelte.config.json";
  }

  lemma SvelteConfigName()
    ensures FileName("/w/app/svelte.config.json") == Some("svelte.config.json")
  {
    SvelteConfigPath();
    FileNameOfChild("/w/app", "svelte.config.json");
  }

  lemma SvelteConfigPath()
    ensures "/w/app/svelte.config.json" == "/w/app" + "/" + "svelte.config.json"
    ensures '/' !in "svelte.config.json"
  {
  }

  /** The listing of the example below: its config file is the second
      entry, and the directory has a name. */
  lemma SvelteListing()
    ensures LastNodeConfig(["/w/app/package.json", "/w/app/svelte.config.json"])
              == Some("/w/app/svelte.config.json")
    ensures FileName("/w/app").Some?
  {
    SvelteConfigListed();
    FileNameOfChild("/w", "app");
    assert "/w/app" == "/w" + "/" + "app";
  }

  /** Where the dependencies say React and the listing holds a Svelte
      config file, the code as written reports React and the corrected
      code reports Svelte. */
  lemma ReactDepsWithSvelteConfig(root: Value, files: seq<string>, dir: string, now: int)
    requires FileName(dir).Some?
    requires Get(root, "name").None? && DependencyType(root) == Returned(React)
    requires LastNodeConfig(files).Some? && '/' in LastNodeConfig(files).value
    requires FileName(LastNodeConfig(files).value) == Some("svelte.config.json")
    ensures TypeOf(NodeProjectAsWritten(Some(Parsed(root)), LastNodeConfig(files), dir, now)) == Some(React)
    ensures TypeOf(NodeProject(Some(Parsed(root)), LastNodeConfig(files), dir, now)) == Some(Svelte)
  {
    var f := LastNodeConfig(files).value;
    SlashNeverConfigName(f);
    UnknownKeyIgnored(Some(Parsed(root)), f, dir, now);
  }

  /** A package.json with a `react` dependency next to svelte.config.json:
      as written the project is React, as intended it is Svelte. */
  lemma SvelteConfigExample()
    ensures var files := ["/w/app/package.json", "/w/app/svelte.config.json"];
            var m := Some(Parsed(Obj([("dependencies", Obj([("react", Str("18"))]))])));
            && TypeOf(NodeProjectAsWritten(m, LastNodeConfig(files), "/w/app", 0)) == Some(React)
            && TypeOf(NodeProject(m, LastNodeConfig(files), "/w/app", 0)) == Some(Svelte)
  {
    var files := ["/w/app/package.json", "/w/app/svelte.config.json"];
    var root := Obj([("dependencies", Obj([("react", Str("18"))]))]);
    SvelteListing();
    SvelteConfigListed();
    assert "/w/app/svelte.config.json"[0] == '/';
    assert Get(root, "name") == None;
    assert Get(root, "devDependencies") == None;
    assert DependencyType(root) == Returned(React);
    ReactDepsWithSvelteConfig(root, files, "/w/app", 0);
  }
}
