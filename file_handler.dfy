/** The project record, its type, and the scan parameters
    (src-tauri/src/file_handler.rs). */
module FileHandler {
  import opened Wrappers

  /** The ecosystems a project can belong to. */
  datatype ProjectType =
    | Rust | Python | Flutter | Ruby | NextJs | Svelte
    | React | ReactNative | Angular | Node | Vue

  /** Every project type, in declaration order. */
  const AllProjectTypes: seq<ProjectType> :=
    [Rust, Python, Flutter, Ruby, NextJs, Svelte, React, ReactNative, Angular, Node, Vue]

  /** The name a project type is serialised under in `index.json`
      (serde's unit-variant name). */
  function TypeName(t: ProjectType): string
  {
    match t
    case Rust => "Rust"
    case Python => "Python"
    case Flutter => "Flutter"
    case Ruby => "Ruby"
    case NextJs => "NextJs"
    case Svelte => "Svelte"
    case React => "React"
    case ReactNative => "ReactNative"
    case Angular => "Angular"
    case Node => "Node"
    case Vue => "Vue"
  }

  /** Deserialising a project type from its name. */
  function ParseTypeName(name: string): (r: Option<ProjectType>)
    ensures r.Some? ==> TypeName(r.value) == name
  {
    if name == "Rust" then Some(Rust)
    else if name == "Python" then Some(Python)
    else if name == "Flutter" then Some(Flutter)
    else if name == "Ruby" then Some(Ruby)
    else if name == "NextJs" then Some(NextJs)
    else if name == "Svelte" then Some(Svelte)
    else if name == "React" then Some(React)
    else if name == "ReactNative" then Some(ReactNative)
    else if name == "Angular" then Some(Angular)
    else if name == "Node" then Some(Node)
    else if name == "Vue" then Some(Vue)
    else None
  }

  /** The type set is closed: exactly eleven distinct variants, each of
      which serialises to a name that deserialises back to it. */
  lemma ProjectTypesClosed(t: ProjectType)
    ensures |AllProjectTypes| == 11
    ensures forall i, j :: 0 <= i < j < |AllProjectTypes| ==> AllProjectTypes[i] != AllProjectTypes[j]
    ensures t in AllProjectTypes
    ensures ParseTypeName(TypeName(t)) == Some(t)
  {
  }

  /** A language's share of a project's code, in percent. The share is an
      f32 quotient, which is not a number when the project has no code
      lines at all. */
  datatype Share = Percent(value: real) | NotANumber

  /** Every share is a number, so `serde_json` writes each as a number
      (it writes a NaN as `null`, which does not read back as an f32). */
  predicate SharesFinite(shares: map<string, Share>)
  {
    forall l :: l in shares ==> shares[l].Percent?
  }

  /** One discovered project. Timestamps are whole clock readings. */
  datatype Project = Project(
    name: string,
    path: string,
    git: seq<string>,
    description: Option<string>,
    languageMap: map<string, Share>,
    projectType: ProjectType,
    lastModified: int,
    documentationFile: Option<string>)

  /** `Project::base`: the given fields stored as passed, no remotes, no
      language shares, no documentation file, stamped with `now`. */
  function Base(name: string, path: string, description: Option<string>,
                projectType: ProjectType, now: int): (p: Project)
    ensures p.name == name && p.path == path
    ensures p.description == description && p.projectType == projectType
    ensures p.git == [] && p.languageMap == map[] && p.documentationFile == None
    ensures p.lastModified == now
  {
    Project(name, path, [], description, map[], projectType, now, None)
  }

  /** `initiate_search` scans with this many workers and this depth limit. */
  const Workers: nat := 4
  const MaxDepth: nat := 4
}
