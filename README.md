# Local projects: a verified model of the project crawler

The desktop app finds the software projects under a handful of root
directories and keeps them in an index. It then builds a full-text
search index from them and shows each project with a language colour and
a project-type icon. This Dafny project models the core of that app:

- **Classifier** (`dir_walker/walker.rs`). `get_relevant_project` picks the
  identifier file and the README/DOC file from a directory listing. It
  then calls `cargo_project`, `node_project` or `flutter_project`.
  `node_project` includes the config-file and dependency cascade.
- **Walker** (`dir_walker/walker.rs`). `scan_dir` decides what to do with
  one directory: skip it if hidden or unreadable, consult the index,
  index a found project, or queue its sub-directories.
  `analyze_all_dirs` drains the job queue, run level by level rather than
  by threads.
- **Index** (`indexer.rs`). A class over a path → project map, with
  upsert, the reindex rule, the newest-first listing, and load and save as
  state transitions.
- **Configuration** (`config.rs`). A class over the list of root
  directories: add without duplicates, remove, load fallback and save.
- **Search documents** (`search.rs`, `index.rs`). The weighted text built
  for each indexed project, the defaults for missing fields, the
  `add_document` calls, and saving and loading the search model.
- **Project record** (`file_handler.rs`). `Project::base`, the eleven
  project types, and `initiate_search`.
- **UI lookups** (`lang-color.helper.ts`, `icon.helper.ts`).

Some things the model receives as inputs:

- the file system, as a map from directory to its listing;
- parsed manifests, as a small JSON-like `Value` tree, or `Malformed`;
- git remotes and the code lines per language, as maps;
- the clock, as `now`;
- the outcome of every file open and write, as booleans.

A Rust `unwrap` that fails is `Panicked` in an `Outcome` and is never
excluded by a precondition.

Some behaviours of the program are easy to miss:

- The identifier file is the first file *in listing order* whose name is
  an identifier, not the first name of `PROJECT_IDENTIFIERS` that is
  present (`Classifier.IdentifierByListingOrder`).
- An up-to-date indexed directory is descended into, so a second crawl
  walks into every project found by the first
  (`Walker.RescanDescendsIntoProject`).
- The Rust and Node description is the serialised TOML/JSON value, with
  quotes around a string and, for JSON, its escapes. The Flutter
  description is the bare string (`Classifier.DescriptionForms`).
- `node_project` never recognises a framework config file in a listing,
  so the crawl types every Node-family project by its dependencies alone.
  The crawl is modelled as the code is written; the corrected
  classification sits beside it (see Findings).
- A project with no code lines, such as a directory holding only an
  empty Cargo.toml, gets language shares of 0/0, which are not numbers.
  `serde_json` writes them as `null`, which does not load back as an
  f32. The save still reports success, but the next load fails and the
  next search starts from an empty index (`Classifier.LanguageShares`,
  `Indexer.Index.Save`).

## Model

| member | source | states |
|---|---|---|
| FileHandler.Base | src-tauri/src/file_handler.rs:43-59 | name, path, description and type are stored as passed; git is empty, the language map is empty, there is no documentation file, and the time is `now` |
| FileHandler.ProjectTypesClosed | src-tauri/src/file_handler.rs:62-75 | exactly eleven distinct project types; every type's serialised name parses back to it |
| FileHandler.ParseTypeName | src-tauri/src/file_handler.rs:62-75 | a name that parses is the serialised name of the type it gives |
| Paths.FileName | src-tauri/src/dir_walker/walker.rs:97 | `Path::file_name`: the last component once trailing separators and "." components are dropped; None for "", "/", "." and ".." |
| Paths.FileNameIgnoresTrailing | src-tauri/src/dir_walker/walker.rs:97 | a trailing "/" or "/." does not change the file name, so "/w/app/." is named "app" |
| Paths.FileNameOfChild | src-tauri/src/dir_walker/walker.rs:97 | the file name of `dir/name` is `name`, for every entry a listing yields |
| Paths.FileNameShape | src-tauri/src/dir_walker/walker.rs:97 | a file name is one non-empty component with no separator, and is not "." or ".." |
| Classifier.FirstIdentifier | src-tauri/src/dir_walker/walker.rs:96-102 | the index of the first listed file named as an identifier; no earlier file is one; None exactly when no file is |
| Classifier.DocIndexBefore | src-tauri/src/dir_walker/walker.rs:104-110 | the last README.md/DOC.md (any case) strictly before the identifier; none between it and the identifier |
| Classifier.LastNodeConfigIndex | src-tauri/src/dir_walker/walker.rs:259-267 | the last listed framework config file; none after it; None when there is none |
| Classifier.FindNodeConfig | src-tauri/src/dir_walker/walker.rs:259-267 | the loop keeps the last matching file |
| Classifier.FindIdentifier | src-tauri/src/dir_walker/walker.rs:96-111 | the loop with its break finds the first identifier and the documentation file listed before it |
| Classifier.GetRelevantProject | src-tauri/src/dir_walker/walker.rs:70-150 | the loop and the dispatch compute `RelevantProject`, handing a package.json to `node_project` as written |
| Classifier.RelevantProject | src-tauri/src/dir_walker/walker.rs:70-150 | no identifier gives no project; a project found carries the directory and its modification time |
| Classifier.CorrectedAgreesWithoutConfig | src-tauri/src/dir_walker/walker.rs:268-289 | unless package.json is the identifier and a config file is listed, the corrected classification is the one as written |
| Classifier.CorrectedDiffersOnlyInType | src-tauri/src/dir_walker/walker.rs:268-289 | where both classifications find a project, they differ at most in its type |
| Classifier.RelevantProjectShape | src-tauri/src/dir_walker/walker.rs:113-147 | a project comes only from Cargo.toml (Rust), package.json (Node family) or pubspec.yaml (Flutter); it carries the directory, its time, its remotes and the doc file found before the identifier |
| Classifier.NoExtractorNoProject | src-tauri/src/dir_walker/walker.rs:115-133 | no identifier, or main.go, main.py, next.config.js, svelte.config.json or angular.json first, gives no project |
| Classifier.IdentifierByListingOrder | src-tauri/src/dir_walker/walker.rs:96-102 | package.json listed before Cargo.toml is the identifier |
| Classifier.DocFileOnlyBeforeIdentifier | src-tauri/src/dir_walker/walker.rs:101-106 | a README listed after the identifier is not the documentation file; one listed before it is |
| Classifier.CargoProject | src-tauri/src/dir_walker/walker.rs:155-185 | a read error is an error; a directory without a name panics; a malformed Cargo.toml still gives a Rust project named after the directory, with no description; a parsed one panics exactly when `package.name` is present and not a string |
| Classifier.FlutterProject | src-tauri/src/dir_walker/walker.rs:188-216 | a directory without a name panics; read and YAML errors are errors; the result is a Flutter project for the directory |
| Classifier.NodeProjectKeyed | src-tauri/src/dir_walker/walker.rs:219-315 | read and JSON errors are errors; a directory without a name panics; the result is a Node-family project for the directory |
| Classifier.ManifestParseErrors | src-tauri/src/dir_walker/walker.rs:122-128 | a malformed package.json or pubspec.yaml drops the project; a malformed Cargo.toml gives a Rust project named after the directory with no description |
| Classifier.UnreadableManifest | src-tauri/src/dir_walker/walker.rs:156 | an unreadable manifest drops the project |
| Classifier.NodeName | src-tauri/src/dir_walker/walker.rs:224-315 | the name is package.json's `name` when present, else the directory's name; the description is the serialised `description`; the type is the config file's when one set it, else the dependency rule's; it panics exactly when `name` is present and not a string, or (with no config type) when a dependency section is not an object |
| Classifier.ShareOf | src-tauri/src/dir_walker/walker.rs:339-341 | a share is not a number exactly when the total is 0; a language's share of a total it is part of lies between 0 and 100 |
| Classifier.SharesOver | src-tauri/src/dir_walker/walker.rs:333-344 | one entry for every counted language and no other, each the share of that language's lines |
| Classifier.LanguageShares | src-tauri/src/dir_walker/walker.rs:319-347 | the keys are the counted languages; when some language is counted, every share is a number exactly when the total code lines are positive; each share that is a number lies between 0 and 100 |
| Classifier.CountWithinTotal | src-tauri/src/dir_walker/walker.rs:335-339 | each language's code lines are at most the total |
| Classifier.NoCodeLines | src-tauri/src/dir_walker/walker.rs:335-343 | a single counted language with no code lines gets a share that is not a number |
| Classifier.FlutterName | src-tauri/src/dir_walker/walker.rs:188-215 | the name is the pubspec's `name` when present, else the directory's name; the description is the `description` string; a non-string name or description panics, exactly then |
| Classifier.CargoName | src-tauri/src/dir_walker/walker.rs:158-177 | the name is `package.name` when present, else the directory's name |
| Classifier.DescriptionForms | src-tauri/src/dir_walker/walker.rs:175-241 | a Node description is the JSON serialisation of the string (quoted and escaped); a Rust description of a string needing no escapes is that string in quotes; a Flutter description is the string itself |
| Classifier.ConfigFileType | src-tauri/src/dir_walker/walker.rs:269-286 | a type exactly for the eight config names: Svelte, Angular, NextJs, ReactNative or Vue |
| Classifier.DependencyCascade | src-tauri/src/dir_walker/walker.rs:289-307 | devDependencies.svelte gives Svelte over anything; otherwise react gives React, then @angular/core gives Angular, else Node; each type if and only if its condition holds |
| Classifier.NodeProject | src-tauri/src/dir_walker/walker.rs:258-289 | corrected: a config file whose name is a config name decides the type |
| Classifier.NodeProjectAsWritten | src-tauri/src/dir_walker/walker.rs:268-286 | as written: a config path holding a separator is never matched, so the project is what it would be with no config file |
| Classifier.DependencyType | src-tauri/src/dir_walker/walker.rs:289-307 | panics exactly when `dependencies` or `devDependencies` is present but not an object; otherwise Node, React, Angular or Svelte |
| Classifier.ConfigFilePrecedence | src-tauri/src/dir_walker/walker.rs:269-289 | corrected: a listed config file's name decides the type, and the dependencies are not consulted |
| Classifier.ConfigIgnoredAsWritten | src-tauri/src/dir_walker/walker.rs:270 | as written: when every listed path has a directory part, the config file is never matched and only the dependencies decide |
| Classifier.SlashNeverConfigName | src-tauri/src/dir_walker/walker.rs:247-256 | no config name contains a separator |
| Classifier.UnknownKeyIgnored | src-tauri/src/dir_walker/walker.rs:269-286 | a key that names no framework leaves the type to the dependencies |
| Classifier.ReactDepsWithSvelteConfig | src-tauri/src/dir_walker/walker.rs:269-307 | with react in the dependencies and svelte.config.json listed, the code as written says React and the corrected code says Svelte |
| Classifier.SvelteConfigExample | src-tauri/src/dir_walker/walker.rs:259-307 | the concrete listing /w/app/package.json, /w/app/svelte.config.json: React as written, Svelte as intended |
| Indexer.NeedsReindex | src-tauri/src/indexer.rs:148-154 | a path needs indexing when it is absent or its stored time is strictly older; its partners are `UpsertUpToDate` and `UpToDateMonotone` |
| Indexer.UpsertAll | src-tauri/src/indexer.rs:125-129 | a run of `add_project` calls; its partners are `UpsertAllLast` and `UpsertAllKeeps` |
| Indexer.Upsert | src-tauri/src/indexer.rs:125-129 | the path maps to the new project; every other entry is unchanged; the keys gain at most this path |
| Indexer.UpsertTwice | src-tauri/src/indexer.rs:125-129 | adding the same path twice is the same as adding only the second value |
| Indexer.UpsertAllLast | src-tauri/src/indexer.rs:125-129 | after any run of adds, a path's entry is the last value added for it |
| Indexer.UpsertAllKeeps | src-tauri/src/indexer.rs:125-129 | paths never added keep their entries; the map grows by at most one entry per add |
| Indexer.UpsertUpToDate | src-tauri/src/indexer.rs:148-154 | a path added with time t is up to date for every time up to t; other paths' status is unchanged |
| Indexer.UpToDateMonotone | src-tauri/src/indexer.rs:148-154 | an up-to-date entry stays up to date for earlier times |
| Indexer.Load | src-tauri/src/indexer.rs:29-59 | Not Found, I/O and serde errors for a missing, unopenable and malformed file; otherwise the stored index |
| Indexer.Index.Default | src-tauri/src/indexer.rs:19-26 | no projects, stamped `now` |
| Indexer.Index.LoadOrDefault | src-tauri/src/indexer.rs:61-92 | the stored index when it loads, the default in every other case; it never fails |
| Indexer.Index.AddProject | src-tauri/src/indexer.rs:125-129 | the map becomes `Upsert` of the old map; `last_indexed` is unchanged |
| Indexer.Index.ShouldReindex | src-tauri/src/indexer.rs:148-154 | true for an unindexed path; otherwise true exactly when the stored time is strictly older (equal times give false) |
| Indexer.InsertionPoint | src-tauri/src/indexer.rs:135 | inserting at the returned point keeps a listing newest first |
| Indexer.InsertListed | src-tauri/src/indexer.rs:133 | inserting an unlisted key keeps the listing one entry per distinct key |
| Indexer.Index.Projects | src-tauri/src/indexer.rs:132-138 | every stored project exactly once (distinct keys covering the map), newest first |
| Indexer.Index.Save | src-tauri/src/indexer.rs:96-123 | `last_indexed` becomes `now` even when the save fails; projects never change; Ok exactly when open and write succeed; then loading the file gives this index back when every language share is a number, and a `SerdeError` otherwise |
| AppConfig.Load | src-tauri/src/config.rs:47-73 | panics when the file cannot be opened; no directories when it does not parse; otherwise the stored list |
| AppConfig.LoadConfig | src-tauri/src/config.rs:47-73 | panics exactly when the file cannot be opened; otherwise a new configuration holding the stored directories, or none when the file does not parse |
| AppConfig.Config.New | src-tauri/src/config.rs:75-79 | no directories |
| AppConfig.Config.AddDir | src-tauri/src/config.rs:82-95 | a listed path gives PathExists and changes nothing; otherwise it is appended with Ok; a duplicate-free list stays duplicate-free |
| AppConfig.Config.RemoveDir | src-tauri/src/config.rs:98-102 | every equal entry is dropped, the rest stay in order; always Ok |
| AppConfig.Without | src-tauri/src/config.rs:99 | the path is gone, every other entry keeps its membership, and the list does not grow |
| AppConfig.WithoutAbsent | src-tauri/src/config.rs:98-101 | removing a path that is not listed leaves the list unchanged |
| AppConfig.WithoutConcat | src-tauri/src/config.rs:99 | removal works piecewise, so the remaining entries keep their relative order |
| AppConfig.Config.Save | src-tauri/src/config.rs:104-118 | on a successful write, loading the file gives the same list; a failed write is an error |
| AppConfig.AddThenRemove | src-tauri/src/config.rs:167-183 | from a new configuration, adding a directory gives one entry and removing it gives none |
| Walker.ChildJobs | src-tauri/src/dir_walker/walker.rs:449-461 | jobs one level deeper, for exactly the sub-directories whose name is not excluded |
| Walker.QueueChildren | src-tauri/src/dir_walker/walker.rs:451-461 | the loop queues `ChildJobs` |
| Walker.ScanStep | src-tauri/src/dir_walker/walker.rs:381-465 | one scan as a value: the new index, the report and the queued jobs; its partners are `ScanStepEffect` and `ScanDir` |
| Walker.ScanLevel | src-tauri/src/dir_walker/walker.rs:26-66 | the scans of one depth level in queue order; its partners are `ScanLevelExtends`, `ScanLevelKeepsFound` and `ScanJobs` |
| Walker.Crawl | src-tauri/src/dir_walker/walker.rs:26-66 | level after level until nothing is queued; its partners are `CrawlExtends` and `CrawlKeepsFound` |
| Walker.Walk | src-tauri/src/dir_walker/walker.rs:26-66 | the crawl from the configured directories at depth 0; its partners are `WalkEffect` and `AnalyzeAllDirs` |
| Walker.ScanJobs | src-tauri/src/dir_walker/walker.rs:38-51 | scanning one level's jobs against the index object computes `ScanLevel` |
| Walker.UpsertKeepsFound | src-tauri/src/dir_walker/walker.rs:427-431 | indexing a directory that needed it keeps every earlier report indexed and distinct |
| Walker.ScanDir | src-tauri/src/dir_walker/walker.rs:381-465 | against the index object, computes `ScanStep`: the same index, report and queued jobs |
| Walker.SkippedDirectory | src-tauri/src/dir_walker/walker.rs:391-407 | a hidden or unreadable directory changes nothing, reports nothing and queues nothing |
| Walker.ScanStepEffect | src-tauri/src/dir_walker/walker.rs:416-461 | a report is the directory's project, stamped with its time and upserted under its path, which is then up to date, with nothing queued; without a report the index is unchanged; queued jobs are non-excluded sub-directories one level deeper, within the limit |
| Walker.UpToDateDescends | src-tauri/src/dir_walker/walker.rs:427-449 | an up-to-date indexed directory is not classified but is descended into |
| Walker.RescanDescendsIntoProject | src-tauri/src/dir_walker/walker.rs:427-449 | scanning an identified directory again reports nothing and queues the project's own sub-directories |
| Walker.ScanLevelDepth | src-tauri/src/dir_walker/walker.rs:449-461 | a level at depth d queues jobs at depth d+1 only while d is below the limit |
| Walker.Seeds | src-tauri/src/dir_walker/walker.rs:56-60 | one depth-0 job per configured directory, in order |
| Walker.ScanLevelExtends | src-tauri/src/dir_walker/walker.rs:427-431 | a level of scans adds exactly the reported directories to the index and leaves every other entry unchanged |
| Walker.ScanLevelKeepsFound | src-tauri/src/dir_walker/walker.rs:427-431 | after a level of scans, every report so far is still the indexed entry of its directory, and no directory is reported twice |
| Walker.CrawlExtends | src-tauri/src/dir_walker/walker.rs:26-66 | the rest of a walk adds exactly the reported directories and leaves other entries unchanged |
| Walker.CrawlKeepsFound | src-tauri/src/dir_walker/walker.rs:26-66 | every report of a walk remains the indexed entry of its directory, and no directory is reported twice |
| Walker.WalkEffect | src-tauri/src/dir_walker/walker.rs:26-66 | after a walk: old keys plus one key per report, each holding exactly that report stamped with its directory's time; untouched entries unchanged; no directory reported twice |
| Walker.AnalyzeAllDirs | src-tauri/src/dir_walker/walker.rs:26-66 | draining the queue level by level over the index object gives `Walk`'s index and reports |
| Pipeline.InitiateSearch | src-tauri/src/file_handler.rs:78-99 | walks to depth 4 from the loaded or default index, then saves; Ok exactly when the save succeeds, and the saved file then holds the walked index stamped `now` when every language share is a number, and does not load otherwise |
| Pipeline.SavedIndexHoldsFound | src-tauri/src/file_handler.rs:88-92 | the saved index holds every reported project under its directory, next to every project it started with |
| Documents.RepeatLength | src-tauri/src/search.rs:85-99 | k copies of s have length k·\|s\| |
| Documents.RepeatCopies | src-tauri/src/search.rs:85-99 | copy j of s sits whole at offset j·\|s\| |
| Documents.OptionalText | src-tauri/src/search.rs:27-49 | missing or null reads as ""; a present string reads as itself; anything else panics |
| Documents.RequiredName | src-tauri/src/search.rs:25 | the name must be present and a string, or it panics |
| Documents.DocContents | src-tauri/src/search.rs:51-65 | missing or null gives ""; a readable file gives its contents; an unreadable one gives ""; a non-string panics |
| Documents.ProjectEntries | src-tauri/src/search.rs:17-22 | an unopenable index.json gives nothing; malformed JSON, or `projects` missing or not an object, panics; an object `projects` gives exactly its members |
| Documents.AllDocuments | src-tauri/src/search.rs:22-108 | one document per entry, in order, exactly when no entry panics |
| Documents.SaveModel | src-tauri/src/search.rs:118-130 | Ok exactly when creating and the reported writes succeed; a failed create leaves the file alone; a failed write, or a failed final flush of the `BufWriter` (whose error is discarded, so the call still returns Ok), leaves a file that does not load; once created, `load_model` gives the documents back exactly when both succeed |
| Documents.LoadModel | src-tauri/src/index.rs:126-143 | a missing, unopenable or unparsable file is Err; a saved model is returned as saved |
| SearchIndex.SearchContent | src-tauri/src/search.rs:81-105 | the weighted text of one project; its partners are the `SearchContent…` lemmas below and `BuildSearchContent` |
| SearchIndex.SearchContentLength | src-tauri/src/search.rs:81-105 | the text has 9(\|name\|+1) + 3(\|type\|+1) + 4\|description\| + \|doc\| + 3 characters |
| SearchIndex.SearchContentNames | src-tauri/src/search.rs:85-89 | name and a space nine times, then a newline |
| SearchIndex.SearchContentTypes | src-tauri/src/search.rs:91-95 | then the type and a space three times, then a newline |
| SearchIndex.SearchContentDescriptions | src-tauri/src/search.rs:97-101 | then the description four times with no separator, then a newline |
| SearchIndex.SearchContentEndsWithDoc | src-tauri/src/search.rs:101-103 | the documentation ends the text, right after the last newline |
| SearchIndex.BuildSearchContent | src-tauri/src/search.rs:81-105 | the push_str loops build `SearchContent` |
| SearchIndex.SearchEntry | src-tauri/src/search.rs:23-107 | an entry gives a document exactly when no field panics; the document is keyed by the entry's path and stamped `now` |
| SearchIndex.SearchDocuments | src-tauri/src/search.rs:22-108 | a document exactly when every entry gives one; one per entry, in order, keyed by the entry's path and stamped `now` |
| SearchIndex.StoredTimeIgnored | src-tauri/src/search.rs:67-79 | the stored `last_modified` does not affect the document |
| SearchIndex.CreateSearchIndex | src-tauri/src/search.rs:10-116 | an unopenable index.json adds and saves nothing; otherwise one `add_document` per entry, then the model is saved; a panic saves nothing |
| IndexMain.IndexContent | src-tauri/src/index.rs:80-94 | the weighted text without the type line; its partners are `IndexContentLength`, `SearchContentAddsTypeLine` and `BuildIndexContent` |
| IndexMain.IndexContentLength | src-tauri/src/index.rs:80-94 | the text has 9(\|name\|+1) + 4\|description\| + \|doc\| + 2 characters |
| IndexMain.SearchContentAddsTypeLine | src-tauri/src/index.rs:80-94 | the search text is this text with the type line inserted after the name line |
| IndexMain.BuildIndexContent | src-tauri/src/index.rs:80-94 | the push_str loops build `IndexContent` |
| IndexMain.IndexEntry | src-tauri/src/index.rs:31-98 | an entry gives a document exactly when name, description, documentation file and time can be read; keyed by path, stamped `now` |
| IndexMain.IndexDocuments | src-tauri/src/index.rs:31-98 | a document exactly when every entry gives one; one per entry, in order, keyed by the entry's path and stamped `now` |
| IndexMain.TypeOnlyCheckedBySearch | src-tauri/src/index.rs:36-48 | a non-string project_type stops the search index but not `main`, which never reads it |
| IndexMain.RunIndex | src-tauri/src/index.rs:19-106 | an unopenable index.json adds and saves nothing; otherwise one `add_document` per entry, then the model is saved; a panic saves nothing |
| LangColor.GetLanguageColor | src/helpers/lang-color.helper.ts:43-50 | the table's colour for a listed language, "#CFD8DC" otherwise; never empty |
| LangColor.ColorsNonEmpty | src/helpers/lang-color.helper.ts:3-41 | every colour in the table is non-empty, so none falls through to the default |
| LangColor.ScriptAliases | src/helpers/lang-color.helper.ts:5-7 | javascript, js and jsx share "#9CCC65" |
| LangColor.CaseSensitive | src/helpers/lang-color.helper.ts:43-50 | "rust" has its colour; "Rust" gets the default |
| Icons.GetIconForProject | src/helpers/icon.helper.ts:16-18 | always starts with "/project-icons/"; the mapped file name for a listed key, "undefined" otherwise |
| Icons.IconPerProjectType | src/helpers/icon.helper.ts:3-14 | every lower-cased type name has an icon except "reactnative", whose path ends in "undefined" |
| Icons.CaseSensitive | src/helpers/icon.helper.ts:3-17 | "rust" gives rust.svg; "Rust" gives "undefined" |
| Values.Escape | src-tauri/src/dir_walker/walker.rs:241 | the body of a JSON string: a plain string (no quote, backslash or control character) is itself, any other is strictly longer |
| Values.UnescapeEscape | src-tauri/src/dir_walker/walker.rs:241 | a JSON reader gets every escaped string back |
| Values.EscapeAppend | src-tauri/src/dir_walker/walker.rs:241 | escaping works character by character |
| Values.Quote | src-tauri/src/dir_walker/walker.rs:241 | a serialised string starts and ends with a quote, reads back as the string, and holds the string verbatim exactly when it is plain |
| Values.QuoteEscapesQuotes | src-tauri/src/dir_walker/walker.rs:241 | a quote is written `\"` and a backslash `\\` |
| Values.Get | src-tauri/src/dir_walker/walker.rs:170-171 | `get` on a non-object is None; on an object it is the member lookup |
| Values.Render | src-tauri/src/dir_walker/walker.rs:175 | `to_string()` of a value; a string renders quoted, never as itself (`RenderStrQuoted`) |
| Values.Lookup | src-tauri/src/dir_walker/walker.rs:170-171 | a key's value is that of the first member with the key (no earlier member has it); None exactly when no member has it |

## Left out

- The worker threads and channels of `analyze_all_dirs`, and the index mutex. The model drains the queue one depth level at a time. Each scan touches only its own directory's entry, so only a directory queued twice could see another order. `FileHandler.Workers` records the count but nothing uses it.
- A panicking scan is modelled as ending that directory's scan with nothing queued. The source also loses the worker thread, so after four panics the remaining jobs are never scanned; that is not modelled.
- File system access: `read_dir`, `metadata`, `read_to_string`, opens and writes. Listings, modification times, manifests, doc-file contents and every open or write outcome are inputs. Unreadable entries inside a listing (`filter_map(ok)`), symbolic links and non-UTF-8 names (`to_str().unwrap()`) are not modelled.
- The `errors.txt` append in `scan_dir` is output only.
- `get_git_remotes` calls git2 and `get_project_language_map` calls tokei. Their results are inputs: `Env.remotes`, and `Env.languages`, which holds the code lines per language in tokei's key order. The shares are computed as exact reals; f32 rounding is not modelled, except for the 0/0 quotient, which is not a number.
- TOML, JSON and YAML parsing. Parsed documents are `Values.Value` trees with integer numbers only. `Values.Render` stands in for `to_string()` of a value in JSON style: strings are quoted and escaped as `serde_json` does it, with lower-case `\u00XX` for control characters other than `\b \f \n \r \t`.
- Classifier.CargoProject: a TOML description is rendered in JSON style. The `toml` crate writes a string needing no escapes the same way, but may write other strings with different escapes or as a literal `'…'` string, and writes non-string values in TOML syntax; that rendering is not modelled.
- Classifier.DescriptionForms: for Rust it states the rendering only for strings needing no escapes, for the reason above.
- Values.Unescape refuses `\u` escapes naming UTF-16 surrogates, so surrogate pairs are not read back; `Values.Escape` never writes them.
- Indexer.Upsert: the index is keyed by path strings. `BTreeMap<PathBuf, _>` compares paths component by component, so "/w/app" and "/w/app/" are one key there and two here. The configured directories and listed paths are taken as given strings, and `config.rs` itself compares them as strings.
- The iteration order of `serde_json`'s map (sorted by key) is not modelled. The documents follow the order of the parsed object's members.
- Every parsed `Value` (manifests, index.json, the model file) is assumed to have distinct keys in each object. `serde_json` keeps the last of duplicate keys, while `Values.Lookup` returns the first.
- `SystemTime` is an integer clock. `canonicalize().unwrap()` in `load`/`save` and the config-directory lookup (`get_config_dir`, `LP_CONFIG_PATH`) are left out.
- The search model and lexer are not part of this model. `Documents.Model` only records the `add_document` calls; ranking and tokenisation are not modelled.
- `initiate_search` builds an `index_path` it never uses, and prints the listing length; neither is modelled.
- Tauri commands, `main.rs`, `html.helper.ts`, error `Display`/`From` implementations and the TypeScript type and constant files are not part of this model.
- TypeScript keys inherited from `Object.prototype` (such as "toString") would look up a function rather than a table entry. `LangColor.GetLanguageColor` and `Icons.GetIconForProject` treat them as unlisted.
- Indexer.Index.Projects: tie order among equal times is not specified, matching `sort_unstable_by`.

## Findings

| source | as written | input that shows it | evidently intended | confidence | as-written member | corrected member |
|---|---|---|---|---|---|---|
| src-tauri/src/dir_walker/walker.rs:270 | `node_project` matches the config file's full path string against bare names such as "svelte.config.json". Listed paths always include the directory, so no config file is ever recognised and only the dependencies decide the sub-type. The crawl (`Classifier.RelevantProject` and everything built on it) is modelled as written; `Classifier.RelevantProjectCorrected` matches by file name | directory /w/app listing /w/app/package.json (with `dependencies.react`) and /w/app/svelte.config.json | match on the config file's name, so the project is Svelte | high (not executed) | Classifier.SvelteConfigExample | Classifier.ConfigFilePrecedence |
