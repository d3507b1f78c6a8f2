/** `main` in `index.rs`: the same documents as `create_search_index`,
    except that the text has no project-type line and the entry's
    `project_type` is never read. */
module IndexMain {
  import opened Wrappers
  import opened Values
  import opened Documents
  import opened SearchIndex

  /** The text of one project's document: the name and a space nine
      times, a newline, the description four times, a newline, then the
      documentation. */
  function IndexContent(name: string, description: string, doc: string): string
  {
    Repeat(name + " ", 9) + "\n" + Repeat(description, 4) + "\n" + doc
  }

  /** The length of a document's text, in characters. */
  lemma IndexContentLength(name: string, description: string, doc: string)
    ensures |IndexContent(name, description, doc)| == 9 * (|name| + 1) + 4 * |description| + |doc| + 2
  {
    RepeatLength(name + " ", 9);
    RepeatLength(description, 4);
  }

  /** The search text is this text with the type line (the type and a
      space three times, and a newline) inserted after the name line. */
  lemma SearchContentAddsTypeLine(name: string, projectType: string, description: string, doc: string)
    ensures var c := IndexContent(name, description, doc);
            var cut := 9 * (|name| + 1) + 1;
            cut <= |c| &&
            SearchContent(name, projectType, description, doc)
              == c[..cut] + Repeat(projectType + " ", 3) + "\n" + c[cut..]
  {
    RepeatLength(name + " ", 9);
    var c := IndexContent(name, description, doc);
    var head := Repeat(name + " ", 9) + "\n";
    var tail := Repeat(description, 4) + "\n" + doc;
    assert c == head + tail;
    assert c[..|head|] == head && c[|head|..] == tail;
  }

  /** The content loops of `main`. */
  method BuildIndexContent(name: string, description: string, doc: string) returns (content: seq<char>)
    ensures content == IndexContent(name, description, doc)
  {
    content := [];
    for k := 1 to 10
      invariant content == Repeat(name + " ", k - 1)
    {
      content := content + name + " ";
    }
    content := content + "\n";
    ghost var head := content;
    for k := 1 to 5
      invariant content == head + Repeat(description, k - 1)
    {
      content := content + description;
    }
    content := content + "\n";
    content := content + doc;
  }

  /** One entry of `projects`, as `main` reads it: `name` must be a
      string; a missing or null `description` or `documentation_file`
      reads as ""; `last_modified` must be readable but the document is
      stamped `now`. */
  function IndexEntry(readable: map<string, string>, now: int, key: string, entry: Value): (r: Outcome<Document>)
    ensures r.Returned? <==>
              && RequiredName(entry).Returned?
              && OptionalText(entry, "description").Returned?
              && DocContents(entry, readable).Returned?
              && ModifiedReadable(entry)
    ensures r.Returned? ==> r.value.path == key && r.value.time == now
  {
    var name := RequiredName(entry);
    var description := OptionalText(entry, "description");
    var doc := DocContents(entry, readable);
    if name.Panicked? || description.Panicked? || doc.Panicked? || !ModifiedReadable(entry)
    then Panicked
    else Returned(Document(key, now, IndexContent(name.value, description.value, doc.value)))
  }

  /** An entry whose `project_type` is not a string stops
      `create_search_index` but not `main`. */
  lemma TypeOnlyCheckedBySearch(readable: map<string, string>, now: int)
    ensures var entry := Obj([("name", Str("app")), ("project_type", Num(1))]);
            && SearchEntry(readable, now, "/w/app", entry).Panicked?
            && IndexEntry(readable, now, "/w/app", entry).Returned?
  {
    var entry := Obj([("name", Str("app")), ("project_type", Num(1))]);
    assert Get(entry, "name") == Some(Str("app"));
    assert Get(entry, "project_type") == Some(Num(1));
    assert Get(entry, "description") == None;
    assert Get(entry, "documentation_file") == None;
    assert Get(entry, "last_modified") == None;
  }

  /** Every document `main` adds. */
  function IndexDocuments(entries: seq<(string, Value)>, readable: map<string, string>, now: int): (r: Outcome<seq<Document>>)
    ensures r.Returned? <==> forall i :: 0 <= i < |entries| ==> IndexEntry(readable, now, entries[i].0, entries[i].1).Returned?
    ensures r.Returned? ==> |r.value| == |entries|
    ensures r.Returned? ==> forall i :: 0 <= i < |entries| ==> r.value[i].path == entries[i].0 && r.value[i].time == now
  {
    AllDocuments(entries, (key, entry) => IndexEntry(readable, now, key, entry))
  }

  /** One more entry that gives a document adds that document. */
  lemma IndexDocumentsStep(entries: seq<(string, Value)>, readable: map<string, string>, now: int, i: nat)
    requires i < |entries|
    requires IndexDocuments(entries[..i], readable, now).Returned?
    requires IndexEntry(readable, now, entries[i].0, entries[i].1).Returned?
    ensures IndexDocuments(entries[..i + 1], readable, now)
            == Returned(IndexDocuments(entries[..i], readable, now).value
                        + [IndexEntry(readable, now, entries[i].0, entries[i].1).value])
  {
    assert entries[..i + 1][..i] == entries[..i];
  }

  /** `main`: read the stored index, add one document per project to a
      fresh model, and save the model. Nothing is added or saved when
      `index.json` cannot be opened; a panic ends the program before the
      save. */
  method RunIndex(file: IndexJson, readable: map<string, string>, now: int,
              createOk: bool, writeOk: bool, flushOk: bool, modelFile: ModelFile)
    returns (r: Outcome<seq<Document>>, modelFile': ModelFile)
    ensures file.NotOpenable? ==> r == Returned([]) && modelFile' == modelFile
    ensures ProjectEntries(file).Panicked? ==> r.Panicked?
    ensures r.Panicked? ==> modelFile' == modelFile
    ensures ProjectEntries(file).Returned? && ProjectEntries(file).value.Some? ==>
              r == IndexDocuments(ProjectEntries(file).value.value, readable, now)
    ensures ProjectEntries(file).Returned? && ProjectEntries(file).value.Some? && r.Returned? ==>
              modelFile' == SaveModel(r.value, createOk, writeOk, flushOk, modelFile).1
  {
    var model := new Model.Default();
    var found := ProjectEntries(file);
    if found.Panicked? {
      return Panicked, modelFile;
    }
    if found.value.None? {
      return Returned([]), modelFile;
    }
    var entries := found.value.value;
    for i := 0 to |entries|
      invariant IndexDocuments(entries[..i], readable, now) == Returned(model.documents)
    {
      var (key, entry) := entries[i];
      var name := RequiredName(entry);
      var description := OptionalText(entry, "description");
      var doc := DocContents(entry, readable);
      if name.Panicked? || description.Panicked? || doc.Panicked? || !ModifiedReadable(entry) {
        assert IndexEntry(readable, now, key, entry).Panicked?;
        return Panicked, modelFile;
      }
      var content := BuildIndexContent(name.value, description.value, doc.value);
      assert IndexEntry(readable, now, key, entry) == Returned(Document(key, now, content));
      IndexDocumentsStep(entries, readable, now, i);
      model.AddDocument(key, now, content);
    }
    assert entries[..|entries|] == entries;
    r := Returned(model.documents);
    var saved := SaveModel(model.documents, createOk, writeOk, flushOk, modelFile);
    modelFile' := saved.1;
  }
}
