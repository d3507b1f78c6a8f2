/** `create_search_index` in `search.rs`: every project stored in
    `index.json` becomes one search document, keyed by its path, whose
    text weights the name nine times, the project type three times and
    the description four times ahead of the documentation file. */
module SearchIndex {
  import opened Wrappers
  import opened Values
  import opened Documents

  /** The text of one project's document: the name and a space nine
      times, a newline, the type and a space three times, a newline, the
      description four times with nothing between, a newline, then the
      documentation. */
  function SearchContent(name: string, projectType: string, description: string, doc: string): string
  {
    Repeat(name + " ", 9) + "\n" + Repeat(projectType + " ", 3) + "\n" + Repeat(description, 4) + "\n" + doc
  }

  /** The length of a document's text, in characters. */
  lemma SearchContentLength(name: string, projectType: string, description: string, doc: string)
    ensures |SearchContent(name, projectType, description, doc)|
            == 9 * (|name| + 1) + 3 * (|projectType| + 1) + 4 * |description| + |doc| + 3
  {
    RepeatLength(name + " ", 9);
    RepeatLength(projectType + " ", 3);
    RepeatLength(description, 4);
  }

  /** The name block: nine copies of the name and its space, then the
      first newline. */
  lemma SearchContentNames(name: string, projectType: string, description: string, doc: string)
    ensures var c := SearchContent(name, projectType, description, doc);
            var n := |name| + 1;
            9 * n < |c| && CopiesAt(c, 0, name + " ", 9) && c[9 * n] == '\n'
  {
    var c := SearchContent(name, projectType, description, doc);
    var rest := "\n" + Repeat(projectType + " ", 3) + "\n" + Repeat(description, 4) + "\n" + doc;
    assert c == [] + Repeat(name + " ", 9) + rest;
    RepeatCopiesAt([], name + " ", 9, rest);
    assert c[9 * (|name| + 1)] == rest[0];
  }

  /** The type block: three copies of the type and its space, after the
      name block, then the second newline. */
  lemma SearchContentTypes(name: string, projectType: string, description: string, doc: string)
    ensures var c := SearchContent(name, projectType, description, doc);
            var start := 9 * (|name| + 1) + 1;
            var t := |projectType| + 1;
            start + 3 * t < |c| && CopiesAt(c, start, projectType + " ", 3) && c[start + 3 * t] == '\n'
  {
    RepeatLength(name + " ", 9);
    var c := SearchContent(name, projectType, description, doc);
    var before := Repeat(name + " ", 9) + "\n";
    var after := "\n" + Repeat(description, 4) + "\n" + doc;
    assert c == before + Repeat(projectType + " ", 3) + after;
    RepeatCopiesAt(before, projectType + " ", 3, after);
    assert c[|before| + 3 * (|projectType| + 1)] == after[0];
  }

  /** The description block: four copies of the description, after the
      type block, then the third newline. */
  lemma SearchContentDescriptions(name: string, projectType: string, description: string, doc: string)
    ensures var c := SearchContent(name, projectType, description, doc);
            var start := 9 * (|name| + 1) + 3 * (|projectType| + 1) + 2;
            var d := |description|;
            start + 4 * d < |c| && CopiesAt(c, start, description, 4) && c[start + 4 * d] == '\n'
  {
    RepeatLength(name + " ", 9);
    RepeatLength(projectType + " ", 3);
    var c := SearchContent(name, projectType, description, doc);
    var before := Repeat(name + " ", 9) + "\n" + Repeat(projectType + " ", 3) + "\n";
    var after := "\n" + doc;
    assert |before| == 9 * (|name| + 1) + 3 * (|projectType| + 1) + 2;
    assert c == before + Repeat(description, 4) + after;
    RepeatCopiesAt(before, description, 4, after);
    assert c[|before| + 4 * |description|] == after[0];
  }

  /** The documentation ends the text, after the last newline. */
  lemma SearchContentEndsWithDoc(name: string, projectType: string, description: string, doc: string)
    ensures var c := SearchContent(name, projectType, description, doc);
            |doc| < |c| && c[|c| - |doc| - 1] == '\n' && c[|c| - |doc| ..] == doc
  {
    var c := SearchContent(name, projectType, description, doc);
    var before := Repeat(name + " ", 9) + "\n" + Repeat(projectType + " ", 3) + "\n" + Repeat(description, 4);
    assert c == (before + "\n") + doc;
  }

  /** The content loops of `create_search_index`. */
  method BuildSearchContent(name: string, projectType: string, description: string, doc: string)
    returns (content: seq<char>)
    ensures content == SearchContent(name, projectType, description, doc)
  {
    content := [];
    for k := 1 to 10
      invariant content == Repeat(name + " ", k - 1)
    {
      content := content + name + " ";
    }
    content := content + "\n";
    ghost var head := content;
    for k := 0 to 3
      invariant content == head + Repeat(projectType + " ", k)
    {
      content := content + projectType + " ";
    }
    content := content + "\n";
    head := content;
    for k := 1 to 5
      invariant content == head + Repeat(description, k - 1)
    {
      content := content + description;
    }
    content := content + "\n";
    content := content + doc;
  }

  /** One entry of `projects`: `name` must be a string; a missing or null
      `project_type`, `description` or `documentation_file` reads as "";
      `last_modified` must be readable but the document is stamped `now`
      whatever it holds. */
  function SearchEntry(readable: map<string, string>, now: int, key: string, entry: Value): (r: Outcome<Document>)
    ensures r.Returned? <==>
              && RequiredName(entry).Returned?
              && OptionalText(entry, "project_type").Returned?
              && OptionalText(entry, "description").Returned?
              && DocContents(entry, readable).Returned?
              && ModifiedReadable(entry)
    ensures r.Returned? ==> r.value.path == key && r.value.time == now
  {
    var name := RequiredName(entry);
    var projectType := OptionalText(entry, "project_type");
    var description := OptionalText(entry, "description");
    var doc := DocContents(entry, readable);
    if name.Panicked? || projectType.Panicked? || description.Panicked? || doc.Panicked? || !ModifiedReadable(entry)
    then Panicked
    else Returned(Document(key, now, SearchContent(name.value, projectType.value, description.value, doc.value)))
  }

  /** The stored `last_modified` has no effect on a document: two entries
      that agree on every other field give the same document. */
  lemma StoredTimeIgnored(readable: map<string, string>, now: int, key: string, e1: Value, e2: Value)
    requires Get(e1, "name") == Get(e2, "name") && Get(e1, "project_type") == Get(e2, "project_type")
    requires Get(e1, "description") == Get(e2, "description")
    requires Get(e1, "documentation_file") == Get(e2, "documentation_file")
    requires ModifiedReadable(e1) && ModifiedReadable(e2)
    ensures SearchEntry(readable, now, key, e1) == SearchEntry(readable, now, key, e2)
  {
    SameFields(readable, e1, e2);
    var name, projectType := RequiredName(e1), OptionalText(e1, "project_type");
    var description, doc := OptionalText(e1, "description"), DocContents(e1, readable);
    if name.Returned? && projectType.Returned? && description.Returned? && doc.Returned? {
      assert SearchEntry(readable, now, key, e1).value.content
          == SearchContent(name.value, projectType.value, description.value, doc.value);
    }
  }

  /** Entries that agree on the fields read agree on what is read. */
  lemma SameFields(readable: map<string, string>, e1: Value, e2: Value)
    requires Get(e1, "name") == Get(e2, "name") && Get(e1, "project_type") == Get(e2, "project_type")
    requires Get(e1, "description") == Get(e2, "description")
    requires Get(e1, "documentation_file") == Get(e2, "documentation_file")
    ensures RequiredName(e1) == RequiredName(e2)
    ensures OptionalText(e1, "project_type") == OptionalText(e2, "project_type")
    ensures OptionalText(e1, "description") == OptionalText(e2, "description")
    ensures DocContents(e1, readable) == DocContents(e2, readable)
  {
  }

  /** Every document `create_search_index` adds. */
  function SearchDocuments(entries: seq<(string, Value)>, readable: map<string, string>, now: int): (r: Outcome<seq<Document>>)
    ensures r.Returned? <==> forall i :: 0 <= i < |entries| ==> SearchEntry(readable, now, entries[i].0, entries[i].1).Returned?
    ensures r.Returned? ==> |r.value| == |entries|
    ensures r.Returned? ==> forall i :: 0 <= i < |entries| ==> r.value[i].path == entries[i].0 && r.value[i].time == now
  {
    AllDocuments(entries, (key, entry) => SearchEntry(readable, now, key, entry))
  }

  /** One more entry that gives a document adds that document. */
  lemma SearchDocumentsStep(entries: seq<(string, Value)>, readable: map<string, string>, now: int, i: nat)
    requires i < |entries|
    requires SearchDocuments(entries[..i], readable, now).Returned?
    requires SearchEntry(readable, now, entries[i].0, entries[i].1).Returned?
    ensures SearchDocuments(entries[..i + 1], readable, now)
            == Returned(SearchDocuments(entries[..i], readable, now).value
                        + [SearchEntry(readable, now, entries[i].0, entries[i].1).value])
  {
    assert entries[..i + 1][..i] == entries[..i];
  }

  /** `create_search_index`: read the stored index, add one document per
      project to a fresh model, and save the model. Nothing is added or
      saved when `index.json` cannot be opened; a panic ends the program
      before the save. */
  method CreateSearchIndex(file: IndexJson, readable: map<string, string>, now: int,
                           createOk: bool, writeOk: bool, flushOk: bool, modelFile: ModelFile)
    returns (r: Outcome<seq<Document>>, modelFile': ModelFile)
    ensures file.NotOpenable? ==> r == Returned([]) && modelFile' == modelFile
    ensures ProjectEntries(file).Panicked? ==> r.Panicked?
    ensures r.Panicked? ==> modelFile' == modelFile
    ensures ProjectEntries(file).Returned? && ProjectEntries(file).value.Some? ==>
              r == SearchDocuments(ProjectEntries(file).value.value, readable, now)
    ensures ProjectEntries(file).Returned? && ProjectEntries(file).value.Some? && r.Returned? ==>
              modelFile' == SaveModel(r.value, createOk, writeOk, flushOk, modelFile).1
  {
    var model := new Model.Default();
    var found := ProjectEntries(file);
    if found.Panicked? {
      return Panicked, modelFile;
    }
    if found.value.None? {
      return Returned([]), modelFile;
    }
    var entries := found.value.value;
    for i := 0 to |entries|
      invariant SearchDocuments(entries[..i], readable, now) == Returned(model.documents)
    {
      var (key, entry) := entries[i];
      var name := RequiredName(entry);
      var projectType := OptionalText(entry, "project_type");
      var description := OptionalText(entry, "description");
      var doc := DocContents(entry, readable);
      if name.Panicked? || projectType.Panicked? || description.Panicked? || doc.Panicked? || !ModifiedReadable(entry) {
        assert SearchEntry(readable, now, key, entry).Panicked?;
        return Panicked, modelFile;
      }
      var content := BuildSearchContent(name.value, projectType.value, description.value, doc.value);
      assert SearchEntry(readable, now, key, entry) == Returned(Document(key, now, content));
      SearchDocumentsStep(entries, readable, now, i);
      model.AddDocument(key, now, content);
    }
    assert entries[..|entries|] == entries;
    r := Returned(model.documents);
    var saved := SaveModel(model.documents, createOk, writeOk, flushOk, modelFile);
    modelFile' := saved.1;
  }
}
