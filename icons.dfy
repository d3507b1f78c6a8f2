/** `getIconForProject` in `icon.helper.ts`: the path of a project type's
    icon, looked up by its exact (lower-case) key. */
module Icons {
  import opened Paths
  import opened FileHandler

  /** `projectTypeIconMap`. */
  const IconFiles: map<string, string> := map[
    "angular" := "angular.svg",
    "react" := "react.png",
    "flutter" := "flutter.svg",
    "nextjs" := "nextjs.svg",
    "node" := "node.png",
    "python" := "python.png",
    "ruby" := "ruby.png",
    "rust" := "rust.svg",
    "svelte" := "svelte.png",
    "vue" := "vue.png"]

  const IconDir: string := "/project-icons/"

  /** `getIconForProject`: the icon directory followed by the mapped file
      name; a key without an entry interpolates as "undefined". */
  function GetIconForProject(projectType: string): (path: string)
    ensures |IconDir| <= |path| && path[..|IconDir|] == IconDir
    ensures projectType in IconFiles ==> path == IconDir + IconFiles[projectType]
    ensures projectType !in IconFiles ==> path == IconDir + "undefined"
  {
    IconDir + (if projectType in IconFiles then IconFiles[projectType] else "undefined")
  }

  /** Lower-cased, every project type's name has an icon except
      ReactNative ("reactnative"), whose path ends in "undefined". */
  lemma IconPerProjectType(t: ProjectType)
    ensures Lower(TypeName(t)) in IconFiles <==> t != ReactNative
    ensures GetIconForProject(Lower(TypeName(ReactNative))) == IconDir + "undefined"
  {
    LowerTypeNamesA();
    LowerTypeNamesB();
  }

  lemma LowerTypeNamesA()
    ensures Lower("Rust") == "rust" && Lower("Python") == "python" && Lower("Flutter") == "flutter"
    ensures Lower("Ruby") == "ruby" && Lower("NextJs") == "nextjs" && Lower("Svelte") == "svelte"
  {
    assert Lower("Rust") == "rust";
    assert Lower("Python") == "python";
    assert Lower("Flutter") == "flutter";
    assert Lower("Ruby") == "ruby";
    assert Lower("NextJs") == "nextjs";
    assert Lower("Svelte") == "svelte";
  }

  lemma LowerTypeNamesB()
    ensures Lower("React") == "react" && Lower("ReactNative") == "reactnative" && Lower("Angular") == "angular"
    ensures Lower("Node") == "node" && Lower("Vue") == "vue"
  {
    assert Lower("React") == "react";
    assert Lower("ReactNative") == "reactnative";
    assert Lower("Angular") == "angular";
    assert Lower("Node") == "node";
    assert Lower("Vue") == "vue";
  }


  /** The lookup is case-sensitive: the serialised name itself, with its
      capital letter, has no icon. */
  lemma CaseSensitive()
    ensures GetIconForProject("rust") == "/project-icons/rust.svg"
    ensures GetIconForProject("Rust") == "/project-icons/undefined"
  {
    assert "Rust" !in IconFiles by {
      forall k | k in IconFiles
        ensures k != "Rust"
      {
        assert k[0] != 'R';
      }
    }
  }
}
