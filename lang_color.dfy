/** `getLanguageColor` in `lang-color.helper.ts`: the badge colour of a
    language, looked up by its exact (lower-case) key. */
module LangColor {
  /** `LANGUAGE_COLOR_MAP`. */
  const LanguageColors: map<string, string> := map[
    "rust" := "#795548",
    "javascript" := "#9CCC65",
    "js" := "#9CCC65",
    "jsx" := "#9CCC65",
    "svelte" := "#9CCC65",
    "vue" := "#9CCC65",
    "dart" := "#5C6BC0",
    "py" := "#0288D1",
    "python" := "#0288D1",
    "ruby" := "#FF8A65",
    "rb" := "#FF8A65",
    "toml" := "#9FA8DA",
    "md" := "#FFFDE7",
    "html" := "#80CBC4",
    "css" := "#FFCA28",
    "scss" := "#FFCA28",
    "less" := "#FFCA28",
    "xml" := "#4E342E",
    "xhtml" := "#80CBC4",
    "ts" := "#1A237E",
    "tsx" := "#1A237E",
    "typescript" := "#1A237E",
    "java" := "#004D40",
    "yaml" := "#C2185B",
    "json" := "#C2185B",
    "plaintext" := "#EEEEEE",
    "kotlin" := "#880E4F",
    "swift" := "#A5D6A7",
    "xcodeconfig" := "#BDBDBD",
    "d" := "#BDBDBD",
    "shell" := "#90A4AE",
    "batch" := "#546E7A",
    "objective-c" := "#F57C00",
    "objectivec" := "#F57C00",
    "bash" := "#90A4AE",
    "cmake" := "#B39DDB",
    "c++" := "#BF360C"]

  /** The colour of a language with no entry. */
  const DefaultColor: string := "#CFD8DC"

  /** Every colour in the table is a non-empty string, so no entry is
      falsy. */
  lemma ColorsNonEmpty()
    ensures forall lang :: lang in LanguageColors ==> LanguageColors[lang] != ""
  {
    forall lang | lang in LanguageColors
      ensures LanguageColors[lang] != ""
    {
      assert |LanguageColors[lang]| == 7;
    }
  }

  /** `getLanguageColor`: the table's colour when there is a truthy one,
      else the default. */
  function GetLanguageColor(lang: string): (color: string)
    ensures lang in LanguageColors ==> color == LanguageColors[lang]
    ensures lang !in LanguageColors ==> color == DefaultColor
    ensures color != ""
  {
    ColorsNonEmpty();
    if lang in LanguageColors && LanguageColors[lang] != "" then LanguageColors[lang] else DefaultColor
  }

  /** The three JavaScript keys share one colour. */
  lemma ScriptAliases()
    ensures GetLanguageColor("javascript") == GetLanguageColor("js") == GetLanguageColor("jsx") == "#9CCC65"
  {
  }

  /** The lookup is case-sensitive: "rust" has its colour, "Rust" gets
      the default. */
  lemma CaseSensitive()
    ensures GetLanguageColor("rust") == "#795548"
    ensures GetLanguageColor("Rust") == DefaultColor
  {
    assert LanguageColors["rust"] == "#795548";
    assert "Rust" !in LanguageColors by {
      forall k | k in LanguageColors
        ensures k != "Rust"
      {
        assert k[0] != 'R' || |k| == 0;
      }
    }
  }
}
