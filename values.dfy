/** Parsed documents: the values that serde_json, toml and serde_yaml hand
    back, restricted to what the code inspects. */
module Values {
  import opened Wrappers

  /** A parsed value. Numbers are integers; an object keeps its members in
      the order the parser yields them. */
  datatype Value =
    | Null
    | Bool(b: bool)
    | Num(n: int)
    | Str(s: string)
    | Arr(items: seq<Value>)
    | Obj(members: seq<(string, Value)>)

  /** The first member of `ms` named `key`. */
  function Lookup(ms: seq<(string, Value)>, key: string): (r: Option<Value>)
    ensures r.None? <==> forall i :: 0 <= i < |ms| ==> ms[i].0 != key
    ensures r.Some? ==> exists i :: 0 <= i < |ms| && ms[i] == (key, r.value) && KeyAbsent(ms[..i], key)
  {
    if ms == [] then None
    else if ms[0].0 == key then
      assert ms[0] == (key, ms[0].1) && KeyAbsent(ms[..0], key);
      Some(ms[0].1)
    else
      var r := Lookup(ms[1..], key);
      if r.None? then r
      else
        var i :| 0 <= i < |ms| - 1 && ms[1..][i] == (key, r.value) && KeyAbsent(ms[1..][..i], key);
        assert ms[..i + 1] == [ms[0]] + ms[1..][..i];
        assert ms[i + 1] == (key, r.value) && KeyAbsent(ms[..i + 1], key);
        r
  }

  /** No member of `ms` has the key. */
  predicate KeyAbsent(ms: seq<(string, Value)>, key: string)
  {
    forall j :: 0 <= j < |ms| ==> ms[j].0 != key
  }

  /** `value.get(key)`: the member named `key` of an object; None for a
      missing member and for a value that is not an object. */
  function Get(v: Value, key: string): (r: Option<Value>)
    ensures !v.Obj? ==> r.None?
    ensures v.Obj? ==> r == Lookup(v.members, key)
  {
    if v.Obj? then Lookup(v.members, key) else None
  }

  /** `value.as_str()`. */
  function AsStr(v: Value): (r: Option<string>)
    ensures r.Some? <==> v.Str?
    ensures r.Some? ==> r.value == v.s
  {
    if v.Str? then Some(v.s) else None
  }

  /** The decimal digits of `n`. */
  function NatToString(n: nat): (r: string)
    ensures |r| >= 1
    ensures forall i :: 0 <= i < |r| ==> '0' <= r[i] <= '9'
  {
    var d := [(n % 10) as char + '0'];
    if n < 10 then d else NatToString(n / 10) + d
  }

  function IntToString(n: int): string
  {
    if n < 0 then "-" + NatToString(-n) else NatToString(n)
  }

    /** The single-letter escape serde_json writes for a character, if it
      has one. */
  function ShortEscape(c: char): Option<char>
  {
    if c == '"' then Some('"')
    else if c == '\\' then Some('\\')
    else if c == '\n' then Some('n')
    else if c == '\r' then Some('r')
    else if c == '\t' then Some('t')
    else if c == 8 as char then Some('b')
    else if c == 12 as char then Some('f')
    else None
  }

  /** A character written as itself inside a JSON string. */
  predicate PlainChar(c: char)
  {
    c != '"' && c != '\\' && c as int >= 0x20
  }

  /** A string whose characters are all written as themselves. */
  predicate Plain(s: string)
  {
    forall i :: 0 <= i < |s| ==> PlainChar(s[i])
  }

  /** A lower-case hexadecimal digit. */
  function HexDigit(d: nat): (c: char)
    requires d < 16
    ensures HexValue(c) == Some(d)
  {
    if d < 10 then ('0' as int + d) as char else ('a' as int + d - 10) as char
  }

  /** How one character is written inside a JSON string: a single-letter
      escape, `\u00XX` for the other control characters, else itself. */
  function EscapeChar(c: char): (r: string)
    ensures PlainChar(c) <==> r == [c]
  {
    if ShortEscape(c).Some? then ['\\', ShortEscape(c).value]
    else if c as int < 0x20 then "\\u00" + [HexDigit(c as int / 16), HexDigit(c as int % 16)]
    else [c]
  }

  /** The body of a JSON string literal holding `s`. */
  function Escape(s: string): (r: string)
    ensures Plain(s) ==> r == s
    ensures !Plain(s) ==> |r| > |s|
    ensures |r| >= |s|
  {
    if s == [] then []
    else
      var r := EscapeChar(s[0]) + Escape(s[1..]);
      assert Plain(s) <==> PlainChar(s[0]) && Plain(s[1..]);
      r
  }

  /** The value of a hexadecimal digit in either case. */
  function HexValue(c: char): (r: Option<nat>)
    ensures r.Some? ==> r.value < 16
  {
    if '0' <= c <= '9' then Some(c as int - '0' as int)
    else if 'a' <= c <= 'f' then Some(c as int - 'a' as int + 10)
    else if 'A' <= c <= 'F' then Some(c as int - 'A' as int + 10)
    else None
  }

  /** Four hexadecimal digits read as a number. */
  function Hex4(q: string): (r: Option<nat>)
    requires |q| == 4
    ensures r.Some? ==> r.value < 0x10000
  {
    if HexValue(q[0]).Some? && HexValue(q[1]).Some? && HexValue(q[2]).Some? && HexValue(q[3]).Some? then
      Some(HexValue(q[0]).value * 4096 + HexValue(q[1]).value * 256 + HexValue(q[2]).value * 16 + HexValue(q[3]).value)
    else None
  }

  /** The character a single-letter escape stands for. */
  function Unshort(e: char): Option<char>
  {
    if e == '"' then Some('"')
    else if e == '\\' then Some('\\')
    else if e == '/' then Some('/')
    else if e == 'b' then Some(8 as char)
    else if e == 'f' then Some(12 as char)
    else if e == 'n' then Some('\n')
    else if e == 'r' then Some('\r')
    else if e == 't' then Some('\t')
    else None
  }

  function Prepend(c: char, rest: Option<string>): Option<string>
  {
    if rest.Some? then Some([c] + rest.value) else None
  }

  /** The character the four digits of a `\u` escape name; a surrogate
      is refused. */
  function UnicodeEscape(q: string): Option<char>
    requires |q| == 4
  {
    match Hex4(q)
    case None => None
    case Some(v) => if 0xD800 <= v < 0xE000 then None else Some(v as char)
  }

  /** Reading the body of a JSON string literal back: None where it is not
      valid JSON (an unescaped quote or control character, an unknown
      escape). */
  function Unescape(t: string): Option<string>
    decreases |t|
  {
    if t == [] then Some([])
    else if t[0] == '"' || t[0] as int < 0x20 then None
    else if t[0] != '\\' then Prepend(t[0], Unescape(t[1..]))
    else if |t| < 2 then None
    else if t[1] == 'u' then
      if |t| < 6 then None
      else match UnicodeEscape(t[2..6])
        case None => None
        case Some(c) => Prepend(c, Unescape(t[6..]))
    else match Unshort(t[1])
      case None => None
      case Some(c) => Prepend(c, Unescape(t[2..]))
  }

  /** Reading back one written character. */
  lemma UnescapeChar(c: char, rest: string)
    ensures Unescape(EscapeChar(c) + rest) == Prepend(c, Unescape(rest))
  {
    var t := EscapeChar(c) + rest;
    if ShortEscape(c).Some? {
      assert t[2..] == rest;
    } else if c as int < 0x20 {
      var n := c as int;
      assert t[2..6] == ['0', '0', HexDigit(n / 16), HexDigit(n % 16)];
      assert Hex4(t[2..6]) == Some(n);
      assert UnicodeEscape(t[2..6]) == Some(c);
      assert t[6..] == rest;
    } else {
      assert t[1..] == rest;
    }
  }

  /** Escaping round-trips: a JSON reader gets the original string back. */
  lemma {:induction false} UnescapeEscape(s: string)
    ensures Unescape(Escape(s)) == Some(s)
  {
    if s != [] {
      UnescapeChar(s[0], Escape(s[1..]));
      UnescapeEscape(s[1..]);
      assert [s[0]] + s[1..] == s;
    }
  }

  /** `serde_json`'s serialisation of a string: the escaped string between
      two quotes, which reads back as the string. */
  function Quote(s: string): (r: string)
    ensures |r| >= |s| + 2 && r[0] == '"' && r[|r| - 1] == '"'
    ensures Unescape(r[1..|r| - 1]) == Some(s)
    ensures Plain(s) <==> r[1..|r| - 1] == s
  {
    UnescapeEscape(s);
    var r := "\"" + Escape(s) + "\"";
    assert r[1..|r| - 1] == Escape(s);
    r
  }

  /** Escaping works character by character. */
  lemma {:induction false} EscapeAppend(a: string, b: string)
    ensures Escape(a + b) == Escape(a) + Escape(b)
  {
    if a == [] {
      assert a + b == b;
    } else {
      assert (a + b)[0] == a[0];
      assert (a + b)[1..] == a[1..] + b;
      EscapeAppend(a[1..], b);
      assert Escape(a + b) == EscapeChar(a[0]) + (Escape(a[1..]) + Escape(b));
    }
  }

  /** A quote or a backslash inside a string is written escaped. */
  lemma QuoteEscapesQuotes()
    ensures Quote("\"") == "\"\\\"\""
    ensures Quote("\\") == "\"\\\\\""
  {
    assert Escape("\"") == "\\\"";
    assert Escape("\\") == "\\\\";
  }

  /** Items separated by commas. */
  function Join(parts: seq<string>): string
  {
    if parts == [] then ""
    else if |parts| == 1 then parts[0]
    else parts[0] + "," + Join(parts[1..])
  }

  /** `value.to_string()`: the compact serialised form of a value. A string
      value keeps its quotes. */
  function Render(v: Value): string
  {
    match v
    case Null => "null"
    case Bool(b) => if b then "true" else "false"
    case Num(n) => IntToString(n)
    case Str(s) => Quote(s)
    case Arr(items) =>
      "[" + Join(seq(|items|, i requires 0 <= i < |items| => Render(items[i]))) + "]"
    case Obj(ms) =>
      "{" + Join(seq(|ms|, i requires 0 <= i < |ms| => Quote(ms[i].0) + ":" + Render(ms[i].1))) + "}"
  }

  /** The serialised form of a string is never the string itself: it is
      at least two characters longer and starts with a quote. */
  lemma RenderStrQuoted(s: string)
    ensures Render(Str(s)) != s
    ensures |Render(Str(s))| >= |s| + 2 && Render(Str(s))[0] == '"'
  {
  }
}
