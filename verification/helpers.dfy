/** The decisions in `utils/helpers.py`: which kind a file is, and which
    rendering a format name selects when a schema is saved or displayed. */
module Helpers {
  import opened Wrappers
  import opened Text
  import opened Model
  import Xsd
  import Pretty

  // ---- posixpath.splitext ----

  /** No `c` occurs in `s` after index `i`. */
  predicate NoneAfter(s: string, c: char, i: int) {
    forall j :: i < j < |s| && 0 <= j ==> s[j] != c
  }

  /** `s.rfind(c)`: the index of the last `c`, or -1 when there is none. */
  function RFind(s: string, c: char): (i: int)
    ensures -1 <= i < |s|
    ensures i >= 0 ==> s[i] == c
    ensures NoneAfter(s, c, i)
  {
    if s == [] then -1
    else if s[|s| - 1] == c then |s| - 1
    else RFind(s[..|s| - 1], c)
  }

  /** Some character of `p[lo..hi]` is not a dot. */
  predicate NonDotBetween(p: string, lo: int, hi: int)
    requires 0 <= lo && hi <= |p|
  {
    exists j :: lo <= j < hi && p[j] != '.'
  }

  /** `posixpath.splitext(p)`: the extension runs from the last dot of the
      base name to the end, unless every character before that dot in the
      base name is a dot too (`.bashrc`, `..x`). */
  function SplitExt(p: string): (r: (string, string))
    ensures r.0 + r.1 == p
    ensures r.1 == [] || (r.1[0] == '.' && '/' !in r.1 && '.' !in r.1[1..])
  {
    var sep := RFind(p, '/');
    var dot := RFind(p, '.');
    if dot > sep && NonDotBetween(p, sep + 1, dot) then (p[..dot], p[dot..]) else (p, [])
  }

  /** `p` has an extension exactly when its base name (what follows the last
      '/') holds a dot that comes after some character other than a dot. */
  lemma SplitExtNonEmpty(p: string)
    ensures SplitExt(p).1 != [] <==>
      exists j, d :: RFind(p, '/') < j < d < |p| && p[j] != '.' && p[d] == '.'
  {
    var sep := RFind(p, '/');
    var dot := RFind(p, '.');
    if exists j, d :: sep < j < d < |p| && p[j] != '.' && p[d] == '.' {
      var j, d :| sep < j < d < |p| && p[j] != '.' && p[d] == '.';
      assert d <= dot;
      assert NonDotBetween(p, sep + 1, dot);
    }
    if SplitExt(p).1 != [] {
      var j :| sep + 1 <= j < dot && p[j] != '.';
      assert sep < j < dot < |p| && p[j] != '.' && p[dot] == '.';
    }
  }

  /** `rfind` returns the `c` after which no `c` follows. */
  lemma RFindAt(s: string, c: char, i: int)
    requires -1 <= i < |s|
    requires i >= 0 ==> s[i] == c
    requires NoneAfter(s, c, i)
    ensures RFind(s, c) == i
  {
    var r := RFind(s, c);
    assert NoneAfter(s, c, r);
    assert i >= 0 ==> i <= r;
    assert r >= 0 ==> r <= i;
  }

  /** Characters appended after the last `c` leave `rfind` unchanged. */
  lemma RFindSkip(a: string, b: string, c: char)
    requires c !in b
    ensures RFind(a + b, c) == RFind(a, c)
  {
    var i := RFind(a, c);
    assert NoneAfter(a, c, i);
    forall j | i < j < |a + b|
      ensures (a + b)[j] != c
    {
      if j < |a| { assert (a + b)[j] == a[j]; } else { assert (a + b)[j] == b[j - |a|]; }
    }
    assert i >= 0 ==> (a + b)[i] == a[i];
    RFindAt(a + b, c, i);
  }

  /** In `a + [c] + b` with no `c` in `b`, the `c` between them is the last. */
  lemma LastOf(a: string, b: string, c: char)
    requires c !in b
    ensures (a + [c] + b)[|a|] == c
    ensures NoneAfter(a + [c] + b, c, |a|)
  {
    var p := a + [c] + b;
    forall j | |a| < j < |p|
      ensures p[j] != c
    {
      assert p[j] == b[j - |a| - 1];
    }
  }

  /** After a `c` followed only by other characters, `rfind` finds that `c`. */
  lemma RFindLast(a: string, b: string, c: char)
    requires c !in b
    ensures RFind(a + [c] + b, c) == |a|
  {
    LastOf(a, b, c);
    RFindAt(a + [c] + b, c, |a|);
  }

  /** The split `splitext` makes once the last '/' and last '.' are known. */
  lemma SplitExtAt(p: string, sep: int, dot: int, j: int)
    requires RFind(p, '/') == sep && RFind(p, '.') == dot
    requires sep < j < dot && p[j] != '.'
    ensures SplitExt(p) == (p[..dot], p[dot..])
  {
    assert NonDotBetween(p, sep + 1, dot);
  }

  /** Splitting a name built from a stem and a dot-free extension recovers
      both, provided the stem's base name is not all dots. */
  lemma SplitExtOf(stem: string, ext: string)
    requires '.' !in ext && '/' !in ext
    requires exists j :: RFind(stem, '/') < j < |stem| && stem[j] != '.'
    ensures SplitExt(stem + "." + ext) == (stem, "." + ext)
  {
    var tail := "." + ext;
    var p := stem + tail;
    assert stem + "." + ext == p == stem + ['.'] + ext;
    RFindLast(stem, ext, '.');
    assert '/' !in tail;
    RFindSkip(stem, tail, '/');
    var j :| RFind(stem, '/') < j < |stem| && stem[j] != '.';
    assert p[j] == stem[j];
    SplitExtAt(p, RFind(stem, '/'), |stem|, j);
    assert p[..|stem|] == stem && p[|stem|..] == tail;
  }

  // ---- detect_file_type ----

  const XmlExtensions: seq<string> := [".xml", ".xhtml", ".svg"]
  const JsonExtensions: seq<string> := [".json", ".js"]

  /** The extension of the lower-cased path. */
  function Extension(path: string): string {
    SplitExt(AsciiLower(path)).1
  }

  /** How many characters `f.read(1024)` returns. */
  function HeadLength(c: string): nat {
    if |c| < 1024 then |c| else 1024
  }

  /** Sniffing the content: `None` stands for a file whose first 1024
      characters could not be read or decoded, which the source swallows. */
  function Sniff(content: Option<string>): (t: string)
    ensures t in ["xml", "json", "unknown"]
  {
    match content
    case None => "unknown"
    case Some(c) =>
      var h := Strip(c[..HeadLength(c)]);
      if StartsWith(h, "<?xml") || StartsWith(h, "<") then "xml"
      else if StartsWith(h, "{") || StartsWith(h, "[") then "json"
      else "unknown"
  }

  /** `detect_file_type(path)`: `found` says whether the path exists and
      `content` is what reading it yields. */
  function DetectFileType(path: string, found: bool, content: Option<string>): (r: Result<string>)
    ensures r.Err? <==> !found
    ensures r.Err? ==> r.error == FileNotFound(path)
    ensures r.Ok? ==> r.value in ["xml", "json", "unknown"]
  {
    if !found then Err(FileNotFound(path))
    else
      var ext := Extension(path);
      if ext in XmlExtensions then Ok("xml")
      else if ext in JsonExtensions then Ok("json")
      else Ok(Sniff(content))
  }

  /** Among the first 1024 characters, the first one that is not
      whitespace is `ch`. */
  ghost predicate FirstVisible(c: string, ch: char) {
    exists i :: 0 <= i < HeadLength(c) && c[i] == ch && forall k :: 0 <= k < i ==> IsSpace(c[k])
  }

  /** `ch` is the first visible character of the head exactly when the
      head's leading whitespace ends just before a `ch`. */
  lemma FirstVisibleLead(c: string, ch: char)
    requires !IsSpace(ch)
    ensures var head := c[..HeadLength(c)];
      var lead := LeadingSpaces(head);
      FirstVisible(c, ch) <==> lead < |head| && head[lead] == ch
  {
    var head := c[..HeadLength(c)];
    var lead := LeadingSpaces(head);
    if FirstVisible(c, ch) {
      var i :| 0 <= i < HeadLength(c) && c[i] == ch && forall k :: 0 <= k < i ==> IsSpace(c[k]);
      assert head[i] == ch;
      assert forall k :: 0 <= k < i ==> IsSpace(head[k]);
      assert lead == i;
    }
    if lead < |head| && head[lead] == ch {
      assert c[lead] == ch;
      assert forall k :: 0 <= k < lead ==> IsSpace(c[k]) by {
        assert forall k :: 0 <= k < lead ==> head[k] == c[k];
      }
    }
  }

  /** Stripping the head leaves it starting with the first visible
      character. */
  lemma FirstVisibleAt(c: string, ch: char)
    requires !IsSpace(ch)
    ensures var h := Strip(c[..HeadLength(c)]);
      FirstVisible(c, ch) <==> h != [] && h[0] == ch
  {
    FirstVisibleLead(c, ch);
    StripFirst(c[..HeadLength(c)]);
  }

  /** Sniffing as a rule: the first visible character among the first
      1024 decides — '<' for XML, '{' or '[' for JSON. */
  lemma SniffRule(c: string)
    ensures Sniff(Some(c)) == "xml" <==> FirstVisible(c, '<')
    ensures Sniff(Some(c)) == "json" <==> FirstVisible(c, '{') || FirstVisible(c, '[')
  {
    SniffFirst(c);
    FirstVisibleAt(c, '<');
    FirstVisibleAt(c, '{');
    FirstVisibleAt(c, '[');
  }

  /** Sniffing looks only at the first character of the stripped head. */
  lemma SniffFirst(c: string)
    ensures var h := Strip(c[..HeadLength(c)]);
      Sniff(Some(c)) ==
        if h != [] && h[0] == '<' then "xml"
        else if h != [] && (h[0] == '{' || h[0] == '[') then "json"
        else "unknown"
  {
    var h := Strip(c[..HeadLength(c)]);
    OneCharPrefix(h, '<');
    OneCharPrefix(h, '{');
    OneCharPrefix(h, '[');
    assert StartsWith(h, "<?xml") ==> StartsWith(h, "<") by {
      if StartsWith(h, "<?xml") {
        assert h[0] == "<?xml"[0];
      }
    }
  }

  lemma OneCharPrefix(h: string, ch: char)
    ensures StartsWith(h, [ch]) <==> h != [] && h[0] == ch
  {
    if h != [] && h[0] == ch {
      assert h[..1] == [ch];
    }
  }

  /** Detection as a rule: a recognised extension decides; otherwise the
      content is sniffed, and an unreadable file is unknown. */
  lemma DetectFileTypeRule(path: string, content: Option<string>)
    ensures var r := DetectFileType(path, true, content);
      var ext := Extension(path);
      var sniffed := ext !in XmlExtensions && ext !in JsonExtensions && content.Some?;
      && (r == Ok("xml") <==> ext in XmlExtensions || (sniffed && FirstVisible(content.value, '<')))
      && (r == Ok("json") <==>
            ext in JsonExtensions
            || (sniffed && (FirstVisible(content.value, '{') || FirstVisible(content.value, '['))))
  {
    var ext := Extension(path);
    assert ext in XmlExtensions ==> ext !in JsonExtensions;
    if content.Some? {
      SniffRule(content.value);
    }
  }

  /** A recognised extension decides regardless of the path's case or of
      what the file holds. */
  lemma ExtensionDecides(path: string, c1: Option<string>, c2: Option<string>)
    requires Extension(path) in XmlExtensions || Extension(path) in JsonExtensions
    ensures DetectFileType(path, true, c1) == DetectFileType(AsciiLower(path), true, c2)
  {
    AsciiLowerIdempotent(path);
  }

  lemma AsciiLowerIdempotent(s: string)
    ensures AsciiLower(AsciiLower(s)) == AsciiLower(s)
  {
    forall i | 0 <= i < |s|
      ensures AsciiLower(AsciiLower(s))[i] == AsciiLower(s)[i]
    {
      assert AsciiLowerChar(AsciiLowerChar(s[i])) == AsciiLowerChar(s[i]);
    }
  }

  // ---- save_schema and format_schema_output ----

  /** What ends up in the file or on screen: the JSON dump of `to_dict()`,
      which this model does not render, or a rendered text. */
  datatype Output = DictJson | Rendered(text: string)

  /** `format_schema_output(schema, format)`: the format name is matched
      exactly, case included. */
  function FormatSchemaOutput(s: Schema, format: string): (r: Result<Output>)
    ensures r.Ok? <==> format in ["json", "xsd", "pretty"]
    ensures r.Err? ==> r.error == UnsupportedFormat(format)
    ensures r.Ok? && r.value.Rendered? ==>
      r.value.text == Xsd.ToXsd(s) || r.value.text == Pretty.FormatSchemaPretty(s)
  {
    if format == "json" then Ok(DictJson)
    else if format == "xsd" then Ok(Rendered(Xsd.ToXsd(s)))
    else if format == "pretty" then Ok(Rendered(Pretty.FormatSchemaPretty(s)))
    else Err(UnsupportedFormat(format))
  }

  /** `save_schema(schema, path, format)`: what would be written. The
      format name is lower-cased first, and "dict" is a second name for
      "json". */
  function SaveSchema(s: Schema, format: string): (r: Result<Output>)
    ensures r.Ok? <==> AsciiLower(format) in ["json", "xsd", "dict"]
    ensures r.Err? ==> r.error == UnsupportedFormat(format)
  {
    var f := AsciiLower(format);
    if f == "json" then Ok(DictJson)
    else if f == "xsd" then Ok(Rendered(Xsd.ToXsd(s)))
    else if f == "dict" then Ok(DictJson)
    else Err(UnsupportedFormat(format))
  }

  /** Saving ignores the case of the format name: an accepted spelling
      writes the same thing as its lower-case form. */
  lemma SaveCaseInsensitive(s: Schema, format: string)
    requires SaveSchema(s, format).Ok?
    ensures SaveSchema(s, format) == SaveSchema(s, AsciiLower(format))
  {
    AsciiLowerIdempotent(format);
  }

  /** "json" and "dict" write the same file. */
  lemma SaveJsonIsDict(s: Schema, f: string, g: string)
    requires AsciiLower(f) in ["json", "dict"] && AsciiLower(g) in ["json", "dict"]
    ensures SaveSchema(s, f) == SaveSchema(s, g) == Ok(DictJson)
  {
  }

  /** Where both accept a lower-case format name they produce the same
      content; display rejects any other spelling that saving accepts. */
  lemma FormatAgainstSave(s: Schema, format: string)
    ensures format in ["json", "xsd"] ==> FormatSchemaOutput(s, format) == SaveSchema(s, format)
    ensures format !in ["json", "xsd", "pretty"] && SaveSchema(s, format).Ok? ==>
      FormatSchemaOutput(s, format).Err?
  {
    if format in ["json", "xsd"] {
      assert AsciiLower("json") == "json";
      assert AsciiLower("xsd") == "xsd";
    }
  }
}
