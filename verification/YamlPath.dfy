/** Reading a quoted YAML path into a template context. */
module YamlPath {
  import opened Strings
  import opened Contexts

  /** The reader between two characters: the segments done, the one begun, and the two flags. */
  datatype Reader = Reader(parts: seq<string>, buffer: string, inQuote: bool, escaped: bool)

  const START := Reader([], "", false, false)

  function Read(r: Reader, c: char): Reader {
    if r.escaped then r.(buffer := r.buffer + [c], escaped := false)
    else if c == '\\' then r.(escaped := true)
    else if c == '\'' then r.(inQuote := !r.inQuote)
    else if c == '.' && !r.inQuote then r.(parts := r.parts + [r.buffer], buffer := "")
    else r.(buffer := r.buffer + [c])
  }

  function ReadAll(r: Reader, s: string): Reader
    decreases |s|
  {
    if s == "" then r else ReadAll(Read(r, s[0]), s[1..])
  }

  predicate IsDigit(c: char) {
    '0' <= c <= '9'
  }

  /** The length of the trailing run of digits. */
  function TrailingDigits(s: string): (n: nat)
    ensures n <= |s|
    ensures forall k | |s| - n <= k < |s| :: IsDigit(s[k])
    ensures n < |s| ==> !IsDigit(s[|s|-n-1])
  {
    if s != "" && IsDigit(s[|s|-1]) then 1 + TrailingDigits(s[..|s|-1]) else 0
  }

  /** A trailing index `[n]` becomes `[]`. */
  function ConvertElement(element: string): string {
    if element == "" || element[|element|-1] != ']' then element
    else
      var init := element[..|element|-1];
      var n := TrailingDigits(init);
      if n > 0 && n < |init| && init[|init|-n-1] == '[' then init[..|init|-n-1] + "[]" else element
  }

  function ConvertAll(parts: seq<string>): (r: seq<string>)
    ensures |r| == |parts|
    ensures forall i | 0 <= i < |parts| :: r[i] == ConvertElement(parts[i])
  {
    if parts == [] then [] else [ConvertElement(parts[0])] + ConvertAll(parts[1..])
  }

  function StripRoot(path: string): string {
    if HasPrefix(path, "$.") then path[2..] else path
  }

  function Finish(r: Reader): seq<string> {
    if r.buffer != "" then r.parts + [r.buffer] else r.parts
  }

  function FromYamlPath(path: string): Context {
    if path == "$" then []
    else ConvertAll(Finish(ReadAll(START, StripRoot(path))))
  }

  method ReadSegments(rest: string) returns (parts: seq<string>)
    ensures parts == Finish(ReadAll(START, rest))
  {
    parts := [];
    var buffer := "";
    var inQuote, escaped := false, false;
    for i := 0 to |rest|
      invariant ReadAll(Reader(parts, buffer, inQuote, escaped), rest[i..]) == ReadAll(START, rest)
    {
      var c := rest[i];
      assert rest[i..][1..] == rest[i+1..];
      if escaped {
        buffer := buffer + [c];
        escaped := false;
      } else if c == '\\' {
        escaped := true;
      } else if c == '\'' {
        inQuote := !inQuote;
      } else if c == '.' && !inQuote {
        parts := parts + [buffer];
        buffer := "";
      } else {
        buffer := buffer + [c];
      }
    }
    if |buffer| > 0 {
      parts := parts + [buffer];
    }
  }

  method ConvertParts(read: seq<string>) returns (parts: seq<string>)
    ensures parts == ConvertAll(read)
  {
    parts := read;
    for i := 0 to |parts|
      invariant |parts| == |read|
      invariant forall k | 0 <= k < |parts| :: parts[k] == if k < i then ConvertElement(read[k]) else read[k]
    {
      parts := parts[i := ConvertElement(parts[i])];
    }
  }

  method TemplateContextFromYamlPath(path: string) returns (context: Context)
    ensures context == FromYamlPath(path)
  {
    var rest := path;
    if HasPrefix(path, "$.") {
      rest := path[2..];
    } else if path == "$" {
      return [];
    }
    var parts := ReadSegments(rest);
    context := ConvertParts(parts);
  }

  // ----- the printer -----

  function Escape(s: string): string {
    if s == "" then ""
    else (if s[0] == '\'' || s[0] == '\\' then ['\\', s[0]] else [s[0]]) + Escape(s[1..])
  }

  function Quote(s: string): string {
    "'" + Escape(s) + "'"
  }

  predicate Special(c: char) {
    c == '.' || c == '\'' || c == '\\'
  }

  /** A segment without quotes: what the reader treats specially stands behind a backslash, and nothing else changes. */
  function Bare(s: string): string {
    if s == "" then "" else (if Special(s[0]) then ['\\', s[0]] else [s[0]]) + Bare(s[1..])
  }

  predicate WrittenAs(text: string, segment: string) {
    text == Quote(segment) || text == Bare(segment)
  }

  /** Segments as they may be written, each bare or in quotes. */
  predicate Written(texts: seq<string>, segments: seq<string>) {
    |texts| == |segments| && forall i | 0 <= i < |segments| :: WrittenAs(texts[i], segments[i])
  }

  /** An ordinary segment is written as it is. */
  lemma {:induction false} PlainIsBare(s: string)
    requires forall c | c in s :: !Special(c)
    ensures Bare(s) == s
    decreases |s|
  {
    if s != "" {
      PlainIsBare(s[1..]);
      assert [s[0]] + s[1..] == s;
    }
  }

  lemma {:induction false} ReadAppend(r: Reader, s: string, t: string)
    ensures ReadAll(r, s + t) == ReadAll(ReadAll(r, s), t)
    decreases |s|
  {
    if s == "" {
      assert s + t == t;
    } else {
      assert (s + t)[1..] == s[1..] + t;
      ReadAppend(Read(r, s[0]), s[1..], t);
    }
  }

  lemma ReadEscapedChar(r: Reader, c: char)
    requires r.inQuote && !r.escaped
    ensures ReadAll(r, if c == '\'' || c == '\\' then ['\\', c] else [c]) == r.(buffer := r.buffer + [c])
  {
    if c == '\'' || c == '\\' {
      assert ['\\', c][1..] == [c] && [c][1..] == "";
      assert ReadAll(r, ['\\', c]) == ReadAll(Read(r, '\\'), [c]);
      assert ReadAll(Read(r, '\\'), [c]) == ReadAll(Read(Read(r, '\\'), c), "");
    } else {
      assert [c][1..] == "";
    }
  }

  lemma {:induction false} ReadEscaped(r: Reader, s: string)
    requires r.inQuote && !r.escaped
    ensures ReadAll(r, Escape(s)) == r.(buffer := r.buffer + s)
    decreases |s|
  {
    if s == "" {
      assert r.buffer + s == r.buffer;
    } else {
      var next := r.(buffer := r.buffer + [s[0]]);
      ReadEscapedChar(r, s[0]);
      ReadAppend(r, if s[0] == '\'' || s[0] == '\\' then ['\\', s[0]] else [s[0]], Escape(s[1..]));
      ReadEscaped(next, s[1..]);
      assert r.buffer + [s[0]] + s[1..] == r.buffer + s;
    }
  }

  lemma ReadQuoted(r: Reader, s: string)
    requires !r.inQuote && !r.escaped
    ensures ReadAll(r, Quote(s)) == r.(buffer := r.buffer + s)
  {
    var open := r.(inQuote := true);
    assert Quote(s) == "'" + (Escape(s) + "'");
    ReadAppend(r, "'", Escape(s) + "'");
    assert ReadAll(r, "'") == open by { assert "'"[1..] == ""; }
    ReadAppend(open, Escape(s), "'");
    ReadEscaped(open, s);
    var full := open.(buffer := r.buffer + s);
    assert ReadAll(full, "'") == full.(inQuote := false) by { assert "'"[1..] == ""; }
  }

  lemma ReadBareChar(r: Reader, c: char)
    requires !r.inQuote && !r.escaped
    ensures ReadAll(r, if Special(c) then ['\\', c] else [c]) == r.(buffer := r.buffer + [c])
  {
    if Special(c) {
      assert ['\\', c][1..] == [c] && [c][1..] == "";
      assert ReadAll(r, ['\\', c]) == ReadAll(Read(r, '\\'), [c]);
      assert ReadAll(Read(r, '\\'), [c]) == ReadAll(Read(Read(r, '\\'), c), "");
    } else {
      assert [c][1..] == "";
    }
  }

  lemma {:induction false} ReadBare(r: Reader, s: string)
    requires !r.inQuote && !r.escaped
    ensures ReadAll(r, Bare(s)) == r.(buffer := r.buffer + s)
    decreases |s|
  {
    if s == "" {
      assert r.buffer + s == r.buffer;
    } else {
      var next := r.(buffer := r.buffer + [s[0]]);
      ReadBareChar(r, s[0]);
      ReadAppend(r, if Special(s[0]) then ['\\', s[0]] else [s[0]], Bare(s[1..]));
      ReadBare(next, s[1..]);
      assert r.buffer + [s[0]] + s[1..] == r.buffer + s;
    }
  }

  lemma ReadSeparator(r: Reader, s: string)
    requires !r.inQuote && !r.escaped
    ensures ReadAll(r, "." + s) == ReadAll(r.(parts := r.parts + [r.buffer], buffer := ""), s)
  {
    assert ("." + s)[1..] == s;
  }

  lemma ReadWhole(parts: seq<string>, text: string, segment: string)
    requires WrittenAs(text, segment)
    ensures ReadAll(Reader(parts, "", false, false), text) == Reader(parts, segment, false, false)
  {
    if text == Quote(segment) {
      ReadQuoted(Reader(parts, "", false, false), segment);
    } else {
      ReadBare(Reader(parts, "", false, false), segment);
    }
    assert "" + segment == segment;
  }

  lemma ReadSegment(parts: seq<string>, text: string, segment: string, rest: string)
    requires WrittenAs(text, segment)
    ensures ReadAll(Reader(parts, "", false, false), text + ("." + rest)) ==
            ReadAll(Reader(parts + [segment], "", false, false), rest)
  {
    ReadWhole(parts, text, segment);
    ReadAppend(Reader(parts, "", false, false), text, "." + rest);
    ReadSeparator(Reader(parts, segment, false, false), rest);
  }

  lemma ReadFirst(parts: seq<string>, texts: seq<string>, segments: seq<string>)
    requires Written(texts, segments) && |segments| > 1
    ensures ReadAll(Reader(parts, "", false, false), Join(texts, '.')) ==
            ReadAll(Reader(parts + [segments[0]], "", false, false), Join(texts[1..], '.'))
  {
    assert texts[0] + ['.'] + Join(texts[1..], '.') == texts[0] + ("." + Join(texts[1..], '.'));
    ReadSegment(parts, texts[0], segments[0], Join(texts[1..], '.'));
  }

  /** Reading written segments leaves all but the last done, and the last in the buffer. */
  lemma {:induction false} ReadWritten(parts: seq<string>, texts: seq<string>, segments: seq<string>)
    requires Written(texts, segments) && segments != []
    ensures ReadAll(Reader(parts, "", false, false), Join(texts, '.')) ==
            Reader(parts + segments[..|segments|-1], segments[|segments|-1], false, false)
    decreases |segments|
  {
    var init, last := segments[..|segments|-1], segments[|segments|-1];
    if |segments| == 1 {
      ReadWhole(parts, texts[0], last);
      assert parts + init == parts;
    } else {
      var rest := segments[1..];
      ReadFirst(parts, texts, segments);
      ReadWritten(parts + [segments[0]], texts[1..], rest);
      assert parts + [segments[0]] + rest[..|rest|-1] == parts + init;
    }
  }

  lemma FinishedReader(r: Reader, segments: seq<string>)
    requires segments != [] && r.parts == [] + segments[..|segments|-1] && r.buffer == segments[|segments|-1]
    ensures Finish(r) == if segments[|segments|-1] != "" then segments else segments[..|segments|-1]
  {
    var init, last := segments[..|segments|-1], segments[|segments|-1];
    assert [] + init == init && init + [last] == segments;
  }

  /** What is read, but for an empty last segment, which is lost. */
  lemma SegmentsRead(texts: seq<string>, segments: seq<string>)
    requires Written(texts, segments)
    ensures Finish(ReadAll(START, Join(texts, '.'))) ==
            if segments == [] || segments[|segments|-1] != "" then segments else segments[..|segments|-1]
  {
    if segments != [] {
      ReadWritten([], texts, segments);
      FinishedReader(ReadAll(START, Join(texts, '.')), segments);
    }
  }

  lemma DotIsGuarded(text: string, segment: string)
    requires WrittenAs(text, segment) && |text| >= 2 && text[0] == '$'
    ensures text[1] != '.'
  {
    if text == Bare(segment) {
      assert text == [segment[0]] + Bare(segment[1..]);
    }
  }

  /** A joined path begins with `$.`, or is `$`, exactly if its first segment is written as a bare `$`. */
  lemma RootSegment(texts: seq<string>, segments: seq<string>)
    requires Written(texts, segments)
    ensures var path := Join(texts, '.');
            HasPrefix(path, "$.") || path == "$" <==> texts != [] && texts[0] == "$"
  {
    if texts != [] {
      var path, first := Join(texts, '.'), texts[0];
      assert |path| >= |first| && path[..|first|] == first;
      assert |texts| > 1 ==> path[|first|] == '.';
      assert |texts| == 1 ==> path == first;
      if |first| >= 2 && first[0] == '$' {
        DotIsGuarded(first, segments[0]);
        assert path[1] == first[1];
      }
    }
  }

  predicate LastIsNotEmpty(segments: seq<string>) {
    segments == [] || segments[|segments|-1] != ""
  }

  /** The reader inverts the printer, up to the conversion of trailing indexes, exactly when the last segment is not empty:
      segments may hold any characters, and each may be written in quotes or bare. */
  lemma PrintRoundTrip(texts: seq<string>, segments: seq<string>)
    requires Written(texts, segments)
    ensures FromYamlPath("$." + Join(texts, '.')) == ConvertAll(segments) <==> LastIsNotEmpty(segments)
  {
    var path := "$." + Join(texts, '.');
    assert "$." <= path && path[2..] == Join(texts, '.') && path != "$";
    SegmentsRead(texts, segments);
    if !LastIsNotEmpty(segments) {
      assert |ConvertAll(segments[..|segments|-1])| != |ConvertAll(segments)|;
    }
  }

  /** Without the leading `$.` the same is read, unless the first segment is written as a bare `$`: that is taken for the root. */
  lemma RootlessRoundTrip(texts: seq<string>, segments: seq<string>)
    requires Written(texts, segments)
    ensures FromYamlPath(Join(texts, '.')) == ConvertAll(segments) <==>
            LastIsNotEmpty(segments) && (texts == [] || texts[0] != "$")
  {
    RootSegment(texts, segments);
    SegmentsRead(texts, segments);
    if texts != [] && texts[0] == "$" {
      RootIsDropped(texts, segments);
    } else if !LastIsNotEmpty(segments) {
      assert |ConvertAll(segments[..|segments|-1])| != |ConvertAll(segments)|;
    }
  }

  lemma RootIsDropped(texts: seq<string>, segments: seq<string>)
    requires Written(texts, segments) && texts != [] && texts[0] == "$"
    ensures |FromYamlPath(Join(texts, '.'))| < |segments|
  {
    if |texts| > 1 {
      var path := Join(texts, '.');
      assert path == "$" + ['.'] + Join(texts[1..], '.') && path[2..] == Join(texts[1..], '.');
      assert "$." <= path;
      SegmentsRead(texts[1..], segments[1..]);
    }
  }

  /** `$` alone is the root. */
  lemma RootIsEmpty()
    ensures FromYamlPath("$") == []
  {
  }

  /** A trailing `[n]`, split into what comes before it and its digits. */
  predicate Indexed(element: string, stem: string, digits: string) {
    element == stem + "[" + digits + "]" && digits != "" && forall c | c in digits :: IsDigit(c)
  }

  lemma {:induction false} DigitsCounted(stem: string, digits: string)
    requires forall c | c in digits :: IsDigit(c)
    ensures TrailingDigits(stem + "[" + digits) == |digits|
    decreases |digits|
  {
    var text := stem + "[" + digits;
    if digits != "" {
      DigitsCounted(stem, digits[..|digits|-1]);
      assert text[..|text|-1] == stem + "[" + digits[..|digits|-1];
    }
  }

  lemma IndexesConverted(element: string, stem: string, digits: string)
    requires Indexed(element, stem, digits)
    ensures ConvertElement(element) == stem + "[]"
  {
    var init := element[..|element|-1];
    assert init == stem + "[" + digits;
    DigitsCounted(stem, digits);
    assert init[..|stem|] == stem;
  }

  /** Conversion rewrites a trailing `[n]` to `[]` and touches nothing else. */
  lemma ConvertsExactlyIndexes(element: string)
    ensures forall stem, digits | Indexed(element, stem, digits) :: ConvertElement(element) == stem + "[]"
    ensures (forall stem, digits :: !Indexed(element, stem, digits)) ==> ConvertElement(element) == element
  {
    forall stem, digits | Indexed(element, stem, digits) ensures ConvertElement(element) == stem + "[]" {
      IndexesConverted(element, stem, digits);
    }
    if ConvertElement(element) != element {
      var init := element[..|element|-1];
      var n := TrailingDigits(init);
      var stem, digits := init[..|init|-n-1], init[|init|-n..];
      assert element == stem + "[" + digits + "]";
      assert Indexed(element, stem, digits);
    }
  }
}
