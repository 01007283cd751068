/** The text of .config files: escaping, the patterns of lines, and the splitting into lines. */
module KconfigText {
  import opened KconfigSyntax

  /* Escaping */

  /** str.replace for a single character. */
  function ReplaceChar(s: string, c: char, repl: string): string {
    if s == [] then []
    else (if s[0] == c then repl else [s[0]]) + ReplaceChar(s[1..], c, repl)
  }

  function Escape(s: string): string {
    ReplaceChar(ReplaceChar(s, '\\', "\\\\"), '"', "\\\"")
  }

  /** Every backslash that is followed by a character of the same line is dropped. */
  function Unescape(s: string): string {
    if s == [] then []
    else if s[0] == '\\' && |s| > 1 && s[1] != '\n' then [s[1]] + Unescape(s[2..])
    else [s[0]] + Unescape(s[1..])
  }

  /** The contents of a quoted string up to the first quote that no backslash precedes. */
  function StringBody(s: string): Option<string> {
    if s == [] then None
    else if s[0] == '"' then Some([])
    else if s[0] == '\\' then
      if |s| > 1 && s[1] != '\n' then
        match StringBody(s[2..])
        case Some(body) => Some(s[..2] + body)
        case None => None
      else None
    else
      match StringBody(s[1..])
      case Some(body) => Some([s[0]] + body)
      case None => None
  }

  function StringMatch(s: string): Option<string> {
    if s != [] && s[0] == '"' then StringBody(s[1..]) else None
  }

  predicate Clean(s: string) {
    forall k :: 0 <= k < |s| ==> s[k] != '\n' && s[k] != '\r'
  }

  lemma {:induction false} ReplaceCharCons(c: char, s: string, from: char, repl: string)
    ensures ReplaceChar([c] + s, from, repl) == (if c == from then repl else [c]) + ReplaceChar(s, from, repl)
  {
    assert ([c] + s)[1..] == s;
  }

  function EscapeChar(c: char): string {
    if c == '\\' then "\\\\" else if c == '"' then "\\\"" else [c]
  }

  lemma {:induction false} EscapeCons(c: char, s: string)
    ensures Escape([c] + s) == EscapeChar(c) + Escape(s)
  {
    var t := ReplaceChar(s, '\\', "\\\\");
    ReplaceCharCons(c, s, '\\', "\\\\");
    if c == '\\' {
      assert "\\\\" + t == ['\\'] + (['\\'] + t);
      ReplaceCharCons('\\', ['\\'] + t, '"', "\\\"");
      ReplaceCharCons('\\', t, '"', "\\\"");
      assert ['\\'] + (['\\'] + Escape(s)) == "\\\\" + Escape(s);
    } else {
      ReplaceCharCons(c, t, '"', "\\\"");
    }
  }

  lemma {:induction false} EscapeClean(s: string)
    requires Clean(s)
    ensures Clean(Escape(s))
  {
    if s != [] {
      assert s == [s[0]] + s[1..];
      EscapeCons(s[0], s[1..]);
      EscapeClean(s[1..]);
    }
  }

  /** Escaping is undone by unescaping, for every string. */
  lemma {:induction false} UnescapeEscape(s: string)
    ensures Unescape(Escape(s)) == s
  {
    if s != [] {
      var rest := Escape(s[1..]);
      assert s == [s[0]] + s[1..];
      EscapeCons(s[0], s[1..]);
      UnescapeEscape(s[1..]);
      var e := EscapeChar(s[0]) + rest;
      if |EscapeChar(s[0])| == 2 {
        assert e[2..] == rest;
      } else {
        assert e[1..] == rest;
      }
    }
  }

  lemma {:induction false} StringBodyEscape(s: string, rest: string)
    requires Clean(s)
    ensures StringBody(Escape(s) + ['"'] + rest) == Some(Escape(s))
  {
    if s == [] {
      assert Escape(s) + ['"'] + rest == ['"'] + rest;
    } else {
      var tail := Escape(s[1..]) + ['"'] + rest;
      assert s == [s[0]] + s[1..];
      EscapeCons(s[0], s[1..]);
      StringBodyEscape(s[1..], rest);
      var e := EscapeChar(s[0]) + tail;
      assert Escape(s) + ['"'] + rest == e;
      if |EscapeChar(s[0])| == 2 {
        assert e[2..] == tail && e[..2] == EscapeChar(s[0]);
      } else {
        assert e[1..] == tail;
      }
    }
  }

  /** Quoting a string without line breaks and matching it back gives the string. */
  lemma QuotedString(s: string)
    requires Clean(s)
    ensures StringMatch("\"" + Escape(s) + "\"") == Some(Escape(s)) && Unescape(Escape(s)) == s
  {
    var text := "\"" + Escape(s) + "\"";
    assert text[1..] == Escape(s) + ['"'] + [];
    StringBodyEscape(s, []);
    UnescapeEscape(s);
  }

  /* Patterns */

  predicate StartsWith(s: string, prefix: string) {
    |prefix| <= |s| && s[..|prefix|] == prefix
  }

  /** The longest prefix without character `c`. */
  function UpTo(s: string, c: char): nat
    ensures UpTo(s, c) <= |s|
  {
    if s == [] || s[0] == c then 0 else 1 + UpTo(s[1..], c)
  }

  lemma {:induction false} UpToAt(name: string, c: char, rest: string)
    requires forall k :: 0 <= k < |name| ==> name[k] != c
    requires rest == [] || rest[0] == c
    ensures UpTo(name + rest, c) == |name|
  {
    if name == [] {
      assert name + rest == rest;
    } else {
      assert (name + rest)[1..] == name[1..] + rest;
      UpToAt(name[1..], c, rest);
    }
  }

  const PREFIX := "CONFIG_"
  const NOT_SET := " is not set"

  /** An assignment line: the name before the first '=' and the text after it. */
  function SetMatch(line: string): Option<(string, string)> {
    if StartsWith(line, PREFIX) then
      var rest := line[|PREFIX|..];
      var k := UpTo(rest, '=');
      if 0 < k < |rest| then Some((rest[..k], rest[k + 1..])) else None
    else None
  }

  /** A comment line that says that a symbol is not set. */
  function UnsetMatch(line: string): Option<string> {
    if StartsWith(line, "# " + PREFIX) then
      var rest := line[|PREFIX| + 2..];
      var k := UpTo(rest, ' ');
      if k > 0 && StartsWith(rest[k..], NOT_SET) then Some(rest[..k]) else None
    else None
  }

  predicate NameOk(name: string) {
    && name != []
    && forall k :: 0 <= k < |name| ==> name[k] !in {'=', ' ', '\n', '\r'}
  }

  function SetLine(name: string, val: string): string {
    PREFIX + name + "=" + val
  }

  function UnsetLine(name: string): string {
    "# " + PREFIX + name + NOT_SET
  }

  lemma SetLineMatch(name: string, val: string)
    requires NameOk(name)
    ensures SetMatch(SetLine(name, val)) == Some((name, val))
  {
    var line := SetLine(name, val);
    var rest := name + ("=" + val);
    assert line == PREFIX + rest;
    assert line[..|PREFIX|] == PREFIX && line[|PREFIX|..] == rest;
    UpToAt(name, '=', "=" + val);
    assert rest[..|name|] == name && rest[|name| + 1..] == val;
  }

  lemma UnsetLineMatch(name: string)
    requires NameOk(name)
    ensures SetMatch(UnsetLine(name)) == None && UnsetMatch(UnsetLine(name)) == Some(name)
  {
    var line := UnsetLine(name);
    var rest := name + NOT_SET;
    assert line == ("# " + PREFIX) + rest;
    assert |line| >= |PREFIX| && line[..|PREFIX|][0] == '#';
    assert line[|PREFIX| + 2..] == rest;
    UpToAt(name, ' ', NOT_SET);
    assert rest[..|name|] == name && rest[|name|..] == NOT_SET;
  }

  /* Lines */

  /** White space as Python has it. */
  predicate IsSpace(c: char) {
    || '\t' <= c <= '\r' || '\U{1C}' <= c <= ' ' || '\U{2000}' <= c <= '\U{200A}'
    || c in {'\U{85}', '\U{A0}', '\U{1680}', '\U{2028}', '\U{2029}', '\U{202F}', '\U{205F}', '\U{3000}'}
  }

  function Rstrip(s: string): string {
    if s != [] && IsSpace(s[|s| - 1]) then Rstrip(s[..|s| - 1]) else s
  }

  /** Universal newlines: the line breaks of other systems are read as "\n". */
  function Translate(s: string): string {
    if s == [] then []
    else if s[0] == '\r' then
      if |s| > 1 && s[1] == '\n' then ['\n'] + Translate(s[2..]) else ['\n'] + Translate(s[1..])
    else [s[0]] + Translate(s[1..])
  }

  /** The lines of a text without their line breaks. */
  function Split(s: string): seq<string> {
    if s == [] then []
    else
      var k := UpTo(s, '\n');
      if k == |s| then [s] else [s[..k]] + Split(s[k + 1..])
  }

  function Join(lines: seq<string>): string {
    if lines == [] then [] else lines[0] + "\n" + Join(lines[1..])
  }

  lemma {:induction false} TranslateClean(s: string, t: string)
    requires Clean(s)
    ensures Translate(s + ['\n'] + t) == s + ['\n'] + Translate(t)
  {
    if s == [] {
      assert s + ['\n'] + t == ['\n'] + t;
    } else {
      assert (s + ['\n'] + t)[1..] == s[1..] + ['\n'] + t;
      TranslateClean(s[1..], t);
    }
  }

  lemma {:induction false} SplitLine(s: string, t: string)
    requires Clean(s)
    ensures Split(s + ['\n'] + t) == [s] + Split(t)
  {
    var text := s + ['\n'] + t;
    assert text == s + (['\n'] + t);
    UpToAt(s, '\n', ['\n'] + t);
    assert text[..|s|] == s && text[|s| + 1..] == t;
  }

  /** Lines without line breaks are read back as they were written. */
  lemma {:induction false} SplitJoin(lines: seq<string>)
    requires forall k :: 0 <= k < |lines| ==> Clean(lines[k])
    ensures Split(Translate(Join(lines))) == lines
  {
    if lines != [] {
      SplitJoin(lines[1..]);
      TranslateClean(lines[0], Join(lines[1..]));
      SplitLine(lines[0], Translate(Join(lines[1..])));
    }
  }

  /** All characters that count as white space. */
  lemma SpacesAre(c: char)
    ensures IsSpace(c) <==>
        c in ['\t', '\n', '\U{0B}', '\U{0C}', '\r', '\U{1C}', '\U{1D}', '\U{1E}', '\U{1F}', ' ', '\U{85}', '\U{A0}',
              '\U{1680}', '\U{2000}', '\U{2001}', '\U{2002}', '\U{2003}', '\U{2004}', '\U{2005}', '\U{2006}',
              '\U{2007}', '\U{2008}', '\U{2009}', '\U{200A}', '\U{2028}', '\U{2029}', '\U{202F}', '\U{205F}',
              '\U{3000}']
  {
  }
}
