/** What loading a file does, said in terms of the lines of the file. */
module KconfigLoadMeaning {
  import opened KconfigSyntax
  import opened KconfigText
  import opened KconfigValues
  import opened KconfigReads
  import opened KconfigEngine
  import opened KconfigSaveLoad

  /* The patterns of lines */

  predicate Lacks(s: string, c: char) {
    forall k :: 0 <= k < |s| ==> s[k] != c
  }

  lemma {:induction false} UpToIs(s: string, c: char)
    ensures Lacks(s[..UpTo(s, c)], c) && (UpTo(s, c) < |s| ==> s[UpTo(s, c)] == c)
  {
    if s != [] && s[0] != c {
      UpToIs(s[1..], c);
      var k := UpTo(s[1..], c);
      assert s[..k + 1] == [s[0]] + s[1..][..k];
    }
  }

  /** An assignment line is matched with the name up to the first '=' and everything after it. */
  lemma SetMatchMeaning(line: string, name: string, val: string)
    ensures SetMatch(line) == Some((name, val)) <==>
        name != [] && Lacks(name, '=') && line == "CONFIG_" + name + "=" + val
  {
    if SetMatch(line) == Some((name, val)) {
      var rest := line[|PREFIX|..];
      UpToIs(rest, '=');
      assert line == line[..|PREFIX|] + rest;
      assert rest == name + "=" + val;
    }
    if name != [] && Lacks(name, '=') && line == "CONFIG_" + name + "=" + val {
      var rest := name + ("=" + val);
      assert line == PREFIX + rest;
      assert line[..|PREFIX|] == PREFIX && line[|PREFIX|..] == rest;
      UpToAt(name, '=', "=" + val);
      assert rest[..|name|] == name && rest[|name| + 1..] == val;
    }
  }

  /** A comment line is matched if it begins as one that says that a symbol is not set. */
  lemma UnsetMatchMeaning(line: string, name: string)
    ensures UnsetMatch(line) == Some(name) <==>
        name != [] && Lacks(name, ' ') && "# CONFIG_" + name + " is not set" <= line
  {
    if UnsetMatch(line) == Some(name) {
      UnsetMatched(line, name);
    }
    if name != [] && Lacks(name, ' ') && "# CONFIG_" + name + " is not set" <= line {
      var head := "# CONFIG_" + name + " is not set";
      assert line == head + line[|head|..];
      UnsetMatches(name, line[|head|..]);
    }
  }

  lemma UnsetMatched(line: string, name: string)
    requires UnsetMatch(line) == Some(name)
    ensures name != [] && Lacks(name, ' ') && "# CONFIG_" + name + " is not set" <= line
  {
    var head := "# " + PREFIX;
    UpToIs(line[|head|..], ' ');
    ThreeParts(line, head, name, NOT_SET);
    assert head == "# CONFIG_";
  }

  lemma ThreeParts(line: string, head: string, name: string, end: string)
    requires head <= line && name <= line[|head|..] && end <= line[|head|..][|name|..]
    ensures head + name + end <= line
  {
    var rest := line[|head|..];
    assert line == head + rest && rest == name + rest[|name|..];
  }

  lemma UnsetMatches(name: string, tail: string)
    requires name != [] && Lacks(name, ' ')
    ensures UnsetMatch("# CONFIG_" + name + " is not set" + tail) == Some(name)
  {
    var head := "# " + PREFIX;
    var line := "# CONFIG_" + name + " is not set" + tail;
    var rest := name + (NOT_SET + tail);
    assert line == head + rest;
    assert line[..|head|] == head && line[|head|..] == rest;
    UpToAt(name, ' ', NOT_SET + tail);
    assert rest[..|name|] == name && rest[|name|..] == NOT_SET + tail;
    assert (NOT_SET + tail)[..|NOT_SET|] == NOT_SET;
  }

  predicate Blank(s: string) {
    forall k :: 0 <= k < |s| ==> IsSpace(s[k])
  }

  predicate Stripped(s: string) {
    s == [] || !IsSpace(s[|s| - 1])
  }

  predicate StrippedOf(s: string, t: string) {
    t <= s && Blank(s[|t|..]) && Stripped(t)
  }

  /** Stripping removes the white space at the end, and nothing else. */
  lemma RstripMeaning(s: string, t: string)
    ensures Rstrip(s) == t <==> t <= s && Blank(s[|t|..]) && Stripped(t)
  {
    RstripStrips(s);
    if StrippedOf(s, t) {
      NotShorter(s, t, Rstrip(s));
      NotShorter(s, Rstrip(s), t);
    }
  }

  lemma {:induction false} RstripStrips(s: string)
    ensures StrippedOf(s, Rstrip(s))
  {
    if s != [] && IsSpace(s[|s| - 1]) {
      RstripStrips(s[..|s| - 1]);
      OneMoreSpace(s, Rstrip(s));
    }
  }

  lemma OneMoreSpace(s: string, t: string)
    requires s != [] && IsSpace(s[|s| - 1]) && StrippedOf(s[..|s| - 1], t)
    ensures StrippedOf(s, t)
  {
    assert s[|t|..] == s[..|s| - 1][|t|..] + [s[|s| - 1]];
  }

  lemma NotShorter(s: string, t: string, r: string)
    requires StrippedOf(s, t) && StrippedOf(s, r)
    ensures |t| >= |r|
  {
    BlankAt(s, |t|, |r| - 1);
  }

  lemma BlankAt(s: string, k: nat, i: int)
    requires k <= |s| && Blank(s[k..])
    ensures k <= i < |s| ==> IsSpace(s[i])
  {
    assert k <= i < |s| ==> s[i] == s[k..][i - k];
  }

  /** Inside quotes, `body` stands for `text`: a backslash stands for the character behind it, and every
      other character except quotes for itself. */
  predicate Spells(body: string, text: string) {
    if body == [] then text == []
    else if body[0] == '\\' then
      |body| > 1 && body[1] != '\n' && text != [] && text[0] == body[1] && Spells(body[2..], text[1..])
    else body[0] != '"' && text != [] && text[0] == body[0] && Spells(body[1..], text[1..])
  }

  lemma {:induction false} StringBodyMeaning(s: string, body: string, text: string)
    ensures StringBody(s) == Some(body) && Unescape(body) == text <==> body + "\"" <= s && Spells(body, text)
    decreases |s|
  {
    if s == [] || s[0] == '"' {
      assert s != [] ==> [] + "\"" <= s;
      assert body != [] && body + "\"" <= s ==> body[0] == s[0];
    } else if s[0] != '\\' {
      if body != [] && text != [] && body[0] == s[0] {
        StringBodyMeaning(s[1..], body[1..], text[1..]);
        assert body + "\"" <= s <==> body[1..] + "\"" <= s[1..] by {
          assert body + "\"" == [s[0]] + (body[1..] + "\"") && s == [s[0]] + s[1..];
        }
        assert body == [s[0]] + body[1..] && text == [text[0]] + text[1..];
      } else {
        BodyHead(s, body);
      }
    } else if |s| > 1 && s[1] != '\n' {
      if |body| > 1 && text != [] && body[..2] == s[..2] {
        StringBodyMeaning(s[2..], body[2..], text[1..]);
        assert body + "\"" <= s <==> body[2..] + "\"" <= s[2..] by {
          assert body + "\"" == s[..2] + (body[2..] + "\"") && s == s[..2] + s[2..];
        }
        assert body == s[..2] + body[2..] && text == [text[0]] + text[1..];
      } else {
        BodyHead(s, body);
      }
    } else {
      BodyHead(s, body);
    }
  }

  lemma BodyHead(s: string, body: string)
    requires s != [] && s[0] != '"'
    ensures StringBody(s) == Some(body) ==> body != [] && body[0] == s[0] && Unescape(body) != []
    ensures StringBody(s) == Some(body) && s[0] == '\\' ==> |body| > 1 && |s| > 1 && body[..2] == s[..2]
    ensures body + "\"" <= s ==> body != [] && body[0] == s[0]
    ensures body + "\"" <= s && |body| > 1 ==> |s| > 1 && body[..2] == s[..2]
  {
    if body + "\"" <= s {
      PrefixAt(body + "\"", s, 0);
      if |body| > 1 {
        PrefixAt(body + "\"", s, 1);
      }
    }
  }

  lemma PrefixAt(p: string, s: string, k: nat)
    requires p <= s && k < |p|
    ensures p[k] == s[k]
  {
  }

  /** A quoted string is matched up to the first quote that no backslash precedes. */
  lemma StringMatchMeaning(val: string, body: string, text: string)
    ensures StringMatch(val) == Some(body) && Unescape(body) == text <==>
        "\"" + body + "\"" <= val && Spells(body, text)
  {
    if val != [] && val[0] == '"' {
      StringBodyMeaning(val[1..], body, text);
      assert "\"" + body + "\"" <= val <==> body + "\"" <= val[1..] by {
        assert "\"" + body + "\"" == ['"'] + (body + "\"") && val == ['"'] + val[1..];
      }
    }
  }

  /* Lines */

  /** Lines with their ends, and what follows the last line end. */
  function Whole(lines: seq<string>, ends: seq<string>, last: string): string
    requires |lines| == |ends|
  {
    if lines == [] then last else lines[0] + ends[0] + Whole(lines[1..], ends[1..], last)
  }

  /** The lines have no line breaks in them, and each end is one of the three that are known. A carriage
      return that a line feed follows is not an end of its own. */
  predicate Ended(lines: seq<string>, ends: seq<string>, last: string) {
    && |lines| == |ends|
    && if lines == [] then Clean(last)
       else
         && Clean(lines[0]) && ends[0] in {"\n", "\r\n", "\r"}
         && Ended(lines[1..], ends[1..], last)
         && (ends[0] == "\r" ==> !("\n" <= Whole(lines[1..], ends[1..], last)))
  }

  lemma {:induction false} TranslateEnd(line: string, end: string, rest: string)
    requires Clean(line) && end in {"\n", "\r\n", "\r"} && (end == "\r" ==> !("\n" <= rest))
    ensures Translate(line + end + rest) == line + ['\n'] + Translate(rest)
  {
    var s := line + end + rest;
    if line != [] {
      assert s == [line[0]] + (line[1..] + end + rest);
      TranslateEnd(line[1..], end, rest);
    } else {
      assert s == end + rest;
      TranslateOne(end, rest);
    }
  }

  lemma TranslateOne(end: string, rest: string)
    requires end in {"\n", "\r\n", "\r"} && (end == "\r" ==> !("\n" <= rest))
    ensures Translate(end + rest) == ['\n'] + Translate(rest)
  {
    var s := end + rest;
    assert s[|end|..] == rest && s[0] == end[0];
    if end == "\r" {
      assert rest != [] ==> s[1] == rest[0];
    }
  }

  lemma {:induction false} TranslateKeeps(line: string)
    requires Clean(line)
    ensures Translate(line) == line
  {
    if line != [] {
      TranslateKeeps(line[1..]);
    }
  }

  lemma {:induction false} UpToEnd(s: string, c: char)
    requires Lacks(s, c)
    ensures UpTo(s, c) == |s|
  {
    if s != [] {
      UpToEnd(s[1..], c);
    }
  }

  /** The lines of a file are those between its line ends; a last line needs no end. */
  lemma {:induction false} LinesMeaning(lines: seq<string>, ends: seq<string>, last: string)
    requires Ended(lines, ends, last)
    ensures Split(Translate(Whole(lines, ends, last))) == lines + if last == "" then [] else [last]
  {
    if lines == [] {
      TranslateKeeps(last);
      UpToEnd(last, '\n');
    } else {
      var rest := Whole(lines[1..], ends[1..], last);
      LinesMeaning(lines[1..], ends[1..], last);
      TranslateEnd(lines[0], ends[0], rest);
      SplitLine(lines[0], Translate(rest));
    }
  }

  /** Every text is of this form. */
  lemma {:induction false} EveryText(text: string)
    ensures exists lines, ends, last :: Ended(lines, ends, last) && Whole(lines, ends, last) == text
  {
    if Clean(text) {
      assert Ended([], [], text) && Whole([], [], text) == text;
    } else {
      var k := FirstEnd(text);
      var end := EndAt(text[k..]);
      var rest := text[k..][|end|..];
      EveryText(rest);
      var lines, ends, last :| Ended(lines, ends, last) && Whole(lines, ends, last) == rest;
      OneMore(text[..k], end, lines, ends, last);
      SplitAround(text, k, end);
    }
  }

  lemma SplitAround(text: string, k: nat, end: string)
    requires k <= |text| && end <= text[k..]
    ensures text == text[..k] + end + text[k..][|end|..]
  {
    assert text[k..] == end + text[k..][|end|..];
  }

  /** The line end at the start of a text. */
  function EndAt(s: string): (end: string)
    requires s != [] && (s[0] == '\n' || s[0] == '\r')
    ensures end in {"\n", "\r\n", "\r"} && end <= s
    ensures end == "\r" ==> !("\n" <= s[|end|..])
  {
    if s[0] == '\n' then "\n"
    else if |s| > 1 && s[1] == '\n' then
      assert s[..2] == "\r\n";
      "\r\n"
    else "\r"
  }

  lemma OneMore(line: string, end: string, lines: seq<string>, ends: seq<string>, last: string)
    requires Clean(line) && end in {"\n", "\r\n", "\r"} && Ended(lines, ends, last)
    requires end == "\r" ==> !("\n" <= Whole(lines, ends, last))
    ensures Ended([line] + lines, [end] + ends, last)
    ensures Whole([line] + lines, [end] + ends, last) == line + end + Whole(lines, ends, last)
  {
    assert ([line] + lines)[1..] == lines && ([end] + ends)[1..] == ends;
  }

  function FirstEnd(text: string): (k: nat)
    requires !Clean(text)
    ensures k < |text| && Clean(text[..k]) && (text[k] == '\n' || text[k] == '\r')
  {
    if text[0] == '\n' || text[0] == '\r' then 0
    else
      assert text == [text[0]] + text[1..];
      1 + FirstEnd(text[1..])
  }

  /* What a line gives to a symbol */

  /** The symbols have names of their own, without '=' and spaces. */
  ghost predicate Named(cfg: Config) {
    && WF(cfg)
    && (forall s :: 0 <= s < |cfg.syms| ==> NameOk(cfg.syms[s].name))
    && forall s, t :: 0 <= s < |cfg.syms| && 0 <= t < |cfg.syms| && cfg.syms[s].name == cfg.syms[t].name ==> s == t
  }

  /** The line sets a bool or tristate symbol to `v`. Whatever follows the letter is ignored. */
  predicate Gives(cfg: Config, s: nat, line: string, v: Tri) {
    && s < |cfg.syms| && BoolTri(cfg.syms[s].kind)
    && var x := "CONFIG_" + cfg.syms[s].name;
       || (v == 2 && x + "=y" <= line)
       || (v == 1 && x + "=m" <= line && cfg.syms[s].kind == Tristate)
       || (v == 0 && x + "=n" <= line)
       || (v == 0 && "# " + x + " is not set" <= line)
  }

  /** What may be given to an int or hex symbol. */
  predicate IsNumber(cfg: Config, kind: Kind, text: string) {
    || (kind == Int && cfg.toInt(text, 10).Some?)
    || (kind == Hex && cfg.toInt(text, 16).Some? && cfg.toInt(text, 16).value >= 0)
  }

  function Head(cfg: Config, s: nat): string
    requires s < |cfg.syms|
  {
    "CONFIG_" + cfg.syms[s].name + "="
  }

  /** The line sets a string symbol to a text in quotes, or an int or hex symbol to a number. */
  ghost predicate GivesText(cfg: Config, s: nat, line: string, text: string) {
    && s < |cfg.syms|
    && if cfg.syms[s].kind == Text then exists body :: Quoted(body) <= Rest(cfg, s, line) && Spells(body, text)
       else
         && IsNumber(cfg, cfg.syms[s].kind, text)
         && Head(cfg, s) + text <= line && Stripped(text) && Blank(line[|Head(cfg, s) + text|..])
  }

  function Quoted(body: string): string { "\"" + body + "\"" }

  /** What follows '=' in a line that assigns to the symbol. */
  function Rest(cfg: Config, s: nat, line: string): string
    requires s < |cfg.syms|
  {
    if Head(cfg, s) <= line then line[|Head(cfg, s)|..] else ""
  }

  lemma {:induction false} LookupMeaning(cfg: Config, name: string, from: nat, s: nat)
    requires Named(cfg) && from <= |cfg.syms|
    ensures Lookup(cfg, name, from) == Some(s) <==> from <= s < |cfg.syms| && cfg.syms[s].name == name
    decreases |cfg.syms| - from
  {
    if from < |cfg.syms| {
      LookupMeaning(cfg, name, from + 1, s);
    }
  }

  /** The lines that assign to a symbol, without the white space at their end. */
  lemma AssignsTo(cfg: Config, line: string, s: nat, val: string)
    requires Named(cfg) && s < |cfg.syms|
    ensures (exists name :: SetMatch(line) == Some((name, val)) && Lookup(cfg, name, 0) == Some(s))
            <==> line == "CONFIG_" + cfg.syms[s].name + "=" + val
  {
    var x := cfg.syms[s].name;
    SetMatchMeaning(line, x, val);
    LookupMeaning(cfg, x, 0, s);
    if name :| SetMatch(line) == Some((name, val)) && Lookup(cfg, name, 0) == Some(s) {
      LookupMeaning(cfg, name, 0, s);
    }
    if line == "CONFIG_" + x + "=" + val {
      assert NameOk(x) && SetMatch(line) == Some((x, val));
    }
  }

  /** A text that does not end in white space is at the start of a line just when it is at the start of
      the stripped line. */
  lemma AtStart(line: string, p: string)
    requires p != [] && Stripped(p)
    ensures p <= line <==> p <= Rstrip(line)
  {
    var l := Rstrip(line);
    RstripMeaning(line, l);
    forall i | |l| <= i < |line|
      ensures IsSpace(line[i])
    {
      assert line[|l|..][i - |l|] == line[i];
    }
  }

  /* Assigning */

  /** The value says n, m or y, as a number or as a letter, to something that can have it. */
  predicate SaysTri(kind: Kind, value: Input, v: Tri) {
    && (value == Input.Number(v) || value == Chars(["nmy"[v]]))
    && (kind == Tristate || (kind == Bool && v != 1))
  }

  predicate SaysText(cfg: Config, kind: Kind, value: Input, text: string) {
    value == Chars(text) && (kind == Text || IsNumber(cfg, kind, text))
  }

  /** What the user has set is of the type of the symbol. */
  predicate Fitting(cfg: Config, u: User, s: nat)
    requires s < |cfg.syms|
  {
    && (s in u.tri ==> SaysTri(cfg.syms[s].kind, Input.Number(u.tri[s]), u.tri[s]))
    && (s in u.text ==> SaysText(cfg, cfg.syms[s].kind, Chars(u.text[s]), u.text[s]))
  }

  lemma SaysTriIs(cfg: Config, kind: Kind, value: Input, v: Tri)
    ensures SaysTri(kind, value, v) <==>
        Normalized(kind, value) == Input.Number(v) && Accepts(cfg, kind, Input.Number(v))
  {
    assert TriText(v) == ["nmy"[v]];
  }

  lemma SaysTextIs(cfg: Config, kind: Kind, value: Input, text: string)
    ensures SaysText(cfg, kind, value, text) <==>
        Normalized(kind, value) == Chars(text) && Accepts(cfg, kind, Chars(text))
  {
  }

  /** Assigning is accepted just when the value is of the symbol's type. It sets the user value of the
      symbol and, if a symbol of a choice is set to y, the pick of the choice; and nothing else. */
  lemma AssignMeaning(cfg: Config, u: User, s: nat, value: Input)
    requires s < |cfg.syms| && Fitting(cfg, u, s)
    ensures var r := AssignSym(cfg, u, s, value);
            && (r.accepted <==> (exists v: Tri :: SaysTri(cfg.syms[s].kind, value, v))
                                || (exists text :: SaysText(cfg, cfg.syms[s].kind, value, text)))
            && (!r.accepted ==> r.user == u)
            && (forall text :: SaysText(cfg, cfg.syms[s].kind, value, text) ==> r.user == TextSet(u, s, text))
            && forall v: Tri :: SaysTri(cfg.syms[s].kind, value, v) ==> r.user == TriSet(u, s, v, cfg.syms[s].choice)
  {
    var kind := cfg.syms[s].kind;
    var norm := Normalized(kind, value);
    forall v: Tri
      ensures SaysTri(kind, value, v) <==> norm == Input.Number(v) && Accepts(cfg, kind, Input.Number(v))
    {
      SaysTriIs(cfg, kind, value, v);
    }
    forall text
      ensures SaysText(cfg, kind, value, text) <==> norm == Chars(text) && Accepts(cfg, kind, Chars(text))
    {
      SaysTextIs(cfg, kind, value, text);
    }
    FittingIs(cfg, u, s);
    if norm.Number? && 0 <= norm.n <= 2 {
      var v: Tri := norm.n;
      assert SaysTri(kind, value, v) <==> Accepts(cfg, kind, norm);
    } else if norm.Chars? {
      assert SaysText(cfg, kind, value, norm.text) <==> Accepts(cfg, kind, norm);
    }
  }

  lemma FittingIs(cfg: Config, u: User, s: nat)
    requires s < |cfg.syms| && Fitting(cfg, u, s)
    ensures s in u.tri ==> Accepts(cfg, cfg.syms[s].kind, Input.Number(u.tri[s]))
    ensures s in u.text ==> Accepts(cfg, cfg.syms[s].kind, Chars(u.text[s]))
  {
  }

  function TextSet(u: User, s: nat, text: string): User { u.(text := u.text[s := text]) }

  function TriSet(u: User, s: nat, v: Tri, choice: Option<nat>): User {
    u.(tri := u.tri[s := v], pick := if choice.Some? && v == 2 then u.pick[choice.value := s] else u.pick)
  }

  /** Setting the mode of a choice is accepted just when the value is a mode of its type. */
  lemma AssignModeMeaning(cfg: Config, u: User, c: nat, value: Input)
    requires c < |cfg.choices| && (c in u.mode ==> SaysTri(cfg.choices[c].kind, Input.Number(u.mode[c]), u.mode[c]))
    ensures var r := AssignChoice(cfg, u, c, value);
            && (r.accepted <==> exists v: Tri :: SaysTri(cfg.choices[c].kind, value, v))
            && (!r.accepted ==> r.user == u)
            && forall v: Tri :: SaysTri(cfg.choices[c].kind, value, v) ==> r.user == u.(mode := u.mode[c := v])
  {
    var kind := cfg.choices[c].kind;
    var norm := Normalized(kind, value);
    forall v: Tri
      ensures SaysTri(kind, value, v) <==> norm == Input.Number(v) && Accepts(cfg, kind, Input.Number(v))
    {
      SaysTriIs(cfg, kind, value, v);
    }
    if norm.Number? && 0 <= norm.n <= 2 {
      var v: Tri := norm.n;
      assert SaysTri(kind, value, v) <==> Accepts(cfg, kind, norm);
    }
  }

  /* The effect of a line */

  function Assignment(cfg: Config, s: nat, val: string): string
    requires s < |cfg.syms|
  {
    Head(cfg, s) + val
  }

  function NotSet(cfg: Config, s: nat): string
    requires s < |cfg.syms|
  {
    "# CONFIG_" + cfg.syms[s].name + " is not set"
  }

  lemma SetLineEffect(cfg: Config, st: LoadState, line: string, s: nat, val: string)
    requires Named(cfg) && s < |cfg.syms| && Rstrip(line) == Assignment(cfg, s, val)
    ensures LoadLine(cfg, st, line) == LoadAssignment(cfg, st, s, val)
  {
    AssignsTo(cfg, Rstrip(line), s, val);
  }

  lemma NoSetMatch(line: string, rest: string)
    requires "# CONFIG_" + rest <= line
    ensures SetMatch(line) == None
  {
    PrefixAt("# CONFIG_" + rest, line, 0);
    if SetMatch(line).Some? {
      SetMatchHead(line);
    }
  }

  lemma SetMatchHead(line: string)
    requires SetMatch(line).Some?
    ensures line != [] && line[0] == 'C'
  {
    assert line[..|PREFIX|][0] == line[0];
  }

  lemma UnsetLineEffect(cfg: Config, st: LoadState, line: string, s: nat)
    requires Named(cfg) && s < |cfg.syms| && NotSet(cfg, s) <= line
    ensures LoadLine(cfg, st, line) == if BoolTri(cfg.syms[s].kind) then LoadSym(cfg, st, s, Chars("n")) else st
  {
    var x := cfg.syms[s].name;
    AtStart(line, NotSet(cfg, s));
    assert NameOk(x);
    UnsetMatchMeaning(Rstrip(line), x);
    NoSetMatch(Rstrip(line), x + " is not set");
    assert "# CONFIG_" + (x + " is not set") == NotSet(cfg, s);
    LookupMeaning(cfg, x, 0, s);
  }

  /** The user's values of the symbol are the same in both states, and whether it was set. */
  predicate SameSym(st: LoadState, st': LoadState, s: nat) {
    (s in st.syms <==> s in st'.syms) && SameAt(st.user.tri, st'.user.tri, s) && SameAt(st.user.text, st'.user.text, s)
  }

  lemma OtherSym(cfg: Config, st: LoadState, t: nat, value: Input, s: nat)
    requires t < |cfg.syms| && s != t
    ensures SameSym(st, LoadSym(cfg, st, t, value), s)
  {
  }

  lemma OtherAssignment(cfg: Config, st: LoadState, t: nat, val: string, s: nat)
    requires WF(cfg) && t < |cfg.syms| && s != t
    ensures SameSym(st, LoadAssignment(cfg, st, t, val), s)
  {
    var d := cfg.syms[t];
    assert SymOk(cfg, t);
    if BoolTri(d.kind) && val != [] {
      OtherSym(cfg, st, t, Chars(val[..1]), s);
      if d.choice.Some? {
        OtherSym(cfg, LoadMode(cfg, st, d.choice.value, Chars(val[..1])), t, Chars(val[..1]), s);
      }
    } else if d.kind == Text && StringMatch(val).Some? {
      OtherSym(cfg, st, t, Chars(Unescape(StringMatch(val).value)), s);
    } else {
      OtherSym(cfg, st, t, Chars(val), s);
    }
  }

  /** A line assigns to a symbol, says that one is not set, or has no effect. */
  lemma LineCases(cfg: Config, st: LoadState, line: string)
    requires Named(cfg)
    ensures || LoadLine(cfg, st, line) == st
            || (exists t: nat, val :: t < |cfg.syms| && Rstrip(line) == Assignment(cfg, t, val)
                                      && LoadLine(cfg, st, line) == LoadAssignment(cfg, st, t, val))
            || (exists t: nat :: t < |cfg.syms| && NotSet(cfg, t) <= line && BoolTri(cfg.syms[t].kind)
                                 && LoadLine(cfg, st, line) == LoadSym(cfg, st, t, Chars("n")))
  {
    var l := Rstrip(line);
    if SetMatch(l).Some? {
      var m := SetMatch(l).value;
      LookupKnown(cfg, m.0, 0);
      var t := Lookup(cfg, m.0, 0);
      if t.Some? {
        AssignsTo(cfg, l, t.value, m.1);
        assert l == Assignment(cfg, t.value, m.1);
      }
    } else if UnsetMatch(l).Some? {
      LookupKnown(cfg, UnsetMatch(l).value, 0);
      var t := Lookup(cfg, UnsetMatch(l).value, 0);
      if t.Some? {
        UnsetMatchMeaning(l, UnsetMatch(l).value);
        LookupMeaning(cfg, UnsetMatch(l).value, 0, t.value);
        AtStart(line, NotSet(cfg, t.value));
      }
    }
  }

  /** A line that is not about a symbol leaves it alone. */
  lemma OtherLine(cfg: Config, st: LoadState, line: string, s: nat)
    requires Named(cfg) && s < |cfg.syms|
    requires forall val :: Rstrip(line) != Assignment(cfg, s, val)
    requires !(NotSet(cfg, s) <= line && BoolTri(cfg.syms[s].kind))
    ensures SameSym(st, LoadLine(cfg, st, line), s)
  {
    LineCases(cfg, st, line);
    if LoadLine(cfg, st, line) == st {
    } else if t: nat, val :| t < |cfg.syms| && Rstrip(line) == Assignment(cfg, t, val)
                             && LoadLine(cfg, st, line) == LoadAssignment(cfg, st, t, val) {
      OtherAssignment(cfg, st, t, val, s);
    } else {
      var t: nat :| t < |cfg.syms| && NotSet(cfg, t) <= line && BoolTri(cfg.syms[t].kind)
                    && LoadLine(cfg, st, line) == LoadSym(cfg, st, t, Chars("n"));
      OtherSym(cfg, st, t, Chars("n"), s);
    }
  }

  /* Bool and tristate symbols */

  /** The effect of giving `v` to a symbol. */
  function AfterGiven(cfg: Config, st: LoadState, s: nat, v: Tri): LoadState
    requires WF(cfg) && s < |cfg.syms|
  {
    var d := cfg.syms[s];
    assert SymOk(cfg, s);
    var st' := if d.choice.Some? && v != 0 then LoadMode(cfg, st, d.choice.value, Chars(TriText(v))) else st;
    LoadSym(cfg, st', s, Chars(TriText(v)))
  }

  lemma GivenLetter(cfg: Config, line: string, s: nat, v: Tri)
    requires s < |cfg.syms| && Head(cfg, s) + TriText(v) <= line
    ensures var val := Rest(cfg, s, Rstrip(line));
            Rstrip(line) == Assignment(cfg, s, val) && TriText(v) <= val
  {
    var x, letter := Head(cfg, s), TriText(v);
    AtStart(line, x + letter);
    HeadAndRest(cfg, Rstrip(line), s, letter);
    assert x + letter <= Rstrip(line) ==> x <= Rstrip(line);
  }

  lemma GivenLine(cfg: Config, st: LoadState, line: string, s: nat, v: Tri)
    requires Named(cfg) && Gives(cfg, s, line, v)
    ensures LoadLine(cfg, st, line) == AfterGiven(cfg, st, s, v)
  {
    var letter := TriText(v);
    if v == 0 && NotSet(cfg, s) <= line {
      UnsetLineEffect(cfg, st, line, s);
    } else {
      assert Head(cfg, s) + letter == "CONFIG_" + cfg.syms[s].name + ("=" + letter);
      GivenLetter(cfg, line, s, v);
      var val := Rest(cfg, s, Rstrip(line));
      SetLineEffect(cfg, st, line, s, val);
      assert val[..1] == letter && val[0] == letter[0];
    }
  }

  /** A line that gives nothing to a bool or tristate symbol leaves it alone. */
  lemma NotGivenLine(cfg: Config, st: LoadState, line: string, s: nat)
    requires Named(cfg) && s < |cfg.syms| && BoolTri(cfg.syms[s].kind) && forall v :: !Gives(cfg, s, line, v)
    ensures SameSym(st, LoadLine(cfg, st, line), s)
  {
    var n: Tri := 0;
    assert !Gives(cfg, s, line, n);
    if val :| Rstrip(line) == Assignment(cfg, s, val) {
      SetLineEffect(cfg, st, line, s, val);
      if val != [] {
        NotGivenLetter(cfg, line, s, val);
      }
    } else {
      OtherLine(cfg, st, line, s);
    }
  }

  lemma NotGivenLetter(cfg: Config, line: string, s: nat, val: string)
    requires s < |cfg.syms| && BoolTri(cfg.syms[s].kind) && val != [] && Rstrip(line) == Assignment(cfg, s, val)
    requires forall v :: !Gives(cfg, s, line, v)
    ensures val[0] !in {'y', 'n'} && !(cfg.syms[s].kind == Tristate && val[0] == 'm')
  {
    RstripMeaning(line, Rstrip(line));
    var n: Tri, m: Tri, y: Tri := 0, 1, 2;
    assert !Gives(cfg, s, line, n) && !Gives(cfg, s, line, m) && !Gives(cfg, s, line, y);
    var x := "CONFIG_" + cfg.syms[s].name;
    assert val == [val[0]] + val[1..];
    assert Rstrip(line) == x + ("=" + [val[0]]) + val[1..];
    assert x + ("=" + [val[0]]) <= line;
  }

  /** `v` is what the last line gives that gives the symbol anything. */
  ghost predicate LastGiven(cfg: Config, s: nat, lines: seq<string>, v: Tri) {
    exists i :: 0 <= i < |lines| && Gives(cfg, s, lines[i], v) && NoneGiven(cfg, s, lines[i + 1..])
  }

  ghost predicate NoneGiven(cfg: Config, s: nat, lines: seq<string>) {
    forall j, v :: 0 <= j < |lines| ==> !Gives(cfg, s, lines[j], v)
  }

  /** The symbol has been set to `v` since loading began. */
  predicate HasTri(st: LoadState, s: nat, v: Tri) {
    s in st.syms && s in st.user.tri && st.user.tri[s] == v
  }

  lemma GivenTri(cfg: Config, st: LoadState, line: string, s: nat, v: Tri)
    requires Named(cfg) && Gives(cfg, s, line, v)
    ensures HasTri(LoadLine(cfg, st, line), s, v)
  {
    GivenLine(cfg, st, line, s, v);
  }

  lemma {:induction false} NoneGivenTri(cfg: Config, st: LoadState, lines: seq<string>, s: nat)
    requires Named(cfg) && s < |cfg.syms| && BoolTri(cfg.syms[s].kind) && NoneGiven(cfg, s, lines)
    ensures SameSym(st, LoadLines(cfg, st, lines), s)
    decreases |lines|
  {
    if lines != [] {
      NotGivenLine(cfg, st, lines[0], s);
      assert forall j :: 0 <= j < |lines[1..]| ==> lines[1..][j] == lines[j + 1];
      NoneGivenTri(cfg, LoadLine(cfg, st, lines[0]), lines[1..], s);
    }
  }

  lemma {:induction false} LastGivenTri(cfg: Config, st: LoadState, lines: seq<string>, s: nat, v: Tri, i: nat)
    requires Named(cfg) && s < |cfg.syms| && i < |lines| && Gives(cfg, s, lines[i], v)
    requires NoneGiven(cfg, s, lines[i + 1..])
    ensures HasTri(LoadLines(cfg, st, lines), s, v)
    decreases i
  {
    var st' := LoadLine(cfg, st, lines[0]);
    if i == 0 {
      GivenTri(cfg, st, lines[0], s, v);
      NoneGivenTri(cfg, st', lines[1..], s);
    } else {
      assert lines[1..][i..] == lines[i + 1..];
      LastGivenTri(cfg, st', lines[1..], s, v, i - 1);
    }
  }

  lemma FirstGiven(cfg: Config, lines: seq<string>, s: nat)
    requires lines != []
    ensures NoneGiven(cfg, s, lines) <==> (forall v :: !Gives(cfg, s, lines[0], v)) && NoneGiven(cfg, s, lines[1..])
  {
    assert forall j :: 0 <= j < |lines[1..]| ==> lines[1..][j] == lines[j + 1];
    assert forall j :: 0 < j < |lines| ==> lines[j] == lines[1..][j - 1];
  }

  lemma {:induction false} SomeGiven(cfg: Config, lines: seq<string>, s: nat)
    requires !NoneGiven(cfg, s, lines)
    ensures exists v :: LastGiven(cfg, s, lines, v)
  {
    var rest := lines[1..];
    if NoneGiven(cfg, s, rest) {
      FirstGiven(cfg, lines, s);
      var v: Tri :| Gives(cfg, s, lines[0], v);
      assert LastGiven(cfg, s, lines, v);
    } else {
      SomeGiven(cfg, rest, s);
      var v: Tri :| LastGiven(cfg, s, rest, v);
      var i :| 0 <= i < |rest| && Gives(cfg, s, rest[i], v) && NoneGiven(cfg, s, rest[i + 1..]);
      assert rest[i] == lines[i + 1] && rest[i + 1..] == lines[i + 1 + 1..];
      assert LastGiven(cfg, s, lines, v);
    }
  }

  /** After a file has been loaded, the user value of a bool or tristate symbol is the one that the last
      line gives which gives it any, whatever it was before. There is none if no line does. */
  lemma LoadedTri(cfg: Config, u: User, text: string, s: nat)
    requires Named(cfg) && s < |cfg.syms| && BoolTri(cfg.syms[s].kind)
    ensures var u' := Load(cfg, u, text);
            forall v: Tri :: s in u'.tri && u'.tri[s] == v <==> LastGiven(cfg, s, Split(Translate(text)), v)
  {
    var lines := Split(Translate(text));
    var st := LoadState(u, {}, {});
    forall v | LastGiven(cfg, s, lines, v)
      ensures HasTri(LoadLines(cfg, st, lines), s, v)
    {
      var i :| 0 <= i < |lines| && Gives(cfg, s, lines[i], v) && NoneGiven(cfg, s, lines[i + 1..]);
      LastGivenTri(cfg, st, lines, s, v, i);
    }
    if NoneGiven(cfg, s, lines) {
      NoneGivenTri(cfg, st, lines, s);
    } else {
      SomeGiven(cfg, lines, s);
    }
  }

  /** `CONFIG_X=n` and `# CONFIG_X is not set` have the same effect, whatever follows them. */
  lemma SameNo(cfg: Config, st: LoadState, s: nat, more: string, others: string)
    requires Named(cfg) && s < |cfg.syms| && BoolTri(cfg.syms[s].kind)
    ensures LoadLine(cfg, st, "CONFIG_" + cfg.syms[s].name + "=n" + more)
            == LoadLine(cfg, st, "# CONFIG_" + cfg.syms[s].name + " is not set" + others)
  {
    GivenLine(cfg, st, "CONFIG_" + cfg.syms[s].name + "=n" + more, s, 0);
    GivenLine(cfg, st, "# CONFIG_" + cfg.syms[s].name + " is not set" + others, s, 0);
  }

  /* Strings and numbers */

  lemma AssignText(cfg: Config, st: LoadState, s: nat, text: string)
    requires s < |cfg.syms| && cfg.syms[s].kind in {Text, Int, Hex} && NumbersOk(cfg, st.user)
    ensures var st' := LoadSym(cfg, st, s, Chars(text));
            if cfg.syms[s].kind == Text || IsNumber(cfg, cfg.syms[s].kind, text) then HasText(st', s, text)
            else st' == st
  {
  }

  predicate HasText(st: LoadState, s: nat, text: string) {
    s in st.syms && s in st.user.text && st.user.text[s] == text
  }

  /** A quoted string in a line that assigns to a symbol is not touched by stripping the line. */
  lemma QuotedStays(cfg: Config, line: string, s: nat, body: string)
    requires s < |cfg.syms|
    ensures Quoted(body) <= Rest(cfg, s, line) <==> Quoted(body) <= Rest(cfg, s, Rstrip(line))
  {
    var x := Head(cfg, s);
    AtStart(line, x);
    AtStart(line, x + Quoted(body));
    HeadAndRest(cfg, line, s, Quoted(body));
    HeadAndRest(cfg, Rstrip(line), s, Quoted(body));
  }

  lemma HeadAndRest(cfg: Config, line: string, s: nat, p: string)
    requires s < |cfg.syms| && p != []
    ensures p <= Rest(cfg, s, line) <==> Head(cfg, s) + p <= line
  {
    var x := Head(cfg, s);
    if x <= line {
      assert line == x + line[|x|..];
    } else {
      assert x + p <= line ==> x <= line;
    }
  }

  lemma GivenString(cfg: Config, st: LoadState, line: string, s: nat, text: string)
    requires Named(cfg) && GivesText(cfg, s, line, text) && cfg.syms[s].kind == Text
    ensures LoadLine(cfg, st, line) == LoadSym(cfg, st, s, Chars(text))
  {
    var body :| Quoted(body) <= Rest(cfg, s, line) && Spells(body, text);
    QuotedStays(cfg, line, s, body);
    var val := Rest(cfg, s, Rstrip(line));
    assert Rstrip(line) == Assignment(cfg, s, val);
    SetLineEffect(cfg, st, line, s, val);
    StringMatchMeaning(val, body, text);
  }

  lemma GivenNumber(cfg: Config, st: LoadState, line: string, s: nat, text: string)
    requires Named(cfg) && GivesText(cfg, s, line, text) && IntHex(cfg.syms[s].kind)
    ensures LoadLine(cfg, st, line) == LoadSym(cfg, st, s, Chars(text))
  {
    RstripMeaning(line, Head(cfg, s) + text);
    SetLineEffect(cfg, st, line, s, text);
  }

  lemma GivenText(cfg: Config, st: LoadState, line: string, s: nat, text: string)
    requires Named(cfg) && GivesText(cfg, s, line, text) && NumbersOk(cfg, st.user)
    ensures HasText(LoadLine(cfg, st, line), s, text)
  {
    AssignText(cfg, st, s, text);
    if cfg.syms[s].kind == Text {
      GivenString(cfg, st, line, s, text);
    } else {
      GivenNumber(cfg, st, line, s, text);
    }
  }

  lemma NotGivenString(cfg: Config, line: string, s: nat, val: string)
    requires s < |cfg.syms| && cfg.syms[s].kind == Text && Rstrip(line) == Assignment(cfg, s, val)
    requires forall text :: !GivesText(cfg, s, line, text)
    ensures StringMatch(val).None?
  {
    if StringMatch(val).Some? {
      var body := StringMatch(val).value;
      assert !GivesText(cfg, s, line, Unescape(body));
      StringMatchMeaning(val, body, Unescape(body));
      QuotedStays(cfg, line, s, body);
    }
  }

  lemma NotGivenNumber(cfg: Config, line: string, s: nat, val: string)
    requires s < |cfg.syms| && IntHex(cfg.syms[s].kind) && Rstrip(line) == Assignment(cfg, s, val)
    requires forall text :: !GivesText(cfg, s, line, text)
    ensures !IsNumber(cfg, cfg.syms[s].kind, val)
  {
    RstripMeaning(line, Head(cfg, s) + val);
    assert !GivesText(cfg, s, line, val);
  }

  lemma NotGivenText(cfg: Config, st: LoadState, line: string, s: nat)
    requires Named(cfg) && s < |cfg.syms| && cfg.syms[s].kind in {Text, Int, Hex} && NumbersOk(cfg, st.user)
    requires forall text :: !GivesText(cfg, s, line, text)
    ensures SameSym(st, LoadLine(cfg, st, line), s)
  {
    if val :| Rstrip(line) == Assignment(cfg, s, val) {
      SetLineEffect(cfg, st, line, s, val);
      if cfg.syms[s].kind == Text {
        NotGivenString(cfg, line, s, val);
      } else {
        NotGivenNumber(cfg, line, s, val);
        AssignText(cfg, st, s, val);
      }
    } else {
      OtherLine(cfg, st, line, s);
    }
  }

  ghost predicate LastText(cfg: Config, s: nat, lines: seq<string>, text: string) {
    exists i :: 0 <= i < |lines| && GivesText(cfg, s, lines[i], text) && NoText(cfg, s, lines[i + 1..])
  }

  ghost predicate NoText(cfg: Config, s: nat, lines: seq<string>) {
    forall j, text :: 0 <= j < |lines| ==> !GivesText(cfg, s, lines[j], text)
  }

  lemma AssignmentKeepsNumbers(cfg: Config, st: LoadState, s: nat, val: string)
    requires WF(cfg) && s < |cfg.syms| && NumbersOk(cfg, st.user)
    ensures NumbersOk(cfg, LoadAssignment(cfg, st, s, val).user)
  {
    assert SymOk(cfg, s);
    var d := cfg.syms[s];
    if BoolTri(d.kind) {
      if val != [] {
        var value := Chars(val[..1]);
        AssigningKeepsNumbers(cfg, st.user, s, value);
        if d.choice.Some? {
          var st' := LoadMode(cfg, st, d.choice.value, value);
          assert NumbersOk(cfg, st'.user);
          AssigningKeepsNumbers(cfg, st'.user, s, value);
        }
      }
    } else if d.kind == Text {
      if StringMatch(val).Some? {
        AssigningKeepsNumbers(cfg, st.user, s, Chars(Unescape(StringMatch(val).value)));
      }
    } else {
      AssigningKeepsNumbers(cfg, st.user, s, Chars(val));
    }
  }

  lemma LineKeepsNumbers(cfg: Config, st: LoadState, line: string)
    requires WF(cfg) && NumbersOk(cfg, st.user)
    ensures NumbersOk(cfg, LoadLine(cfg, st, line).user)
  {
    var l := Rstrip(line);
    if SetMatch(l).Some? {
      LookupKnown(cfg, SetMatch(l).value.0, 0);
      var s := Lookup(cfg, SetMatch(l).value.0, 0);
      if s.Some? {
        AssignmentKeepsNumbers(cfg, st, s.value, SetMatch(l).value.1);
      }
    } else if UnsetMatch(l).Some? {
      LookupKnown(cfg, UnsetMatch(l).value, 0);
      var s := Lookup(cfg, UnsetMatch(l).value, 0);
      if s.Some? {
        AssigningKeepsNumbers(cfg, st.user, s.value, Chars("n"));
      }
    }
  }

  lemma {:induction false} NoneText(cfg: Config, st: LoadState, lines: seq<string>, s: nat)
    requires Named(cfg) && s < |cfg.syms| && cfg.syms[s].kind in {Text, Int, Hex} && NumbersOk(cfg, st.user)
    requires NoText(cfg, s, lines)
    ensures SameSym(st, LoadLines(cfg, st, lines), s)
    decreases |lines|
  {
    if lines != [] {
      NotGivenText(cfg, st, lines[0], s);
      LineKeepsNumbers(cfg, st, lines[0]);
      assert forall j :: 0 <= j < |lines[1..]| ==> lines[1..][j] == lines[j + 1];
      NoneText(cfg, LoadLine(cfg, st, lines[0]), lines[1..], s);
    }
  }

  lemma {:induction false} LastTextGiven(cfg: Config, st: LoadState, lines: seq<string>, s: nat, text: string, i: nat)
    requires Named(cfg) && s < |cfg.syms| && cfg.syms[s].kind in {Text, Int, Hex} && NumbersOk(cfg, st.user)
    requires i < |lines| && GivesText(cfg, s, lines[i], text) && NoText(cfg, s, lines[i + 1..])
    ensures HasText(LoadLines(cfg, st, lines), s, text)
    decreases i
  {
    var st' := LoadLine(cfg, st, lines[0]);
    LineKeepsNumbers(cfg, st, lines[0]);
    if i == 0 {
      GivenText(cfg, st, lines[0], s, text);
      NoneText(cfg, st', lines[1..], s);
    } else {
      assert lines[1..][i..] == lines[i + 1..];
      LastTextGiven(cfg, st', lines[1..], s, text, i - 1);
    }
  }

  lemma FirstText(cfg: Config, lines: seq<string>, s: nat)
    requires lines != []
    ensures NoText(cfg, s, lines) <==> (forall v :: !GivesText(cfg, s, lines[0], v)) && NoText(cfg, s, lines[1..])
  {
    assert forall j :: 0 <= j < |lines[1..]| ==> lines[1..][j] == lines[j + 1];
    assert forall j :: 0 < j < |lines| ==> lines[j] == lines[1..][j - 1];
  }

  lemma {:induction false} SomeText(cfg: Config, lines: seq<string>, s: nat)
    requires !NoText(cfg, s, lines)
    ensures exists text :: LastText(cfg, s, lines, text)
  {
    var rest := lines[1..];
    if NoText(cfg, s, rest) {
      FirstText(cfg, lines, s);
      var text :| GivesText(cfg, s, lines[0], text);
      assert LastText(cfg, s, lines, text);
    } else {
      SomeText(cfg, rest, s);
      var text :| LastText(cfg, s, rest, text);
      LaterText(cfg, lines, s, text);
    }
  }

  lemma LaterText(cfg: Config, lines: seq<string>, s: nat, text: string)
    requires lines != [] && LastText(cfg, s, lines[1..], text)
    ensures LastText(cfg, s, lines, text)
  {
    var rest := lines[1..];
    var i :| 0 <= i < |rest| && GivesText(cfg, s, rest[i], text) && NoText(cfg, s, rest[i + 1..]);
    var next := i + 1;
    assert rest[i] == lines[next] && rest[i + 1..] == lines[next + 1..];
  }

  /** The same for strings, which are given in quotes, and numbers. Lines that give an int or hex symbol a
      text that is no number are as if they were not there. */
  lemma LoadedText(cfg: Config, u: User, text: string, s: nat)
    requires Named(cfg) && s < |cfg.syms| && cfg.syms[s].kind in {Text, Int, Hex} && NumbersOk(cfg, u)
    ensures var u' := Load(cfg, u, text);
            forall t :: s in u'.text && u'.text[s] == t <==> LastText(cfg, s, Split(Translate(text)), t)
  {
    var lines := Split(Translate(text));
    var st := LoadState(u, {}, {});
    forall t | LastText(cfg, s, lines, t)
      ensures HasText(LoadLines(cfg, st, lines), s, t)
    {
      var i :| 0 <= i < |lines| && GivesText(cfg, s, lines[i], t) && NoText(cfg, s, lines[i + 1..]);
      LastTextGiven(cfg, st, lines, s, t, i);
    }
    if NoText(cfg, s, lines) {
      NoneText(cfg, st, lines, s);
    } else {
      SomeText(cfg, lines, s);
    }
  }

  /* Choices */

  /** The line gives m or y to a symbol of the choice, and the choice has such a mode. */
  ghost predicate GivesMode(cfg: Config, c: nat, line: string, v: Tri)
    requires c < |cfg.choices|
  {
    && v != 0 && (v == 1 ==> cfg.choices[c].kind == Tristate)
    && exists t :: Member(cfg, c, t) && Gives(cfg, t, line, v)
  }

  predicate Member(cfg: Config, c: nat, t: nat) {
    t < |cfg.syms| && cfg.syms[t].choice == Some(c)
  }

  /** Bool choices are not in m mode for the user. */
  ghost predicate ModesOk(cfg: Config, u: User) {
    forall c :: c in u.mode && c < |cfg.choices| && cfg.choices[c].kind == Bool ==> u.mode[c] != 1
  }

  predicate HasMode(st: LoadState, c: nat, v: Tri) {
    c in st.choices && c in st.user.mode && st.user.mode[c] == v
  }

  predicate SameMode(st: LoadState, st': LoadState, c: nat) {
    (c in st.choices <==> c in st'.choices) && SameAt(st.user.mode, st'.user.mode, c)
  }

  lemma GivenMode(cfg: Config, st: LoadState, line: string, c: nat, v: Tri)
    requires Named(cfg) && c < |cfg.choices| && BoolTri(cfg.choices[c].kind) && GivesMode(cfg, c, line, v)
    ensures HasMode(LoadLine(cfg, st, line), c, v)
  {
    var t :| Member(cfg, c, t) && Gives(cfg, t, line, v);
    GivenLine(cfg, st, line, t, v);
  }

  /** A letter that is accepted for a symbol. */
  lemma GivesLetter(cfg: Config, line: string, t: nat, val: string, v: Tri)
    requires t < |cfg.syms| && BoolTri(cfg.syms[t].kind) && Rstrip(line) == Assignment(cfg, t, val)
    requires val != [] && val[..1] == TriText(v) && (v == 1 ==> cfg.syms[t].kind == Tristate)
    ensures Gives(cfg, t, line, v)
  {
    RstripMeaning(line, Rstrip(line));
    var x := "CONFIG_" + cfg.syms[t].name;
    assert val == [val[0]] + val[1..];
    assert Rstrip(line) == x + ("=" + [val[0]]) + val[1..];
    assert x + ("=" + [val[0]]) <= line && val[..1] == [val[0]];
  }

  predicate Letter(kind: Kind, val: string) {
    val != [] && (val[0] in {'y', 'n'} || (kind == Tristate && val[0] == 'm'))
  }

  function LetterTri(c: char): Tri { if c == 'y' then 2 else if c == 'm' then 1 else 0 }

  lemma LetterLine(cfg: Config, st: LoadState, line: string, t: nat, val: string)
    requires Named(cfg) && t < |cfg.syms| && BoolTri(cfg.syms[t].kind) && Rstrip(line) == Assignment(cfg, t, val)
    requires Letter(cfg.syms[t].kind, val)
    ensures Gives(cfg, t, line, LetterTri(val[0]))
    ensures LoadAssignment(cfg, st, t, val) == AfterGiven(cfg, st, t, LetterTri(val[0]))
  {
    assert val[..1] == TriText(LetterTri(val[0]));
    GivesLetter(cfg, line, t, val, LetterTri(val[0]));
    GivenLine(cfg, st, line, t, LetterTri(val[0]));
    SetLineEffect(cfg, st, line, t, val);
  }

  lemma AfterGivenMode(cfg: Config, st: LoadState, t: nat, v: Tri, c: nat)
    requires WF(cfg) && ModesOk(cfg, st.user) && t < |cfg.syms|
    requires cfg.syms[t].choice == Some(c) && c < |cfg.choices| ==> v == 0 || (v == 1 && cfg.choices[c].kind == Bool)
    ensures SameMode(st, AfterGiven(cfg, st, t, v), c)
  {
    assert SymOk(cfg, t);
  }

  lemma AssignmentMode(cfg: Config, st: LoadState, line: string, t: nat, val: string, c: nat)
    requires Named(cfg) && ModesOk(cfg, st.user) && c < |cfg.choices| && BoolTri(cfg.choices[c].kind)
    requires t < |cfg.syms| && Rstrip(line) == Assignment(cfg, t, val) && forall v :: !GivesMode(cfg, c, line, v)
    ensures SameMode(st, LoadAssignment(cfg, st, t, val), c)
  {
    var d := cfg.syms[t];
    if BoolTri(d.kind) && Letter(d.kind, val) {
      LetterLine(cfg, st, line, t, val);
      var v := LetterTri(val[0]);
      assert !GivesMode(cfg, c, line, v);
      assert d.choice == Some(c) ==> Member(cfg, c, t);
      AfterGivenMode(cfg, st, t, v, c);
    }
  }

  lemma NotGivenMode(cfg: Config, st: LoadState, line: string, c: nat)
    requires Named(cfg) && ModesOk(cfg, st.user) && c < |cfg.choices| && BoolTri(cfg.choices[c].kind)
    requires forall v :: !GivesMode(cfg, c, line, v)
    ensures SameMode(st, LoadLine(cfg, st, line), c)
  {
    LineCases(cfg, st, line);
    if LoadLine(cfg, st, line) == st {
    } else if t: nat, val :| t < |cfg.syms| && Rstrip(line) == Assignment(cfg, t, val)
                             && LoadLine(cfg, st, line) == LoadAssignment(cfg, st, t, val) {
      AssignmentMode(cfg, st, line, t, val, c);
    }
  }

  lemma LineKeepsModes(cfg: Config, st: LoadState, line: string)
    requires Named(cfg) && ModesOk(cfg, st.user)
    ensures ModesOk(cfg, LoadLine(cfg, st, line).user)
  {
    LineCases(cfg, st, line);
    if LoadLine(cfg, st, line) == st {
    } else if t: nat, val :| t < |cfg.syms| && Rstrip(line) == Assignment(cfg, t, val)
                             && LoadLine(cfg, st, line) == LoadAssignment(cfg, st, t, val) {
      AssignmentKeepsModes(cfg, st, t, val);
    }
  }

  lemma LoadModeKeepsModes(cfg: Config, st: LoadState, c: nat, value: Input)
    requires ModesOk(cfg, st.user) && c < |cfg.choices|
    ensures ModesOk(cfg, LoadMode(cfg, st, c, value).user)
  {
  }

  lemma LoadSymKeepsModes(cfg: Config, st: LoadState, t: nat, value: Input)
    requires t < |cfg.syms|
    ensures LoadSym(cfg, st, t, value).user.mode == st.user.mode
  {
  }

  lemma AssignmentKeepsModes(cfg: Config, st: LoadState, t: nat, val: string)
    requires WF(cfg) && ModesOk(cfg, st.user) && t < |cfg.syms|
    ensures ModesOk(cfg, LoadAssignment(cfg, st, t, val).user)
  {
    var d := cfg.syms[t];
    assert SymOk(cfg, t);
    if BoolTri(d.kind) {
      if val != [] {
        var value := Chars(val[..1]);
        LoadSymKeepsModes(cfg, st, t, value);
        if d.choice.Some? {
          LoadModeKeepsModes(cfg, st, d.choice.value, value);
          LoadSymKeepsModes(cfg, LoadMode(cfg, st, d.choice.value, value), t, value);
        }
      }
    } else if d.kind == Text {
      if StringMatch(val).Some? {
        LoadSymKeepsModes(cfg, st, t, Chars(Unescape(StringMatch(val).value)));
      }
    } else {
      LoadSymKeepsModes(cfg, st, t, Chars(val));
    }
  }

  ghost predicate LastMode(cfg: Config, c: nat, lines: seq<string>, v: Tri)
    requires c < |cfg.choices|
  {
    exists i :: 0 <= i < |lines| && GivesMode(cfg, c, lines[i], v) && NoMode(cfg, c, lines[i + 1..])
  }

  ghost predicate NoMode(cfg: Config, c: nat, lines: seq<string>)
    requires c < |cfg.choices|
  {
    forall j, v :: 0 <= j < |lines| ==> !GivesMode(cfg, c, lines[j], v)
  }

  lemma {:induction false} NoModeGiven(cfg: Config, st: LoadState, lines: seq<string>, c: nat)
    requires Named(cfg) && ModesOk(cfg, st.user) && c < |cfg.choices| && BoolTri(cfg.choices[c].kind)
    requires NoMode(cfg, c, lines)
    ensures SameMode(st, LoadLines(cfg, st, lines), c)
    decreases |lines|
  {
    if lines != [] {
      FirstMode(cfg, lines, c);
      NotGivenMode(cfg, st, lines[0], c);
      LineKeepsModes(cfg, st, lines[0]);
      NoModeGiven(cfg, LoadLine(cfg, st, lines[0]), lines[1..], c);
    }
  }

  lemma FirstMode(cfg: Config, lines: seq<string>, c: nat)
    requires lines != [] && c < |cfg.choices|
    ensures NoMode(cfg, c, lines) <==> (forall v :: !GivesMode(cfg, c, lines[0], v)) && NoMode(cfg, c, lines[1..])
  {
    assert forall j :: 0 <= j < |lines[1..]| ==> lines[1..][j] == lines[j + 1];
    assert forall j :: 0 < j < |lines| ==> lines[j] == lines[1..][j - 1];
  }

  lemma {:induction false} LastModeGiven(cfg: Config, st: LoadState, lines: seq<string>, c: nat, v: Tri, i: nat)
    requires Named(cfg) && ModesOk(cfg, st.user) && c < |cfg.choices| && BoolTri(cfg.choices[c].kind)
    requires i < |lines| && GivesMode(cfg, c, lines[i], v) && NoMode(cfg, c, lines[i + 1..])
    ensures HasMode(LoadLines(cfg, st, lines), c, v)
    decreases i
  {
    var st' := LoadLine(cfg, st, lines[0]);
    LineKeepsModes(cfg, st, lines[0]);
    if i == 0 {
      GivenMode(cfg, st, lines[0], c, v);
      NoModeGiven(cfg, st', lines[1..], c);
    } else {
      assert lines[1..][i..] == lines[i + 1..];
      LastModeGiven(cfg, st', lines[1..], c, v, i - 1);
    }
  }

  lemma {:induction false} SomeMode(cfg: Config, lines: seq<string>, c: nat)
    requires c < |cfg.choices| && !NoMode(cfg, c, lines)
    ensures exists v :: LastMode(cfg, c, lines, v)
  {
    var rest := lines[1..];
    if NoMode(cfg, c, rest) {
      FirstMode(cfg, lines, c);
      var v: Tri :| GivesMode(cfg, c, lines[0], v);
      assert LastMode(cfg, c, lines, v);
    } else {
      SomeMode(cfg, rest, c);
      var v: Tri :| LastMode(cfg, c, rest, v);
      var i :| 0 <= i < |rest| && GivesMode(cfg, c, rest[i], v) && NoMode(cfg, c, rest[i + 1..]);
      assert rest[i] == lines[i + 1] && rest[i + 1..] == lines[i + 1 + 1..];
      assert LastMode(cfg, c, lines, v);
    }
  }

  lemma ModeAfter(cfg: Config, u: User, lines: seq<string>, c: nat)
    requires Named(cfg) && ModesOk(cfg, u) && c < |cfg.choices| && BoolTri(cfg.choices[c].kind)
    ensures var st := LoadLines(cfg, LoadState(u, {}, {}), lines);
            && (forall v :: LastMode(cfg, c, lines, v) ==> HasMode(st, c, v))
            && (c in st.choices <==> !NoMode(cfg, c, lines))
  {
    var st := LoadState(u, {}, {});
    forall v | LastMode(cfg, c, lines, v)
      ensures HasMode(LoadLines(cfg, st, lines), c, v)
    {
      var i :| 0 <= i < |lines| && GivesMode(cfg, c, lines[i], v) && NoMode(cfg, c, lines[i + 1..]);
      LastModeGiven(cfg, st, lines, c, v, i);
    }
    if NoMode(cfg, c, lines) {
      NoModeGiven(cfg, st, lines, c);
    } else {
      SomeMode(cfg, lines, c);
    }
  }

  /** After a file has been loaded, the user's mode of a choice is the last m or y that is given to one of
      its symbols, or only the last y if the choice is bool. There is none if none is given. */
  lemma LoadedMode(cfg: Config, u: User, text: string, c: nat)
    requires Named(cfg) && ModesOk(cfg, u) && c < |cfg.choices| && BoolTri(cfg.choices[c].kind)
    ensures var u' := Load(cfg, u, text);
            forall v: Tri :: c in u'.mode && u'.mode[c] == v <==> LastMode(cfg, c, Split(Translate(text)), v)
  {
    var lines := Split(Translate(text));
    ModeAfter(cfg, u, lines, c);
    if !NoMode(cfg, c, lines) {
      SomeMode(cfg, lines, c);
    }
  }

  ghost predicate GivesPick(cfg: Config, c: nat, line: string, t: nat) {
    Member(cfg, c, t) && Gives(cfg, t, line, 2)
  }

  lemma GivenPick(cfg: Config, st: LoadState, line: string, c: nat, t: nat)
    requires Named(cfg) && c < |cfg.choices| && GivesPick(cfg, c, line, t)
    ensures var st' := LoadLine(cfg, st, line); c in st'.user.pick && st'.user.pick[c] == t
  {
    GivenLine(cfg, st, line, t, 2);
  }

  lemma AssignmentPick(cfg: Config, st: LoadState, line: string, t: nat, val: string, c: nat)
    requires Named(cfg) && c < |cfg.choices|
    requires t < |cfg.syms| && Rstrip(line) == Assignment(cfg, t, val) && !GivesPick(cfg, c, line, t)
    ensures SameAt(st.user.pick, LoadAssignment(cfg, st, t, val).user.pick, c)
  {
    var d := cfg.syms[t];
    if BoolTri(d.kind) && Letter(d.kind, val) {
      LetterLine(cfg, st, line, t, val);
      AfterGivenPick(cfg, st, t, LetterTri(val[0]), c);
    }
  }

  lemma AfterGivenPick(cfg: Config, st: LoadState, t: nat, v: Tri, c: nat)
    requires WF(cfg) && t < |cfg.syms| && !(Member(cfg, c, t) && v == 2)
    ensures SameAt(st.user.pick, AfterGiven(cfg, st, t, v).user.pick, c)
  {
  }

  lemma NotGivenPick(cfg: Config, st: LoadState, line: string, c: nat)
    requires Named(cfg) && c < |cfg.choices| && forall t :: !GivesPick(cfg, c, line, t)
    ensures SameAt(st.user.pick, LoadLine(cfg, st, line).user.pick, c)
  {
    LineCases(cfg, st, line);
    if LoadLine(cfg, st, line) == st {
    } else if t: nat, val :| t < |cfg.syms| && Rstrip(line) == Assignment(cfg, t, val)
                             && LoadLine(cfg, st, line) == LoadAssignment(cfg, st, t, val) {
      AssignmentPick(cfg, st, line, t, val, c);
    }
  }

  ghost predicate LastPick(cfg: Config, c: nat, lines: seq<string>, t: nat) {
    exists i :: 0 <= i < |lines| && GivesPick(cfg, c, lines[i], t) && NoPick(cfg, c, lines[i + 1..])
  }

  ghost predicate NoPick(cfg: Config, c: nat, lines: seq<string>) {
    forall j, t :: 0 <= j < |lines| ==> !GivesPick(cfg, c, lines[j], t)
  }

  lemma FirstPick(cfg: Config, lines: seq<string>, c: nat)
    requires lines != []
    ensures NoPick(cfg, c, lines) <==> (forall t :: !GivesPick(cfg, c, lines[0], t)) && NoPick(cfg, c, lines[1..])
  {
    assert forall j :: 0 <= j < |lines[1..]| ==> lines[1..][j] == lines[j + 1];
    assert forall j :: 0 < j < |lines| ==> lines[j] == lines[1..][j - 1];
  }

  lemma {:induction false} NoPickGiven(cfg: Config, st: LoadState, lines: seq<string>, c: nat)
    requires Named(cfg) && c < |cfg.choices| && NoPick(cfg, c, lines)
    ensures SameAt(st.user.pick, LoadLines(cfg, st, lines).user.pick, c)
    decreases |lines|
  {
    if lines != [] {
      FirstPick(cfg, lines, c);
      NotGivenPick(cfg, st, lines[0], c);
      NoPickGiven(cfg, LoadLine(cfg, st, lines[0]), lines[1..], c);
    }
  }

  lemma {:induction false} LastPickGiven(cfg: Config, st: LoadState, lines: seq<string>, c: nat, t: nat, i: nat)
    requires Named(cfg) && c < |cfg.choices| && i < |lines|
    requires GivesPick(cfg, c, lines[i], t) && NoPick(cfg, c, lines[i + 1..])
    ensures var st' := LoadLines(cfg, st, lines); c in st'.user.pick && st'.user.pick[c] == t
    decreases i
  {
    var st' := LoadLine(cfg, st, lines[0]);
    if i == 0 {
      GivenPick(cfg, st, lines[0], c, t);
      NoPickGiven(cfg, st', lines[1..], c);
    } else {
      assert lines[1..][i..] == lines[i + 1..];
      LastPickGiven(cfg, st', lines[1..], c, t, i - 1);
    }
  }

  lemma {:induction false} SomePick(cfg: Config, lines: seq<string>, c: nat)
    requires !NoPick(cfg, c, lines)
    ensures exists t :: LastPick(cfg, c, lines, t)
  {
    var rest := lines[1..];
    if NoPick(cfg, c, rest) {
      FirstPick(cfg, lines, c);
      var t :| GivesPick(cfg, c, lines[0], t);
      assert LastPick(cfg, c, lines, t);
    } else {
      SomePick(cfg, rest, c);
      var t :| LastPick(cfg, c, rest, t);
      var i :| 0 <= i < |rest| && GivesPick(cfg, c, rest[i], t) && NoPick(cfg, c, rest[i + 1..]);
      assert rest[i] == lines[i + 1] && rest[i + 1..] == lines[i + 1 + 1..];
      assert LastPick(cfg, c, lines, t);
    }
  }

  /** After a file has been loaded, the symbol picked in a choice is the last one that is given y. If none
      is, but some symbol of the choice is given m, the earlier pick stays. */
  lemma LoadedPick(cfg: Config, u: User, text: string, c: nat, t: nat)
    requires Named(cfg) && ModesOk(cfg, u) && c < |cfg.choices| && BoolTri(cfg.choices[c].kind)
    ensures var lines, u' := Split(Translate(text)), Load(cfg, u, text);
            c in u'.pick && u'.pick[c] == t <==>
              || LastPick(cfg, c, lines, t)
              || (NoPick(cfg, c, lines) && !NoMode(cfg, c, lines) && c in u.pick && u.pick[c] == t)
  {
    var lines := Split(Translate(text));
    var st := LoadState(u, {}, {});
    ModeAfter(cfg, u, lines, c);
    if NoPick(cfg, c, lines) {
      NoPickGiven(cfg, st, lines, c);
    } else {
      SomePick(cfg, lines, c);
      PickMeansMode(cfg, lines, c);
      forall t' | LastPick(cfg, c, lines, t')
        ensures var st' := LoadLines(cfg, st, lines); c in st'.user.pick && st'.user.pick[c] == t'
      {
        var i :| 0 <= i < |lines| && GivesPick(cfg, c, lines[i], t') && NoPick(cfg, c, lines[i + 1..]);
        LastPickGiven(cfg, st, lines, c, t', i);
      }
    }
  }

  lemma PickMeansMode(cfg: Config, lines: seq<string>, c: nat)
    requires c < |cfg.choices| && !NoPick(cfg, c, lines)
    ensures !NoMode(cfg, c, lines)
  {
    var j, t :| 0 <= j < |lines| && GivesPick(cfg, c, lines[j], t);
    var y: Tri := 2;
    assert GivesMode(cfg, c, lines[j], y);
  }
}
