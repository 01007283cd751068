/** What writing a configuration does, said in terms of values and defaults. */
module KconfigWriteMeaning {
  import opened KconfigSyntax
  import opened KconfigText
  import opened KconfigValues
  import opened KconfigMeaning
  import opened KconfigSaveLoad
  import opened KconfigLoadMeaning

  /* Lines */

  /** `body` is `text` with a backslash before each quote and each backslash. */
  predicate Escaped(body: string, text: string) {
    if text == [] then body == []
    else if text[0] == '"' || text[0] == '\\' then
      |body| > 1 && body[0] == '\\' && body[1] == text[0] && Escaped(body[2..], text[1..])
    else body != [] && body[0] == text[0] && Escaped(body[1..], text[1..])
  }

  lemma {:induction false} EscapeMeaning(text: string)
    ensures Escaped(Escape(text), text)
  {
    if text != [] {
      assert text == [text[0]] + text[1..];
      EscapeCons(text[0], text[1..]);
      EscapeMeaning(text[1..]);
      var body := EscapeChar(text[0]) + Escape(text[1..]);
      assert body[|EscapeChar(text[0])|..] == Escape(text[1..]);
    }
  }

  /** The line that says what the value of a symbol is. */
  ghost predicate LineFor(cfg: Config, u: User, s: nat, line: string)
    requires Ok(cfg, u) && s < |cfg.syms|
  {
    var x, val := "CONFIG_" + cfg.syms[s].name, SymStr(cfg, u, s).val;
    match cfg.syms[s].kind
    case Bool => line == (if val == "n" then "# " + x + " is not set" else x + "=" + val)
    case Tristate => line == (if val == "n" then "# " + x + " is not set" else x + "=" + val)
    case Int => line == x + "=" + val
    case Hex => line == x + "=" + val
    case Text => exists body :: Escaped(body, val) && line == x + "=\"" + body + "\""
    case Unknown => false
  }

  lemma LineMeaning(cfg: Config, u: User, s: nat)
    requires Ok(cfg, u) && s < |cfg.syms|
    ensures ConfigLine(cfg, u, s).Some? <==> SymStr(cfg, u, s).write
    ensures ConfigLine(cfg, u, s).Some? ==> LineFor(cfg, u, s, ConfigLine(cfg, u, s).value)
  {
    var x, val := "CONFIG_" + cfg.syms[s].name, SymStr(cfg, u, s).val;
    LetterMeaning(cfg, u, s);
    if cfg.syms[s].kind == Text {
      EscapeMeaning(val);
      assert SetLine(cfg.syms[s].name, "\"" + Escape(val) + "\"") == x + "=\"" + Escape(val) + "\"";
    }
  }

  /* Files */

  /** The symbols of the file are in the order of the configuration, and are those that are written. */
  ghost predicate Listed(cfg: Config, u: User, min: bool, from: nat, order: seq<nat>)
    requires Ok(cfg, u)
  {
    && (forall i, j :: 0 <= i < j < |order| ==> order[i] < order[j])
    && forall s: nat :: s in order <==> from <= s < |cfg.syms| && Written(cfg, u, min, s)
  }

  /** The lines are those of the symbols, one for each. */
  ghost predicate Lined(cfg: Config, u: User, order: seq<nat>, lines: seq<string>)
    requires Ok(cfg, u)
  {
    && |lines| == |order|
    && forall i :: 0 <= i < |order| ==> order[i] < |cfg.syms| && LineFor(cfg, u, order[i], lines[i])
  }

  lemma ListedFirst(cfg: Config, u: User, min: bool, from: nat, rest: seq<nat>)
    requires Ok(cfg, u) && from < |cfg.syms| && Listed(cfg, u, min, from + 1, rest) && Written(cfg, u, min, from)
    ensures Listed(cfg, u, min, from, [from] + rest)
  {
    var order := [from] + rest;
    forall i, j | 0 <= i < j < |order|
      ensures order[i] < order[j]
    {
      assert order[j] in rest;
    }
  }

  lemma ListedNext(cfg: Config, u: User, min: bool, from: nat, rest: seq<nat>)
    requires Ok(cfg, u) && from < |cfg.syms| && Listed(cfg, u, min, from + 1, rest) && !Written(cfg, u, min, from)
    ensures Listed(cfg, u, min, from, rest)
  {
  }

  lemma LinedFirst(cfg: Config, u: User, s: nat, line: string, rest: seq<nat>, lines: seq<string>)
    requires Ok(cfg, u) && s < |cfg.syms| && LineFor(cfg, u, s, line) && Lined(cfg, u, rest, lines)
    ensures Lined(cfg, u, [s] + rest, [line] + lines)
  {
  }

  lemma {:induction false} LinesListed(cfg: Config, u: User, min: bool, from: nat) returns (order: seq<nat>)
    requires Ok(cfg, u) && from <= |cfg.syms|
    ensures Listed(cfg, u, min, from, order) && Lined(cfg, u, order, Lines(cfg, u, min, from))
    decreases |cfg.syms| - from
  {
    if from == |cfg.syms| {
      order := [];
    } else {
      var rest := LinesListed(cfg, u, min, from + 1);
      LineMeaning(cfg, u, from);
      WrittenMeaning(cfg, u, min, from);
      if Saved(cfg, u, min, from) {
        order := [from] + rest;
        ListedFirst(cfg, u, min, from, rest);
        LinedFirst(cfg, u, from, ConfigLine(cfg, u, from).value, rest, Lines(cfg, u, min, from + 1));
      } else {
        order := rest;
        ListedNext(cfg, u, min, from, rest);
      }
    }
  }

  lemma {:induction false} JoinIsWhole(lines: seq<string>)
    ensures Join(lines) == Whole(lines, seq(|lines|, _ => "\n"), "")
  {
    if lines != [] {
      JoinIsWhole(lines[1..]);
      assert seq(|lines|, _ => "\n")[1..] == seq(|lines[1..]|, _ => "\n");
    }
  }

  /** A written file has one line for each symbol that is written, in the order of the configuration. */
  lemma FileMeaning(cfg: Config, u: User, min: bool)
    requires Ok(cfg, u)
    ensures exists order, lines ::
              && Listed(cfg, u, min, 0, order) && Lined(cfg, u, order, lines)
              && Contents(cfg, u, min) == Whole(lines, seq(|lines|, _ => "\n"), "")
  {
    var order := LinesListed(cfg, u, min, 0);
    var lines := Lines(cfg, u, min, 0);
    JoinIsWhole(lines);
    assert Listed(cfg, u, min, 0, order) && Lined(cfg, u, order, lines);
  }

  /* The minimal configuration */

  /** What the value of a symbol would be by default, as the minimal configuration has it: implies count
      even if they are not met, and symbols of choices are n. */
  ghost predicate ByDefault(cfg: Config, u: User, s: nat, text: string)
    requires Ok(cfg, u) && s < |cfg.syms|
  {
    var d := cfg.syms[s];
    if d.kind == Unknown then text == ""
    else if d.kind != Bool && d.kind != Tristate then OwnText(cfg, u, s, text)
    else if d.choice.Some? then text == "n"
    else
      exists own: Tri, raw: Tri ::
        && OwnValue(cfg, u, s, own)
        && LargestOf(raw, SelectedTo(cfg, u, s), ImpliedTo(cfg, u, s), own)
        && text == ["nmy"[if raw == 1 && !CanBeM(cfg, u, s) then 2 else raw]]
  }

  /** The symbol is written and, in a minimal configuration, is not left out: because it cannot be changed,
      has its default value, or is y and what its choice selects by default. */
  ghost predicate Written(cfg: Config, u: User, min: bool, s: nat)
    requires Ok(cfg, u) && s < |cfg.syms|
  {
    var d := cfg.syms[s];
    && SymStr(cfg, u, s).write
    && (min ==>
          && (d.choice.None? ==> SymVis(cfg, u, s) > SelectedTo(cfg, u, s))
          && !ByDefault(cfg, u, s, SymStr(cfg, u, s).val)
          && !DefaultOfChoice(cfg, u, s))
  }

  ghost predicate DefaultOfChoice(cfg: Config, u: User, s: nat)
    requires Ok(cfg, u) && s < |cfg.syms|
  {
    var d := cfg.syms[s];
    && d.choice.Some? && d.choice.value < |cfg.choices| && !cfg.choices[d.choice.value].optional
    && DefaultChoice(cfg, u, d.choice.value, s)
    && d.kind == Bool && SymTri(cfg, u, s).val == 2
  }

  lemma ByDefaultTri(cfg: Config, u: User, s: nat, text: string)
    requires Ok(cfg, u) && s < |cfg.syms| && BoolTri(cfg.syms[s].kind) && cfg.syms[s].choice.None?
    ensures ByDefault(cfg, u, s, text) <==> StrDefault(cfg, u, s) == text
  {
    var d := cfg.syms[s];
    assert SymOk(cfg, s);
    DefaultTriIs(cfg, u, s, 0);
    var own := DefaultTri(cfg, u, d.rank, d.defaults, 0).val;
    var raw := Max(Max(SelectedTo(cfg, u, s), ImpliedTo(cfg, u, s)), own);
    assert OwnValue(cfg, u, s, own) && LargestOf(raw, SelectedTo(cfg, u, s), ImpliedTo(cfg, u, s), own);
    forall own': Tri | OwnValue(cfg, u, s, own')
      ensures own' == own
    {
      OneOwnValue(cfg, u, s, own, own');
    }
  }

  lemma ByDefaultText(cfg: Config, u: User, s: nat, text: string)
    requires Ok(cfg, u) && s < |cfg.syms| && cfg.syms[s].kind in {Text, Int, Hex}
    ensures ByDefault(cfg, u, s, text) <==> StrDefault(cfg, u, s) == text
  {
    assert SymOk(cfg, s);
    DefaultStrIs(cfg, u, s, 0);
    if OwnText(cfg, u, s, text) {
      OneOwnText(cfg, u, s, text, StrDefault(cfg, u, s));
    }
  }

  lemma OneOwnText(cfg: Config, u: User, s: nat, t1: string, t2: string)
    requires Ok(cfg, u) && s < |cfg.syms| && OwnText(cfg, u, s, t1) && OwnText(cfg, u, s, t2)
    ensures t1 == t2
  {
    forall j: nat, k: nat | FirstDefault(cfg, u, s, j) && FirstDefault(cfg, u, s, k)
      ensures j == k && !NoDefault(cfg, u, s)
    {
      OneFirstDefault(cfg, u, s, j, k);
    }
  }

  lemma WrittenMeaning(cfg: Config, u: User, min: bool, s: nat)
    requires Ok(cfg, u) && s < |cfg.syms|
    ensures Saved(cfg, u, min, s) <==> Written(cfg, u, min, s)
  {
    var d := cfg.syms[s];
    assert SymOk(cfg, s);
    LineMeaning(cfg, u, s);
    if BoolTri(d.kind) && d.choice.None? {
      ByDefaultTri(cfg, u, s, SymStr(cfg, u, s).val);
    } else if d.kind in {Text, Int, Hex} {
      ByDefaultText(cfg, u, s, SymStr(cfg, u, s).val);
    }
    if d.choice.Some? {
      DefaultPickIsDefault(cfg, u, d.choice.value, s);
    }
  }
}
