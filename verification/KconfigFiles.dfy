/** Writing and loading of .config files through the caching engine. */
module KconfigFiles {
  import opened KconfigSyntax
  import opened KconfigText
  import opened KconfigValues
  import opened KconfigReads
  import opened KconfigEngine
  import opened KconfigSaveLoad

  /** The line of a symbol. */
  method ConfigString(k: Kconfig, s: nat) returns (line: Option<string>)
    requires k.Valid() && s < |k.cfg.syms|
    modifies k`cache, k`modes
    ensures k.Valid() && line == ConfigLine(k.cfg, k.user, s)
  {
    var d := k.cfg.syms[s];
    var val := k.StrValue(s);
    assert k.cache[SStr(s)] == Fresh(k.cfg, k.user, SStr(s));
    if !k.cache[SStr(s)].str.write {
      return None;
    }
    if BoolTri(d.kind) {
      line := Some(if val != "n" then SetLine(d.name, val) else UnsetLine(d.name));
    } else if IntHex(d.kind) {
      line := Some(SetLine(d.name, val));
    } else {
      line := Some(SetLine(d.name, "\"" + Escape(val) + "\""));
    }
  }

  /** The value a symbol would get from defaults. */
  method DefaultText(k: Kconfig, s: nat) returns (text: string)
    requires k.Valid() && s < |k.cfg.syms|
    modifies k`cache, k`modes
    ensures k.Valid() && text == StrDefault(k.cfg, k.user, s)
  {
    var d := k.cfg.syms[s];
    assert SymOk(k.cfg, s);
    text := "";
    if BoolTri(d.kind) {
      var val: Tri := 0;
      if d.choice.None? {
        var def := k.DefaultTriValue(d.rank, d.defaults);
        var rev := k.Evaluate(d.rank, d.revDep);
        var weak := k.Evaluate(d.rank, d.weakRevDep);
        val := Max(Max(rev, weak), def.val);
        if val == 1 {
          var kind := k.SymType(s);
          if kind == Bool {
            val := 2;
          }
        }
      }
      text := TriText(val);
    } else if d.kind != Unknown {
      var def := k.DefaultStrValue(d.rank, d.defaults);
      text := if def.Some? then def.value else "";
    }
  }

  /** Whether the minimal configuration includes the symbol. */
  method Needed(k: Kconfig, s: nat) returns (yes: bool)
    requires k.Valid() && s < |k.cfg.syms|
    modifies k`cache, k`modes
    ensures k.Valid() && yes == InMinimal(k.cfg, k.user, s)
  {
    var d := k.cfg.syms[s];
    assert SymOk(k.cfg, s);
    if d.choice.None? {
      var vis := k.Visibility(s);
      var rev := k.Evaluate(d.rank, d.revDep);
      if vis <= rev {
        return false;
      }
    }
    var val := k.StrValue(s);
    var def := DefaultText(k, s);
    if val == def {
      return false;
    }
    if d.choice.Some? && !k.cfg.choices[d.choice.value].optional {
      var sel := k.SelectionFromDefaults(d.choice.value);
      if sel == Some(s) && d.kind == Bool {
        var tri := k.TriValue(s);
        return tri != 2;
      }
    }
    yes := true;
  }

  /** The line that a symbol gets in the file, if any. */
  method LineInFile(k: Kconfig, min: bool, s: nat) returns (line: Option<string>)
    requires k.Valid() && s < |k.cfg.syms|
    modifies k`cache, k`modes
    ensures k.Valid()
    ensures line == if Saved(k.cfg, k.user, min, s) then ConfigLine(k.cfg, k.user, s) else None
  {
    line := None;
    var needed := true;
    if min {
      needed := Needed(k, s);
    }
    if needed {
      line := ConfigString(k, s);
    }
  }

  lemma LinesStep(cfg: Config, u: User, min: bool, s: nat, text: string)
    requires Ok(cfg, u) && s < |cfg.syms|
    ensures text + Join(Lines(cfg, u, min, s))
            == (if Saved(cfg, u, min, s) then text + ConfigLine(cfg, u, s).value + "\n" else text)
               + Join(Lines(cfg, u, min, s + 1))
  {
    if Saved(cfg, u, min, s) {
      var line, rest := ConfigLine(cfg, u, s).value, Lines(cfg, u, min, s + 1);
      assert ([line] + rest)[1..] == rest;
      assert text + (line + "\n" + Join(rest)) == text + line + "\n" + Join(rest);
    }
  }

  /** The contents of a configuration file, in full or minimal. */
  method ConfigContents(k: Kconfig, min: bool) returns (text: string)
    requires k.Valid()
    modifies k`cache, k`modes
    ensures k.Valid() && text == Contents(k.cfg, k.user, min)
  {
    text := "";
    for s := 0 to |k.cfg.syms|
      invariant k.Valid()
      invariant text + Join(Lines(k.cfg, k.user, min, s)) == Contents(k.cfg, k.user, min)
    {
      var line := LineInFile(k, min, s);
      LinesStep(k.cfg, k.user, min, s, text);
      if line.Some? {
        text := text + line.value + "\n";
      }
    }
    assert text + [] == text;
  }

  /** Assigns a value that a line gives to a symbol. */
  method AssignLoaded(k: Kconfig, s: nat, value: Input, syms: set<nat>, choices: set<nat>)
    returns (syms': set<nat>, choices': set<nat>)
    requires k.Valid() && s < |k.cfg.syms|
    modifies k
    ensures k.Valid()
    ensures LoadState(k.user, syms', choices') == LoadSym(k.cfg, LoadState(old(k.user), syms, choices), s, value)
  {
    var d := k.cfg.syms[s];
    syms', choices' := syms, choices;
    var ok := k.SetValue(s, value);
    if ok {
      syms' := syms + {s};
      if d.choice.Some? && Normalized(d.kind, value) == KconfigEngine.Number(2) {
        choices' := choices + {d.choice.value};
      }
    } else {
      assert AssignSym(k.cfg, old(k.user), s, value).user == old(k.user);
    }
  }

  method ProcessAssignment(k: Kconfig, s: nat, val: string, syms: set<nat>, choices: set<nat>)
    returns (syms': set<nat>, choices': set<nat>)
    requires k.Valid() && s < |k.cfg.syms|
    modifies k
    ensures k.Valid()
    ensures LoadState(k.user, syms', choices') == LoadAssignment(k.cfg, LoadState(old(k.user), syms, choices), s, val)
  {
    var d := k.cfg.syms[s];
    assert SymOk(k.cfg, s);
    syms', choices' := syms, choices;
    if BoolTri(d.kind) {
      if val != [] && (val[0] in {'y', 'n'} || (d.kind == Tristate && val[0] == 'm')) {
        if d.choice.Some? && val[0] != 'n' {
          var ok := k.SetMode(d.choice.value, Chars(val[..1]));
          if ok {
            choices' := choices + {d.choice.value};
          } else {
            assert AssignChoice(k.cfg, old(k.user), d.choice.value, Chars(val[..1])).user == old(k.user);
          }
        }
        syms', choices' := AssignLoaded(k, s, Chars(val[..1]), syms', choices');
      }
    } else if d.kind == Text {
      var body := StringMatch(val);
      if body.Some? {
        syms', choices' := AssignLoaded(k, s, Chars(Unescape(body.value)), syms, choices);
      }
    } else {
      syms', choices' := AssignLoaded(k, s, Chars(val), syms, choices);
    }
  }

  method ProcessLine(k: Kconfig, rawLine: string, syms: set<nat>, choices: set<nat>)
    returns (syms': set<nat>, choices': set<nat>)
    requires k.Valid()
    modifies k
    ensures k.Valid()
    ensures LoadState(k.user, syms', choices') == LoadLine(k.cfg, LoadState(old(k.user), syms, choices), rawLine)
  {
    syms', choices' := syms, choices;
    var line := Rstrip(rawLine);
    var m := SetMatch(line);
    if m.Some? {
      LookupKnown(k.cfg, m.value.0, 0);
      var s := Lookup(k.cfg, m.value.0, 0);
      if s.Some? {
        syms', choices' := ProcessAssignment(k, s.value, m.value.1, syms, choices);
      }
      return;
    }
    var name := UnsetMatch(line);
    if name.Some? {
      LookupKnown(k.cfg, name.value, 0);
      var s := Lookup(k.cfg, name.value, 0);
      if s.Some? && BoolTri(k.cfg.syms[s.value].kind) {
        syms', choices' := AssignLoaded(k, s.value, Chars("n"), syms, choices);
      }
    }
  }

  /** The symbols and choices below the given positions that were not set have been unset. */
  ghost predicate Unsetting(st: LoadState, s: nat, c: nat, u: User) {
    && u.tri == (map i | i in st.user.tri && (i >= s || i in st.syms) :: st.user.tri[i])
    && u.text == (map i | i in st.user.text && (i >= s || i in st.syms) :: st.user.text[i])
    && u.mode == (map i | i in st.user.mode && (i >= c || i in st.choices) :: st.user.mode[i])
    && u.pick == (map i | i in st.user.pick && (i >= c || i in st.choices) :: st.user.pick[i])
  }

  method ProcessLines(k: Kconfig, lines: seq<string>) returns (syms: set<nat>, choices: set<nat>)
    requires k.Valid()
    modifies k
    ensures k.Valid()
    ensures LoadState(k.user, syms, choices) == LoadLines(k.cfg, LoadState(old(k.user), {}, {}), lines)
  {
    syms, choices := {}, {};
    for i := 0 to |lines|
      invariant k.Valid()
      invariant LoadLines(k.cfg, LoadState(k.user, syms, choices), lines[i..])
                == LoadLines(k.cfg, LoadState(old(k.user), {}, {}), lines)
    {
      syms, choices := ProcessLine(k, lines[i], syms, choices);
      assert lines[i..][1..] == lines[i + 1..];
    }
    assert lines[|lines|..] == [];
  }

  lemma UnsetSymStep(st: LoadState, s: nat, u: User)
    requires Unsetting(st, s, 0, u)
    ensures Unsetting(st, s + 1, 0, if s in st.syms then u else ClearSym(u, s))
  {
  }

  lemma UnsetChoiceStep(st: LoadState, s: nat, c: nat, u: User)
    requires Unsetting(st, s, c, u)
    ensures Unsetting(st, s, c + 1, if c in st.choices then u else ClearChoice(u, c))
  {
  }

  lemma UnsettingEnd(cfg: Config, st: LoadState, u: User)
    requires UserOk(cfg, st.user) && Unsetting(st, |cfg.syms|, |cfg.choices|, u)
    ensures u == Unset(st)
  {
  }

  method UnsetSyms(k: Kconfig, syms: set<nat>, ghost st: LoadState)
    requires k.Valid() && st.user == k.user && st.syms == syms
    modifies k
    ensures k.Valid() && Unsetting(st, |k.cfg.syms|, 0, k.user)
  {
    for s := 0 to |k.cfg.syms|
      invariant k.Valid() && Unsetting(st, s, 0, k.user)
    {
      UnsetSymStep(st, s, k.user);
      if s !in syms {
        k.UnsetValue(s);
      }
    }
  }

  /** Unsets the symbols and choices that were not set. */
  method UnsetOthers(k: Kconfig, syms: set<nat>, choices: set<nat>)
    requires k.Valid()
    modifies k
    ensures k.Valid() && k.user == Unset(LoadState(old(k.user), syms, choices))
  {
    ghost var st := LoadState(k.user, syms, choices);
    UnsetSyms(k, syms, st);
    for c := 0 to |k.cfg.choices|
      invariant k.Valid() && Unsetting(st, |k.cfg.syms|, c, k.user)
    {
      UnsetChoiceStep(st, |k.cfg.syms|, c, k.user);
      if c !in choices {
        k.UnsetMode(c);
      }
    }
    UnsettingEnd(k.cfg, st, k.user);
  }

  /** Loads a file in place of the current configuration. */
  method LoadConfig(k: Kconfig, text: string)
    requires k.Valid()
    modifies k
    ensures k.Valid() && k.user == Load(k.cfg, old(k.user), text)
  {
    var syms, choices := ProcessLines(k, Split(Translate(text)));
    UnsetOthers(k, syms, choices);
  }
}
