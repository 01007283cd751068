/** Writing a configuration, in full or in minimal form, and loading it again. */
module KconfigSaveLoad {
  import opened KconfigSyntax
  import opened KconfigText
  import opened KconfigValues
  import opened KconfigEngine
  import opened KconfigChoices

  /* Writing */

  /** The line of a symbol without its line break, or nothing if the symbol is not written. */
  function ConfigLine(cfg: Config, u: User, s: nat): Option<string>
    requires Ok(cfg, u) && s < |cfg.syms|
  {
    var d := cfg.syms[s];
    var str := SymStr(cfg, u, s);
    if !str.write then None
    else if BoolTri(d.kind) then
      Some(if str.val != "n" then SetLine(d.name, str.val) else UnsetLine(d.name))
    else if IntHex(d.kind) then Some(SetLine(d.name, str.val))
    else Some(SetLine(d.name, "\"" + Escape(str.val) + "\""))
  }

  /** The value a symbol would get from defaults, as the minimal configuration computes it. */
  function StrDefault(cfg: Config, u: User, s: nat): string
    requires Ok(cfg, u) && s < |cfg.syms|
  {
    var d := cfg.syms[s];
    assert SymOk(cfg, s);
    if BoolTri(d.kind) then
      if d.choice.Some? then "n"
      else
        var def := DefaultTri(cfg, u, d.rank, d.defaults, 0).val;
        var val := Max(Max(ExprValue(cfg, u, d.rank, d.revDep), ExprValue(cfg, u, d.rank, d.weakRevDep)), def);
        TriText(if val == 1 && SymKind(cfg, u, s) == Bool then 2 else val)
    else if d.kind != Unknown then
      match DefaultStr(cfg, u, d.rank, d.defaults, 0)
      case Some(text) => text
      case None => ""
    else ""
  }

  /** The minimal configuration has a line for the symbol if the symbol is written at all. */
  predicate InMinimal(cfg: Config, u: User, s: nat)
    requires Ok(cfg, u) && s < |cfg.syms|
  {
    var d := cfg.syms[s];
    assert SymOk(cfg, s);
    && !(d.choice.None? && SymVis(cfg, u, s) <= ExprValue(cfg, u, d.rank, d.revDep))
    && SymStr(cfg, u, s).val != StrDefault(cfg, u, s)
    && !(d.choice.Some? && !cfg.choices[d.choice.value].optional
         && DefaultPick(cfg, u, d.choice.value, 0) == Some(s)
         && d.kind == Bool && SymTri(cfg, u, s).val == 2)
  }

  /** The lines of the symbols from `s` on. */
  function Lines(cfg: Config, u: User, min: bool, s: nat): seq<string>
    requires Ok(cfg, u) && s <= |cfg.syms|
    decreases |cfg.syms| - s
  {
    if s == |cfg.syms| then []
    else if ConfigLine(cfg, u, s).Some? && (min ==> InMinimal(cfg, u, s)) then
      [ConfigLine(cfg, u, s).value] + Lines(cfg, u, min, s + 1)
    else Lines(cfg, u, min, s + 1)
  }

  function Contents(cfg: Config, u: User, min: bool): string
    requires Ok(cfg, u)
  {
    Join(Lines(cfg, u, min, 0))
  }

  /* Loading */

  /** The user's input, and the symbols and choices that have been set since loading began. */
  datatype LoadState = LoadState(user: User, syms: set<nat>, choices: set<nat>)

  function Lookup(cfg: Config, name: string, s: nat): Option<nat>
    requires s <= |cfg.syms|
    decreases |cfg.syms| - s
  {
    if s == |cfg.syms| then None
    else if cfg.syms[s].name == name then Some(s)
    else Lookup(cfg, name, s + 1)
  }

  /** Assigns to a symbol while a file is loaded. */
  function LoadSym(cfg: Config, st: LoadState, s: nat, value: Input): LoadState
    requires s < |cfg.syms|
  {
    var d := cfg.syms[s];
    var r := AssignSym(cfg, st.user, s, value);
    if !r.accepted then st
    else
      LoadState(r.user, st.syms + {s},
                if d.choice.Some? && Normalized(d.kind, value) == KconfigEngine.Number(2)
                then st.choices + {d.choice.value} else st.choices)
  }

  /** Infers the mode of a choice from the value that is assigned to one of its symbols. */
  function LoadMode(cfg: Config, st: LoadState, c: nat, value: Input): LoadState
    requires c < |cfg.choices|
  {
    var r := AssignChoice(cfg, st.user, c, value);
    if r.accepted then st.(user := r.user, choices := st.choices + {c}) else st
  }

  function LoadAssignment(cfg: Config, st: LoadState, s: nat, val: string): LoadState
    requires WF(cfg) && s < |cfg.syms|
  {
    var d := cfg.syms[s];
    assert SymOk(cfg, s);
    if BoolTri(d.kind) then
      if val == [] || !(val[0] in {'y', 'n'} || (d.kind == Tristate && val[0] == 'm')) then st
      else
        var v := Chars(val[..1]);
        LoadSym(cfg, if d.choice.Some? && val[0] != 'n' then LoadMode(cfg, st, d.choice.value, v) else st, s, v)
    else if d.kind == Text then
      match StringMatch(val)
      case Some(body) => LoadSym(cfg, st, s, Chars(Unescape(body)))
      case None => st
    else LoadSym(cfg, st, s, Chars(val))
  }

  function LoadLine(cfg: Config, st: LoadState, rawLine: string): LoadState
    requires WF(cfg)
  {
    var line := Rstrip(rawLine);
    match SetMatch(line)
    case Some(m) =>
      (match Lookup(cfg, m.0, 0)
       case Some(s) => LookupKnown(cfg, m.0, 0); LoadAssignment(cfg, st, s, m.1)
       case None => st)
    case None =>
      match UnsetMatch(line)
      case Some(name) =>
        (match Lookup(cfg, name, 0)
         case Some(s) =>
           LookupKnown(cfg, name, 0);
           if BoolTri(cfg.syms[s].kind) then LoadSym(cfg, st, s, Chars("n")) else st
         case None => st)
      case None => st
  }

  function LoadLines(cfg: Config, st: LoadState, lines: seq<string>): LoadState
    requires WF(cfg)
    decreases |lines|
  {
    if lines == [] then st else LoadLines(cfg, LoadLine(cfg, st, lines[0]), lines[1..])
  }

  /** Removes what was not set from the user's input. */
  function Unset(st: LoadState): User {
    User(map s | s in st.user.tri && s in st.syms :: st.user.tri[s],
         map s | s in st.user.text && s in st.syms :: st.user.text[s],
         map c | c in st.user.mode && c in st.choices :: st.user.mode[c],
         map c | c in st.user.pick && c in st.choices :: st.user.pick[c])
  }

  /** Loads a file in place of the current configuration. */
  function Load(cfg: Config, u: User, text: string): User
    requires WF(cfg)
  {
    Unset(LoadLines(cfg, LoadState(u, {}, {}), Split(Translate(text))))
  }

  lemma {:induction false} LookupKnown(cfg: Config, name: string, s: nat)
    requires s <= |cfg.syms|
    ensures Lookup(cfg, name, s).Some? ==> s <= Lookup(cfg, name, s).value < |cfg.syms|
    decreases |cfg.syms| - s
  {
    if s < |cfg.syms| {
      LookupKnown(cfg, name, s + 1);
    }
  }

  /* The configurations that are covered */

  /** The choices are bool choices of bool symbols, and are not optional. */
  ghost predicate Plain(cfg: Config) {
    && WF(cfg)
    && (forall s :: 0 <= s < |cfg.syms| ==>
          && NameOk(cfg.syms[s].name)
          && (forall t :: 0 <= t < |cfg.syms| && t != s ==> cfg.syms[t].name != cfg.syms[s].name))
    && (forall c :: 0 <= c < |cfg.choices| ==>
          && cfg.choices[c].kind == Bool && !cfg.choices[c].optional && PropagatedTo(cfg, c)
          && forall s :: s in cfg.choices[c].syms && s < |cfg.syms| ==> cfg.syms[s].kind == Bool)
  }

  /** The text can be written on a line of its own and read back: it has no line break and, as it is not
      quoted, a number does not end in white space. */
  predicate LineOk(kind: Kind, text: string) {
    Clean(text) && (IntHex(kind) && text != [] ==> !IsSpace(text[|text| - 1]))
  }

  /** What the user has set for int and hex symbols are numbers, as assigning asks for. */
  ghost predicate NumbersOk(cfg: Config, u: User) {
    forall s :: s in u.text && s < |cfg.syms| && IntHex(cfg.syms[s].kind) ==>
      Accepts(cfg, cfg.syms[s].kind, Chars(u.text[s]))
  }

  /** All values can be written and read back. */
  ghost predicate Writable(cfg: Config, u: User)
    requires Ok(cfg, u)
  {
    && NumbersOk(cfg, u)
    && forall s :: 0 <= s < |cfg.syms| && !BoolTri(cfg.syms[s].kind) && cfg.syms[s].kind != Unknown ==>
         LineOk(cfg.syms[s].kind, SymStr(cfg, u, s).val)
  }

  /** Assigning only ever sets numbers for int and hex symbols. */
  lemma AssigningKeepsNumbers(cfg: Config, u: User, s: nat, value: Input)
    requires s < |cfg.syms| && NumbersOk(cfg, u)
    ensures NumbersOk(cfg, AssignSym(cfg, u, s, value).user)
  {
  }

  /* What loading makes of the written lines */

  /** The symbol has a line in the file. */
  predicate Saved(cfg: Config, u: User, min: bool, s: nat)
    requires Ok(cfg, u)
  {
    s < |cfg.syms| && ConfigLine(cfg, u, s).Some? && (min ==> InMinimal(cfg, u, s))
  }

  lemma {:induction false} LookupName(cfg: Config, s: nat, from: nat)
    requires Plain(cfg) && from <= s < |cfg.syms|
    ensures Lookup(cfg, cfg.syms[s].name, from) == Some(s)
    decreases s - from
  {
    if from < s {
      LookupName(cfg, s, from + 1);
    }
  }

  /** The effect of the line of a symbol. */
  function Entered(cfg: Config, u: User, st: LoadState, s: nat): LoadState
    requires Ok(cfg, u) && s < |cfg.syms|
  {
    var d := cfg.syms[s];
    if BoolTri(d.kind) then
      var v := SymTri(cfg, u, s).val;
      if d.choice.Some? && v == 2 then
        LoadState(st.user.(tri := st.user.tri[s := v], mode := st.user.mode[d.choice.value := 2],
                           pick := st.user.pick[d.choice.value := s]),
                  st.syms + {s}, st.choices + {d.choice.value})
      else st.(user := st.user.(tri := st.user.tri[s := v]), syms := st.syms + {s})
    else if Accepts(cfg, d.kind, Chars(SymStr(cfg, u, s).val)) then
      st.(user := st.user.(text := st.user.text[s := SymStr(cfg, u, s).val]), syms := st.syms + {s})
    else st
  }

  /** The symbol has a line whose value is accepted when it is read. */
  predicate Taken(cfg: Config, u: User, min: bool, s: nat)
    requires Ok(cfg, u)
  {
    Saved(cfg, u, min, s)
    && (BoolTri(cfg.syms[s].kind) || Accepts(cfg, cfg.syms[s].kind, Chars(SymStr(cfg, u, s).val)))
  }

  lemma RstripKeeps(s: string)
    requires s != [] && !IsSpace(s[|s| - 1])
    ensures Rstrip(s) == s
  {
  }

  /** Bool symbols have the values n and y only. */
  lemma BoolValue(cfg: Config, u: User, s: nat)
    requires Ok(cfg, u) && Plain(cfg) && s < |cfg.syms| && cfg.syms[s].kind == Bool
    ensures SymTri(cfg, u, s).val != 1 && SymVis(cfg, u, s) != 1 && SymKind(cfg, u, s) == Bool
  {
    assert SymOk(cfg, s);
    if cfg.syms[s].choice.Some? {
      ChoiceSymValue(cfg, u, cfg.syms[s].choice.value, s);
      assert cfg.choices[cfg.syms[s].choice.value].kind == Bool;
    }
  }

  lemma ChoiceSymIsBool(cfg: Config, s: nat)
    requires Plain(cfg) && s < |cfg.syms| && cfg.syms[s].choice.Some?
    ensures cfg.syms[s].kind == Bool
  {
    assert SymOk(cfg, s);
    assert PropagatedTo(cfg, cfg.syms[s].choice.value);
  }

  lemma TextOutsideChoices(cfg: Config, s: nat)
    requires Plain(cfg) && s < |cfg.syms| && cfg.syms[s].kind != Bool
    ensures cfg.syms[s].choice.None?
  {
    if cfg.syms[s].choice.Some? {
      ChoiceSymIsBool(cfg, s);
    }
  }

  /** A line that assigns to the symbol of its name. */
  lemma LoadSetLine(cfg: Config, st: LoadState, s: nat, val: string)
    requires Plain(cfg) && s < |cfg.syms| && (val != [] ==> !IsSpace(val[|val| - 1]))
    ensures LoadLine(cfg, st, SetLine(cfg.syms[s].name, val)) == LoadAssignment(cfg, st, s, val)
  {
    assert NameOk(cfg.syms[s].name);
    LookupName(cfg, s, 0);
    RstripKeeps(SetLine(cfg.syms[s].name, val));
    SetLineMatch(cfg.syms[s].name, val);
  }

  lemma SetLineClean(name: string, val: string)
    requires NameOk(name) && Clean(val)
    ensures Clean(SetLine(name, val)) && Clean(UnsetLine(name))
  {
  }

  lemma LoadWrittenText(cfg: Config, u: User, st: LoadState, s: nat)
    requires Ok(cfg, u) && Plain(cfg) && Writable(cfg, u) && s < |cfg.syms|
    requires cfg.syms[s].kind == Text && ConfigLine(cfg, u, s).Some?
    ensures LoadLine(cfg, st, ConfigLine(cfg, u, s).value) == Entered(cfg, u, st, s)
    ensures Clean(ConfigLine(cfg, u, s).value)
  {
    var val := SymStr(cfg, u, s).val;
    TextOutsideChoices(cfg, s);
    LoadSetLine(cfg, st, s, "\"" + Escape(val) + "\"");
    QuotedString(val);
    EscapeClean(val);
    assert NameOk(cfg.syms[s].name);
    SetLineClean(cfg.syms[s].name, "\"" + Escape(val) + "\"");
  }

  lemma LoadWrittenNumber(cfg: Config, u: User, st: LoadState, s: nat)
    requires Ok(cfg, u) && Plain(cfg) && Writable(cfg, u) && s < |cfg.syms|
    requires IntHex(cfg.syms[s].kind) && ConfigLine(cfg, u, s).Some? && NumbersOk(cfg, st.user)
    ensures LoadLine(cfg, st, ConfigLine(cfg, u, s).value) == Entered(cfg, u, st, s)
    ensures Clean(ConfigLine(cfg, u, s).value)
  {
    var val := SymStr(cfg, u, s).val;
    TextOutsideChoices(cfg, s);
    LoadSetLine(cfg, st, s, val);
    assert NameOk(cfg.syms[s].name);
    SetLineClean(cfg.syms[s].name, val);
    assert LoadSym(cfg, st, s, Chars(val)) == Entered(cfg, u, st, s);
  }

  lemma LoadWrittenN(cfg: Config, u: User, st: LoadState, s: nat)
    requires Ok(cfg, u) && Plain(cfg) && s < |cfg.syms|
    requires BoolTri(cfg.syms[s].kind) && ConfigLine(cfg, u, s).Some? && SymTri(cfg, u, s).val == 0
    ensures LoadLine(cfg, st, ConfigLine(cfg, u, s).value) == Entered(cfg, u, st, s)
    ensures Clean(ConfigLine(cfg, u, s).value)
  {
    var d := cfg.syms[s];
    assert NameOk(d.name);
    LookupName(cfg, s, 0);
    RstripKeeps(UnsetLine(d.name));
    UnsetLineMatch(d.name);
    SetLineClean(d.name, []);
    assert LoadSym(cfg, st, s, Chars("n")) == Entered(cfg, u, st, s);
  }

  lemma LoadWrittenY(cfg: Config, u: User, st: LoadState, s: nat)
    requires Ok(cfg, u) && Plain(cfg) && s < |cfg.syms|
    requires BoolTri(cfg.syms[s].kind) && ConfigLine(cfg, u, s).Some? && SymTri(cfg, u, s).val == 2
    ensures LoadLine(cfg, st, ConfigLine(cfg, u, s).value) == Entered(cfg, u, st, s)
    ensures Clean(ConfigLine(cfg, u, s).value)
  {
    var d := cfg.syms[s];
    LoadSetLine(cfg, st, s, "y");
    assert NameOk(d.name);
    SetLineClean(d.name, "y");
    LoadY(cfg, u, st, s);
  }

  lemma LoadWrittenM(cfg: Config, u: User, st: LoadState, s: nat)
    requires Ok(cfg, u) && Plain(cfg) && s < |cfg.syms|
    requires cfg.syms[s].kind == Tristate && ConfigLine(cfg, u, s).Some? && SymTri(cfg, u, s).val == 1
    ensures LoadLine(cfg, st, ConfigLine(cfg, u, s).value) == Entered(cfg, u, st, s)
    ensures Clean(ConfigLine(cfg, u, s).value)
  {
    var d := cfg.syms[s];
    TextOutsideChoices(cfg, s);
    LoadSetLine(cfg, st, s, "m");
    assert NameOk(d.name);
    SetLineClean(d.name, "m");
    assert "m"[..1] == "m";
    assert LoadSym(cfg, st, s, Chars("m")) == Entered(cfg, u, st, s);
  }

  lemma LoadY(cfg: Config, u: User, st: LoadState, s: nat)
    requires Ok(cfg, u) && Plain(cfg) && s < |cfg.syms| && BoolTri(cfg.syms[s].kind) && SymTri(cfg, u, s).val == 2
    ensures LoadAssignment(cfg, st, s, "y") == Entered(cfg, u, st, s)
  {
    var d := cfg.syms[s];
    assert SymOk(cfg, s);
    assert "y"[..1] == "y";
    if d.choice.Some? {
      assert cfg.choices[d.choice.value].kind == Bool;
      var st' := LoadMode(cfg, st, d.choice.value, Chars("y"));
      assert st' == LoadState(st.user.(mode := st.user.mode[d.choice.value := 2]), st.syms,
          st.choices + {d.choice.value});
    }
  }

  /** A written line is read back as the value of its symbol. */
  lemma LoadWritten(cfg: Config, u: User, st: LoadState, s: nat)
    requires Ok(cfg, u) && Plain(cfg) && Writable(cfg, u) && s < |cfg.syms| && ConfigLine(cfg, u, s).Some?
    requires NumbersOk(cfg, st.user)
    ensures LoadLine(cfg, st, ConfigLine(cfg, u, s).value) == Entered(cfg, u, st, s)
    ensures Clean(ConfigLine(cfg, u, s).value)
  {
    if BoolTri(cfg.syms[s].kind) {
      if cfg.syms[s].kind == Bool {
        BoolValue(cfg, u, s);
      }
      if SymTri(cfg, u, s).val == 2 {
        LoadWrittenY(cfg, u, st, s);
      } else if SymTri(cfg, u, s).val == 1 {
        LoadWrittenM(cfg, u, st, s);
      } else {
        LoadWrittenN(cfg, u, st, s);
      }
    } else if cfg.syms[s].kind == Text {
      LoadWrittenText(cfg, u, st, s);
    } else {
      LoadWrittenNumber(cfg, u, st, s);
    }
  }

  /** The symbols below `n` whose values are taken have been entered, and no others. */
  predicate LoadedSym(cfg: Config, u: User, min: bool, n: nat, st: LoadState, s: nat)
    requires Ok(cfg, u)
  {
    && (s in st.syms ==> s < n && Taken(cfg, u, min, s))
    && (s < n && Taken(cfg, u, min, s) ==>
          && s in st.syms
          && (if BoolTri(cfg.syms[s].kind) then s in st.user.tri && st.user.tri[s] == SymTri(cfg, u, s).val
              else s in st.user.text && st.user.text[s] == SymStr(cfg, u, s).val)
          && (cfg.syms[s].kind == Bool && cfg.syms[s].choice.Some? && SymTri(cfg, u, s).val == 2 ==>
                cfg.syms[s].choice.value in st.choices))
  }

  /** The symbol picked in a choice is saved, and is y. */
  predicate LoadedPick(cfg: Config, u: User, min: bool, st: LoadState, c: nat)
    requires Ok(cfg, u)
  {
    c in st.choices ==>
      && c in st.user.pick && st.user.pick[c] < |cfg.syms|
      && Taken(cfg, u, min, st.user.pick[c])
      && cfg.syms[st.user.pick[c]].kind == Bool
      && cfg.syms[st.user.pick[c]].choice == Some(c)
      && SymTri(cfg, u, st.user.pick[c]).val == 2
  }

  /** What has been entered when the lines of the symbols below `n` have been loaded. */
  ghost predicate Loaded(cfg: Config, u: User, min: bool, n: nat, st: LoadState)
    requires Ok(cfg, u)
  {
    && (forall s: nat {:trigger LoadedSym(cfg, u, min, n, st, s)} :: LoadedSym(cfg, u, min, n, st, s))
    && (forall c: nat {:trigger LoadedPick(cfg, u, min, st, c)} :: LoadedPick(cfg, u, min, st, c))
  }

  function EnteredIfSaved(cfg: Config, u: User, min: bool, st: LoadState, s: nat): LoadState
    requires Ok(cfg, u) && s < |cfg.syms|
  {
    if Saved(cfg, u, min, s) then Entered(cfg, u, st, s) else st
  }

  lemma LoadedStep(cfg: Config, u: User, min: bool, n: nat, st: LoadState)
    requires Ok(cfg, u) && Plain(cfg) && n < |cfg.syms|
    requires Loaded(cfg, u, min, n, st)
    ensures Loaded(cfg, u, min, n + 1, EnteredIfSaved(cfg, u, min, st, n))
  {
    var next, st' := n + 1, EnteredIfSaved(cfg, u, min, st, n);
    if cfg.syms[n].choice.Some? {
      ChoiceSymIsBool(cfg, n);
    }
    forall s: nat
      ensures LoadedSym(cfg, u, min, next, st', s)
    {
      assert LoadedSym(cfg, u, min, n, st, s);
    }
    forall c: nat
      ensures LoadedPick(cfg, u, min, st', c)
    {
      assert LoadedPick(cfg, u, min, st, c);
    }
  }

  lemma {:induction false} LinesClean(cfg: Config, u: User, min: bool, n: nat)
    requires Ok(cfg, u) && Plain(cfg) && Writable(cfg, u) && n <= |cfg.syms|
    ensures forall k :: 0 <= k < |Lines(cfg, u, min, n)| ==> Clean(Lines(cfg, u, min, n)[k])
    decreases |cfg.syms| - n
  {
    if n < |cfg.syms| {
      LinesClean(cfg, u, min, n + 1);
      if Saved(cfg, u, min, n) {
        LoadWritten(cfg, u, LoadState(u, {}, {}), n);
      }
    }
  }

  /** The effect of the lines of the symbols from `n` on. */
  function EnteredAll(cfg: Config, u: User, min: bool, n: nat, st: LoadState): LoadState
    requires Ok(cfg, u) && n <= |cfg.syms|
    decreases |cfg.syms| - n
  {
    if n == |cfg.syms| then st
    else EnteredAll(cfg, u, min, n + 1, EnteredIfSaved(cfg, u, min, st, n))
  }

  lemma LoadFirst(cfg: Config, st: LoadState, line: string, rest: seq<string>)
    requires WF(cfg)
    ensures LoadLines(cfg, st, [line] + rest) == LoadLines(cfg, LoadLine(cfg, st, line), rest)
  {
    assert ([line] + rest)[1..] == rest;
  }

  lemma {:induction false} LoadLinesEnter(cfg: Config, u: User, min: bool, n: nat, st: LoadState)
    requires Ok(cfg, u) && Plain(cfg) && Writable(cfg, u) && n <= |cfg.syms| && NumbersOk(cfg, st.user)
    ensures LoadLines(cfg, st, Lines(cfg, u, min, n)) == EnteredAll(cfg, u, min, n, st)
    decreases |cfg.syms| - n
  {
    if n < |cfg.syms| {
      var rest := Lines(cfg, u, min, n + 1);
      if Saved(cfg, u, min, n) {
        LoadWritten(cfg, u, st, n);
        LoadLinesEnter(cfg, u, min, n + 1, Entered(cfg, u, st, n));
        assert Lines(cfg, u, min, n) == [ConfigLine(cfg, u, n).value] + rest;
        LoadFirst(cfg, st, ConfigLine(cfg, u, n).value, rest);
      } else {
        LoadLinesEnter(cfg, u, min, n + 1, st);
      }
    }
  }

  lemma {:induction false} LoadedAll(cfg: Config, u: User, min: bool, n: nat, st: LoadState)
    requires Ok(cfg, u) && Plain(cfg) && n <= |cfg.syms|
    requires Loaded(cfg, u, min, n, st)
    ensures Loaded(cfg, u, min, |cfg.syms|, EnteredAll(cfg, u, min, n, st))
    decreases |cfg.syms| - n
  {
    if n < |cfg.syms| {
      LoadedStep(cfg, u, min, n, st);
      LoadedAll(cfg, u, min, n + 1, EnteredIfSaved(cfg, u, min, st, n));
    }
  }

  /** The user's input after loading: the values of the saved symbols and nothing else. */
  ghost predicate Restores(cfg: Config, u: User, min: bool, u': User)
    requires Ok(cfg, u)
  {
    && (forall s: nat :: s < |cfg.syms| && Taken(cfg, u, min, s) ==>
          if BoolTri(cfg.syms[s].kind) then s in u'.tri && u'.tri[s] == SymTri(cfg, u, s).val
          else s in u'.text && u'.text[s] == SymStr(cfg, u, s).val)
    && (forall s: nat :: s < |cfg.syms| && !Taken(cfg, u, min, s) ==> s !in u'.tri && s !in u'.text)
    && (forall c: nat :: c in u'.pick ==>
          && u'.pick[c] < |cfg.syms|
          && Taken(cfg, u, min, u'.pick[c])
          && cfg.syms[u'.pick[c]].kind == Bool
          && cfg.syms[u'.pick[c]].choice == Some(c)
          && SymTri(cfg, u, u'.pick[c]).val == 2)
    && (forall s: nat ::
          s < |cfg.syms| && Taken(cfg, u, min, s) && cfg.syms[s].kind == Bool && cfg.syms[s].choice.Some? ==>
            SymTri(cfg, u, s).val == 2 ==> cfg.syms[s].choice.value in u'.pick)
  }

  lemma LoadRestores(cfg: Config, u: User, min: bool, u0: User)
    requires Ok(cfg, u) && Plain(cfg) && Writable(cfg, u) && NumbersOk(cfg, u0)
    ensures Restores(cfg, u, min, Load(cfg, u0, Contents(cfg, u, min)))
    ensures UserOk(cfg, Load(cfg, u0, Contents(cfg, u, min))) && NumbersOk(cfg, Load(cfg, u0, Contents(cfg, u, min)))
  {
    var st := LoadState(u0, {}, {});
    LoadedAll(cfg, u, min, 0, st);
    LoadLinesEnter(cfg, u, min, 0, st);
    LinesClean(cfg, u, min, 0);
    SplitJoin(Lines(cfg, u, min, 0));
    var st' := LoadLines(cfg, st, Lines(cfg, u, min, 0));
    assert Load(cfg, u0, Contents(cfg, u, min)) == Unset(st');
    LoadedRestores(cfg, u, min, st');
  }

  lemma LoadedRestores(cfg: Config, u: User, min: bool, st: LoadState)
    requires Ok(cfg, u) && Plain(cfg) && Loaded(cfg, u, min, |cfg.syms|, st)
    ensures Restores(cfg, u, min, Unset(st)) && UserOk(cfg, Unset(st)) && NumbersOk(cfg, Unset(st))
  {
    forall s: nat | s < |cfg.syms|
      ensures if !Taken(cfg, u, min, s) then s !in Unset(st).tri && s !in Unset(st).text
              else if BoolTri(cfg.syms[s].kind) then s in Unset(st).tri && Unset(st).tri[s] == SymTri(cfg, u, s).val
              else s in Unset(st).text && Unset(st).text[s] == SymStr(cfg, u, s).val
    {
      assert LoadedSym(cfg, u, min, |cfg.syms|, st, s);
    }
    forall s: nat | s in st.syms
      ensures s < |cfg.syms|
    {
      assert LoadedSym(cfg, u, min, |cfg.syms|, st, s);
    }
    forall c: nat | c in st.choices
      ensures LoadedPick(cfg, u, min, st, c) && c < |cfg.choices| && st.user.pick[c] in cfg.choices[c].syms
    {
      assert LoadedPick(cfg, u, min, st, c);
      assert SymOk(cfg, st.user.pick[c]);
    }
    forall s: nat | s < |cfg.syms| && Taken(cfg, u, min, s) && cfg.syms[s].kind == Bool && cfg.syms[s].choice.Some?
                    && SymTri(cfg, u, s).val == 2
      ensures cfg.syms[s].choice.value in Unset(st).pick
    {
      assert LoadedSym(cfg, u, min, |cfg.syms|, st, s) && LoadedPick(cfg, u, min, st, cfg.syms[s].choice.value);
    }
  }
}
