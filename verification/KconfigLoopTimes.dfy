/** In which order a silent search finishes symbols and choices: symbols after their dependents, and the
    symbols of a choice in the order in which they are listed, except for the one it was entered through. */
module KconfigLoopTimes {
  import opened KconfigSyntax
  import opened KconfigLoops
  import opened KconfigLoopProofs

  /** When each node was finished, and for each finished choice the symbol it was entered through, which
      is None if the choice was entered as a dependent. */
  datatype Times = Times(at: map<Node, nat>, now: nat, entry: map<nat, Option<nat>>)

  function First<T(==)>(list: seq<T>, x: T): (k: nat)
    requires x in list
    ensures k < |list| && list[k] == x
    ensures forall j :: 0 <= j < k ==> list[j] != x
  {
    if list[0] == x then 0 else 1 + First(list[1..], x)
  }

  predicate Before(t: Times, a: Node, b: Node) { a in t.at && b in t.at && t.at[a] < t.at[b] }

  /** `b` is a symbol of choice `c`, but not the one it was entered through. */
  predicate Other(g: Graph, t: Times, c: nat, b: nat)
    requires c < |g.members| && c in t.entry
  {
    b in g.members[c] && t.entry[c] != Some(b)
  }

  predicate DepsBefore(g: Graph, t: Times, s: nat, n: Node)
    requires s < |g.deps|
  {
    forall d :: d in g.deps[s] ==> Before(t, d, n)
  }

  /** The symbols of a choice are finished before it, in their order; the one it was entered through is
      finished after it, but its dependents before all the others. */
  ghost predicate ChoiceTimed(g: Graph, t: Times, c: nat)
    requires GraphOk(g) && c < |g.members|
  {
    && c in t.entry
    && (forall b :: Other(g, t, c, b) ==> Before(t, S(b), C(c)))
    && (forall a, b :: Other(g, t, c, a) && Other(g, t, c, b) && First(g.members[c], a) < First(g.members[c], b) ==>
          Before(t, S(a), S(b)))
    && match t.entry[c]
       case None => true
       case Some(x) =>
         && x in g.members[c] && x < |g.deps| && DepsBefore(g, t, x, C(c))
         && (forall b :: Other(g, t, c, b) ==> DepsBefore(g, t, x, S(b)))
         && (S(x) in t.at ==> Before(t, C(c), S(x)))
  }

  ghost predicate TimesOk(g: Graph, t: Times)
    requires GraphOk(g)
  {
    && (forall n :: n in t.at ==> NodeOk(g, n) && t.at[n] < t.now)
    && (forall s: nat {:trigger DepsBefore(g, t, s, S(s))} :: S(s) in t.at ==> DepsBefore(g, t, s, S(s)))
    && (forall c: nat :: C(c) in t.at <==> c in t.entry)
    && (forall c: nat {:trigger ChoiceTimed(g, t, c)} :: c in t.entry ==> ChoiceTimed(g, t, c))
  }

  /** The finished nodes are those marked 2, and a symbol is finished after its choice has been entered. */
  ghost predicate Marked(g: Graph, m: Marks, t: Times)
    requires GraphOk(g) && MarksOk(g, m)
  {
    && (forall n {:trigger Mark(g, m, n)} :: NodeOk(g, n) ==> (Mark(g, m, n) == 2 <==> n in t.at))
    && (forall s: nat :: s < |g.deps| && S(s) in t.at && g.choiceOf[s].Some? ==> m.choice[g.choiceOf[s].value] != 0)
  }

  ghost predicate Timed(g: Graph, m: Marks, t: Times)
    requires GraphOk(g) && MarksOk(g, m)
  {
    TimesOk(g, t) && Marked(g, m, t)
  }

  /** What is finished stays, and what comes is later. */
  predicate Extends(t: Times, t': Times) {
    && t.now <= t'.now
    && (forall n :: n in t.at ==> n in t'.at && t'.at[n] == t.at[n])
    && (forall n :: n in t'.at && n !in t.at ==> t'.at[n] >= t.now)
  }

  /* One step */

  lemma Start(g: Graph, m: Marks, n: Node, t: Times)
    requires GraphOk(g) && MarksOk(g, m) && NodeOk(g, n) && Timed(g, m, t) && Mark(g, m, n) == 0
    ensures MarksOk(g, Set(g, m, n, 1)) && Timed(g, Set(g, m, n, 1), t)
  {
    var m' := Set(g, m, n, 1);
    forall x {:trigger Mark(g, m', x)} | NodeOk(g, x)
      ensures Mark(g, m', x) == 2 <==> x in t.at
    {
      MarkSet(g, m, n, 1, x);
    }
  }

  function Finished(t: Times, n: Node): Times { t.(at := t.at[n := t.now], now := t.now + 1) }

  lemma ChoiceTimedKept(g: Graph, t: Times, t': Times, c: nat)
    requires GraphOk(g) && c < |g.members| && ChoiceTimed(g, t, c) && C(c) in t.at
    requires Extends(t, t') && c in t'.entry && t'.entry[c] == t.entry[c]
    requires forall n :: n in t.at ==> t.at[n] < t.now
    ensures ChoiceTimed(g, t', c)
  {
    forall b | Other(g, t', c, b)
      ensures Before(t', S(b), C(c))
    {
      assert Other(g, t, c, b);
    }
    forall a, b | Other(g, t', c, a) && Other(g, t', c, b) && First(g.members[c], a) < First(g.members[c], b)
      ensures Before(t', S(a), S(b))
    {
      assert Other(g, t, c, a) && Other(g, t, c, b);
    }
    if t.entry[c].Some? {
      var x := t.entry[c].value;
      forall b | Other(g, t', c, b)
        ensures DepsBefore(g, t', x, S(b))
      {
        assert Other(g, t, c, b);
      }
    }
  }

  /** Finishing a node marks it. */
  lemma FinishMarks(g: Graph, m: Marks, n: Node, t: Times, t': Times)
    requires GraphOk(g) && MarksOk(g, m) && NodeOk(g, n) && Marked(g, m, t) && t'.at == t.at[n := t.now]
    requires n.S? && g.choiceOf[n.s].Some? ==> m.choice[g.choiceOf[n.s].value] != 0
    ensures MarksOk(g, Set(g, m, n, 2)) && Marked(g, Set(g, m, n, 2), t')
  {
    var m' := Set(g, m, n, 2);
    forall x {:trigger Mark(g, m', x)} | NodeOk(g, x)
      ensures Mark(g, m', x) == 2 <==> x in t'.at
    {
      MarkSet(g, m, n, 2, x);
    }
  }

  lemma FinishSym(g: Graph, t: Times, s: nat)
    requires GraphOk(g) && s < |g.deps| && TimesOk(g, t) && S(s) !in t.at && forall d :: d in g.deps[s] ==> d in t.at
    ensures TimesOk(g, Finished(t, S(s)))
  {
    var t' := Finished(t, S(s));
    forall r: nat | S(r) in t'.at
      ensures DepsBefore(g, t', r, S(r))
    {
      assert r != s ==> DepsBefore(g, t, r, S(r));
    }
    forall c: nat | c in t'.entry
      ensures ChoiceTimed(g, t', c)
    {
      assert ChoiceTimed(g, t, c);
      ChoiceTimedKept(g, t, t', c);
    }
  }

  /** Symbol `b` of a choice that is being searched has been finished, not before time `start`, if it
      comes before position `i`, and has not been visited otherwise. */
  predicate Placed(g: Graph, m: Marks, t: Times, c: nat, skip: Option<nat>, i: nat, start: nat, b: nat)
    requires GraphOk(g) && MarksOk(g, m) && c < |g.members|
  {
    b in g.members[c] && skip != Some(b) ==>
      if First(g.members[c], b) < i then S(b) in t.at && t.at[S(b)] >= start else m.sym[b] == 0
  }

  predicate InTurn(g: Graph, t: Times, c: nat, skip: Option<nat>, i: nat, a: nat, b: nat)
    requires c < |g.members|
  {
    && a in g.members[c] && b in g.members[c] && skip != Some(a) && skip != Some(b)
    && First(g.members[c], a) < First(g.members[c], b) < i
    ==> Before(t, S(a), S(b))
  }

  ghost predicate MembersTimed(g: Graph, m: Marks, t: Times, c: nat, skip: Option<nat>, i: nat, start: nat)
    requires GraphOk(g) && MarksOk(g, m) && c < |g.members|
  {
    && (forall b {:trigger Placed(g, m, t, c, skip, i, start, b)} :: Placed(g, m, t, c, skip, i, start, b))
    && (forall a, b {:trigger InTurn(g, t, c, skip, i, a, b)} :: InTurn(g, t, c, skip, i, a, b))
  }

  /** The symbol a choice is entered through is on the way, and its dependents are finished. */
  predicate EntryOk(g: Graph, t: Times, c: nat, skip: Option<nat>)
    requires c < |g.members|
  {
    match skip
    case None => true
    case Some(x) =>
      x in g.members[c] && x < |g.deps| && S(x) !in t.at && forall d :: d in g.deps[x] ==> d in t.at
  }

  lemma ChoiceFinished(g: Graph, m: Marks, c: nat, skip: Option<nat>, t0: Times, t: Times)
    requires GraphOk(g) && MarksOk(g, m) && c < |g.members| && EntryOk(g, t0, c, skip)
    requires Extends(t0, t) && (forall n :: n in t0.at ==> t0.at[n] < t0.now)
    requires (forall n :: n in t.at ==> t.at[n] < t.now) && C(c) !in t.at && (skip.Some? ==> S(skip.value) !in t.at)
    requires MembersTimed(g, m, t, c, skip, |g.members[c]|, t0.now)
    ensures ChoiceTimed(g, Entered(t, c, skip), c)
  {
    var t' := Entered(t, c, skip);
    forall b | Other(g, t', c, b)
      ensures S(b) in t.at && t.at[S(b)] >= t0.now
    {
      assert Placed(g, m, t, c, skip, |g.members[c]|, t0.now, b);
    }
    forall a, b | Other(g, t', c, a) && Other(g, t', c, b) && First(g.members[c], a) < First(g.members[c], b)
      ensures Before(t', S(a), S(b))
    {
      assert InTurn(g, t, c, skip, |g.members[c]|, a, b);
    }
  }

  function Entered(t: Times, c: nat, skip: Option<nat>): Times { Finished(t, C(c)).(entry := t.entry[c := skip]) }

  lemma FinishChoice(g: Graph, t: Times, c: nat, skip: Option<nat>)
    requires GraphOk(g) && c < |g.members| && TimesOk(g, t) && C(c) !in t.at && ChoiceTimed(g, Entered(t, c, skip), c)
    ensures TimesOk(g, Entered(t, c, skip))
  {
    var t' := Entered(t, c, skip);
    forall r: nat | S(r) in t'.at
      ensures DepsBefore(g, t', r, S(r))
    {
      assert DepsBefore(g, t, r, S(r));
    }
    forall k: nat | k in t'.entry
      ensures ChoiceTimed(g, t', k)
    {
      if k != c {
        assert ChoiceTimed(g, t, k);
        ChoiceTimedKept(g, t, t', k);
      }
    }
  }

  /* While a choice is being searched */

  /** A symbol of choice `c`, other than the one that is searched from the choice. */
  predicate Spared(g: Graph, c: nat, b: nat) { b < |g.choiceOf| && g.choiceOf[b] == Some(c) }

  lemma {:induction false} SymSpares(g: Graph, m: Marks, s: nat, ignoreChoice: bool, c: nat)
    requires GraphOk(g) && MarksOk(g, m) && s < |g.deps| && c < |g.members| && m.choice[c] == 1
    requires CheckSym(g, m, s, ignoreChoice).Clean?
    ensures forall b: nat :: Spared(g, c, b) && (b != s || !ignoreChoice) ==>
        CheckSym(g, m, s, ignoreChoice).m.sym[b] == m.sym[b]
    decreases White(m), 2, 0
  {
    if m.sym[s] == 0 {
      WhiteSet(g, m, S(s), 1);
      var m0 := Set(g, m, S(s), 1);
      DepsSpare(g, m0, s, 0, c);
      DepsRight(g, m0, s, 0, AsDependent);
      var m1 := CheckDeps(g, m0, s, 0).m;
      assert Mark(g, m0, C(c)) == 1 && Mark(g, m1, C(c)) == 1;
      if g.choiceOf[s].Some? && !ignoreChoice {
        ChoiceSpares(g, m1, g.choiceOf[s].value, Some(s), c);
      }
    }
  }

  lemma {:induction false} DepsSpare(g: Graph, m: Marks, s: nat, i: nat, c: nat)
    requires GraphOk(g) && MarksOk(g, m) && s < |g.deps| && i <= |g.deps[s]| && c < |g.members| && m.choice[c] == 1
    requires CheckDeps(g, m, s, i).Clean?
    ensures forall b: nat :: Spared(g, c, b) ==> CheckDeps(g, m, s, i).m.sym[b] == m.sym[b]
    decreases White(m), 3, |g.deps[s]| - i
  {
    if i < |g.deps[s]| {
      var n := g.deps[s][i];
      match n {
        case S(t) => SymSpares(g, m, t, false, c);
        case C(k) => ChoiceSpares(g, m, k, None, c);
      }
      NodeRight(g, m, n);
      var m1 := CheckNode(g, m, n).m;
      assert Mark(g, m, C(c)) == 1 && Mark(g, m1, C(c)) == 1;
      DepsSpare(g, m1, s, i + 1, c);
    }
  }

  lemma {:induction false} ChoiceSpares(g: Graph, m: Marks, k: nat, skip: Option<nat>, c: nat)
    requires GraphOk(g) && MarksOk(g, m) && k < |g.members| && c < |g.members| && m.choice[c] == 1
    requires CheckChoice(g, m, k, skip).Clean?
    ensures k != c && forall b: nat :: Spared(g, c, b) ==> CheckChoice(g, m, k, skip).m.sym[b] == m.sym[b]
    decreases White(m), 2, 0
  {
    if m.choice[k] == 0 {
      WhiteSet(g, m, C(k), 1);
      MembersSpare(g, Set(g, m, C(k), 1), k, skip, 0, c);
    }
  }

  lemma {:induction false} MembersSpare(g: Graph, m: Marks, k: nat, skip: Option<nat>, i: nat, c: nat)
    requires GraphOk(g) && MarksOk(g, m) && k < |g.members| && i <= |g.members[k]|
    requires c < |g.members| && m.choice[c] == 1 && k != c
    requires CheckMembers(g, m, k, skip, i).Clean?
    ensures forall b: nat :: Spared(g, c, b) ==> CheckMembers(g, m, k, skip, i).m.sym[b] == m.sym[b]
    decreases White(m), 3, |g.members[k]| - i
  {
    if i < |g.members[k]| {
      var s := g.members[k][i];
      if skip == Some(s) {
        MembersSpare(g, m, k, skip, i + 1, c);
      } else {
        SymSpares(g, m, s, true, c);
        SymRight(g, m, s, true);
        var m1 := CheckSym(g, m, s, true).m;
        assert Mark(g, m, C(c)) == 1 && Mark(g, m1, C(c)) == 1;
        MembersSpare(g, m1, k, skip, i + 1, c);
      }
    }
  }

  /* A silent search */

  lemma {:induction false} SymTimes(g: Graph, m: Marks, s: nat, ignoreChoice: bool, t: Times) returns (t': Times)
    requires GraphOk(g) && MarksOk(g, m) && s < |g.deps| && Timed(g, m, t)
    requires ignoreChoice && g.choiceOf[s].Some? ==> m.choice[g.choiceOf[s].value] != 0
    requires CheckSym(g, m, s, ignoreChoice).Clean?
    ensures Timed(g, CheckSym(g, m, s, ignoreChoice).m, t') && Extends(t, t') && S(s) in t'.at
    decreases White(m), 2, 0
  {
    t' := t;
    if m.sym[s] == 0 {
      var m0 := Set(g, m, S(s), 1);
      WhiteSet(g, m, S(s), 1);
      MarkSet(g, m, S(s), 1, S(s));
      Start(g, m, S(s), t);
      t' := DepsTimes(g, m0, s, 0, t);
      DepsRight(g, m0, s, 0, AsDependent);
      var m1 := CheckDeps(g, m0, s, 0).m;
      assert Mark(g, m1, S(s)) == 1;
      if g.choiceOf[s].Some? {
        if ignoreChoice {
          assert Mark(g, m0, C(g.choiceOf[s].value)) != 0 && Mark(g, m1, C(g.choiceOf[s].value)) != 0;
        } else {
          t' := OwnChoiceTimes(g, m1, s, g.choiceOf[s].value, t');
          m1 := CheckChoice(g, m1, g.choiceOf[s].value, Some(s)).m;
        }
      }
      FinishSym(g, t', s);
      FinishMarks(g, m1, S(s), t', Finished(t', S(s)));
      t' := Finished(t', S(s));
    } else {
      assert Mark(g, m, S(s)) == 2;
    }
  }

  /** The choice of a symbol, entered through it. */
  lemma {:induction false} OwnChoiceTimes(g: Graph, m: Marks, s: nat, c: nat, t: Times) returns (t': Times)
    requires GraphOk(g) && MarksOk(g, m) && s < |g.deps| && g.choiceOf[s] == Some(c) && Timed(g, m, t)
    requires Mark(g, m, S(s)) == 1 && forall d :: d in g.deps[s] ==> d in t.at
    requires CheckChoice(g, m, c, Some(s)).Clean?
    ensures var m' := CheckChoice(g, m, c, Some(s)).m;
            Timed(g, m', t') && Mark(g, m', S(s)) == 1 && Mark(g, m', C(c)) == 2
    ensures Extends(t, t')
    decreases White(m), 2, 1
  {
    t' := ChoiceTimes(g, m, c, Some(s), t);
    ChoiceRight(g, m, c, Some(s));
  }

  lemma {:induction false} DepsTimes(g: Graph, m: Marks, s: nat, i: nat, t: Times) returns (t': Times)
    requires GraphOk(g) && MarksOk(g, m) && s < |g.deps| && i <= |g.deps[s]| && Timed(g, m, t)
    requires CheckDeps(g, m, s, i).Clean?
    ensures Timed(g, CheckDeps(g, m, s, i).m, t') && Extends(t, t')
    ensures forall j :: i <= j < |g.deps[s]| ==> g.deps[s][j] in t'.at
    decreases White(m), 3, |g.deps[s]| - i
  {
    t' := t;
    if i < |g.deps[s]| {
      t' := NodeTimes(g, m, g.deps[s][i], t);
      t' := DepsTimes(g, CheckNode(g, m, g.deps[s][i]).m, s, i + 1, t');
    }
  }

  lemma {:induction false} NodeTimes(g: Graph, m: Marks, n: Node, t: Times) returns (t': Times)
    requires GraphOk(g) && MarksOk(g, m) && NodeOk(g, n) && Timed(g, m, t) && CheckNode(g, m, n).Clean?
    ensures Timed(g, CheckNode(g, m, n).m, t') && Extends(t, t') && n in t'.at
    decreases White(m), 2, 1
  {
    match n
    case S(s) => t' := SymTimes(g, m, s, false, t);
    case C(c) => t' := ChoiceTimes(g, m, c, None, t);
  }

  /** No symbol that a silent search of a choice gets to is on the way. */
  lemma {:induction false} MembersNotOnTheWay(g: Graph, m: Marks, c: nat, skip: Option<nat>, i: nat)
    requires GraphOk(g) && MarksOk(g, m) && c < |g.members| && i <= |g.members[c]|
    requires CheckMembers(g, m, c, skip, i).Clean?
    ensures forall j :: i <= j < |g.members[c]| && skip != Some(g.members[c][j]) ==> m.sym[g.members[c][j]] != 1
    decreases |g.members[c]| - i
  {
    if i < |g.members[c]| {
      if skip == Some(g.members[c][i]) {
        MembersNotOnTheWay(g, m, c, skip, i + 1);
      } else {
        SymRight(g, m, g.members[c][i], true);
        var m1 := CheckSym(g, m, g.members[c][i], true).m;
        MembersNotOnTheWay(g, m1, c, skip, i + 1);
        forall j | i < j < |g.members[c]| && skip != Some(g.members[c][j])
          ensures m.sym[g.members[c][j]] != 1
        {
          assert Mark(g, m1, S(g.members[c][j])) != 1;
        }
      }
    }
  }

  lemma NoneVisited(g: Graph, m: Marks, c: nat, skip: Option<nat>, t: Times)
    requires GraphOk(g) && MarksOk(g, m) && c < |g.members| && Timed(g, m, t) && m.choice[c] == 0
    requires MarksOk(g, Set(g, m, C(c), 1)) && CheckMembers(g, Set(g, m, C(c), 1), c, skip, 0).Clean?
    ensures MembersTimed(g, Set(g, m, C(c), 1), t, c, skip, 0, t.now)
  {
    MembersNotOnTheWay(g, Set(g, m, C(c), 1), c, skip, 0);
    forall b: nat
      ensures Placed(g, Set(g, m, C(c), 1), t, c, skip, 0, t.now, b)
    {
      if b in g.members[c] && skip != Some(b) {
        assert Mark(g, m, S(b)) != 2;
        assert g.members[c][First(g.members[c], b)] == b;
      }
    }
  }

  lemma StillOnTheWay(g: Graph, m: Marks, c: nat, skip: Option<nat>)
    requires GraphOk(g) && MarksOk(g, m) && c < |g.members| && CheckMembers(g, m, c, skip, 0).Clean?
    requires m.choice[c] == 1 && (skip.Some? ==> skip.value < |g.deps| && m.sym[skip.value] == 1)
    ensures var m' := CheckMembers(g, m, c, skip, 0).m;
            MarksOk(g, m') && m'.choice[c] == 1 && (skip.Some? ==> m'.sym[skip.value] == 1)
  {
    MembersRight(g, m, c, skip, 0);
    var m' := CheckMembers(g, m, c, skip, 0).m;
    assert Mark(g, m', C(c)) == 1;
    assert skip.Some? ==> Mark(g, m', S(skip.value)) == 1;
  }

  lemma {:induction false} ChoiceTimes(g: Graph, m: Marks, c: nat, skip: Option<nat>, t: Times) returns (t': Times)
    requires GraphOk(g) && MarksOk(g, m) && c < |g.members| && Timed(g, m, t) && EntryOk(g, t, c, skip)
    requires skip.Some? ==> m.sym[skip.value] == 1
    requires CheckChoice(g, m, c, skip).Clean?
    ensures Timed(g, CheckChoice(g, m, c, skip).m, t') && Extends(t, t') && C(c) in t'.at
    decreases White(m), 2, 0
  {
    t' := t;
    if m.choice[c] == 0 {
      var m0 := Set(g, m, C(c), 1);
      WhiteSet(g, m, C(c), 1);
      MarkSet(g, m, C(c), 1, C(c));
      Start(g, m, C(c), t);
      NoneVisited(g, m, c, skip, t);
      t' := MembersTimes(g, m0, c, skip, 0, t.now, t);
      StillOnTheWay(g, m0, c, skip);
      var m1 := CheckMembers(g, m0, c, skip, 0).m;
      assert Mark(g, m1, C(c)) == 1;
      assert skip.Some? ==> Mark(g, m1, S(skip.value)) == 1;
      ChoiceFinished(g, m1, c, skip, t, t');
      FinishChoice(g, t', c, skip);
      FinishMarks(g, m1, C(c), t', Entered(t', c, skip));
      t' := Entered(t', c, skip);
    } else {
      assert Mark(g, m, C(c)) == 2;
    }
  }

  lemma {:induction false} MembersTimes(g: Graph, m: Marks, c: nat, skip: Option<nat>, i: nat, start: nat, t: Times)
    returns (t': Times)
    requires GraphOk(g) && MarksOk(g, m) && c < |g.members| && i <= |g.members[c]| && m.choice[c] == 1
    requires Timed(g, m, t) && MembersTimed(g, m, t, c, skip, i, start) && start <= t.now
    requires CheckMembers(g, m, c, skip, i).Clean?
    ensures Timed(g, CheckMembers(g, m, c, skip, i).m, t') && Extends(t, t')
    ensures MembersTimed(g, CheckMembers(g, m, c, skip, i).m, t', c, skip, |g.members[c]|, start)
    decreases White(m), 3, |g.members[c]| - i
  {
    t' := t;
    if i < |g.members[c]| {
      var s := g.members[c][i];
      if skip == Some(s) {
        MemberTimed(g, m, m, c, skip, i, start, t, t);
        t' := MembersTimes(g, m, c, skip, i + 1, start, t);
      } else {
        t' := SymTimes(g, m, s, true, t);
        MemberSearched(g, m, c, skip, i, start, t, t');
        t' := MembersTimes(g, CheckSym(g, m, s, true).m, c, skip, i + 1, start, t');
      }
    }
  }

  lemma MemberSearched(g: Graph, m: Marks, c: nat, skip: Option<nat>, i: nat, start: nat, t: Times, t1: Times)
    requires GraphOk(g) && MarksOk(g, m) && c < |g.members| && i < |g.members[c]| && m.choice[c] == 1
    requires MembersTimed(g, m, t, c, skip, i, start) && start <= t.now && Extends(t, t1)
    requires Marked(g, m, t) && forall n :: n in t.at ==> t.at[n] < t.now
    requires CheckSym(g, m, g.members[c][i], true).Clean? && S(g.members[c][i]) in t1.at &&
        skip != Some(g.members[c][i])
    ensures var m1 := CheckSym(g, m, g.members[c][i], true).m;
            m1.choice[c] == 1 && MembersTimed(g, m1, t1, c, skip, i + 1, start)
  {
    var s := g.members[c][i];
    var m1 := CheckSym(g, m, s, true).m;
    SymSpares(g, m, s, true, c);
    SymRight(g, m, s, true);
    assert Mark(g, m, C(c)) == 1 && Mark(g, m1, C(c)) == 1;
    assert m.sym[s] == 0 ==> S(s) !in t.at by {
      assert Mark(g, m, S(s)) == m.sym[s];
    }
    MemberTimed(g, m, m1, c, skip, i, start, t, t1);
  }

  lemma MemberTimed(g: Graph, m: Marks, m1: Marks, c: nat, skip: Option<nat>, i: nat, start: nat, t: Times, t1: Times)
    requires GraphOk(g) && MarksOk(g, m) && MarksOk(g, m1) && c < |g.members| && i < |g.members[c]|
    requires MembersTimed(g, m, t, c, skip, i, start) && start <= t.now && Extends(t, t1)
    requires forall n :: n in t.at ==> t.at[n] < t.now
    requires var s := g.members[c][i];
             if skip == Some(s) then m1 == m && t1 == t
             else S(s) in t1.at && (m.sym[s] == 0 ==> S(s) !in t.at)
                  && forall b: nat :: Spared(g, c, b) && b != s ==> m1.sym[b] == m.sym[b]
    ensures MembersTimed(g, m1, t1, c, skip, i + 1, start)
  {
    var s, next := g.members[c][i], i + 1;
    forall b: nat
      ensures Placed(g, m1, t1, c, skip, next, start, b)
    {
      if b in g.members[c] {
        assert Placed(g, m, t, c, skip, i, start, b) && g.members[c][First(g.members[c], b)] == b;
        assert b != s ==> Spared(g, c, b) && First(g.members[c], b) != i;
      }
    }
    forall a: nat, b: nat
      ensures InTurn(g, t1, c, skip, next, a, b)
    {
      if a in g.members[c] && b in g.members[c] {
        assert InTurn(g, t, c, skip, i, a, b) && g.members[c][First(g.members[c], b)] == b;
        assert Placed(g, m, t, c, skip, i, start, a) && Placed(g, m, t, c, skip, i, start, b);
      }
    }
  }

  /** All symbols have been finished, and so has every choice that is entered. */
  ghost predicate AllFinished(g: Graph, t: Times)
    requires GraphOk(g)
  {
    && TimesOk(g, t)
    && (forall s: nat :: s < |g.deps| ==> S(s) in t.at)
    && (forall s: nat :: s < |g.deps| && g.choiceOf[s].Some? ==> C(g.choiceOf[s].value) in t.at)
  }

  lemma {:induction false} AllTimes(g: Graph, m: Marks, s: nat, t: Times) returns (t': Times)
    requires GraphOk(g) && MarksOk(g, m) && s <= |g.deps| && Timed(g, m, t)
    requires CheckAll(g, m, s).Clean?
    ensures Timed(g, CheckAll(g, m, s).m, t')
    decreases |g.deps| - s
  {
    t' := t;
    if s < |g.deps| {
      t' := SymTimes(g, m, s, false, t);
      t' := AllTimes(g, CheckSym(g, m, s, false).m, s + 1, t');
    }
  }

  lemma NothingTimed(g: Graph)
    requires GraphOk(g)
    ensures Timed(g, Unvisited(g), Times(map[], 0, map[]))
    ensures forall n {:trigger Mark(g, Unvisited(g), n)} :: NodeOk(g, n) ==> Mark(g, Unvisited(g), n) == 0
  {
  }

  /** The finishing times of a silent search. */
  lemma SilentTimes(g: Graph) returns (t: Times)
    requires GraphOk(g) && CheckAll(g, Unvisited(g), 0).Clean?
    ensures AllFinished(g, t)
  {
    var none := Unvisited(g);
    NothingTimed(g);
    t := AllTimes(g, none, 0, Times(map[], 0, map[]));
    AllRight(g, none, 0);
    var m := CheckAll(g, none, 0).m;
    forall s: nat | s < |g.deps|
      ensures S(s) in t.at && (g.choiceOf[s].Some? ==> C(g.choiceOf[s].value) in t.at)
    {
      assert Mark(g, m, S(s)) == 2;
      if g.choiceOf[s].Some? {
        var c := C(g.choiceOf[s].value);
        assert Mark(g, m, c) == 1 <==> Mark(g, none, c) == 1;
        assert Mark(g, m, c) == 2;
      }
    }
  }

  /** When the search is silent, the symbols can be ranked so that each one has a lower rank than its
      dependents. */
  lemma SilentRanks(g: Graph) returns (rank: map<Node, nat>)
    requires GraphOk(g) && CheckAll(g, Unvisited(g), 0).Clean?
    ensures forall s: nat :: s < |g.deps| ==> S(s) in rank
    ensures forall s: nat, d :: s < |g.deps| && d in g.deps[s] ==> d in rank && rank[S(s)] < rank[d]
  {
    var t := SilentTimes(g);
    rank := map n | n in t.at :: t.now - t.at[n];
    forall s: nat, d | s < |g.deps| && d in g.deps[s]
      ensures d in rank && rank[S(s)] < rank[d]
    {
      assert DepsBefore(g, t, s, S(s)) && Before(t, d, S(s));
    }
  }

  /** When the search is silent there is no cycle of dependencies between symbols. */
  lemma SilentMeansAcyclic(g: Graph, loop: seq<Node>)
    requires GraphOk(g) && CheckAll(g, Unvisited(g), 0).Clean?
    ensures !DepLoop(g, loop)
  {
    if DepLoop(g, loop) {
      var rank := SilentRanks(g);
      RanksFall(g, rank, loop, |loop| - 1);
    }
  }

  lemma {:induction false} RanksFall(g: Graph, rank: map<Node, nat>, loop: seq<Node>, i: nat)
    requires DepLoop(g, loop) && i < |loop|
    requires forall s: nat, d :: s < |g.deps| && d in g.deps[s] ==> S(s) in rank && d in rank && rank[S(s)] < rank[d]
    ensures loop[0] in rank && loop[i] in rank && rank[loop[i]] <= rank[loop[0]]
  {
    if i == 0 {
      assert DependsOn(g, loop[|loop| - 1], loop[0]);
    } else {
      RanksFall(g, rank, loop, i - 1);
      assert DependsOn(g, loop[i - 1], loop[i]);
    }
  }

  /** Without choices, the search raises a loop just when there is one, and what it raises is one. */
  lemma ChoiceFreeExact(g: Graph)
    requires GraphOk(g) && ChoiceFree(g)
    ensures CheckAll(g, Unvisited(g), 0).Raised? <==> exists loop :: DepLoop(g, loop)
    ensures CheckAll(g, Unvisited(g), 0).Raised? ==> DepLoop(g, CheckAll(g, Unvisited(g), 0).loop)
    ensures CheckAll(g, Unvisited(g), 0).Clean? <==> !exists loop :: DepLoop(g, loop)
  {
    RaisedIsLoop(g);
    match CheckAll(g, Unvisited(g), 0)
    case Clean(_) =>
      forall loop ensures !DepLoop(g, loop) {
        SilentMeansAcyclic(g, loop);
      }
    case Raised(loop) =>
      AllSymbols(g, loop);
    case Part(_) =>
  }

  lemma AllSymbols(g: Graph, loop: seq<Node>)
    requires GraphOk(g) && ChoiceFree(g) && IsLoop(g, loop)
    ensures DepLoop(g, loop)
  {
    forall i | 0 < i < |loop|
      ensures DependsOn(g, loop[i - 1], loop[i])
    {
      assert Leads(g, loop[i], loop[i - 1]);
    }
  }
}
