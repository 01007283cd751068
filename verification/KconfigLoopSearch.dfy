/** The loop detection as it runs: every symbol and choice has a mark that the search updates. */
module KconfigLoopSearch {
  import opened KconfigSyntax
  import opened KconfigLoops
  import Entrance = KconfigEntrance
  import Guards = KconfigLoopGuard
  import OneChoice = KconfigOneChoice
  import Proofs = KconfigLoopProofs
  import Times = KconfigLoopTimes

  datatype Reply = NoLoop | PartOfLoop(loop: seq<Node>) | KconfigError(loop: seq<Node>)

  class LoopSearch {
    const g: Graph
    const symVisited: array<Visit>
    const choiceVisited: array<Visit>

    ghost predicate Valid()
    {
      GraphOk(g) && symVisited.Length == |g.deps| && choiceVisited.Length == |g.members| && symVisited != choiceVisited
    }

    ghost function State(): (m: Marks)
      reads symVisited, choiceVisited
    {
      Marks(symVisited[..], choiceVisited[..])
    }

    /** The search has done what `f` says. */
    ghost predicate Did(f: Found, r: Reply)
      reads symVisited, choiceVisited
    {
      match f
      case Clean(m) => r == NoLoop && State() == m
      case Part(loop) => r == PartOfLoop(loop)
      case Raised(loop) => r == KconfigError(loop)
    }

    constructor (g: Graph)
      requires GraphOk(g)
      ensures Valid() && this.g == g && State() == Unvisited(g) && fresh(symVisited) && fresh(choiceVisited)
    {
      this.g := g;
      symVisited := new Visit[|g.deps|](_ => 0);
      choiceVisited := new Visit[|g.members|](_ => 0);
    }

    method FoundDepLoop(loop: seq<Node>, cur: Node) returns (r: Reply)
      requires loop != []
      ensures Did(OnTheWayBack(loop, cur), r)
    {
      if cur != loop[0] {
        return PartOfLoop(loop + [cur]);
      }
      return KconfigError(loop);
    }

    method CheckDepLoopSym(s: nat, ignoreChoice: bool) returns (r: Reply)
      requires Valid() && s < |g.deps|
      modifies symVisited, choiceVisited
      ensures Did(CheckSym(g, old(State()), s, ignoreChoice), r)
      decreases White(State()), 0
    {
      if symVisited[s] == 0 {
        WhiteSet(g, State(), S(s), 1);
        symVisited[s] := 1;
        ghost var m0 := State();
        assert m0 == Set(g, old(State()), S(s), 1);
        for i := 0 to |g.deps[s]|
          invariant White(State()) <= White(m0)
          invariant CheckDeps(g, m0, s, 0) == CheckDeps(g, State(), s, i)
        {
          match g.deps[s][i] {
            case S(t) => r := CheckDepLoopSym(t, false);
            case C(c) => r := CheckDepLoopChoice(c, None);
          }
          match r {
            case NoLoop =>
            case PartOfLoop(loop) =>
              r := FoundDepLoop(loop, S(s));
              return;
            case KconfigError(_) => return;
          }
        }
        if g.choiceOf[s].Some? && !ignoreChoice {
          r := CheckDepLoopChoice(g.choiceOf[s].value, Some(s));
          match r {
            case NoLoop =>
            case PartOfLoop(loop) =>
              r := FoundDepLoop(loop, S(s));
              return;
            case KconfigError(_) => return;
          }
        }
        symVisited[s] := 2;
        return NoLoop;
      }
      return if symVisited[s] == 2 then NoLoop else PartOfLoop([S(s)]);
    }

    method CheckDepLoopChoice(c: nat, skip: Option<nat>) returns (r: Reply)
      requires Valid() && c < |g.members|
      modifies symVisited, choiceVisited
      ensures Did(CheckChoice(g, old(State()), c, skip), r)
      decreases White(State()), 0
    {
      if choiceVisited[c] == 0 {
        WhiteSet(g, State(), C(c), 1);
        choiceVisited[c] := 1;
        ghost var m0 := State();
        assert m0 == Set(g, old(State()), C(c), 1);
        for i := 0 to |g.members[c]|
          invariant White(State()) <= White(m0)
          invariant CheckMembers(g, m0, c, skip, 0) == CheckMembers(g, State(), c, skip, i)
        {
          if skip != Some(g.members[c][i]) {
            r := CheckDepLoopSym(g.members[c][i], true);
            match r {
              case NoLoop =>
              case PartOfLoop(loop) =>
                r := FoundDepLoop(loop, C(c));
                return;
              case KconfigError(_) => return;
            }
          }
        }
        choiceVisited[c] := 2;
        return NoLoop;
      }
      return if choiceVisited[c] == 2 then NoLoop else PartOfLoop([C(c)]);
    }

    /** Searches all symbols. What is raised is a loop; and nothing is raised just when there is none, if
        there are no choices or no symbol of a choice leads to one listed before it. With one choice, the
        condition is exact. */
    method CheckAllSymbols() returns (r: Reply)
      requires Valid() && State() == Unvisited(g)
      modifies symVisited, choiceVisited
      ensures Did(CheckAll(g, Unvisited(g), 0), r)
      ensures !r.PartOfLoop? && (r.KconfigError? ==> Proofs.RealLoop(g, r.loop))
      ensures ChoiceFree(g) ==> (r == NoLoop <==> !exists loop :: Proofs.DepLoop(g, loop))
      ensures Guards.Guard(g) ==> (r == NoLoop <==> Guards.NoRealLoop(g))
      ensures |g.members| == 1 ==> (r == NoLoop <==> Entrance.Untangled(g))
    {
      Proofs.RaisedIsLoop(g);
      Guards.SilenceExact(g);
      if ChoiceFree(g) {
        Times.ChoiceFreeExact(g);
      }
      if |g.members| == 1 {
        OneChoice.OneChoiceExact(g);
      }
      for s := 0 to |g.deps|
        invariant CheckAll(g, Unvisited(g), 0) == CheckAll(g, State(), s)
      {
        r := CheckDepLoopSym(s, false);
        match r {
          case NoLoop =>
          case _ => return;
        }
      }
      return NoLoop;
    }
  }
}
