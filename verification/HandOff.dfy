/** The list of executable images that a boot stage hands over to the next one, linked through an array of
    image descriptors. */
module HandOff {
  import opened ImageIds

  datatype Desc = Desc(id: nat, executable: bool, firstExe: bool, nextHandOff: nat)

  /** A pointer to the node of a descriptor. */
  datatype Link = Null | To(index: nat)

  datatype Result = NoImages | Asserted | Linked

  /* What the descriptors say */

  /** The position of the first descriptor from `i` on with the image id. */
  function IndexOf(descs: seq<Desc>, id: nat, i: nat): (k: nat)
    requires i <= |descs|
    ensures i <= k <= |descs| && (k < |descs| ==> descs[k].id == id)
    ensures forall j :: i <= j < k ==> descs[j].id != id
    decreases |descs| - i
  {
    if i == |descs| || descs[i].id == id then i else IndexOf(descs, id, i + 1)
  }

  predicate IsHead(d: Desc) { d.executable && d.firstExe }

  /** The position of the first descriptor from `i` on that starts the list. */
  function HeadOf(descs: seq<Desc>, i: nat): (k: nat)
    requires i <= |descs|
    ensures i <= k <= |descs| && (k < |descs| ==> IsHead(descs[k]))
    ensures forall j :: i <= j < k ==> !IsHead(descs[j])
    decreases |descs| - i
  {
    if i == |descs| || IsHead(descs[i]) then i else HeadOf(descs, i + 1)
  }

  datatype Step = Ends | Goes(k: nat) | Lost

  /** Where the hand-off goes from an image. The first descriptor cannot be handed over to. */
  function Next(descs: seq<Desc>, i: nat): (s: Step)
    requires i < |descs|
    ensures s.Goes? ==> 0 < s.k < |descs|
  {
    if descs[i].nextHandOff == INVALID_IMAGE_ID then Ends
    else
      var k := IndexOf(descs, descs[i].nextHandOff, 0);
      if 0 < k < |descs| then Goes(k) else Lost
  }

  /** A list that starts at the head and follows the hand-offs. */
  ghost predicate Chain(descs: seq<Desc>, path: seq<nat>) {
    && path != [] && (forall i :: 0 <= i < |path| ==> path[i] < |descs|)
    && path[0] == HeadOf(descs, 0)
    && forall i {:trigger path[i + 1]} :: 0 <= i < |path| - 1 ==> Next(descs, path[i]) == Goes(path[i + 1])
  }

  predicate AllExecutable(descs: seq<Desc>, path: seq<nat>) {
    forall i :: 0 <= i < |path| ==> path[i] < |descs| && descs[path[i]].executable
  }

  /** A chain of executable images that ends with the last hand-off. */
  ghost predicate Complete(descs: seq<Desc>, path: seq<nat>) {
    Chain(descs, path) && AllExecutable(descs, path) && Next(descs, path[|path| - 1]) == Ends
  }

  /** The hand-offs from the head form a complete chain. */
  ghost predicate HasComplete(descs: seq<Desc>) { exists whole :: Complete(descs, whole) }

  predicate NoDuplicates(path: seq<nat>) { forall i, j :: 0 <= i < j < |path| ==> path[i] != path[j] }

  /** The links join the images of a path and no others. */
  predicate LinksOf(links: seq<Link>, path: seq<nat>) {
    && (forall i :: 0 <= i < |path| ==> path[i] < |links|)
    && (forall i {:trigger path[i + 1]} :: 0 <= i < |path| - 1 ==> links[path[i]] == To(path[i + 1]))
    && forall k :: 0 <= k < |links| && (path != [] ==> k !in path[..|path| - 1]) ==> links[k] == Null
  }

  /* The complete chain, said of the descriptors */

  /** `k` is the first executable image that the stage hands over to. */
  ghost predicate StartsAt(descs: seq<Desc>, k: nat) {
    && k < |descs| && descs[k].executable && descs[k].firstExe
    && forall j :: 0 <= j < k ==> !(descs[j].executable && descs[j].firstExe)
  }

  /** Image `i` hands over to image `k`: `k` is the first with the id that `i` names, and not the first of
      all descriptors. */
  ghost predicate HandsTo(descs: seq<Desc>, i: nat, k: nat) {
    && i < |descs| && 0 < k < |descs|
    && descs[i].nextHandOff != 0xFFFF_FFFF && descs[k].id == descs[i].nextHandOff
    && forall j :: 0 <= j < k ==> descs[j].id != descs[i].nextHandOff
  }

  ghost predicate Whole(descs: seq<Desc>, path: seq<nat>) {
    && path != [] && StartsAt(descs, path[0])
    && (forall i {:trigger path[i + 1]} :: 0 <= i < |path| - 1 ==> HandsTo(descs, path[i], path[i + 1]))
    && (forall i :: 0 <= i < |path| ==> path[i] < |descs| && descs[path[i]].executable)
    && descs[path[|path| - 1]].nextHandOff == 0xFFFF_FFFF
  }

  lemma StartIs(descs: seq<Desc>, k: nat)
    ensures StartsAt(descs, k) <==> k < |descs| && k == HeadOf(descs, 0)
  {
  }

  lemma HandsIs(descs: seq<Desc>, i: nat, k: nat)
    requires i < |descs|
    ensures HandsTo(descs, i, k) <==> Next(descs, i) == Goes(k)
    ensures Next(descs, i) == Ends <==> descs[i].nextHandOff == 0xFFFF_FFFF
  {
  }

  /** A chain is complete just when it starts at the first image marked as such, each image hands over to the
      next one, all are executable, and the last one hands over to none. */
  lemma CompleteMeaning(descs: seq<Desc>, path: seq<nat>)
    ensures Complete(descs, path) <==> Whole(descs, path)
  {
    if path != [] && forall i :: 0 <= i < |path| ==> path[i] < |descs| {
      StartIs(descs, path[0]);
      forall i {:trigger path[i + 1]} | 0 <= i < |path| - 1
        ensures HandsTo(descs, path[i], path[i + 1]) <==> Next(descs, path[i]) == Goes(path[i + 1])
      {
        HandsIs(descs, path[i], path[i + 1]);
      }
      HandsIs(descs, path[|path| - 1], 0);
    }
  }

  /* Chains are determined by their length. */

  /** A chain is a prefix of the complete one. */
  lemma {:induction false} Prefix(descs: seq<Desc>, path: seq<nat>, whole: seq<nat>)
    requires Chain(descs, path) && Complete(descs, whole)
    ensures |path| <= |whole| && path == whole[..|path|]
    decreases |path|
  {
    if |path| > 1 {
      var init, last := path[..|path| - 1], |path| - 2;
      assert Chain(descs, init) by {
        assert forall i {:trigger init[i + 1]} :: 0 <= i < |init| - 1 ==>
            init[i + 1] == path[i + 1] && init[i] == path[i];
      }
      Prefix(descs, init, whole);
      assert whole[last] == init[last] == path[last];
      assert Next(descs, path[last]) == Goes(path[last + 1]) && Next(descs, whole[|whole| - 1]) == Ends;
      assert Next(descs, whole[last]) == Goes(whole[last + 1]);
    }
  }

  /** From two equal places on a complete chain, the same number of images follows. */
  lemma {:induction false} SameRest(descs: seq<Desc>, path: seq<nat>, i: nat, j: nat)
    requires Complete(descs, path) && i <= j < |path| && path[i] == path[j]
    ensures i == j
    decreases |path| - j
  {
    assert Next(descs, path[|path| - 1]) == Ends;
    assert i < |path| - 1 ==> Next(descs, path[i]) == Goes(path[i + 1]);
    if j < |path| - 1 {
      assert Next(descs, path[j]) == Goes(path[j + 1]);
      SameRest(descs, path, i + 1, j + 1);
    }
  }

  /** A chain that is part of a complete one has no duplicates. */
  lemma ChainNoDuplicates(descs: seq<Desc>, path: seq<nat>, whole: seq<nat>)
    requires Chain(descs, path) && Complete(descs, whole)
    ensures NoDuplicates(path)
  {
    Prefix(descs, path, whole);
    forall i, j | 0 <= i < j < |path|
      ensures path[i] != path[j]
    {
      assert whole[i] == path[i] && whole[j] == path[j];
      if path[i] == path[j] {
        SameRest(descs, whole, i, j);
      }
    }
  }

  /** A list without duplicates is not longer than the array. */
  lemma {:induction false} Pigeonhole(path: seq<nat>, n: nat)
    requires NoDuplicates(path) && forall i :: 0 <= i < |path| ==> path[i] < n
    ensures |path| <= n
    decreases n
  {
    if path != [] {
      if k :| 0 <= k < |path| && path[k] == n - 1 {
        var rest := path[..k] + path[k + 1..];
        assert forall i :: 0 <= i < |rest| ==> rest[i] == path[if i < k then i else i + 1];
        Pigeonhole(rest, n - 1);
      } else {
        assert path[0] < n;
        Pigeonhole(path, n - 1);
      }
    }
  }

  /** A path that comes back to one of its images is not part of a complete chain. */
  lemma Revisited(descs: seq<Desc>, path: seq<nat>, i: nat, j: nat)
    requires Chain(descs, path) && i < j < |path| && path[i] == path[j]
    ensures !HasComplete(descs)
  {
    forall whole ensures !Complete(descs, whole) {
      if Complete(descs, whole) {
        ChainNoDuplicates(descs, path, whole);
      }
    }
  }

  /** A path longer than the array is not part of a complete chain. */
  lemma TooLong(descs: seq<Desc>, path: seq<nat>)
    requires Chain(descs, path) && |path| > |descs|
    ensures !HasComplete(descs)
  {
    forall whole ensures !Complete(descs, whole) {
      if Complete(descs, whole) {
        ChainNoDuplicates(descs, path, whole);
        Pigeonhole(path, |descs|);
      }
    }
  }

  /** The images of a chain that is part of a complete one are executable and hand over to one another. */
  lemma LastGoesOn(descs: seq<Desc>, path: seq<nat>, whole: seq<nat>)
    requires Chain(descs, path) && Complete(descs, whole)
    ensures var last := path[|path| - 1]; descs[last].executable && Next(descs, last) != Lost
  {
    Prefix(descs, path, whole);
    var last := |path| - 1;
    assert whole[last] == path[last] && descs[whole[last]].executable;
    assert last < |whole| - 1 ==> Next(descs, whole[last]) == Goes(whole[last + 1]);
  }

  /** A path whose last image is not executable, or hands over to nowhere, is not part of one. */
  lemma Stuck(descs: seq<Desc>, path: seq<nat>)
    requires Chain(descs, path)
    requires var last := path[|path| - 1]; !descs[last].executable || Next(descs, last) == Lost
    ensures !HasComplete(descs)
  {
    forall whole ensures !Complete(descs, whole) {
      if Complete(descs, whole) {
        LastGoesOn(descs, path, whole);
      }
    }
  }

  lemma ChainMore(descs: seq<Desc>, path: seq<nat>, k: nat)
    requires Chain(descs, path) && Next(descs, path[|path| - 1]) == Goes(k)
    ensures Chain(descs, path + [k])
  {
    var more := path + [k];
    forall i {:trigger more[i + 1]} | 0 <= i < |more| - 1
      ensures Next(descs, more[i]) == Goes(more[i + 1])
    {
      if i < |path| - 1 {
        assert more[i] == path[i] && more[i + 1] == path[i + 1];
      }
    }
  }

  /** Linking one more image behind the last one. */
  lemma LinkMore(links: seq<Link>, path: seq<nat>, k: nat)
    requires path != [] && LinksOf(links, path) && k < |links| && NoDuplicates(path)
    ensures LinksOf(links[path[|path| - 1] := To(k)], path + [k])
  {
    var last, more := path[|path| - 1], path + [k];
    var links' := links[last := To(k)];
    forall i {:trigger more[i + 1]} | 0 <= i < |more| - 1
      ensures links'[more[i]] == To(more[i + 1])
    {
      if i < |path| - 1 {
        assert more[i] == path[i] && more[i + 1] == path[i + 1] && path[i] != last;
      }
    }
    assert more[..|more| - 1] == path;
    forall x | 0 <= x < |links'| && x !in path
      ensures links'[x] == Null
    {
      assert x !in path[..|path| - 1];
    }
  }

  class HandOffList {
    const descs: seq<Desc>
    const links: array<Link>
    var head: Link

    constructor (descs: seq<Desc>)
      ensures this.descs == descs && links.Length == |descs| && head == Null && fresh(links)
      ensures forall k :: 0 <= k < links.Length ==> links[k] == Null
    {
      this.descs := descs;
      head := Null;
      links := new Link[|descs|](_ => Null);
    }

    /** The position of an image, or -1. */
    method NodeIndex(id: nat) returns (index: int)
      ensures index == if IndexOf(descs, id, 0) < |descs| then IndexOf(descs, id, 0) else -1
    {
      for i := 0 to |descs|
        invariant IndexOf(descs, id, 0) == IndexOf(descs, id, i)
      {
        if descs[i].id == id {
          return i;
        }
      }
      return -1;
    }

    /** Links the list. It is linked just when the hand-offs from the head form a complete chain; that one
        is then linked and nothing else, without duplicates. In all other cases an assertion stops. */
    method LinkImages() returns (r: Result, ghost path: seq<nat>)
      requires links.Length == |descs| && head == Null && forall k :: 0 <= k < links.Length ==> links[k] == Null
      modifies this, links
      ensures r == NoImages <==> descs == []
      ensures r == Linked <==> HasComplete(descs)
      ensures r == Linked ==>
                && Complete(descs, path) && NoDuplicates(path)
                && head == To(path[0]) && LinksOf(links[..], path)
    {
      path := [];
      if |descs| == 0 {
        return NoImages, [];
      }
      var linkIndex := 0;
      for count := 0 to |descs|
        invariant head == Null && linkIndex == 0
        invariant HeadOf(descs, 0) == HeadOf(descs, count)
      {
        if IsHead(descs[count]) {
          head := To(count);
          linkIndex := count;
          break;
        }
      }
      if head == Null {
        return Asserted, [];
      }
      r, path := Walk(linkIndex);
    }

    /** Links the node `k` behind the last one, unless that has been linked before. */
    method LinkNode(last: Link, k: nat, ghost path: seq<nat>) returns (ok: bool)
      requires k < links.Length && LinksOf(links[..], path)
      requires last == if path == [] then Null else To(path[|path| - 1])
      requires NoDuplicates(path[..if path == [] then 0 else |path| - 1])
      modifies links
      ensures ok ==> LinksOf(links[..], path + [k]) && NoDuplicates(path)
      ensures !ok ==> path != [] && path[|path| - 1] in path[..|path| - 1]
    {
      if last.To? {
        if links[last.index] != Null {
          return false;
        }
        DifferentSoFar(links[..], path);
        LinkMore(links[..], path, k);
        links[last.index] := To(k);
      }
      return true;
    }

    /** The walk from the head. */
    method Walk(first: nat) returns (r: Result, ghost path: seq<nat>)
      requires links.Length == |descs| && first < |descs| && first == HeadOf(descs, 0)
      requires forall k :: 0 <= k < links.Length ==> links[k] == Null
      modifies links
      ensures r != NoImages && (r == Linked <==> HasComplete(descs))
      ensures r == Linked ==> Complete(descs, path) && NoDuplicates(path) && LinksOf(links[..], path)
    {
      // The images before the current one.
      path := [];
      var linkIndex: nat, last: Link := first, Null;
      for count := 0 to |descs|
        invariant |path| == count && linkIndex < |descs|
        invariant Chain(descs, path + [linkIndex]) && AllExecutable(descs, path)
        invariant last == if path == [] then Null else To(path[|path| - 1])
        invariant NoDuplicates(path[..if path == [] then 0 else |path| - 1])
        invariant LinksOf(links[..], path)
      {
        ghost var now: seq<nat> := path + [linkIndex];
        if !descs[linkIndex].executable {
          Stuck(descs, now);
          return Asserted, now;
        }
        var ok := LinkNode(last, linkIndex, path);
        if !ok {
          BackAgain(descs, path, linkIndex);
          return Asserted, now;
        }
        last := To(linkIndex);
        if descs[linkIndex].nextHandOff == INVALID_IMAGE_ID {
          Finished(descs, path, linkIndex);
          return Linked, now;
        }
        var next := NodeIndex(descs[linkIndex].nextHandOff);
        if next <= 0 {
          Stuck(descs, now);
          return Asserted, now;
        }
        var k: nat := next;
        GoesOn(descs, path, linkIndex, k);
        path := now;
        linkIndex := k;
      }
      TooLong(descs, path + [linkIndex]);
      return Asserted, path;
    }
  }

  /** The walk has come to its end. */
  lemma Finished(descs: seq<Desc>, path: seq<nat>, k: nat)
    requires k < |descs| && Chain(descs, path + [k]) && AllExecutable(descs, path)
    requires descs[k].executable && Next(descs, k) == Ends
    ensures Complete(descs, path + [k]) && HasComplete(descs) && NoDuplicates(path + [k])
  {
    assert Complete(descs, path + [k]);
    ChainNoDuplicates(descs, path + [k], path + [k]);
  }

  /** The walk goes on. */
  lemma GoesOn(descs: seq<Desc>, path: seq<nat>, k: nat, next: nat)
    requires k < |descs| && Chain(descs, path + [k]) && AllExecutable(descs, path)
    requires descs[k].executable && Next(descs, k) == Goes(next)
    ensures Chain(descs, path + [k] + [next]) && AllExecutable(descs, path + [k])
    ensures (path + [k])[..|path|] == path
  {
    ChainMore(descs, path + [k], next);
  }

  /** The last image of a path is on it twice. */
  lemma BackAgain(descs: seq<Desc>, path: seq<nat>, k: nat)
    requires Chain(descs, path + [k]) && path != [] && path[|path| - 1] in path[..|path| - 1]
    ensures !HasComplete(descs)
  {
    var i :| 0 <= i < |path| - 1 && path[..|path| - 1][i] == path[|path| - 1];
    Revisited(descs, path + [k], i, |path| - 1);
  }

  /** The last image has not been linked before: it is new. */
  lemma DifferentSoFar(links: seq<Link>, path: seq<nat>)
    requires path != [] && LinksOf(links, path) && NoDuplicates(path[..|path| - 1])
    requires links[path[|path| - 1]] == Null
    ensures NoDuplicates(path)
  {
    var last := |path| - 1;
    forall i | 0 <= i < last
      ensures path[i] != path[last]
    {
      assert links[path[i]] == To(path[i + 1]);
    }
    forall i, j | 0 <= i < j <= last
      ensures path[i] != path[j]
    {
      assert j < last ==> path[..last][i] != path[..last][j];
    }
  }
}
