/** Heading levels listed in document order, and the forest they describe. */
module SectionForest {
  import opened Common

  /** The latest position before `i` whose level is below `bound`. */
  function LatestBelow(levels: seq<int>, i: nat, bound: int): (p: Option<nat>)
    requires i <= |levels|
    ensures p.Some? ==> p.value < i && levels[p.value] < bound
    ensures forall k :: (if p.Some? then p.value + 1 else 0) <= k < i ==> levels[k] >= bound
  {
    if i == 0 then None
    else if levels[i - 1] < bound then Some(i - 1)
    else LatestBelow(levels, i - 1, bound)
  }

  /** The parent of section `i`: the latest earlier section of a strictly lower level. */
  function Parent(levels: seq<int>, i: nat): Option<nat>
    requires i < |levels|
  {
    LatestBelow(levels, i, levels[i])
  }

  /** Everything a parser may compute as the parent is the same: the definition leaves no choice. */
  lemma {:induction false} ParentUnique(levels: seq<int>, i: nat, p: Option<nat>)
    requires i < |levels|
    requires p.Some? ==> p.value < i && levels[p.value] < levels[i]
    requires forall k :: (if p.Some? then p.value + 1 else 0) <= k < i ==> levels[k] >= levels[i]
    ensures p == Parent(levels, i)
  {
    var q := Parent(levels, i);
    if p.Some? {
      assert q.Some?;
      assert !(p.value < q.value) && !(q.value < p.value);
    }
  }

  /** Section `p` is the latest before `i` whose level is lower. */
  predicate IsLatestLower(levels: seq<int>, i: nat, p: nat) {
    p < i < |levels| && levels[p] < levels[i] && forall k :: p < k < i ==> levels[k] >= levels[i]
  }

  lemma ParentIsLatestLower(levels: seq<int>, i: nat, p: nat)
    requires i < |levels|
    ensures Parent(levels, i) == Some(p) <==> IsLatestLower(levels, i, p)
  {
    if IsLatestLower(levels, i, p) {
      ParentUnique(levels, i, Some(p));
    }
  }

  /** The chain of parents of section `i`, nearest first. */
  function Ancestors(levels: seq<int>, i: nat): (a: seq<nat>)
    requires i < |levels|
    ensures forall k :: k in a ==> k < i
  {
    match Parent(levels, i)
    case None => []
    case Some(p) => [p] + Ancestors(levels, p)
  }

  /** The first position after `i` whose level is at most that of `i`, from `k` on. */
  function CloserFrom(levels: seq<int>, i: nat, k: nat): (e: nat)
    requires i < k <= |levels|
    ensures k <= e <= |levels|
    ensures e < |levels| ==> levels[e] <= levels[i]
    ensures forall j :: k <= j < e ==> levels[j] > levels[i]
    decreases |levels| - k
  {
    if k == |levels| || levels[k] <= levels[i] then k else CloserFrom(levels, i, k + 1)
  }

  /** Where the block of section `i` ends. */
  function BlockEnd(levels: seq<int>, i: nat): nat
    requires i < |levels|
  {
    CloserFrom(levels, i, i + 1)
  }

  /** `i` is an ancestor of `j` exactly when nothing after it, up to and including `j`, closes it. */
  lemma {:induction false} AncestorMeansOpen(levels: seq<int>, i: nat, j: nat)
    requires i < |levels| && j < |levels|
    ensures i in Ancestors(levels, j) <==> i < j && forall k :: i < k <= j ==> levels[k] > levels[i]
  {
    match Parent(levels, j)
    case None =>
    case Some(p) =>
      assert Ancestors(levels, j) == [p] + Ancestors(levels, p);
      AncestorMeansOpen(levels, i, p);
  }

  /** The descendants of a section are exactly the contiguous block that follows it. */
  lemma {:induction false} DescendantsAreABlock(levels: seq<int>, i: nat, j: nat)
    requires i < |levels| && j < |levels|
    ensures i in Ancestors(levels, j) <==> i < j < BlockEnd(levels, i)
  {
    AncestorMeansOpen(levels, i, j);
    if i < j && j >= BlockEnd(levels, i) {
      assert levels[BlockEnd(levels, i)] <= levels[i];
    }
  }

  lemma {:induction false} BlocksNestOrAreDisjoint(levels: seq<int>, i: nat, j: nat)
    requires i < j < |levels|
    ensures BlockEnd(levels, i) <= j || BlockEnd(levels, j) <= BlockEnd(levels, i)
  {
    var e := BlockEnd(levels, i);
    assert j < e < |levels| ==> levels[e] <= levels[i] < levels[j];
  }

  /** A section has fewer ancestors than its level: with levels 1 to 6, chains hold at most 6 sections. */
  lemma {:induction false} AncestorChainsAreShort(levels: seq<int>, i: nat)
    requires i < |levels| && forall k :: 0 <= k < |levels| ==> 1 <= levels[k] <= 6
    ensures |Ancestors(levels, i)| < levels[i] <= 6
  {
    match Parent(levels, i)
    case None =>
    case Some(p) => AncestorChainsAreShort(levels, p);
  }

  /** The first position between stack slot `s` and the slot below it. */
  function GapStart(stack: seq<nat>, s: nat): nat
    requires s <= |stack|
  {
    if s == 0 then 0 else stack[s - 1] + 1
  }

  /** Whatever lies between slot `s` and the slot below it was closed by the section in slot `s`. */
  ghost predicate GapClosed(levels: seq<int>, stack: seq<nat>, s: nat)
    requires s < |stack| && stack[s] < |levels|
  {
    forall k :: GapStart(stack, s) <= k < stack[s] ==> levels[k] >= levels[stack[s]]
  }

  /**
    The parser's stack after the first `i` headings: the last heading is on top, levels strictly
    increase upwards, and every gap is closed.
   */
  ghost predicate IsStack(levels: seq<int>, i: nat, stack: seq<nat>)
    requires i <= |levels|
  {
    && (forall s :: 0 <= s < |stack| ==> stack[s] < i)
    && (i > 0 ==> stack != [] && stack[|stack| - 1] == i - 1)
    && (forall s, t :: 0 <= s < t < |stack| ==> stack[s] < stack[t] && levels[stack[s]] < levels[stack[t]])
    && (forall s :: 0 <= s < |stack| ==> GapClosed(levels, stack, s))
  }

  /** The lowest stack slot at or above `k`. */
  lemma {:induction false} SlotAbove(stack: seq<nat>, k: nat, s: nat) returns (r: nat)
    requires s < |stack| && k <= stack[|stack| - 1] && GapStart(stack, s) <= k
    ensures s <= r < |stack| && GapStart(stack, r) <= k <= stack[r]
    decreases |stack| - s
  {
    if k <= stack[s] {
      r := s;
    } else {
      r := SlotAbove(stack, k, s + 1);
    }
  }

  /** The stack holds precisely the sections that no later section has closed. */
  lemma StackHoldsOpenSections(levels: seq<int>, i: nat, stack: seq<nat>, k: nat)
    requires k < i <= |levels| && IsStack(levels, i, stack)
    ensures k in stack <==> forall j :: k < j < i ==> levels[j] > levels[k]
  {
    var r := SlotAbove(stack, k, 0);
    assert GapClosed(levels, stack, r);
    if k == stack[r] {
      forall j | k < j < i
        ensures levels[j] > levels[k]
      {
        var t := SlotAbove(stack, j, 0);
        assert GapClosed(levels, stack, t);
      }
    } else {
      assert levels[stack[r]] <= levels[k];
      assert forall s :: 0 <= s < r ==> stack[s] <= stack[r - 1];
    }
  }

  function Top(stack: seq<nat>): Option<nat> {
    if stack == [] then None else Some(stack[|stack| - 1])
  }

  /** Pop the sections whose level is at least `bound`. */
  function PopTo(levels: seq<int>, stack: seq<nat>, bound: int): (kept: seq<nat>)
    requires forall s :: 0 <= s < |stack| ==> stack[s] < |levels|
    ensures |kept| <= |stack|
    ensures forall s :: 0 <= s < |kept| ==> kept[s] == stack[s]
  {
    if stack == [] || levels[stack[|stack| - 1]] < bound then stack
    else PopTo(levels, stack[..|stack| - 1], bound)
  }

  /** The stack after the first `i` headings: each one pops what it closes and is pushed. */
  function OpenStack(levels: seq<int>, i: nat): (stack: seq<nat>)
    requires i <= |levels|
    ensures forall s :: 0 <= s < |stack| ==> stack[s] < i
  {
    if i == 0 then [] else PopTo(levels, OpenStack(levels, i - 1), levels[i - 1]) + [i - 1]
  }

  /** Popping keeps an entry below the bound on top, and everything above it is closed. */
  lemma {:induction false} PopToGap(levels: seq<int>, i: nat, stack: seq<nat>, n: nat)
    requires i < |levels| && IsStack(levels, i, stack) && n <= |stack|
    requires forall k :: GapStart(stack, n) <= k < i ==> levels[k] >= levels[i]
    ensures var kept := PopTo(levels, stack[..n], levels[i]);
      && (kept != [] ==> levels[kept[|kept| - 1]] < levels[i])
      && forall k :: GapStart(stack, |kept|) <= k < i ==> levels[k] >= levels[i]
  {
    if n > 0 && levels[stack[n - 1]] >= levels[i] {
      assert GapClosed(levels, stack, n - 1);
      assert stack[..n][..n - 1] == stack[..n - 1];
      PopToGap(levels, i, stack, n - 1);
    }
  }

  /** After popping what section `i` closes, the top is the parent of `i`. */
  lemma PopExposesParent(levels: seq<int>, i: nat, stack: seq<nat>)
    requires i < |levels| && IsStack(levels, i, stack)
    ensures Parent(levels, i) == Top(PopTo(levels, stack, levels[i]))
  {
    assert stack[..|stack|] == stack;
    PopToGap(levels, i, stack, |stack|);
    ParentUnique(levels, i, Top(PopTo(levels, stack, levels[i])));
  }

  /** Pushing `i` on what is left gives the next stack. */
  lemma PushKeepsStack(levels: seq<int>, i: nat, stack: seq<nat>)
    requires i < |levels| && IsStack(levels, i, stack)
    ensures IsStack(levels, i + 1, PopTo(levels, stack, levels[i]) + [i])
  {
    assert stack[..|stack|] == stack;
    PopToGap(levels, i, stack, |stack|);
    var kept := PopTo(levels, stack, levels[i]);
    var next := kept + [i];
    forall s | 0 <= s < |next|
      ensures GapClosed(levels, next, s)
    {
      if s < |kept| {
        assert GapClosed(levels, stack, s);
        assert next[s] == stack[s];
      }
      assert GapStart(next, s) == GapStart(stack, s);
    }
  }

  lemma {:induction false} OpenStackIsStack(levels: seq<int>, i: nat)
    requires i <= |levels|
    ensures IsStack(levels, i, OpenStack(levels, i))
  {
    if i > 0 {
      OpenStackIsStack(levels, i - 1);
      PushKeepsStack(levels, i - 1, OpenStack(levels, i - 1));
    }
  }

  /** After popping for section `i`, the top of the parser's stack is the parent of `i`. */
  lemma {:induction false} TopIsParent(levels: seq<int>, i: nat)
    requires i < |levels|
    ensures Parent(levels, i) == Top(PopTo(levels, OpenStack(levels, i), levels[i]))
  {
    OpenStackIsStack(levels, i);
    PopExposesParent(levels, i, OpenStack(levels, i));
  }

  /** The parser's stack holds precisely the sections that no later section has closed. */
  lemma OpenStackIsOpenSections(levels: seq<int>, i: nat, k: nat)
    requires k < i <= |levels|
    ensures k in OpenStack(levels, i) <==> forall j :: k < j < i ==> levels[j] > levels[k]
  {
    OpenStackIsStack(levels, i);
    StackHoldsOpenSections(levels, i, OpenStack(levels, i), k);
  }
}
