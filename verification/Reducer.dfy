/** Delta-debugging reducer for failing action sequences (`engine/replay.py`).

    The failure oracle is a black box: an arbitrary predicate on action
    sequences.  `ShrinkActions` is the loop; `Shrunk` and `Queries` are its
    reference result and the reference list of oracle calls, about which the
    theorems are proved. */
module Reducer {
  import opened Subsequences
  import opened Wrappers

  function Max(a: int, b: int): int {
    if a < b then b else a
  }

  function Min(a: int, b: int): int {
    if a < b then a else b
  }

  /** Number of actions removed at once when `n` actions are cut into `g` chunks. */
  function ChunkSize(n: nat, g: nat): nat
    requires g >= 1
  {
    Max(1, n / g)
  }

  /** Slices past the end are clipped, as in Python. */
  function WithoutChunk<T>(s: seq<T>, start: nat, size: nat): seq<T>
    requires start <= |s|
  {
    s[..start] + s[Min(start + size, |s|)..]
  }

  predicate Accepted<T>(candidate: seq<T>, reproduces: seq<T> -> bool) {
    candidate != [] && reproduces(candidate)
  }

  /** The first chunk, left to right from `start`, that can be removed. */
  function FirstReduction<T>(s: seq<T>, size: nat, start: nat, reproduces: seq<T> -> bool): Option<seq<T>>
    requires size >= 1
    decreases |s| - start
  {
    if start >= |s| then None
    else if Accepted(WithoutChunk(s, start, size), reproduces) then Some(WithoutChunk(s, start, size))
    else FirstReduction(s, size, start + size, reproduces)
  }

  /** The sequences that pass hands to the oracle. */
  function PassQueries<T>(s: seq<T>, size: nat, start: nat, reproduces: seq<T> -> bool): seq<seq<T>>
    requires size >= 1
    decreases |s| - start
  {
    if start >= |s| then []
    else
      var c := WithoutChunk(s, start, size);
      if c == [] then PassQueries(s, size, start + size, reproduces)
      else if reproduces(c) then [c]
      else [c] + PassQueries(s, size, start + size, reproduces)
  }

  lemma {:induction false} FirstReductionShrinks<T>(s: seq<T>, size: nat, start: nat, reproduces: seq<T> -> bool)
    requires size >= 1
    ensures var r := FirstReduction(s, size, start, reproduces);
            r.Some? ==> Accepted(r.value, reproduces) && IsSubseq(r.value, s) && |s| - size <= |r.value| < |s|
    decreases |s| - start
  {
    if start < |s| {
      if Accepted(WithoutChunk(s, start, size), reproduces) {
        CutIsSubseq(s, start, Min(start + size, |s|));
      } else {
        FirstReductionShrinks(s, size, start + size, reproduces);
      }
    }
  }

  /** Progress measure of the outer loop, second component. */
  function Slack(n: nat, g: nat): nat {
    if g < n then n - g else 0
  }

  /** Reference result of reducing `s` at granularity `g`. */
  function Shrunk<T>(s: seq<T>, g: nat, reproduces: seq<T> -> bool): seq<T>
    requires g >= 2
    decreases |s|, Slack(|s|, g)
  {
    if |s| < 2 then s
    else
      FirstReductionShrinks(s, ChunkSize(|s|, g), 0, reproduces);
      match FirstReduction(s, ChunkSize(|s|, g), 0, reproduces)
      case Some(c) => Shrunk(c, Max(2, g - 1), reproduces)
      case None =>
        if g >= |s| then s else Shrunk(s, Min(|s|, 2 * g), reproduces)
  }

  /** Reference list of every oracle call made on the way. */
  function Queries<T>(s: seq<T>, g: nat, reproduces: seq<T> -> bool): seq<seq<T>>
    requires g >= 2
    decreases |s|, Slack(|s|, g)
  {
    if |s| < 2 then []
    else
      FirstReductionShrinks(s, ChunkSize(|s|, g), 0, reproduces);
      PassQueries(s, ChunkSize(|s|, g), 0, reproduces) +
      match FirstReduction(s, ChunkSize(|s|, g), 0, reproduces)
      case Some(c) => Queries(c, Max(2, g - 1), reproduces)
      case None =>
        if g >= |s| then [] else Queries(s, Min(|s|, 2 * g), reproduces)
  }

  lemma NothingToShrink<T>(s: seq<T>, g: nat, reproduces: seq<T> -> bool)
    requires g >= 2 && |s| < 2
    ensures Shrunk(s, g, reproduces) == s && Queries(s, g, reproduces) == []
  {
  }

  lemma UnfoldPass<T>(s: seq<T>, g: nat, reproduces: seq<T> -> bool)
    requires g >= 2 && |s| >= 2
    ensures var first := FirstReduction(s, ChunkSize(|s|, g), 0, reproduces);
            var pass := PassQueries(s, ChunkSize(|s|, g), 0, reproduces);
            match first
            case Some(c) =>
              && Shrunk(s, g, reproduces) == Shrunk(c, Max(2, g - 1), reproduces)
              && Queries(s, g, reproduces) == pass + Queries(c, Max(2, g - 1), reproduces)
            case None =>
              if g >= |s| then
                Shrunk(s, g, reproduces) == s && Queries(s, g, reproduces) == pass
              else
                && Shrunk(s, g, reproduces) == Shrunk(s, Min(|s|, 2 * g), reproduces)
                && Queries(s, g, reproduces) == pass + Queries(s, Min(|s|, 2 * g), reproduces)
  {
  }

  /** The inner loop: one pass over the chunks, left at the first success. */
  method TryChunks<T>(current: seq<T>, size: nat, reproduces: seq<T> -> bool)
    returns (reduced: bool, next: seq<T>, ghost asked: seq<seq<T>>)
    requires size >= 1
    ensures FirstReduction(current, size, 0, reproduces) == if reduced then Some(next) else None
    ensures !reduced ==> next == current
    ensures asked == PassQueries(current, size, 0, reproduces)
  {
    reduced, next, asked := false, current, [];
    var start := 0;
    while start < |current|
      invariant FirstReduction(current, size, 0, reproduces) == FirstReduction(current, size, start, reproduces)
      invariant PassQueries(current, size, 0, reproduces) == asked + PassQueries(current, size, start, reproduces)
      decreases |current| - start
    {
      var candidate := WithoutChunk(current, start, size);
      ghost var rest := PassQueries(current, size, start, reproduces);
      if candidate != [] {
        assert asked + rest == (asked + [candidate]) + rest[1..];
        asked := asked + [candidate];
      }
      if candidate != [] && reproduces(candidate) {
        reduced, next := true, candidate;
        break;
      }
      start := start + size;
    }
  }

  /** The outer loop.  It terminates for every input and every deterministic
      oracle, and keeps the granularity between 2 and the current length. */
  method ShrinkActions<T>(actions: seq<T>, reproduces: seq<T> -> bool)
    returns (current: seq<T>, ghost asked: seq<seq<T>>)
    ensures current == Shrunk(actions, 2, reproduces)
    ensures asked == Queries(actions, 2, reproduces)
    ensures MinimalReproduction(actions, current, reproduces)
    ensures |asked| <= QueryLimit(|actions|)
  {
    hide Shrunk, Queries;
    current, asked := actions, [];
    var granularity := 2;
    while |current| >= 2
      invariant 2 <= granularity <= Max(2, |current|)
      invariant Shrunk(actions, 2, reproduces) == Shrunk(current, granularity, reproduces)
      invariant Queries(actions, 2, reproduces) == asked + Queries(current, granularity, reproduces)
      decreases |current|, Slack(|current|, granularity)
    {
      var size := ChunkSize(|current|, granularity);
      UnfoldPass(current, granularity, reproduces);
      FirstReductionShrinks(current, size, 0, reproduces);
      var reduced, next, pass := TryChunks(current, size, reproduces);
      asked := asked + pass;
      if reduced {
        NextGranularityFits(|current|, granularity, |next|);
        current, granularity := next, Max(2, granularity - 1);
      } else {
        if granularity >= |current| {
          break;
        }
        granularity := Min(|current|, granularity * 2);
      }
    }
    if |current| < 2 {
      NothingToShrink(current, granularity, reproduces);
    }
    ShrunkIsMinimalReproduction(actions, reproduces);
    QueryBound(actions, reproduces);
  }

  // ------------------------------------------------------------ what is kept

  /** The result is an in-order subsequence, it is empty only for the empty
      input, and unless nothing could be removed it was itself seen to fail. */
  lemma {:induction false} ShrunkReproduces<T>(s: seq<T>, g: nat, reproduces: seq<T> -> bool)
    requires g >= 2
    ensures var r := Shrunk(s, g, reproduces);
            IsSubseq(r, s) && (r == s || Accepted(r, reproduces))
    decreases |s|, Slack(|s|, g)
  {
    SubseqRefl(s);
    if |s| >= 2 {
      FirstReductionShrinks(s, ChunkSize(|s|, g), 0, reproduces);
      match FirstReduction(s, ChunkSize(|s|, g), 0, reproduces)
      case Some(c) =>
        ShrunkReproduces(c, Max(2, g - 1), reproduces);
        SubseqTrans(Shrunk(c, Max(2, g - 1), reproduces), c, s);
      case None =>
        if g < |s| {
          ShrunkReproduces(s, Min(|s|, 2 * g), reproduces);
        }
    }
  }

  // -------------------------------------------------------------- minimality

  /** No single action can be removed (a lone action is never removed). */
  predicate OneMinimal<T>(s: seq<T>, reproduces: seq<T> -> bool) {
    |s| >= 2 ==> forall i :: 0 <= i < |s| ==> !reproduces(Without(s, i))
  }

  lemma {:induction false} UnitPassFindsAll<T>(s: seq<T>, start: nat, reproduces: seq<T> -> bool)
    requires |s| >= 2 && FirstReduction(s, 1, start, reproduces).None?
    ensures forall i :: start <= i < |s| ==> !reproduces(Without(s, i))
    decreases |s| - start
  {
    if start < |s| {
      assert WithoutChunk(s, start, 1) == Without(s, start);
      UnitPassFindsAll(s, start + 1, reproduces);
    }
  }

  lemma {:induction false} ShrunkIsOneMinimal<T>(s: seq<T>, g: nat, reproduces: seq<T> -> bool)
    requires g >= 2
    ensures OneMinimal(Shrunk(s, g, reproduces), reproduces)
    decreases |s|, Slack(|s|, g)
  {
    if |s| >= 2 {
      FirstReductionShrinks(s, ChunkSize(|s|, g), 0, reproduces);
      match FirstReduction(s, ChunkSize(|s|, g), 0, reproduces)
      case Some(c) => ShrunkIsOneMinimal(c, Max(2, g - 1), reproduces);
      case None =>
        if g < |s| {
          ShrunkIsOneMinimal(s, Min(|s|, 2 * g), reproduces);
        } else {
          UnitChunk(|s|, g);
          UnitPassFindsAll(s, 0, reproduces);
        }
    }
  }

  lemma UnitChunk(n: nat, g: nat)
    requires 1 <= n <= g
    ensures ChunkSize(n, g) == 1
  {
  }

  /** What the reducer promises about its result. */
  predicate MinimalReproduction<T(==)>(actions: seq<T>, r: seq<T>, reproduces: seq<T> -> bool) {
    && IsSubseq(r, actions)
    && (actions != [] ==> r != [])
    && (reproduces(actions) ==> reproduces(r))
    && OneMinimal(r, reproduces)
  }

  lemma ShrunkIsMinimalReproduction<T>(actions: seq<T>, reproduces: seq<T> -> bool)
    ensures MinimalReproduction(actions, Shrunk(actions, 2, reproduces), reproduces)
  {
    ShrunkReproduces(actions, 2, reproduces);
    ShrunkIsOneMinimal(actions, 2, reproduces);
  }

  /** An oracle that keeps failing when actions are added back. */
  ghost predicate Monotone<T(!new)>(reproduces: seq<T> -> bool) {
    forall a, b :: IsSubseq(a, b) && reproduces(a) ==> reproduces(b)
  }

  /** For a monotone oracle the reduced sequence is a global minimum: no
      non-empty proper subsequence of it still fails. */
  lemma MonotoneMinimum<T(!new)>(s: seq<T>, t: seq<T>, reproduces: seq<T> -> bool)
    requires Monotone(reproduces)
    requires t != [] && IsSubseq(t, Shrunk(s, 2, reproduces)) && t != Shrunk(s, 2, reproduces)
    ensures !reproduces(t)
  {
    var r := Shrunk(s, 2, reproduces);
    SubseqLength(t, r);
    ShrunkIsOneMinimal(s, 2, reproduces);
    var i := ProperSubseqMisses(t, r);
    assert !reproduces(Without(r, i));
  }

  lemma WithoutKeeps<T>(s: seq<T>, i: nat, k: nat)
    requires i < |s| && k < |s| && k != i
    ensures s[k] in Without(s, i)
  {
  }

  /** When the failure needs exactly the actions of a set `needed` to be
      present, the result consists of those actions, each once. */
  lemma NeededActionsOnly<T>(s: seq<T>, needed: set<T>, reproduces: seq<T> -> bool)
    requires needed != {} && reproduces(s)
    requires forall c :: reproduces(c) <==> (forall x :: x in needed ==> x in c)
    ensures var r := Shrunk(s, 2, reproduces);
            && (forall x :: x in r <==> x in needed)
            && (forall i, j :: 0 <= i < j < |r| ==> r[i] != r[j])
  {
    var r := Shrunk(s, 2, reproduces);
    ShrunkReproduces(s, 2, reproduces);
    ShrunkIsOneMinimal(s, 2, reproduces);
    var some :| some in needed;
    assert some in r;
    if |r| >= 2 {
      forall i | 0 <= i < |r|
        ensures r[i] in needed && r[i] !in Without(r, i)
      {
        assert !reproduces(Without(r, i));
        var x :| x in needed && x !in Without(r, i);
        var k :| 0 <= k < |r| && r[k] == x;
        if k != i {
          WithoutKeeps(r, i, k);
          assert false;
        }
      }
      forall i, j | 0 <= i < j < |r|
        ensures r[i] != r[j]
      {
        WithoutKeeps(r, j, i);
      }
    }
  }

  // ------------------------------------------------------- number of queries

  predicate IsReduction<T(==)>(q: seq<T>, s: seq<T>) {
    q != [] && IsSubseq(q, s) && |q| < |s|
  }

  /** Every oracle call is on a non-empty proper subsequence of the input. */
  lemma {:induction false} QueriesAreReductions<T>(s: seq<T>, g: nat, reproduces: seq<T> -> bool)
    requires g >= 2
    ensures forall q :: q in Queries(s, g, reproduces) ==> IsReduction(q, s)
    decreases |s|, Slack(|s|, g)
  {
    if |s| >= 2 {
      var size := ChunkSize(|s|, g);
      FirstReductionShrinks(s, size, 0, reproduces);
      PassQueriesAreReductions(s, size, 0, reproduces);
      match FirstReduction(s, size, 0, reproduces)
      case Some(c) =>
        QueriesAreReductions(c, Max(2, g - 1), reproduces);
        forall q | q in Queries(c, Max(2, g - 1), reproduces)
          ensures IsReduction(q, s)
        {
          SubseqTrans(q, c, s);
        }
      case None =>
        if g < |s| {
          QueriesAreReductions(s, Min(|s|, 2 * g), reproduces);
        }
    }
  }

  lemma {:induction false} PassQueriesAreReductions<T>(s: seq<T>, size: nat, start: nat, reproduces: seq<T> -> bool)
    requires size >= 1
    ensures forall q :: q in PassQueries(s, size, start, reproduces) ==> IsReduction(q, s)
    decreases |s| - start
  {
    if start < |s| {
      var c, rest := WithoutChunk(s, start, size), PassQueries(s, size, start + size, reproduces);
      CutIsSubseq(s, start, Min(start + size, |s|));
      PassQueriesAreReductions(s, size, start + size, reproduces);
      assert c != [] ==> IsReduction(c, s);
      hide IsReduction, IsSubseq;
    }
  }

  lemma {:induction false} PassLength<T>(s: seq<T>, size: nat, start: nat, reproduces: seq<T> -> bool)
    requires size >= 1 && start <= |s|
    ensures |PassQueries(s, size, start, reproduces)| <= |s| - start
    ensures start < |s| ==> (|PassQueries(s, size, start, reproduces)| - 1) * size < |s| - start
    decreases |s| - start
  {
    if start < |s| && start + size < |s| {
      PassLength(s, size, start + size, reproduces);
    }
  }

  /** One pass costs at most 2g calls, and at most one call per action. */
  lemma PassCost<T>(s: seq<T>, g: nat, reproduces: seq<T> -> bool)
    requires 2 <= g <= |s|
    ensures |PassQueries(s, ChunkSize(|s|, g), 0, reproduces)| <= Min(|s|, 2 * g)
  {
    var size := ChunkSize(|s|, g);
    PassLength(s, size, 0, reproduces);
    ChunkCount(|s|, g, |PassQueries(s, size, 0, reproduces)|);
  }

  lemma MulMonotone(a: int, b: int, c: nat)
    requires a <= b
    ensures a * c <= b * c
  {
  }

  lemma ChunkCount(n: nat, g: nat, k: nat)
    requires 1 <= g <= n && (k - 1) * ChunkSize(n, g) < n
    ensures k <= 2 * g
  {
    var size := n / g;
    assert n == g * size + n % g;
    assert size >= 1;
    assert g * size >= g;
    assert (2 * g) * size == g * size + g * size;
    if k > 2 * g {
      MulMonotone(2 * g, k - 1, size);
      assert false;
    }
  }

  /** Calls still affordable: every success pays for its pass with the shorter
      sequence, every doubling with the growth of the granularity; the one
      capped doubling a run can make has its own allowance. */
  function Budget(n: nat, g: nat): int {
    if n < 2 then 0 else n * (n + 1) / 2 + 2 * (n - g) + if g < n then n else 0
  }

  lemma TriangleStep(m: nat, n: nat)
    requires m < n
    ensures m * (m + 1) / 2 + n <= n * (n + 1) / 2
  {
    var k := n - 1 - m;
    assert (n - 1) * n / 2 + n == n * (n + 1) / 2 by {
      assert n * (n + 1) == (n - 1) * n + 2 * n;
    }
    assert (n - 1) * n == m * (m + 1) + k * m + k * n;
  }

  lemma {:induction false} ProductAtLeast(a: nat, b: nat)
    requires a >= 1 && b >= 1
    ensures a * b >= a + b - 1
  {
    if b > 1 {
      ProductAtLeast(a, b - 1);
      assert a * b == a * (b - 1) + a;
    }
  }

  lemma QuotientBounds(n: nat, g: nat)
    requires 2 <= g <= n
    ensures 1 <= n / g <= n - g + 1
  {
    assert g * (n / g) == n - n % g;
    ProductAtLeast(g, n / g);
  }

  lemma NextGranularityFits(n: nat, g: nat, m: nat)
    requires n >= 2 && 2 <= g <= n && n - ChunkSize(n, g) <= m < n
    ensures 2 <= Max(2, g - 1) <= Max(2, m)
    ensures g == n ==> m == n - 1
  {
    QuotientBounds(n, g);
  }

  lemma BudgetAfterSuccess(n: nat, g: nat, m: nat)
    requires n >= 2 && 2 <= g <= n && n - ChunkSize(n, g) <= m < n
    ensures Budget(m, Max(2, g - 1)) + n <= Budget(n, g)
  {
    NextGranularityFits(n, g, m);
    TriangleStep(m, n);
    TriangleStep(0, n);
  }

  lemma BudgetAfterDoubling(n: nat, g: nat)
    requires 2 <= g < n
    ensures Budget(n, Min(n, 2 * g)) + Min(n, 2 * g) <= Budget(n, g)
  {
  }

  /** The number of oracle calls stays within the budget. */
  lemma {:induction false} QueryBudget<T>(s: seq<T>, g: nat, reproduces: seq<T> -> bool)
    requires 2 <= g <= Max(2, |s|)
    ensures |Queries(s, g, reproduces)| <= Budget(|s|, g)
    decreases |s|, Slack(|s|, g)
  {
    var n := |s|;
    if n >= 2 {
      FirstReductionShrinks(s, ChunkSize(n, g), 0, reproduces);
      UnfoldPass(s, g, reproduces);
      PassCost(s, g, reproduces);
      match FirstReduction(s, ChunkSize(n, g), 0, reproduces)
      case Some(c) =>
        BudgetAfterSuccess(n, g, |c|);
        NextGranularityFits(n, g, |c|);
        QueryBudget(c, Max(2, g - 1), reproduces);
      case None =>
        if g < n {
          BudgetAfterDoubling(n, g);
          QueryBudget(s, Min(n, 2 * g), reproduces);
        } else {
          TriangleStep(0, n);
        }
    }
  }

  /** The budget from the initial granularity, in closed form. */
  function QueryLimit(n: nat): int {
    if n < 2 then 0 else n * (n + 7) / 2 - 4
  }

  lemma QueryBound<T>(s: seq<T>, reproduces: seq<T> -> bool)
    ensures |Queries(s, 2, reproduces)| <= QueryLimit(|s|)
  {
    QueryBudget(s, 2, reproduces);
    assert |s| * (|s| + 7) == |s| * (|s| + 1) + 6 * |s|;
  }
}
