/**
 * The game tree both minimax engines search, and the two ways of valuing
 * it: plain minimax, and the fail-soft alpha-beta loop that the source's
 * _minimax methods run (best score so far, a bound raised or lowered by
 * every child's score, siblings skipped once beta <= alpha).
 *
 * The engines are proved to compute AlphaBeta on the tree their position
 * unfolds to; the theorem below then gives that the pruned value equals the
 * full minimax value whenever the search starts with (-inf, +inf).
 */
module SearchTree {
  /** Scores with the two infinities the source starts its bounds and best scores at. */
  datatype Score = NegInf | Fin(v: int) | PosInf

  predicate Le(a: Score, b: Score)
  {
    a == NegInf || b == PosInf || (a.Fin? && b.Fin? && a.v <= b.v)
  }

  predicate Lt(a: Score, b: Score)
  {
    !Le(b, a)
  }

  lemma LeTrans(a: Score, b: Score, c: Score)
    requires Le(a, b) && Le(b, c)
    ensures Le(a, c)
  {
  }

  lemma LeLtTrans(a: Score, b: Score, c: Score)
    requires Le(a, b) && Lt(b, c)
    ensures Lt(a, c)
  {
  }

  function Max(a: Score, b: Score): Score
  {
    if Le(a, b) then b else a
  }

  function Min(a: Score, b: Score): Score
  {
    if Le(a, b) then a else b
  }

  /** A position's value (Leaf) or the positions reachable by one legal move (Node). */
  datatype Tree = Leaf(score: int) | Node(kids: seq<Tree>)

  /** Plain minimax: a maximising node takes the largest child value, a minimising node the smallest. */
  function Minimax(t: Tree, isMax: bool): Score
    decreases t
  {
    match t
    case Leaf(s) => Fin(s)
    case Node(kids) => if isMax then MaxOf(kids, NegInf) else MinOf(kids, PosInf)
  }

  function MaxOf(kids: seq<Tree>, acc: Score): Score
    decreases kids
  {
    if kids == [] then acc else MaxOf(kids[1..], Max(acc, Minimax(kids[0], false)))
  }

  function MinOf(kids: seq<Tree>, acc: Score): Score
    decreases kids
  {
    if kids == [] then acc else MinOf(kids[1..], Min(acc, Minimax(kids[0], true)))
  }

  /** Fail-soft alpha-beta, children visited in order. */
  function AlphaBeta(t: Tree, isMax: bool, alpha: Score, beta: Score): Score
    decreases t
  {
    match t
    case Leaf(s) => Fin(s)
    case Node(kids) => if isMax then MaxLoop(kids, alpha, beta, NegInf) else MinLoop(kids, alpha, beta, PosInf)
  }

  /** The maximising loop: keep the best score, raise alpha, stop once beta <= alpha. */
  function MaxLoop(kids: seq<Tree>, alpha: Score, beta: Score, best: Score): Score
    decreases kids
  {
    if kids == [] then best
    else
      var score := AlphaBeta(kids[0], false, alpha, beta);
      var alpha' := Max(alpha, score);
      if Le(beta, alpha') then Max(best, score) else MaxLoop(kids[1..], alpha', beta, Max(best, score))
  }

  /** The minimising loop: keep the lowest score, lower beta, stop once beta <= alpha. */
  function MinLoop(kids: seq<Tree>, alpha: Score, beta: Score, best: Score): Score
    decreases kids
  {
    if kids == [] then best
    else
      var score := AlphaBeta(kids[0], true, alpha, beta);
      var beta' := Min(beta, score);
      if Le(beta', alpha) then Min(best, score) else MinLoop(kids[1..], alpha, beta', Min(best, score))
  }

  /** One step of the maximising loop. */
  lemma MaxLoopCons(t: Tree, rest: seq<Tree>, alpha: Score, beta: Score, best: Score)
    ensures MaxLoop([t] + rest, alpha, beta, best) ==
      var score := AlphaBeta(t, false, alpha, beta);
      if Le(beta, Max(alpha, score)) then Max(best, score) else MaxLoop(rest, Max(alpha, score), beta, Max(best, score))
  {
    assert ([t] + rest)[1..] == rest;
  }

  /** One step of the minimising loop. */
  lemma MinLoopCons(t: Tree, rest: seq<Tree>, alpha: Score, beta: Score, best: Score)
    ensures MinLoop([t] + rest, alpha, beta, best) ==
      var score := AlphaBeta(t, true, alpha, beta);
      if Le(Min(beta, score), alpha) then Min(best, score) else MinLoop(rest, alpha, Min(beta, score), Min(best, score))
  {
    assert ([t] + rest)[1..] == rest;
  }

  /**
   * The fail-soft guarantee: a value at or below alpha bounds the true value
   * from above, one at or above beta bounds it from below, and one strictly
   * inside the window is exact.
   */
  predicate Bounds(v: Score, m: Score, alpha: Score, beta: Score)
  {
    (Le(v, alpha) ==> Le(m, v)) && (Le(beta, v) ==> Le(v, m)) && (Lt(alpha, v) && Lt(v, beta) ==> m == v)
  }

  lemma {:induction false} MaxOfAtLeast(kids: seq<Tree>, acc: Score)
    ensures Le(acc, MaxOf(kids, acc))
    decreases kids
  {
    if kids != [] {
      MaxOfAtLeast(kids[1..], Max(acc, Minimax(kids[0], false)));
    }
  }

  lemma {:induction false} MinOfAtMost(kids: seq<Tree>, acc: Score)
    ensures Le(MinOf(kids, acc), acc)
    decreases kids
  {
    if kids != [] {
      MinOfAtMost(kids[1..], Min(acc, Minimax(kids[0], true)));
    }
  }

  /** Alpha-beta (Knuth and Moore): the pruned value satisfies the fail-soft bounds. */
  lemma {:induction false} AlphaBetaBounds(t: Tree, isMax: bool, alpha: Score, beta: Score)
    requires Lt(alpha, beta)
    ensures Bounds(AlphaBeta(t, isMax, alpha, beta), Minimax(t, isMax), alpha, beta)
    decreases t, 1
  {
    match t
    case Leaf(_) =>
    case Node(kids) =>
      if isMax {
        MaxLoopBounds(kids, alpha, alpha, beta, NegInf, NegInf);
      } else {
        MinLoopBounds(kids, beta, alpha, beta, PosInf, PosInf);
      }
  }

  /**
   * Invariant of the maximising loop: alpha is the larger of the caller's
   * alpha0 and the best score so far; the children already visited have true
   * values at most best, and exactly best once best rose above alpha0.
   */
  lemma {:induction false} MaxLoopBounds(kids: seq<Tree>, alpha0: Score, alpha: Score, beta: Score, best: Score, seen: Score)
    requires alpha == Max(alpha0, best) && Lt(alpha, beta)
    requires Le(seen, best) && (Lt(alpha0, best) ==> seen == best)
    ensures Bounds(MaxLoop(kids, alpha, beta, best), MaxOf(kids, seen), alpha0, beta)
    decreases kids, 0
  {
    if kids != [] {
      var score := AlphaBeta(kids[0], false, alpha, beta);
      var m := Minimax(kids[0], false);
      AlphaBetaBounds(kids[0], false, alpha, beta);
      var alpha' := Max(alpha, score);
      if Le(beta, alpha') {
        MaxOfAtLeast(kids[1..], Max(seen, m));
      } else {
        MaxLoopBounds(kids[1..], alpha0, alpha', beta, Max(best, score), Max(seen, m));
      }
    }
  }

  /** The mirror image of MaxLoopBounds for the minimising loop. */
  lemma {:induction false} MinLoopBounds(kids: seq<Tree>, beta0: Score, alpha: Score, beta: Score, best: Score, seen: Score)
    requires beta == Min(beta0, best) && Lt(alpha, beta)
    requires Le(best, seen) && (Lt(best, beta0) ==> seen == best)
    ensures Bounds(MinLoop(kids, alpha, beta, best), MinOf(kids, seen), alpha, beta0)
    decreases kids, 0
  {
    if kids != [] {
      var score := AlphaBeta(kids[0], true, alpha, beta);
      var m := Minimax(kids[0], true);
      AlphaBetaBounds(kids[0], true, alpha, beta);
      var beta' := Min(beta, score);
      if Le(beta', alpha) {
        MinOfAtMost(kids[1..], Min(seen, m));
      } else {
        MinLoopBounds(kids[1..], beta0, alpha, beta', Min(best, score), Min(seen, m));
      }
    }
  }

  /** Started with the full window (-inf, +inf), alpha-beta returns exactly the minimax value. */
  lemma AlphaBetaIsMinimax(t: Tree, isMax: bool)
    ensures AlphaBeta(t, isMax, NegInf, PosInf) == Minimax(t, isMax)
  {
    AlphaBetaBounds(t, isMax, NegInf, PosInf);
  }
}
