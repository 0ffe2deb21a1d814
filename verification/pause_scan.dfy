/**
  The pause computation of one day (app.py lines 133-142): a left-to-right
  scan of the day's pause list with one element of lookahead. A `Pausa`
  directly followed by a `Fin pausa` adds the time between them and the scan
  moves past both; anything else is skipped on its own.
 */
module PauseScan {
  import opened ClockTime
  import opened Events

  /** Position `i` starts an adjacent (`Pausa`, `Fin pausa`) pair. */
  predicate IsPairAt(p: seq<PauseMark>, i: int)
  {
    0 <= i && i + 1 < |p| && p[i].kind == Pausa && p[i + 1].kind == FinPausa
  }

  /** The length of the pause opened at `i` and closed at `i + 1`. */
  function PairSpan(p: seq<PauseMark>, i: nat): int
    requires i + 1 < |p|
  {
    p[i + 1].hora - p[i].hora
  }

  /** The loop from index `i` on: `while i < len(pausas) - 1`, stepping by 2 after a pair and by 1 otherwise. */
  function Scan(p: seq<PauseMark>, i: nat): int
    decreases |p| - i
  {
    if i + 1 < |p| then
      if IsPairAt(p, i) then PairSpan(p, i) + Scan(p, i + 2) else Scan(p, i + 1)
    else
      0
  }

  /**
    Reference definition: the sum over EVERY position where an adjacent
    (`Pausa`, `Fin pausa`) pair starts, with no scanning order involved.
   */
  function AdjacentPairSum(p: seq<PauseMark>): int
  {
    if |p| < 2 then 0
    else (if IsPairAt(p, 0) then PairSpan(p, 0) else 0) + AdjacentPairSum(p[1..])
  }

  /** `segundos_pausa` after the loop: the greedy scan from the start of the list. */
  function PauseSeconds(p: seq<PauseMark>): (r: int)
    ensures r == AdjacentPairSum(p)
  {
    ScanIsAdjacentPairSum(p, 0);
    Scan(p, 0)
  }

  /**
    Skipping both elements of a matched pair loses no pair: the second one is
    a `Fin pausa` and cannot open another. So the greedy scan from `i` counts
    exactly the adjacent pairs of the suffix from `i`.
   */
  lemma {:induction false} ScanIsAdjacentPairSum(p: seq<PauseMark>, i: nat)
    requires i <= |p|
    ensures Scan(p, i) == AdjacentPairSum(p[i..])
    decreases |p| - i
  {
    if i + 1 < |p| {
      var q := p[i..];
      assert q[1..] == p[i + 1..];
      assert IsPairAt(q, 0) <==> IsPairAt(p, i);
      if IsPairAt(p, i) {
        ScanIsAdjacentPairSum(p, i + 2);
        var q' := p[i + 1..];
        assert !IsPairAt(q', 0);
        if |q'| >= 2 {
          assert q'[1..] == p[i + 2..];
        }
      } else {
        ScanIsAdjacentPairSum(p, i + 1);
      }
    }
  }

  /** A list that alternates `Pausa`, `Fin pausa`, `Pausa`, `Fin pausa`, ... and ends with a `Fin pausa`. */
  predicate Alternating(p: seq<PauseMark>)
  {
    |p| % 2 == 0 && forall j :: 0 <= j < |p| ==> p[j].kind == (if j % 2 == 0 then Pausa else FinPausa)
  }

  /** The sum of `fin - ini` over the consecutive pairs (p[0], p[1]), (p[2], p[3]), ... */
  function ConsecutivePairSum(p: seq<PauseMark>): int
  {
    if |p| < 2 then 0 else p[1].hora - p[0].hora + ConsecutivePairSum(p[2..])
  }

  /** On a well-formed alternating list the pause total is the sum over its consecutive pairs. */
  lemma {:induction false} AlternatingPauseSum(p: seq<PauseMark>)
    requires Alternating(p)
    ensures PauseSeconds(p) == ConsecutivePairSum(p)
  {
    AlternatingSum(p);
  }

  lemma {:induction false} AlternatingSum(p: seq<PauseMark>)
    requires Alternating(p)
    ensures AdjacentPairSum(p) == ConsecutivePairSum(p)
  {
    if |p| >= 2 {
      var r := p[2..];
      assert Alternating(r) by {
        forall j | 0 <= j < |r|
          ensures r[j].kind == (if j % 2 == 0 then Pausa else FinPausa)
        {
          assert r[j] == p[j + 2];
        }
      }
      AlternatingSum(r);
      assert IsPairAt(p, 0);
      var q := p[1..];
      assert q[0].kind == FinPausa;
      assert !IsPairAt(q, 0);
      if |q| >= 2 {
        assert q[1..] == r;
      }
    }
  }

  /** A `Pausa` left open at the end of the list adds nothing (nor does any mark that is not a `Fin pausa`). */
  lemma {:induction false} TrailingMarkAddsNothing(p: seq<PauseMark>, m: PauseMark)
    requires m.kind != FinPausa
    ensures PauseSeconds(p + [m]) == PauseSeconds(p)
  {
    AppendNonClosing(p, m);
  }

  lemma {:induction false} AppendNonClosing(p: seq<PauseMark>, m: PauseMark)
    requires m.kind != FinPausa
    ensures AdjacentPairSum(p + [m]) == AdjacentPairSum(p)
  {
    var q := p + [m];
    if |p| >= 2 {
      assert q[1..] == p[1..] + [m];
      assert IsPairAt(q, 0) <==> IsPairAt(p, 0);
      AppendNonClosing(p[1..], m);
    } else if |p| == 1 {
      assert !IsPairAt(q, 0);
      assert |q[1..]| == 1;
    }
  }

  /** A `Fin pausa` with no `Pausa` before it (at the front of the list) adds nothing. */
  lemma {:induction false} LeadingCloseAddsNothing(m: PauseMark, p: seq<PauseMark>)
    requires m.kind == FinPausa
    ensures PauseSeconds([m] + p) == PauseSeconds(p)
  {
    var q := [m] + p;
    assert q[1..] == p;
    assert !IsPairAt(q, 0);
  }

  /** Pause marks in time order, as the day's events are once sorted by `hora`. */
  predicate Chronological(p: seq<PauseMark>)
  {
    forall i, j :: 0 <= i < j < |p| ==> p[i].hora <= p[j].hora
  }

  /**
    In a time-ordered list the paired pauses are disjoint sub-intervals of
    the span from the first to the last mark, so their total lies between 0
    and that span.
   */
  lemma {:induction false} ChronologicalPauseBounds(p: seq<PauseMark>)
    requires Chronological(p) && |p| > 0
    ensures 0 <= PauseSeconds(p) <= p[|p| - 1].hora - p[0].hora
  {
    PairSumBounds(p);
  }

  lemma {:induction false} PairSumBounds(p: seq<PauseMark>)
    requires Chronological(p) && |p| > 0
    ensures 0 <= AdjacentPairSum(p) <= p[|p| - 1].hora - p[0].hora
  {
    if |p| >= 2 {
      var q := p[1..];
      assert Chronological(q) by {
        forall i, j | 0 <= i < j < |q| ensures q[i].hora <= q[j].hora {
          assert q[i] == p[i + 1] && q[j] == p[j + 1];
        }
      }
      PairSumBounds(q);
      assert q[|q| - 1] == p[|p| - 1];
      assert p[0].hora <= p[1].hora;
    }
  }

  /**
    The `while` loop itself. Besides the total it returns, as evidence, the
    positions where it matched a pair and the number of iterations it ran.
   */
  method ScanPairs(p: seq<PauseMark>) returns (total: int, starts: seq<nat>, steps: nat)
    ensures total == AdjacentPairSum(p)
    ensures forall k: nat :: k in starts <==> IsPairAt(p, k)
    ensures forall j :: 0 <= j < |starts| - 1 ==> starts[j] + 2 <= starts[j + 1]
    ensures (|p| == 0 || steps <= |p| - 1) && |p| <= 2 * steps + 1
  {
    total, starts, steps := 0, [], 0;
    var i: nat := 0;
    while i < |p| - 1
      invariant i <= |p|
      invariant total + AdjacentPairSum(p[i..]) == AdjacentPairSum(p)
      invariant forall k: nat :: k in starts <==> (k < i && IsPairAt(p, k))
      invariant forall j :: 0 <= j < |starts| - 1 ==> starts[j] + 2 <= starts[j + 1]
      invariant |starts| > 0 ==> starts[|starts| - 1] + 2 <= i
      invariant steps <= i <= 2 * steps
      invariant |p| == 0 || steps <= |p| - 1
      decreases |p| - i
    {
      var q := p[i..];
      assert q[1..] == p[i + 1..];
      if p[i].kind == Pausa && p[i + 1].kind == FinPausa {
        assert IsPairAt(q, 0);
        var q' := p[i + 1..];
        assert !IsPairAt(q', 0);
        if |q'| >= 2 {
          assert q'[1..] == p[i + 2..];
        }
        total := total + (p[i + 1].hora - p[i].hora);
        starts := starts + [i];
        i := i + 2;
      } else {
        assert !IsPairAt(q, 0);
        i := i + 1;
      }
      steps := steps + 1;
    }
  }
}
