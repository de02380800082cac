/**
 * The ranking half of `RBCApp.calcular_similaridade`: every library row is
 * scored in library order, and the (score, row) pairs are sorted with
 * Python's list sort on the score alone, descending, which is stable: rows with
 * equal scores keep their library order.
 */
module Ranking {
  import opened Scoring

  /** A ranked entry: the global similarity and the row it belongs to, with the
      row's position in the library (a pandas row carries it as its index). */
  datatype Scored<R> = Scored(score: real, row: R, index: nat)

  /** `resultados` before sorting: one entry per row, in library order. */
  function Scores(e: Query, w: Weights, library: seq<Case>): (r: seq<Scored<Case>>)
    ensures |r| == |library|
  {
    seq(|library|, i requires 0 <= i < |library| => Scored(CaseScore(e, w, library[i]), library[i], i))
  }

  /** `x` is listed before `y`: a higher score, or the same score and an earlier row. */
  predicate Before<R>(x: Scored<R>, y: Scored<R>) {
    x.score > y.score || (x.score == y.score && x.index < y.index)
  }

  /** Descending by score, ties in library order. */
  predicate Ordered<R>(s: seq<Scored<R>>) {
    PrefixOrdered(s, |s|)
  }

  /** Row indices strictly increase along the list, as in the unsorted `resultados`. */
  predicate IndexIncreasing<R>(s: seq<Scored<R>>) {
    forall p, q :: 0 <= p < q < |s| ==> s[p].index < s[q].index
  }

  /** `ranked` is what a stable descending sort by score makes of `scored`. */
  predicate IsStableRanking<R(==)>(scored: seq<Scored<R>>, ranked: seq<Scored<R>>) {
    multiset(ranked) == multiset(scored) && Ordered(ranked)
  }

  /** The first `i` entries are descending by score with ties in library order. */
  predicate PrefixOrdered<R>(s: seq<Scored<R>>, i: int)
    requires 0 <= i <= |s|
  {
    forall p, q :: 0 <= p < q < i ==> Before(s[p], s[q])
  }

  /** Every one of the first `i` entries comes from an earlier row than every entry after them. */
  predicate IndicesSplit<R>(s: seq<Scored<R>>, i: int)
    requires 0 <= i <= |s|
  {
    forall p, q :: 0 <= p < i <= q < |s| ==> s[p].index < s[q].index
  }

  /** `t` is `s` with its entry at `i` moved back to position `j`, everything
      in between shifted one place right. */
  predicate MovedBack<R(==)>(s: seq<Scored<R>>, t: seq<Scored<R>>, i: int, j: int)
    requires 0 <= j <= i < |s| == |t|
  {
    (forall p :: 0 <= p < j ==> t[p] == s[p]) &&
    t[j] == s[i] &&
    (forall p :: j < p <= i ==> t[p] == s[p - 1]) &&
    (forall p :: i < p < |t| ==> t[p] == s[p])
  }

  /** Moving `s[i]` back past exactly the entries of the ordered prefix with a
      lower score extends the ordered prefix by one, and keeps the split. */
  lemma InsertedOrdered<R>(s: seq<Scored<R>>, t: seq<Scored<R>>, i: int, j: int)
    requires 0 <= j <= i < |s| == |t|
    requires PrefixOrdered(s, i) && IndicesSplit(s, i)
    requires forall q :: i < q < |s| ==> s[i].index < s[q].index
    requires MovedBack(s, t, i, j)
    requires forall q :: j < q <= i ==> t[j].score > t[q].score
    requires j == 0 || t[j - 1].score >= t[j].score
    ensures PrefixOrdered(t, i + 1) && IndicesSplit(t, i + 1)
  {
    forall p, q | 0 <= p < q <= i
      ensures Before(t[p], t[q])
    {
      if q == j {
        assert t[p].score >= t[j - 1].score by {
          if p < j - 1 {
            assert Before(s[p], s[j - 1]);
          }
        }
        assert s[p].index < s[i].index;
      } else if p != j {
        var p', q' := if p < j then p else p - 1, if q < j then q else q - 1;
        assert t[p] == s[p'] && t[q] == s[q'];
        assert Before(s[p'], s[q']);
      }
    }
    forall p, q | 0 <= p <= i < q < |t|
      ensures t[p].index < t[q].index
    {
      var p' := if p < j then p else if p == j then i else p - 1;
      assert t[p] == s[p'];
    }
  }

  /** Swapping the moving entry with a lower-scored left neighbour moves it
      back one more place and loses nothing. */
  lemma SwapBack<R>(s: seq<Scored<R>>, t: seq<Scored<R>>, i: int, j: int)
    requires 0 < j <= i < |s| == |t|
    requires MovedBack(s, t, i, j)
    requires forall q :: j < q <= i ==> t[j].score > t[q].score
    requires t[j - 1].score < t[j].score
    ensures var u := t[j - 1 := t[j]][j := t[j - 1]];
      MovedBack(s, u, i, j - 1) &&
      (forall q :: j - 1 < q <= i ==> u[j - 1].score > u[q].score)
  {
  }

  /** Moving one entry back only reorders the list. */
  lemma MovedBackPermutes<R>(s: seq<Scored<R>>, t: seq<Scored<R>>, i: int, j: int)
    requires 0 <= j <= i < |s| == |t|
    requires MovedBack(s, t, i, j)
    ensures multiset(t) == multiset(s)
  {
    var front, middle, back := s[..j], s[j..i], s[i + 1..];
    var moved := front + [s[i]] + middle + back;
    var kept := front + middle + [s[i]] + back;
    forall p | 0 <= p < |t|
      ensures t[p] == moved[p] && s[p] == kept[p]
    {
      if p < j {
      } else if p == j {
      } else if p <= i {
      } else {
      }
    }
    assert t == moved && s == kept;
    assert multiset(moved) == multiset(front) + multiset([s[i]]) + multiset(middle) + multiset(back);
  }

  /** One pass of the insertion sort: `a[i]` moves left by adjacent swaps while
      its left neighbour has a strictly lower score, so it stops behind every
      entry with an equal score. */
  method InsertAt<R>(a: array<Scored<R>>, i: int)
    requires 0 <= i < a.Length
    requires PrefixOrdered(a[..], i) && IndicesSplit(a[..], i)
    requires forall q :: i < q < a.Length ==> a[i].index < a[q].index
    modifies a
    ensures PrefixOrdered(a[..], i + 1) && IndicesSplit(a[..], i + 1)
    ensures multiset(a[..]) == multiset(old(a[..]))
    ensures forall p :: i < p < a.Length ==> a[p] == old(a[p])
  {
    ghost var s := a[..];
    var j := i;
    while j > 0 && a[j - 1].score < a[j].score
      invariant 0 <= j <= i
      invariant MovedBack(s, a[..], i, j)
      invariant forall q :: j < q <= i ==> a[j].score > a[q].score
    {
      ghost var t := a[..];
      SwapBack(s, t, i, j);
      a[j - 1], a[j] := a[j], a[j - 1];
      assert a[..] == t[j - 1 := t[j]][j := t[j - 1]];
      j := j - 1;
    }
    InsertedOrdered(s, a[..], i, j);
    MovedBackPermutes(s, a[..], i, j);
  }

  /** The descending sort of `resultados` by score, as an insertion sort
      that compares scores only. Entries start in library order, and an entry
      never passes one with an equal score, so equal scores keep their order. */
  method SortDescending<R>(a: array<Scored<R>>)
    requires IndexIncreasing(a[..])
    modifies a
    ensures multiset(a[..]) == multiset(old(a[..]))
    ensures Ordered(a[..])
  {
    for i := 0 to a.Length
      invariant multiset(a[..]) == multiset(old(a[..]))
      invariant PrefixOrdered(a[..], i) && IndicesSplit(a[..], i)
      invariant forall p :: i <= p < a.Length ==> a[p] == old(a[p])
    {
      InsertAt(a, i);
    }
  }

  /** `calcular_similaridade` without the form: normalise the query, score
      every row in library order, then sort. */
  method Rank(query: Query, pesos: Weights, library: seq<Case>) returns (resultados: seq<Scored<Case>>)
    ensures IsStableRanking(Scores(Normalize(query), pesos, library), resultados)
    ensures |resultados| == |library|
  {
    var casoEntrada := Normalize(query);
    var scored: seq<Scored<Case>> := [];
    for i := 0 to |library|
      invariant |scored| == i
      invariant forall k :: 0 <= k < i ==> scored[k] == Scored(CaseScore(casoEntrada, pesos, library[k]), library[k], k)
    {
      var simGlobal := ScoreRow(casoEntrada, pesos, library[i]);
      scored := scored + [Scored(simGlobal, library[i], i)];
    }
    assert scored == Scores(casoEntrada, pesos, library);
    var a := new Scored<Case>[|scored|](k requires 0 <= k < |scored| => scored[k]);
    assert a[..] == scored;
    SortDescending(a);
    resultados := a[..];
    assert |resultados| == |multiset(resultados)| == |multiset(scored)| == |library|;
  }

  /** Of two orderings of the same entries, both descending with ties in
      library order, neither can start with an entry the other lists later. */
  lemma OrderedHeads<R>(r1: seq<Scored<R>>, r2: seq<Scored<R>>)
    requires |r1| > 0 && multiset(r1) == multiset(r2) && Ordered(r1) && Ordered(r2)
    ensures |r2| > 0 && r1[0] == r2[0]
  {
    assert r1[0] in multiset(r2);
    assert r2[0] in multiset(r1);
  }

  lemma TailsPermuted<R>(r1: seq<Scored<R>>, r2: seq<Scored<R>>)
    requires |r1| > 0 && |r2| > 0 && r1[0] == r2[0] && multiset(r1) == multiset(r2)
    ensures multiset(r1[1..]) == multiset(r2[1..])
  {
    assert r1 == [r1[0]] + r1[1..] && r2 == [r2[0]] + r2[1..];
    assert multiset(r1[1..]) == multiset(r1) - multiset{r1[0]};
    assert multiset(r2[1..]) == multiset(r2) - multiset{r2[0]};
  }

  /** Two orderings of the same entries that are both descending with ties in
      library order are the same list: the sort's result is fully determined. */
  lemma {:induction false} OrderedUnique<R>(r1: seq<Scored<R>>, r2: seq<Scored<R>>)
    requires multiset(r1) == multiset(r2) && Ordered(r1) && Ordered(r2)
    ensures r1 == r2
  {
    if |r1| > 0 {
      OrderedHeads(r1, r2);
      TailsPermuted(r1, r2);
      OrderedUnique(r1[1..], r2[1..]);
      assert r1 == [r1[0]] + r1[1..] && r2 == [r2[0]] + r2[1..];
    } else {
      assert |multiset(r2)| == |r2|;
    }
  }

  /** Every ranked entry is one of the scored rows, carrying that row's own score. */
  lemma RankedEntries(e: Query, w: Weights, library: seq<Case>, ranked: seq<Scored<Case>>)
    requires IsStableRanking(Scores(e, w, library), ranked)
    ensures forall k :: 0 <= k < |ranked| ==>
      ranked[k].index < |library| &&
      ranked[k] == Scored(CaseScore(e, w, library[ranked[k].index]), library[ranked[k].index], ranked[k].index)
  {
    var scored := Scores(e, w, library);
    forall k | 0 <= k < |ranked|
      ensures ranked[k].index < |library|
      ensures ranked[k] == Scored(CaseScore(e, w, library[ranked[k].index]), library[ranked[k].index], ranked[k].index)
    {
      assert ranked[k] in multiset(scored);
      var i :| 0 <= i < |scored| && scored[i] == ranked[k];
    }
  }

  /** When the weights do not add up to something positive, every row scores
      0 and the ranking is the library order. */
  lemma ZeroWeightsKeepOrder(e: Query, w: Weights, library: seq<Case>, ranked: seq<Scored<Case>>)
    requires TotalWeight(w) <= 0.0
    requires IsStableRanking(Scores(e, w, library), ranked)
    ensures ranked == Scores(e, w, library)
    ensures forall k :: 0 <= k < |ranked| ==> ranked[k].score == 0.0 && ranked[k].index == k
  {
    var scored := Scores(e, w, library);
    forall p, q | 0 <= p < q < |scored|
      ensures Before(scored[p], scored[q])
    {
      ZeroWeightsScoreZero(e, w, library[p]);
      ZeroWeightsScoreZero(e, w, library[q]);
    }
    OrderedUnique(ranked, scored);
    forall k | 0 <= k < |ranked|
      ensures ranked[k].score == 0.0
    {
      ZeroWeightsScoreZero(e, w, library[k]);
    }
  }
}
