/** Candidate generation for one node of a relaxed tree: the sub-matrix of the
    global confusion matrix for the node's classes is copied, symmetrised in
    place, every pair of local positions is scored, the pairs are sorted by
    ascending score and at most MaxSamples of them are kept. */
module NodeInit {

  /** At most this many candidate pairs are returned for one node. */
  const MaxSamples: nat := 30

  /** A candidate: two positions in the node's class list (not class ids)
      and the confusion score of that pair. */
  datatype Entry = Entry(i: int, j: int, score: real)

  function Min(a: int, b: int): int
  {
    if a <= b then a else b
  }

  /** Every row of `g` has as many entries as `g` has rows. */
  predicate IsSquare(g: seq<seq<real>>)
  {
    forall r :: 0 <= r < |g| ==> |g[r]| == |g|
  }

  /** `classes` lists rows (and columns) of the square matrix `g`. */
  predicate Selects(g: seq<seq<real>>, classes: seq<int>)
  {
    IsSquare(g) && forall k :: 0 <= k < |classes| ==> 0 <= classes[k] < |g|
  }

  /** The node's pair scores: the confusion between the classes at local
      positions i and j, summed over both directions of the global matrix. */
  function PairScores(g: seq<seq<real>>, classes: seq<int>): (w: seq<seq<real>>)
    requires Selects(g, classes)
    ensures |w| == |classes| && IsSquare(w)
    ensures forall i, j :: 0 <= i < |w| && 0 <= j < |w| ==> w[i][j] == w[j][i]
  {
    seq(|classes|, i requires 0 <= i < |classes| =>
      seq(|classes|, j requires 0 <= j < |classes| =>
        g[classes[i]][classes[j]] + g[classes[j]][classes[i]]))
  }

  /** The scored pairs (i, j) of the square score matrix w with i < j < hi,
      by increasing j. */
  function RowPairs(w: seq<seq<real>>, i: int, hi: int): seq<Entry>
    requires IsSquare(w)
    requires 0 <= i < |w| && hi <= |w|
    decreases hi
  {
    if hi <= i + 1 then []
    else RowPairs(w, i, hi - 1) + [Entry(i, hi - 1, w[i][hi - 1])]
  }

  /** The scored pairs (i, j) of w with i < rows and i < j, row by row. */
  function PairsBefore(w: seq<seq<real>>, rows: nat): seq<Entry>
    requires IsSquare(w)
    requires rows <= |w|
  {
    if rows == 0 then []
    else PairsBefore(w, rows - 1) + RowPairs(w, rows - 1, |w|)
  }

  /** All n(n-1)/2 scored pairs of local positions, in enumeration order. */
  function Candidates(g: seq<seq<real>>, classes: seq<int>): seq<Entry>
    requires Selects(g, classes)
  {
    PairsBefore(PairScores(g, classes), |classes|)
  }

  predicate SortedByScore(s: seq<Entry>)
  {
    forall p, q :: 0 <= p < q < |s| ==> s[p].score <= s[q].score
  }

  /** No pair of positions occurs twice in s. */
  predicate DistinctPairs(s: seq<Entry>)
  {
    forall p, q :: 0 <= p < q < |s| ==> (s[p].i, s[p].j) != (s[q].i, s[q].j)
  }

  /** `r` is what taking the first min(MaxSamples, |all|) elements of some
      ascending sorted permutation of `all` yields: sorted, drawn from `all`,
      and no element left out scores below an element kept. */
  ghost predicate IsRankedPrefix(r: seq<Entry>, all: seq<Entry>)
  {
    |r| == Min(MaxSamples, |all|) &&
    SortedByScore(r) &&
    multiset(r) <= multiset(all) &&
    forall e, f :: e in r && f in multiset(all) - multiset(r) ==> e.score <= f.score
  }

  /** The k-th pair of row i pairs i with i + 1 + k. */
  lemma {:induction false} RowPairsAt(w: seq<seq<real>>, i: int, hi: int)
    requires IsSquare(w)
    requires 0 <= i < |w| && hi <= |w|
    ensures |RowPairs(w, i, hi)| == if hi <= i + 1 then 0 else hi - i - 1
    ensures forall k :: 0 <= k < |RowPairs(w, i, hi)| ==>
      RowPairs(w, i, hi)[k] == Entry(i, i + 1 + k, w[i][i + 1 + k])
    decreases hi
  {
    if hi > i + 1 {
      RowPairsAt(w, i, hi - 1);
    }
  }

  /** Every listed pair lies above the diagonal in one of the first rows rows
      and carries its score. */
  lemma {:induction false} PairsBeforeAt(w: seq<seq<real>>, rows: nat)
    requires IsSquare(w)
    requires rows <= |w|
    ensures forall k :: 0 <= k < |PairsBefore(w, rows)| ==>
      0 <= PairsBefore(w, rows)[k].i < rows &&
      PairsBefore(w, rows)[k].i < PairsBefore(w, rows)[k].j < |w| &&
      PairsBefore(w, rows)[k].score == w[PairsBefore(w, rows)[k].i][PairsBefore(w, rows)[k].j]
  {
    if rows > 0 {
      var prev, row := PairsBefore(w, rows - 1), RowPairs(w, rows - 1, |w|);
      PairsBeforeAt(w, rows - 1);
      RowPairsAt(w, rows - 1, |w|);
      var s := prev + row;
      assert PairsBefore(w, rows) == s;
      forall k | 0 <= k < |s|
        ensures 0 <= s[k].i < rows && s[k].i < s[k].j < |w| && s[k].score == w[s[k].i][s[k].j]
      {
        if k < |prev| {
          assert s[k] == prev[k];
        } else {
          assert s[k] == row[k - |prev|];
        }
      }
    }
  }

  /** Every pair above the diagonal among the first rows rows is listed. */
  lemma {:induction false} PairsBeforeComplete(w: seq<seq<real>>, rows: nat, i: int, j: int)
    requires IsSquare(w)
    requires 0 <= i < rows <= |w| && i < j < |w|
    ensures Entry(i, j, w[i][j]) in PairsBefore(w, rows)
  {
    var prev, row := PairsBefore(w, rows - 1), RowPairs(w, rows - 1, |w|);
    assert PairsBefore(w, rows) == prev + row;
    if i < rows - 1 {
      PairsBeforeComplete(w, rows - 1, i, j);
      assert Entry(i, j, w[i][j]) in prev;
    } else {
      RowPairsAt(w, rows - 1, |w|);
      assert row[j - i - 1] == Entry(i, j, w[i][j]);
    }
  }

  /** The candidate list holds exactly the pairs i < j of local positions,
      each with the confusion of that pair summed over both directions. */
  lemma CandidatesMembership(g: seq<seq<real>>, classes: seq<int>, e: Entry)
    requires Selects(g, classes)
    ensures e in Candidates(g, classes) <==>
      0 <= e.i < e.j < |classes| &&
      e.score == g[classes[e.i]][classes[e.j]] + g[classes[e.j]][classes[e.i]]
  {
    var w := PairScores(g, classes);
    if e in Candidates(g, classes) {
      PairsBeforeAt(w, |classes|);
    }
    if 0 <= e.i < e.j < |classes| && e.score == w[e.i][e.j] {
      PairsBeforeComplete(w, |classes|, e.i, e.j);
    }
  }

  lemma {:induction false} PairsBeforeLength(w: seq<seq<real>>, rows: nat)
    requires IsSquare(w)
    requires rows <= |w|
    ensures 2 * |PairsBefore(w, rows)| == rows * (2 * |w| - rows - 1)
  {
    if rows > 0 {
      var n := |w|;
      PairsBeforeLength(w, rows - 1);
      RowPairsAt(w, rows - 1, n);
      var before, row := |PairsBefore(w, rows - 1)|, |RowPairs(w, rows - 1, n)|;
      assert |PairsBefore(w, rows)| == before + row;
      assert row == n - rows;
      RowSumStep(rows, n);
    }
  }

  lemma RowSumStep(r: int, n: int)
    ensures (r - 1) * (2 * n - r) + 2 * (n - r) == r * (2 * n - r - 1)
  {
  }

  /** There are n(n-1)/2 candidates for a node of n classes (the source's
      num_entries). */
  lemma CandidatesLength(g: seq<seq<real>>, classes: seq<int>)
    requires Selects(g, classes)
    ensures |Candidates(g, classes)| == |classes| * (|classes| - 1) / 2
  {
    PairsBeforeLength(PairScores(g, classes), |classes|);
  }

  /** Joining a distinct list of earlier rows and a distinct row r keeps
      every pair distinct, because the row index tells them apart. */
  lemma AppendDistinct(prev: seq<Entry>, row: seq<Entry>, r: int)
    requires forall k :: 0 <= k < |prev| ==> prev[k].i < r
    requires forall k :: 0 <= k < |row| ==> row[k].i == r
    requires DistinctPairs(prev) && DistinctPairs(row)
    ensures DistinctPairs(prev + row)
  {
    var s := prev + row;
    forall p, q | 0 <= p < q < |s| ensures (s[p].i, s[p].j) != (s[q].i, s[q].j) {
      if p >= |prev| {
        assert s[p] == row[p - |prev|] && s[q] == row[q - |prev|];
      } else if q < |prev| {
        assert s[p] == prev[p] && s[q] == prev[q];
      } else {
        assert s[q] == row[q - |prev|];
      }
    }
  }

  lemma {:induction false} PairsBeforeDistinct(w: seq<seq<real>>, rows: nat)
    requires IsSquare(w)
    requires rows <= |w|
    ensures DistinctPairs(PairsBefore(w, rows))
  {
    if rows > 0 {
      PairsBeforeDistinct(w, rows - 1);
      PairsBeforeAt(w, rows - 1);
      RowPairsAt(w, rows - 1, |w|);
      AppendDistinct(PairsBefore(w, rows - 1), RowPairs(w, rows - 1, |w|), rows - 1);
    }
  }

  /** No pair of positions is listed twice: the candidates are the pairs
      themselves, not a list with repetitions. */
  lemma CandidatesDistinct(g: seq<seq<real>>, classes: seq<int>)
    requires Selects(g, classes)
    ensures DistinctPairs(Candidates(g, classes))
  {
    PairsBeforeDistinct(PairScores(g, classes), |classes|);
  }

  lemma PrefixAndRest(s: seq<Entry>, m: nat)
    requires m <= |s|
    ensures multiset(s[..m]) <= multiset(s)
    ensures multiset(s) - multiset(s[..m]) == multiset(s[m..])
  {
    assert s == s[..m] + s[m..];
  }

  /** In a sorted sequence, nothing after position m scores below anything
      before it. */
  lemma SortedSplit(s: seq<Entry>, m: nat, e: Entry, f: Entry)
    requires SortedByScore(s) && m <= |s|
    requires e in s[..m] && f in s[m..]
    ensures e.score <= f.score
  {
    var p :| 0 <= p < m && s[..m][p] == e;
    var q :| 0 <= q < |s| - m && s[m..][q] == f;
    assert s[p] == e && s[m + q] == f;
  }

  /** Taking the first min(MaxSamples, |s|) elements of a sorted permutation
      of `all` yields a ranked prefix of `all`. */
  lemma SortedPrefixRanked(s: seq<Entry>, all: seq<Entry>)
    requires SortedByScore(s) && multiset(s) == multiset(all)
    ensures IsRankedPrefix(s[..Min(MaxSamples, |s|)], all)
  {
    var m := Min(MaxSamples, |s|);
    assert |all| == |multiset(all)| == |s|;
    PrefixAndRest(s, m);
    forall e, f | e in s[..m] && f in multiset(all) - multiset(s[..m]) ensures e.score <= f.score {
      SortedSplit(s, m, e, f);
    }
  }

  /** Every candidate of a ranked prefix is a pair i < j of local positions
      carrying the confusion of that pair. */
  lemma RankedPrefixMembers(r: seq<Entry>, g: seq<seq<real>>, classes: seq<int>)
    requires Selects(g, classes)
    requires IsRankedPrefix(r, Candidates(g, classes))
    ensures forall e :: e in r ==>
      0 <= e.i < e.j < |classes| &&
      e.score == g[classes[e.i]][classes[e.j]] + g[classes[e.j]][classes[e.i]]
  {
    forall e | e in r
      ensures 0 <= e.i < e.j < |classes| &&
        e.score == g[classes[e.i]][classes[e.j]] + g[classes[e.j]][classes[e.i]]
    {
      assert e in multiset(r);
      CandidatesMembership(g, classes, e);
    }
  }

  /** A ranked prefix of the candidates of n classes holds min(MaxSamples,
      n(n-1)/2) of them, and none when there are fewer than two classes. */
  lemma RankedPrefixLength(r: seq<Entry>, g: seq<seq<real>>, classes: seq<int>)
    requires Selects(g, classes)
    requires IsRankedPrefix(r, Candidates(g, classes))
    ensures |r| == Min(MaxSamples, |classes| * (|classes| - 1) / 2)
    ensures |classes| < 2 ==> r == []
  {
    var n := |classes|;
    CandidatesLength(g, classes);
    if n < 2 {
      assert n * (n - 1) == 0;
    }
  }

  /** The first candidate returned is a pair of least confusion among ALL
      pairs: the ranking is ascending, so the least confusable pair is
      tried first. */
  lemma FirstCandidateLeastConfused(r: seq<Entry>, all: seq<Entry>)
    requires IsRankedPrefix(r, all) && r != []
    ensures forall f :: f in all ==> r[0].score <= f.score
  {
    forall f | f in all ensures r[0].score <= f.score {
      if f in r {
        var q :| 0 <= q < |r| && r[q] == f;
        assert 0 < q ==> r[0].score <= r[q].score;
      } else {
        assert f in multiset(all) - multiset(r);
        assert r[0] in r;
      }
    }
  }

  lemma SubMultisetSameSize(a: multiset<Entry>, b: multiset<Entry>)
    requires a <= b && |a| == |b|
    ensures a == b
  {
    assert b == a + (b - a);
  }

  /** Four classes where 0 and 1 are confused ten times in each direction
      and every other ordered pair once. */
  function ScenarioMatrix(): seq<seq<real>>
  {
    [[0.0, 10.0, 1.0, 1.0],
     [10.0, 0.0, 1.0, 1.0],
     [1.0, 1.0, 0.0, 1.0],
     [1.0, 1.0, 1.0, 0.0]]
  }

  /** With ascending ranking, the most confused pair of the scenario (score
      20, every other pair 2) is the last of the six candidates. */
  lemma MostConfusedPairRankedLast(r: seq<Entry>)
    requires IsRankedPrefix(r, Candidates(ScenarioMatrix(), [0, 1, 2, 3]))
    ensures |r| == 6 && r[5] == Entry(0, 1, 20.0)
  {
    var g, classes := ScenarioMatrix(), [0, 1, 2, 3];
    assert Selects(g, classes);
    var all := Candidates(g, classes);
    CandidatesLength(g, classes);
    assert |r| == 6;
    SubMultisetSameSize(multiset(r), multiset(all));
    var top := Entry(0, 1, 20.0);
    CandidatesMembership(g, classes, top);
    assert top in multiset(r);
    var q :| 0 <= q < 6 && r[q] == top;
    assert q < 5 ==> r[q].score <= r[5].score;
    var last := r[5];
    assert last in multiset(all);
    CandidatesMembership(g, classes, last);
    assert last.i == 0 && last.j == 1;
  }

  /** Copies the rows and columns `classes` of the global matrix into a new
      local matrix. */
  method LocalConfusion(g: seq<seq<real>>, classes: seq<int>) returns (conf: array2<real>)
    requires Selects(g, classes)
    ensures fresh(conf)
    ensures conf.Length0 == conf.Length1 == |classes|
    ensures forall p, q :: 0 <= p < |classes| && 0 <= q < |classes| ==>
      conf[p, q] == g[classes[p]][classes[q]]
  {
    var n := |classes|;
    conf := new real[n, n];
    for i := 0 to n
      invariant forall p, q :: 0 <= p < i && 0 <= q < n ==> conf[p, q] == g[classes[p]][classes[q]]
    {
      for j := 0 to n
        invariant forall p, q :: 0 <= p < i && 0 <= q < n ==> conf[p, q] == g[classes[p]][classes[q]]
        invariant forall q :: 0 <= q < j ==> conf[i, q] == g[classes[i]][classes[q]]
      {
        conf[i, j] := g[classes[i]][classes[j]];
      }
    }
  }

  /** Symmetrises a square matrix in place, row by row: conf(i,j) += conf(j,i).
      A cell on or above the diagonal is updated before its mirror, so it
      becomes the sum of both original cells (the diagonal doubles); a cell
      below the diagonal then adds its already-updated mirror. */
  method Symmetrise(conf: array2<real>)
    requires conf.Length0 == conf.Length1
    modifies conf
    ensures forall i, j :: 0 <= i <= j < conf.Length0 ==>
      conf[i, j] == old(conf[i, j]) + old(conf[j, i])
    ensures forall i, j :: 0 <= j < i < conf.Length0 ==>
      conf[i, j] == old(conf[i, j]) + old(conf[i, j]) + old(conf[j, i])
  {
    var n := conf.Length0;
    for i := 0 to n
      invariant forall p, q :: 0 <= p < i && p <= q < n ==> conf[p, q] == old(conf[p, q]) + old(conf[q, p])
      invariant forall p, q :: 0 <= q < p < i ==> conf[p, q] == old(conf[p, q]) + old(conf[p, q]) + old(conf[q, p])
      invariant forall p, q :: i <= p < n && 0 <= q < n ==> conf[p, q] == old(conf[p, q])
    {
      for j := 0 to n
        invariant forall p, q :: 0 <= p < i && p <= q < n ==> conf[p, q] == old(conf[p, q]) + old(conf[q, p])
        invariant forall p, q :: 0 <= q < p < i ==> conf[p, q] == old(conf[p, q]) + old(conf[p, q]) + old(conf[q, p])
        invariant forall q :: i <= q < j ==> conf[i, q] == old(conf[i, q]) + old(conf[q, i])
        invariant forall q :: 0 <= q < j && q < i ==> conf[i, q] == old(conf[i, q]) + old(conf[i, q]) + old(conf[q, i])
        invariant forall q :: j <= q < n ==> conf[i, q] == old(conf[i, q])
        invariant forall p, q :: i < p < n && 0 <= q < n ==> conf[p, q] == old(conf[p, q])
      {
        conf[i, j] := conf[i, j] + conf[j, i];
      }
    }
  }

  /** Lists every pair i < j of positions of the symmetrised local matrix,
      row by row, scored by conf(i, j), which agrees with w above the
      diagonal. */
  method EnumeratePairs(conf: array2<real>, ghost w: seq<seq<real>>) returns (entries: seq<Entry>)
    requires IsSquare(w)
    requires conf.Length0 == conf.Length1 == |w|
    requires forall i, j :: 0 <= i < j < |w| ==> conf[i, j] == w[i][j]
    ensures entries == PairsBefore(w, |w|)
  {
    var n := conf.Length0;
    entries := [];
    for i := 0 to n
      invariant entries == PairsBefore(w, i)
    {
      for j := i + 1 to n
        invariant entries == PairsBefore(w, i) + RowPairs(w, i, j)
      {
        entries := entries + [Entry(i, j, conf[i, j])];
      }
    }
  }

  /** Exchanges two cells of the array. */
  method Swap(a: array<Entry>, x: int, y: int)
    requires 0 <= x < a.Length && 0 <= y < a.Length
    modifies a
    ensures a[..] == old(a[..])[x := old(a[y])][y := old(a[x])]
    ensures multiset(a[..]) == multiset(old(a[..]))
  {
    a[x], a[y] := a[y], a[x];
  }

  /** Moves a[i] left past every larger score, so that a[..i+1] is sorted
      when a[..i] was. */
  method InsertLast(a: array<Entry>, i: int)
    requires 0 <= i < a.Length
    requires forall p, q :: 0 <= p < q < i ==> a[p].score <= a[q].score
    modifies a
    ensures forall p, q :: 0 <= p < q <= i ==> a[p].score <= a[q].score
    ensures multiset(a[..]) == multiset(old(a[..]))
  {
    var j := i;
    while j > 0 && a[j].score < a[j - 1].score
      invariant 0 <= j <= i
      invariant forall p, q :: 0 <= p < q <= i && p != j && q != j ==> a[p].score <= a[q].score
      invariant forall q :: j < q <= i ==> a[j].score < a[q].score
      invariant multiset(a[..]) == multiset(old(a[..]))
    {
      Swap(a, j - 1, j);
      j := j - 1;
    }
  }

  /** Sorts by ascending score. Like the unstable library sort it stands for,
      it promises a sorted permutation and no order among equal scores. */
  method SortByScore(a: array<Entry>)
    modifies a
    ensures SortedByScore(a[..])
    ensures multiset(a[..]) == multiset(old(a[..]))
  {
    for i := 0 to a.Length
      invariant forall p, q :: 0 <= p < q < i ==> a[p].score <= a[q].score
      invariant multiset(a[..]) == multiset(old(a[..]))
    {
      InsertLast(a, i);
    }
  }

  /** init_node: the candidate pairs of a node whose classes are `classes`,
      ranked by ascending confusion in the global matrix `g`. */
  method InitNode(g: seq<seq<real>>, classes: seq<int>) returns (r: seq<Entry>)
    requires Selects(g, classes)
    ensures |r| == Min(MaxSamples, |classes| * (|classes| - 1) / 2)
    ensures |classes| < 2 ==> r == []
    ensures forall e :: e in r ==>
      0 <= e.i < e.j < |classes| &&
      e.score == g[classes[e.i]][classes[e.j]] + g[classes[e.j]][classes[e.i]]
    ensures SortedByScore(r)
    ensures IsRankedPrefix(r, Candidates(g, classes))
  {
    var conf := LocalConfusion(g, classes);
    Symmetrise(conf);
    ghost var w := PairScores(g, classes);
    var entries := EnumeratePairs(conf, w);
    var a := new Entry[|entries|](k requires 0 <= k < |entries| => entries[k]);
    assert a[..] == entries;
    SortByScore(a);
    r := a[..Min(MaxSamples, a.Length)];

    SortedPrefixRanked(a[..], entries);
    RankedPrefixLength(r, g, classes);
    RankedPrefixMembers(r, g, classes);
  }
}
