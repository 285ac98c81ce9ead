/** The binary sub-problem one node-optimisation pass hands to the SVM: the
    class assignment mu seeded from a candidate pair, the binary label of
    every sample, and the increasing list of samples whose class is not
    excluded. */
module NodeTraining {
  import opened NodeInit
  import opened Collaborators

  /** The first n labels exist and each names a class in [0, m). */
  predicate LabelsIn(labels: seq<int>, n: nat, m: int)
  {
    n <= |labels| && forall p :: 0 <= p < n ==> 0 <= labels[p] < m
  }

  /** mu of m classes seeded from a candidate: +1 at its first position,
      -1 at its second (written last, so it wins if the two coincide), 0
      everywhere else. */
  function InitialMu(e: Entry, m: int): (mu: seq<int>)
    requires 0 <= e.i < m && 0 <= e.j < m
    ensures |mu| == m
    ensures forall c :: 0 <= c < m ==> (mu[c] == 1 <==> c == e.i && e.i != e.j)
    ensures forall c :: 0 <= c < m ==> (mu[c] == -1 <==> c == e.j)
    ensures forall c :: 0 <= c < m ==> (mu[c] == 0 <==> c != e.i && c != e.j)
  {
    seq(m, c => if c == e.j then -1 else if c == e.i then 1 else 0)
  }

  /** The binary label of each of the first n samples: mu of its class. */
  function BinaryLabelValues(mu: seq<int>, labels: seq<int>, n: nat): (r: seq<real>)
    requires LabelsIn(labels, n, |mu|)
    ensures |r| == n
  {
    seq(n, p requires 0 <= p < n => mu[labels[p]] as real)
  }

  /** The samples among the first n whose class mu does not exclude, in
      increasing order. */
  function ActiveSamples(mu: seq<int>, labels: seq<int>, n: nat): seq<int>
    requires LabelsIn(labels, n, |mu|)
  {
    if n == 0 then []
    else ActiveSamples(mu, labels, n - 1) + (if mu[labels[n - 1]] != 0 then [n - 1] else [])
  }

  /** A sample is active exactly when it is one of the first n and its class
      has a non-zero mu. */
  lemma {:induction false} ActiveSamplesMembership(mu: seq<int>, labels: seq<int>, n: nat)
    requires LabelsIn(labels, n, |mu|)
    ensures |ActiveSamples(mu, labels, n)| <= n
    ensures forall p :: p in ActiveSamples(mu, labels, n) <==> 0 <= p < n && mu[labels[p]] != 0
  {
    if n > 0 {
      ActiveSamplesMembership(mu, labels, n - 1);
    }
  }

  /** The active samples are listed in strictly increasing order. */
  lemma {:induction false} ActiveSamplesIncreasing(mu: seq<int>, labels: seq<int>, n: nat)
    requires LabelsIn(labels, n, |mu|)
    ensures forall a, b :: 0 <= a < b < |ActiveSamples(mu, labels, n)| ==>
      ActiveSamples(mu, labels, n)[a] < ActiveSamples(mu, labels, n)[b]
  {
    if n > 0 {
      var prev := ActiveSamples(mu, labels, n - 1);
      ActiveSamplesIncreasing(mu, labels, n - 1);
      ActiveSamplesMembership(mu, labels, n - 1);
      assert forall a :: 0 <= a < |prev| ==> prev[a] in prev;
    }
  }

  /** What one pass with class assignment mu hands to the SVM when n samples
      are visible: the samples whose class mu does not exclude, their binary
      labels, C for both classes and the tolerance. */
  function PassRun(mu: seq<int>, labels: seq<int>, n: nat, c: real, epsilon: real): (run: TrainingRun)
    requires LabelsIn(labels, n, |mu|)
    ensures run.c1 == c && run.c2 == c && run.epsilon == epsilon
    ensures |run.labels| == |run.samples| <= n
    ensures forall p :: p in run.samples <==> 0 <= p < n && mu[labels[p]] != 0
    ensures forall k :: 0 <= k < |run.samples| ==>
      0 <= run.samples[k] < n && run.labels[k] == mu[labels[run.samples[k]]] as real
  {
    var subset := ActiveSamples(mu, labels, n);
    ActiveSamplesMembership(mu, labels, n);
    assert InRange(subset, n) by {
      assert forall k :: 0 <= k < |subset| ==> subset[k] in subset;
    }
    TrainingRun(subset, Restrict(BinaryLabelValues(mu, labels, n), subset), c, c, epsilon)
  }

  /** The pass of a freshly seeded mu: exactly the samples of the two
      candidate classes take part, those of the second class labelled -1 and
      those of the first +1; every other class is left out. */
  lemma SeededPass(e: Entry, m: int, labels: seq<int>, n: nat, c: real, epsilon: real)
    requires 0 <= e.i < m && 0 <= e.j < m
    requires LabelsIn(labels, n, m)
    ensures forall p :: p in PassRun(InitialMu(e, m), labels, n, c, epsilon).samples <==>
      0 <= p < n && (labels[p] == e.i || labels[p] == e.j)
    ensures forall k :: 0 <= k < |PassRun(InitialMu(e, m), labels, n, c, epsilon).samples| ==>
      PassRun(InitialMu(e, m), labels, n, c, epsilon).labels[k] ==
      (if labels[PassRun(InitialMu(e, m), labels, n, c, epsilon).samples[k]] == e.j then -1.0 else 1.0)
  {
  }

  /** Every class id of the node names one of the m classes. */
  predicate ClassIdsIn(classes: seq<int>, m: int)
  {
    forall k :: 0 <= k < |classes| ==> 0 <= classes[k] < m
  }

  /** mu seeded for a node from a candidate of local positions, reading
      the positions through the node's class list: +1 at the class id at
      position e.i, -1 at the class id at position e.j. */
  function NodeMu(e: Entry, classes: seq<int>, m: int): (mu: seq<int>)
    requires 0 <= e.i < |classes| && 0 <= e.j < |classes| && ClassIdsIn(classes, m)
    ensures |mu| == m
  {
    InitialMu(Entry(classes[e.i], classes[e.j], e.score), m)
  }

  /** With mu seeded through the class list, the pass trains on exactly the
      samples of the node's two candidate classes, those of the second
      labelled -1 and those of the first +1. */
  lemma NodeSeededPass(e: Entry, classes: seq<int>, m: int, labels: seq<int>, n: nat, c: real, epsilon: real)
    requires 0 <= e.i < |classes| && 0 <= e.j < |classes| && ClassIdsIn(classes, m)
    requires LabelsIn(labels, n, m)
    ensures forall p :: p in PassRun(NodeMu(e, classes, m), labels, n, c, epsilon).samples <==>
      0 <= p < n && (labels[p] == classes[e.i] || labels[p] == classes[e.j])
    ensures forall k :: 0 <= k < |PassRun(NodeMu(e, classes, m), labels, n, c, epsilon).samples| ==>
      PassRun(NodeMu(e, classes, m), labels, n, c, epsilon).labels[k] ==
      (if labels[PassRun(NodeMu(e, classes, m), labels, n, c, epsilon).samples[k]] == classes[e.j] then -1.0 else 1.0)
  {
    SeededPass(Entry(classes[e.i], classes[e.j], e.score), m, labels, n, c, epsilon);
  }

  /** At the root, where the class list is 0, 1, ..., the two seedings
      agree. */
  lemma RootNodeSeedsAlike(e: Entry, classes: seq<int>, m: int)
    requires 0 <= e.i < |classes| && 0 <= e.j < |classes| && ClassIdsIn(classes, m)
    requires forall k :: 0 <= k < |classes| ==> classes[k] == k
    ensures e.i < m && e.j < m && NodeMu(e, classes, m) == InitialMu(e, m)
  {
    assert classes[e.i] == e.i && classes[e.j] == e.j;
  }

  /** A node of classes 2 and 3 among four, with one sample of each: the
      seeding by local positions marks classes 0 and 1, so the pass over
      candidate (0, 1) trains on no sample at all, while the seeding
      through the class list trains on both. */
  lemma LocalSeedMissesNodeClasses()
    ensures PassRun(InitialMu(Entry(0, 1, 2.0), 4), [2, 3], 2, 1.0, 0.001).samples == []
    ensures PassRun(NodeMu(Entry(0, 1, 2.0), [2, 3], 4), [2, 3], 2, 1.0, 0.001).samples == [0, 1]
  {
    var asWritten := InitialMu(Entry(0, 1, 2.0), 4);
    assert asWritten == [1, -1, 0, 0];
    assert ActiveSamples(asWritten, [2, 3], 1) == [];
    var corrected := NodeMu(Entry(0, 1, 2.0), [2, 3], 4);
    assert corrected == [0, 0, 1, -1];
    assert ActiveSamples(corrected, [2, 3], 1) == [0];
  }

  /** Allocates mu for m classes, zeroes it and seeds it from candidate e. */
  method SeedMu(e: Entry, m: nat) returns (mu: array<int>)
    requires 0 <= e.i < m && 0 <= e.j < m
    ensures fresh(mu)
    ensures mu[..] == InitialMu(e, m)
  {
    mu := new int[m](_ => 0);
    mu[e.i] := 1;
    mu[e.j] := -1;
  }

  /** The labelling loop of one pass: binlab[i] = mu[label[i]] for every
      sample, and subset[..k] lists the samples whose mu is non-zero. */
  method BuildBinaryProblem(mu: array<int>, labels: seq<int>, n: nat)
    returns (binlab: array<real>, subset: array<int>, k: nat)
    requires LabelsIn(labels, n, mu.Length)
    ensures binlab.Length == n && subset.Length == n && k <= n
    ensures forall p :: 0 <= p < n ==> binlab[p] == mu[labels[p]] as real
    ensures subset[..k] == ActiveSamples(mu[..], labels, n)
  {
    binlab := new real[n];
    subset := new int[n];
    k := 0;
    for i := 0 to n
      invariant k <= i
      invariant forall p :: 0 <= p < i ==> binlab[p] == mu[labels[p]] as real
      invariant subset[..k] == ActiveSamples(mu[..], labels, i)
    {
      var lab := labels[i];
      binlab[i] := mu[lab] as real;
      if mu[lab] != 0 {
        subset[k] := i;
        k := k + 1;
      }
    }
  }

  /** The stopping test of the alternating optimisation. The flag starts
      out true and a difference between mu and prev_mu only sets it to true
      again, so the test answers "stop" whatever the two vectors hold. */
  method ConvergenceCheck(mu: array<int>, prevMu: array<int>) returns (bbreak: bool)
    requires mu.Length <= prevMu.Length
    ensures bbreak
  {
    bbreak := true;
    var c := 0;
    while c < mu.Length
      invariant 0 <= c <= mu.Length && bbreak
    {
      if mu[c] != prevMu[c] {
        bbreak := true;
        break;
      }
      c := c + 1;
    }
  }
}
