/** The collaborators a relaxed-tree node talks to, reduced to what the node
    logic observes of them: how many samples a feature store shows, which
    index subset restricts a feature or label store, which features a kernel
    was initialised on, and what a binary SVM was asked to train on. */
module Collaborators {

  /** Every index in `idx` lies in [0, n). */
  predicate InRange(idx: seq<int>, n: int)
  {
    forall k :: 0 <= k < |idx| ==> 0 <= idx[k] < n
  }

  /** The values at the positions `idx`, in the order of `idx`. */
  function Restrict(values: seq<real>, idx: seq<int>): (r: seq<real>)
    requires InRange(idx, |values|)
    ensures |r| == |idx|
    ensures forall k :: 0 <= k < |idx| ==> r[k] == values[idx[k]]
  {
    seq(|idx|, k requires 0 <= k < |idx| => values[idx[k]])
  }

  /** Restricting to every position, in order, changes nothing: the view
      with no active subset is the whole store. */
  lemma RestrictAll(values: seq<real>)
    ensures InRange(seq(|values|, k => k), |values|)
    ensures Restrict(values, seq(|values|, k => k)) == values
  {
  }

  /** Restricting twice is restricting once, to the outer subset read
      through the inner one: a subset pushed on top of another picks
      positions of the view the other one shows. */
  lemma RestrictCompose(values: seq<real>, outer: seq<int>, inner: seq<int>)
    requires InRange(outer, |values|) && InRange(inner, |outer|)
    ensures InRange(seq(|inner|, k requires 0 <= k < |inner| => outer[inner[k]]), |values|)
    ensures Restrict(Restrict(values, outer), inner) ==
      Restrict(values, seq(|inner|, k requires 0 <= k < |inner| => outer[inner[k]]))
  {
  }

  /** The run-time class of a feature object, as a dynamic cast sees it. */
  datatype FeatureClass = DenseFloat64 | OtherFeatures

  /** A feature store. Subsets are kept on a stack whose last element is the
      active restriction; the underlying vectors are not modelled. */
  class Features {
    const featureClass: FeatureClass
    const numVectors: nat
    var subsets: seq<seq<int>>

    constructor (featureClass: FeatureClass, numVectors: nat)
      ensures this.featureClass == featureClass && this.numVectors == numVectors
      ensures subsets == []
    {
      this.featureClass := featureClass;
      this.numVectors := numVectors;
      subsets := [];
    }

    /** The sample indices visible through the active subset. */
    function VisibleIndices(): (r: seq<int>)
      reads this
      ensures subsets == [] ==> |r| == numVectors
      ensures subsets != [] ==> r == subsets[|subsets| - 1]
    {
      if subsets == [] then seq(numVectors, k => k) else subsets[|subsets| - 1]
    }

    /** get_num_vectors: how many samples the store shows, which is all of
        them until a subset is active and the size of that subset after. */
    function GetNumVectors(): (n: nat)
      reads this
      ensures subsets == [] ==> n == numVectors
      ensures subsets != [] ==> n == |subsets[|subsets| - 1]|
    {
      |VisibleIndices()|
    }

    method AddSubset(subset: seq<int>)
      modifies this`subsets
      ensures subsets == old(subsets) + [subset]
      ensures VisibleIndices() == subset && GetNumVectors() == |subset|
    {
      subsets := subsets + [subset];
    }

    /** Drops the active subset; with none active the store is unchanged. */
    method RemoveSubset()
      modifies this`subsets
      ensures subsets == if old(subsets) == [] then [] else old(subsets)[..|old(subsets)| - 1]
    {
      if subsets != [] {
        subsets := subsets[..|subsets| - 1];
      }
    }
  }

  /** Integer class labels, one per sample. */
  class MulticlassLabels {
    const labels: seq<int>

    constructor (labels: seq<int>)
      ensures this.labels == labels
    {
      this.labels := labels;
    }
  }

  /** Real-valued binary labels with their own subset stack. */
  class BinaryLabels {
    const values: seq<real>
    var subsets: seq<seq<int>>

    /** Every stacked subset indexes into the label values. */
    ghost predicate Valid()
      reads this
    {
      forall d :: 0 <= d < |subsets| ==> InRange(subsets[d], |values|)
    }

    constructor (values: seq<real>)
      ensures this.values == values && subsets == [] && Valid()
    {
      this.values := values;
      subsets := [];
    }

    /** The label values visible through the active subset. */
    function VisibleValues(): seq<real>
      reads this
      requires Valid()
    {
      if subsets == [] then values else Restrict(values, subsets[|subsets| - 1])
    }

    method AddSubset(subset: seq<int>)
      requires Valid() && InRange(subset, |values|)
      modifies this`subsets
      ensures Valid() && subsets == old(subsets) + [subset]
      ensures VisibleValues() == Restrict(values, subset)
    {
      subsets := subsets + [subset];
    }

    method RemoveSubset()
      requires Valid()
      modifies this`subsets
      ensures Valid()
      ensures subsets == if old(subsets) == [] then [] else old(subsets)[..|old(subsets)| - 1]
    {
      if subsets != [] {
        subsets := subsets[..|subsets| - 1];
      }
    }
  }

  /** A kernel remembers the two feature stores it was initialised on. */
  class Kernel {
    var lhs: Features?
    var rhs: Features?

    constructor ()
      ensures lhs == null && rhs == null
    {
      lhs, rhs := null, null;
    }

    method Init(l: Features, r: Features)
      modifies this
      ensures lhs == l && rhs == r
    {
      lhs, rhs := l, r;
    }
  }

  /** The multiclass machine used to estimate the confusion matrix; only its
      presence matters to the relaxed tree. */
  class Machine {
    constructor ()
    {
    }
  }

  /** What one call of the binary SVM's training saw: the visible sample
      indices of the kernel's features, the visible binary labels, and the
      regularisation constants and tolerance it was configured with. */
  datatype TrainingRun = TrainingRun(samples: seq<int>, labels: seq<real>, c1: real, c2: real, epsilon: real)

  /** A binary SVM whose training algorithm is not modelled: training only
      records what it was given. */
  class LibSVM {
    var c1: real
    var c2: real
    var epsilon: real
    var kernel: Kernel?
    var labels: BinaryLabels?
    var runs: seq<TrainingRun>

    constructor ()
      ensures kernel == null && labels == null && runs == []
    {
      c1, c2, epsilon := 0.0, 0.0, 0.0;
      kernel, labels := null, null;
      runs := [];
    }

    method SetC(c1: real, c2: real)
      modifies this`c1, this`c2
      ensures this.c1 == c1 && this.c2 == c2
    {
      this.c1, this.c2 := c1, c2;
    }

    method SetEpsilon(epsilon: real)
      modifies this`epsilon
      ensures this.epsilon == epsilon
    {
      this.epsilon := epsilon;
    }

    method SetKernel(k: Kernel)
      modifies this`kernel
      ensures kernel == k
    {
      kernel := k;
    }

    method SetLabels(l: BinaryLabels)
      modifies this`labels
      ensures labels == l
    {
      labels := l;
    }

    /** Trains on the kernel's left-hand features and the labels, as each is
        restricted at the time of the call. */
    method Train()
      requires kernel != null && kernel.lhs != null
      requires labels != null && labels.Valid()
      modifies this`runs
      ensures runs == old(runs) + [TrainingRun(kernel.lhs.VisibleIndices(), labels.VisibleValues(), c1, c2, epsilon)]
    {
      runs := runs + [TrainingRun(kernel.lhs.VisibleIndices(), labels.VisibleValues(), c1, c2, epsilon)];
    }
  }
}
