/** The relaxed-tree machine: its configuration, the checks made before
    training, and the per-node driver that ranks candidate pairs and runs one
    node optimisation per candidate against shared feature and label stores. */
module RelaxedTreeMachine {
  import opened NodeInit
  import opened NodeTraining
  import opened Collaborators

  /** Why training stops before it starts. */
  datatype TrainError =
    | NoConfusionMachine   // no machine set for estimating the confusion matrix
    | NoKernel             // no kernel assigned
    | NotDenseFloat64      // the data given is not dense 64-bit float features

  /** Either an error was raised, or training returned a flag. */
  datatype TrainOutcome = Failed(error: TrainError) | Returned(ok: bool)

  class RelaxedTree {
    var maxNumIter: int
    var svmC: real
    var svmEpsilon: real
    var kernel: Kernel?
    var feats: Features?
    var machineForConfusionMatrix: Machine?
    var numClasses: int
    var labels: MulticlassLabels?

    /** A new tree: three alternating-optimisation rounds at most, C = 1,
        epsilon = 0.001, no kernel, features or confusion machine, and no
        classes yet. */
    constructor ()
      ensures maxNumIter == 3 && svmC == 1.0 && svmEpsilon == 0.001
      ensures kernel == null && feats == null && machineForConfusionMatrix == null
      ensures numClasses == 0 && labels == null
    {
      maxNumIter, svmC, svmEpsilon := 3, 1.0, 0.001;
      kernel, feats, machineForConfusionMatrix := null, null, null;
      numClasses := 0;
      labels := null;
    }

    /** train_machine: the confusion machine is checked first, then the
        kernel, then the class of the data; dense float64 data replaces the
        stored features. The confusion matrix estimated afterwards is
        discarded and false is returned. */
    method TrainMachine(data: Features?) returns (outcome: TrainOutcome)
      modifies this`feats
      ensures machineForConfusionMatrix == null ==>
        outcome == Failed(NoConfusionMachine) && feats == old(feats)
      ensures machineForConfusionMatrix != null && kernel == null ==>
        outcome == Failed(NoKernel) && feats == old(feats)
      ensures (machineForConfusionMatrix != null && kernel != null &&
               data != null && data.featureClass != DenseFloat64) ==>
        outcome == Failed(NotDenseFloat64) && feats == old(feats)
      ensures (machineForConfusionMatrix != null && kernel != null &&
               (data == null || data.featureClass == DenseFloat64)) ==>
        outcome == Returned(false) && feats == (if data != null then data else old(feats))
    {
      if machineForConfusionMatrix == null {
        return Failed(NoConfusionMachine);
      }
      if kernel == null {
        return Failed(NoKernel);
      }
      if data != null {
        if data.featureClass != DenseFloat64 {
          return Failed(NotDenseFloat64);
        }
        feats := data;
      }
      outcome := Returned(false);
    }

    /** The stores a node optimisation reads are present, and every sample
        the features show has a label naming one of the classes. */
    ghost predicate ReadyForNodes()
      reads this, feats, labels
    {
      feats != null && labels != null && kernel != null &&
      LabelsIn(labels.labels, feats.GetNumVectors(), numClasses)
    }

    /** What the pass over candidate `e` hands to the SVM: the pass of the
        seeded mu over the samples the features show, with the tree's C and
        epsilon. */
    ghost function ExpectedRun(e: Entry): (run: TrainingRun)
      reads this, feats, labels
      requires ReadyForNodes()
      requires 0 <= e.i < numClasses && 0 <= e.j < numClasses
      ensures run.c1 == svmC && run.c2 == svmC && run.epsilon == svmEpsilon
      ensures forall p :: p in run.samples <==>
        0 <= p < feats.GetNumVectors() && (labels.labels[p] == e.i || labels.labels[p] == e.j)
    {
      SeededPass(e, numClasses, labels.labels, feats.GetNumVectors(), svmC, svmEpsilon);
      PassRun(InitialMu(e, numClasses), labels.labels, feats.GetNumVectors(), svmC, svmEpsilon)
    }

    /** Scoped training on a subset: restrict the binary labels and the
        features to `subset`, initialise the kernel on the restricted
        features, train once, then lift both restrictions again. */
    method TrainRestricted(binaryLabels: BinaryLabels, subset: seq<int>, svm: LibSVM)
      requires feats != null && kernel != null
      requires binaryLabels.Valid() && binaryLabels.subsets == []
      requires InRange(subset, |binaryLabels.values|)
      modifies feats, kernel, svm, binaryLabels
      ensures feats.subsets == old(feats.subsets)
      ensures binaryLabels.subsets == []
      ensures svm.c1 == old(svm.c1) && svm.c2 == old(svm.c2) && svm.epsilon == old(svm.epsilon)
      ensures svm.runs == old(svm.runs) +
        [TrainingRun(subset, Restrict(binaryLabels.values, subset), old(svm.c1), old(svm.c2), old(svm.epsilon))]
      ensures kernel.lhs == feats && kernel.rhs == feats
      ensures svm.kernel == kernel && svm.labels == binaryLabels
    {
      binaryLabels.AddSubset(subset);
      feats.AddSubset(subset);

      kernel.Init(feats, feats);
      svm.SetKernel(kernel);
      svm.SetLabels(binaryLabels);
      assert binaryLabels.Valid() && binaryLabels.VisibleValues() == Restrict(binaryLabels.values, subset);
      assert svm.kernel.lhs.VisibleIndices() == subset;
      svm.Train();

      binaryLabels.RemoveSubset();
      feats.RemoveSubset();
    }

    /** One pass of the alternating optimisation: label every sample with mu
        of its class and train, restricted to the samples whose label is not
        zero. */
    method TrainOnSubset(mu: array<int>, svm: LibSVM)
      requires ReadyForNodes() && mu.Length == numClasses
      requires svm.c1 == svmC && svm.c2 == svmC && svm.epsilon == svmEpsilon
      modifies feats, kernel, svm
      ensures feats.subsets == old(feats.subsets)
      ensures svm.c1 == old(svm.c1) && svm.c2 == old(svm.c2) && svm.epsilon == old(svm.epsilon)
      ensures svm.runs == old(svm.runs) +
        [old(PassRun(mu[..], labels.labels, feats.GetNumVectors(), svmC, svmEpsilon))]
      ensures kernel.lhs == feats && kernel.rhs == feats && svm.kernel == kernel
      ensures svm.labels != null && svm.labels.subsets == []
    {
      var n := feats.GetNumVectors();
      ghost var run := PassRun(mu[..], labels.labels, n, svmC, svmEpsilon);
      var binlab, subset, k := BuildBinaryProblem(mu, labels.labels, n);
      ActiveSamplesMembership(mu[..], labels.labels, n);
      assert InRange(subset[..k], n) by {
        assert forall q :: 0 <= q < k ==> subset[..k][q] in subset[..k];
      }
      assert binlab[..] == BinaryLabelValues(mu[..], labels.labels, n);

      var binaryLabels := new BinaryLabels(binlab[..]);
      TrainRestricted(binaryLabels, subset[..k], svm);
      assert svm.runs == old(svm.runs) + [run];
    }

    /** One pass of the alternating optimisation followed by its stopping
        test: train on the subset mu selects, copy mu into prev_mu, and
        compare the two. */
    method OptimisationPass(mu: array<int>, prevMu: array<int>, svm: LibSVM) returns (bbreak: bool)
      requires ReadyForNodes() && mu.Length == numClasses && prevMu.Length == mu.Length
      requires svm.c1 == svmC && svm.c2 == svmC && svm.epsilon == svmEpsilon
      modifies feats, kernel, svm, prevMu
      ensures bbreak
      ensures svm.c1 == old(svm.c1) && svm.c2 == old(svm.c2) && svm.epsilon == old(svm.epsilon)
      ensures prevMu[..] == mu[..]
      ensures feats.subsets == old(feats.subsets)
      ensures svm.runs == old(svm.runs) +
        [old(PassRun(mu[..], labels.labels, feats.GetNumVectors(), svmC, svmEpsilon))]
      ensures kernel.lhs == feats && kernel.rhs == feats && svm.kernel == kernel
      ensures svm.labels != null && svm.labels.subsets == []
    {
      TrainOnSubset(mu, svm);

      forall c | 0 <= c < mu.Length {
        prevMu[c] := mu[c];
      }

      // the colouring of the label space would update mu here
      bbreak := ConvergenceCheck(mu, prevMu);
    }

    /** train_node_with_initialization: seeds mu from the candidate, then runs
        the alternating optimisation. The convergence flag starts out true,
        so the loop ends after its first pass: one training run when
        maxNumIter >= 1 and none otherwise, and the feature store ends with
        the subsets it started with. */
    method TrainNodeWithInitialization(e: Entry) returns (svm: LibSVM)
      requires ReadyForNodes()
      requires 0 <= e.i < numClasses && 0 <= e.j < numClasses
      modifies feats, kernel
      ensures fresh(svm)
      ensures svm.c1 == svmC && svm.c2 == svmC && svm.epsilon == svmEpsilon
      ensures feats.subsets == old(feats.subsets)
      ensures svm.runs == if maxNumIter >= 1 then [old(ExpectedRun(e))] else []
      ensures maxNumIter >= 1 ==>
        kernel.lhs == feats && kernel.rhs == feats && svm.kernel == kernel &&
        svm.labels != null && svm.labels.subsets == []
      ensures maxNumIter < 1 ==> unchanged(kernel)
    {
      var mu := SeedMu(e, numClasses);
      var prevMu := new int[numClasses];
      ghost var run := PassRun(mu[..], labels.labels, feats.GetNumVectors(), svmC, svmEpsilon);
      ghost var n := feats.GetNumVectors();

      svm := new LibSVM();
      svm.SetC(svmC, svmC);
      svm.SetEpsilon(svmEpsilon);

      var iiter := 0;
      var bbreak := false;
      while iiter < maxNumIter && !bbreak
        invariant 0 <= iiter <= 1 && (bbreak <==> iiter == 1)
        invariant iiter == 1 ==> maxNumIter >= 1
        invariant fresh(prevMu) && mu[..] == old(InitialMu(e, numClasses))
        invariant feats.subsets == old(feats.subsets) && feats.GetNumVectors() == n
        invariant ReadyForNodes()
        invariant svm.c1 == svmC && svm.c2 == svmC && svm.epsilon == svmEpsilon
        invariant svm.runs == if iiter == 1 then [run] else []
        invariant iiter == 1 ==>
          kernel.lhs == feats && kernel.rhs == feats && svm.kernel == kernel &&
          svm.labels != null && svm.labels.subsets == []
        invariant iiter == 0 ==> unchanged(kernel)
      {
        bbreak := OptimisationPass(mu, prevMu, svm);
        iiter := iiter + 1;
      }
    }

    /** The loop of train_node: one node optimisation per candidate, in
        order; machine k was trained on candidate k. */
    method TrainCandidates(candidates: seq<Entry>) returns (ghost machines: seq<LibSVM>)
      requires ReadyForNodes()
      requires forall e :: e in candidates ==> 0 <= e.i < numClasses && 0 <= e.j < numClasses
      modifies feats, kernel
      ensures ReadyForNodes()
      ensures feats.subsets == old(feats.subsets)
      ensures |machines| == |candidates|
      ensures forall k :: 0 <= k < |machines| ==>
        fresh(machines[k]) &&
        machines[k].runs == (if maxNumIter >= 1 then [old(ExpectedRun(candidates[k]))] else []) &&
        machines[k].c1 == svmC && machines[k].c2 == svmC && machines[k].epsilon == svmEpsilon
    {
      ghost var n := feats.GetNumVectors();
      machines := [];
      for k := 0 to |candidates|
        invariant ReadyForNodes()
        invariant feats.subsets == old(feats.subsets) && feats.GetNumVectors() == n
        invariant |machines| == k
        invariant forall q :: 0 <= q < k ==>
          fresh(machines[q]) &&
          machines[q].runs == (if maxNumIter >= 1 then [old(ExpectedRun(candidates[q]))] else []) &&
          machines[q].c1 == svmC && machines[q].c2 == svmC && machines[q].epsilon == svmEpsilon
      {
        assert candidates[k] in candidates;
        ghost var run := ExpectedRun(candidates[k]);
        assert run == old(ExpectedRun(candidates[k])) by {
          assert run == PassRun(InitialMu(candidates[k], numClasses), labels.labels, n, svmC, svmEpsilon);
        }
        var svm := TrainNodeWithInitialization(candidates[k]);
        machines := machines + [svm];
      }
    }

    /** train_node: ranks the candidate pairs of `classes` and runs one node
        optimisation per candidate, in ranked order; machine k was trained on
        candidate k. */
    method TrainNode(g: seq<seq<real>>, classes: seq<int>)
      returns (ghost candidates: seq<Entry>, ghost machines: seq<LibSVM>)
      requires Selects(g, classes)
      requires ReadyForNodes()
      requires |classes| <= numClasses
      modifies feats, kernel
      ensures ReadyForNodes()
      ensures IsRankedPrefix(candidates, Candidates(g, classes))
      ensures forall e :: e in candidates ==> 0 <= e.i < e.j < |classes|
      ensures |machines| == |candidates|
      ensures forall k :: 0 <= k < |machines| ==> fresh(machines[k])
      ensures forall k :: 0 <= k < |machines| ==>
        machines[k].runs == if maxNumIter >= 1 then [old(ExpectedRun(candidates[k]))] else []
      ensures forall k :: 0 <= k < |machines| ==>
        machines[k].c1 == svmC && machines[k].c2 == svmC && machines[k].epsilon == svmEpsilon
      ensures feats.subsets == old(feats.subsets)
    {
      var muInit := InitNode(g, classes);
      candidates := muInit;
      machines := TrainCandidates(muInit);
    }
  }
}
