# Relaxed tree node logic (shogun, `CRelaxedTree`)

This project models the node logic of shogun's relaxed-tree multiclass
machine, `CRelaxedTree`, and proves properties of it in Dafny.

- **Candidate generation (`init_node`).** The rows and columns of the
  global confusion matrix that belong to a node's classes are copied into a
  local matrix, which is then symmetrised in place. Every pair of local
  positions `i < j` is scored by the symmetrised cell `(i, j)`. The pairs are
  sorted by ascending score with `EntryComparator`, and at most 30 of them
  are kept.
- **One node optimisation (`train_node_with_initialization`).** The class
  assignment `mu` is seeded from a candidate pair: +1 for the first, -1 for
  the second and 0 for every other class. Each sample gets the binary label
  `mu[label]`. The samples whose `mu` is non-zero are collected in increasing
  order. That subset is pushed onto the binary labels and the feature store,
  the kernel is initialised on the restricted features, the SVM is trained,
  and both subsets are popped again. Then `mu` is copied into `prev_mu` and
  the stopping test runs.
- **`train_node`.** It runs one node optimisation per ranked candidate, in
  order.
- **`train_machine`.** Its precondition checks are modelled.
- **The constructor.** Its defaults are modelled.

Modules:

- `NodeInit` (NodeInit.dfy) covers candidate generation. The global
  confusion matrix is a read-only value (`seq<seq<real>>`). The local matrix
  is an `array2<real>` that is filled and then symmetrised in place. The
  library sort is an in-place sort of an `array<Entry>`. Each method is
  proved against the specification functions `PairScores`, `RowPairs`,
  `PairsBefore` and `Candidates` and the predicate `IsRankedPrefix`.
- `NodeTraining` (NodeTraining.dfy) covers the binary sub-problem of one
  pass: the seeded `mu`, the label/subset loop over arrays, and the stopping
  test. `PassRun` describes, as a value, what one pass hands to the SVM.
- `Collaborators` (Collaborators.dfy) holds the stores and services the
  node logic talks to:
  - a feature store with a subset stack and `get_num_vectors`;
  - multiclass and binary labels;
  - a kernel that remembers what it was initialised on;
  - a binary SVM whose training records one `TrainingRun`.
- `RelaxedTreeMachine` (RelaxedTree.dfy) holds the `RelaxedTree` class with
  the tree's fields, its constructor, `train_machine`, the scoped training
  step, `train_node_with_initialization` and `train_node`.

Two behaviours of the code are modelled exactly as written:

- **The symmetrisation is not symmetric.** A cell `(i, j)` with `i <= j` is
  updated before its mirror, so it becomes `L(i,j) + L(j,i)` and the
  diagonal doubles. A cell below the diagonal then adds its already-updated
  mirror and becomes `2 L(i,j) + L(j,i)`. Only cells above the diagonal are
  read afterwards.
- **The stopping flag is always true.** It starts out `true`, and a
  difference between `mu` and `prev_mu` only sets it to `true` again. So the
  alternating optimisation stops after its first pass: one training run when
  `m_max_num_iter >= 1`, none otherwise.

## Model

| member | source | states |
|---|---|---|
| RelaxedTreeMachine.RelaxedTree.constructor | src/shogun/multiclass/tree/RelaxedTree.cpp:21-24 | The defaults are: at most 3 iterations, C = 1, epsilon = 0.001, no kernel, no features, no confusion machine, 0 classes. |
| RelaxedTreeMachine.RelaxedTree.TrainMachine | src/shogun/multiclass/tree/RelaxedTree.cpp:42-65 | A missing confusion machine fails first, then a missing kernel. Non-null data that is not dense float64 fails next. Otherwise dense data replaces the stored features (null data leaves them as they were) and `false` is returned. An error leaves the features untouched. |
| NodeInit.LocalConfusion | src/shogun/multiclass/tree/RelaxedTree.cpp:149-153 | A fresh n×n matrix with cell (p, q) equal to `global(classes[p], classes[q])`. |
| NodeInit.Symmetrise | src/shogun/multiclass/tree/RelaxedTree.cpp:155-158 | The in-place `conf(i,j) += conf(j,i)`, row by row. On and above the diagonal a cell becomes the sum of both original cells. Below it, a cell becomes twice itself plus its mirror. |
| NodeInit.PairScores | src/shogun/multiclass/tree/RelaxedTree.cpp:150-158 | The score matrix of the node's local positions, summed over both directions of the global matrix. It is square and symmetric. |
| NodeInit.EnumeratePairs | src/shogun/multiclass/tree/RelaxedTree.cpp:160-164 | The nested `push_back` loops list exactly `PairsBefore(w, n)`: every pair i < j, row by row, scored by the symmetrised cell. |
| NodeInit.RowPairsAt | src/shogun/multiclass/tree/RelaxedTree.cpp:163-164 | Row i of the enumeration has one entry per j in (i, n), the k-th being `(i, i+1+k)` with score `w[i][i+1+k]`. |
| NodeInit.PairsBeforeAt | src/shogun/multiclass/tree/RelaxedTree.cpp:162-164 | Every enumerated entry is a pair `i < j < n` of local positions from the rows done so far, carrying `w[i][j]`. |
| NodeInit.PairsBeforeComplete | src/shogun/multiclass/tree/RelaxedTree.cpp:162-164 | Every pair `i < j` in the rows done so far is enumerated with its score. |
| NodeInit.CandidatesMembership | src/shogun/multiclass/tree/RelaxedTree.cpp:150-164 | An entry is a candidate if and only if it is a pair `0 <= i < j < n` of local positions whose score is `global(ci, cj) + global(cj, ci)`. |
| NodeInit.PairsBeforeLength | src/shogun/multiclass/tree/RelaxedTree.cpp:160-164 | After `rows` rows the enumeration holds `rows(2n - rows - 1)/2` pairs. |
| NodeInit.CandidatesLength | src/shogun/multiclass/tree/RelaxedTree.cpp:160-164 | There are exactly `num_entries = n(n-1)/2` candidates. |
| NodeInit.AppendDistinct | src/shogun/multiclass/tree/RelaxedTree.cpp:162-164 | Appending a row whose pairs start at a later row keeps all pairs distinct. |
| NodeInit.PairsBeforeDistinct | src/shogun/multiclass/tree/RelaxedTree.cpp:162-164 | No pair of positions is enumerated twice. |
| NodeInit.CandidatesDistinct | src/shogun/multiclass/tree/RelaxedTree.cpp:162-164 | The candidate list has no duplicate pair. |
| NodeInit.Swap | src/shogun/multiclass/tree/RelaxedTree.cpp:166 | An exchange of two cells: the cells are swapped and the multiset of entries is kept. |
| NodeInit.InsertLast | src/shogun/multiclass/tree/RelaxedTree.cpp:140-146 | One insertion step of the sort by `EntryComparator`: if `a[..i]` was sorted by score, `a[..i+1]` is sorted afterwards, and the array is a permutation of what it was. |
| NodeInit.SortByScore | src/shogun/multiclass/tree/RelaxedTree.cpp:166 | `std::sort` with `EntryComparator`: the result is sorted by ascending score and is a permutation of its input. No order among equal scores is promised. |
| NodeInit.SortedSplit | src/shogun/multiclass/tree/RelaxedTree.cpp:166-171 | In a sorted list, nothing after the cut scores below anything before it. |
| NodeInit.SortedPrefixRanked | src/shogun/multiclass/tree/RelaxedTree.cpp:166-171 | The first `min(30, size)` entries of a sorted permutation form a ranked prefix: they are sorted, drawn from the list, and every entry left out scores at least as high as every entry kept. |
| NodeInit.RankedPrefixMembers | src/shogun/multiclass/tree/RelaxedTree.cpp:162-171 | Every entry of a ranked prefix of the candidates is a pair `i < j` of local positions carrying the confusion of that pair. |
| NodeInit.RankedPrefixLength | src/shogun/multiclass/tree/RelaxedTree.cpp:160-171 | A ranked prefix of the candidates has `min(30, n(n-1)/2)` entries, and none when there are fewer than two classes. |
| NodeInit.FirstCandidateLeastConfused | src/shogun/multiclass/tree/RelaxedTree.cpp:166-171 | The first returned candidate scores no higher than any pair at all, whether kept or not. |
| NodeInit.MostConfusedPairRankedLast | src/shogun/multiclass/tree/RelaxedTree.cpp:166-171 | In a four-class scenario where classes 0 and 1 are confused most, that pair (score 20) is the last of the six candidates: the ranking is ascending. |
| NodeInit.InitNode | src/shogun/multiclass/tree/RelaxedTree.cpp:147-172 | `init_node` returns `min(30, n(n-1)/2)` entries, and none for fewer than two classes. Each entry is a local pair `i < j` scored `global(ci,cj) + global(cj,ci)`. The entries are sorted ascending and form a ranked prefix of all candidates. |
| NodeTraining.InitialMu | src/shogun/multiclass/tree/RelaxedTree.cpp:79-82 | The seeded `mu` has one value per class. It is +1 exactly at the first position, -1 exactly at the second (written last, so it wins if the two coincide), and 0 exactly elsewhere. |
| NodeTraining.SeedMu | src/shogun/multiclass/tree/RelaxedTree.cpp:79-82 | The allocation, zeroing and seeding of `mu` yield `InitialMu`. |
| NodeTraining.ActiveSamplesMembership | src/shogun/multiclass/tree/RelaxedTree.cpp:96-104 | A sample is collected if and only if it is visible and `mu` of its label is non-zero. At most n samples are collected. |
| NodeTraining.ActiveSamplesIncreasing | src/shogun/multiclass/tree/RelaxedTree.cpp:96-104 | The collected samples are strictly increasing. |
| NodeTraining.BuildBinaryProblem | src/shogun/multiclass/tree/RelaxedTree.cpp:91-104 | The labelling loop sets `binlab[i] == mu[label[i]]` for every sample. After it, `subset[..k]` (`subset.vlen = k`) is exactly the list of active samples. |
| NodeTraining.PassRun | src/shogun/multiclass/tree/RelaxedTree.cpp:86-114 | One pass hands the SVM exactly the samples whose class has non-zero `mu`, each labelled with `mu` of its class, with C for both classes and the tree's epsilon. |
| NodeTraining.SeededPass | src/shogun/multiclass/tree/RelaxedTree.cpp:79-104 | With a freshly seeded `mu`, exactly the samples of the two candidate classes take part: those of the second class are labelled -1, those of the first +1. |
| NodeTraining.ConvergenceCheck | src/shogun/multiclass/tree/RelaxedTree.cpp:122-131 | The stopping flag is true whatever `mu` and `prev_mu` hold. |
| RelaxedTreeMachine.RelaxedTree.ExpectedRun | src/shogun/multiclass/tree/RelaxedTree.cpp:79-114 | The run of a candidate's first pass: C for both classes, the tree's epsilon, and as samples exactly the visible samples labelled with one of the candidate's two positions. |
| RelaxedTreeMachine.RelaxedTree.TrainRestricted | src/shogun/multiclass/tree/RelaxedTree.cpp:106-117 | The scoped restriction: the SVM is trained once, on the subset and the binary labels restricted to it. Afterwards both the feature store and the binary labels are back to their subsets from before. |
| RelaxedTreeMachine.RelaxedTree.TrainOnSubset | src/shogun/multiclass/tree/RelaxedTree.cpp:91-117 | One pass adds exactly the run `PassRun` of the current `mu`. Afterwards the feature store is back to its subsets from before, and the binary labels the SVM holds have no subset left. The SVM's C and epsilon are not touched. |
| RelaxedTreeMachine.RelaxedTree.OptimisationPass | src/shogun/multiclass/tree/RelaxedTree.cpp:91-134 | One pass adds exactly its run. Afterwards `prev_mu == mu`, the stores are restored, and the loop is told to stop. |
| RelaxedTreeMachine.RelaxedTree.TrainNodeWithInitialization | src/shogun/multiclass/tree/RelaxedTree.cpp:77-138 | It returns a fresh SVM configured with the tree's C for both classes and its epsilon. The SVM is trained exactly once, on the seeded candidate's pass, when `m_max_num_iter >= 1`, and never otherwise. The feature store ends with the subsets it started with. |
| RelaxedTreeMachine.RelaxedTree.TrainCandidates | src/shogun/multiclass/tree/RelaxedTree.cpp:70-74 | There is one fresh machine per candidate, in order. Machine k carries the tree's C and epsilon and was trained on candidate k. The features are restored. |
| RelaxedTreeMachine.RelaxedTree.TrainNode | src/shogun/multiclass/tree/RelaxedTree.cpp:67-75 | The candidates are a ranked prefix of all local pairs. Each gets one node optimisation, in ranked order, trained on its own pass. |
| NodeTraining.NodeSeededPass | src/shogun/multiclass/tree/RelaxedTree.cpp:79-104 | Seeding `mu` through the node's class list makes the pass train on exactly the samples of the node's two candidate classes, labelled -1 for the second and +1 for the first. |
| NodeTraining.RootNodeSeedsAlike | src/shogun/multiclass/tree/RelaxedTree.cpp:79-82 | When the class list is 0, 1, ... (the root), seeding by local positions and seeding through the class list give the same `mu`. |
| NodeTraining.LocalSeedMissesNodeClasses | src/shogun/multiclass/tree/RelaxedTree.cpp:79-99 | For a node of classes 2 and 3, seeding by local positions trains on no sample, while seeding through the class list trains on both samples. |
| Collaborators.RestrictAll | src/shogun/multiclass/tree/RelaxedTree.cpp:108-109 | Restricting to every position in order changes nothing, so a store with no subset shows all its values. |
| Collaborators.RestrictCompose | src/shogun/multiclass/tree/RelaxedTree.cpp:108-109 | Restricting twice equals restricting once to the outer subset read through the inner one. |
| Collaborators.Features.GetNumVectors | src/features/Features.h:48-49 | `get_num_vectors` is the number of vectors while no subset is active, and the size of the active subset otherwise. |
| Collaborators.BinaryLabels.constructor | src/shogun/multiclass/tree/RelaxedTree.cpp:106 | New binary labels hold the given values and no subset. |
| Collaborators.Kernel.Init | src/shogun/multiclass/tree/RelaxedTree.cpp:111 | The kernel is initialised on the given left and right features. |
| Collaborators.LibSVM.constructor | src/shogun/multiclass/tree/RelaxedTree.cpp:84 | A new SVM has no kernel, no labels and no training run. |
| Collaborators.LibSVM.SetC | src/shogun/multiclass/tree/RelaxedTree.cpp:86 | C is set for both classes. |
| Collaborators.LibSVM.SetEpsilon | src/shogun/multiclass/tree/RelaxedTree.cpp:87 | The tolerance is set. |
| Collaborators.LibSVM.SetKernel | src/shogun/multiclass/tree/RelaxedTree.cpp:112 | The SVM uses the given kernel. |
| Collaborators.LibSVM.SetLabels | src/shogun/multiclass/tree/RelaxedTree.cpp:113 | The SVM uses the given labels. |
| Collaborators.Features.AddSubset | src/shogun/multiclass/tree/RelaxedTree.cpp:109 | The subset is pushed, and exactly it is visible afterwards. |
| Collaborators.Features.RemoveSubset | src/shogun/multiclass/tree/RelaxedTree.cpp:117 | The active subset is popped. |
| Collaborators.BinaryLabels.AddSubset | src/shogun/multiclass/tree/RelaxedTree.cpp:108 | The subset is pushed, and the visible labels are the restricted values. |
| Collaborators.BinaryLabels.RemoveSubset | src/shogun/multiclass/tree/RelaxedTree.cpp:116 | The active subset is popped. |
| Collaborators.LibSVM.Train | src/shogun/multiclass/tree/RelaxedTree.cpp:114 | Training records one run: the visible kernel samples, the visible labels, C and epsilon. |

## Left out

- The SVM's training algorithm and the kernel computation are not modelled. They are library code. Training only records what it was given (`TrainingRun`), and a kernel only remembers the features it was initialised on.
- `RelaxedTreeUtil::estimate_confusion_matrix` is not part of this model, since its source is not available. The global confusion matrix is an input to `InitNode` and `TrainNode`, and `TrainMachine` does not compute it, because the code discards it.
- Reference counting (`SG_REF`/`SG_UNREF`), the destructor and the `SG_ADD` parameter registration are left out. They are memory and reflection plumbing with no effect on the node logic.
- `apply_multiclass` is left out. It returns `NULL` unconditionally.
- Scores and epsilon are modelled as `real`. Floating-point rounding is not modelled, and only addition and `<` are used.
- Of `src/features/Features.h`, only `get_num_vectors` is mirrored. It is the count of visible vectors. The subset stack of the feature and label stores is an assumption about library code: a stack of index sequences whose top is the active restriction. Preprocessing, labels on features and saving are not modelled.
- Collaborators.Features.VisibleIndices returns the top subset as it was pushed. With two subsets stacked, that lists positions in the view of the outer subset, not absolute indices; the library composes the two (`RestrictCompose` states what composing means for values). The node logic pushes one subset at a time, and nothing proved depends on this.
- RelaxedTreeMachine.RelaxedTree.TrainMachine returns `false` whenever the three checks pass. The code can still fail after them, inside the confusion estimation: the labels are not multiclass labels (`lab == NULL`, line 58), or `data` is null and no features are stored. Those failures are not modelled.
- The TODO "color label space" at line 122 has no code. No update of `mu` between passes is modelled.
- RelaxedTreeMachine.RelaxedTree.TrainNode requires `|classes| <= numClasses`. The code indexes `mu`, which has `m_num_classes` cells, by local positions, and reads out of bounds otherwise.
- RelaxedTreeMachine.RelaxedTree.TrainNode returns its candidates and machines as ghost values. The code drops each SVM right after training (`SG_UNREF`), so nothing is returned there.
- The 32-bit width of the indices and of `num_entries` is not modelled, and integers are unbounded. The product `n(n-1)` at line 160 is computed in 32 bits before it is halved, so it overflows from n = 46342 classes on. `num_entries` is never read afterwards, so the overflow changes no result.
- RelaxedTreeMachine.RelaxedTree.TrainRestricted and the methods above it promise that the feature store and the binary labels get their subsets back on normal return only. The code has no cleanup around the kernel's `init` and the SVM's `train` (lines 111-117): an error raised by either skips both `remove_subset` calls and leaves both stores restricted. Kernel initialisation and training cannot fail in this model.
- RelaxedTreeMachine.RelaxedTree.ReadyForNodes requires that every sample the features show has a label, and that each label names one of the `m_num_classes` classes. The code reads `mu` out of bounds at line 99 otherwise.

## Findings

| source | as written | input that shows it | evidently intended | confidence | as-written member | corrected member |
|---|---|---|---|---|---|---|
| src/shogun/multiclass/tree/RelaxedTree.cpp:81-82 | `mu` has one cell per class id and is read with class ids (line 99), but it is seeded with the candidate's local positions in the node's class list. | A node of classes 2 and 3 out of four, one sample of each, candidate (0, 1): classes 0 and 1 are marked and no sample is trained on. | Seed `mu[classes[first]] = 1` and `mu[classes[second]] = -1`, so the pass trains on the node's two candidate classes. This agrees with the code at the root, whose class list is 0, 1, .... | medium, not executed | NodeTraining.LocalSeedMissesNodeClasses | NodeTraining.NodeSeededPass |

The methods `SeedMu`, `TrainNodeWithInitialization` and `TrainNode` keep the seeding as written, since they model that code. `NodeMu` is the corrected seeding, `NodeSeededPass` proves what it trains on, and `RootNodeSeedsAlike` shows that the two agree at the root.
