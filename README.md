# thistle: distance metrics and brute-force vector databases

This project is a Dafny model of the parts of thistle that do not depend on the
HNSW graph. thistle is a small Rust vector search library. The model covers
two layers.

- **Discrete metrics** of `src/hnswlib/dist.rs`:
  - the rolling-row Levenshtein distance on `u16` sequences;
  - the Hamming distance, both as a scalar count and as the lane kernel
    `distance_hamming_i32`, with the AVX2/scalar dispatch of
    `Distance<i32>`;
  - the Jaccard fold over (sum of maxima, sum of minima);
  - the integer cosine distance and its zero-norm branch;
  - the lane/tail loop shape of `distance_l1_f32`, modelled over
    integers, with the AVX2/scalar dispatch of `Distance<f32>` for `DistL1`.
- **Brute-force document stores** of `src/database`:
  - `CosineDB` and `EuclideanDB`, which `load` a list of texts and answer
    `query` by scoring, sorting and draining the first `n` documents;
  - the `DB` enum of `db.rs`, with its `new` selector and delegation;
  - the older threshold database of `database_fns.rs`.

Modelling choices:

- Floating-point values are exact `real`s. The square root is a parameter
  of type `Primitives.Root`. The model only relies on it sending 0 to 0 and
  positive numbers to positive numbers. `Similarity.ExactRoot` adds
  exactness for the bound on cosine scores.
- The sentence-embedding model is a parameter `embed: string -> seq<real>`.
- Every `zip` is modelled with its truncation to the shorter input. The
  vectorised kernels index `vb` at every index of `va`, so they require
  `|va| <= |vb|`.
- Lane widths are a parameter `width > 0`. The AVX2 instances use 8 lanes.
- Both back ends call `sort_by`, a stable sort. It is modelled as a stable
  insertion sort, `Ranking.SortByScore`, which produces the same output.
- The `drain(..n)` panic is the result `Ranking.QueryResult.DrainOutOfRange`.
- `db.rs` declares the third field of `Doc` as `similarity`, but the back ends
  build documents with a field `score`. The model calls it `score`.

Differences between what the code does and what one might expect:

- `new` in `db.rs` maps every selector string to an empty cosine back end.
  The `Euclidean` variant of `DB` is commented out (db.rs:13), and `new`
  sends every string other than "Cosine", "Euclidean" included, to its
  catch-all arm, which also builds a cosine back end.
  `Dispatch.New` models this fallback.
- `query` does not truncate when fewer than `n` documents are stored; it
  panics. The model returns `DrainOutOfRange(n, len)` in that case.

## Model

| member | source | states |
|---|---|---|
| Levenshtein.Levenshtein | src/hnswlib/dist.rs:703-747 | the swapped, rolling-row computation returns the recursive edit distance; an empty argument gives the other's length |
| Levenshtein.NextRow | src/hnswlib/dist.rs:729-744 | one outer pass turns the row of `a[..i]` into the row of `a[..i+1]`, entry by entry |
| Levenshtein.NextCell | src/hnswlib/dist.rs:733-743 | one inner pass moves `cur[j+1]` to the new row, keeps the entries not yet reached, and hands back the old value as the next diagonal |
| Levenshtein.Step | src/hnswlib/dist.rs:735-741 | the deletion/insertion/substitution minimum of the three neighbouring cells is the edit distance of the longer prefixes |
| Levenshtein.PrefixDistanceSymmetric | src/hnswlib/dist.rs:707-709 | swapping the arguments swaps deletions and insertions and leaves every prefix distance unchanged |
| Levenshtein.EditDistanceSymmetric | src/hnswlib/dist.rs:707-709 | the distance does not depend on argument order, so the swap is harmless |
| Levenshtein.PrefixDistanceSelf | src/hnswlib/dist.rs:940-944 | a prefix is at distance 0 from itself |
| Levenshtein.PrefixDistanceZero | src/hnswlib/dist.rs:940-944 | distance 0 forces equal lengths and equal prefixes |
| Levenshtein.EditDistanceZeroIffEqual | src/hnswlib/dist.rs:940-944 | distance 0 holds exactly between equal sequences |
| Levenshtein.PrefixesOnly | src/hnswlib/dist.rs:717-745 | a prefix distance depends only on the two prefixes |
| Levenshtein.PrefixPrefixAgree | src/hnswlib/dist.rs:935-939 | sequences sharing a prefix have the same prefix distance as the prefix against itself |
| Levenshtein.LevenshteinEqualExample | src/hnswlib/dist.rs:940-944 | `[1,2,3,4]` against itself gives 0 |
| Levenshtein.LevenshteinSubstitutionExample | src/hnswlib/dist.rs:935-939 | `[1,2,3,4]` against `[1,2,3,3]` gives 1 |
| Levenshtein.RowsOfExample | src/hnswlib/dist.rs:945-949 | `[1,1,1,4]` against `[1,2,3,4]` gives 2 |
| Levenshtein.LevenshteinSwappedExample | src/hnswlib/dist.rs:950-954 | `[1,2,3,4]` against `[1,1,1,4]` also gives 2 |
| Hamming.MismatchesCountPositions | src/hnswlib/dist.rs:594 | the running count equals the number of positions where the zipped elements differ |
| Hamming.HammingCountsDifferingPositions | src/hnswlib/dist.rs:588-599 | Hamming is the size of the set of differing positions below the shorter length, and at most that length |
| Hamming.MismatchesBounded | src/hnswlib/dist.rs:594 | at most `n` of the first `n` pairs differ |
| Hamming.MismatchesSymmetric | src/hnswlib/dist.rs:594 | the count is symmetric and is 0 exactly when the prefixes are equal |
| Hamming.HammingSymmetric | src/hnswlib/dist.rs:588-599 | Hamming is symmetric and is 0 exactly when the zipped prefixes agree |
| Hamming.CompareGroup | src/hnswlib/dist.rs:615-622 | one lane group lowers each lane by 1 exactly where its pair of elements differs, and so lowers the lane total by the number of mismatches in that group |
| Hamming.HammingLanes | src/hnswlib/dist.rs:609-634 | for every length and lane width, the lane kernel plus the residue equals the scalar count |
| Hamming.EvalI32 | src/hnswlib/dist.rs:638-649 | both dispatch branches return the Hamming count, between 0 and the shorter length |
| Chunking.SimdLength | src/hnswlib/dist.rs:104-105 | `simd_length` is at most the length and leaves a residue shorter than one lane group |
| Chunking.SimdLengthIsOffset | src/hnswlib/dist.rs:104-107 | the main loop's bound is where group `len / width` starts |
| Chunking.ChunkVisitsAreRange | src/hnswlib/dist.rs:107-114 | the main loop reads the indices `0 .. simd_length` in order |
| Chunking.VisitsEachIndexOnce | src/hnswlib/dist.rs:104-118 | main loop plus tail read every index below `len` exactly once, in increasing order |
| Chunking.L1UpToSymmetric | src/hnswlib/dist.rs:86 | the partial L1 sums are symmetric |
| Chunking.L1UpToSelf | src/hnswlib/dist.rs:86 | a vector's partial L1 sums against itself are 0 |
| Chunking.L1Symmetric | src/hnswlib/dist.rs:80-90 | L1 is symmetric and vanishes on equal vectors |
| Chunking.L1Example | src/hnswlib/dist.rs:831-838 | `[1,2,3]` against `[2,2,3]` is at distance 1 |
| Chunking.LaneGroup | src/hnswlib/dist.rs:108-111 | one lane group adds the absolute differences of its `width` indices and reads exactly those |
| Chunking.LaneGroups | src/hnswlib/dist.rs:104-114 | the main loop sums the L1 terms of the whole groups and reads their indices in order |
| Chunking.DistanceL1Chunked | src/hnswlib/dist.rs:101-121 | the lane kernel plus tail returns the scalar L1 distance, never negative, reading each index once in order |
| Chunking.EvalL1 | src/hnswlib/dist.rs:132-145 | both dispatch branches return the L1 distance |
| Jaccard.JaccardSums | src/hnswlib/dist.rs:674-679 | the accumulated minima never exceed the accumulated maxima |
| Jaccard.JaccardSumsCharacterised | src/hnswlib/dist.rs:674-679 | the two sums add up to both vectors' totals and differ by their L1 distance |
| Jaccard.MaxSumZero | src/hnswlib/dist.rs:680 | the sum of maxima is 0 exactly when every zipped pair is (0, 0) |
| Jaccard.JaccardSumsSymmetric | src/hnswlib/dist.rs:674-679 | the fold does not depend on argument order |
| Jaccard.JaccardSumsSelf | src/hnswlib/dist.rs:674-679 | on equal vectors the two sums coincide |
| Jaccard.JaccardDistance | src/hnswlib/dist.rs:669-689 | the distance lies in [0, 1] |
| Jaccard.JaccardProperties | src/hnswlib/dist.rs:680-685 | the zero-denominator guard gives 0 on all-zero pairs, and the distance is symmetric |
| Jaccard.JaccardSelfZero | src/hnswlib/dist.rs:680-682 | a vector is at distance 0 from itself |
| Jaccard.JaccardExample | src/hnswlib/dist.rs:923-931 | the test vectors fold to (16, 11) and give `1 - 11/16` |
| CosineDistance.CosineSums | src/hnswlib/dist.rs:236-237 | both sums of squares are non-negative |
| CosineDistance.SquaresVanish | src/hnswlib/dist.rs:236-239 | a sum of squares is 0 exactly when every zipped element is 0 |
| CosineDistance.ZeroNormGivesZero | src/hnswlib/dist.rs:239-244 | an all-zero zipped vector takes the zero branch and gives 0 |
| CosineDistance.CosineSumsSwap | src/hnswlib/dist.rs:236-237 | swapping the vectors swaps the two sums of squares and keeps the dot product |
| CosineDistance.CosineDistanceSymmetric | src/hnswlib/dist.rs:229-250 | the distance does not depend on argument order |
| CosineDistance.CosineSumsSelf | src/hnswlib/dist.rs:236-237 | a vector zipped with itself folds to three equal sums |
| CosineDistance.CosineSelfZero | src/hnswlib/dist.rs:239-240 | with an exact root, a vector with a non-zero element is at distance 0 from itself |
| CosineDistance.SumsAreDots | src/hnswlib/dist.rs:236-237 | the three integer sums, cast to reals, are the dot products of the element-wise cast vectors |
| CosineDistance.SumsCauchySchwarz | src/hnswlib/dist.rs:236-237 | the squared dot sum is at most the product of the two sums of squares |
| CosineDistance.CosineDistanceBounded | src/hnswlib/dist.rs:229-250 | with an exact root, every distance lies in [0, 2]; in particular it is non-negative |
| CosineDistance.CosineExample | src/hnswlib/dist.rs:872-880 | `[1,-1,1]` and `[2,1,-1]` fold to (0, 3, 6) and are at distance 1 |
| Similarity.SelfDotGrows | src/database/cosine_db.rs:49-57 | a self dot product is non-negative, grows along the vector and is positive exactly when a non-zero element was summed |
| Similarity.NormZeroIffZeroVector | src/database/cosine_db.rs:55-57 | a norm is non-negative and is 0 exactly on the zero vector |
| Similarity.DotUpToSymmetric | src/database/cosine_db.rs:49-53 | the dot product is symmetric |
| Similarity.CosineGuard | src/database/cosine_db.rs:38-47 | a zero vector takes the zero branch; otherwise the norm product is positive and the score is the normalised dot product; the score is symmetric |
| Similarity.CrossSquaresExpand | src/database/cosine_db.rs:49-53 | the cross squares expand into the three dot products |
| Similarity.CauchySchwarz | src/database/cosine_db.rs:49-53 | the squared dot product is at most the product of the self dot products |
| Similarity.DotSquareBound | src/database/cosine_db.rs:49-57 | Cauchy-Schwarz holds for the zipped dot product against the full self products |
| Similarity.NormSquared | src/database/cosine_db.rs:55-57 | with an exact root, a squared norm is the self dot product |
| Similarity.NormRatioBounded | src/database/cosine_db.rs:38-47 | a dot product over norms whose squares are the self products lies in [-1, 1] |
| Similarity.CosineBounded | src/database/cosine_db.rs:38-47 | with an exact root, every cosine score lies in [-1, 1] |
| Similarity.CosineSelfOne | src/database/cosine_db.rs:38-47 | with an exact root, a non-zero vector has cosine score 1 with itself |
| Similarity.SquaredDistanceUpTo | src/database/euclidean_db.rs:39-42 | the summed squared differences are non-negative |
| Similarity.SquaredDistanceProperties | src/database/euclidean_db.rs:39-42 | the summed squares are symmetric and positive exactly when some zipped pair differs |
| Similarity.EuclideanProperties | src/database/euclidean_db.rs:38-47 | the distance is non-negative, symmetric and 0 exactly when the zipped prefixes are equal |
| Documents.Embedded | src/database/cosine_db.rs:9-18 | loading yields one document per text, in order, with the text's embedding and score 0 |
| Ranking.InsertPermutes | src/database/cosine_db.rs:32 | inserting adds the document and loses nothing |
| Ranking.InsertOrdered | src/database/cosine_db.rs:32 | inserting into an ordered list keeps it ordered |
| Ranking.SortByScoreSorts | src/database/cosine_db.rs:32 | the sort returns a permutation of its input, in score order |
| Ranking.InsertStable | src/database/cosine_db.rs:32 | the inserted document lands ahead of every document with the same score |
| Ranking.SortByScoreStable | src/database/cosine_db.rs:32 | documents with equal scores keep their input order |
| Ranking.PrefixBeatsRest | src/database/cosine_db.rs:32-34 | in an ordered list nothing after position `n` ranks strictly before anything up to it |
| Ranking.RankIsBestPrefix | src/database/cosine_db.rs:32-34 | sort-then-drain fails exactly when `n` exceeds the candidates; otherwise it returns `n` candidates, in order, drawn from the input, none outranked by a candidate left out |
| CosineBackend.Candidates | src/database/cosine_db.rs:23-30 | the candidate list has one entry per stored document, with its text, its embedding and its cosine score |
| CosineBackend.CosineDB.constructor | src/database/db.rs:23 | a new back end holds no documents |
| CosineBackend.CosineDB.Load | src/database/cosine_db.rs:9-18 | the stored documents are the old ones followed by one document per text, in order, with score 0 |
| CosineBackend.CosineDB.Query | src/database/cosine_db.rs:20-35 | the result is the first `n` candidates sorted best first; it fails exactly when `n` exceeds the stored count; the stored documents are not modified |
| CosineBackend.ResultsAreStored | src/database/cosine_db.rs:23-34 | every returned document is a stored one, with its text and embedding, scored against the query |
| EuclideanBackend.Candidates | src/database/euclidean_db.rs:23-30 | the candidate list has one entry per stored document, with its text, its embedding and its Euclidean distance |
| EuclideanBackend.EuclideanDB.constructor | src/database/euclidean_db.rs:4-6 | a new back end holds no documents |
| EuclideanBackend.EuclideanDB.Load | src/database/euclidean_db.rs:9-18 | the stored documents are the old ones followed by one document per text, in order, with score 0 |
| EuclideanBackend.EuclideanDB.Query | src/database/euclidean_db.rs:20-35 | the result is the first `n` candidates sorted closest first; it fails exactly when `n` exceeds the stored count; the stored documents are not modified |
| EuclideanBackend.ResultsAreStored | src/database/euclidean_db.rs:23-34 | every returned document is a stored one, with its text and embedding, scored against the query |
| Dispatch.New | src/database/db.rs:21-27 | every selector, "Euclidean" included, yields a fresh cosine back end with no documents |
| Dispatch.DB.Load | src/database/db.rs:30-35 | loading through the enum has exactly the wrapped back end's effect |
| Dispatch.DB.Query | src/database/db.rs:37-42 | querying through the enum returns exactly the wrapped back end's answer and changes nothing |
| ThresholdDatabase.DB.Load | src/database/database_fns.rs:23-33 | one document per text, in order, whose `get_text` is that text and whose embedding is the text's |
| ThresholdDatabase.DB.Query | src/database/database_fns.rs:35-47 | the result is the filter of the stored documents by a cosine score strictly above the threshold, in stored order |
| ThresholdDatabase.MatchingMembers | src/database/database_fns.rs:38-45 | a document is returned exactly when it is stored and scores strictly above the threshold; the result is no longer than the store |
| ThresholdDatabase.MatchingAppend | src/database/database_fns.rs:38-45 | the filter distributes over concatenation, so it keeps stored order |
| ThresholdDatabase.MatchingSingle | src/database/database_fns.rs:39-44 | a single document is kept exactly when it scores above the threshold |
| ThresholdDatabase.MatchingIdempotent | src/database/database_fns.rs:35-47 | filtering the result again with the same query and threshold changes nothing |
| ThresholdDatabase.AtThresholdExcluded | src/database/database_fns.rs:39 | a document scoring exactly the threshold is not returned |
| ThresholdDatabase.ZeroEmbeddings | src/database/database_fns.rs:67-76 | an all-zero stored embedding is returned exactly when the threshold is negative; an all-zero query returns all documents or none |
| ThresholdDatabase.ZeroQuery | src/database/database_fns.rs:67-76 | an all-zero query returns every document when the threshold is negative and none otherwise |
| ThresholdDatabase.ResultTextsAreStored | src/database/database_fns.rs:12-16 | every text read back with `get_text` from a result is a stored text |

## Left out

- Floating-point arithmetic. Scores, norms and distances are exact reals. Rounding, NaN and infinities are not modelled.
- `Ranking.SortByScore`: the `partial_cmp(..).unwrap()` panic on a NaN score cannot arise over reals and is not modelled.
- The square root is abstract. `Similarity.CosineBounded`, `Similarity.CosineSelfOne`, `CosineDistance.CosineSelfZero` and `CosineDistance.CosineDistanceBounded` need an exact root (`Similarity.ExactRoot`). A rounded `sqrt` may leave a score just outside [-1, 1], or a distance just below 0 or just off 0 on a vector with itself, since the source has no clamp.
- The embedding model is not part of this model. `get_embedding`, `src/database/embedding.rs` and the BERT model are replaced by the `embed` parameter, taken to depend on the text alone.
- The `println!` debug output of the scoring helpers and of `get_embedding` is not modelled.
- `database_module_uuid` in `database_fns.rs` draws a random identifier and is not modelled.
- CPU feature detection and the SIMD intrinsics are not modelled. Detection is the `hasAvx2` parameter. A lane register is an integer array or a lane loop.
- `Hamming.HammingLanes`, `Chunking.DistanceL1Chunked`: require `|va| <= |vb|`, because the kernels read `vb` at every index of `va`; a shorter `vb` is out of bounds in the source.
- `Chunking.DistanceL1Chunked`: modelled over integers rather than `f32`, so it does not capture rounding or the order in which lanes are added.
- `Hamming.HammingLanes`: the lane counters, their `i32` sum, its negation and the tail count are unbounded integers. The source overflows (a panic in debug builds, wrap-around in release builds) once the total reaches 2^31 mismatches. Its result `dist as f32` (dist.rs:633), like the scalar `count() as f32` (dist.rs:594), is exact only below 2^24.
- `Jaccard.JaccardSums`: the `u32` accumulators are unbounded and do not model overflow; the `as u32` conversion of each element is taken to be exact.
- `CosineDistance.CosineSums`: the element products are unbounded and do not model overflow in the element type before the `as f32` conversion.
- `Levenshtein.Levenshtein`: the result is a `nat`. The source converts it to `f32`, which is exact below 2^24.
- `CosineBackend.CosineDB.Query`, `EuclideanBackend.EuclideanDB.Query`: `n` is a `u32`. The `n as usize` conversion is taken to be exact.
- The other metrics of `dist.rs` are not modelled: L2, Dot, Hellinger, Jeffreys, Jensen-Shannon, `l2_normalize`, and the floating-point cosine. Neither are `DistCFFI`, `DistFn` and `NoDist`.
- The HNSW and LSH back ends (`hnsw_db.rs`, `hnsw_cosine_db.rs`, `lsh_db.rs`) wrap code that is not part of this model.
- The `Operations` trait is not a separate entity. Each back end declares the same `Load` and `Query` methods.
