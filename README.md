# MPRA database core, modelled in Dafny

This project models the core of an MPRA (massively parallel reporter assay)
analysis code base: a small relational query engine over SQLite, and the
feature extractors and bookkeeping steps that feed and read that database.
Each core source file becomes one Dafny module. Functions and lemmas state
what the code computes. Classes with `modifies` clauses stand for the
objects whose fields the code changes in place.

- **Predicates** (`predicates.dfy`, class `DB_Column`). A column object
  collects SQL fragments `name op value`. It checks the type of each
  operand and quotes strings. It combines fragments with `&` (which first
  parenthesises fragments that contain `OR`) and with `|`. `get_sql_str`
  hands the single pending fragment to the builder.
- **Clauses** and **Engine** (`clauses.dfy`, `engine.dfy`, classes
  `Select_to_SQL` and `DB_SQLite`).
  - The builder fields that `select`, `where`, `groupby`, `add_func_to_select`,
    `orderby`, `limit` and `add_table_to_query` set, and that `reset_query`
    clears.
  - The fixed clause order of `get_sql_query`.
  - The join rounds of `add_joins`.
  - `execute_selection`, the materialisers run over fetched rows, and
    `__getitem__`.
- **Catalog** (`catalog.dfy`).
  - The column → tables index and the per-column type check of
    `build_column_lookups`.
  - The adjacency map and the one-edge-per-table-pair store of
    `add_connection`, `get_foriegn_keys` and `update_table_conn`.
  - `get_join`, and the CREATE TABLE text of `new_table`.
- **TableSort** (`tablesort.dfy`). The greedy covering choice: `sort_tables`
  and `filter_tables`.
- **Planner** (`planner.dfy`).
  - How `get_tables` reads a requested column: `fn(col)` becomes `col`.
  - The depth-first `find_path`. Only the start table is excluded. Python's
    recursion limit becomes a fuel bound.
  - The breadth-first, uncalled `find_paths`.
  - `get_tables`, and `check_for_ambiguous_columns`.
- **Materialise** (`materialise.dfy`). `to_list`, `to_dict` and the fill loop
  of `to_numpy` over rows SQLite returns.
- **UmiCount** (`umi.dfy`, `count_unique.py`). The two Hamming-threshold
  clustering passes over sorted UMIs, with the sentinel `Umi('')`.
- **Kmer** (`kmer.dfy`, `kmer_counter.py`). The sliding queue of recently
  recorded k-mers, `batch_kmers`, and the feature rows of `to_db`.
- **OrfFinder** (`orf.dfy`, `orf_finder.py`). The three-frame codon walk that
  opens and closes ORFs, their Kozak windows, `find_orfs` and
  `batch_orfs`.
- **Kozak** (`kozak.dfy`, `kozak.py`). `get_kozak_score`: left padding to 15
  bases, 25 for a wildcard, and otherwise the frequency-matrix entry.
- **CountReads** (`reads.dfy`, `count_reads.py`).
  - SAM alignment lines: the CIGAR string (section 1.4 of the SAM format
    specification) and typed optional fields (section 1.5).
  - The read filter.
  - Unique run ids derived from paths, and `merge_dic`.
- **SampleInfo** (`sampleinfo.dfy`, `add_data.py`). `get_columns` and
  `add_sample_info`: sample, replicate and run ids allocated above the
  stored maxima.
- **MpraDb** (`features.dfy`, `mpra_db.py`).
  - The feature-id allocation of `add_features`.
  - `check_samples`, `add_minumum_reads` and `get_minumum_reads`.
  - The mapping of `get_run_groups`.
- **Selector** (`selector.dfy`, `selector.py`). The sorted reporter-id set
  that each filter narrows, the combination of read filters, and the row
  and column resolution of `sel[rows, names]`.
- **HotEncoded** (`hotencoded.dfy`, `hot_encoded.py`). The position
  renumbering loop of `to_db`.

SQLite is not modelled. What it would report is given as data:
- table column lists;
- foreign-key rows;
- fetched result rows;
- stored maxima and names.

A raised exception becomes an `Err` or `Fail` value carrying the source's
message.

In `to_numpy`, when ids are given explicitly, only their count is used. The
observed ids are then numbered 0, 1, … in the order in which they first
appear in the fetched rows. So rows `(5, 2, v)` with row ids `[5, 9]` give
the lookup `{5: 0}`, not `{5: 0, 9: 1}`. The repository's own description
of this operation promises the second; the model follows the code.

## Model

| member | source | states |
|---|---|---|
| `Kozak.Padded` | src/db_features/kozak.py:24 | the padded sequence is 15 long when the input is shorter (else as long as the input), ends with the input and is `'K'` in front of it |
| `Kozak.Contribution` | src/db_features/kozak.py:26-30 | `'K'` and `'N'` add 25; any other base adds `frequency_matrix[b][i]`, and is a KeyError / IndexError exactly when the base or the position is missing |
| `Kozak.GetKozakScore` | src/db_features/kozak.py:21-32 | returns the score of the padded sequence, `KozakScore` |
| `Kozak.Accumulate` | src/db_features/kozak.py:23-32 | the loop from 0 returns the position-by-position sum, or the first lookup error, `ScoreFrom(p, fm, 0)` |
| `Kozak.ScoreStaysErr` | src/db_features/kozak.py:26-28 | once a lookup raised, the rest of the sequence does not change the result |
| `Kozak.ScoreAppend` | src/db_features/kozak.py:26-30 | the score of a concatenation is the sum of the scores of its halves, each at its own positions |
| `Kozak.WildcardsScore` | src/db_features/kozak.py:29-30 | a run of `'K'`/`'N'` scores 25 per base whatever the matrix |
| `Kozak.ScoreOkIff` | src/db_features/kozak.py:26-30 | the score is defined exactly when every base's contribution is |
| `Kozak.WildcardPrefix` | src/db_features/kozak.py:24-30 | wildcards in front add 25 each and shift the rest of the sequence by their number |
| `Kozak.PaddingScore` | src/db_features/kozak.py:21-32 | a sequence shorter than 15 scores 25 per padding base plus its own bases at positions 15 - len .. 14; a longer one is scored unpadded from 0 |
| `Kozak.PlusAssoc` | src/db_features/kozak.py:23-30 | adding partial scores (first error wins) is associative |
| `Kozak.ScoreFrom` | src/db_features/kozak.py:23-30 | definition of the accumulating loop of `get_kozak_score`; stated by `Kozak.ScoreAppend` and `Kozak.ScoreOkIff` |
| `Kozak.KozakScore` | src/db_features/kozak.py:21-32 | definition of `get_kozak_score`; stated by `Kozak.PaddingScore` |
| `HotEncoded.Fetched` | src/naptrap/db_features/hot_encoded.py:10 | the query keeps exactly the rows whose k-mer is at most `kmax` long |
| `HotEncoded.Kept` | src/naptrap/db_features/hot_encoded.py:17-18 | the loop keeps exactly the rows whose position is not excluded, and no more rows than it got |
| `HotEncoded.Encode` | src/naptrap/db_features/hot_encoded.py:24-26 | the three lists are as long as the kept rows and entry i of each describes kept row i |
| `HotEncoded.EncodeSnoc` | src/naptrap/db_features/hot_encoded.py:24-26 | one more kept row appends one name, one reporter id and one type |
| `HotEncoded.EncodeOfKept` | src/naptrap/db_features/hot_encoded.py:17-26 | what the loop builds over all fetched rows equals the encoding of the kept rows |
| `HotEncoded.Ones` | src/naptrap/db_features/hot_encoded.py:14 | `data` has one 1.0 per fetched row, excluded rows included |
| `HotEncoded.EncodeRows` | src/naptrap/db_features/hot_encoded.py:17-26 | the loop's three lists are `EncodeOf` of the fetched rows |
| `HotEncoded.ToDb` | src/naptrap/db_features/hot_encoded.py:3-29 | raises the `to_list` error (its message paraphrased as "list index out of range :This selector is not valid!") exactly when the query returns no row, as `to_list` does; otherwise the attribute and data rows handed to `add_features` are those of the kept rows zipped with the 1.0 values |
| `HotEncoded.FeatureRows` | src/naptrap/db_features/hot_encoded.py:14-29 | the rows `add_features` reads are one per kept row, with that row's name, type, reporter and value 1.0, in order |
| `HotEncoded.RawPosition` | src/naptrap/db_features/hot_encoded.py:19-24 | without `pos_adjust` the raw position is named |
| `HotEncoded.NoPositionZero` | src/naptrap/db_features/hot_encoded.py:20-22 | with `pos_adjust` and without `pos_0` no name carries position 0 |
| `HotEncoded.RenumberInjective` | src/naptrap/db_features/hot_encoded.py:19-22 | renumbering keeps distinct positions distinct |
| `HotEncoded.NameRoundTrip` | src/naptrap/db_features/hot_encoded.py:24 | the name `'{kmer}_{pos}'` of a k-mer without `_` reads back as that k-mer and position |
| `HotEncoded.NamesDistinct` | src/naptrap/db_features/hot_encoded.py:24 | different (k-mer, position) pairs get different names |
| `Kmer.EmptyQueue` | src/naptrap/db_features/kmer_counter.py:8 | the queue starts with `kmax` empty slots (none for a negative `kmax`) |
| `Kmer.Shift` | src/naptrap/db_features/kmer_counter.py:16 | after the shift slot s holds old slot s + 1 and the last slot is empty; the length is kept, and an empty queue grows to one slot |
| `Kmer.Stored` | src/naptrap/db_features/kmer_counter.py:27-29 | `stored_kmers` holds exactly the k-mers in some slot |
| `Kmer.Unseen` | src/naptrap/db_features/kmer_counter.py:19 | the filtered list holds exactly the offered k-mers that are not stored |
| `Kmer.Record` | src/naptrap/db_features/kmer_counter.py:21-22 | recording keeps the number of slots |
| `Kmer.Offer` | src/naptrap/db_features/kmer_counter.py:14-24 | a call keeps the queue length and, when it returns, appends exactly the unseen k-mers to `all_kmers`, appending nothing when it raises |
| `Kmer.KmerCountsSnoc` | src/naptrap/db_features/kmer_counter.py:32-38 | one more call adds its k-mers, in order, tagged with its call index |
| `Kmer.RecordSlots` | src/naptrap/db_features/kmer_counter.py:21-22 | when every k-mer fits the queue, recording never raises and slot s gains exactly the kept k-mers of length s + 1 |
| `Kmer.FreshWindowed` | src/naptrap/db_features/kmer_counter.py:5-11 | a new counter satisfies the window description of its queue |
| `Kmer.WindowSlot` | src/naptrap/db_features/kmer_counter.py:16-24 | one slot satisfies the window description after a call, given what it held before |
| `Kmer.KeptFits` | src/naptrap/db_features/kmer_counter.py:19 | filtering keeps the lengths within the queue |
| `Kmer.HistoryFits` | src/naptrap/db_features/kmer_counter.py:24 | the history keeps the lengths within the queue |
| `Kmer.SlotAfter` | src/naptrap/db_features/kmer_counter.py:16-24 | slot s after a call holds k exactly when k was recorded |k| - 1 - s calls before the end |
| `Kmer.AllSlotsAfter` | src/naptrap/db_features/kmer_counter.py:16-24 | the same for every slot at once |
| `Kmer.SlotsAfter` | src/naptrap/db_features/kmer_counter.py:16-24 | shifting then recording keeps the window description |
| `Kmer.OfferKeeps` | src/naptrap/db_features/kmer_counter.py:14-24 | a call with fitting k-mers returns and keeps the window description |
| `Kmer.StoredRecent` | src/naptrap/db_features/kmer_counter.py:16-17 | a k-mer stored after the shift was recorded within the previous |k| - 1 calls |
| `Kmer.RecentStored` | src/naptrap/db_features/kmer_counter.py:16-17 | a k-mer recorded within the previous |k| - 1 calls is stored after the shift |
| `Kmer.StoredIff` | src/naptrap/db_features/kmer_counter.py:16-17 | both directions together |
| `Kmer.RunWindowed` | src/naptrap/db_features/kmer_counter.py:14-24 | calls with fitting k-mers never raise, keep the window description and leave one history entry per call |
| `Kmer.RunAll` | src/naptrap/db_features/kmer_counter.py:24 | every call appends exactly one list, holding only k-mers offered at that call |
| `Kmer.RunPrefix` | src/naptrap/db_features/kmer_counter.py:24 | the history after the first m calls is the first m entries of the final history |
| `Kmer.RecordedIff` | src/naptrap/db_features/kmer_counter.py:16-24 | call n records a k-mer of length L exactly when it is offered and was not recorded at calls n - L + 1 .. n - 1 |
| `Kmer.KmerCountsIff` | src/naptrap/db_features/kmer_counter.py:32-38 | `(rid, i, k)` is a count exactly when k was recorded at call i |
| `Kmer.UniqueCounter.constructor` | src/naptrap/db_features/kmer_counter.py:5-11 | a new object has `kmax` empty slots and no history |
| `Kmer.UniqueCounter.AddKmers` | src/naptrap/db_features/kmer_counter.py:14-24 | the new queue, history and outcome are `Offer` of the old state |
| `Kmer.UniqueCounter.GetKmerCounts` | src/naptrap/db_features/kmer_counter.py:31-38 | the nested loop returns `KmerCounts` of the history |
| `Kmer.StopRecording` | src/naptrap/db_features/kmer_counter.py:21-22 | after the IndexError later k-mers change nothing |
| `Kmer.Offers` | src/naptrap/db_features/kmer_counter.py:53-54 | position i offers `min(kmax, seqlen - i)` k-mers, the j-th being `seq[i:i+j+1]` |
| `Kmer.Scan` | src/naptrap/db_features/kmer_counter.py:52-55 | one offer list per position |
| `Kmer.RunEmptyCalls` | src/naptrap/db_features/kmer_counter.py:14-24 | with nothing offered no call raises |
| `Kmer.ScanFits` | src/naptrap/db_features/kmer_counter.py:53-54 | every offered k-mer is 1 .. `kmax` long |
| `Kmer.ReporterNeverRaises` | src/naptrap/db_features/kmer_counter.py:48-57 | scanning one reporter never raises |
| `Kmer.OffersMember` | src/naptrap/db_features/kmer_counter.py:53-54 | an offered k-mer k is `seq[i:i+len(k)]` with `1 <= len(k) <= kmax` |
| `Kmer.ReporterRowsSound` | src/naptrap/db_features/kmer_counter.py:48-57 | every `(rid, i, k)` of a reporter has `seq[i:i+len(k)] == k` and `1 <= len(k) <= kmax` |
| `Kmer.BatchRowsSound` | src/naptrap/db_features/kmer_counter.py:44-60 | every triple of the batch is found in its reporter's sequence at its position |
| `Kmer.BatchSpec` | src/naptrap/db_features/kmer_counter.py:44-60 | `batch_kmers` raises (unbound `ucounter`) exactly on an empty reporter list; otherwise it returns the three column names and only sound triples |
| `Kmer.RunStep` | src/naptrap/db_features/kmer_counter.py:52-55 | one more call extends the run by `Offer` |
| `Kmer.ScanReporter` | src/naptrap/db_features/kmer_counter.py:49-57 | the inner loop returns `ReporterRows` of the reporter |
| `Kmer.BatchKmers` | src/naptrap/db_features/kmer_counter.py:44-60 | the outer loop returns `Batch` of the reporters |
| `Kmer.KmerFeatures` | src/naptrap/db_features/kmer_counter.py:81-90 | one feature per grouped row, in order, named `'{kmer}_count'`, typed `'count_{len}mer'`, with that row's reporter and count |
| `Kmer.Run` | src/naptrap/db_features/kmer_counter.py:14-24 | definition of a counter after a series of `add_kmers` calls; stated by `Kmer.RunWindowed` and `Kmer.RecordedIff` |
| `Kmer.KmerCounts` | src/naptrap/db_features/kmer_counter.py:32-38 | definition of `get_kmer_counts`; stated by `Kmer.KmerCountsIff` |
| `Kmer.Batch` | src/naptrap/db_features/kmer_counter.py:44-60 | definition of `batch_kmers`; stated by `Kmer.BatchSpec` and `Kmer.BatchRowsSound` |
| `UmiCount.MismatchCount` | src/naptrap/preprocessing/count_unique.py:36-44 | at most one mismatch per compared pair |
| `UmiCount.Mismatches` | src/naptrap/preprocessing/count_unique.py:36 | `zip` compares only the shorter length, so there are at most that many mismatches and none against `''` |
| `UmiCount.MismatchGrows` | src/naptrap/preprocessing/count_unique.py:36-44 | the mismatch count never falls as the scan goes on |
| `UmiCount.Hd` | src/naptrap/preprocessing/count_unique.py:32-46 | `hd` is False exactly when there are more than `thres + 1` mismatches over `zip(x, y)` |
| `UmiCount.Remove` | src/naptrap/preprocessing/count_unique.py:59-64 | `pop(k, None)` removes exactly k, does nothing when k is absent, keeps the keys distinct and removes one key when k is present |
| `UmiCount.InsertBy` | src/naptrap/preprocessing/count_unique.py:27-29 | inserting keeps the multiset of keys plus the new one |
| `UmiCount.SortBy` | src/naptrap/preprocessing/count_unique.py:27-29 | sorting keeps the multiset of keys |
| `UmiCount.InsertBySorted` | src/naptrap/preprocessing/count_unique.py:27-29 | inserting into a sorted list keeps it sorted on the key |
| `UmiCount.SortBySorted` | src/naptrap/preprocessing/count_unique.py:27-29 | the result is sorted on `seq` or on `seq[::-1]` |
| `UmiCount.InsertByDistinct` | src/naptrap/preprocessing/count_unique.py:27-29 | inserting a new key keeps the keys distinct |
| `UmiCount.NoDuplicatesCons` | src/naptrap/preprocessing/count_unique.py:27-29 | a new key in front keeps the keys distinct |
| `UmiCount.SortByDistinct` | src/naptrap/preprocessing/count_unique.py:27-29 | sorting distinct keys keeps them distinct |
| `UmiCount.SortByPermutes` | src/naptrap/preprocessing/count_unique.py:27-29 | `sorted` is a permutation, sorted on the key, and keeps distinct keys distinct |
| `UmiCount.SumSnoc` | src/naptrap/preprocessing/count_unique.py:18-23 | the reads of one more key add its count |
| `UmiCount.SumUpdate` | src/naptrap/preprocessing/count_unique.py:57-64 | changing one Umi's count changes the reads by the difference, or not at all when it is not a key |
| `UmiCount.SumRemove` | src/naptrap/preprocessing/count_unique.py:59-64 | popping a key removes its reads |
| `UmiCount.SumMerge` | src/naptrap/preprocessing/count_unique.py:57-64 | merging one Umi into another and popping it keeps the reads |
| `UmiCount.TallySpec` | src/naptrap/preprocessing/count_unique.py:16-23 | before clustering the keys are the distinct sequences in first-seen order, each Umi's `read_count` is its number of occurrences, and the reads add up to the list length |
| `UmiCount.TallyKeys` | src/naptrap/preprocessing/count_unique.py:18-23 | one more sequence keeps the keys the distinct sequences so far |
| `UmiCount.TallyCounts` | src/naptrap/preprocessing/count_unique.py:19-22 | one more sequence keeps each count its number of occurrences |
| `UmiCount.TallySum` | src/naptrap/preprocessing/count_unique.py:19-22 | one more sequence adds one read |
| `UmiCount.StepSetup` | src/naptrap/preprocessing/count_unique.py:53 | the current element of a pass is still a key and differs from later elements and from the representative |
| `UmiCount.StepOfSentinel` | src/naptrap/preprocessing/count_unique.py:55-60 | from the sentinel the first element absorbs it, gains one read and becomes the representative |
| `UmiCount.StepFromSentinel` | src/naptrap/preprocessing/count_unique.py:55-60 | the step from the sentinel keeps the pass invariant |
| `UmiCount.StepWhenAbsorbs` | src/naptrap/preprocessing/count_unique.py:57-60 | a near element with at least the representative's count absorbs it, pops it and becomes the representative |
| `UmiCount.StepWhenAbsorbed` | src/naptrap/preprocessing/count_unique.py:62-64 | a near element with fewer reads is absorbed and popped; the representative stays |
| `UmiCount.MergeKeeps` | src/naptrap/preprocessing/count_unique.py:57-64 | a merge keeps the pass invariant |
| `UmiCount.StepFar` | src/naptrap/preprocessing/count_unique.py:55 | an element too far from the representative changes nothing |
| `UmiCount.StepNear` | src/naptrap/preprocessing/count_unique.py:55-64 | an element near the representative keeps the pass invariant |
| `UmiCount.StepInv` | src/naptrap/preprocessing/count_unique.py:53-64 | every step keeps the pass invariant |
| `UmiCount.PassFacts` | src/naptrap/preprocessing/count_unique.py:49-64 | the pass invariant holds after every prefix of the sorted list |
| `UmiCount.PassOver` | src/naptrap/preprocessing/count_unique.py:49-64 | a pass only deletes keys, keeps one when there was one, and adds the sentinel's one read to the total |
| `UmiCount.ClusteredSubset` | src/naptrap/preprocessing/count_unique.py:49-68 | the surviving keys are distinct input sequences, so `total_count` is at most the number of distinct inputs |
| `UmiCount.ClusteredCounts` | src/naptrap/preprocessing/count_unique.py:27-64 | a non-empty input keeps `total_count >= 1`, and the survivors hold every read plus one per pass from the sentinel; corrected this holds for every input, as written for inputs without `''` |
| `UmiCount.FirstAbsorbsSentinel` | src/naptrap/preprocessing/count_unique.py:51-60 | the first element of a pass matches the sentinel, gains its one read and becomes the representative |
| `UmiCount.EmptyUmiLost` | src/naptrap/preprocessing/count_unique.py:51-59 | as written the input `['']` loses its only Umi (`total_count` 0); without the sentinel's pop it keeps it |
| `UmiCount.UmiCounter.constructor` | src/naptrap/preprocessing/count_unique.py:11-30 | the object's Umis are the tally followed by the forward and the reversed pass, as written or with the corrected sentinel merge |
| `UmiCount.UmiCounter.Tally` | src/naptrap/preprocessing/count_unique.py:16-23 | the counting loop leaves `TallyOf(seq_list)` |
| `UmiCount.UmiCounter.ClusterUmi` | src/naptrap/preprocessing/count_unique.py:49-64 | the pass leaves the keys and counts of `RunPass` |
| `UmiCount.UmiCounter.Merge` | src/naptrap/preprocessing/count_unique.py:55-64 | one element changes the representative, keys and counts as `Step` says |
| `UmiCount.Step` | src/naptrap/preprocessing/count_unique.py:55-64 | definition of one element of `cluster_umi`; stated by `UmiCount.StepNear`, `UmiCount.StepFar` and `UmiCount.StepInv` |
| `UmiCount.RunPass` | src/naptrap/preprocessing/count_unique.py:49-64 | definition of `cluster_umi`; stated by `UmiCount.PassFacts` and `UmiCount.PassOver` |
| `UmiCount.Clustered` | src/naptrap/preprocessing/count_unique.py:11-30 | definition of what `__init__` leaves; stated by `UmiCount.ClusteredCounts` and `UmiCount.ClusteredSubset` |
| `OrfFinder.WithScores` | src/mpradb/db_features/orf_finder.py:38-44 | `add_kozak_score` appends one `kozak_score_<id>` to `orf_ids` per lookup entry in lookup order, sets that score and changes nothing else |
| `OrfFinder.StatsOf` | src/mpradb/db_features/orf_finder.py:46-48 | `orf_stats` has one value per entry of `orf_ids` |
| `OrfFinder.FrameOf` | src/mpradb/db_features/orf_finder.py:59-60 | the frame is 0, 1 or 2 |
| `OrfFinder.FrameIsOffset` | src/mpradb/db_features/orf_finder.py:59-60 | the frame at n is `(n - main_orf_start) mod 3` |
| `OrfFinder.AdvanceAll` | src/mpradb/db_features/orf_finder.py:70-77 | the inner loop treats every ORF of the frame with the same codon, and only it |
| `OrfFinder.ScanTo` | src/mpradb/db_features/orf_finder.py:55-82 | the walk always holds three frame lists |
| `OrfFinder.AddKozakScore` | src/mpradb/db_features/orf_finder.py:38-44 | the loop over the lookup returns `WithScores` |
| `OrfFinder.ScoresStayErr` | src/mpradb/db_features/orf_finder.py:40-44 | once a score raised, the rest of the lookup does not change the error |
| `OrfFinder.AdvanceFrame` | src/mpradb/db_features/orf_finder.py:70-77 | the loop over one frame's ORFs returns `AdvanceAll` |
| `OrfFinder.ScanStays` | src/mpradb/db_features/orf_finder.py:66-67 | after the `break` later positions change nothing |
| `OrfFinder.Walk` | src/mpradb/db_features/orf_finder.py:59-82 | one iteration returns `StepAt` |
| `OrfFinder.FindOrfs` | src/mpradb/db_features/orf_finder.py:52-85 | `find_orfs` returns `FindOrfsOf` |
| `OrfFinder.ScanNext` | src/mpradb/db_features/orf_finder.py:58-82 | a walk not yet stopped takes one more `StepAt` |
| `OrfFinder.ScanEndsAt` | src/mpradb/db_features/orf_finder.py:66-67 | a walk that fails or stops at n gives the result of `find_orfs` |
| `OrfFinder.AnchoredKept` | src/mpradb/db_features/orf_finder.py:21-34 | codons and completion leave the start, frame, ids, scores and Kozak window as they were |
| `OrfFinder.SameFrame` | src/mpradb/db_features/orf_finder.py:59-60 | two positions share a frame exactly when they are a multiple of 3 apart |
| `OrfFinder.ClosedWhenNoneOpen` | src/mpradb/db_features/orf_finder.py:64 | a frame's status sum is never negative, is 0 exactly when every ORF is closed, and positive exactly when one is open |
| `OrfFinder.SpanAppend` | src/mpradb/db_features/orf_finder.py:23 | adjacent slices concatenate |
| `OrfFinder.ThreeMore` | src/mpradb/db_features/orf_finder.py:24 | one more codon keeps the distance from the start a multiple of 3 |
| `OrfFinder.NextCodon` | src/mpradb/db_features/orf_finder.py:69-73 | the codon an open ORF of the current frame takes lies just past its stop |
| `OrfFinder.BasesGrow` | src/mpradb/db_features/orf_finder.py:21-24 | a codon added keeps the bases the span from the start to the end of the last codon |
| `OrfFinder.OpenFacts` | src/mpradb/db_features/orf_finder.py:69-73 | an open ORF of the current frame is at its next codon and keeps its span after taking it |
| `OrfFinder.AdvanceOk` | src/mpradb/db_features/orf_finder.py:70-77 | an ORF of the current frame keeps the ORF invariant across the codon at n |
| `OrfFinder.CompleteOk` | src/mpradb/db_features/orf_finder.py:26-34 | a stop codon closes an open ORF with type `'uorf'` before the main start and `'oorf'` after, length `len(seq)`, and a uorf's frame type `'all'`; that stop is the first in-frame one after the start |
| `OrfFinder.GrowOk` | src/mpradb/db_features/orf_finder.py:21-24 | any other codon is appended and the ORF stays open, still with no in-frame stop after its start |
| `OrfFinder.OtherOk` | src/mpradb/db_features/orf_finder.py:69-70 | an ORF of another frame is left alone |
| `OrfFinder.LaterOk` | src/mpradb/db_features/orf_finder.py:71 | a closed ORF is never extended |
| `OrfFinder.SliceOfSlice` | src/mpradb/db_features/orf_finder.py:10 | a slice of a slice is a slice of the sequence |
| `OrfFinder.WindowOk` | src/mpradb/db_features/orf_finder.py:80-81 | the start codon of a new ORF is the codon at n with the corrected window or from position 9 on, and empty as written before 9 in a sequence of 15 or more |
| `OrfFinder.OpenedOk` | src/mpradb/db_features/orf_finder.py:7-19 | a new ORF starts open at n in the frame of n, with `stop == start`, `in_frame` exactly for frame 0, and one score per lookup entry |
| `OrfFinder.Advanced` | src/mpradb/db_features/orf_finder.py:69-77 | advancing keeps three frame lists |
| `OrfFinder.ElementOk` | src/mpradb/db_features/orf_finder.py:69-77 | every ORF keeps the ORF invariant across position n |
| `OrfFinder.AdvancedStarts` | src/mpradb/db_features/orf_finder.py:69-77 | advancing moves no start and keeps each frame's length |
| `OrfFinder.AdvancedOk` | src/mpradb/db_features/orf_finder.py:69-77 | advancing keeps the walk invariant and every start below n |
| `OrfFinder.AppendedOk` | src/mpradb/db_features/orf_finder.py:80-82 | appending a later-starting ORF keeps the walk invariant |
| `OrfFinder.StepOk` | src/mpradb/db_features/orf_finder.py:59-82 | one position keeps the walk invariant |
| `OrfFinder.StepOpens` | src/mpradb/db_features/orf_finder.py:80-82 | a start codon before the main start appends, after the frame's ORFs were processed, an ORF starting after all of them |
| `OrfFinder.AdvancedBelow` | src/mpradb/db_features/orf_finder.py:69-77 | every advanced ORF still starts before n |
| `OrfFinder.StepAtShape` | src/mpradb/db_features/orf_finder.py:69-82 | a step that goes on first advances the current frame, then appends a new ORF exactly on a start codon before the main start |
| `OrfFinder.StoppedOk` | src/mpradb/db_features/orf_finder.py:64-67 | with no ORF open the lists stay as they are |
| `OrfFinder.StepStops` | src/mpradb/db_features/orf_finder.py:64-67 | the walk stops only when no ORF is open, leaving its lists alone |
| `OrfFinder.NextOk` | src/mpradb/db_features/orf_finder.py:58-82 | the scan invariant survives one position |
| `OrfFinder.ScanOk` | src/mpradb/db_features/orf_finder.py:58-82 | the walk never fails before the end and keeps the scan invariant after every prefix |
| `OrfFinder.Locate` | src/mpradb/db_features/orf_finder.py:85 | where entry k of the flattened list comes from |
| `OrfFinder.FlatOk` | src/mpradb/db_features/orf_finder.py:85 | the flattened list keeps the invariant and is grouped by frame in start order |
| `OrfFinder.FindOrfsSound` | src/mpradb/db_features/orf_finder.py:52-85 | every ORF returned keeps the ORF invariant, and they come by frame 0, 1, 2, each frame in creation (start) order; a closed ORF ends on a stop codon with no in-frame stop between its start and that stop, and an open one has no in-frame stop after its start |
| `OrfFinder.OrfSpan` | src/mpradb/db_features/orf_finder.py:10-32 | with the corrected window (or a start at 9 or later) the start codon is the codon at the start, `seq` is the span and a closed ORF has `len(seq) == stop - start + 3` and ends on TAA/TAG/TGA |
| `OrfFinder.OrfSpanAsWritten` | src/mpradb/db_features/orf_finder.py:10-15 | as written a start before 9 of a sequence of 15 or more gets an empty window: no start codon, the first codon missing and a length 3 short |
| `OrfFinder.KozakWindowExample` | src/mpradb/db_features/orf_finder.py:80-82 | an instance: `ATG` at 0 opens an ORF with empty start codon and Kozak window as written, and start codon `ATG` corrected |
| `OrfFinder.Columns` | src/mpradb/db_features/orf_finder.py:99 | one column per id, prefixed by `orf_` except `reporter_id` |
| `OrfFinder.OrfsReady` | src/mpradb/db_features/orf_finder.py:95-97 | every ORF of a batch has the base ids, one score per lookup entry, and a type and length exactly when closed |
| `OrfFinder.StatsOkIff` | src/mpradb/db_features/orf_finder.py:46-48 | `orf_stats` succeeds exactly when every attribute can be read |
| `OrfFinder.StatsOkWhenClosed` | src/mpradb/db_features/orf_finder.py:26-48 | an ORF's stats can be read exactly when it is closed (an open one has no `type` or `length`) |
| `OrfFinder.StatRowsOk` | src/mpradb/db_features/orf_finder.py:100 | the stats rows exist exactly when every ORF is closed, one row per ORF with one value per column |
| `OrfFinder.BaseColumns` | src/mpradb/db_features/orf_finder.py:18-99 | `reporter_id` keeps its name and the nine other base ids get the `orf_` prefix |
| `OrfFinder.BatchOfSpec` | src/mpradb/db_features/orf_finder.py:99-102 | the end of `batch_orfs` raises on an empty batch or an open ORF; otherwise its columns are `reporter_id`, the prefixed ids and one `orf_kozak_score_<id>` per lookup entry, with one full row per ORF |
| `OrfFinder.ColumnsOfIds` | src/mpradb/db_features/orf_finder.py:99 | the columns of the ids every ORF carries |
| `OrfFinder.BatchOrfsSpec` | src/mpradb/db_features/orf_finder.py:90-102 | `batch_orfs` succeeds exactly when `int(float(main_orf_start))` is defined, every scan succeeds and the batch does, and then returns the batch of the ORFs found |
| `OrfFinder.SameStart` | src/mpradb/db_features/orf_finder.py:93 | two stored main-start texts that truncate to the same integer give the same batch |
| `OrfFinder.FractionalMainStart` | src/mpradb/db_features/orf_finder.py:93 | a stored main start of "10.5" or "10.0" is truncated and gives the batch of "10" |
| `OrfFinder.CollectOrfs` | src/mpradb/db_features/orf_finder.py:95-97 | the loop returns the ORFs of every reporter, scanned on the adaptor-wrapped sequence with the main start offset by `len(upstream) + len(seq)`, with the Kozak window as written or corrected |
| `OrfFinder.OrfsStayErr` | src/mpradb/db_features/orf_finder.py:95-97 | once a scan raised, later reporters do not change the error |
| `OrfFinder.BatchOrfs` | src/mpradb/db_features/orf_finder.py:90-102 | the method returns `BatchOrfsOf`: the main start read as a float and truncated, with the Kozak window as written (`corrected` false) or corrected |
| `OrfFinder.ColumnsOf` | src/mpradb/db_features/orf_finder.py:99 | the comprehension returns `Columns` |
| `OrfFinder.WindowExampleOpen` | src/mpradb/db_features/orf_finder.py:80-82 | in `ATGTAACCCCCCCCC` with the main start at 15, the ATG at 0 opens an ORF in frame 0 whose start codon and Kozak window are empty as written and `ATG`, `ATGTAA` corrected |
| `OrfFinder.IdleStep` | src/mpradb/db_features/orf_finder.py:64-82 | a position whose frame has nothing open and whose codon is no start, while some ORF is open or the main start is ahead, changes nothing |
| `OrfFinder.WindowExampleIdle` | src/mpradb/db_features/orf_finder.py:64-82 | positions 1 and 2 of the example leave the walk as it was |
| `OrfFinder.WindowExampleClose` | src/mpradb/db_features/orf_finder.py:69-77 | the TAA at 3 closes the open ORF as a uorf |
| `OrfFinder.WindowExampleRun` | src/mpradb/db_features/orf_finder.py:58-82 | with no T from 5 to 13, positions 4 to 12 change nothing |
| `OrfFinder.WindowExampleNoT` | src/mpradb/db_features/orf_finder.py:58 | the example holds no T from 5 to 13 |
| `OrfFinder.WindowExampleIdleAt` | src/mpradb/db_features/orf_finder.py:64-82 | one position of that run changes nothing |
| `OrfFinder.WindowExampleEnded` | src/mpradb/db_features/orf_finder.py:64-85 | from 13 nothing is open and the walk returns the one closed ORF |
| `OrfFinder.WindowExampleFind` | src/mpradb/db_features/orf_finder.py:52-85 | `find_orfs` on the example returns exactly the ORF at 0 closed by TAA |
| `OrfFinder.WindowExampleReporter` | src/mpradb/db_features/orf_finder.py:95-96 | a reporter without adaptors and main start 0 is scanned on its own sequence with the main start at its length |
| `OrfFinder.WindowExampleOrfs` | src/mpradb/db_features/orf_finder.py:95-97 | the batch's ORFs for that one reporter are the one ORF at 0 |
| `OrfFinder.StatsValues` | src/mpradb/db_features/orf_finder.py:46-48 | entry k of `orf_stats` is the attribute named by id k |
| `OrfFinder.BaseStats` | src/mpradb/db_features/orf_finder.py:46-48 | a closed ORF's stats over the base ids are its ten attributes in order |
| `OrfFinder.WindowExampleStats` | src/mpradb/db_features/orf_finder.py:26-48 | the example's row: start codon, Kozak window, seq and length `''`, `''`, `TAA`, 3 as written, `ATG`, `ATGTAA`, `ATGTAA`, 6 corrected |
| `OrfFinder.BatchWindowExample` | src/mpradb/db_features/orf_finder.py:90-102 | `batch_orfs` on that reporter returns one uorf row with those four values: wrong as written, right corrected |
| `OrfFinder.Advance` | src/mpradb/db_features/orf_finder.py:69-77 | definition of what the inner loop does to one ORF: a closed one is kept, a stop codon completes an open one, any other codon is appended; stated by `OrfFinder.AdvanceOk` |
| `OrfFinder.KozakFrom` | src/mpradb/db_features/orf_finder.py:80-81 | definition of the first index of the Kozak window: `n - 9` as written, clipped at 0 corrected; stated by `OrfFinder.WindowOk` |
| `OrfFinder.Opened` | src/mpradb/db_features/orf_finder.py:80-82 | definition of the ORF a start codon opens; stated by `OrfFinder.OpenedOk` and `OrfFinder.WindowOk` |
| `OrfFinder.StepAt` | src/mpradb/db_features/orf_finder.py:59-82 | definition of one position of the walk; stated by `OrfFinder.StepAtShape` and `OrfFinder.StepOk` |
| `OrfFinder.FindOrfsOf` | src/mpradb/db_features/orf_finder.py:52-85 | definition of `find_orfs`; stated by `OrfFinder.FindOrfsSound` and `OrfFinder.OrfSpan` |
| `OrfFinder.ReporterScan` | src/mpradb/db_features/orf_finder.py:95-96 | definition of the scan of one reporter: the adaptor-wrapped sequence, the main start after the upstream adaptor and the sequence, ATG as start codon, and the Kozak window as written or corrected |
| `OrfFinder.OrfsOf` | src/mpradb/db_features/orf_finder.py:95-97 | definition of the ORFs of all reporters in order; stated by `OrfFinder.OrfsReady` |
| `OrfFinder.BatchOf` | src/mpradb/db_features/orf_finder.py:99-102 | definition of the end of `batch_orfs`; stated by `OrfFinder.BatchOfSpec` |
| `OrfFinder.BatchOrfsOf` | src/mpradb/db_features/orf_finder.py:90-102 | definition of `batch_orfs`, the main start read as `int(float(v))`; stated by `OrfFinder.BatchOrfsSpec` and `OrfFinder.BatchWindowExample` |
| `CountReads.CigarToken` | src/naptrap_scripts/count_reads.py:52-60 | the digits of one CIGAR operation are skipped and its operation character consumed; an `M` adds the integer of its digits and nothing else changes |
| `CountReads.CigarRoundTrip` | src/naptrap_scripts/count_reads.py:46-60 | reading the CIGAR string of any list of operations succeeds with exactly the total length of its `M` operations |
| `CountReads.CigarOfRender` | src/naptrap_scripts/count_reads.py:46-60 | `read_cigar` of a rendered CIGAR string counts the `M` lengths, starting from zero |
| `CountReads.CigarEndsWithOp` | src/naptrap_scripts/count_reads.py:52-53 | a CIGAR string is read only when it is empty or ends in an operation character; `*` and trailing digits raise IndexError |
| `CountReads.CigarMatches` | src/naptrap_scripts/count_reads.py:46-60 | the `while` loop computes the recursive CIGAR reader, its IndexError and ValueError included |
| `CountReads.TagRoundTrip` | src/naptrap_scripts/count_reads.py:63-76 | a well-formed `key:type:value` field is set exactly when its key names a writable slot (an optional-field slot or a mandatory field's slot), and then sets exactly that slot to the typed value |
| `CountReads.IntTag` | src/naptrap_scripts/count_reads.py:73-74 | an `i` tag holding the decimal digits of n is the integer n |
| `CountReads.ApplyTag` | src/naptrap_scripts/count_reads.py:65-76 | one step of `add_tags` computes `SetTag`: `setattr` overwrites any writable slot, mandatory fields included, and raises for the read-only `edit_distance`/`min_matches` and for a name with no slot |
| `CountReads.ApplyTags` | src/naptrap_scripts/count_reads.py:63-76 | the loop of `add_tags` computes the fold of `SetTag` over all fields, overwriting slots in order and stopping at the first error |
| `CountReads.TagsStayErr` | src/naptrap_scripts/count_reads.py:63-76 | once a tag fails, the later tags do not matter: the error is the result |
| `CountReads.JoinAbsent` | src/naptrap_scripts/count_reads.py:26 | a character in neither the separator nor any field is absent from the joined line |
| `CountReads.ParseReadRoundTrip` | src/naptrap_scripts/count_reads.py:25-44 | a SAM line built from a read id `id#umi`, decimal flags, a CIGAR string and optional fields that leave `cigar_str` alone parses back into exactly those fields, with the `M` total as matches |
| `CountReads.ParseReadSlots` | src/naptrap_scripts/count_reads.py:25-60 | after `add_read`, `matches` and `read_full` hold what `add_read` assigned last, and `matches` is the `M` total of the CIGAR string the `cigar_str` slot ends up holding, an optional field's included |
| `CountReads.LastTagWins` | src/naptrap_scripts/count_reads.py:25-44 | when the last optional field names a mandatory field's slot, that slot holds the field's typed value instead of the line's (`flags:i:3` makes the flags 3) |
| `CountReads.PassedSpec` | src/naptrap_scripts/count_reads.py:78-83 | in the model `read_passed` has a value exactly when NM is set to a number (integer or float), and is True exactly when NM is below the edit distance and matches exceed the minimum; without NM, or with a string NM, it raises |
| `CountReads.FloatNmCompares` | src/naptrap_scripts/count_reads.py:80 | a float NM of 1.5 lets an edit distance of 2 pass and stops one of 1 |
| `CountReads.AlignedRead.constructor` | src/naptrap_scripts/count_reads.py:21-23 | a new read is not full, has no tags and keeps the two thresholds |
| `CountReads.AlignedRead.AddRead` | src/naptrap_scripts/count_reads.py:25-44 | on a parsable line the read becomes `ParseRead` of the line, optional fields overwriting slots, and is full; on an error the error is returned and the model keeps the read as it was |
| `CountReads.AlignedRead.ReadPassed` | src/naptrap_scripts/count_reads.py:78-83 | the method returns the pass test `PassedOf` of the current read, a float NM compared by value |
| `CountReads.RunIdsAt` | src/naptrap_scripts/count_reads.py:267 | the components at one index exist exactly when every path has one there, one per path, in path order |
| `CountReads.Pairs` | src/naptrap_scripts/count_reads.py:272 | `zip` pairs each path with its run id, position by position |
| `CountReads.ElementsCount` | src/naptrap_scripts/count_reads.py:269 | the set of ids is as large as the list exactly when the list has no duplicates |
| `CountReads.UniqueRunIdsSpec` | src/naptrap_scripts/count_reads.py:264-274 | the run ids are paired with the paths in order, are pairwise distinct components at one index d, and every index between d and the starting one had duplicates |
| `CountReads.RepeatedPathFails` | src/naptrap_scripts/count_reads.py:264-274 | a path listed twice never gets unique run ids: the walk runs out of components and fails |
| `CountReads.MergedSpec` | src/naptrap_scripts/count_reads.py:254-261 | the merged keys are exactly the sample names, each mapped to the dictionary of its last occurrence |
| `CountReads.MergeDic` | src/naptrap_scripts/count_reads.py:254-261 | the loop of `merge_dic` computes the merged dictionary |
| `CountReads.CigarFrom` | src/naptrap_scripts/count_reads.py:46-60 | definition of the loop of `read_cigar`; stated by `CountReads.CigarRoundTrip` and `CountReads.CigarOfRender` |
| `CountReads.Typed` | src/naptrap_scripts/count_reads.py:71-74 | definition of the typed value of an optional field: `float(v)` for `f` and `int(v)` for `i`, each with its ValueError, the text otherwise; stated by `CountReads.TagRoundTrip` and `CountReads.IntTag` |
| `CountReads.SetTag` | src/naptrap_scripts/count_reads.py:76 | definition of `setattr`: a slot or field is overwritten, the class thresholds are read-only and any other name raises; stated by `CountReads.TagRoundTrip` |
| `CountReads.AddTags` | src/naptrap_scripts/count_reads.py:63-76 | definition of `add_tags`: the fields in order, the first failing one raising; stated by `CountReads.ApplyTags`, `CountReads.AddTagsKeys` and `CountReads.LastTagWins` |
| `CountReads.ParseRead` | src/naptrap_scripts/count_reads.py:25-44 | definition of `add_read`; stated by `CountReads.ParseReadRoundTrip`, `CountReads.ParseReadSlots` and `CountReads.LastTagWins` |
| `CountReads.FinishRead` | src/naptrap_scripts/count_reads.py:41-44 | definition of the end of `add_read`: `matches` from the `cigar_str` slot and the bookkeeping slots set; stated by `CountReads.FinishSlots` and `CountReads.ParseReadSlots` |
| `CountReads.PassedOf` | src/naptrap_scripts/count_reads.py:78-83 | definition of `read_passed`; stated by `CountReads.PassedSpec` and `CountReads.FloatNmCompares` |
| `CountReads.UniqueRunIds` | src/naptrap_scripts/count_reads.py:264-274 | definition of `get_unique_run_ids`; stated by `CountReads.UniqueRunIdsSpec` |
| `CountReads.Merged` | src/naptrap_scripts/count_reads.py:254-261 | definition of `merge_dic`; stated by `CountReads.MergedSpec` |
| `SampleInfo.Columns` | src/db_data/add_data.py:6-15 | `get_columns` succeeds exactly when the dictionary has every column, with one value per column |
| `SampleInfo.ColumnsValues` | src/db_data/add_data.py:10-13 | the values are the dictionary's entries in column order |
| `SampleInfo.ColumnsError` | src/db_data/add_data.py:10-12 | a failure names the first column, in column order, that the dictionary lacks |
| `SampleInfo.ColumnsSpec` | src/db_data/add_data.py:6-15 | both outcomes at once: the values in column order, or the complaint about the first missing column |
| `SampleInfo.GetColumns` | src/db_data/add_data.py:6-15 | the loop of `get_columns` computes the column function, its exception included |
| `SampleInfo.ColumnsStayErr` | src/db_data/add_data.py:10-12 | the exception raised at a column ends the loop: later columns do not matter |
| `SampleInfo.IdRow` | src/db_data/add_data.py:10-13 | a row built from a dictionary holding an id under a key carries that id under every column of that name |
| `SampleInfo.RunDict` | src/db_data/add_data.py:51-65 | the run dictionary gains exactly the run name, run id, full replicate name, sample id and replicate id, and keeps every other entry |
| `SampleInfo.SampleDict` | src/db_data/add_data.py:39-40 | the sample dictionary gains exactly its id and name and keeps every other entry |
| `SampleInfo.ApplyRun` | src/db_data/add_data.py:45-68 | one pass of the inner loop computes the run step, with each of its exceptions |
| `SampleInfo.AddRuns` | src/db_data/add_data.py:45-68 | the inner loop computes the fold of the run step over the runs, stopping at the first exception |
| `SampleInfo.RunsStayErr` | src/db_data/add_data.py:45-68 | an exception in the inner loop ends it |
| `SampleInfo.AddSample` | src/db_data/add_data.py:34-68 | one pass of the outer loop computes the sample step: the counter rises for a new name, the sample row is built, and `runs` is required |
| `SampleInfo.AddSampleInfo` | src/db_data/add_data.py:19-81 | the outer loop computes the rows to insert and the run ids added, or the first exception raised |
| `SampleInfo.SamplesStayErr` | src/db_data/add_data.py:34-68 | an exception in the outer loop ends the call |
| `SampleInfo.RunShape` | src/db_data/add_data.py:46-68 | a successful run step has a run name not stored, the experiment and replicate names present, the replicate id from the counter or the lookup, and both rows built |
| `SampleInfo.RunFacts` | src/db_data/add_data.py:50-68 | a run step raises the run counter by one, appends that id to the run ids and leaves the samples alone |
| `SampleInfo.AdvanceKeepsInv` | src/db_data/add_data.py:50-68 | recording a run keeps the run-id, replicate-id and lookup invariants |
| `SampleInfo.StepKeepsInv` | src/db_data/add_data.py:45-68 | one run step keeps those invariants |
| `SampleInfo.RunsKeepInv` | src/db_data/add_data.py:45-68 | the inner loop keeps them, adds one run id per run and never meets a stored run name |
| `SampleInfo.NewSamples` | src/db_data/add_data.py:36-37 | the number of samples not in the database is at most the number of samples |
| `SampleInfo.SampleKeepsInv` | src/db_data/add_data.py:34-68 | one sample step keeps the invariants and adds one sample row carrying the counter as it then stands |
| `SampleInfo.SamplesKeepInv` | src/db_data/add_data.py:19-81 | a successful call ends in a state satisfying all invariants, and no run it lists is stored |
| `SampleInfo.StoredRunRejected` | src/db_data/add_data.py:46-47 | a run name the database holds makes the call raise |
| `SampleInfo.RunIdsFresh` | src/db_data/add_data.py:50-68 | every run gets a fresh id one above the previous, starting above the stored maximum; `run_ids_added` lists them in order and each run row carries its own |
| `SampleInfo.SampleIds` | src/db_data/add_data.py:34-43 | one sample row per sample; the counter rises only for names not stored, and each row carries the counter as it stood then |
| `SampleInfo.ReplicateIdsFresh` | src/db_data/add_data.py:57-65 | with the corrected counter the replicate rows carry consecutive ids above the stored maximum, and distinct new names never share an id with each other or with a stored replicate |
| `SampleInfo.ReplicateShared` | src/db_data/add_data.py:57-65 | a known replicate name reuses its id and adds no replicate row; a new one gets the counter plus one and one row |
| `SampleInfo.RunRow` | src/db_data/add_data.py:51-67 | the run row holds the run's values in column order, with the sample id and the replicate id of its full replicate name |
| `SampleInfo.NewReplicateStep` | src/db_data/add_data.py:57-68 | a run of a new replicate allocates the next replicate id and adds one replicate row |
| `SampleInfo.KnownReplicateStep` | src/db_data/add_data.py:57-68 | a run of a known replicate adds no replicate row; as written the counter becomes that replicate's id |
| `SampleInfo.ResetTrace` | src/db_data/add_data.py:57-65 | the three-run example ends with replicate ids 2 and 2 as written, and 2 and 3 corrected |
| `SampleInfo.CounterResetExample` | src/db_data/add_data.py:64 | as written, reusing a stored replicate pulls the counter back, so two new replicates both get id 2 |
| `SampleInfo.RunStep` | src/db_data/add_data.py:45-68 | definition of one run of the inner loop; stated by `SampleInfo.RunShape`, `SampleInfo.NewReplicateStep` and `SampleInfo.KnownReplicateStep` |
| `SampleInfo.SampleStep` | src/db_data/add_data.py:34-68 | definition of one sample of the outer loop; stated by `SampleInfo.SampleKeepsInv` |
| `SampleInfo.AddSampleInfoOf` | src/db_data/add_data.py:19-81 | definition of `add_sample_info`; stated by `SampleInfo.RunIdsFresh`, `SampleInfo.ReplicateIdsFresh` and `SampleInfo.SamplesKeepInv` |
| `MpraDb.Zip` | src/mpradb/database/mpra_db.py:113 | `zip` of the four lists stops at the shortest and pairs the elements position by position |
| `MpraDb.AddFeatures` | src/mpradb/database/mpra_db.py:99-126 | the loop of `add_features` computes the attribute rows and the data rows of the feature fold |
| `MpraDb.Names` | src/mpradb/database/mpra_db.py:113 | the feature names of the zipped rows, in order |
| `MpraDb.NamesSnoc` | src/mpradb/database/mpra_db.py:113 | one more row adds its name at the end |
| `MpraDb.FirstIndex` | src/mpradb/database/mpra_db.py:114-117 | the first position holding a name: it holds it and no earlier position does |
| `MpraDb.FirstIndexSnoc` | src/mpradb/database/mpra_db.py:114-117 | appending keeps the first position of a name already present |
| `MpraDb.FirstIndexLast` | src/mpradb/database/mpra_db.py:114-117 | a name appended for the first time is first found at the end |
| `MpraDb.AttrNames` | src/mpradb/database/mpra_db.py:117 | the names of the attribute rows, in order |
| `MpraDb.AttrNamesSnoc` | src/mpradb/database/mpra_db.py:117 | one more attribute row adds its name at the end |
| `MpraDb.TypeOfSnoc` | src/mpradb/database/mpra_db.py:117 | the type recorded for a name seen before does not change when a row is added |
| `MpraDb.TypeOfLast` | src/mpradb/database/mpra_db.py:117 | a new name takes the type of the row that introduces it |
| `MpraDb.StepAttrsSeen` | src/mpradb/database/mpra_db.py:114-120 | a row whose name was seen adds no attribute row and keeps the attribute invariant |
| `MpraDb.NewAttrNames` | src/mpradb/database/mpra_db.py:114-117 | the attribute row of a new name keeps the attribute names the distinct names in first-seen order |
| `MpraDb.StepAttrsNew` | src/mpradb/database/mpra_db.py:114-117 | a row with a new name adds the attribute row with the next id and keeps the invariant |
| `MpraDb.StepNewAttrs` | src/mpradb/database/mpra_db.py:114-117 | a new name raises the counter by one and appends one attribute row with that id |
| `MpraDb.TypedNew` | src/mpradb/database/mpra_db.py:114-117 | the new attribute row has the next consecutive id and its row's type |
| `MpraDb.StepAttrs` | src/mpradb/database/mpra_db.py:113-120 | every row keeps the attribute invariant |
| `MpraDb.StepLookup` | src/mpradb/database/mpra_db.py:114-119 | every row keeps `fid_lookup` holding exactly the names seen, each under its first-seen number |
| `MpraDb.IdsFromOld` | src/mpradb/database/mpra_db.py:119 | a name seen before leaves the distinct names and the numbering unchanged |
| `MpraDb.IdsFromNew` | src/mpradb/database/mpra_db.py:114-116 | a new name is numbered after all names seen before |
| `MpraDb.KeysOld` | src/mpradb/database/mpra_db.py:119 | a name seen before adds no key |
| `MpraDb.KeysNew` | src/mpradb/database/mpra_db.py:116 | a new name becomes a key |
| `MpraDb.NumberedNew` | src/mpradb/database/mpra_db.py:115-116 | the new key's id is the counter plus one and the other ids stay |
| `MpraDb.StepData` | src/mpradb/database/mpra_db.py:119-120 | every row appends one data row under its name's id |
| `MpraDb.FeaturesOfInv` | src/mpradb/database/mpra_db.py:113-120 | the fold keeps the attribute, lookup and data invariants over all rows |
| `MpraDb.AttrsFirstAppearance` | src/mpradb/database/mpra_db.py:113-117 | the attribute rows are the distinct names in first-appearance order, with ids from `max_feature_id + 1` up and the type of each name's first row |
| `MpraDb.DataFollowsIds` | src/mpradb/database/mpra_db.py:119-120 | one data row per zipped row, in order, with the id of its name, its reporter id and its value |
| `MpraDb.AddFeaturesSpec` | src/mpradb/database/mpra_db.py:99-126 | `add_features` inserts exactly those attribute rows and those data rows |
| `MpraDb.SampleIds` | src/mpradb/database/mpra_db.py:282 | the stored sample ids, in table order |
| `MpraDb.NotFound` | src/mpradb/database/mpra_db.py:283 | the samples not found are exactly the requested ids that are not stored |
| `MpraDb.CheckSamples` | src/mpradb/database/mpra_db.py:280-289 | `check_samples` passes exactly when every requested id is stored, and otherwise names the missing ones |
| `MpraDb.Lookup` | src/mpradb/database/mpra_db.py:259 | the read-filter lookup has exactly the stored sample ids as keys |
| `MpraDb.Unset` | src/mpradb/database/mpra_db.py:264-268 | the samples not added are exactly the requested ones with filter -1, and there are none exactly when every filter is set |
| `MpraDb.SplitFilters` | src/mpradb/database/mpra_db.py:261-270 | the loop splits the requests into the set filters and the unset samples |
| `MpraDb.GetMinimumReads` | src/mpradb/database/mpra_db.py:256-276 | `get_minumum_reads` computes the read-filter function, both exceptions included |
| `MpraDb.KeptAll` | src/mpradb/database/mpra_db.py:264-270 | when every filter is set there is one filter per request, in request order |
| `MpraDb.MinimumReadsSpec` | src/mpradb/database/mpra_db.py:256-276 | the call succeeds exactly when every requested sample is stored with a set filter, and then returns the filters in request order; a stored sample with filter -1 is named in the error |
| `MpraDb.SetFilter` | src/mpradb/database/mpra_db.py:246 | the update gives every row of that sample the filter and changes no other row |
| `MpraDb.AddMinimumReadsOk` | src/mpradb/database/mpra_db.py:233-238 | `add_minumum_reads` succeeds exactly when every sample is stored and there is one filter per sample |
| `MpraDb.SetFilterIds` | src/mpradb/database/mpra_db.py:246 | an update leaves the stored sample ids as they are |
| `MpraDb.SetFilterLookup` | src/mpradb/database/mpra_db.py:246 | after an update, the lookup maps that sample to the new filter and leaves the others alone |
| `MpraDb.UpdatedFacts` | src/mpradb/database/mpra_db.py:245-246 | after the updates for distinct samples, each sample's lookup entry is its new filter |
| `MpraDb.ReadFiltersRoundTrip` | src/mpradb/database/mpra_db.py:233-276 | for distinct samples and filters other than -1, reading the filters back after storing them returns exactly those filters |
| `MpraDb.ParseAll` | src/mpradb/database/mpra_db.py:93 | the comprehension of `int` succeeds only with one parsed integer per part |
| `MpraDb.AllParseInit` | src/mpradb/database/mpra_db.py:93 | dropping the last row keeps every other row's run set |
| `MpraDb.RunGroupsOk` | src/mpradb/database/mpra_db.py:90-95 | the lookup is built exactly when every row's run ids parse |
| `MpraDb.RunGroupsSnoc` | src/mpradb/database/mpra_db.py:93 | a later row writes its run set over the lookup built from the earlier rows |
| `MpraDb.RunGroupsKeys` | src/mpradb/database/mpra_db.py:93 | the keys are exactly the rows' run sets |
| `MpraDb.RunGroupsLast` | src/mpradb/database/mpra_db.py:93 | a run set maps to the last group listing it |
| `MpraDb.RunGroupsSpec` | src/mpradb/database/mpra_db.py:90-95 | `get_run_groups` succeeds exactly when every row parses; its keys are the rows' run sets, each mapped to the last group with that set |
| `MpraDb.NatStrings` | src/mpradb/database/mpra_db.py:92-93 | the decimal text of each run id, in order |
| `MpraDb.ParseAllNats` | src/mpradb/database/mpra_db.py:93 | the decimal text of a list of ids parses back to that list |
| `MpraDb.GroupKeyRoundTrip` | src/mpradb/database/mpra_db.py:92-93 | a `group_concat` of run ids reads back as exactly the set of those ids |
| `MpraDb.FeaturesOf` | src/mpradb/database/mpra_db.py:113-120 | definition of the loop of `add_features`; stated by `MpraDb.FeaturesOfInv` and `MpraDb.AddFeaturesSpec` |
| `MpraDb.MinimumReadsOf` | src/mpradb/database/mpra_db.py:256-276 | definition of `get_minumum_reads`; stated by `MpraDb.MinimumReadsSpec` |
| `MpraDb.AddMinimumReadsOf` | src/mpradb/database/mpra_db.py:233-248 | definition of `add_minumum_reads`; stated by `MpraDb.AddMinimumReadsOk` and `MpraDb.ReadFiltersRoundTrip` |
| `MpraDb.RunGroupsOf` | src/mpradb/database/mpra_db.py:90-95 | definition of `get_run_groups`; stated by `MpraDb.RunGroupsSpec` |
| `Selector.SetHasMin` | src/naptrap/database/selector.py:66 | every non-empty set of ids has a least element, the first one `sorted` yields |
| `Selector.ConsSorted` | src/naptrap/database/selector.py:66 | the least element in front of the sorted rest is sorted and has the same elements |
| `Selector.SortedOf` | src/naptrap/database/selector.py:66 | `sorted(list(s))` is strictly increasing, as long as the set and holds exactly its elements |
| `Selector.IncreasingTail` | src/naptrap/database/selector.py:66 | the tail of a sorted list of distinct ids is sorted |
| `Selector.IncreasingTailElements` | src/naptrap/database/selector.py:66 | the tail of such a list holds exactly the elements above its head |
| `Selector.SameElementsEmpty` | src/naptrap/database/selector.py:66 | a list with the elements of an empty list is empty |
| `Selector.IncreasingUnique` | src/naptrap/database/selector.py:66 | two sorted lists of distinct ids with the same elements are equal |
| `Selector.SortedOfElements` | src/naptrap/database/selector.py:66 | sorting the set of a sorted list of distinct ids gives the list back |
| `Selector.UpdatedSet` | src/naptrap/database/selector.py:60-64 | the set to sort is the intersection with the stored ids when there are any, and the new set otherwise |
| `Selector.Passing` | src/naptrap/database/selector.py:25-27 | a reporter passes a filter exactly when it reaches the threshold in as many replicates as the filter has runs |
| `Selector.PassSets` | src/naptrap/database/selector.py:23-27 | one passing set per read filter, in filter order |
| `Selector.FilterDataIds` | src/naptrap/database/selector.py:28 | one entry per read filter: its run type and its run ids |
| `Selector.FirstEmpty` | src/naptrap/database/selector.py:23-24 | the first filter with no run among the selected data groups: every earlier one has runs, and it has none |
| `Selector.CombineAsWritten` | src/naptrap/database/selector.py:36-41 | as written only the first filter's set counts, because the intersection result is dropped |
| `Selector.CombineIntersects` | src/naptrap/database/selector.py:36-41 | corrected, a reporter is kept exactly when it passes every filter |
| `Selector.DroppedIntersection` | src/naptrap/database/selector.py:41 | sets {1, 2} and {2} select {1, 2} as written and {2} corrected |
| `Selector.ColumnsSpec` | src/naptrap/database/selector.py:96-105 | the column loop succeeds exactly when every name is a data group or a feature; it then yields the data-group and feature indices in request order, a data group winning; otherwise it raises |
| `Selector.ExplicitRows` | src/naptrap/database/selector.py:84-91 | explicit rows are the stored reporters among those asked for, sorted and distinct, and the request yields None exactly when there are none |
| `Selector.MixedColumns` | src/naptrap/database/selector.py:107-112 | for `sel[:, [g, f]]`, a data group and a feature, the feature part reads the data-group index as written and the feature index corrected |
| `Selector.NamesOnlyRows` | src/naptrap/database/selector.py:84-95 | a names-only key of exactly two names is unpacked as rows and one name and yields None, without error; any other names-only key reads all stored reporters |
| `Selector.Selector.constructor` | src/naptrap/database/selector.py:5-13 | a new selector has no reporter ids, which are trivially strictly increasing |
| `Selector.Selector.UpdateReporterIds` | src/naptrap/database/selector.py:60-66 | the ids become the sorted updated set, and stay strictly increasing |
| `Selector.Selector.GetReadFilteredReporterIds` | src/naptrap/database/selector.py:15-43 | the filters are recorded up to the first one whose run-id fetch is empty, where `to_list` raises and the ids stay; with no filter it raises and the ids stay; otherwise every filter is recorded and the ids are updated with the combined passing set, staying strictly increasing |
| `Selector.Selector.GetItem` | src/naptrap/database/selector.py:80-112 | `sel[key]` computes the rows (a key of length 2 being unpacked as rows and names), the columns and the selection built from them, with None and the exception |
| `Selector.ColumnsStayErr` | src/naptrap/database/selector.py:104-105 | an unknown name ends the column loop with the exception |
| `Selector.UpdateNarrows` | src/naptrap/database/selector.py:60-66 | after an update the ids are sorted and hold the intersection when ids were stored, and the new set otherwise |
| `Selector.UpdateIdempotent` | src/naptrap/database/selector.py:60-66 | offering the same set again changes nothing, as long as the first update left some ids |
| `Selector.EmptyThenRefill` | src/naptrap/database/selector.py:60-66 | an empty intersection clears the ids, and the next filter then selects its whole set instead of narrowing |
| `Selector.StackedColumns` | src/naptrap/database/selector.py:94-112 | corrected, a request naming both kinds of column reads the data part at its data-group indices and the feature part at its feature indices, in request order |
| `Selector.Combine` | src/naptrap/database/selector.py:36-41 | definition of the combining loop over the filter sets, as written or corrected; stated by `Selector.CombineAsWritten` and `Selector.CombineIntersects` |
| `Selector.ResolveRows` | src/naptrap/database/selector.py:84-95 | definition of the rows a key selects; stated by `Selector.ExplicitRows` and `Selector.NamesOnlyRows` |
| `Selector.Columns` | src/naptrap/database/selector.py:96-105 | definition of the column loop; stated by `Selector.ColumnsSpec` |
| `Selector.GetItemOf` | src/naptrap/database/selector.py:80-112 | definition of `__getitem__`; stated by `Selector.ExplicitRows`, `Selector.MixedColumns` and `Selector.StackedColumns` |
| `Predicates.Quote` | src/mpradb/database/db_to_sqlite.py:47 | a string operand is wrapped in one double quote on each side, unchanged inside |
| `Predicates.LiteralText` | src/mpradb/database/db_to_sqlite.py:43-51 | strings are quoted and numbers rendered as they are |
| `Predicates.InList` | src/mpradb/database/db_to_sqlite.py:78 | definition of the item list `in_` writes; stated by `Predicates.InListSplit` |
| `Predicates.InListSplit` | src/mpradb/database/db_to_sqlite.py:78 | split at its commas, the item list gives back each item's text (strings quoted), in order, when no text holds a comma |
| `Predicates.SqlText` | src/mpradb/database/db_to_sqlite.py:33-41 | `get_sql_str` raises exactly when more than one fragment is pending, gives the bare name for none and the fragment for one |
| `Predicates.ParenFirst` | src/mpradb/database/db_to_sqlite.py:89-92 | `&` keeps at least one fragment, parenthesising a first fragment that contains `OR` |
| `Predicates.AndFragments` | src/mpradb/database/db_to_sqlite.py:88-95 | two objects with pending fragments leave at least two to fold |
| `Predicates.DbColumn.constructor` | src/mpradb/database/db_to_sqlite.py:28-31 | a new column has no pending fragment and its own name as its only name |
| `Predicates.DbColumn.GetSqlStr` | src/mpradb/database/db_to_sqlite.py:33-41 | returns the fragment text, clears a single fragment and leaves everything else alone |
| `Predicates.DbColumn.TypeCheck` | src/mpradb/database/db_to_sqlite.py:43-51 | a literal gives its text and changes nothing; another type raises; a column operand adds its names to ours and hands over its single fragment |
| `Predicates.DbColumn.ApplyOperator` | src/mpradb/database/db_to_sqlite.py:53-56 | every comparison and arithmetic operator appends `name op value`, with the operand's text, or raises for a bad operand |
| `Predicates.DbColumn.Between` | src/mpradb/database/db_to_sqlite.py:58-60 | appends `name BETWEEN lower AND upper` with the bounds unquoted |
| `Predicates.DbColumn.Like` | src/mpradb/database/db_to_sqlite.py:62-68 | appends `name LIKE value`, or `NOT LIKE` when excluding, with a quoted string value |
| `Predicates.DbColumn.Length` | src/mpradb/database/db_to_sqlite.py:70-72 | the name becomes `LENGTH(name)` and nothing else changes |
| `Predicates.DbColumn.In` | src/mpradb/database/db_to_sqlite.py:74-85 | a list, tuple or set appends `name IN (items)`, or `NOT IN`, with strings quoted; anything else raises |
| `Predicates.DbColumn.And` | src/mpradb/database/db_to_sqlite.py:87-101 | `&` of two objects succeeds exactly when both have a fragment, parenthesises `OR` fragments, moves the other's fragments over and folds them with ` AND `; on itself it needs two fragments |
| `Predicates.DbColumn.Or` | src/mpradb/database/db_to_sqlite.py:103-113 | `\|` moves the other's fragments over and succeeds exactly when at least two are pending, folding them with ` OR ` |
| `Predicates.DbColumn.AsBool` | src/mpradb/database/db_to_sqlite.py:146-147 | a column object is never a truth value |
| `Predicates.HasSubAppend` | src/mpradb/database/db_to_sqlite.py:89 | a fragment containing `OR` still contains it with text added after |
| `Predicates.HasSubPrepend` | src/mpradb/database/db_to_sqlite.py:89 | and with text added before |
| `Predicates.OrThenAndParenthesises` | src/mpradb/database/db_to_sqlite.py:87-113 | an `\|` result contains `OR`, so a later `&` yields `(s OR t) AND u` |
| `Predicates.ConditionShape` | src/mpradb/database/db_to_sqlite.py:53-56 | an operator fragment starts with the column name and holds a string operand quoted and an integer as written |
| `Predicates.AndOfPlainConditions` | src/mpradb/database/db_to_sqlite.py:87-101 | two conditions without `OR` are joined by ` AND ` as they are |
| `Clauses.SelectStr` | src/mpradb/database/db_to_sqlite.py:263-271 | `select_str` exists exactly when select columns are set |
| `Clauses.JoinStr` | src/mpradb/database/db_to_sqlite.py:273-278 | `join_str` exists exactly when there are joins |
| `Clauses.GroupbyStr` | src/mpradb/database/db_to_sqlite.py:318-323 | `groupby_str` exists exactly when group columns are set |
| `Clauses.Present` | src/mpradb/database/db_to_sqlite.py:203 | dropping the missing clauses never lengthens the list |
| `Clauses.ReplaceEach` | src/mpradb/database/db_to_sqlite.py:198 | the rewrite keeps one text per clause |
| `Clauses.SqlQuery` | src/mpradb/database/db_to_sqlite.py:192-209 | `get_sql_query` raises exactly when there is no select |
| `Clauses.FullQueryOrder` | src/mpradb/database/db_to_sqlite.py:202-205 | with every clause present and nothing to rewrite, the text is SELECT … FROM, joins, WHERE, GROUP BY, ORDER BY and LIMIT, one space apart |
| `Clauses.SelectOnly` | src/mpradb/database/db_to_sqlite.py:202-205 | a query with only a select is its SELECT … FROM text |
| `Clauses.AmbiguityPathAgrees` | src/mpradb/database/db_to_sqlite.py:197-205 | the rewriting path with nothing to rewrite gives the plain text, as long as WHERE, GROUP BY or ORDER BY is present |
| `Clauses.MiddleFlattens` | src/mpradb/database/db_to_sqlite.py:198-205 | joining the middle part first and then the whole equals joining all six clauses, when the middle part has a clause |
| `Clauses.AmbiguityPathTrailingSpace` | src/mpradb/database/db_to_sqlite.py:198-205 | as written, the rewriting path without WHERE, GROUP BY or ORDER BY emits its empty middle part, so the text ends in a space |
| `Clauses.Round` | src/mpradb/database/db_to_sqlite.py:283-298 | a pass over the join list only appends; each edge adds either one table with one join or one deferred pair |
| `Clauses.RoundAdds` | src/mpradb/database/db_to_sqlite.py:286-295 | every table a pass adds was new when its join was emitted, by an edge of the list, and the tables stay distinct |
| `Clauses.AddJoinsAdds` | src/mpradb/database/db_to_sqlite.py:281-301 | `add_joins` only appends tables and joins, one join per table, the tables distinct and each new when its join was emitted |
| `Clauses.WitnessKept` | src/mpradb/database/db_to_sqlite.py:300-301 | a table added by an earlier pass keeps its join when later passes append |
| `Clauses.WitnessRedo` | src/mpradb/database/db_to_sqlite.py:298-301 | a table added by a later pass was joined by a deferred pair of the original list |
| `Clauses.RedoFromList` | src/mpradb/database/db_to_sqlite.py:297-298 | the deferred pairs come from the list |
| `Clauses.JoinedPairBlocks` | src/mpradb/database/db_to_sqlite.py:281-301 | a pair whose two tables are already in the query is deferred forever, so `add_joins` never finishes |
| `Clauses.DeferredStays` | src/mpradb/database/db_to_sqlite.py:286-298 | such a pair is deferred by every pass |
| `Clauses.AddJoinsSpec` | src/mpradb/database/db_to_sqlite.py:281-301 | definition of `add_joins`: passes over the deferred pairs, and the recursion error when a pass defers every pair; stated by `Clauses.AddJoinsAdds` and `Clauses.JoinedPairBlocks` |
| `Clauses.ReplaceAmbiguous` | src/mpradb/database/db_to_sqlite.py:186-189 | definition of `replace_amibiguous_columns`: the replacements applied one after the other |
| `Catalog.FoldAppend` | src/mpradb/database/db_to_sqlite.py:976-988 | walking two stretches of the catalog is walking the first and then the second, an exception ending it |
| `Catalog.FoldTable` | src/mpradb/database/db_to_sqlite.py:976-984 | the walk from a table on starts that table's column list, declares its columns and goes on to the next table |
| `Catalog.TypesAgreeCons` | src/mpradb/database/db_to_sqlite.py:980-988 | the declarations agree on types exactly when the first agrees with what is recorded and the rest agree once it is recorded |
| `Catalog.FoldOkIff` | src/mpradb/database/db_to_sqlite.py:976-988 | the walk succeeds exactly when every column name keeps one declared type |
| `Catalog.DeclsAppend` | src/mpradb/database/db_to_sqlite.py:976-984 | the declarations of two stretches of the walk are those of each, in order |
| `Catalog.TableEventsAppend` | src/mpradb/database/db_to_sqlite.py:978-984 | one more column of a table is one more declaration at the end |
| `Catalog.BuildLookupsFailsIffTypeConflict` | src/mpradb/database/db_to_sqlite.py:970-988 | `build_column_lookups` raises exactly when one column name is declared with two different types somewhere in the schema |
| `Catalog.FoldLookup` | src/mpradb/database/db_to_sqlite.py:980-983 | the walk appends to `column_lookup[c]` exactly the tables that declare c, in order |
| `Catalog.StepLookup` | src/mpradb/database/db_to_sqlite.py:980-983 | one declaration appends its table to `column_lookup[c]` exactly when it declares c |
| `Catalog.BuildLookupsListsTables` | src/mpradb/database/db_to_sqlite.py:970-988 | on success `column_lookup[c]` lists, in table order, every table that declares c, and c is a key exactly when some table does |
| `Catalog.SortEndpointsKey` | src/mpradb/database/db_to_sqlite.py:921-922 | the stored edge is sorted by table, keyed by the sorted table pair, and joins the two tables |
| `Catalog.PairKeySymmetric` | src/mpradb/database/db_to_sqlite.py:888 | the key of a table pair does not depend on the order of the two tables |
| `Catalog.AppendAdjacency` | src/mpradb/database/db_to_sqlite.py:910-919 | appending to an adjacency list adds exactly that one neighbour |
| `Catalog.AddConnectionAdjacency` | src/mpradb/database/db_to_sqlite.py:905-919 | after `add_connection` the adjacency is the earlier one plus the new pair in both directions |
| `Catalog.AddConnectionSpec` | src/mpradb/database/db_to_sqlite.py:905-923 | `add_connection` records the pair both ways, stores its edge under the sorted pair (replacing an earlier one), keeps all other adjacency and edges, and keeps the catalog invariant |
| `Catalog.AddConnectionWf` | src/mpradb/database/db_to_sqlite.py:905-923 | `add_connection` keeps adjacency symmetric, every adjacent pair with a stored edge, and every edge joining its key's tables |
| `Catalog.GetJoinOfNeighbours` | src/mpradb/database/db_to_sqlite.py:887-889 | two adjacent tables always have a stored join, and it joins exactly those two |
| `Catalog.ConnectPairsSpec` | src/mpradb/database/db_to_sqlite.py:929-930 | connecting a list of pairs keeps the invariant and earlier adjacency and makes every pair adjacent both ways |
| `Catalog.CombinationsContains` | src/mpradb/database/db_to_sqlite.py:929 | `itertools.combinations` yields every pair of positions i < j |
| `Catalog.ShareColumnsConnects` | src/mpradb/database/db_to_sqlite.py:926-930 | after `update_table_conn` every two tables listed for one column are adjacent both ways, and earlier adjacency is kept |
| `Catalog.ConnectForeignKeysConnects` | src/mpradb/database/db_to_sqlite.py:892-902 | after `get_foriegn_keys` the two tables of every foreign key are adjacent both ways |
| `Catalog.SqlType` | src/mpradb/database/db_to_sqlite.py:396-401 | exactly int, float, str and bytes have a SQLite type |
| `Catalog.ColumnDefinitions` | src/mpradb/database/db_to_sqlite.py:444-450 | the loop succeeds exactly when every data type is known and has a column name, giving `name TYPE` per position; otherwise it raises at the first bad position |
| `Catalog.NewTableDdl` | src/mpradb/database/db_to_sqlite.py:442-462 | the statement holds the column definitions, the primary key when given and one clause per foreign key, in that order, or the loop's exception |
| `Catalog.BuildLookups` | src/mpradb/database/db_to_sqlite.py:970-988 | definition of what `build_column_lookups` leaves (each column's tables and type) or the type conflict it raises; stated by `Catalog.BuildLookupsFailsIffTypeConflict` and `Catalog.BuildLookupsListsTables` |
| `Catalog.AddConnection` | src/mpradb/database/db_to_sqlite.py:905-923 | definition of `add_connection`: both adjacency directions appended and the edge stored under the sorted table pair; stated by `Catalog.AddConnectionSpec` and `Catalog.AddConnectionWf` |
| `Catalog.GetJoin` | src/mpradb/database/db_to_sqlite.py:887-889 | definition of `get_join`: the edge stored under the sorted pair, None for the KeyError |
| `Catalog.CreateText` | src/mpradb/database/db_to_sqlite.py:461-464 | definition of the CREATE [TEMPORARY] TABLE IF NOT EXISTS text with the definitions joined by commas; stated by `Catalog.NewTableDdl` |
| `TableSort.GroupSnoc` | src/mpradb/database/db_to_sqlite.py:733-738 | one more entry joins exactly the group of its count, and may raise the largest count |
| `TableSort.AddEntry` | src/mpradb/database/db_to_sqlite.py:734-738 | one round of the first loop keeps each count's group, the counts in first-seen order and the largest count |
| `TableSort.GroupByCount` | src/mpradb/database/db_to_sqlite.py:731-738 | the first loop groups the entries by count, in input order, with the counts in first-seen order |
| `TableSort.ArrangeGroup` | src/mpradb/database/db_to_sqlite.py:745-750 | the inner loop appends `_iso` tables and puts every other table in front |
| `TableSort.ArrangeGroups` | src/mpradb/database/db_to_sqlite.py:741-752 | the second loop rearranges every group, a single entry being left as it is |
| `TableSort.ConcatLayers` | src/mpradb/database/db_to_sqlite.py:755-758 | the groups are concatenated by decreasing count |
| `TableSort.SortTables` | src/mpradb/database/db_to_sqlite.py:729-760 | `sort_tables` computes the layered order of its entries |
| `TableSort.ArrangePermutes` | src/mpradb/database/db_to_sqlite.py:745-750 | rearranging a group is a permutation |
| `TableSort.ArrangeIsoLast` | src/mpradb/database/db_to_sqlite.py:745-750 | within a rearranged group no `_iso` table comes before another table |
| `TableSort.GroupCounts` | src/mpradb/database/db_to_sqlite.py:734-738 | a group holds only input entries of its count |
| `TableSort.ArrangedGroupCounts` | src/mpradb/database/db_to_sqlite.py:745-752 | a rearranged group holds only entries of its count |
| `TableSort.LayersCounts` | src/mpradb/database/db_to_sqlite.py:755-758 | the concatenated layers hold only entries whose count is in range |
| `TableSort.CountsInSplit` | src/mpradb/database/db_to_sqlite.py:757-758 | the entries of a count range are the lowest count's group plus those of the rest |
| `TableSort.CountsInEmpty` | src/mpradb/database/db_to_sqlite.py:757-758 | an empty count range holds no entry |
| `TableSort.LayersPermutes` | src/mpradb/database/db_to_sqlite.py:755-758 | the layers are a permutation of the entries whose count is in range |
| `TableSort.MaxCountBounds` | src/mpradb/database/db_to_sqlite.py:741-758 | no entry has a count above the largest |
| `TableSort.CountsInAll` | src/mpradb/database/db_to_sqlite.py:741-758 | every entry lies in the full count range |
| `TableSort.SortedTablesPermutes` | src/mpradb/database/db_to_sqlite.py:729-760 | `sort_tables` returns a permutation of its input |
| `TableSort.LayersOrdered` | src/mpradb/database/db_to_sqlite.py:741-758 | the layers run by decreasing count, with `_iso` tables last within a count |
| `TableSort.SortedTablesOrdered` | src/mpradb/database/db_to_sqlite.py:729-760 | `sort_tables` orders the tables by count, descending, and within one count puts every other table before every `_iso` table |
| `TableSort.DistinctCount` | src/mpradb/database/db_to_sqlite.py:733 | entries with distinct names occur once each |
| `TableSort.RepeatCount` | src/mpradb/database/db_to_sqlite.py:733 | a repeated entry occurs at least twice |
| `TableSort.PermutationKeepsDistinct` | src/mpradb/database/db_to_sqlite.py:729-760 | a permutation of entries with distinct names has distinct names |
| `TableSort.ShiftValid` | src/mpradb/database/db_to_sqlite.py:724 | positions in the rest of the list, shifted, stay increasing and in range |
| `TableSort.ChosenMatchesFilter` | src/mpradb/database/db_to_sqlite.py:700-726 | `filter_tables` fails exactly when no choice of positions exists, and otherwise returns the names at increasing positions |
| `TableSort.ChosenCovers` | src/mpradb/database/db_to_sqlite.py:709-724 | every requested column not yet covered lies in a kept table |
| `TableSort.ChosenContributes` | src/mpradb/database/db_to_sqlite.py:716-724 | each kept table holds a requested column that no earlier kept table holds |
| `TableSort.FilterTablesSpec` | src/mpradb/database/db_to_sqlite.py:700-726 | `filter_tables` keeps the candidates' order, covers every requested column, and each kept table supplies a column no earlier kept table holds |
| `TableSort.FilterTablesSucceeds` | src/mpradb/database/db_to_sqlite.py:700-726 | when the tables hold every requested column, `filter_tables` succeeds |
| `TableSort.ChosenDistinct` | src/mpradb/database/db_to_sqlite.py:720-724 | the kept tables are distinct when the candidates are |
| `TableSort.SortedTables` | src/mpradb/database/db_to_sqlite.py:729-760 | definition of what `sort_tables` returns; stated by `TableSort.SortedTablesPermutes` and `TableSort.SortedTablesOrdered` |
| `TableSort.FilterTables` | src/mpradb/database/db_to_sqlite.py:700-726 | definition of `filter_tables`; stated by `TableSort.FilterTablesSpec` and `TableSort.ChosenMatchesFilter` |
| `Planner.ReplaceWrapped` | src/mpradb/database/db_to_sqlite.py:770 | replacing `(` by `)` in `fn(col)` gives `fn)col)` |
| `Planner.SplitWrapped` | src/mpradb/database/db_to_sqlite.py:770 | splitting `fn)col)` on `)` gives three parts, the last empty |
| `Planner.WrappedBaseColumn` | src/mpradb/database/db_to_sqlite.py:770-771 | get_tables reads `fn(col)` as the column `col` |
| `Planner.WrappedAmbiguityBase` | src/mpradb/database/db_to_sqlite.py:476 | check_for_ambiguous_columns reads `fn(col)` as the column `col` |
| `Planner.BaseColumnReadings` | src/mpradb/database/db_to_sqlite.py:770-771 | both readings keep a plain column name and strip one function wrapper |
| `Planner.FindPath` | src/mpradb/database/db_to_sqlite.py:835-857 | a path that find_path finds has between one edge and the fuel bound, all of them stored foreign keys |
| `Planner.FirstPath` | src/mpradb/database/db_to_sqlite.py:848-857 | the loop over the neighbours never raises, and what it finds has stored edges only |
| `Planner.GetJoinJoins` | src/mpradb/database/db_to_sqlite.py:887-889 | get_join returns an edge joining the two tables |
| `Planner.FindPathWalks` | src/mpradb/database/db_to_sqlite.py:835-857 | every path find_path returns is a walk from its first table to its second |
| `Planner.FirstPathWalks` | src/mpradb/database/db_to_sqlite.py:848-855 | the edge to a neighbour followed by the neighbour's path is a walk to the target |
| `Planner.FindPathEnds` | src/mpradb/database/db_to_sqlite.py:840-846 | a table with no neighbours gives None, a direct neighbour gives the stored edge of the pair, and find_path never raises |
| `Planner.Flipped` | src/mpradb/database/db_to_sqlite.py:802 | reversing and flipping a path keeps its length |
| `Planner.WalkAppend` | src/mpradb/database/db_to_sqlite.py:853 | extending a walk by an edge at its end walks to that edge's other table |
| `Planner.OtherFlip` | src/mpradb/database/db_to_sqlite.py:802 | flipping an edge keeps the two tables it joins |
| `Planner.FlippedWalks` | src/mpradb/database/db_to_sqlite.py:802 | the reversed, flipped path walks from the second table back to the first |
| `Planner.JoinsAlong` | src/mpradb/database/db_to_sqlite.py:878 | the joins of a table path are one stored edge per consecutive pair |
| `Planner.JoinsAlongWalks` | src/mpradb/database/db_to_sqlite.py:878 | those joins form a walk from the path's first table to its last |
| `Planner.Expand` | src/mpradb/database/db_to_sqlite.py:869-873 | extending every path by each neighbour of its last table keeps the paths adjacent and one longer, and fails exactly when a last table has no entry |
| `Planner.FindPaths` | src/mpradb/database/db_to_sqlite.py:860-884 | find_paths returns at most four stored edges forming a walk from the first table to the second, and nothing for a table and itself |
| `Planner.AddOccurrence` | src/mpradb/database/db_to_sqlite.py:778-780 | a table joins the ordered dictionary once, at its end, on its first column |
| `Planner.Bases` | src/mpradb/database/db_to_sqlite.py:769-772 | there is one base name per requested column |
| `Planner.FlippedStored` | src/mpradb/database/db_to_sqlite.py:802 | a flipped path is made of stored edges, each in one orientation or the other |
| `Planner.PairPath` | src/mpradb/database/db_to_sqlite.py:796-802 | the path for a pair holds stored edges only, and is never an exception on a well-formed catalog |
| `Planner.PairPathFrom` | src/mpradb/database/db_to_sqlite.py:796-799 | trying the pair both ways raises only when one of the two searches raises |
| `Planner.AddPathEdges` | src/mpradb/database/db_to_sqlite.py:810-821 | recording a path keeps the first table and the join list duplicate-free, covers every edge of the path in one orientation, and records only joins between recorded tables |
| `Planner.ConnectTables` | src/mpradb/database/db_to_sqlite.py:792-830 | connecting the tables pairwise records every table with duplicate-free stored joins between recorded tables, or leaves one unconnected |
| `Planner.ColumnsOfIn` | src/mpradb/database/db_to_sqlite.py:777-780 | a column listed for a table lies in that table's entry |
| `Planner.AddOccurrenceColumns` | src/mpradb/database/db_to_sqlite.py:778-780 | one occurrence adds the column to its table's list and to no other |
| `Planner.DistinctNamesIff` | src/mpradb/database/db_to_sqlite.py:778 | entries have distinct names exactly when their name list has no duplicate |
| `Planner.AddOccurrenceDistinct` | src/mpradb/database/db_to_sqlite.py:778-780 | one occurrence keeps the ordered dictionary's names distinct |
| `Planner.AddColumnSpec` | src/mpradb/database/db_to_sqlite.py:777-780 | one base name joins the list of exactly the tables holding it |
| `Planner.GatherFails` | src/mpradb/database/db_to_sqlite.py:774-783 | the gathering fails exactly on a base name the lookup does not know, and names it |
| `Planner.GatherRecords` | src/mpradb/database/db_to_sqlite.py:769-783 | on success each table lists exactly the requested base names it holds |
| `Planner.GatherStep` | src/mpradb/database/db_to_sqlite.py:774-783 | one more base name adds its tables, or fails naming it |
| `Planner.AddOccurrences` | src/mpradb/database/db_to_sqlite.py:777-780 | the inner loop adds one column to each table listing it |
| `Planner.GatherTables` | src/mpradb/database/db_to_sqlite.py:769-783 | the gathering loop computes the gathering function of the base names |
| `Planner.GatherFailsFrom` | src/mpradb/database/db_to_sqlite.py:781-783 | once a base name is unknown the gathering stops with that error |
| `Planner.AllColumnsIn` | src/mpradb/database/db_to_sqlite.py:785-786 | a column is among the candidates' columns exactly when some entry lists it |
| `Planner.CandidatesCover` | src/mpradb/database/db_to_sqlite.py:785-786 | when every base name is held by a table the sorted candidates cover all of them |
| `Planner.FilteredDistinct` | src/mpradb/database/db_to_sqlite.py:785-786 | filter_tables over the sorted candidates names distinct tables |
| `Planner.FilteredNonEmpty` | src/mpradb/database/db_to_sqlite.py:785-787 | when every base name is held by a table filter_tables succeeds with at least one table |
| `Planner.CoveringFacts` | src/mpradb/database/db_to_sqlite.py:785-790 | the covering tables are distinct and, for resolvable columns, found and non-empty |
| `Planner.PlanTables` | src/mpradb/database/db_to_sqlite.py:764-832 | get_tables fails exactly on an unknown base name, returns one table with no joins or the covering tables first and in full with duplicate-free stored joins, and cannot crash on resolvable columns of a well-formed catalog |
| `Planner.CheckForAmbiguousColumns` | src/mpradb/database/db_to_sqlite.py:469-481 | every column whose base name more than one listed table holds is rewritten once, qualified by one of those tables, and an unknown base name is an error |
| `Materialise.ToListShape` | src/mpradb/database/db_to_sqlite.py:538-553 | to_list fails exactly on an empty result, gives a one-column result's values in row order, and keeps wider rows as tuples |
| `Materialise.ToListRows` | src/mpradb/database/db_to_sqlite.py:538-553 | definition of the reshaping `to_list` does; stated by `Materialise.ToListShape` |
| `Materialise.ConcatSingles` | src/mpradb/database/db_to_sqlite.py:551 | flattening one-value rows gives their values in order |
| `Materialise.Unwrap` | src/mpradb/database/db_to_sqlite.py:635-637 | a one-element list is unwrapped to its element, any other is kept whole |
| `Materialise.IndexOf` | src/mpradb/database/db_to_sqlite.py:625 | `list.index` gives the first position of the name, and fails exactly when it is absent |
| `Materialise.InsertNat` | src/mpradb/database/db_to_sqlite.py:625 | inserting a position keeps the other positions and adds it once |
| `Materialise.InsertNatSorted` | src/mpradb/database/db_to_sqlite.py:625 | inserting into sorted positions keeps them sorted |
| `Materialise.SortNats` | src/mpradb/database/db_to_sqlite.py:625 | `sorted` permutes the key positions |
| `Materialise.SortNatsSorted` | src/mpradb/database/db_to_sqlite.py:625 | `sorted` puts the key positions in order |
| `Materialise.KeyPositions` | src/mpradb/database/db_to_sqlite.py:625 | each key column's position names that column among the selected ones |
| `Materialise.KeyIndices` | src/mpradb/database/db_to_sqlite.py:623-625 | the key positions fail exactly on a key that is not selected, and are otherwise one per key, sorted and in range |
| `Materialise.Pop` | src/mpradb/database/db_to_sqlite.py:634 | a pop takes one value out of the row |
| `Materialise.PopIncreasing` | src/mpradb/database/db_to_sqlite.py:634 | popping at increasing positions, each shifted by the pops before it, takes exactly the values at those positions and leaves the rest |
| `Materialise.InsertNatDistinct` | src/mpradb/database/db_to_sqlite.py:625 | inserting a new position keeps the positions distinct |
| `Materialise.SortNatsDistinct` | src/mpradb/database/db_to_sqlite.py:625 | sorting distinct positions keeps them distinct |
| `Materialise.KeyIndicesIncrease` | src/mpradb/database/db_to_sqlite.py:623-625 | distinct key columns give strictly increasing positions, each of a key column |
| `Materialise.KeyedRow` | src/mpradb/database/db_to_sqlite.py:632-637 | a full row yields as key the values of the key columns, in select order, and keeps the other values |
| `Materialise.Find` | src/mpradb/database/db_to_sqlite.py:638 | the lookup in `output_dic` finds an entry of the key exactly when the key is present |
| `Materialise.FillDict` | src/mpradb/database/db_to_sqlite.py:629-646 | the loop over the fetched rows computes the dictionary function of the rows |
| `Materialise.DictOfFailsFrom` | src/mpradb/database/db_to_sqlite.py:644 | after the first duplicate key the loop's error is final |
| `Materialise.Pairs` | src/mpradb/database/db_to_sqlite.py:632-637 | every row yields one key and value |
| `Materialise.GroupStep` | src/mpradb/database/db_to_sqlite.py:638-642 | with `group_by_key` each row's value is appended under its key |
| `Materialise.GroupStepNew` | src/mpradb/database/db_to_sqlite.py:638-639 | a new key starts a one-value group |
| `Materialise.GroupStepOld` | src/mpradb/database/db_to_sqlite.py:641-642 | a known key has the value appended to its group |
| `Materialise.GroupedDict` | src/mpradb/database/db_to_sqlite.py:616-646 | with `group_by_key` to_dict never fails, holds each key once in first-seen order, and maps it to all its values in row order |
| `Materialise.NoValuesForAbsent` | src/mpradb/database/db_to_sqlite.py:638-642 | a key no row yields has no values |
| `Materialise.PlainDict` | src/mpradb/database/db_to_sqlite.py:616-646 | without `group_by_key` to_dict succeeds exactly when the keys are distinct, and then maps each row's key to its value in row order |
| `Materialise.DictKeysDistinct` | src/mpradb/database/db_to_sqlite.py:638-644 | the dictionary holds each key once |
| `Materialise.DictKeys` | src/mpradb/database/db_to_sqlite.py:620-627 | without a key the result must have two columns and the first is the key; a key fails exactly on an unselected name; the positions are sorted and in range |
| `Materialise.DefaultKeyPair` | src/mpradb/database/db_to_sqlite.py:627-637 | with the default key a row `[a, b]` is the entry `a: b` |
| `Materialise.NumpyShape` | src/mpradb/database/db_to_sqlite.py:559-564 | to_numpy goes on exactly when three columns are selected |
| `Materialise.GetMax` | src/mpradb/database/db_to_sqlite.py:1035-1042 | definition of `get_max` over each table's `MAX` of the column; stated by `Materialise.GetMaxIsMax` |
| `Materialise.GetMaxIsMax` | src/mpradb/database/db_to_sqlite.py:1035-1042 | `get_max` is at least -1, at least every table's maximum, and is -1 or one of them |
| `Materialise.Dimension` | src/mpradb/database/db_to_sqlite.py:566-567 | a dimension is the number of given ids; with all ids it is one more than `get_max`, so every stored id is below it and the last index is a stored id (0 when no table holds a value) |
| `Materialise.FillMatrix` | src/mpradb/database/db_to_sqlite.py:571-604 | the fill loop returns the lookups, and each cell holds the last value written there or zero, as the fill function says |
| `Materialise.PlaceStep` | src/mpradb/database/db_to_sqlite.py:580-601 | one more row advances the fill by that row |
| `Materialise.PlaceFailsFrom` | src/mpradb/database/db_to_sqlite.py:601 | after the first index numpy refuses, the fill's error is final |
| `Materialise.RowIdsOf` | src/mpradb/database/db_to_sqlite.py:580 | there is one row id per fetched row |
| `Materialise.ColIdsOf` | src/mpradb/database/db_to_sqlite.py:580 | there is one column id per fetched row |
| `Materialise.AxisStep` | src/mpradb/database/db_to_sqlite.py:581-600 | one more id keeps the lookup its first-seen numbering, numbers the id at its own entry, and fits exactly when the write index does |
| `Materialise.PlaceIds` | src/mpradb/database/db_to_sqlite.py:580-600 | after the fill each lookup numbers the given ids once each, in first-seen order |
| `Materialise.PlaceCell` | src/mpradb/database/db_to_sqlite.py:580-601 | row k's value is written at its ids' numbers, or at the raw ids when they are not mapped |
| `Materialise.PlaceOkIff` | src/mpradb/database/db_to_sqlite.py:580-601 | the fill succeeds exactly when the numbered ids fit their dimension and the raw ids are valid numpy indices |
| `Materialise.PlaceRow` | src/mpradb/database/db_to_sqlite.py:580-601 | definition of one pass of the `to_numpy` fill loop: number the ids when mapped, then write the value; stated by `Materialise.PlaceOkIff` and `Materialise.FillMatrix` |
| `Engine.GroupNames` | src/mpradb/database/db_to_sqlite.py:327 | a group entry's name is the column object's name, or the string itself |
| `Engine.Wrapped` | src/mpradb/database/db_to_sqlite.py:311-312 | each aggregated column becomes `fn(col)` |
| `Engine.AddMissingSpec` | src/mpradb/database/db_to_sqlite.py:311-314 | appending the missing columns keeps the old query columns in front, adds exactly the new ones, and adds no duplicate |
| `Engine.PlannedQuery` | src/mpradb/database/db_to_sqlite.py:496-505 | definition of the query execute_selection builds from a plan: the first table in FROM (add_table_to_query, lines 346-352) and the joins of add_joins when there is more than one table; stated by `Engine.Database.RunPlanned` |
| `Engine.PlannedText` | src/mpradb/database/db_to_sqlite.py:496-511 | definition of the text emitted for a plan: get_sql_query on the planned query, with the ambiguity rewrite present exactly when grouping or joining; stated by `Engine.Database.RunPlanned` |
| `Engine.SelectionText` | src/mpradb/database/db_to_sqlite.py:493-511 | definition of a text execute_selection may emit: the planned text of some plan get_tables may return; stated by `Engine.Database.ExecuteSelection` |
| `Engine.Planning` | src/mpradb/database/db_to_sqlite.py:764-832 | definition of what get_tables is known to return: unresolved exactly for an unknown base name, a plan satisfying `PlanOk`, a disconnected covering table, and no crash on a resolvable query; stated by `Planner.PlanTables` and used by `Engine.Database.ExecuteSelection` |
| `Engine.RunsClean` | src/mpradb/database/db_to_sqlite.py:496-505 | definition of a plan execute_selection finishes: a select is pending, add_joins attaches every pair, and every base name is known when columns are checked for ambiguity (lines 498-499, 474); stated by `Engine.Database.RunPlanned` |
| `Planner.AmbiguityOk` | src/mpradb/database/db_to_sqlite.py:469-481 | definition of a valid ambiguity rewrite: each ambiguous column once, each qualified by a table that holds it; stated by `Planner.CheckForAmbiguousColumns` |
| `Planner.PlanOk` | src/mpradb/database/db_to_sqlite.py:764-832 | definition of a plan get_tables may return: the covering tables, the first covering table first, no duplicates, and joins along stored edges when there is more than one table; stated by `Planner.PlanTables` |
| `Engine.Database.constructor` | src/mpradb/database/db_to_sqlite.py:168-169 | a new object starts with an empty query over an empty catalog |
| `Engine.Database.ResetQuery` | src/mpradb/database/db_to_sqlite.py:172-183 | every builder field returns to its initial value and the catalog is kept |
| `Engine.Database.Select` | src/mpradb/database/db_to_sqlite.py:224-242 | an unknown column raises its message and changes nothing; otherwise an earlier select is discarded, the columns join the query columns and the table defaults to `table_name` |
| `Engine.Database.Where` | src/mpradb/database/db_to_sqlite.py:216-222 | a second where raises and changes nothing; otherwise the column's names join the query columns and the WHERE text is its fragment |
| `Engine.Database.AddFuncToSelect` | src/mpradb/database/db_to_sqlite.py:303-316 | without a select it raises; otherwise each `fn(col)` is appended to the select, each new column joins the query columns, and `group_concat` records its columns |
| `Engine.Database.Groupby` | src/mpradb/database/db_to_sqlite.py:325-334 | the group names are set and join the query columns, and the aggregates are added as add_func_to_select adds them |
| `Engine.Database.Orderby` | src/mpradb/database/db_to_sqlite.py:336-340 | the order columns join the query columns and the ORDER BY text is set |
| `Engine.Database.Limit` | src/mpradb/database/db_to_sqlite.py:342-344 | only the LIMIT text changes |
| `Engine.Database.AddTableToQuery` | src/mpradb/database/db_to_sqlite.py:346-352 | without a select it raises; otherwise `table_name` in the FROM table is replaced and the table is recorded as added |
| `Engine.Database.AddJoins` | src/mpradb/database/db_to_sqlite.py:281-301 | the joins and added tables become what the join rounds compute, and nothing else changes; a round that adds nothing is an error |
| `Engine.Database.GetSqlQuery` | src/mpradb/database/db_to_sqlite.py:192-209 | without a select it raises; otherwise it returns the clause text and the select columns as they were, and resets when asked |
| `Engine.Database.ExecuteSelection` | src/mpradb/database/db_to_sqlite.py:493-511 | the plan is one get_tables may return (`Planning`); an unknown column resets the builder and raises naming it; a covering table the plan never reaches resets the builder and raises "Selection is not possible!"; a crash during planning leaves the builder as it was; on a plan, the text is returned exactly when the plan runs clean (`RunsClean`), and it is then the builder's query with the first planned table in FROM, the joins added, and ambiguous columns qualified exactly when grouping or joining, with the original select columns and a reset builder when asked |
| `Engine.Database.RunPlanned` | src/mpradb/database/db_to_sqlite.py:496-511 | once the tables are planned, the text is returned exactly when the plan runs clean; it is then the clause text of the query after the first table is put in FROM and the joins are added, qualified exactly when grouping or joining, with the original select columns; the builder is reset when asked |
| `Engine.Database.ToList` | src/mpradb/database/db_to_sqlite.py:538-553 | a failed plan or a plan that does not run clean raises; on a plan that runs clean the text is the planned one and the result is `ToListRows` of the rows fetched for it, rows whenever the fetch is non-empty, with the builder reset |
| `Engine.Database.ToDict` | src/mpradb/database/db_to_sqlite.py:616-646 | a failed plan or a plan that does not run clean raises; on a plan that runs clean the text is the planned one, the builder is reset, a key that is not a select column (or a select of other than two columns without a key) raises, and otherwise the result is the dictionary `DictOf` builds from the fetched rows |
| `Engine.Database.ToNumpy` | src/mpradb/database/db_to_sqlite.py:557-604 | a failed plan or a plan that does not run clean raises; on a plan that runs clean the text is the planned one and the matrix is returned exactly when there are three select columns and every index fits; it then holds, at dimensions given by the id counts or the largest id plus one, the last value written to each cell or zero, with the id lookups |
| `Engine.Database.GetItem` | src/mpradb/database/db_to_sqlite.py:999-1020 | a bad key type or an unknown name raises; a name with a pending select gives a fresh column object; otherwise the names, or a table's columns, start a selection exactly when they are all columns |
| `Engine.Database.AddConnection` | src/mpradb/database/db_to_sqlite.py:905-923 | the adjacency and the edge map become those of the catalog's add_connection, nothing else changes |
| `Engine.Database.GetForeignKeys` | src/mpradb/database/db_to_sqlite.py:892-902 | both maps are rebuilt from empty out of the foreign-key rows |
| `Engine.Database.UpdateTableConn` | src/mpradb/database/db_to_sqlite.py:926-930 | every two tables listed for a column are connected on it, column by column |
| `Engine.Database.DeclareColumn` | src/mpradb/database/db_to_sqlite.py:979-988 | one declared column updates the lookups as the catalog step says, or raises its type conflict |
| `Engine.Database.ReadTable` | src/mpradb/database/db_to_sqlite.py:976-988 | a table's declared columns update the lookups in turn, or raise the first type conflict |
| `Engine.Database.BuildColumnLookups` | src/mpradb/database/db_to_sqlite.py:970-988 | the lookups become those the schema builds, or the first type conflict is raised |
| `Engine.Database.Load` | src/mpradb/database/db_to_sqlite.py:431-435 | loading succeeds exactly when the schema has no type conflict, and then the lookups and the connections come from the schema and the foreign keys |
| `Engine.Database.NewTable` | src/mpradb/database/db_to_sqlite.py:442-466 | an unknown data type raises and changes nothing; otherwise the CREATE TABLE text lists the declared columns and keys, and the catalog is re-read |
| `Engine.SetdefaultAppend` | src/mpradb/database/db_to_sqlite.py:910-919 | creating both adjacency lists and appending each table to the other's is the catalog's double append |

## Left out

- SQLite itself is not modelled: opening, `executescript`, `PRAGMA foreign_keys`, cursors and the `fetchone`/`fetchmany` modes of `execute`. The model replaces it with input data: what `PRAGMA table_info` and `PRAGMA foreign_key_list` report, the table list, and the fetched rows.
- `insert`, `drop_table`, `check_table`, `to_df`, `generate_output`, `get_hash`, `close`, `get_distinct`, `substr` and `check_substr` are not modelled. They hand statements to SQLite or rows to pandas and numpy, and add no logic of their own beyond what is modelled (`get_distinct` also refers to an unbound name and cannot run). `get_max` is modelled on the per-table `MAX` values its queries return (`rowMaxes`, `colMaxes` of `to_numpy`).
- Transactions (`BEGIN TRANSACTION`, `COMMIT`, `ROLLBACK`) and logging are not modelled; they have no effect on the values the model computes.
- Floating-point values of the query engine are kept as their text (`FloatLit`, `RealCell`). Their numerical meaning is not modelled.
- Engine.Database.ToNumpy: models `column_key` and `row_key` left at None only. The key lookups go through a second query and `to_dict`, which the model does not chain.
- Engine.Database.ToNumpy: a numpy index is an integer. Rows with float ids, and numpy broadcasting, are not modelled.
- Engine.Database.ToNumpy: the matrix holds `int`. The float values numpy would store are not modelled.
- Planner.FindPath: the depth Python's recursion limit allows is a `fuel` parameter. Running out of fuel is reported as the RecursionError, which the parent's bare `except` turns into "try the next neighbour".
- Engine.Database.AddJoins: a round that adds nothing but defers a pair recurses until Python's recursion limit. The model reports that error at once instead of counting frames.
- Planner.CheckForAmbiguousColumns: the source iterates over a `set`, so its order, and the qualifying table it picks from a `set`, are unspecified. The contract states only that the rewrite chosen is one of the tables that qualify.
- The `_iso` one-way connection described in the docstring of `get_foriegn_keys` is not modelled. `unidirectional` is hard-wired to False, so the model makes every connection two-way, as the code does.
- The commented-out block of `update_table_conn` is not modelled.
- The `__repr__` query preview of the builder is not modelled.
- `add_kozaks` and `score_kozak` (kozak.py), `add_uorfs` and the SQL of `to_db` (orf_finder.py), and `add_kmers` (kmer_counter.py) are not modelled. They read files or the database and pass rows to `add_features`, which is modelled on its own.
- `read_accepted_hits`, `read_fasta`, `launch_count_umi`, `path_test`, `main` and the `ReadPair` class of count_reads.py are not modelled. They are file I/O, process pools and command-line handling.
- `add_data` (add_data.py, line 85 on) is not modelled: loading the count files and inserting them is I/O.
- The other methods of mpra_db.py are not modelled. These are `add_selectors`, `load_data`, `load_features`, `make_csc`, `get_data`, `get_selector`, `get_reporters`, `get_features`, `get_feature_slice` (it calls `eval`), `get_reporter_fselectors`, `get_constants`, `add_parameters` and the properties. They are database reads and scipy or numpy conversions.
- `get_feature_filtered_reporter_ids` and `get_feature_ids` of selector.py are not modelled, nor the `data` and `features` properties. They evaluate feature filters inside the database.
- Selector.Selector.GetItem: for the arrays it returns only the row and column indices it would read. numpy's fancy indexing of `db.data` and `db.features` is not modelled.
- HotEncoded.ToDb: `kmax` and `pos_to_exclude` are always given. With `params.get` returning None, the source raises inside the predicate builder or at `in None`; the model does not cover that.
- Python's `int()` also accepts surrounding whitespace and `_` between digits. The model's `ParseInt` accepts only an optional `-` or `+` followed by ASCII digits, so such text is an error in the model.
- CountReads.Typed: `float(v)` is modelled by `ParseFloat` on decimal literals (sign, digits with an optional point, optional exponent), held exactly as a fraction. Rounding to the nearest double, `inf`, `nan`, surrounding whitespace and `_` between digits are not modelled; such text is a ValueError in the model.
- CountReads.PassedOf: a float NM is compared by its exact decimal value, not by the double Python holds; the two differ only for literals a double cannot represent at the compared integer.
- OrfFinder.BatchOrfs: `main_orf_start` reaches `batch_orfs` as `float(v)` of the stored constant (`get_constants`, mpra_db.py:295-306, not part of this model), so the model reads the stored text with `FloatToInt`, `int(float(v))`. A constant that is not a decimal literal is a ValueError in the model, with the limits of `ParseFloat` above.
- CountReads.MergeDic: the merged dictionary is a Dafny `map`, so the insertion order of Python's dict, which keeps first-seen sample names in order, is not modelled.
- SampleInfo.AddSampleInfo: the source writes the ids and names into the caller's `sample_dic` and `run_dic` dictionaries in place (add_data.py:38-56), so the caller sees them changed afterwards. The model reads those dictionaries as values and returns the rows built from the updated values, so that in-place update of the caller's input is not modelled.
- The sample-info values are integers or strings (`SampleInfo.Val`). Floats, None and other Python values in a sample-info row are not modelled.
- The message of an unbound `ucounter` in `batch_kmers` differs between Python versions. The model names the error and the variable only.
- Plotting, machine-learning and the command-line scripts of the repository are not part of this model.

## Findings

| source | as written | input that shows it | evidently intended | confidence | as-written member | corrected member |
|---|---|---|---|---|---|---|
| src/naptrap/preprocessing/count_unique.py:51-60 | when the first UMI absorbs the sentinel `Umi('')`, `pop(umi2.seq)` deletes the key `''`, which is a real UMI's key when its sequence is empty | `Umi_counter([''])` ends with `total_count` 0 | every non-empty input keeps at least one UMI | not executed | `UmiCount.EmptyUmiLost` | `UmiCount.ClusteredCounts` |
| src/mpradb/db_features/orf_finder.py:80-81 | the Kozak window `seq[n-9:n+6]` has a negative start for n < 9; Python reads that from the end, so the slice is empty and the ORF records no start codon | `ATGTAACCCCCCCCC` with the main ORF at 10: the ORF at 0 gets start codon `''` | the window is clipped at 0 and the start codon is the codon at n | not executed | `OrfFinder.KozakWindowExample`, `OrfFinder.BatchWindowExample` | `OrfFinder.OrfSpan`, `OrfFinder.BatchWindowExample` |
| src/db_data/add_data.py:64 | reusing a stored replicate sets the replicate counter back to that replicate's id, so the next new replicate reuses an id | three runs: new, stored (id 1), new. The replicate rows get ids 2 and 2 | new replicates get consecutive ids above every stored id | not executed | `SampleInfo.CounterResetExample` | `SampleInfo.ReplicateIdsFresh` |
| src/naptrap/database/selector.py:41 | the intersection of the filter sets is computed and discarded, so only the first read filter selects | filter sets {1, 2} and {2} select {1, 2} | a reporter is kept when it passes every filter | not executed | `Selector.DroppedIntersection` | `Selector.CombineIntersects` |
| src/naptrap/database/selector.py:112 | with both kinds of column, the feature matrix is read at the data-group indices | `sel[:, [g, f]]`, a data group and a feature: the feature part reads index `groups[g]` | the feature part is read at the feature indices | not executed | `Selector.MixedColumns` | `Selector.StackedColumns` |
