# bayes_abund core in Dafny

bayes_abund classifies DNA sequences by taxon. Its core does two jobs:

- **`KmerTree`** (`src/tree.py`) is a k-mer frequency index. It slides a window of width k over training sequences and counts every window that holds no ignored character. It stores `len(s) - k + 1` for the most recent training sequence s as the denominator `kmer_count`. It answers count, frequency and naive-Bayes likelihood queries. In the likelihood, an unseen window contributes `pseudocount / kmer_count`.
- **`extract_taxon`** (`src/utils.py`) takes a SILVA FASTA header and reads the taxon of one rank from its third tab-separated field. When that rank is missing or empty, it falls back to `"Unclassified "` followed by the last rank left after removing the first empty one.

The files:

- `outcomes.dfy` (module `Outcomes`) holds `Option`, `Result` and `Outcome`. These stand in for the Python exceptions.
- `tree.dfy` (module `Tree`) holds the class `KmerTree`.
  - The fields `k`, `alphabet` and `ignored` are constants.
  - `kmerDict` is a `map<string, nat>` from k-mer to count. `kmerCount` is an `int`.
  - `AddSequence`, `GetCount`, `GetFreq` and `GetSeqProb` are methods. Each is proved against specification functions:
    - `Occurrences` counts the clean windows of a training string.
    - `Frequency`, `Factors` and `Likelihood` are exact `real` arithmetic.
  - `Create` models `__init__`: the overlap check followed by the first training call.
- `nested_trie.dfy` (module `NestedTrie`) models the nested dictionaries that the source actually builds. It proves that the walks of `add_sequence` and `get_count` (`Bump`, `Touch`) act on that trie exactly as the flat map is updated and read. The whole training loop (`Train`) adds to the trie the same occurrence counts that `KmerTree.AddSequence` adds to the map.
- `tree_properties.dfy` (module `TreeProperties`) proves what the index promises:
  - where counts come from;
  - the bounds on frequencies, and how training twice breaks them;
  - sign and monotonicity of the likelihood in the pseudocount;
  - that the likelihood depends only on the query's own windows;
  - the expected values of `test/test_tree.py`.
- `tree_examples.dfy` (module `TreeExamples`) states each scenario of `test/test_tree.py` as client code that Dafny verifies against the contracts of the `KmerTree` methods.
- `utils.dfy` (module `Utils`) holds `extract_taxon` as functions over `seq<string>`:
  - `Split` is Python's `str.split`;
  - `PyIndex` is list indexing, negative positions included;
  - `RemoveFirst` is `list.remove`, returning `None` where Python raises `ValueError`.
- `utils_properties.dfy` (module `UtilsProperties`) proves:
  - the split/join round trips;
  - that only the third field is read;
  - the direct, negative-index and fallback branches and their error cases;
  - the expected values of `test/test_utils.py`.

Four behaviours of the code are easy to misread; the model follows the code:

- **`kmer_count` can be negative.** `len(sequence) - k + 1` is stored as it stands, so a training sequence shorter than k - 1 gives a negative denominator. A seen k-mer then has a negative frequency (`TreeExamples.NegativeDenominatorExample`). Since that frequency is not positive, every window of a query, seen or not, then contributes `pseudocount / kmer_count` to the likelihood (`Tree.Factor`). The sign and monotonicity lemmas of the likelihood therefore require a positive `kmer_count`. Over a negative one, a larger pseudocount can give a smaller score (`TreeProperties.NegativeDenominatorReversesPseudocount`).
- **A zero denominator is an error.** When `kmer_count` is 0, `get_freq` and `get_seq_prob` raise `ZeroDivisionError`. The model returns `Failure(ZeroDenominator)`; it is not a precondition.
  - `get_seq_prob` divides before its loop, so it fails even for a query shorter than k.
- **The `get_count` docstring.** It says that a k-mer with characters outside the alphabet gets the count 0 (src/tree.py:63). The code raises `KmerTreeException` for it (src/tree.py:69-72), and `Tree.KmerTree.GetCount` returns `Failure(ForeignCharacter)`.
- **The fallback's docstring.** It promises "the smallest non-empty taxon". The code returns the last element left after removing the first empty rank. That element can itself be empty: `"A;B;;"` at rank 3 gives `"Unclassified "` (`UtilsProperties.FallbackAfterTwoEmptyRanks`).

## Model

| member | source | states |
|---|---|---|
| Tree.Chars | src/tree.py:21 | Python's set(s): the characters occurring in s, as used in the overlap, alphabet and ignored-character tests |
| Tree.Hits | src/tree.py:41-47 | counts the offsets below n whose window equals the clean k-mer w; never more than n |
| Tree.Lookup | src/tree.py:78-81 | the stored count of a k-mer, or 0 where the dictionary raises KeyError |
| Tree.Clean | src/tree.py:43-47 | a window is counted only when it shares no character with the ignored set |
| Tree.Windows | src/tree.py:41 | the number of offsets range(len(s) - k + 1) produces, 0 when that is not positive |
| Tree.Window | src/tree.py:42 | the slice sequence[i : i + k] at a valid offset, always k long |
| Tree.Occurrences | src/tree.py:41-56 | what one training call adds to the count of w: at most the number of windows, and nothing unless w is k long and clean |
| Tree.Frequency | src/tree.py:89 | count over denominator; positive exactly when the k-mer was seen and the denominator is positive |
| Tree.Factors | src/tree.py:106-112 | one factor per query window, in window order: the frequency when positive, else pseudocount / kmer_count |
| Tree.Factor | src/tree.py:106-112 | over a positive denominator a seen window contributes count / kmer_count and an unseen one pseudocount / kmer_count; over a negative denominator every window contributes pseudocount / kmer_count, its frequency not being positive |
| Tree.Prod | src/tree.py:105-112 | the running product of get_seq_prob: start at 1.0 and multiply the factors in from left to right |
| Tree.Likelihood | src/tree.py:105-113 | the product of the window factors, 1 for a query without windows; its sign and monotonicity are the TreeProperties lemmas |
| Tree.ProdPrefix | src/tree.py:110-112 | multiplying the running product by the next factor gives the product of the longer prefix |
| Tree.KmerTree.Init | src/tree.py:18-24 | an empty table with denominator 0 and the given k, alphabet and ignored set |
| Tree.KmerTree.Valid | src/tree.py:18-24 | the class invariant: k >= 1, disjoint character sets, and every stored k-mer k long, over the alphabet and seen at least once; Init establishes it and AddSequence keeps it |
| Tree.KmerTree.Admissible | src/tree.py:37 | add_sequence accepts exactly the sequences over alphabet ∪ ignored |
| Tree.KmerTree.AddSequence | src/tree.py:28-57 | a character outside alphabet ∪ ignored fails and changes nothing; otherwise each count grows by exactly the number of clean windows equal to it, no key is removed, kmer_count becomes len(s) - k + 1, and every stored k-mer stays k long, over the alphabet and positive |
| Tree.KmerTree.GetCount | src/tree.py:59-81 | wrong length fails, then a character outside the alphabet fails, otherwise the stored count (0 if never stored); the table is not modified |
| Tree.KmerTree.GetFreq | src/tree.py:83-89 | the errors of get_count, then ZeroDivisionError on a zero denominator, otherwise count / kmer_count |
| Tree.KmerTree.GetSeqProb | src/tree.py:91-113 | a character outside the alphabet fails, then a zero denominator fails, otherwise the product of the window factors; 1 for a query shorter than k |
| Tree.Create | src/tree.py:11-25 | overlapping character sets fail; then a foreign character in the first sequence fails; then k <= 0 fails with the IndexError of the empty window; succeeds exactly when none of these happens, and then holds exactly the occurrence counts of that sequence with denominator len(s) - k + 1 |
| TreeProperties.HitsSupport | src/tree.py:41-47 | a k-mer counted at all is k long, clean and made of characters of the training string |
| TreeProperties.OccurrencesSupport | src/tree.py:37-47 | a k-mer that gains count from an admissible sequence is k long, clean and over the alphabet |
| TreeProperties.HitsAreOffsets | src/tree.py:41-47 | the count below n is the number of offsets whose window is w when w is clean, and 0 when w holds an ignored character |
| TreeProperties.OccurrencesAreOffsets | src/tree.py:41-56 | a training call adds to w exactly the number of offsets i in [0, len(s) - k] with s[i:i+k] == w and w clean |
| TreeProperties.SingleIngestionFrequency | src/tree.py:57 | after a single training sequence every frequency lies in [0, 1], as the get_freq docstring claims |
| TreeProperties.RatioAtMostOne | src/tree.py:89 | helper of SingleIngestionFrequency: a count no larger than a positive denominator gives a ratio in [0, 1] |
| TreeProperties.RepeatedIngestionFrequencyAboveOne | src/tree.py:57 | because kmer_count is overwritten, training "ACACACC" then "ACA" gives ACA the frequency 3 |
| TreeProperties.MulMonotone | src/tree.py:110-112 | helper of ProdMonotone: one multiplication step is monotone in both factors, strictly when either grows |
| TreeProperties.ProdMonotone | src/tree.py:105-113 | when every factor is non-negative and no larger than its counterpart, and every counterpart is positive, the product is no larger, and strictly smaller when one factor is |
| TreeProperties.ProdSign | src/tree.py:105-113 | non-negative factors give a non-negative product, positive ones a positive product |
| TreeProperties.MulSign | src/tree.py:110-112 | helper of ProdSign: one multiplication step keeps the sign |
| TreeProperties.FactorMonotone | src/tree.py:106-112 | over a positive kmer_count, for pseudocounts 0 <= p1 < p2: a window's factor grows strictly with the pseudocount when the window is unseen, and is the frequency otherwise |
| TreeProperties.FactorSign | src/tree.py:106-112 | over a positive kmer_count, a factor is non-negative for a pseudocount >= 0 and positive for a positive one |
| TreeProperties.LikelihoodSign | src/tree.py:91-113 | with a positive denominator the score is non-negative, and positive for a positive pseudocount |
| TreeProperties.LikelihoodPseudocountMonotone | src/tree.py:97-99 | over a positive kmer_count, for pseudocounts 0 <= p1 < p2: when some window is unseen, the larger pseudocount gives a strictly larger score |
| TreeProperties.NegativeDenominatorReversesPseudocount | src/tree.py:97-112 | over kmer_count -1 the unseen GGG scores -0.1 with pseudocount 0.1 and -0.2 with 0.2, so the docstring's "the lesser the value, the less probability" fails for a negative denominator |
| TreeProperties.LikelihoodDependsOnlyOnWindows | src/tree.py:107-112 | two tables that agree on the query's windows give the query the same score |
| TreeProperties.TrainingOnACACAC | test/test_tree.py:30-31 | training "ACACAC" followed by a letter x other than A and N counts ACA and CAC twice, ACx once and every other k-mer zero times; the scoring test trains on x = C and x = T |
| TreeProperties.TrainingExample | test/test_tree.py:9-14 | training "ACACACC" with k = 3 counts ACA 2, CAC 2, ACC 1, GTG 0 |
| TreeProperties.FrequencyExample | test/test_tree.py:17-22 | the frequencies of that table are 0.4, 0.4, 0.2 and 0 |
| TreeProperties.Window3 | src/tree.py:42 | helper of the worked examples: the slice sequence[i : i + 3] is the three letters at i, i + 1 and i + 2 |
| TreeProperties.FiveWindows | src/tree.py:41-47 | helper of the worked examples: on a sequence with five windows of width 3, training adds one to w per window equal to w, and nothing when w holds an ignored character |
| TreeProperties.IgnoredWindowsExample | src/tree.py:43-47 | in "ACTNACG" the windows CTN, TNA and NAC, which hold N, are not counted |
| TreeProperties.CleanWindowsExample | src/tree.py:41-56 | in "ACTNACG" the clean windows ACT and ACG are counted once each |
| TreeProperties.NotAWindow | src/tree.py:41-42 | a k-mer that is no window of s gains nothing from s |
| TreeProperties.FirstTable | test/test_tree.py:30 | the counts the scoring test reads from the index trained on "ACACACC" |
| TreeProperties.SecondTable | test/test_tree.py:31 | the counts the scoring test reads from the index trained on "ACACACT"; ACC is 0 there |
| TreeProperties.AgreeOnGGACAC | test/test_tree.py:32-33 | two tables agreeing on GGA, GAC, ACA and CAC agree on every window of GGACAC |
| TreeProperties.ScoreWithoutDiscriminatingKmer | test/test_tree.py:30-33 | GGACAC scores the same under both indices |
| TreeProperties.FourFactors | src/tree.py:107-112 | helper of ScoreWithDiscriminatingKmer: a query with four windows has exactly the four factors of those windows, in order |
| TreeProperties.CACCGGFactors | test/test_tree.py:34-35 | with CAC seen twice and CCG, CGG unseen, the factors of CACCGG over denominator 5 are 0.4, the factor of ACC, 0.02, 0.02 |
| TreeProperties.SeenACCScoresHigher | test/test_tree.py:34-35 | helper of ScoreWithDiscriminatingKmer: two tables over denominator 5 that agree on CAC, CCG and CGG, where only the first has seen ACC, score CACCGG strictly higher under the first |
| TreeProperties.ScoreWithDiscriminatingKmer | test/test_tree.py:34-35 | CACCGG scores strictly higher under the index trained on "ACACACC" |
| TreeProperties.PseudocountExample | test/test_tree.py:38-42 | CACCGG scores strictly higher with pseudocount 0.2 than with 0.1 |
| TreeExamples.Trained | test/test_tree.py:10 | constructing with k = 3, alphabet ACTG and ignored N gives the occurrence counts of the sequence and the denominator len(s) - 2 |
| TreeExamples.GTGOverAlphabet | test/test_tree.py:14 | helper of the scenarios: GTG is a k-mer over the alphabet, so its lookup succeeds |
| NestedTrie.Get | src/tree.py:78-81 | the trie read focus[kmer[-1]] at the end of the path w, with a missing level or letter (KeyError) giving 0 |
| NestedTrie.Child | src/tree.py:75-76 | the level under a letter, or the empty dictionary that `focus[letter] = dict()` creates when the letter is missing |
| NestedTrie.Touch | src/tree.py:73-77 | the walk of get_count creates the missing levels along kmer[:-1] and keeps the trie of depth k |
| NestedTrie.Bump | src/tree.py:48-56 | the walk of add_sequence creates missing levels and increments or creates the leaf, keeping depth k |
| NestedTrie.BumpGet | src/tree.py:48-56 | incrementing along w raises the count of w by one and leaves every other count unchanged |
| NestedTrie.TouchGet | src/tree.py:73-77 | the empty levels that get_count inserts change no count |
| NestedTrie.GetOffDepth | src/tree.py:78-81 | a path of a length other than k reads 0 |
| NestedTrie.EmptyRepresents | src/tree.py:23 | the empty dictionary holds the same counts as the empty map |
| NestedTrie.BumpRepresents | src/tree.py:48-56 | the trie update of one counted window matches the map update of AddSequence |
| NestedTrie.TouchRepresents | src/tree.py:73-81 | the lookup of get_count, walk included, reads the map's count and leaves a trie holding the same counts |
| NestedTrie.RepresentedKeysHaveDepth | src/tree.py:48-56 | a map represented by a trie of depth k holds counts only for k-long strings, as Valid requires of kmerDict |
| NestedTrie.Train | src/tree.py:41-56 | the loop of add_sequence on the nested dictionaries: every clean window is added, every other skipped, depth k kept |
| NestedTrie.TrainGet | src/tree.py:41-56 | after n offsets every path has gained the number of its clean windows among them |
| NestedTrie.TrainRepresents | src/tree.py:41-56 | the whole loop adds the occurrences of the sequence to every count, as KmerTree.AddSequence does on the flat map |
| Utils.Split | src/utils.py:13-14 | str.split on one character gives at least one part, none containing the separator |
| Utils.PyIndex | src/utils.py:15-16 | Python indexing: defined exactly for -len <= i < len, counting from the end for negative i |
| Utils.FirstIndex | src/utils.py:18 | the position of the first occurrence: it holds x and nothing before it does |
| Utils.RemoveFirst | src/utils.py:18 | list.remove raises exactly when x is absent, and otherwise drops the first occurrence only |
| Utils.Unclassified | src/utils.py:17-19 | ValueError exactly when no rank is empty; IndexError exactly when the only rank is empty; otherwise "Unclassified " + one of the ranks |
| Utils.TaxonOfField | src/utils.py:14-19 | never the missing-field error; a returned taxon holds no ';' |
| Utils.ExtractTaxon | src/utils.py:6-19 | IndexError on the header exactly when it has fewer than three tab-separated fields; a returned taxon holds no ';'; the remaining cases are stated by UtilsProperties.RankHit, NegativePosition, UnclassifiedFallback, FallbackWithoutEmptyRank, TooFewFields and ThirdFieldOnly |
| UtilsProperties.SplitJoin | src/utils.py:13-14 | joining the parts of a split gives back the string |
| UtilsProperties.SplitWithoutSeparator | src/utils.py:13-14 | a string without the separator splits into itself alone |
| UtilsProperties.SplitAtSeparator | src/utils.py:13-14 | a separator-free prefix followed by the separator is the first part |
| UtilsProperties.JoinSplit | src/utils.py:13-14 | splitting a join of separator-free parts gives back the parts |
| UtilsProperties.SplitPartsFromSource | src/utils.py:14 | every character of every part comes from the split string |
| UtilsProperties.ThirdFieldOnly | src/utils.py:13 | only the third tab-separated field of the header affects the result |
| UtilsProperties.RankHit | src/utils.py:14-16 | an in-range, non-empty rank is returned exactly, and contains no ';' and no tab |
| UtilsProperties.NegativePosition | src/utils.py:15-16 | a negative position passes the range test and reads the rank counted from the end |
| UtilsProperties.PositionTooNegative | src/utils.py:15 | a position below -len(taxa) raises IndexError |
| UtilsProperties.UnclassifiedLast | src/utils.py:18-19 | after remove(""), taxa[-1] is the last rank when the removed one came earlier, the one before it when the removed one was last, and IndexError for a lone empty rank |
| UtilsProperties.FallbackBranch | src/utils.py:15-19 | an out-of-range or empty rank sends extract_taxon to the fallback branch |
| UtilsProperties.UnclassifiedFallback | src/utils.py:17-19 | an out-of-range or empty rank gives "Unclassified " + the last rank left once the first empty rank is removed, or IndexError when nothing is left |
| UtilsProperties.FallbackWithoutEmptyRank | src/utils.py:18 | with no empty rank, an out-of-range position raises ValueError |
| UtilsProperties.TooFewFields | src/utils.py:13 | a header with fewer than three tab-separated fields raises IndexError |
| UtilsProperties.JoinCons | src/utils.py:14 | a join unfolds on its first part |
| UtilsProperties.JoinAvoids | src/utils.py:13-14 | a character that is neither the separator nor in any part is not in the join |
| UtilsProperties.SilvaRanksPlain | test/test_utils.py:9-17 | the ranks of the test header hold no ';' and no tab |
| UtilsProperties.SilvaTaxonomySplits | test/test_utils.py:8 | the taxonomy field of the test header splits into its six ranks and a trailing empty one |
| UtilsProperties.SilvaHeaderSplits | test/test_utils.py:8 | the test header splits into its three fields |
| UtilsProperties.SilvaHeaderExample | test/test_utils.py:7-18 | positions 0 to 5 give the six ranks in order and position 6 gives "Unclassified Oceanicella" |
| UtilsProperties.TwoEmptyRanksSplit | src/utils.py:14 | "A;B;;" splits into A, B and two empty ranks |
| UtilsProperties.FallbackAfterTwoEmptyRanks | src/utils.py:10-11 | "A;B;;" at rank 3 gives "Unclassified " with an empty name, not the smallest non-empty taxon the docstring promises |
| UtilsProperties.EmptyTaxonomyField | src/utils.py:17-19 | an empty taxonomy field leaves nothing after remove(""), so taxa[-1] raises IndexError |

## Left out

- Tree.KmerTree.Init, Tree.KmerTree.Valid: assume `k >= 1`. `Tree.Create` takes any integer k, and for `k <= 0` it fails after the two character checks. That matches the source, where the training loop always meets an empty window and `kmer[-1]` raises IndexError on it (src/tree.py:41-53). For k = 0 every window is empty. For negative k, every window before offset -k has length len(sequence) + k. So the empty window comes at offset 0 when len(sequence) <= -k, and otherwise at offset -k, where it is `sequence[-k:0]`. In the second case the loop first writes the counts of the windows of length len(sequence) + k. These counts are not modelled, because the half-built object is never returned.
- Floating point: frequencies and scores are exact `real` values. IEEE rounding is not modelled, nor is underflow of long products. The expected `0.4` and `0.2` of the tests therefore hold exactly.
- Tree.Frequency, Tree.Factors, Tree.Likelihood: these require a non-zero denominator, because they are the mathematics behind the methods. The methods return `ZeroDenominator` before they would divide by zero.
- `kmer_dict` as a Python object: `KmerTree` keeps a flat map. `NestedTrie` relates the nested dictionaries to it as values. Dictionary identity, aliasing and the in-place mutation of shared sub-dictionaries are not modelled.
- Tree.KmerTree.GetCount: it neither modifies the table nor walks the trie. The empty levels that the walk inserts are modelled and proved harmless only in `NestedTrie.Touch` and `NestedTrie.TouchRepresents`.
- Exception messages: only the cause of a failure is kept. This includes the un-interpolated message of the length error in `get_count`.
- Default arguments (`k = 4`, `"ACTG"`, `"ACTGACTG"`, `"N"`, `pseudocount = 0.1`, `position = 0`): every parameter is explicit.
- The return annotation `list[str]` of `extract_taxon`: the function returns a string, and so does the model.
- `classify.py` and `ungap.py` are not part of this model. They are command-line and FASTA file handling built on Biopython, and their only logic is calls to `extract_taxon` and `str.replace`.
