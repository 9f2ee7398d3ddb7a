# Gaussian mixtures and recognised utterances

This project models two pieces of a spoken dialogue system in Dafny and
proves properties about them.

- **The Gaussian mixture model (GMM)** is a mixture of Gaussians with
  diagonal covariance (`GaussianMixture`).
  - `mixup` grows it by repeatedly splitting the heaviest component.
  - `fit` trains it by expectation-maximisation. The weights and
    variances of the M-step are smoothed by `EPS`, and the variances are
    floored by `min_covar`.
  - Training stops early when the mean log-likelihood moves by less than
    `thresh`.
- **Recognised utterances** (`Utterances`, `Features`):
  - an utterance is the list of whitespace-separated tokens of a line. It
    can be searched for a phrase (`index`, `in`), have a phrase replaced,
    and be compared with other utterances;
  - utterances are read from `key => utterance` lines;
  - N-best lists hold `[probability, utterance]` entries that can be
    appended to and sorted in descending order. As written, `merge` only
    works on lists of at most one entry, `normalise` always raises, and
    `parse_utterance_confusion_network` empties the list and then raises;
  - the features of an utterance are:
    - counts of its n-grams of length 1 to `size`;
    - skip features `(a, '*1', c)` and `(a, '*2', d)` for 3- and 4-grams;
    - a recorded key set that `prune` shrinks;
    - reads through `__getitem__`, which insert a missing feature with
      count `0.0`, as a `defaultdict` does;
    - a vector view indexed by a feature mapping.

Supporting modules:

- `Outcomes` gives the value-or-exception results and the Python
  exceptions raised.
- `Text` models Python 2 `str.split()`, `str.strip()`, `sep.join` and
  `str.split(sep)`.
- `Lex` models Python 2's comparison of sequences.
- `RealSums` gives sums of real vectors.

Objects whose methods update their fields are classes: `Gmm`,
`Utterance`, `UtteranceFeatures` and `NBList`. Each method is proved
against a specification function over values:

- `SplitHeaviest`/`Mixups` for `mixup`;
- `OnePass`/`FitRun`/`FitLoop` for `fit`;
- `IndexOf`/`Replaced` for `index`/`replace`;
- `LoadFrom` for `load_utterances`;
- `BumpAll`/`Ngrams`/`WithSkips`/`Parsed` for `parse`;
- `SortDesc` for `sort`.

The properties the source promises are lemmas about those functions.

Modelling choices:

- **Floating point.** Floating-point arithmetic is modelled with `real`.
  `EPS` is the constant 2^-52.
- **Log and exp.** The logarithm, the exponential, `logsumexp` and the
  Gaussian log-density are opaque parameters (`Numerics`).
  - The M-step facts rest on the predicate `NormalisesResponsibilities`.
    It says that, for a model with at least one component, the
    responsibilities `exp(lpr - logsumexp(lpr))` form a probability
    distribution. With no component, `logsumexp` of an empty array raises,
    and `fit` fails on its first pass.
  - `SoftmaxIsDistribution` proves that this holds whenever `exp` is
    positive, turns differences into quotients, and inverts `logsumexp`.
- **Random draws.** The random means that `mixup` draws are parameters
  (`draws`).
- **The file.** The file that `load_utterances` reads is given as its
  sequence of lines.

## Model

| member | source | states |
|---|---|---|
| GaussianMixture.Gmm.constructor | SDS/ml/gmm/gmm.py:24-33 | the configuration is stored; weights are `Uniform(k)`; means are all zero and variances all one, `k` rows of `n_features`; the weights sum to one when `k > 0`; the log-likelihood history starts empty |
| GaussianMixture.Uniform | SDS/ml/gmm/gmm.py:31 | `np.ones(k) / k` has one weight per component |
| GaussianMixture.UniformSumsToOne | SDS/ml/gmm/gmm.py:31 | the initial weights of a mixture with at least one component sum to one |
| GaussianMixture.Constant | SDS/ml/gmm/gmm.py:32-33 | `np.zeros`/`np.ones` of a shape: that many rows and columns, every entry equal to the fill value |
| GaussianMixture.Lpr | SDS/ml/gmm/gmm.py:59-60 | the joint log-probabilities of a sample have one entry per component |
| GaussianMixture.Softmax | SDS/ml/gmm/gmm.py:63-64 | the responsibilities have one entry per joint log-probability |
| GaussianMixture.SoftmaxIsDistribution | SDS/ml/gmm/gmm.py:63-64 | given the laws of `exp` and the meaning of `logsumexp`, `exp(lpr - logsumexp(lpr))` is non-negative and sums to one |
| GaussianMixture.EStep | SDS/ml/gmm/gmm.py:56-66 | the expectation of a sample yields one responsibility per component |
| GaussianMixture.ScoreOf | SDS/ml/gmm/gmm.py:68-76 | `score` recomputes exactly the log-likelihood that `expectation` returns |
| GaussianMixture.Gmm.Expectation | SDS/ml/gmm/gmm.py:56-66 | the expectation of a sample under the current parameters yields one responsibility per component |
| GaussianMixture.Gmm.Score | SDS/ml/gmm/gmm.py:68-76 | the score of a sample equals the log-likelihood part of its expectation |
| GaussianMixture.Posteriors | SDS/ml/gmm/gmm.py:127-130 | one expectation per sample, in order |
| GaussianMixture.PosteriorsAreDistributions | SDS/ml/gmm/gmm.py:127-130 | for a model with at least one component, every sample's responsibilities form a probability distribution |
| GaussianMixture.MAdd | SDS/ml/gmm/gmm.py:143-152 | the entry-wise sum of two equal-shaped accumulators keeps the shape and adds row by row |
| GaussianMixture.Scale | SDS/ml/gmm/gmm.py:143 | scaling a sample keeps its length |
| GaussianMixture.Outer | SDS/ml/gmm/gmm.py:139-143 | `np.dot(r[:, newaxis], x_m)` is a components × features matrix |
| GaussianMixture.WeightedSqDevRow | SDS/ml/gmm/gmm.py:152 | a weighted squared deviation row has one entry per feature |
| GaussianMixture.WeightedSqDev | SDS/ml/gmm/gmm.py:152 | `r[:, newaxis] * (x_m - means) ** 2` is a components × features matrix |
| GaussianMixture.ZeroStats | SDS/ml/gmm/gmm.py:120-125 | a pass starts from zeroed accumulators of the right shape and no samples |
| GaussianMixture.Accumulate | SDS/ml/gmm/gmm.py:136-155 | one sample keeps the accumulator shapes and counts one more sample |
| GaussianMixture.PassStats | SDS/ml/gmm/gmm.py:123-155 | a pass over the samples counts exactly `len(X)` samples and keeps the accumulator shapes |
| GaussianMixture.DeviationsKeepNonNegative | SDS/ml/gmm/gmm.py:152 | adding squared deviations with non-negative responsibilities keeps every variance accumulator non-negative |
| GaussianMixture.AccumulateMass | SDS/ml/gmm/gmm.py:136-152 | adding a sample whose responsibilities form a distribution adds exactly one to the accumulated weight and keeps both accumulators non-negative |
| GaussianMixture.PassStatsMass | SDS/ml/gmm/gmm.py:127-155 | after a whole pass the accumulated weights sum to the sample count, with no negative weight or variance accumulator |
| GaussianMixture.Gmm.AccumulatePass | SDS/ml/gmm/gmm.py:120-155 | the inner loop of `fit` computes the accumulators of one expectation per sample, in order, against the parameters at the start of the pass |
| GaussianMixture.SmoothedWeights | SDS/ml/gmm/gmm.py:168 | one re-estimated weight per component |
| GaussianMixture.SmoothedWeightsSumToOne | SDS/ml/gmm/gmm.py:168 | `(acc_weights + EPS) / (n + k * EPS)` sums to one when the accumulated weight is `n` |
| GaussianMixture.SmoothedRow | SDS/ml/gmm/gmm.py:169-172 | a smoothed row has one entry per feature |
| GaussianMixture.SmoothedRows | SDS/ml/gmm/gmm.py:169-172 | the smoothed means and variances are components × features |
| GaussianMixture.SmoothedRowsAbove | SDS/ml/gmm/gmm.py:169-172 | with non-negative accumulators, every smoothed entry lies strictly above the added offset, so every variance exceeds `min_covar` |
| GaussianMixture.MStep | SDS/ml/gmm/gmm.py:168-172 | the re-estimate keeps the number of components and the row width |
| GaussianMixture.MStepNormalises | SDS/ml/gmm/gmm.py:168-172 | an M-step after a whole pass gives weights summing to one and every variance above `min_covar` |
| GaussianMixture.FitLoopHistory | SDS/ml/gmm/gmm.py:118-166 | the history gains one entry per pass and never exceeds `n_iter` entries; it gains at least one when `n_iter > 0`; it stops short only when the convergence rule held |
| GaussianMixture.FitLoop | SDS/ml/gmm/gmm.py:119-174 | the early-stopping loop records at least none and at most `remaining` entries after the history it starts from |
| GaussianMixture.ConvergedWithinThreshold | SDS/ml/gmm/gmm.py:165 | the early-stop test holds exactly when more than three passes are recorded and the last mean log-likelihood lies strictly within `thresh` of the one before, in either direction |
| GaussianMixture.MeanLogProbTimesCount | SDS/ml/gmm/gmm.py:161 | the recorded `log_prob / n`, times the number of samples, is the pass's total log-likelihood |
| GaussianMixture.FitLoopStopKeepsScoredParams | SDS/ml/gmm/gmm.py:161-174 | whenever some pass ran and the last recorded entry meets the convergence rule, that entry is the mean log-likelihood of the parameters `fit` ends with, because the converging pass does not re-estimate |
| GaussianMixture.FitLoopEndsInReestimate | SDS/ml/gmm/gmm.py:165-174 | the final parameters are those of the last installed re-estimate once any pass has run, because the first pass cannot trigger the rule |
| GaussianMixture.OnePassOfStats | SDS/ml/gmm/gmm.py:120-172 | over a non-empty dataset the pass's accumulators have samples, the right shapes and no negative weight, and the pass records their mean and their M-step |
| GaussianMixture.OnePassKeepsShape | SDS/ml/gmm/gmm.py:120-172 | a pass keeps the number of components on every input, and the row width of well-shaped parameters |
| GaussianMixture.FitRunIsFitLoop | SDS/ml/gmm/gmm.py:119-174 | the training run is the generic early-stopping loop with one EM pass as its step |
| GaussianMixture.FitRunHistory | SDS/ml/gmm/gmm.py:118-174 | a training run keeps the history it starts from as a prefix and adds one entry per pass: at least one when a pass is allowed, at most `n_iter`, and fewer only when the last entry met the convergence rule |
| GaussianMixture.OnePassNormalises | SDS/ml/gmm/gmm.py:127-174 | a pass over a non-empty dataset keeps the shapes, and its re-estimate has weights summing to one and variances above `min_covar` |
| GaussianMixture.FitEndsNormalised | SDS/ml/gmm/gmm.py:118-174 | `fit` with at least one pass on a non-empty dataset ends normalised, the converging pass included |
| GaussianMixture.Gmm.FitIteration | SDS/ml/gmm/gmm.py:120-174 | one pass: an empty dataset, or a model with no component, fails with nothing changed; otherwise it appends the pass's mean log-likelihood, reports the convergence rule, and keeps the parameters if the rule fired or installs the M-step if not |
| GaussianMixture.Gmm.Fit | SDS/ml/gmm/gmm.py:115-174 | the parameters and history after `fit` are exactly the training run from the old parameters; it fails, leaving the parameters and an empty history, exactly when at least one pass is asked for and there are no samples or no components |
| GaussianMixture.ArgMax | SDS/ml/gmm/gmm.py:83 | `np.argmax` is the first index of a largest weight |
| GaussianMixture.RemoveAt | SDS/ml/gmm/gmm.py:107-109 | `np.delete` removes exactly one row |
| GaussianMixture.RemoveAtAppendShaped | SDS/ml/gmm/gmm.py:97-109 | deleting a row and appending two rows of the right width keeps every row that width |
| GaussianMixture.SplitHeaviest | SDS/ml/gmm/gmm.py:83-111 | one split adds exactly one component and keeps the weight, mean and variance arrays the same length |
| GaussianMixture.SplitHeaviestRows | SDS/ml/gmm/gmm.py:87-111 | a split keeps the other rows in their original order and appends two halves of the heaviest weight, the two new means and two copies of its variances |
| GaussianMixture.SplitWeightSum | SDS/ml/gmm/gmm.py:96-107 | replacing a weight by two halves of it keeps the total weight |
| GaussianMixture.SplitHeaviestSpec | SDS/ml/gmm/gmm.py:83-111 | a split adds exactly one component, keeps the row width, keeps the total weight, and keeps the other rows in order with the two children appended |
| GaussianMixture.Gmm.SplitHeaviestComponent | SDS/ml/gmm/gmm.py:82-113 | one round of `mixup` replaces the parameters by their split of the first heaviest component and adds one component |
| GaussianMixture.Mixups | SDS/ml/gmm/gmm.py:81-113 | `k` rounds add exactly `k` components and keep the three arrays the same length |
| GaussianMixture.MixupsSpec | SDS/ml/gmm/gmm.py:81-113 | `k` rounds add `k` components, keep every row `n_features` wide, and keep the total weight |
| GaussianMixture.MixupOfSingleComponent | SDS/ml/gmm/gmm.py:83-111 | a one-component mixture of weight one splits into two components of weight one half |
| GaussianMixture.Gmm.Mixup | SDS/ml/gmm/gmm.py:78-113 | `mixup(n)` performs `n` splits and adds `n` components; with no component to split it fails, changing nothing |
| RealSums.VAdd | SDS/ml/gmm/gmm.py:136 | the vector sum adds entry by entry |
| RealSums.SumRemoveAt | SDS/ml/gmm/gmm.py:107 | deleting one weight lowers the total by that weight |
| Text.LeadingSpace | SDS/components/asr/utterance.py:18 | the leading whitespace is exactly the whitespace before the first non-whitespace character |
| Text.TrailingSpace | SDS/components/asr/utterance.py:18 | the trailing whitespace is exactly the whitespace after the last non-whitespace character |
| Text.TokenLength | SDS/components/asr/utterance.py:35 | a token runs up to the next whitespace character or to the end |
| Text.Split | SDS/components/asr/utterance.py:35 | `split()` yields non-empty tokens without whitespace |
| Text.StripSpec | SDS/components/asr/utterance.py:18-25 | `strip()` removes exactly the leading and trailing whitespace, leaving a string that neither starts nor ends with whitespace |
| Text.Strip | SDS/components/asr/utterance.py:18 | `strip()` never lengthens a string, and gives the empty string exactly when the string is all whitespace |
| Text.SplitAfterSpace | SDS/components/asr/utterance.py:35 | leading whitespace does not change a split |
| Text.SplitWord | SDS/components/asr/utterance.py:35 | a string starting with a whole token splits into that token and the split of the rest |
| Text.SplitJoin | SDS/components/asr/utterance.py:35-38 | `' '.join(ts).split() == ts` for any list that `split()` can produce |
| Text.SplitJoinSplit | SDS/components/asr/utterance.py:35-38 | the text of an utterance splits back into its tokens |
| Text.Join | SDS/components/asr/utterance.py:38 | `sep.join` of no parts is empty, and otherwise starts with the first part |
| Text.FindFrom | SDS/components/asr/utterance.py:22 | the first occurrence of the separator at or after a position, or `None` if there is none |
| Text.SplitOn | SDS/components/asr/utterance.py:22 | `s.split(sep)` yields at least one piece |
| Text.JoinSplitOn | SDS/components/asr/utterance.py:22 | joining the pieces of `s.split(sep)` with `sep` gives back `s` |
| Text.SplitOnPieces | SDS/components/asr/utterance.py:22 | no piece of `s.split(sep)` contains `sep` |
| Lex.LeIsLtOrEq | SDS/components/asr/utterance.py:50-51 | `a <= b` on sequences holds exactly when `a < b` or `a == b` |
| Lex.GtIsConverse | SDS/components/asr/utterance.py:56-57 | `a > b` holds exactly when `b < a` |
| Lex.GeIsConverse | SDS/components/asr/utterance.py:58-59 | `a >= b` holds exactly when `b <= a` |
| Lex.LtStrictTotal | SDS/components/asr/utterance.py:48-49 | ordering sequences by a strict total order on their elements gives a strict total order |
| Lex.StrLessStrictTotal | SDS/components/asr/utterance.py:48-49 | Python 2 strings are strictly totally ordered by `<` |
| Utterances.FirstIndex | SDS/components/asr/utterance.py:74 | `list.index(t)` gives the first position holding `t`, or fails exactly when `t` is absent |
| Utterances.OccursAtToken | SDS/components/asr/utterance.py:76-79 | each token of a phrase found at `i` sits at its offset from `i` |
| Utterances.IndexOf | SDS/components/asr/utterance.py:71-83 | a found position holds the phrase's first token with room for the whole phrase after it; an empty phrase raises `IndexError` and any other failure `ValueError` |
| Utterances.IndexOfSound | SDS/components/asr/utterance.py:71-83 | the position `index` returns starts an occurrence of the phrase, and the phrase's first token does not occur before it |
| Utterances.IndexOfComplete | SDS/components/asr/utterance.py:71-83 | an occurrence of a non-empty phrase that no earlier copy of its first token precedes is the one `index` returns |
| Utterances.IndexOfErrors | SDS/components/asr/utterance.py:71-83 | `index` raises `IndexError` exactly for an empty phrase and `ValueError` in every other failure |
| Utterances.IndexOfMissesLaterOccurrence | SDS/components/asr/utterance.py:74-81 | `index` tries only the first occurrence of the phrase's first token: in `a b a c` the phrase `a c` occurs but raises `ValueError` |
| Utterances.ContainsOfSpec | SDS/components/asr/utterance.py:40-46 | `s in u` is true exactly when `index` succeeds, which implies an occurrence; it raises exactly for an empty phrase |
| Utterances.ContainsOf | SDS/components/asr/utterance.py:40-46 | `s in u` raises exactly for an empty phrase, and then `IndexError`; otherwise it is true exactly when `index` succeeds |
| Utterances.Utterance.Contains | SDS/components/asr/utterance.py:40-46 | on the utterance's tokens, `in` raises exactly for an empty phrase and is true only when the phrase occurs |
| Utterances.ReplacedSplices | SDS/components/asr/utterance.py:85-91 | `replace` keeps the tokens before and after the found phrase, puts `r` in its place, and changes the length by `len(r) - len(s)` |
| Utterances.ReplacedOnlyWhenContained | SDS/components/asr/utterance.py:85-91 | the tokens change only when the phrase is contained |
| Utterances.ReplacedBySelf | SDS/components/asr/utterance.py:85-91 | replacing a phrase by itself leaves the tokens unchanged |
| Utterances.Replaced | SDS/components/asr/utterance.py:85-91 | when `index` finds the phrase, the length changes by the replacement's length minus the phrase's; otherwise the tokens stay as they are |
| Utterances.TokensOrder | SDS/components/asr/utterance.py:48-59 | `<` on token lists is a strict total order; `<=` is `<` or `==`; `>` is the converse of `<`; `>=` is the converse of `<=` |
| Utterances.UtteranceOrder | SDS/components/asr/utterance.py:48-59 | the six comparison operators of `Utterance` objects are a strict total order and its derived relations on their tokens |
| Utterances.Utterance.Less | SDS/components/asr/utterance.py:48-49 | `<` never holds between equal token lists |
| Utterances.Utterance.LessOrEqual | SDS/components/asr/utterance.py:50-51 | `<=` holds exactly when `<` or `==` does |
| Utterances.Utterance.Equal | SDS/components/asr/utterance.py:52-53 | `==` holds exactly when `<` holds in neither direction |
| Utterances.Utterance.NotEqual | SDS/components/asr/utterance.py:54-55 | `!=` holds exactly when `<` holds in one direction |
| Utterances.Utterance.Greater | SDS/components/asr/utterance.py:56-57 | `>` is the converse of `<` |
| Utterances.Utterance.GreaterOrEqual | SDS/components/asr/utterance.py:58-59 | `>=` holds exactly when the converse `<` or `==` does |
| Utterances.Utterance.constructor | SDS/components/asr/utterance.py:34-35 | an utterance holds the tokens of its text, and they are tokens `split()` can yield |
| Utterances.Utterance.ToString | SDS/components/asr/utterance.py:37-38 | `str(u)` splits back into `u`'s tokens |
| Utterances.SplitJoinTokens | SDS/components/asr/utterance.py:35-38 | joined tokens split back when they are tokens `split()` can yield |
| Utterances.Utterance.Index | SDS/components/asr/utterance.py:71-83 | the scan of `index` returns exactly the specified result: the first-token position, `ValueError` or `IndexError` |
| Utterances.Utterance.Replace | SDS/components/asr/utterance.py:85-91 | `replace` raises exactly for an empty phrase, and the new tokens are the old ones with the found phrase spliced out |
| Utterances.Considered | SDS/components/asr/utterance.py:13-16 | a limit of `None` or `0` reads every line; a positive limit reads the first `limit` lines; a negative one reads none; always a prefix |
| Utterances.ParseLine | SDS/components/asr/utterance.py:18-25 | a line is skipped exactly when it strips to nothing; it raises `IndexError` exactly when it is non-blank without `=>`; otherwise it yields a key and tokens |
| Utterances.ParseLineOf | SDS/components/asr/utterance.py:18-27 | a line `k => v` in which `=>` occurs only once yields the key `k.strip()` and the tokens `v.split()`, whatever whitespace surrounds `k` and `v` |
| Utterances.LoadUtterances | SDS/components/asr/utterance.py:8-30 | the loop computes exactly the dictionary built line by line from the considered lines, or the exception of the first bad line |
| Utterances.LoadFromStep | SDS/components/asr/utterance.py:13-27 | one line of the file: a bad line raises, a blank line is skipped, any other line sets its key |
| Utterances.LoadFrom | SDS/components/asr/utterance.py:13-27 | reading lines into the dictionary raises only `IndexError`, and a successful read keeps every key it started with |
| Utterances.LoadFromFails | SDS/components/asr/utterance.py:18-25 | loading fails exactly when some considered line is non-blank without `=>`, and the error is `IndexError` |
| Utterances.LoadFromLastWins | SDS/components/asr/utterance.py:24-27 | after a successful load each key holds the utterance of the last line naming it, and the keys are exactly those some line names |
| Utterances.HypLessOrder | SDS/components/asr/utterance.py:237-238 | the Python 2 order on `[probability, utterance]` entries is a strict total order |
| Utterances.HypLess | SDS/components/asr/utterance.py:237-238 | a higher probability decides the order of two entries, and the lesser entry never has the higher probability |
| Utterances.SortedDesc | SDS/components/asr/utterance.py:237-238 | in a descending list the probabilities never increase |
| Utterances.Insert | SDS/components/asr/utterance.py:237-238 | inserting an entry adds it to the multiset of entries and keeps a descending list descending |
| Utterances.SortDesc | SDS/components/asr/utterance.py:237-238 | the descending sort is a permutation in which no entry is less than one after it |
| Utterances.SortedDescUnique | SDS/components/asr/utterance.py:237-238 | two descending arrangements of the same entries are equal, so the sorted list is determined by its entries |
| Utterances.NBList.constructor | SDS/components/asr/utterance.py:166-167 | a new N-best list is empty |
| Utterances.NBList.Add | SDS/components/asr/utterance.py:193-194 | `add` appends `[probability, utterance]` and keeps the other entries |
| Utterances.NBList.Merge | SDS/components/asr/utterance.py:196-213 | `merge` raises `IndexError` exactly on a list of more than one entry, and changes nothing |
| Utterances.NBList.Normalise | SDS/components/asr/utterance.py:215-235 | `normalise` raises `NameError` whatever the entries |
| Utterances.NBList.ParseConfusionNetwork | SDS/components/asr/utterance.py:179-191 | the list ends empty and the call raises `AttributeError` |
| Utterances.NBList.Sort | SDS/components/asr/utterance.py:237-238 | `sort(reverse=True)` permutes the entries into descending order, which is the unique such order |
| Features.Get | SDS/components/asr/utterance.py:108-109 | reading a `defaultdict(float)` gives the stored count, or `0.0` for a key that is not stored |
| Features.Bump | SDS/components/asr/utterance.py:133 | `d[k] += 1.0` adds `k` to the keys and raises only `k`'s count, by one |
| Features.BumpAll | SDS/components/asr/utterance.py:128-133 | counting a list of keys loses no key of the counts it starts from |
| Features.Windows | SDS/components/asr/utterance.py:129-133 | there are `max(0, len(u) - k + 1)` windows of width `k`, and window `i` is the phrase of `u` at position `i` |
| Features.Ngrams | SDS/components/asr/utterance.py:127-133 | every counted n-gram has between 1 and `size` tokens |
| Features.CountNgrams | SDS/components/asr/utterance.py:127-133 | the n-gram loop counts the n-grams of lengths 1 to `size`, shortest first |
| Features.CountWindows | SDS/components/asr/utterance.py:129-133 | the inner loop counts the contiguous `k`-grams, left to right, stopping at the end |
| Features.BumpAllAppend | SDS/components/asr/utterance.py:128-133 | counting two lists of keys one after the other is counting their concatenation |
| Features.BumpAllCounts | SDS/components/asr/utterance.py:133 | counting a list of keys raises each key's count by its number of occurrences in the list; a key is present exactly when it was already present or is counted |
| Features.NgramsCount | SDS/components/asr/utterance.py:127-133 | a phrase of length 1 to `size` appears among the counted n-grams as often as it occurs in the utterance, and no other phrase appears |
| Features.NgramCounts | SDS/components/asr/utterance.py:127-133 | after the n-gram loop each phrase of 1 to `size` tokens has its count raised by its number of occurrences; other counts are unchanged |
| Features.OccurrencesAt | SDS/components/asr/utterance.py:130-133 | a phrase is counted exactly when it occurs in the utterance |
| Features.NgramsTotal | SDS/components/asr/utterance.py:128-133 | the loop counts `max(0, len(u) - k + 1)` phrases of each length `k` from 1 to `size` |
| Features.SkipKeysHaveSources | SDS/components/asr/utterance.py:135-140 | a skip feature is produced exactly when some key of length 3 or 4 maps to it |
| Features.SkippingToAdd | SDS/components/asr/utterance.py:136-140 | each key adds one to its own skip feature only |
| Features.SkipOf | SDS/components/asr/utterance.py:135-140 | exactly the keys of 3 or 4 tokens have a skip feature, which keeps their first and last tokens around `*1` or `*2` |
| Features.CountSkips | SDS/components/asr/utterance.py:135-140 | `new_features` has exactly the skip features of the keys; each count is the number of distinct keys mapping to it, however often each was counted |
| Features.AddCounts | SDS/components/asr/utterance.py:142-143 | the merge adds the new counts key by key and keeps every other count |
| Features.WithSkips | SDS/components/asr/utterance.py:135-145 | after the merge the keys are the old keys plus their skip features |
| Features.WithSkipsCounts | SDS/components/asr/utterance.py:135-143 | after the merge each key's count is its old count plus the number of keys mapping to it |
| Features.MergedIsWithSkips | SDS/components/asr/utterance.py:135-143 | the skip loop followed by the merge loop computes `WithSkips` |
| Features.Parsed | SDS/components/asr/utterance.py:126-145 | `parse` loses no key |
| Features.ParsedCounts | SDS/components/asr/utterance.py:126-145 | after `parse` each key's count is its old count, plus its occurrences in the utterance when the type is `ngram` and it has 1 to `size` tokens, plus one per key whose skip feature it is |
| Features.PrunedCounts | SDS/components/asr/utterance.py:147-153 | pruning removes exactly the keys in `remove_features` and keeps the counts of the rest |
| Features.Slot | SDS/components/asr/utterance.py:122 | a NumPy index selects an element exactly when it lies in `-n .. n-1`; a negative index counts from the end |
| Features.IsFeatureVector | SDS/components/asr/utterance.py:118-124 | in a feature vector every non-zero element is selected by some mapped feature |
| Features.FeatureVectorHolds | SDS/components/asr/utterance.py:118-124 | a mapped feature that shares its element with no other feature has its count at that element |
| Features.UtteranceFeatures.constructor | SDS/components/asr/utterance.py:94-100 | a non-empty utterance is parsed at once and the key set recorded; otherwise the counts are empty and there is no key set |
| Features.UtteranceFeatures.GetItem | SDS/components/asr/utterance.py:108-109 | `features[k]` returns the stored count or `0.0`; a missing key is inserted into the counts with count `0.0`, and the key set stays as it was |
| Features.UtteranceFeatures.Parse | SDS/components/asr/utterance.py:126-145 | `parse` leaves exactly the n-gram counts (for type `ngram`) with the skip features merged in, and a key set equal to the keys |
| Features.UtteranceFeatures.Prune | SDS/components/asr/utterance.py:147-153 | without a key set it raises `AttributeError`, changing nothing; otherwise it removes the listed keys from the key set, and from the counts those that were in the key set |
| Features.UtteranceFeatures.GetFeatureVector | SDS/components/asr/utterance.py:118-124 | it raises `IndexError` exactly when a mapped feature's index is outside the vector; otherwise it returns a vector of `len(mapping)` elements, each zero or the count of a feature mapped to it |

## Left out

- **Numerics.**
  - `log_multivariate_normal_density_diag`, `np.log`, `np.exp` and
    `logsumexp` are opaque functions. Their formulas, at gmm.py:43-54, are
    not modelled.
  - IEEE-754 rounding, overflow and NaN are not modelled: values are
    `real`.
  - `EPS` is 2^-52 as an exact rational.
- GaussianMixture.Gmm.Fit: every sample must have `n_features` entries.
  For another width, numpy either raises a broadcast error or, for a
  one-entry sample, silently broadcasts it across every feature. Neither
  case is modelled.
- GaussianMixture.Gmm.FitIteration: the same sample-width requirement as
  `Fit`, for the same reason.
- GaussianMixture.Gmm.AccumulatePass: the same sample-width requirement as
  `Fit`, for the same reason.
- GaussianMixture.Gmm.constructor: `__init__` creates no `log_probs`.
  The attribute first exists when `fit` assigns it (gmm.py:118), so
  reading it earlier raises `AttributeError`. The model starts it as an
  empty history instead.
- GaussianMixture.Gmm.constructor: the counts are `nat`. A negative
  `n_components` makes `np.ones` raise `ValueError` (gmm.py:31). That
  error is not modelled.
- GaussianMixture.Gmm.Mixup: the number of rounds is a `nat`. A negative
  `n_new_mixies` gives an empty `range` (gmm.py:81), so `mixup` changes
  nothing. The model does not accept a negative count.
- **Random draws.** `np.random.multivariate_normal` in `mixup` is not
  modelled. Its draws are given as parameters.
- **Pickle files.** `GMM.save_model` and `GMM.load_model` are file I/O
  through pickle.
- **GMM printing.** `GMM.__str__` only prints.
- **File I/O in `load_utterances`.**
  - Opening and closing the file is not modelled. The file is given as
    its lines, already split.
  - Trailing newlines are whitespace that `strip()` removes.
- **N-best code that cannot get past its first steps.**
  - Utterances.NBList.Merge: only its behaviour as written is modelled.
    A list of at most one entry is returned unchanged; a longer one raises
    `IndexError` at the first assignment into an empty list. The
    merging loop after that assignment, which reads an undefined global
    `n_best`, is never reached and is not modelled.
  - Utterances.NBList.Normalise: its loop bound reads the undefined global
    `n_best`, so it raises `NameError`. The summing, the `__other__` entry
    and `UtteranceNBListException` after that point are never reached and
    are not modelled.
  - Utterances.NBList.ParseConfusionNetwork: the confusion network and the
    `n` and `expand_upto_total_prob_mass` arguments are never read, so
    they are not parameters.
  - The `UtteranceConfusionNetwork` and
    `UtteranceConfusionNetworkFeatures` placeholders are left out.
- **Accessors.**
  - `Utterance.__len__`, `__getitem__` and `__iter__`,
    `UtteranceFeatures.__str__`, `__len__` and `__iter__`, and
    `UtteranceNBList.__len__`, `__getitem__` and `__iter__` only read the
    fields. They are not modelled.
  - `UtteranceFeatures.__contains__` is `in` on the counts and is not
    modelled.
  - `UtteranceFeatures.__getitem__` is not a plain read. It is modelled
    by `GetItem`, because reading a missing key inserts it with count
    `0.0`. The key then counts in `__len__` and is visited by
    `get_feature_vector`, which raises `IndexError` if the key is mapped
    to an index outside the vector. It is not in the key set, so `prune`
    never removes it.
- Utterances.Utterance.Index: the searched phrase `s` and the replacement
  `r` of `replace` are lists of tokens.
  - A plain string `s` would be searched character by character in the
    source. That case is not modelled.
- Utterances.NBList.Add: an entry keeps the utterance's tokens as a value
  when it is added.
  - In the source the entry holds a reference to the `Utterance` object.
  - A later `replace` on that object would show through. This aliasing is
    not modelled.
- Utterances.LoadUtterances: the dictionary maps keys to token lists, not
  to fresh `Utterance` objects.
- Utterances.NBList.Sort: only the result of Python's sort is modelled,
  not its algorithm. The result is the unique descending arrangement of
  the entries, proved by `SortedDescUnique`.
- Lex.CharLess: strings are compared by the order of their `char` values.
  This matches Python 2's byte order on byte strings.
- Iteration order:
  - Iteration over a dict or set (`parse`, `prune`,
    `get_feature_vector`) is modelled by an arbitrary choice of the next
    key.
  - Features.UtteranceFeatures.GetFeatureVector: when two features map to
    the same element, the contract allows either count at that element,
    since the survivor depends on dict order.
- Features.UtteranceFeatures.Prune: `remove_features` is a set of keys.
  The source accepts any container that supports `in`.
- Features.UtteranceFeatures.GetFeatureVector: mapping values are
  integers. A non-integer index is not modelled.
- The n-gram total is stated as the number of phrases counted, not as a
  sum over the dictionary's values.
