# Document classifier: verified model of the inference core

This project models, in Dafny, the deterministic parts of the document
classification service in `trellis.py`. The model has four parts:

- **Character prefilter** of `clean_text`. Three rewrites run in order:
  delete maximal runs of decimal digits, delete every character that is
  neither whitespace nor a word character, and delete every newline.
  Modules: `CharClasses`, `CharacterPrefilter`.
- **Lemma join** of `clean_text`. It keeps the lemmas of the tokens that are
  not stop words, in token order, and joins them with single spaces.
  Module: `LemmaJoin`. `Normalizer.CleanText` composes the prefilter, the
  language pipeline and the lemma join. The pipeline is a function parameter.
- **Confidence gate** of `make_prediction`. Given a probability row aligned
  with the classifier's labels and a threshold, it answers `other` unless
  `max - mean` exceeds the threshold. Otherwise it answers the label chosen by
  `max(zip(probs, classes))`. Modules: `StringOrder`, `ConfidenceGate`.
- **Startup configuration check**. The three fields `model_file`,
  `vectorizer_file` and `other_threshold` are checked in that order with
  Python truthiness. The first falsy field stops the service with its
  diagnostic. Module: `StartupConfig`.

Points where the model follows the code closely:

- The third rewrite removes the real newline character. It does not remove a
  two-character backslash-n sequence, although the code comment at
  trellis.py:64 says it does.
- The gate's tie-break is deterministic. `max` over `(probability, class)`
  tuples picks the greatest class name among equal probabilities.
  `ConfidenceGate.BestIndex` models the left-to-right scan of `max`.
- The threshold is required only to be truthy, that is non-zero. A negative
  threshold passes the check.
- The diagnostic for a missing vectorizer file name is the same text as for a
  missing classifier file name. The threshold diagnostic keeps the source's
  spelling ("nferring").

String order is Python's: lexicographic by code point, with a proper prefix
coming first (`StringOrder.Less`). Dafny's own `<` on sequences means "proper
prefix", and `StringOrder.PrefixIsLess` shows that `Less` extends it.
Probabilities are exact reals.

## Model

| member | source | states |
|---|---|---|
| `CharClasses.IsDigit` | trellis.py:62 | `\d`: the decimal digits, exact up to U+00FF |
| `CharClasses.IsSpace` | trellis.py:63 | `\s`: the code points Python's `str.isspace()` accepts, for all of Unicode |
| `CharClasses.IsWord` | trellis.py:63 | `\w`: an alphanumeric (letter, digit or numeric) or the underscore, exact up to U+00FF |
| `CharClasses.DigitIsWord` | trellis.py:62-63 | every `\d` character is a `\w` character and not whitespace |
| `CharClasses.NewlineIsSpace` | trellis.py:63-64 | the newline is whitespace, so the punctuation rewrite keeps it for the third rewrite |
| `CharacterPrefilter.DeleteDigitRuns` | trellis.py:62 | after deleting digit runs, no digit is left, every character left comes from the input, every non-digit of the input is still present, and the length does not grow |
| `CharacterPrefilter.DeleteDigitRunsDeletesDigits` | trellis.py:62 | deleting maximal digit runs, scanned left to right, equals deleting every digit character |
| `CharacterPrefilter.DeletePunctuation` | trellis.py:63 | exactly the whitespace and word characters remain, and the result is a subsequence of the input no longer than it; occurrence counts are stated by `RewriteCounts` |
| `CharacterPrefilter.FilterCounts` | trellis.py:63-64 | a one-character deletion keeps every occurrence of each character that passes its test and no occurrence of one that fails it |
| `CharacterPrefilter.DeleteNewlines` | trellis.py:64 | no newline remains, every other character of the input remains, and nothing is added: the result is a subsequence of the input and no longer than it; occurrence counts are stated by `RewriteCounts` |
| `CharacterPrefilter.RewriteCounts` | trellis.py:63-64 | rewrites 2 and 3 keep every occurrence of each character they do not target and none of one they do, counted per character |
| `CharacterPrefilter.Prefilter` | trellis.py:62-64 | the output has no digit and no newline, holds only whitespace and word characters, and is no longer than the input |
| `CharacterPrefilter.PrefilterKeepsSurvivors` | trellis.py:62-64 | the three rewrites in order keep exactly the characters that are non-digit, whitespace-or-word and not a newline, in input order |
| `CharacterPrefilter.PrefilterIsSubsequence` | trellis.py:62-64 | the prefilter only deletes: its output is a subsequence of its input and not longer |
| `CharacterPrefilter.PrefilterFixedPoints` | trellis.py:62-64 | the prefilter leaves a string unchanged if and only if every character survives all three rewrites |
| `CharacterPrefilter.PrefilterIdempotent` | trellis.py:62-64 | applying the prefilter to its own output changes nothing |
| `LemmaJoin.NonStopLemmas` | trellis.py:69 | every kept lemma is the lemma of some non-stop token; no more lemmas than tokens; empty exactly when every token is a stop word |
| `LemmaJoin.NonStopLemmasAppend` | trellis.py:69 | the comprehension distributes over concatenation of token sequences, so lemmas keep token order |
| `LemmaJoin.JoinWithSpaces` | trellis.py:70 | `' '.join` yields the empty string exactly for no parts or one empty part |
| `LemmaJoin.JoinSplit` | trellis.py:70 | joining with spaces inverts splitting on single spaces, for every string |
| `LemmaJoin.SplitJoin` | trellis.py:70 | splitting the join of one or more space-free parts gives back exactly those parts |
| `LemmaJoin.JoinWithSpacesAppend` | trellis.py:70 | for any two non-empty lists of parts, whatever they contain, `' '.join` of their concatenation is the join of each with one space between |
| `LemmaJoin.JoinLemmasAppend` | trellis.py:69-70 | for any lemmas, including whitespace lemmas, the cleaned text of two token sequences that each hold a non-stop token is the first's text, one space, and the second's text |
| `LemmaJoin.JoinLemmas` | trellis.py:69-70 | if every token is a stop word, or there are no tokens, the result is the empty string |
| `LemmaJoin.JoinLemmasSplitsBack` | trellis.py:69-70 | with some non-stop token and space-free lemmas, the joined text is exactly the non-stop lemmas in token order, separated by single spaces |
| `LemmaJoin.JoinLemmasEmpty` | trellis.py:69-70 | the joined text is empty if and only if all tokens are stop words or the only kept lemma is empty |
| `Normalizer.CleanText` | trellis.py:62-70 | the language pipeline sees only text without digits, newlines or punctuation; an all-stop-word token sequence cleans to the empty string |
| `Normalizer.CleanTextSeesOnlySurvivors` | trellis.py:62-70 | documents with the same surviving characters clean to the same text, and cleaning a prefiltered document equals cleaning the original |
| `StringOrder.Less` | trellis.py:83 | Python's `str` order used by the tuple comparison: the first differing code point decides, and a proper prefix comes first |
| `StringOrder.LessIrreflexive` | trellis.py:83 | no class name is less than itself |
| `StringOrder.LessAsymmetric` | trellis.py:83 | two class names are never each less than the other |
| `StringOrder.LessTransitive` | trellis.py:83 | the string order of the tie-break is transitive |
| `StringOrder.LessTotal` | trellis.py:83 | any two different class names are ordered one way or the other |
| `StringOrder.PrefixIsLess` | trellis.py:83 | a proper prefix is less than the longer string |
| `ConfidenceGate.Max` | trellis.py:82 | `np.max` is an entry of the row and at least every entry |
| `ConfidenceGate.Mean` | trellis.py:82 | `np.mean`: the sum of the row divided by its length |
| `ConfidenceGate.MeanAtMostMax` | trellis.py:82 | `np.mean` of a row never exceeds its `np.max` |
| `ConfidenceGate.Spread` | trellis.py:82 | `max - mean` is never negative |
| `ConfidenceGate.PairGreater` | trellis.py:83 | tuple `>` on `(probability, class)`: a higher probability wins, and on equal probabilities the greater class name |
| `ConfidenceGate.BestIndex` | trellis.py:83 | the left-to-right `max` scan ends on a position with maximal probability whose class name is the greatest among positions sharing that probability |
| `ConfidenceGate.Decide` | trellis.py:82-85 | a spread at most the threshold gives `other`; otherwise the answer is one of the classifier's labels |
| `ConfidenceGate.TopChoiceUnique` | trellis.py:83 | any two positions with maximal probability and greatest class name among ties name the same class, and their probability is the row maximum |
| `ConfidenceGate.TopChoiceExists` | trellis.py:83 | the position `max(zip(...))` picks is such a top choice |
| `ConfidenceGate.DecideAnswersTopChoice` | trellis.py:82-85 | for any top choice, the gate answers its class when the spread exceeds the threshold and `other` otherwise |
| `ConfidenceGate.DecideOtherIff` | trellis.py:82-85 | when no class is named `other`, the gate answers `other` if and only if the spread is at most the threshold |
| `ConfidenceGate.DecideMonotone` | trellis.py:82-83 | a class accepted at threshold t1 is accepted unchanged at every threshold t2 <= t1 |
| `ConfidenceGate.DecideOtherPersists` | trellis.py:82-85 | a row answered `other` at t1 is answered `other` at every t2 >= t1 |
| `ConfidenceGate.UniformRowIsOther` | trellis.py:82-85 | a uniform row has spread zero and is answered `other` at any positive threshold |
| `ConfidenceGate.PeakedRowIsAccepted` | trellis.py:82-83 | a distribution summing to 1 over two or more classes, with one class at 0.9 or more and every other class at 0.1 or less, is answered as that class at any threshold up to 0.1 |
| `StartupConfig.TruthyName` | trellis.py:37-42 | `not x` fails for a file name exactly when it is missing, `null` or empty |
| `StartupConfig.TruthyNumber` | trellis.py:43 | `not x` fails for the threshold exactly when it is missing, `null` or zero |
| `StartupConfig.Validate` | trellis.py:37-45 | the check passes if and only if all three fields are truthy; passed values are non-empty names and a non-zero threshold; a failure carries one of the two diagnostics, and the threshold diagnostic only when both names are good |
| `StartupConfig.ModelFileCheckedFirst` | trellis.py:37-39 | a falsy classifier file name is reported whatever the later fields hold |
| `StartupConfig.VectorizerFileCheckedSecond` | trellis.py:40-42 | after a good classifier name, a falsy vectorizer name is reported whatever the threshold holds, with the same text as a missing classifier name |
| `StartupConfig.ThresholdOnlyNonZero` | trellis.py:43-45 | a negative threshold passes; a zero threshold is rejected like a missing one |
| `StartupConfig.ValidatePreservesValues` | trellis.py:33-45 | a passing check hands on the configured values unchanged |

## Left out

- Reading the configuration file, loading the classifier and vectorizer with `joblib`, and the `sys.exit` and `stderr` side effects (trellis.py:17-31, 47-48) are I/O. Only the decision at lines 37-45 is modelled.
- `StartupConfig.Validate`: a field holding a JSON value of another type (boolean, list, object, or a number in a name field) is not modelled. Each field is either absent (or `null`), a string for the file names, or a number for the threshold.
- `CharClasses.IsDigit`, `CharClasses.IsWord`: Python's Unicode digit and word tables are modelled exactly only up to U+00FF. Above it the model treats every character other than whitespace as neither digit nor word character, so the second rewrite deletes it. For decimal digits of other scripts the outcome is the same as Python's, which deletes them at trellis.py:62. Alphanumerics of other scripts are lost: letters, and numerics such as Roman numerals or circled digits, which Python's `\w` keeps and the model deletes. Whitespace is modelled for all of Unicode.
- The language pipeline (`spacy.load` and the call at trellis.py:67) is foreign code. It is a function parameter of `Normalizer.CleanText` returning tokens with a lemma and a stop flag.
- `tfidf_vectorizer.transform` and `nb_classifier.predict_proba` (trellis.py:79-80) are opaque pre-trained artifacts. The probability row and the class labels are inputs of `ConfidenceGate.Decide`. They must have equal, non-zero length, as the classifier guarantees.
- `ConfidenceGate.Max`, `ConfidenceGate.Spread`: exact reals replace numpy's floating-point `max` and `mean`, so rounding and NaN are not modelled.
- The HTTP route `classify` and its status codes and JSON bodies (trellis.py:88-112) are transport plumbing.
- The offline evaluation script `test_service.py` is an HTTP client with metric printing and holds no core logic.
