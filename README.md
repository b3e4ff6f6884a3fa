# ExtractWord word extractor, modelled in Dafny

ExtractWord pulls independent words, such as nouns, number words and
prefixed compounds, out of Japanese text, together with each word's
character offset. A morphological analyser chains the text into morphemes.
A word accumulator, `FeatureManager`, then classifies each morpheme's
comma-separated feature string as IGNORE, STOP or CONTINUITY:

- CONTINUITY morphemes are buffered;
- a STOP morpheme closes the buffered word;
- an IGNORE morpheme flushes whatever is pending.

`Extractor.parse` walks the chain and keeps a cursor `cur`. It adds the
padding `rlength - length` before each morpheme and the surface length
after it. It yields `(word, offset)` pairs.

The project has five modules:

- `Wrappers` (wrappers.dfy): `Option` and `Result`.
- `Features` (features.dfy): Python's `str.split(',')` and its inverse
  `','.join`, the seven `is_*` tests, and `get_condition`.
  `get_condition` is written twice, once as an if-chain (`Classify`) and
  once as the source's three scanned test lists (`Dispatch`). A lemma
  shows the two are equal on every input, errors included.
- `Accumulator` (accumulator.dfy): the class `FeatureManager`, whose
  `words` and `location` fields its methods update in place. It also
  has the same operations on values (`Append`, `Offer`, `Take`), which
  the methods are proved to agree with.
- `Extraction` (extraction.dfy): `Extractor` and its `Parse` loop.
  `Parse` is proved equal to the function `Extract`, which folds one
  loop turn (`Step`) over the morphemes. The file also holds the lemmas
  about offsets and about what the loop yields.
- `Example` (example.dfy): the repository's unit-test sentence, with the
  two words it must yield.

Three behaviours of the code shape the model:

- `put` on an IGNORE morpheme returns `len(words) > 0`, and `parse`
  acts on that value (extractword/extractor.py:148-149, 222-223). So a
  pending word is yielded as soon as an IGNORE morpheme arrives. The
  tagger's closing BOS/EOS node is such a morpheme, so a word still
  buffered at the end of the text is yielded, not dropped.
- A feature with one field whose first field is not 接頭詞 makes
  `is_number` read `features[1]`, which raises (extractword/extractor.py:100,
  124-125). The model returns `Err(MissingField(1))` here instead of
  falling back to the default. `parse` then stops: the model returns the
  words yielded so far and the error.
- One `FeatureManager` lives as long as its `Extractor`. A `parse` that
  stops on an error can leave fragments in it, and the next `parse` sees
  them. `Extractor.Parse` therefore starts from the accumulator's current
  state.

## Model

| member | source | states |
|---|---|---|
| Features.Split | extractword/extractor.py:122 | `feature.split(',')` always gives at least one field, and no field holds a comma |
| Features.JoinSplit | extractword/extractor.py:122 | joining the split fields with ',' gives back the feature string |
| Features.SplitJoin | extractword/extractor.py:122 | splitting comma-free fields joined with ',' gives back exactly those fields |
| Features.SplitSingle | extractword/extractor.py:122 | the split has exactly one field if and only if the string has no comma, and that field is the whole string |
| Features.IsEnd | extractword/extractor.py:48-55 | `is_end`: the first field is BOS/EOS (no contract of its own; read through `Classify` and the lemmas below) |
| Features.IsPrefix | extractword/extractor.py:57-64 | `is_prefix`: the first field is 接頭詞 (no contract of its own) |
| Features.IsPostfix | extractword/extractor.py:66-73 | `is_postfix` reads the second field only for a noun, and holds only for a noun with at least two fields |
| Features.IsPpParticle | extractword/extractor.py:75-82 | `is_pp_particle`: the first field is 助詞 (no contract of its own) |
| Features.IsNoun | extractword/extractor.py:84-91 | `is_noun`: the first field is 名詞 (no contract of its own) |
| Features.IsNumber | extractword/extractor.py:93-100 | `is_number`: the second field is 数; callers must supply it (no contract of its own) |
| Features.IsSubstantive | extractword/extractor.py:102-109 | `is_substantive`: the second field is 非自立; callers must supply it (no contract of its own) |
| Features.GetCondition | extractword/extractor.py:111-136 | `get_condition` on the feature string raises if and only if the string has no comma and is not 接頭詞, and the error is then the missing field 1 |
| Features.Apply | extractword/extractor.py:125 | one call `method(features)` of a listed test, raising where the test indexes a missing second field (no contract of its own; see `ClassifyIsDispatch`) |
| Features.AnyHolds | extractword/extractor.py:124-134 | a scan of one test list gives false exactly when every test gives false, and true exactly when some test gives true and every test before it gives false |
| Features.Dispatch | extractword/extractor.py:119-136 | the three scans in order, then the default (no contract of its own; it is the reference `ClassifyIsDispatch` compares against) |
| Features.Classify | extractword/extractor.py:48-136 | the continuity, ignore and stop tests run in the source's order; the classification raises if and only if there are fewer than two fields and the first is not 接頭詞, and the error is then the missing field 1 |
| Features.ClassifyIsDispatch | extractword/extractor.py:34-46 | the if-chain equals the scan over the three test lists (continuity, then ignore, then stop, then the default), errors included, on every field list |
| Features.PostfixSubsumed | extractword/extractor.py:73 | `is_postfix` is subsumed by `is_noun`: the stop list gives the same answer as `is_noun` alone |
| Features.ClassifyJoin | extractword/extractor.py:111-136 | classifying the feature string built from comma-free fields is classifying those fields |
| Features.ClassifyFirstTwo | extractword/extractor.py:48-136 | the classification of a field list with two or more fields depends only on its first two fields |
| Features.ClassifyLeadingFields | extractword/extractor.py:111-136 | a feature string with two fields, or with two fields followed by further text, is classified by its first two fields alone |
| Features.ContinuityWins | extractword/extractor.py:124-126 | a first field 接頭詞 or a second field 数 gives CONTINUITY whatever else holds; conversely, unless the default is CONTINUITY, CONTINUITY comes only from those two |
| Features.IgnoreBeatsStop | extractword/extractor.py:128-130 | BOS/EOS, 助詞 or a second field 非自立 gives IGNORE, even with first field 名詞, unless a continuity test matched first |
| Features.StopExactly | extractword/extractor.py:132-134 | when the default is not STOP, STOP holds if and only if the first field is 名詞 and neither 数 nor 非自立 is the second field |
| Features.DefaultOtherwise | extractword/extractor.py:119-120 | when no test matches, the result is the default, or IGNORE when none is given |
| Accumulator.Concat | extractword/extractor.py:172 | `"".join(words)` (no contract of its own; see `ConcatAppend`) |
| Accumulator.ConcatAppend | extractword/extractor.py:172 | joining the fragments with one more fragment appended is the old join followed by that fragment |
| Accumulator.Append | extractword/extractor.py:152-164 | `_put` appends exactly the one fragment, sets the anchor only when it was unset, keeps the invariant (anchor set if and only if the buffer is non-empty), and returns true if and only if the condition is STOP |
| Accumulator.Offer | extractword/extractor.py:138-150 | `put` raises exactly when the classification raises. On IGNORE it leaves the buffer unchanged and returns whether the buffer is non-empty; otherwise it is `_put` (`Append`) with the classified condition. A true return means the buffer is non-empty, and the anchor invariant is kept |
| Accumulator.Take | extractword/extractor.py:166-175 | `get` returns the in-order join of the fragments with the anchor, set when the buffer is non-empty, and leaves an empty buffer with no anchor |
| Accumulator.FeatureManager.constructor | extractword/extractor.py:26-27 | a new accumulator is empty with no anchor, so the invariant holds |
| Accumulator.FeatureManager.Put | extractword/extractor.py:138-150 | the new fields per classification (unchanged on an error and on IGNORE; one fragment appended otherwise), the return value, the kept invariant, and agreement with `Offer` |
| Accumulator.FeatureManager.PutFragment | extractword/extractor.py:152-164 | the fragment is appended, the anchor is set only if it was unset, and the return value is "was STOP" |
| Accumulator.FeatureManager.Get | extractword/extractor.py:166-175 | returns the join of the old fragments and the old anchor, empties the accumulator, and agrees with `Take` |
| Accumulator.FeatureManager.Clear | extractword/extractor.py:177-182 | both fields are reset, so the invariant holds |
| Extraction.Extractor.constructor | extractword/extractor.py:202-205 | a new extractor owns a fresh, empty accumulator |
| Extraction.Extractor.Parse | extractword/extractor.py:207-225 | the loop yields exactly `Extract`'s words and error, starting from the accumulator's current state, and leaves the accumulator in `Extract`'s final state |
| Extraction.Step | extractword/extractor.py:219-225 | one turn of the loop (no contract of its own; see `StepRaises` and `StepYields`) |
| Extraction.StepRaises | extractword/extractor.py:221-222 | when `put` raises, the turn ends the run with the yielded words, the accumulator and `cur` as they were before `put` |
| Extraction.StepYields | extractword/extractor.py:221-224 | when `put` succeeds, the turn leaves its new buffer, or yields the word taken from it and empties it when `put` returned true, and moves `cur` past the padding and the surface |
| Extraction.Extract | extractword/extractor.py:218-225 | the whole loop, stopping at the first error (no contract of its own; `Parse` is proved equal to it) |
| Extraction.ExtractTurn | extractword/extractor.py:218-225 | running the loop from morpheme i on is one turn on morpheme i followed by the loop from i + 1 on |
| Extraction.ExtractSplit | extractword/extractor.py:218-225 | running the loop over two pieces of the chain one after the other is running it over the whole chain |
| Extraction.ExtractCursor | extractword/extractor.py:216-224 | after a run with no error, `cur` has advanced by the padding plus the surface length of every morpheme |
| Extraction.Offset | extractword/extractor.py:221-222 | the value of `cur` passed to `put` for morpheme i, written in closed form (no contract of its own; see `PutOffset`) |
| Extraction.PutOffset | extractword/extractor.py:216-222 | the offset passed to `put` for morpheme i is the padding of morphemes 0..i plus the surface lengths of morphemes 0..i-1 |
| Extraction.NoPaddingOffset | extractword/extractor.py:221-224 | with no padding, morpheme i's offset is where its surface starts in the joined surfaces |
| Extraction.CursorMonotone | extractword/extractor.py:221-224 | when `rlength >= length` throughout, offsets are non-negative and never decrease along the chain |
| Extraction.ExtractLocated | extractword/extractor.py:148-164 | the anchor invariant holds throughout, and every yielded word has an offset; its text is non-empty when every appended surface is |
| Extraction.ExtractConserves | extractword/extractor.py:148-175 | the yielded words followed by the buffer are the old ones followed by exactly the appended surfaces, in order: nothing is lost or repeated |
| Extraction.SentinelFlushes | extractword/extractor.py:218-225 | after a final IGNORE morpheme (the closing BOS/EOS node) the buffer is empty and every appended surface has been yielded |
| Extraction.WordsStandAtTheirOffsets | extractword/extractor.py:216-224 | from a fresh accumulator with no padding, every yielded word is found in the joined surfaces at its offset |
| Example.SentenceTags | test/test_extractor.py:11 | the assumed word class and sub-class of each morpheme of the test sentence classify as CONTINUITY for 2, STOP for 番目 and 重要, and IGNORE for the rest |
| Example.TestSentence | test/test_extractor.py:11-16 | the test sentence yields exactly ("2番目", 0) then ("重要", 4), with nothing left buffered and no error, whatever its later feature fields hold |

## Left out

- The MeCab tagger (extractword/extractor.py:4, 204, 217, 225) is a
  foreign C library walked as a linked node chain. The model takes the
  chain as a sequence of morpheme records (surface, feature, `length`,
  `rlength`).
- extractword/util.py is not part of this model. `guess_decode` and
  `encoder` try several codecs in turn, with exceptions as control flow;
  the model treats both as the identity on decoded strings.
- The byte/character distinction: `put` receives the raw surface bytes,
  while `cur` adds the decoded character count. The model has one string
  type for both.
- Generator laziness: `Parse` returns every word `parse` would yield,
  plus the error that would end the generator. A caller that stops
  iterating early is not modelled.
- `SimpleExtractor` only asserts that it is not implemented.
  sample/sample_parser.py prints its results. Neither is modelled.
- The numeric state codes 0, 1 and 2 are the datatype `Condition`.
  `get_condition`'s `default` is an `Option<Condition>`, so a default
  outside the three codes is not modelled.
- `FeatureManager.setup` builds the test lists; they are the constants
  `ContinuityTests`, `IgnoreTests` and `StopTests`.
- Example.TestSentence: the POS tags of the test sentence are assumed
  (IPADIC-style word class and sub-class). The tagger's real output is
  not available, and the lemma holds for every choice of the later
  feature fields.
