# Companion sentence features: a Dafny model

This project models the deterministic core of the "companion" sentence
classification service. It does not model the classifiers themselves. The
modelled parts are:

- **`SentenceFeatures`** turns a part-of-speech tagged sentence into a
  fixed-width token sequence for a nominal-attribute classifier. It does
  this in stages:
  - *mapToAnalyzed*: reduces tags and appends a terminator;
  - *Relevant*: replaces irrelevant tokens with `ANY`;
  - *Duplicate*: keeps only the first carrier of each analyzer tag, then
    collapses adjacent repeats;
  - *Start*: inserts a `START` or `ANY` marker;
  - *Fill*: pads to width 8 before the last token;
  - *End*: renames the terminator to `QM`, `EM` or `DT`.

  The source has three revisions of this pipeline. The shared module takes
  each revision's constants as a parameter: its tag names, its terminator
  tag, whether it lowercases, and its stage list.
  - `TypeFeatureAnalyzer` is the sentence-type analyzer (`analyzers/`).
  - `ClassifierFeatureAnalyzer` is the classifier package's revision.
  - `RootFeatureAnalyzer` is the older revision in the root package. It has
    four stages and no lowercasing or rendering.
- **`TenseFeatureAnalyzer`**:
  - builds per-word information from the tokenizer and the wordnet output;
  - strips contractions;
  - renders the "bag" of verb-like words as one feature string.
- **`InputModel`**: the input records, and pairing NLP sentences with
  wordnet sentences.
- **`PhraseModel`**: the question-type enumeration and its `evaluate`. The
  first constant, in declaration order, wins if its tag sequence occurs in
  the tags and its token sequence occurs in the lowercased tokens.
- **`PhraseAnalyzer`**:
  - the starting-sequence test over the tag patterns;
  - `detectInterrogative`.
- **`PhraseClassifier`**: `mostLikely`.
- **`DialogueStopWords`** and **`DialogueStopWordsJava`**: the Kotlin and
  Java stop-word handlers.

Methods model the source's loops and in-place list edits. Each is proved
equal to a specification function, and the lemmas state what the source
promises about those functions.

## Behaviour worth knowing

What the code does, stated plainly where it is easy to misread:

- **Length.** The KDoc of `SentenceTypeFeatureTransformer`
  (`src/main/kotlin/com/github/bpark/companion/analyzers/TypeFeatureAnalyzer.kt:180-183`)
  calls its result a fixed-length sequence, and the root revision's test
  (`src/test/kotlin/com/github/bpark/companion/SentenceFeatureAnalyzerTest.kt:41`)
  asserts size 8. The code only pads: the feature sequence has at least 8
  entries, and long inputs stay long. `TypeFeatureAnalyzer.LongSentenceScenario`
  and `RootFeatureAnalyzer.LongSentenceScenario` give lists of length 10.
- **Last feature.** The last feature is not always a terminator.
  - Suppose a "." appears inside the sentence. The duplicate pass keeps the
    inner stop and removes the appended one, so the last token stays `(*)`
    (`ClassifierFeatureAnalyzer.InnerStopScenario`).
  - Without an inner stop, the classifier revision does end in one of the
    classifier's `END_VALUES` (`ClassifierFeatureAnalyzer.LastFeatureIsEndValue`).
- **Terminator check reads the tag list.** Each of the three analyzers decides
  whether to append a terminator by looking at the last entry of the tag
  list, not at the tag of the last token
  (`src/main/kotlin/com/github/bpark/companion/classifier/SentenceFeatureAnalyzer.kt:196`,
  `src/main/kotlin/com/github/bpark/companion/analyzers/TypeFeatureAnalyzer.kt:229`,
  `src/main/kotlin/com/github/bpark/companion/SentenceFeatureAnalyzer.kt:168`).
  The tokens are mapped one by one up to the number of tokens. When there
  are more tags than tokens, the last tag belongs to no token: tokens `[hi]`
  with tags `[UH, .]` get no terminator (`ClassifierFeatureAnalyzer.ExtraTagScenario`).
  The lemmas about the terminator therefore require as many tags as tokens.
- **`mostLikely` ties.** Ties go to the first entry in iteration order, as
  the `Stream.max` reduction does (`PhraseClassifier.TieGoesToFirst`).
- **Search per pattern element.** `hasStartingSequence` restarts its search
  at index 1 for every pattern element. It compares first occurrences, so
  `WP VB VBP PRP VB` fails the pattern `[WP, VBP, PRP, VB]`
  (`PhraseAnalyzer.RestartedSearchScenario`). `detectInterrogative` cannot
  observe this, because the `[WP]` pattern already accepts every tag list
  that starts with `WP` (`PhraseAnalyzer.SequenceFoundIff`).

## Model

Source paths are relative to the repository root.

| member | source | states |
|---|---|---|
| Strings.StartsWithSlice | src/main/kotlin/com/github/bpark/companion/analyzers/TypeFeatureAnalyzer.kt:56-58 | a string starts with a prefix exactly when the prefix is no longer than the string and equals its head |
| Strings.ReplaceAllAbsent | src/main/kotlin/com/github/bpark/companion/analyzers/TenseFeatureAnalyzer.kt:70-79 | replacing a pattern that does not occur leaves the string unchanged |
| Strings.ReplaceAllAtStart | src/main/kotlin/com/github/bpark/companion/analyzers/TenseFeatureAnalyzer.kt:70-79 | an occurrence at the head is replaced and scanning resumes after it, so matches do not overlap |
| Strings.NatToString | src/main/kotlin/com/github/bpark/companion/analyzers/TenseFeatureAnalyzer.kt:26-32 | the decimal rendering of a bag index is non-empty and made of digits only |
| Strings.ParseNatToString | src/main/kotlin/com/github/bpark/companion/analyzers/TenseFeatureAnalyzer.kt:26-32 | reading the rendered index back gives the index, so distinct indices render differently |
| SentenceFeatures.ReduceTagIdempotent | src/main/kotlin/com/github/bpark/companion/analyzers/TypeFeatureAnalyzer.kt:216-225 | reducing an already reduced tag changes nothing |
| SentenceFeatures.MapToAnalyzed | src/main/kotlin/com/github/bpark/companion/analyzers/TypeFeatureAnalyzer.kt:212-234 | the loop yields one token per word and reduces each tag (WRB/WP to the question tag, VB to the verb tag, JJ/RB to the modifier tag). It lowercases the text where the revision does, and appends the terminator token exactly when the last tag is not the terminator tag (length + 1, else + 0) |
| SentenceFeatures.RelevantTokenTransform | src/main/kotlin/com/github/bpark/companion/analyzers/TypeFeatureAnalyzer.kt:73-87 | the two in-place passes keep the length. A token survives when its tag starts with an analyzer tag and otherwise becomes `ANY`. Verb tokens become `VERB`, and modifier tokens whose text is not in `jTypes` become `ANY` |
| SentenceFeatures.FirstIndexOfTag | src/main/kotlin/com/github/bpark/companion/analyzers/TypeFeatureAnalyzer.kt:100 | `indexOfFirst`: -1 exactly when no token carries the tag; otherwise the index of the first one |
| SentenceFeatures.KeepFirstByReinsertion | src/main/kotlin/com/github/bpark/companion/analyzers/TypeFeatureAnalyzer.kt:100-104 | removing every carrier of a tag and re-inserting the first one at its old index keeps exactly the first carrier in place |
| SentenceFeatures.KeepFirstAbsent | src/main/kotlin/com/github/bpark/companion/analyzers/TypeFeatureAnalyzer.kt:101 | a tag that no token carries leaves the list unchanged |
| SentenceFeatures.KeepFirstSplit | src/main/kotlin/com/github/bpark/companion/analyzers/TypeFeatureAnalyzer.kt:100-104 | everything up to the first carrier is kept; later carriers of the tag are removed |
| SentenceFeatures.KeepFirstAtMostOnce | src/main/kotlin/com/github/bpark/companion/analyzers/TypeFeatureAnalyzer.kt:100-104 | a list where the tag occurs at most once is unchanged |
| SentenceFeatures.KeepFirstEachAppend | src/main/kotlin/com/github/bpark/companion/analyzers/TypeFeatureAnalyzer.kt:99-106 | the pass over a concatenated tag list is the pass over the first part followed by the pass over the second |
| SentenceFeatures.KeepFirstEachIdentity | src/main/kotlin/com/github/bpark/companion/analyzers/TypeFeatureAnalyzer.kt:99-106 | when no listed tag is carried twice, the pass changes nothing |
| SentenceFeatures.FirstOccurrencePass | src/main/kotlin/com/github/bpark/companion/analyzers/TypeFeatureAnalyzer.kt:99-106 | the loop over `ANALYZER_TAGS` equals the reference filter that drops every token carrying an analyzer tag that an earlier token already carried |
| SentenceFeatures.FirstOccurrenceKeepsOthers | src/main/kotlin/com/github/bpark/companion/analyzers/TypeFeatureAnalyzer.kt:99-106 | tokens whose tag is no analyzer tag all survive, in their order |
| SentenceFeatures.Collapse | src/main/kotlin/com/github/bpark/companion/analyzers/TypeFeatureAnalyzer.kt:108-110 | collapsing repeats never lengthens the list and keeps its first and last token |
| SentenceFeatures.CollapseNoAdjacent | src/main/kotlin/com/github/bpark/companion/analyzers/TypeFeatureAnalyzer.kt:108-110 | after collapsing, no two neighbours are equal |
| SentenceFeatures.CollapseNoAdjacentIdentity | src/main/kotlin/com/github/bpark/companion/analyzers/TypeFeatureAnalyzer.kt:108-110 | a list without equal neighbours is unchanged, so collapsing is idempotent |
| SentenceFeatures.CollapseDropRepeat | src/main/kotlin/com/github/bpark/companion/analyzers/TypeFeatureAnalyzer.kt:108-110 | dropping one of two equal neighbours first does not change the result |
| SentenceFeatures.CollapseSnoc | src/main/kotlin/com/github/bpark/companion/analyzers/TypeFeatureAnalyzer.kt:110 | `lastOrNull() != it`: appending a token equal to the last one adds nothing, any other token is appended |
| SentenceFeatures.CollapseCount | src/main/kotlin/com/github/bpark/companion/analyzers/TypeFeatureAnalyzer.kt:108-110 | collapsing never adds carriers of a tag and never removes the last one |
| SentenceFeatures.CollapseKeepsFirst | src/main/kotlin/com/github/bpark/companion/analyzers/TypeFeatureAnalyzer.kt:108-110 | the first carrier of a tag is still the first carrier after collapsing |
| SentenceFeatures.Deduplicated | src/main/kotlin/com/github/bpark/companion/analyzers/TypeFeatureAnalyzer.kt:96-113 | the duplicate stage keeps the head of a non-empty list |
| SentenceFeatures.DeduplicatedCarriers | src/main/kotlin/com/github/bpark/companion/analyzers/TypeFeatureAnalyzer.kt:96-113 | after the duplicate stage, every analyzer tag is carried once if it was carried at all, and never otherwise. Its carrier is the original first carrier, and no two neighbours are equal |
| SentenceFeatures.DeduplicatedIdentity | src/main/kotlin/com/github/bpark/companion/analyzers/TypeFeatureAnalyzer.kt:96-113 | a list with no repeated analyzer tag and no equal neighbours is unchanged; hence the stage is idempotent |
| SentenceFeatures.DeduplicatedKeepsLast | src/main/kotlin/com/github/bpark/companion/analyzers/TypeFeatureAnalyzer.kt:96-113 | the last token survives when its tag is no analyzer tag or is carried by no earlier token |
| SentenceFeatures.FirstOccurrences | src/main/kotlin/com/github/bpark/companion/analyzers/TypeFeatureAnalyzer.kt:97-106 | the remove-and-reinsert loop over `ANALYZER_TAGS` keeps, tag by tag, only the first carrier of each |
| SentenceFeatures.CollapseRepeats | src/main/kotlin/com/github/bpark/companion/analyzers/TypeFeatureAnalyzer.kt:108-110 | the `lastOrNull` loop computes the collapse of adjacent repeats |
| SentenceFeatures.DuplicateTokenTransform | src/main/kotlin/com/github/bpark/companion/analyzers/TypeFeatureAnalyzer.kt:96-113 | the remove-and-reinsert loop and the `lastOrNull` loop compute the duplicate stage |
| SentenceFeatures.StartTokenTransform | src/main/kotlin/com/github/bpark/companion/analyzers/TypeFeatureAnalyzer.kt:122-134 | the result is the start-marked list, and one token is inserted in front or the list is unchanged |
| SentenceFeatures.StartFillHead | src/main/kotlin/com/github/bpark/companion/analyzers/TypeFeatureAnalyzer.kt:122-151 | after the start and fill stages the first token is `START` or `ANY` |
| SentenceFeatures.FillTokenTransform | src/main/kotlin/com/github/bpark/companion/analyzers/TypeFeatureAnalyzer.kt:143-151 | padding gives length max(n, 8), keeps the last token last and keeps all earlier tokens as a prefix |
| SentenceFeatures.FilledShape | src/main/kotlin/com/github/bpark/companion/analyzers/TypeFeatureAnalyzer.kt:143-151 | the padding tokens are `ANY` and sit right before the last token |
| SentenceFeatures.EndTokenTransform | src/main/kotlin/com/github/bpark/companion/analyzers/TypeFeatureAnalyzer.kt:160-176 | the result is the end-marked list; the length and every token but the last are unchanged |
| SentenceFeatures.Render | src/main/kotlin/com/github/bpark/companion/analyzers/TypeFeatureAnalyzer.kt:236-243 | `(text/tag)`, or `(tag)` for a token without text; `ClassifierFeatureAnalyzer.EndRenderings`, `ClassifierFeatureAnalyzer.QuestionRendered` and `TypeFeatureAnalyzer.ImperativeRendered` state renderings of particular tokens |
| SentenceFeatures.Rendered | src/main/kotlin/com/github/bpark/companion/analyzers/TypeFeatureAnalyzer.kt:209 | one rendered string per token, so rendering keeps the length of the feature list |
| SentenceFeatures.AfterStage | src/main/kotlin/com/github/bpark/companion/analyzers/TypeFeatureAnalyzer.kt:203-205 | no stage empties a non-empty list |
| SentenceFeatures.AfterStages | src/main/kotlin/com/github/bpark/companion/analyzers/TypeFeatureAnalyzer.kt:203-205 | folding the stage list over a non-empty list gives a non-empty list |
| SentenceFeatures.ApplyStage | src/main/kotlin/com/github/bpark/companion/analyzers/TypeFeatureAnalyzer.kt:204 | dispatching one stage computes that stage |
| SentenceFeatures.Pipeline | src/main/kotlin/com/github/bpark/companion/analyzers/TypeFeatureAnalyzer.kt:201-205 | the `var`-and-loop fold over the revision's stages computes its feature list |
| SentenceFeatures.FoldFiveStages | src/main/kotlin/com/github/bpark/companion/analyzers/TypeFeatureAnalyzer.kt:195-205 | with the five-stage list the fold is relevance, then duplicates, start, fill and end |
| SentenceFeatures.FoldFourStages | src/main/kotlin/com/github/bpark/companion/SentenceFeatureAnalyzer.kt:135-144 | with the four-stage list the fold is relevance, then duplicates, start and fill |
| SentenceFeatures.AtLeastWidth | src/main/kotlin/com/github/bpark/companion/analyzers/TypeFeatureAnalyzer.kt:146-148 | any stage list ending in Fill, or in Fill then End, gives at least 8 tokens |
| SentenceFeatures.FiveStagesLast | src/main/kotlin/com/github/bpark/companion/analyzers/TypeFeatureAnalyzer.kt:160-176 | when relevance keeps the last token and no earlier token shares its tag, the last feature is the terminator renamed by the end stage |
| SentenceFeatures.LastFourStagesLast | src/main/kotlin/com/github/bpark/companion/analyzers/TypeFeatureAnalyzer.kt:160-176 | after relevance, when no earlier token shares the last token's tag, the duplicate, start, fill and end stages leave the end-marked last token last |
| TypeFeatureAnalyzer.TypeConstantsValid | src/main/kotlin/com/github/bpark/companion/analyzers/TypeFeatureAnalyzer.kt:30-46 | the revision's constants meet the pipeline's assumptions |
| TypeFeatureAnalyzer.Transform | src/main/kotlin/com/github/bpark/companion/analyzers/TypeFeatureAnalyzer.kt:188-210 | the rendered features of the sentence, at least 8 of them |
| TypeFeatureAnalyzer.FeaturesAtLeastWidth | src/main/kotlin/com/github/bpark/companion/analyzers/TypeFeatureAnalyzer.kt:188-210 | every input gives at least 8 features |
| TypeFeatureAnalyzer.FeaturesComposition | src/main/kotlin/com/github/bpark/companion/analyzers/TypeFeatureAnalyzer.kt:195-205 | the features are the five stages applied in order to the analyzed tokens |
| TypeFeatureAnalyzer.RelevanceKeepsAllOthers | src/main/kotlin/com/github/bpark/companion/analyzers/TypeFeatureAnalyzer.kt:73-87 | since the empty terminator tag prefixes every tag, the first pass keeps every token. Only verbs (to `VERB`) and modifiers outside `jTypes` (to `ANY`) change |
| TypeFeatureAnalyzer.AnalyzedEndsWithTerminatorTag | src/main/kotlin/com/github/bpark/companion/analyzers/TypeFeatureAnalyzer.kt:229-231 | with as many tags as tokens, the analyzed tokens end with a token of the empty terminator tag |
| TypeFeatureAnalyzer.ImperativeScenario | src/test/kotlin/com/github/bpark/companion/SentenceClassifierTest.kt:56-60 | "Do it now !" renders as `(^) (_/VERB) (it/PRP) (*) (!/.) (*) (*) (DT/)` |
| TypeFeatureAnalyzer.LongSentenceScenario | src/main/kotlin/com/github/bpark/companion/analyzers/TypeFeatureAnalyzer.kt:143-151 | eight nouns give 10 features, so the width is not fixed at 8 |
| ClassifierFeatureAnalyzer.ClassifierConstantsValid | src/main/kotlin/com/github/bpark/companion/classifier/SentenceFeatureAnalyzer.kt:27-43 | the revision's constants meet the pipeline's assumptions |
| ClassifierFeatureAnalyzer.Transform | src/main/kotlin/com/github/bpark/companion/classifier/SentenceFeatureAnalyzer.kt:155-177 | the rendered features of the sentence, at least 8 of them |
| ClassifierFeatureAnalyzer.FeaturesAtLeastWidth | src/main/kotlin/com/github/bpark/companion/classifier/SentenceFeatureAnalyzer.kt:155-177 | every input gives at least 8 features |
| ClassifierFeatureAnalyzer.FeaturesComposition | src/main/kotlin/com/github/bpark/companion/classifier/SentenceFeatureAnalyzer.kt:162-172 | the features are the five stages applied in order to the analyzed tokens |
| ClassifierFeatureAnalyzer.RelevantTokenTags | src/main/kotlin/com/github/bpark/companion/classifier/SentenceFeatureAnalyzer.kt:60-69 | a relevance output tagged `*` is exactly `ANY`, and the output is tagged `.` exactly when the input is |
| ClassifierFeatureAnalyzer.ComparativesBecomeAny | src/main/kotlin/com/github/bpark/companion/classifier/SentenceFeatureAnalyzer.kt:60-69 | comparative and superlative tags (JJS, JJR, RBS, RBR) are not modifiers after reduction and become `ANY` |
| ClassifierFeatureAnalyzer.FirstFeatureIsStartOrAny | src/main/kotlin/com/github/bpark/companion/classifier/SentenceFeatureAnalyzer.kt:96-126 | after the start and fill stages the first feature pair is `START` or `ANY` |
| ClassifierFeatureAnalyzer.FirstFeatureIsStartValue | src/main/kotlin/com/github/bpark/companion/SentenceClassifier.kt:38 | the first rendered feature is always one of the classifier's `START_VALUES` |
| ClassifierFeatureAnalyzer.LastFeatureIsEndValue | src/main/kotlin/com/github/bpark/companion/SentenceClassifier.kt:40 | with as many tags as tokens, no inner `.` tag, and a final `.` only on `?`, `!` or `.`, the last rendered feature is one of the classifier's `END_VALUES` |
| ClassifierFeatureAnalyzer.LastFeatureIsEndToken | src/main/kotlin/com/github/bpark/companion/classifier/SentenceFeatureAnalyzer.kt:130-146 | under the same conditions the last feature is `DT`, `EM` or `QM` |
| ClassifierFeatureAnalyzer.StopEndToken | src/main/kotlin/com/github/bpark/companion/classifier/SentenceFeatureAnalyzer.kt:128-146 | the end stage turns a last token with text `?`, `!` or `.` into `QM`, `EM` or `DT` |
| ClassifierFeatureAnalyzer.EndRenderings | src/main/kotlin/com/github/bpark/companion/classifier/SentenceFeatureAnalyzer.kt:39-41 | `DT`, `EM` and `QM` render as the three `END_VALUES` |
| ClassifierFeatureAnalyzer.AnalyzedStopOnlyLast | src/main/kotlin/com/github/bpark/companion/classifier/SentenceFeatureAnalyzer.kt:179-201 | with as many tags as tokens, no inner `.` tag, and a final `.` only on `?`, `!` or `.`, only the last analyzed token is tagged `.`, and its text is `?`, `!` or `.` |
| ClassifierFeatureAnalyzer.ExtraTagScenario | src/main/kotlin/com/github/bpark/companion/classifier/SentenceFeatureAnalyzer.kt:182-198 | tokens `[hi]` with tags `[UH, .]` are analyzed to the one token `hi`, with no terminator and no token tagged `.` |
| ClassifierFeatureAnalyzer.RelevanceStopOnlyLast | src/main/kotlin/com/github/bpark/companion/classifier/SentenceFeatureAnalyzer.kt:60-69 | relevance keeps a final stop and puts no `.` tag before it |
| ClassifierFeatureAnalyzer.QuestionScenario | src/main/kotlin/com/github/bpark/companion/classifier/SentenceFeatureAnalyzer.kt:155-177 | "What is your name ?" renders as `(^) (what/WHQ) (_/VERB) (*) (*) (*) (*) (QM/.)` |
| ClassifierFeatureAnalyzer.InnerStopScenario | src/main/kotlin/com/github/bpark/companion/classifier/SentenceFeatureAnalyzer.kt:75-91 | "Hi . there" ends in `(*)`, which is not an end value |
| RootFeatureAnalyzer.RootConstantsValid | src/main/kotlin/com/github/bpark/companion/SentenceFeatureAnalyzer.kt:27-38 | the revision's constants meet the pipeline's assumptions |
| RootFeatureAnalyzer.Transform | src/main/kotlin/com/github/bpark/companion/SentenceFeatureAnalyzer.kt:128-149 | the unrendered features of the sentence, at least 8 of them |
| RootFeatureAnalyzer.FeaturesAtLeastWidth | src/main/kotlin/com/github/bpark/companion/SentenceFeatureAnalyzer.kt:128-149 | every input gives at least 8 tokens |
| RootFeatureAnalyzer.FeaturesComposition | src/main/kotlin/com/github/bpark/companion/SentenceFeatureAnalyzer.kt:135-144 | the features are the four stages applied in order, with no end stage |
| RootFeatureAnalyzer.AnalyzedKeepsText | src/main/kotlin/com/github/bpark/companion/SentenceFeatureAnalyzer.kt:165 | this revision does not lowercase: each analyzed token keeps its word's text |
| RootFeatureAnalyzer.JPrefixedTagsSurvive | src/main/kotlin/com/github/bpark/companion/SentenceFeatureAnalyzer.kt:55-63 | a tag such as JJS that starts with `J` but is not `J` passes the relevance stage untouched |
| RootFeatureAnalyzer.RelevantStarIsAny | src/main/kotlin/com/github/bpark/companion/SentenceFeatureAnalyzer.kt:55-63 | a relevance output tagged `*` is exactly `ANY` |
| RootFeatureAnalyzer.FirstFeatureIsStartOrAny | src/main/kotlin/com/github/bpark/companion/SentenceFeatureAnalyzer.kt:93-104 | the first feature is `START` or `ANY` |
| RootFeatureAnalyzer.QuestionScenario | src/main/kotlin/com/github/bpark/companion/SentenceFeatureAnalyzer.kt:178 | the question in `main` gives `START, What/WH, _/V, ANY, ANY, ANY, ANY, ?/.` |
| RootFeatureAnalyzer.LongSentenceScenario | src/test/kotlin/com/github/bpark/companion/SentenceFeatureAnalyzerTest.kt:39-41 | eight JJS words give 10 tokens, against the test's expectation of 8 |
| TenseFeatureAnalyzer.Entry | src/main/kotlin/com/github/bpark/companion/analyzers/TenseFeatureAnalyzer.kt:24-35 | `map(index)` starts with the word's tag and adds a suffix only for VBP, VBZ, VBD, VBN, VB, VBG and MD |
| TenseFeatureAnalyzer.Verbs | src/main/kotlin/com/github/bpark/companion/analyzers/TenseFeatureAnalyzer.kt:47-51 | the filter keeps only verb-like words (V tags, MD will/would, TO) and never lengthens the list |
| TenseFeatureAnalyzer.VerbsPrefix | src/main/kotlin/com/github/bpark/companion/analyzers/TenseFeatureAnalyzer.kt:47-51 | filtering a prefix gives a prefix of the filtered list |
| TenseFeatureAnalyzer.VerbsStep | src/main/kotlin/com/github/bpark/companion/analyzers/TenseFeatureAnalyzer.kt:47-51 | extending the input by one word extends the filtered list by that word exactly when it is verb-like |
| TenseFeatureAnalyzer.Bag | src/main/kotlin/com/github/bpark/companion/analyzers/TenseFeatureAnalyzer.kt:46-55 | one entry per verb-like word, so never more entries than words, each beginning with its word's tag; `TenseFeatureAnalyzer.BagEntryOfWord` and `TenseFeatureAnalyzer.BagSkipsOthers` place each word's entry |
| TenseFeatureAnalyzer.BagEntryOfWord | src/main/kotlin/com/github/bpark/companion/analyzers/TenseFeatureAnalyzer.kt:53 | a verb-like word appears in the bag at the position given by the verb-like words before it, rendered with that index |
| TenseFeatureAnalyzer.BagSkipsOthers | src/main/kotlin/com/github/bpark/companion/analyzers/TenseFeatureAnalyzer.kt:47-53 | a word that is not verb-like adds nothing to the bag |
| TenseFeatureAnalyzer.RemoveContractions | src/main/kotlin/com/github/bpark/companion/analyzers/TenseFeatureAnalyzer.kt:66-82 | the whole-word `wo` rule, then the seven contraction rewrites in their fixed order; `TenseFeatureAnalyzer.RemoveContractionsPlain`, `TenseFeatureAnalyzer.RemoveContractionsUnchanged`, `TenseFeatureAnalyzer.AfterNegation` and the three scenarios below state what this does |
| TenseFeatureAnalyzer.AbsentChar | src/main/kotlin/com/github/bpark/companion/analyzers/TenseFeatureAnalyzer.kt:71-79 | a pattern containing a character absent from the string does not occur in it |
| TenseFeatureAnalyzer.RemoveContractionsPlain | src/main/kotlin/com/github/bpark/companion/analyzers/TenseFeatureAnalyzer.kt:66-82 | without an apostrophe only the whole-word `wo` rule can apply |
| TenseFeatureAnalyzer.RemoveContractionsUnchanged | src/main/kotlin/com/github/bpark/companion/analyzers/TenseFeatureAnalyzer.kt:66-82 | a word other than `wo` in which none of `n't`, `'re`, `'m`, `'ll`, `'ve`, `'d`, `'s` occurs is unchanged |
| TenseFeatureAnalyzer.AfterNegation | src/main/kotlin/com/github/bpark/companion/analyzers/TenseFeatureAnalyzer.kt:72-79 | on a string with no apostrophe the six apostrophe rules change nothing |
| TenseFeatureAnalyzer.WoScenario | src/main/kotlin/com/github/bpark/companion/analyzers/TenseFeatureAnalyzer.kt:70 | `wo` alone becomes `will` |
| TenseFeatureAnalyzer.NegationScenario | src/main/kotlin/com/github/bpark/companion/analyzers/TenseFeatureAnalyzer.kt:71 | `n't` becomes `not` |
| TenseFeatureAnalyzer.WontScenario | src/main/kotlin/com/github/bpark/companion/analyzers/TenseFeatureAnalyzer.kt:70-71 | `won't` becomes `wonot`: the anchored `wo` rule does not fire inside a longer word |
| TenseFeatureAnalyzer.BuildWordInfo | src/main/kotlin/com/github/bpark/companion/analyzers/TenseFeatureAnalyzer.kt:57-64 | one entry per token, carrying the token's tag and the lemma of the matching wordnet word (none when it is null) |
| TenseFeatureAnalyzer.BuildWordInfoPlain | src/main/kotlin/com/github/bpark/companion/analyzers/TenseFeatureAnalyzer.kt:57-64 | for tokens without contractions each entry's word is the lowercased token |
| TenseFeatureAnalyzer.PlainToken | src/main/kotlin/com/github/bpark/companion/analyzers/TenseFeatureAnalyzer.kt:60 | a lowercased token without apostrophe that is not `wo` comes out of contraction removal unchanged |
| TenseFeatureAnalyzer.Transform | src/main/kotlin/com/github/bpark/companion/analyzers/TenseFeatureAnalyzer.kt:42-44 | the transform produces exactly one feature string |
| TenseFeatureAnalyzer.JoinSnoc | src/main/kotlin/com/github/bpark/companion/analyzers/TenseFeatureAnalyzer.kt:43 | `joinToString(" ")` of a list extended by one item adds the separator and the item |
| TenseFeatureAnalyzer.JoinFour | src/main/kotlin/com/github/bpark/companion/analyzers/TenseFeatureAnalyzer.kt:43 | joining four items puts the separator between each neighbouring pair |
| TenseFeatureAnalyzer.PresentScenario | src/main/kotlin/com/github/bpark/companion/analyzers/TenseFeatureAnalyzer.kt:24-35 | "i go" gives `VBP(0)`: a present verb other than be or have carries only its index |
| TenseFeatureAnalyzer.ModalScenario | src/main/kotlin/com/github/bpark/companion/analyzers/TenseFeatureAnalyzer.kt:24-35 | "i will go" gives `MD(will,0) VB`: the modal carries its word and the bare verb only its tag |
| TenseFeatureAnalyzer.GoingToScenario | src/main/kotlin/com/github/bpark/companion/analyzers/TenseFeatureAnalyzer.kt:46-55 | "i am going to go" gives `VBP(be,0) VBG(going,1) TO VB` |
| TenseFeatureAnalyzer.GoingToSentenceScenario | src/main/kotlin/com/github/bpark/companion/analyzers/TenseFeatureAnalyzer.kt:42-64 | the input-model sentence `I am going to go`, tagged `PRP VBP VBG TO VB` with wordnet lemmas `be`, `go`, `go` for the verbs, transforms to `["VBP(be,0) VBG(going,1) TO VB"]` |
| InputModel.Zip | src/main/kotlin/com/github/bpark/companion/input/InputModel.kt:62 | one pair per NLP sentence, pairing it with the wordnet sentence of the same index |
| InputModel.GetSentences | src/main/kotlin/com/github/bpark/companion/input/InputModel.kt:61-63 | as many sentences as the NLP analysis has, each made of the NLP sentence and the wordnet sentence of the same index |
| InputModel.GetSentencesIgnoresExtra | src/main/kotlin/com/github/bpark/companion/input/InputModel.kt:61-63 | wordnet sentences beyond the NLP count do not affect the result |
| PhraseModel.Rank | src/main/java/com/github/bpark/companion/model/phrase/QuestionType.java:31-40 | each constant sits at its rank in declaration order |
| PhraseModel.RankOfValue | src/main/java/com/github/bpark/companion/model/phrase/QuestionType.java:31-40 | the rank of the i-th constant is i |
| PhraseModel.TokenSequence | src/main/java/com/github/bpark/companion/model/phrase/QuestionType.java:31-53 | one token for single-word constants and two for QUANTITY, FREQUENCY and DISTANCE, all lowercase |
| PhraseModel.TagSequence | src/main/java/com/github/bpark/companion/model/phrase/QuestionType.java:31-53 | as many tags as tokens |
| PhraseModel.IndexFrom | src/main/java/com/github/bpark/companion/model/phrase/QuestionType.java:70 | the search from a start index finds the first occurrence at or after it, or -1 exactly when there is none |
| PhraseModel.IndexOfSubList | src/main/java/com/github/bpark/companion/model/phrase/QuestionType.java:69-75 | `Collections.indexOfSubList`: the first occurrence of the target, or -1 exactly when it does not occur |
| PhraseModel.ContainsTokenSequence | src/main/java/com/github/bpark/companion/model/phrase/QuestionType.java:69-71 | the constant's token sequence occurs contiguously somewhere in the tokens |
| PhraseModel.ContainsTagSequence | src/main/java/com/github/bpark/companion/model/phrase/QuestionType.java:73-75 | the constant's tag sequence occurs contiguously somewhere in the tags |
| PhraseModel.ContainsSingleton | src/main/java/com/github/bpark/companion/model/phrase/QuestionType.java:69-75 | a one-element sequence is found exactly when the element is in the list |
| PhraseModel.ContainsPair | src/main/java/com/github/bpark/companion/model/phrase/QuestionType.java:69-75 | a two-element sequence is found exactly when the two appear as neighbours in that order |
| PhraseModel.ElementAbsent | src/main/java/com/github/bpark/companion/model/phrase/QuestionType.java:69-75 | a target holding an element that the list does not hold is not found |
| PhraseModel.FirstMatchIndex | src/main/java/com/github/bpark/companion/model/phrase/QuestionType.java:60-65 | the scan from a given constant: -1 exactly when no later constant matches; otherwise a matching constant with no match between the start and it |
| PhraseModel.Evaluated | src/main/java/com/github/bpark/companion/model/phrase/QuestionType.java:55-75 | null exactly when no constant matches the lowercased tokens and the tags; otherwise a matching constant before which no constant matches |
| PhraseModel.Evaluate | src/main/java/com/github/bpark/companion/model/phrase/QuestionType.java:55-67 | the loop with `break` returns the first matching constant over the lowercased tokens, or null |
| PhraseModel.EvaluatedNone | src/main/java/com/github/bpark/companion/model/phrase/QuestionType.java:55-67 | the result is null exactly when no constant matches |
| PhraseModel.EvaluatedFirst | src/main/java/com/github/bpark/companion/model/phrase/QuestionType.java:55-67 | the result matches and no constant declared before it matches |
| PhraseModel.EvaluatedIs | src/main/java/com/github/bpark/companion/model/phrase/QuestionType.java:55-67 | conversely, a matching constant with no earlier match is the result |
| PhraseModel.FirstMatchIs | src/main/java/com/github/bpark/companion/model/phrase/QuestionType.java:60-65 | a matching constant with no earlier match is where the scan stops |
| PhraseModel.EvaluatedAt | src/main/java/com/github/bpark/companion/model/phrase/QuestionType.java:55-67 | the result is the constant at which the scan over the lowercased tokens stops |
| PhraseModel.NoOneWordMatch | src/main/java/com/github/bpark/companion/model/phrase/QuestionType.java:31-36 | without the tags WP and WDT and the words where, when and why, no constant before QUANTITY matches |
| PhraseModel.NoTwoWordMatch | src/main/java/com/github/bpark/companion/model/phrase/QuestionType.java:37-39 | without the words much, often and far, none of QUANTITY, FREQUENCY and DISTANCE matches |
| PhraseModel.NoMatchBeforeChoice | src/main/java/com/github/bpark/companion/model/phrase/QuestionType.java:31-35 | without the tags WP and WRB, no constant before CHOICE matches |
| PhraseModel.IndependentMatchScenario | src/main/java/com/github/bpark/companion/model/phrase/QuestionType.java:61 | the tag and the token sequence are searched independently: "Tell me who" tagged WP PRP NN gives PEOPLE, with the tag found at 0 and the token at 2 |
| PhraseModel.TagsCaseSensitive | src/main/java/com/github/bpark/companion/model/phrase/QuestionType.java:57-61 | tags are not lowercased: tag `wp` does not match PEOPLE |
| PhraseModel.TokensLowercased | src/main/java/com/github/bpark/companion/model/phrase/QuestionType.java:57 | tokens are lowercased: `WHO` matches PEOPLE |
| PhraseAnalyzer.FirstPosition | src/main/java/com/github/bpark/companion/PhraseAnalyzer.java:59-65 | the inner loop finds the first index at or after the start that holds the tag, or 0 exactly when there is none |
| PhraseAnalyzer.HasStartingSequence | src/main/java/com/github/bpark/companion/PhraseAnalyzer.java:47-76 | the nested loops decide the starting-sequence predicate: the first tag matches, and the first occurrences (from index 1) of the later elements strictly increase |
| PhraseAnalyzer.StartingSequenceFound | src/main/java/com/github/bpark/companion/PhraseAnalyzer.java:47-76 | an accepted pattern has every later element present at index 1 or after, at strictly increasing first positions |
| PhraseAnalyzer.FirstTagDiffers | src/main/java/com/github/bpark/companion/PhraseAnalyzer.java:51 | a pattern whose first element differs from the first tag is rejected |
| PhraseAnalyzer.SingletonStartingSequence | src/main/java/com/github/bpark/companion/PhraseAnalyzer.java:47-76 | a one-element pattern passes exactly when it equals the first tag |
| PhraseAnalyzer.PairStartingSequence | src/main/java/com/github/bpark/companion/PhraseAnalyzer.java:47-76 | a two-element pattern passes exactly when the first tag matches and the second element occurs later |
| PhraseAnalyzer.RestartedSearchScenario | src/main/java/com/github/bpark/companion/PhraseAnalyzer.java:57-71 | WP VB VBP PRP VB contains the last pattern in order, yet fails it, because each search restarts at index 1 |
| PhraseAnalyzer.SequenceFound | src/main/java/com/github/bpark/companion/PhraseAnalyzer.java:39 | some pattern of `SEQUENCES` opens the tag list; `PhraseAnalyzer.SequenceFoundIff` states which tag lists those are |
| PhraseAnalyzer.SequenceFoundIff | src/main/java/com/github/bpark/companion/PhraseAnalyzer.java:29-39 | some pattern passes exactly when the first tag is WRB, MD, WDT or WP, or it is VBP with a PRP later |
| PhraseAnalyzer.DetectInterrogative | src/main/java/com/github/bpark/companion/PhraseAnalyzer.java:37-45 | a question type is returned only when some pattern passes |
| PhraseAnalyzer.ExclamationIsNoQuestion | src/main/java/com/github/bpark/companion/PhraseAnalyzer.java:41 | a sentence whose last token is `!` is never a question |
| PhraseAnalyzer.NoPatternNoQuestion | src/main/java/com/github/bpark/companion/PhraseAnalyzer.java:39-43 | a first tag outside WRB, MD, WDT, WP and VBP gives null |
| PhraseAnalyzer.DetectEvaluates | src/main/java/com/github/bpark/companion/PhraseAnalyzer.java:39-43 | a WRB, MD, WDT or WP start, or a VBP start with a later PRP, without a final `!` gives exactly the evaluated question type |
| PhraseAnalyzer.DetectedAt | src/main/java/com/github/bpark/companion/PhraseAnalyzer.java:39-43 | a WRB, MD, WDT or WP start, or a VBP start with a later PRP, without a final `!` whose lowercased tokens first match a constant gives that constant |
| PhraseAnalyzer.ModalQuestionScenario | src/main/java/com/github/bpark/companion/PhraseAnalyzer.java:31 | "Can I go ?" passes the MD pattern but has no question type |
| PhraseAnalyzer.LocationScenario | src/test/java/com/github/bpark/companion/PhraseAnalyzerTest.java:45-49 | "Where is the library ?" gives LOCATION |
| PhraseAnalyzer.LocationFirstMatch | src/main/java/com/github/bpark/companion/model/phrase/QuestionType.java:31-32 | a sentence opening with `where` tagged WRB, without WP, first matches LOCATION |
| PhraseAnalyzer.ChoiceFirstMatch | src/main/java/com/github/bpark/companion/model/phrase/QuestionType.java:31-36 | a sentence opening with `which` tagged WDT, without WP and WRB, first matches CHOICE |
| PhraseAnalyzer.ChoiceScenario | src/test/java/com/github/bpark/companion/PhraseAnalyzerTest.java:137-141 | "Which drink did you order ?" gives CHOICE |
| PhraseAnalyzer.DescriptionScenario | src/test/java/com/github/bpark/companion/PhraseAnalyzerTest.java:160-164 | "How do you cook paella ?" gives DESCRIPTION |
| PhraseAnalyzer.DescriptionFirstMatch | src/main/java/com/github/bpark/companion/model/phrase/QuestionType.java:31-40 | a sentence with `how`/WRB but without WP, WDT and the words where, when, why, much, often and far first matches DESCRIPTION |
| PhraseAnalyzer.QuantityFirstMatch | src/main/java/com/github/bpark/companion/model/phrase/QuestionType.java:31-37 | a sentence opening with `how much` tagged WRB JJ, without WP, WDT, where, when and why, first matches QUANTITY |
| PhraseAnalyzer.FrequencyFirstMatch | src/main/java/com/github/bpark/companion/model/phrase/QuestionType.java:31-38 | a sentence opening with `how often` tagged WRB RB, without WP, WDT, JJ, where, when and why, first matches FREQUENCY |
| PhraseAnalyzer.QuantityScenario | src/test/java/com/github/bpark/companion/PhraseAnalyzerTest.java:183-187 | "How much money will I need ?" gives QUANTITY |
| PhraseAnalyzer.FrequencyScenario | src/test/java/com/github/bpark/companion/PhraseAnalyzerTest.java:200-204 | "How often does she study ?" gives FREQUENCY |
| PhraseClassifier.MaxFromBounds | src/main/kotlin/com/github/bpark/companion/classifier/PhraseClassifier.kt:44 | the reduction yields the accumulator or one of the remaining entries, and no value it passes over is greater |
| PhraseClassifier.Maximum | src/main/kotlin/com/github/bpark/companion/classifier/PhraseClassifier.kt:44 | the maximum is one of the entries and no entry has a greater value |
| PhraseClassifier.MaxFromIsFirstMaximum | src/main/kotlin/com/github/bpark/companion/classifier/PhraseClassifier.kt:44 | the `maxBy` reduction keeps the accumulator unless a later entry is strictly greater, and then yields the first entry of greatest value |
| PhraseClassifier.MaximumIsFirstMaximum | src/main/kotlin/com/github/bpark/companion/classifier/PhraseClassifier.kt:44 | `Stream.max` returns the first entry of greatest value |
| PhraseClassifier.FirstMaximumUnique | src/main/kotlin/com/github/bpark/companion/classifier/PhraseClassifier.kt:44 | there is only one first maximum |
| PhraseClassifier.MostLikely | src/main/kotlin/com/github/bpark/companion/classifier/PhraseClassifier.kt:43-46 | the class is the key of the maximum; `PhraseClassifier.MostLikelyIff`, `PhraseClassifier.StrictMaximum` and `PhraseClassifier.TieGoesToFirst` state when that holds |
| PhraseClassifier.MostLikelyIff | src/main/kotlin/com/github/bpark/companion/classifier/PhraseClassifier.kt:43-46 | in a map, `mostLikely` holds exactly when the class's entry is the first of greatest value |
| PhraseClassifier.NotAKey | src/main/kotlin/com/github/bpark/companion/classifier/PhraseClassifier.kt:43-46 | a class that is no key is never the most likely |
| PhraseClassifier.StrictMaximum | src/main/kotlin/com/github/bpark/companion/classifier/PhraseClassifier.kt:43-46 | a class whose value is strictly greater than all others is the most likely |
| PhraseClassifier.TieGoesToFirst | src/main/kotlin/com/github/bpark/companion/classifier/PhraseClassifier.kt:44 | of two tied maxima the entry met first wins and the later one is not the most likely |
| DialogueStopWords.IsStopword | src/main/kotlin/com/github/bpark/companion/DialogueStopWords.kt:16-18 | membership in `STOPS`; `DialogueStopWords.StopwordsExactly` and `DialogueStopWords.CaseSensitive` state which words those are |
| DialogueStopWords.StopwordsExactly | src/main/kotlin/com/github/bpark/companion/DialogueStopWords.kt:13-18 | the stop words are exactly `I`, `i`, `it` and `It` |
| DialogueStopWords.CaseSensitive | src/main/kotlin/com/github/bpark/companion/DialogueStopWords.kt:16-18 | the comparison is exact: `IT`, `iT` and `its` are not stop words |
| DialogueStopWordsJava.IsStopword | src/main/java/com/github/bpark/companion/DialogueStopWords.java:18-21 | membership in `STOPS`; `DialogueStopWordsJava.StopwordsExactly`, `DialogueStopWordsJava.CaseSensitive` and `DialogueStopWordsJava.AgreesWithKotlin` state which words those are |
| DialogueStopWordsJava.StopwordsExactly | src/main/java/com/github/bpark/companion/DialogueStopWords.java:16-21 | the stop words are exactly `I`, `i`, `it` and `It` |
| DialogueStopWordsJava.CaseSensitive | src/main/java/com/github/bpark/companion/DialogueStopWords.java:18-21 | the comparison is exact: `IT`, `iT` and `its` are not stop words |
| DialogueStopWordsJava.AgreesWithKotlin | src/main/java/com/github/bpark/companion/DialogueStopWords.java:16-21 | the Java and the Kotlin handler answer alike on every word |

## Left out

- **Services and I/O.** Logging, the Vert.x verticles and the JSON
  decoding of the input are not modelled. Neither are the classification
  dispatch protocol and its shared-state read-modify-write.
- **Classifiers and learners.** The Weka classifiers, the learners and their
  training files are not modelled. `mostLikely` is modelled over a given
  prediction map.
- **The root revision's `main`.** It prints its result; the model keeps
  only its input, as `RootFeatureAnalyzer.QuestionScenario`.
- **Lowercasing.** `toLowerCase` is modelled on ASCII letters only. Locale
  and Unicode case mapping are not modelled.
- **Regular expressions.** The contraction rules are modelled as
  left-to-right replacement of literal text, which is what these patterns
  match. `^wo$` is modelled as a whole-string comparison.
- **Floating point.** Prediction values are reals. NaN and the ordering of
  `-0.0` under `Double.compareTo` are not modelled.
- **Map iteration order.** A prediction map is modelled as the sequence of
  its entries, taken in the iteration order the map happens to use.
- **Crashes become preconditions.** Where the source would throw, the model
  requires the input that avoids it:
  - `last()` or `first()` on an empty list;
  - a tag or wordnet index out of range;
  - `tokens.get(size - 1)` on empty tokens;
  - `posTags.get(0)` on empty tags;
  - `.get()` on an empty `Optional` from an empty map.
- **In-place list edits.** Each stage copies its input with `toMutableList()`
  before editing it. The model does the same on a local sequence, so the
  aliasing of the caller's list is not modelled.
- **`detectInterrogative` streams.** The stream over the patterns is
  modelled by the starting-sequence predicate that
  `PhraseAnalyzer.HasStartingSequence` is proved to decide. The method is
  not called from the function.
- **Sentence shapes.** The Java `input/Sentence.java` record and the output
  records are not modelled. Only the Kotlin input records the core reads
  are modelled.
- TenseFeatureAnalyzer.Transform: its contract states only that one feature
  string results. What that string holds is stated for a whole input-model
  sentence by `TenseFeatureAnalyzer.GoingToSentenceScenario`, and on word lists by
  `TenseFeatureAnalyzer.GoingToScenario`, `TenseFeatureAnalyzer.PresentScenario`,
  `TenseFeatureAnalyzer.ModalScenario` and the bag lemmas.
