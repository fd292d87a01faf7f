/**
 * The root `SentenceFeatureAnalyzer.kt`: the earliest revision. Its tags are
 * V, J and WH, it keeps the token text as written, it runs four stages (no
 * end marking) and it returns the pairs themselves rather than their
 * rendering.
 */
module RootFeatureAnalyzer {
  import opened Strings
  import opened SentenceFeatures
  import InputModel

  const RootConstants := Constants("V", "J", "WH", ".", false, [Relevant, Duplicate, StartMark, Fill])

  lemma RootConstantsValid()
    ensures Valid(RootConstants)
  {
  }

  /** `SentenceFeatureTransformer.transform`: run the four stages and return the pairs. */
  method Transform(sentence: InputModel.NlpSentence) returns (analyzedTokens: seq<Token>)
    requires Feasible(RootConstants, sentence.tokens, sentence.posTags)
    ensures analyzedTokens == Features(RootConstants, sentence.tokens, sentence.posTags)
    ensures |analyzedTokens| >= WIDTH
  {
    RootConstantsValid();
    analyzedTokens := Pipeline(RootConstants, sentence.tokens, sentence.posTags);
    FeaturesAtLeastWidth(sentence.tokens, sentence.posTags);
  }

  lemma FeaturesAtLeastWidth(tokens: seq<string>, tags: seq<string>)
    requires Feasible(RootConstants, tokens, tags)
    ensures |Features(RootConstants, tokens, tags)| >= WIDTH
  {
    AtLeastWidth(RootConstants, RootConstants.stages, Analyzed(RootConstants, tokens, tags));
  }

  /** The revision's stage list, folded: relevance, deduplication, start marking, padding. */
  lemma FeaturesComposition(tokens: seq<string>, tags: seq<string>)
    requires Feasible(RootConstants, tokens, tags)
    ensures Features(RootConstants, tokens, tags) ==
      var c := RootConstants;
      Filled(StartMarked(c, Deduplicated(c, RelevanceFiltered(c, Analyzed(c, tokens, tags)))))
  {
    FoldFourStages(RootConstants, Analyzed(RootConstants, tokens, tags));
  }

  /** The token text is kept exactly as the tokenizer gave it. */
  lemma AnalyzedKeepsText(tokens: seq<string>, tags: seq<string>)
    requires |tags| > 0 && |tokens| <= |tags|
    ensures forall i :: 0 <= i < |tokens| ==> Analyzed(RootConstants, tokens, tags)[i].text == tokens[i]
  {
  }

  /**
   * The prefix test keeps every tag that starts with "J": a comparative or
   * superlative (JJR, JJS), which the tag reduction leaves alone, survives
   * relevance with its text.
   */
  lemma JPrefixedTagsSurvive(t: Token)
    requires StartsWith(t.tag, "J") && t.tag != "J"
    ensures RelevantToken(RootConstants, t) == t
  {
    assert StartsWith(t.tag, AnalyzerTags(RootConstants)[2]);
  }

  /** A token tagged "*" after relevance is ANY. */
  lemma RelevantStarIsAny(t: Token)
    ensures RelevantToken(RootConstants, t).tag == "*" ==> RelevantToken(RootConstants, t) == ANY
  {
    var tags := AnalyzerTags(RootConstants);
    assert !StartsWith("*", tags[0]) && !StartsWith("*", tags[1]) && !StartsWith("*", tags[2]) && !StartsWith("*", tags[3]);
  }

  /** The first pair is START or ANY. */
  lemma FirstFeatureIsStartOrAny(tokens: seq<string>, tags: seq<string>)
    requires Feasible(RootConstants, tokens, tags)
    ensures Features(RootConstants, tokens, tags)[0] in [START, ANY]
  {
    var c := RootConstants;
    FeaturesComposition(tokens, tags);
    var r := RelevanceFiltered(c, Analyzed(c, tokens, tags));
    RelevantStarIsAny(Analyzed(c, tokens, tags)[0]);
    StartFillHead(c, Deduplicated(c, r));
  }

  /**
   * The sample sentence of the file's `main`: "What is your name?" tagged
   * WP VBZ PRP$ NN . becomes ^, What/WH, _/V, four ANY, ?/.
   */
  lemma QuestionScenario()
    ensures Feasible(RootConstants, ["What", "is", "your", "name", "?"], ["WP", "VBZ", "PRP$", "NN", "."])
    ensures Features(RootConstants, ["What", "is", "your", "name", "?"], ["WP", "VBZ", "PRP$", "NN", "."])
      == [START, Token("What", "WH"), Token("_", "V"), ANY, ANY, ANY, ANY, Token("?", ".")]
  {
    var c := RootConstants;
    var a := QuestionAnalyzed();
    var r := QuestionRelevant(a);
    var d := QuestionDeduplicated(r);
    var st := StartMarked(c, d);
    assert st == [START] + d;
    FeaturesComposition(["What", "is", "your", "name", "?"], ["WP", "VBZ", "PRP$", "NN", "."]);
  }

  lemma QuestionAnalyzed() returns (a: seq<Token>)
    ensures a == Analyzed(RootConstants, ["What", "is", "your", "name", "?"], ["WP", "VBZ", "PRP$", "NN", "."])
    ensures a == [Token("What", "WH"), Token("is", "V"), Token("your", "PRP$"), Token("name", "NN"), Token("?", ".")]
  {
    var c := RootConstants;
    assert ReduceTag(c, "WP") == "WH" && ReduceTag(c, "VBZ") == "V";
    assert ReduceTag(c, "PRP$") == "PRP$" && ReduceTag(c, "NN") == "NN" && ReduceTag(c, ".") == ".";
    a := Analyzed(c, ["What", "is", "your", "name", "?"], ["WP", "VBZ", "PRP$", "NN", "."]);
  }

  lemma QuestionRelevant(a: seq<Token>) returns (r: seq<Token>)
    requires a == [Token("What", "WH"), Token("is", "V"), Token("your", "PRP$"), Token("name", "NN"), Token("?", ".")]
    ensures r == RelevanceFiltered(RootConstants, a)
    ensures r == [Token("What", "WH"), Token("_", "V"), ANY, ANY, Token("?", ".")]
  {
    var tags := AnalyzerTags(RootConstants);
    assert StartsWith("WH", tags[0]) && StartsWith("V", tags[1]) && StartsWith(".", tags[3]);
    assert !StartsWith("PRP$", tags[0]) && !StartsWith("PRP$", tags[1]) && !StartsWith("PRP$", tags[2]) && !StartsWith("PRP$", tags[3]);
    assert !StartsWith("NN", tags[0]) && !StartsWith("NN", tags[1]) && !StartsWith("NN", tags[2]) && !StartsWith("NN", tags[3]);
    r := RelevanceFiltered(RootConstants, a);
  }

  lemma QuestionDeduplicated(r: seq<Token>) returns (d: seq<Token>)
    requires r == [Token("What", "WH"), Token("_", "V"), ANY, ANY, Token("?", ".")]
    ensures d == Deduplicated(RootConstants, r)
    ensures d == [Token("What", "WH"), Token("_", "V"), ANY, Token("?", ".")]
  {
    QuestionFirstOccurrences(r);
    CollapseDropRepeat(r, 3);
    var shorter := r[..3] + r[4..];
    assert shorter == [Token("What", "WH"), Token("_", "V"), ANY, Token("?", ".")];
    CollapseNoAdjacentIdentity(shorter);
    d := Deduplicated(RootConstants, r);
  }

  lemma QuestionFirstOccurrences(r: seq<Token>)
    requires r == [Token("What", "WH"), Token("_", "V"), ANY, ANY, Token("?", ".")]
    ensures KeepFirstEach(AnalyzerTags(RootConstants), r) == r
  {
    KeepFirstEachIdentity(AnalyzerTags(RootConstants), r);
  }

  /**
   * Padding only ever adds tokens: eight superlatives keep their tokens,
   * gain a terminator and an ANY opening, and yield ten pairs.
   */
  lemma LongSentenceScenario()
    ensures Feasible(RootConstants, ["A", "B", "C", "D", "E", "F", "G", "H"], ["JJS", "JJS", "JJS", "JJS", "JJS", "JJS", "JJS", "JJS"])
    ensures |Features(RootConstants, ["A", "B", "C", "D", "E", "F", "G", "H"], ["JJS", "JJS", "JJS", "JJS", "JJS", "JJS", "JJS", "JJS"])| == 10
  {
    var c := RootConstants;
    var a := LongAnalyzed();
    forall i | 0 <= i < |a| - 1 ensures RelevantToken(c, a[i]) == a[i] {
      JPrefixedTagsSurvive(a[i]);
    }
    assert StartsWith(".", AnalyzerTags(c)[3]);
    assert RelevanceFiltered(c, a) == a;
    LongDeduplicated(a);
    FeaturesComposition(["A", "B", "C", "D", "E", "F", "G", "H"], ["JJS", "JJS", "JJS", "JJS", "JJS", "JJS", "JJS", "JJS"]);
  }

  lemma LongAnalyzed() returns (a: seq<Token>)
    ensures a == Analyzed(RootConstants, ["A", "B", "C", "D", "E", "F", "G", "H"], ["JJS", "JJS", "JJS", "JJS", "JJS", "JJS", "JJS", "JJS"])
    ensures a == [Token("A", "JJS"), Token("B", "JJS"), Token("C", "JJS"), Token("D", "JJS"),
                  Token("E", "JJS"), Token("F", "JJS"), Token("G", "JJS"), Token("H", "JJS"), Token(".", ".")]
  {
    assert ReduceTag(RootConstants, "JJS") == "JJS";
    a := Analyzed(RootConstants, ["A", "B", "C", "D", "E", "F", "G", "H"], ["JJS", "JJS", "JJS", "JJS", "JJS", "JJS", "JJS", "JJS"]);
  }

  lemma LongDeduplicated(a: seq<Token>)
    requires a == [Token("A", "JJS"), Token("B", "JJS"), Token("C", "JJS"), Token("D", "JJS"),
                   Token("E", "JJS"), Token("F", "JJS"), Token("G", "JJS"), Token("H", "JJS"), Token(".", ".")]
    ensures Deduplicated(RootConstants, a) == a
  {
    DeduplicatedIdentity(RootConstants, a);
  }
}
