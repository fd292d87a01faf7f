/**
 * `classifier/SentenceFeatureAnalyzer.kt`: the revision whose rendered
 * features feed the decision tree of `SentenceClassifier`. Its terminator tag
 * is ".", the synthetic terminator pair is (".", ".") and the end tokens carry
 * the tag ".". Its input is a sentence record with `tokens` and `posTags`,
 * the shape of `InputModel.NlpSentence`.
 */
module ClassifierFeatureAnalyzer {
  import opened Strings
  import opened SentenceFeatures
  import InputModel

  const ClassifierConstants := Constants("VERB", "JT", "WHQ", ".", true, [Relevant, Duplicate, StartMark, Fill, EndMark])

  /** The values the classifier's `start` attribute accepts. */
  const StartValues: seq<string> := ["(^)", "(*)"]

  /** The values the classifier's `end` attribute accepts. */
  const EndValues: seq<string> := ["(DT/.)", "(EM/.)", "(QM/.)"]

  lemma ClassifierConstantsValid()
    ensures Valid(ClassifierConstants)
  {
  }

  /** `SentenceFeatureTransformer.transform`: run the five stages, then render every pair. */
  method Transform(sentence: InputModel.NlpSentence) returns (attributes: seq<string>)
    requires Feasible(ClassifierConstants, sentence.tokens, sentence.posTags)
    ensures attributes == Rendered(Features(ClassifierConstants, sentence.tokens, sentence.posTags))
    ensures |attributes| >= WIDTH
  {
    ClassifierConstantsValid();
    var analyzedTokens := Pipeline(ClassifierConstants, sentence.tokens, sentence.posTags);
    attributes := seq(|analyzedTokens|, i requires 0 <= i < |analyzedTokens| => Render(analyzedTokens[i]));
    FeaturesAtLeastWidth(sentence.tokens, sentence.posTags);
  }

  lemma FeaturesAtLeastWidth(tokens: seq<string>, tags: seq<string>)
    requires Feasible(ClassifierConstants, tokens, tags)
    ensures |Features(ClassifierConstants, tokens, tags)| >= WIDTH
  {
    AtLeastWidth(ClassifierConstants, ClassifierConstants.stages, Analyzed(ClassifierConstants, tokens, tags));
  }

  /** The revision's stage list, folded. */
  lemma FeaturesComposition(tokens: seq<string>, tags: seq<string>)
    requires Feasible(ClassifierConstants, tokens, tags)
    ensures Features(ClassifierConstants, tokens, tags) ==
      var c := ClassifierConstants;
      EndMarked(c, Filled(StartMarked(c, Deduplicated(c, RelevanceFiltered(c, Analyzed(c, tokens, tags))))))
  {
    FoldFiveStages(ClassifierConstants, Analyzed(ClassifierConstants, tokens, tags));
  }

  /**
   * Relevance only ever yields ANY, the verb token, or a token whose tag
   * starts with an analyzer tag: a token tagged "*" is ANY, and a token
   * tagged "." was tagged "." before.
   */
  lemma RelevantTokenTags(t: Token)
    ensures RelevantToken(ClassifierConstants, t).tag == "*" ==> RelevantToken(ClassifierConstants, t) == ANY
    ensures RelevantToken(ClassifierConstants, t).tag == "." <==> t.tag == "."
  {
    var tags := AnalyzerTags(ClassifierConstants);
    assert !StartsWith("*", tags[0]) && !StartsWith("*", tags[1]) && !StartsWith("*", tags[2]) && !StartsWith("*", tags[3]);
    if t.tag == "." {
      assert StartsWith(t.tag, tags[3]);
    }
  }

  /**
   * Unlike in the root revision, comparatives and superlatives are reduced
   * away: a JJS or RBR token's tag starts with no analyzer tag, so it becomes ANY.
   */
  lemma ComparativesBecomeAny(t: Token)
    requires t.tag in ["JJS", "JJR", "RBS", "RBR"]
    ensures RelevantToken(ClassifierConstants, t) == ANY
  {
    var tags := AnalyzerTags(ClassifierConstants);
    assert !StartsWith(t.tag, tags[0]) && !StartsWith(t.tag, tags[1]) && !StartsWith(t.tag, tags[2]) && !StartsWith(t.tag, tags[3]);
  }

  /** The first feature is the start marker or `ANY`. */
  lemma FirstFeatureIsStartOrAny(tokens: seq<string>, tags: seq<string>)
    requires Feasible(ClassifierConstants, tokens, tags)
    ensures Features(ClassifierConstants, tokens, tags)[0] in [START, ANY]
  {
    var c := ClassifierConstants;
    var a := Analyzed(c, tokens, tags);
    var r := RelevanceFiltered(c, a);
    RelevantTokenTags(a[0]);
    assert r[0] == RelevantToken(c, a[0]);
    var d := Deduplicated(c, r);
    StartFillHead(c, d);
    var f := Filled(StartMarked(c, d));
    FilledShape(StartMarked(c, d));
    FeaturesComposition(tokens, tags);
    assert EndMarked(c, f)[0] == f[0];
  }

  /** The first feature is one of the `start` attribute's values. */
  lemma FirstFeatureIsStartValue(tokens: seq<string>, tags: seq<string>)
    requires Feasible(ClassifierConstants, tokens, tags)
    ensures Rendered(Features(ClassifierConstants, tokens, tags))[0] in StartValues
  {
    FirstFeatureIsStartOrAny(tokens, tags);
    var e := Features(ClassifierConstants, tokens, tags);
    assert Rendered(e)[0] == Render(e[0]);
    assert Render(START) == "(^)" && Render(ANY) == "(*)";
  }

  /**
   * The last feature is one of the `end` attribute's values when "." tags
   * only the last token and, if it does, that token is "?", "!" or ".".
   */
  lemma LastFeatureIsEndValue(tokens: seq<string>, tags: seq<string>)
    requires |tags| > 0 && |tokens| == |tags|
    requires forall i :: 0 <= i < |tags| - 1 ==> tags[i] != "."
    requires tags[|tags| - 1] == "." ==> tokens[|tokens| - 1] in ["?", "!", "."]
    ensures var f := Rendered(Features(ClassifierConstants, tokens, tags)); f[|f| - 1] in EndValues
  {
    LastFeatureIsEndToken(tokens, tags);
    EndRenderings();
  }

  /** Under the same conditions the last feature pair is DT, EM or QM. */
  lemma LastFeatureIsEndToken(tokens: seq<string>, tags: seq<string>)
    requires |tags| > 0 && |tokens| == |tags|
    requires forall i :: 0 <= i < |tags| - 1 ==> tags[i] != "."
    requires tags[|tags| - 1] == "." ==> tokens[|tokens| - 1] in ["?", "!", "."]
    ensures var c := ClassifierConstants; var e := Features(c, tokens, tags);
      e[|e| - 1] == DT(c) || e[|e| - 1] == EM(c) || e[|e| - 1] == QM(c)
  {
    AnalyzedStopOnlyLast(tokens, tags);
    LastFeatureEndsLastToken(tokens, tags);
    var a := Analyzed(ClassifierConstants, tokens, tags);
    StopEndToken(a[|a| - 1]);
  }

  /** When only the last analyzed token is tagged ".", the last feature is the end stage applied to it. */
  lemma LastFeatureEndsLastToken(tokens: seq<string>, tags: seq<string>)
    requires |tags| > 0 && |tokens| == |tags|
    requires var a := Analyzed(ClassifierConstants, tokens, tags);
      a[|a| - 1].tag == "." && forall i :: 0 <= i < |a| - 1 ==> a[i].tag != "."
    ensures var c := ClassifierConstants; var a := Analyzed(c, tokens, tags); var e := Features(c, tokens, tags);
      e[|e| - 1] == EndToken(c, a[|a| - 1])
  {
    var c := ClassifierConstants;
    ClassifierConstantsValid();
    var a := Analyzed(c, tokens, tags);
    RelevanceStopOnlyLast(a);
    var r := RelevanceFiltered(c, a);
    assert r[|r| - 1] == a[|a| - 1] && forall i :: 0 <= i < |r| - 1 ==> r[i].tag != r[|r| - 1].tag;
    FiveStagesLast(c, tokens, tags);
  }

  /** The end stage turns a token whose text ends a sentence into DT, EM or QM. */
  lemma StopEndToken(t: Token)
    requires t.text in ["?", "!", "."]
    ensures var c := ClassifierConstants; var e := EndToken(c, t);
      e == DT(c) || e == EM(c) || e == QM(c)
  {
  }

  /** The three end tokens render to the three `end` values. */
  lemma EndRenderings()
    ensures Render(DT(ClassifierConstants)) == EndValues[0]
    ensures Render(EM(ClassifierConstants)) == EndValues[1]
    ensures Render(QM(ClassifierConstants)) == EndValues[2]
  {
  }

  /** Under the same conditions the analyzed list carries "." on its last token alone, whose text ends a sentence. */
  lemma AnalyzedStopOnlyLast(tokens: seq<string>, tags: seq<string>)
    requires |tags| > 0 && |tokens| == |tags|
    requires forall i :: 0 <= i < |tags| - 1 ==> tags[i] != "."
    requires tags[|tags| - 1] == "." ==> tokens[|tokens| - 1] in ["?", "!", "."]
    ensures var a := Analyzed(ClassifierConstants, tokens, tags);
      && a[|a| - 1].tag == "." && a[|a| - 1].text in ["?", "!", "."]
      && forall i :: 0 <= i < |a| - 1 ==> a[i].tag != "."
  {
    var c := ClassifierConstants;
    var a := Analyzed(c, tokens, tags);
    forall i | 0 <= i < |a| - 1 ensures a[i].tag != "." {
      assert i < |tokens| && a[i].tag == ReduceTag(c, tags[i]);
    }
    if tags[|tags| - 1] == "." {
      assert Lower("?") == "?" && Lower("!") == "!" && Lower(".") == ".";
    }
  }

  /** Relevance keeps the last "."-tagged token and tags no other token ".". */
  lemma RelevanceStopOnlyLast(a: seq<Token>)
    requires |a| > 0 && a[|a| - 1].tag == "."
    requires forall i :: 0 <= i < |a| - 1 ==> a[i].tag != "."
    ensures var r := RelevanceFiltered(ClassifierConstants, a);
      && r[|r| - 1] == a[|a| - 1]
      && forall i :: 0 <= i < |r| - 1 ==> r[i].tag != r[|r| - 1].tag
  {
    var r := RelevanceFiltered(ClassifierConstants, a);
    RelevantTokenTags(a[|a| - 1]);
    assert StartsWith(".", AnalyzerTags(ClassifierConstants)[3]);
    forall i | 0 <= i < |r| - 1 ensures r[i].tag != "." {
      RelevantTokenTags(a[i]);
    }
  }

  /** "What is your name?" tagged WP VBZ PRP$ NN . becomes (^) (what/WHQ) (_/VERB) (*) (*) (*) (*) (QM/.). */
  lemma QuestionScenario()
    ensures Feasible(ClassifierConstants, ["What", "is", "your", "name", "?"], ["WP", "VBZ", "PRP$", "NN", "."])
    ensures Rendered(Features(ClassifierConstants, ["What", "is", "your", "name", "?"], ["WP", "VBZ", "PRP$", "NN", "."]))
      == ["(^)", "(what/WHQ)", "(_/VERB)", "(*)", "(*)", "(*)", "(*)", "(QM/.)"]
  {
    var e := QuestionFeatures();
    QuestionRendered(e);
  }

  lemma QuestionFeatures() returns (e: seq<Token>)
    ensures Feasible(ClassifierConstants, ["What", "is", "your", "name", "?"], ["WP", "VBZ", "PRP$", "NN", "."])
    ensures e == Features(ClassifierConstants, ["What", "is", "your", "name", "?"], ["WP", "VBZ", "PRP$", "NN", "."])
    ensures e == [START, Token("what", "WHQ"), Token("_", "VERB"), ANY, ANY, ANY, ANY, QM(ClassifierConstants)]
  {
    var a := QuestionAnalyzed();
    var r := QuestionRelevant(a);
    var d := QuestionDeduplicated(r);
    e := QuestionMarked(d);
    FeaturesComposition(["What", "is", "your", "name", "?"], ["WP", "VBZ", "PRP$", "NN", "."]);
  }

  lemma QuestionMarked(d: seq<Token>) returns (e: seq<Token>)
    requires d == [Token("what", "WHQ"), Token("_", "VERB"), ANY, Token("?", ".")]
    ensures e == EndMarked(ClassifierConstants, Filled(StartMarked(ClassifierConstants, d)))
    ensures e == [START, Token("what", "WHQ"), Token("_", "VERB"), ANY, ANY, ANY, ANY, QM(ClassifierConstants)]
  {
    var c := ClassifierConstants;
    var st := StartMarked(c, d);
    assert st == [START] + d;
    var f := Filled(st);
    assert f == [START, Token("what", "WHQ"), Token("_", "VERB"), ANY, ANY, ANY, ANY, Token("?", ".")];
    e := EndMarked(c, f);
  }

  lemma QuestionRendered(e: seq<Token>)
    requires e == [START, Token("what", "WHQ"), Token("_", "VERB"), ANY, ANY, ANY, ANY, QM(ClassifierConstants)]
    ensures Rendered(e) == ["(^)", "(what/WHQ)", "(_/VERB)", "(*)", "(*)", "(*)", "(*)", "(QM/.)"]
  {
    assert Render(START) == "(^)" && Render(ANY) == "(*)" && Render(QM(ClassifierConstants)) == "(QM/.)";
    assert Render(Token("what", "WHQ")) == "(what/WHQ)" && Render(Token("_", "VERB")) == "(_/VERB)";
  }

  lemma QuestionAnalyzed() returns (a: seq<Token>)
    ensures a == Analyzed(ClassifierConstants, ["What", "is", "your", "name", "?"], ["WP", "VBZ", "PRP$", "NN", "."])
    ensures a == [Token("what", "WHQ"), Token("is", "VERB"), Token("your", "PRP$"), Token("name", "NN"), Token("?", ".")]
  {
    var c := ClassifierConstants;
    assert Lower("What") == "what" && Lower("is") == "is" && Lower("your") == "your";
    assert Lower("name") == "name" && Lower("?") == "?";
    assert ReduceTag(c, "WP") == "WHQ" && ReduceTag(c, "VBZ") == "VERB";
    assert ReduceTag(c, "PRP$") == "PRP$" && ReduceTag(c, "NN") == "NN" && ReduceTag(c, ".") == ".";
    a := Analyzed(c, ["What", "is", "your", "name", "?"], ["WP", "VBZ", "PRP$", "NN", "."]);
  }

  lemma QuestionRelevant(a: seq<Token>) returns (r: seq<Token>)
    requires a == [Token("what", "WHQ"), Token("is", "VERB"), Token("your", "PRP$"), Token("name", "NN"), Token("?", ".")]
    ensures r == RelevanceFiltered(ClassifierConstants, a)
    ensures r == [Token("what", "WHQ"), Token("_", "VERB"), ANY, ANY, Token("?", ".")]
  {
    var tags := AnalyzerTags(ClassifierConstants);
    assert StartsWith("WHQ", tags[0]) && StartsWith(".", tags[3]);
    assert !StartsWith("PRP$", tags[0]) && !StartsWith("PRP$", tags[1]) && !StartsWith("PRP$", tags[2]) && !StartsWith("PRP$", tags[3]);
    assert !StartsWith("NN", tags[0]) && !StartsWith("NN", tags[1]) && !StartsWith("NN", tags[2]) && !StartsWith("NN", tags[3]);
    r := RelevanceFiltered(ClassifierConstants, a);
  }

  lemma QuestionDeduplicated(r: seq<Token>) returns (d: seq<Token>)
    requires r == [Token("what", "WHQ"), Token("_", "VERB"), ANY, ANY, Token("?", ".")]
    ensures d == Deduplicated(ClassifierConstants, r)
    ensures d == [Token("what", "WHQ"), Token("_", "VERB"), ANY, Token("?", ".")]
  {
    QuestionFirstOccurrences(r);
    d := QuestionCollapsed(r);
  }

  lemma QuestionFirstOccurrences(r: seq<Token>)
    requires r == [Token("what", "WHQ"), Token("_", "VERB"), ANY, ANY, Token("?", ".")]
    ensures KeepFirstEach(AnalyzerTags(ClassifierConstants), r) == r
  {
    KeepFirstEachIdentity(AnalyzerTags(ClassifierConstants), r);
  }

  lemma QuestionCollapsed(r: seq<Token>) returns (d: seq<Token>)
    requires r == [Token("what", "WHQ"), Token("_", "VERB"), ANY, ANY, Token("?", ".")]
    ensures d == Collapse(r)
    ensures d == [Token("what", "WHQ"), Token("_", "VERB"), ANY, Token("?", ".")]
  {
    CollapseDropRepeat(r, 3);
    d := r[..3] + r[4..];
    assert d == [Token("what", "WHQ"), Token("_", "VERB"), ANY, Token("?", ".")];
    CollapseNoAdjacentIdentity(d);
  }

  /**
   * A "." token inside the sentence takes the deduplicated "." slot, and the
   * features of "Hi . there" tagged UH . NN end in (*), not in an `end` value.
   */
  lemma InnerStopScenario()
    ensures Feasible(ClassifierConstants, ["Hi", ".", "there"], ["UH", ".", "NN"])
    ensures var f := Rendered(Features(ClassifierConstants, ["Hi", ".", "there"], ["UH", ".", "NN"]));
      f[|f| - 1] == "(*)" && f[|f| - 1] !in EndValues
  {
    var e := InnerStopFeatures();
    InnerStopRendered(e);
  }

  lemma InnerStopFeatures() returns (e: seq<Token>)
    ensures Feasible(ClassifierConstants, ["Hi", ".", "there"], ["UH", ".", "NN"])
    ensures e == Features(ClassifierConstants, ["Hi", ".", "there"], ["UH", ".", "NN"])
    ensures e == [ANY, Token(".", "."), ANY, ANY, ANY, ANY, ANY, ANY]
  {
    var a := InnerStopAnalyzed();
    var r := InnerStopRelevant(a);
    var d := InnerStopDeduplicated(r);
    e := InnerStopMarked(d);
    FeaturesComposition(["Hi", ".", "there"], ["UH", ".", "NN"]);
  }

  lemma InnerStopRelevant(a: seq<Token>) returns (r: seq<Token>)
    requires a == [Token("hi", "UH"), Token(".", "."), Token("there", "NN"), Token(".", ".")]
    ensures r == RelevanceFiltered(ClassifierConstants, a)
    ensures r == [ANY, Token(".", "."), ANY, Token(".", ".")]
  {
    var tags := AnalyzerTags(ClassifierConstants);
    assert !StartsWith("UH", tags[0]) && !StartsWith("UH", tags[1]) && !StartsWith("UH", tags[2]) && !StartsWith("UH", tags[3]);
    assert !StartsWith("NN", tags[0]) && !StartsWith("NN", tags[1]) && !StartsWith("NN", tags[2]) && !StartsWith("NN", tags[3]);
    assert StartsWith(".", tags[3]);
    r := RelevanceFiltered(ClassifierConstants, a);
  }

  lemma InnerStopMarked(d: seq<Token>) returns (e: seq<Token>)
    requires d == [ANY, Token(".", "."), ANY]
    ensures e == EndMarked(ClassifierConstants, Filled(StartMarked(ClassifierConstants, d)))
    ensures e == [ANY, Token(".", "."), ANY, ANY, ANY, ANY, ANY, ANY]
  {
    var c := ClassifierConstants;
    var st := StartMarked(c, d);
    assert st == d;
    var f := Filled(st);
    assert f == [ANY, Token(".", "."), ANY, ANY, ANY, ANY, ANY, ANY];
    e := EndMarked(c, f);
  }

  lemma InnerStopRendered(e: seq<Token>)
    requires e == [ANY, Token(".", "."), ANY, ANY, ANY, ANY, ANY, ANY]
    ensures var f := Rendered(e); f[|f| - 1] == "(*)" && f[|f| - 1] !in EndValues
  {
    var f := Rendered(e);
    assert f[7] == Render(ANY) == "(*)";
  }

  lemma InnerStopAnalyzed() returns (a: seq<Token>)
    ensures a == Analyzed(ClassifierConstants, ["Hi", ".", "there"], ["UH", ".", "NN"])
    ensures a == [Token("hi", "UH"), Token(".", "."), Token("there", "NN"), Token(".", ".")]
  {
    var c := ClassifierConstants;
    assert Lower("Hi") == "hi" && Lower(".") == "." && Lower("there") == "there";
    assert ReduceTag(c, "UH") == "UH" && ReduceTag(c, ".") == "." && ReduceTag(c, "NN") == "NN";
    a := Analyzed(c, ["Hi", ".", "there"], ["UH", ".", "NN"]);
  }

  lemma InnerStopDeduplicated(r: seq<Token>) returns (d: seq<Token>)
    requires r == [ANY, Token(".", "."), ANY, Token(".", ".")]
    ensures d == Deduplicated(ClassifierConstants, r)
    ensures d == [ANY, Token(".", "."), ANY]
  {
    var c := ClassifierConstants;
    var tags := AnalyzerTags(c);
    KeepFirstEachIdentity(tags[..3], r);
    KeepFirstSplit(r, ".", 1);
    WithoutSingle(r[2..], ".", 1);
    var k := KeepFirst(r, ".");
    assert k == [ANY, Token(".", "."), ANY];
    assert tags == tags[..3] + [tags[3]];
    KeepFirstEachAppend(tags[..3], [tags[3]], r);
    assert [tags[3]][1..] == [];
    CollapseNoAdjacentIdentity(k);
    d := Deduplicated(c, r);
  }

  /**
   * The terminator check reads the last entry of the tag list. With one tag
   * more than tokens that entry is the tag of no token, so the sentence
   * `hi` tagged `UH .` is analyzed without any terminator.
   */
  lemma ExtraTagScenario()
    ensures var a := Analyzed(ClassifierConstants, ["hi"], ["UH", "."]);
      a == [Token("hi", "UH")] && forall i :: 0 <= i < |a| ==> a[i].tag != "."
  {
    var c := ClassifierConstants;
    assert Lower("hi") == "hi" && ReduceTag(c, "UH") == "UH";
  }
}
