/**
 * `analyzers/TypeFeatureAnalyzer.kt`: the revision the sentence classifier is
 * fed with. Its terminator tag is the empty string, the synthetic terminator
 * pair is ("", ""), and the end tokens carry an empty tag.
 */
module TypeFeatureAnalyzer {
  import opened Strings
  import opened SentenceFeatures
  import InputModel

  const TypeConstants := Constants("VERB", "JT", "WHQ", "", true, [Relevant, Duplicate, StartMark, Fill, EndMark])

  lemma TypeConstantsValid()
    ensures Valid(TypeConstants)
  {
  }

  /** `SentenceTypeFeatureTransformer.transform`: run the five stages, then render every pair. */
  method Transform(sentence: InputModel.Sentence) returns (attributes: seq<string>)
    requires Feasible(TypeConstants, sentence.nlp.tokens, sentence.nlp.posTags)
    ensures attributes == Rendered(Features(TypeConstants, sentence.nlp.tokens, sentence.nlp.posTags))
    ensures |attributes| >= WIDTH
  {
    TypeConstantsValid();
    var analyzedTokens := Pipeline(TypeConstants, sentence.nlp.tokens, sentence.nlp.posTags);
    attributes := seq(|analyzedTokens|, i requires 0 <= i < |analyzedTokens| => Render(analyzedTokens[i]));
    FeaturesAtLeastWidth(sentence.nlp.tokens, sentence.nlp.posTags);
  }

  lemma FeaturesAtLeastWidth(tokens: seq<string>, tags: seq<string>)
    requires Feasible(TypeConstants, tokens, tags)
    ensures |Features(TypeConstants, tokens, tags)| >= WIDTH
  {
    AtLeastWidth(TypeConstants, TypeConstants.stages, Analyzed(TypeConstants, tokens, tags));
  }

  /** The revision's stage list, folded: relevance, deduplication, start marking, padding, end marking. */
  lemma FeaturesComposition(tokens: seq<string>, tags: seq<string>)
    requires Feasible(TypeConstants, tokens, tags)
    ensures Features(TypeConstants, tokens, tags) ==
      var c := TypeConstants;
      EndMarked(c, Filled(StartMarked(c, Deduplicated(c, RelevanceFiltered(c, Analyzed(c, tokens, tags))))))
  {
    FoldFiveStages(TypeConstants, Analyzed(TypeConstants, tokens, tags));
  }

  /**
   * Every tag starts with the empty terminator tag, so the prefix test keeps
   * every token: relevance only rewrites VERB tokens to ("_", "VERB") and JT
   * tokens outside jTypes to ANY.
   */
  lemma RelevanceKeepsAllOthers(t: Token)
    ensures Prefiltered(TypeConstants, t) == t
    ensures RelevantToken(TypeConstants, t) ==
      if t.tag == "VERB" then Token("_", "VERB")
      else if t.tag == "JT" && t.text !in JTypes then ANY
      else t
  {
    assert StartsWith(t.tag, AnalyzerTags(TypeConstants)[3]);
  }

  /** With a tag per token the analyzed list ends in a token tagged "". */
  lemma AnalyzedEndsWithTerminatorTag(tokens: seq<string>, tags: seq<string>)
    requires |tags| > 0 && |tokens| == |tags|
    ensures var a := Analyzed(TypeConstants, tokens, tags); |a| > 0 && a[|a| - 1].tag == ""
  {
  }

  /** "Do it now!" tagged VB PRP RB . becomes (^) (_/VERB) (it/PRP) (*) (!/.) (*) (*) (DT/). */
  lemma ImperativeScenario()
    ensures Feasible(TypeConstants, ["Do", "it", "now", "!"], ["VB", "PRP", "RB", "."])
    ensures Rendered(Features(TypeConstants, ["Do", "it", "now", "!"], ["VB", "PRP", "RB", "."]))
      == ["(^)", "(_/VERB)", "(it/PRP)", "(*)", "(!/.)", "(*)", "(*)", "(DT/)"]
  {
    var e := ImperativeFeatures();
    ImperativeRendered(e);
  }

  lemma ImperativeRendered(e: seq<Token>)
    requires e == [START, Token("_", "VERB"), Token("it", "PRP"), ANY, Token("!", "."), ANY, ANY, Token("DT", "")]
    ensures Rendered(e) == ["(^)", "(_/VERB)", "(it/PRP)", "(*)", "(!/.)", "(*)", "(*)", "(DT/)"]
  {
    assert Render(START) == "(^)" && Render(ANY) == "(*)";
    assert Render(Token("_", "VERB")) == "(_/VERB)" && Render(Token("it", "PRP")) == "(it/PRP)";
    assert Render(Token("!", ".")) == "(!/.)" && Render(Token("DT", "")) == "(DT/)";
  }

  lemma ImperativeFeatures() returns (e: seq<Token>)
    ensures Feasible(TypeConstants, ["Do", "it", "now", "!"], ["VB", "PRP", "RB", "."])
    ensures e == Features(TypeConstants, ["Do", "it", "now", "!"], ["VB", "PRP", "RB", "."])
    ensures e == [START, Token("_", "VERB"), Token("it", "PRP"), ANY, Token("!", "."), ANY, ANY, Token("DT", "")]
  {
    var a := ImperativeAnalyzed();
    var r := ImperativeRelevant(a);
    ImperativeDeduplicated(r);
    e := ImperativeMarked(r);
    FeaturesComposition(["Do", "it", "now", "!"], ["VB", "PRP", "RB", "."]);
  }

  lemma ImperativeMarked(r: seq<Token>) returns (e: seq<Token>)
    requires r == [Token("_", "VERB"), Token("it", "PRP"), ANY, Token("!", "."), Token("", "")]
    ensures e == EndMarked(TypeConstants, Filled(StartMarked(TypeConstants, r)))
    ensures e == [START, Token("_", "VERB"), Token("it", "PRP"), ANY, Token("!", "."), ANY, ANY, Token("DT", "")]
  {
    var c := TypeConstants;
    var st := StartMarked(c, r);
    assert st == [START] + r;
    var f := Filled(st);
    assert f == [START, Token("_", "VERB"), Token("it", "PRP"), ANY, Token("!", "."), ANY, ANY, Token("", "")];
    e := EndMarked(c, f);
    assert e == [START, Token("_", "VERB"), Token("it", "PRP"), ANY, Token("!", "."), ANY, ANY, Token("DT", "")];
  }

  lemma ImperativeAnalyzed() returns (a: seq<Token>)
    ensures a == Analyzed(TypeConstants, ["Do", "it", "now", "!"], ["VB", "PRP", "RB", "."])
    ensures a == [Token("do", "VERB"), Token("it", "PRP"), Token("now", "JT"), Token("!", "."), Token("", "")]
  {
    var c := TypeConstants;
    assert Lower("Do") == "do" && Lower("it") == "it" && Lower("now") == "now" && Lower("!") == "!";
    assert ReduceTag(c, "VB") == "VERB" && ReduceTag(c, "PRP") == "PRP";
    assert ReduceTag(c, "RB") == "JT" && ReduceTag(c, ".") == ".";
    a := Analyzed(c, ["Do", "it", "now", "!"], ["VB", "PRP", "RB", "."]);
  }

  lemma ImperativeRelevant(a: seq<Token>) returns (r: seq<Token>)
    requires a == [Token("do", "VERB"), Token("it", "PRP"), Token("now", "JT"), Token("!", "."), Token("", "")]
    ensures r == RelevanceFiltered(TypeConstants, a)
    ensures r == [Token("_", "VERB"), Token("it", "PRP"), ANY, Token("!", "."), Token("", "")]
  {
    forall i | 0 <= i < |a| { RelevanceKeepsAllOthers(a[i]); }
    r := RelevanceFiltered(TypeConstants, a);
  }

  lemma ImperativeDeduplicated(r: seq<Token>)
    requires r == [Token("_", "VERB"), Token("it", "PRP"), ANY, Token("!", "."), Token("", "")]
    ensures Deduplicated(TypeConstants, r) == r
  {
    DeduplicatedIdentity(TypeConstants, r);
  }

  /**
   * Padding only ever adds tokens: eight distinct nouns keep their eight
   * tokens, gain a terminator and an ANY opening, and yield ten features.
   */
  lemma LongSentenceScenario()
    ensures Feasible(TypeConstants, ["a", "b", "c", "d", "e", "f", "g", "h"], ["NN", "NN", "NN", "NN", "NN", "NN", "NN", "NN"])
    ensures |Features(TypeConstants, ["a", "b", "c", "d", "e", "f", "g", "h"], ["NN", "NN", "NN", "NN", "NN", "NN", "NN", "NN"])| == 10
  {
    var a := LongAnalyzed();
    LongRelevant(a);
    LongDeduplicated(a);
    LongMarked(a);
    FeaturesComposition(["a", "b", "c", "d", "e", "f", "g", "h"], ["NN", "NN", "NN", "NN", "NN", "NN", "NN", "NN"]);
  }

  lemma LongRelevant(a: seq<Token>)
    requires a == [Token("a", "NN"), Token("b", "NN"), Token("c", "NN"), Token("d", "NN"),
                   Token("e", "NN"), Token("f", "NN"), Token("g", "NN"), Token("h", "NN"), Token("", "")]
    ensures RelevanceFiltered(TypeConstants, a) == a
  {
    forall i | 0 <= i < |a| { RelevanceKeepsAllOthers(a[i]); }
  }

  lemma LongMarked(d: seq<Token>)
    requires |d| == 9 && d[0].tag == "NN"
    ensures |EndMarked(TypeConstants, Filled(StartMarked(TypeConstants, d)))| == 10
  {
    var st := StartMarked(TypeConstants, d);
    assert |st| == 10;
    FilledShape(st);
  }

  lemma LongAnalyzed() returns (a: seq<Token>)
    ensures a == Analyzed(TypeConstants, ["a", "b", "c", "d", "e", "f", "g", "h"], ["NN", "NN", "NN", "NN", "NN", "NN", "NN", "NN"])
    ensures a == [Token("a", "NN"), Token("b", "NN"), Token("c", "NN"), Token("d", "NN"),
                  Token("e", "NN"), Token("f", "NN"), Token("g", "NN"), Token("h", "NN"), Token("", "")]
  {
    var tokens, tags := ["a", "b", "c", "d", "e", "f", "g", "h"], ["NN", "NN", "NN", "NN", "NN", "NN", "NN", "NN"];
    assert ReduceTag(TypeConstants, "NN") == "NN";
    forall i | 0 <= i < |tokens| ensures Lower(tokens[i]) == tokens[i] {
      assert |tokens[i]| == 1 && 'a' <= tokens[i][0] <= 'h';
    }
    a := Analyzed(TypeConstants, tokens, tags);
  }

  lemma LongDeduplicated(a: seq<Token>)
    requires a == [Token("a", "NN"), Token("b", "NN"), Token("c", "NN"), Token("d", "NN"),
                   Token("e", "NN"), Token("f", "NN"), Token("g", "NN"), Token("h", "NN"), Token("", "")]
    ensures Deduplicated(TypeConstants, a) == a
  {
    DeduplicatedIdentity(TypeConstants, a);
  }
}
