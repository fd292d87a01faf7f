/**
 * `model/phrase/QuestionType.java`: the ten question types, each with the
 * token sequence and the tag sequence that identify it, and `evaluate`, which
 * picks the first type (in declaration order) whose two sequences both occur
 * as contiguous runs in a sentence.
 */
module PhraseModel {
  import opened Wrappers
  import opened Strings

  datatype QuestionType =
    | People | Location | Occasion | Reason | Information
    | Choice | Quantity | Frequency | Distance | Description

  /** `QuestionType.values()`: the constants in declaration order. */
  const Values: seq<QuestionType> :=
    [People, Location, Occasion, Reason, Information, Choice, Quantity, Frequency, Distance, Description]

  /** The position of a constant in `Values`. */
  function Rank(q: QuestionType): (r: nat)
    ensures r < |Values| && Values[r] == q
  {
    match q
    case People => 0
    case Location => 1
    case Occasion => 2
    case Reason => 3
    case Information => 4
    case Choice => 5
    case Quantity => 6
    case Frequency => 7
    case Distance => 8
    case Description => 9
  }

  /** The constants declared with one token and one tag. */
  predicate SingleWord(q: QuestionType)
  {
    !(q.Quantity? || q.Frequency? || q.Distance?)
  }

  /**
   * The token sequence of a constant. A one-word constant holds a singleton
   * list, and every token is already lowercase, as `evaluate` compares it
   * with lowercased tokens.
   */
  function TokenSequence(q: QuestionType): (r: seq<string>)
    ensures |r| == if SingleWord(q) then 1 else 2
    ensures forall i :: 0 <= i < |r| ==> Lower(r[i]) == r[i]
  {
    match q
    case People => ["who"]
    case Location => ["where"]
    case Occasion => ["when"]
    case Reason => ["why"]
    case Information => ["what"]
    case Choice => ["which"]
    case Quantity => ["how", "much"]
    case Frequency => ["how", "often"]
    case Distance => ["how", "far"]
    case Description => ["how"]
  }

  /** The tag sequence of a constant; a one-word constant holds a singleton list. */
  function TagSequence(q: QuestionType): (r: seq<string>)
    ensures |r| == |TokenSequence(q)|
  {
    match q
    case People => ["WP"]
    case Location => ["WRB"]
    case Occasion => ["WRB"]
    case Reason => ["WRB"]
    case Information => ["WP"]
    case Choice => ["WDT"]
    case Quantity => ["WRB", "JJ"]
    case Frequency => ["WRB", "RB"]
    case Distance => ["WRB", "RB"]
    case Description => ["WRB"]
  }

  /** `target` occurs in `source` as a contiguous run starting at `k`. */
  predicate SubListAt(source: seq<string>, target: seq<string>, k: int)
  {
    0 <= k && k + |target| <= |source| && source[k..k + |target|] == target
  }

  /**
   * `Collections.indexOfSubList` searching from `from`: the first start of
   * `target` at or after `from`, or -1.
   */
  function IndexFrom(source: seq<string>, target: seq<string>, from: nat): (r: int)
    decreases |source| - from
    ensures r == -1 <==> forall k :: from <= k ==> !SubListAt(source, target, k)
    ensures r != -1 ==> from <= r && SubListAt(source, target, r)
    ensures forall k :: from <= k < r ==> !SubListAt(source, target, k)
  {
    if from + |target| > |source| then -1
    else if source[from..from + |target|] == target then
      assert SubListAt(source, target, from);
      from
    else IndexFrom(source, target, from + 1)
  }

  /** `Collections.indexOfSubList(source, target)`: the first start of `target`, or -1. */
  function IndexOfSubList(source: seq<string>, target: seq<string>): (r: int)
    ensures r == -1 <==> forall k :: !SubListAt(source, target, k)
    ensures r != -1 ==> SubListAt(source, target, r) && forall k :: k < r ==> !SubListAt(source, target, k)
  {
    IndexFrom(source, target, 0)
  }

  /** `containsTokenSequence`: the constant's tokens occur contiguously. */
  predicate ContainsTokenSequence(q: QuestionType, tokens: seq<string>)
    ensures ContainsTokenSequence(q, tokens) <==> exists k :: SubListAt(tokens, TokenSequence(q), k)
  {
    IndexOfSubList(tokens, TokenSequence(q)) != -1
  }

  /** `containsTagSequence`: the constant's tags occur contiguously. */
  predicate ContainsTagSequence(q: QuestionType, tags: seq<string>)
    ensures ContainsTagSequence(q, tags) <==> exists k :: SubListAt(tags, TagSequence(q), k)
  {
    IndexOfSubList(tags, TagSequence(q)) != -1
  }

  /** The test of the loop body, on already lowercased tokens. */
  predicate Matches(q: QuestionType, loweredTokens: seq<string>, tags: seq<string>)
  {
    ContainsTagSequence(q, tags) && ContainsTokenSequence(q, loweredTokens)
  }

  /** The index of the first constant, at or after `from`, that matches; -1 when none does. */
  function FirstMatchIndex(loweredTokens: seq<string>, tags: seq<string>, from: nat): (r: int)
    requires from <= |Values|
    decreases |Values| - from
    ensures r == -1 || from <= r < |Values|
    ensures r == -1 <==> forall i :: from <= i < |Values| ==> !Matches(Values[i], loweredTokens, tags)
    ensures r != -1 ==> Matches(Values[r], loweredTokens, tags)
    ensures forall i :: from <= i < r ==> !Matches(Values[i], loweredTokens, tags)
  {
    if from == |Values| then -1
    else if Matches(Values[from], loweredTokens, tags) then from
    else FirstMatchIndex(loweredTokens, tags, from + 1)
  }

  /** What `evaluate` returns for a sentence. */
  function Evaluated(tokens: seq<string>, tags: seq<string>): (result: Option<QuestionType>)
    ensures result.None? <==> forall i :: 0 <= i < |Values| ==> !Matches(Values[i], LowerAll(tokens), tags)
    ensures result.Some? ==> Matches(result.value, LowerAll(tokens), tags)
    ensures result.Some? ==> forall i :: 0 <= i < Rank(result.value) ==> !Matches(Values[i], LowerAll(tokens), tags)
  {
    var r := FirstMatchIndex(LowerAll(tokens), tags, 0);
    if r == -1 then None else RankOfValue(r); Some(Values[r])
  }

  /** `QuestionType.evaluate`: scan the constants in order and stop at the first match. */
  method Evaluate(tokens: seq<string>, tags: seq<string>) returns (resultType: Option<QuestionType>)
    ensures resultType == Evaluated(tokens, tags)
  {
    var loweredTokens := LowerAll(tokens);
    resultType := None;
    var i := 0;
    while i < |Values|
      invariant 0 <= i <= |Values|
      invariant resultType == None
      invariant FirstMatchIndex(loweredTokens, tags, i) == FirstMatchIndex(loweredTokens, tags, 0)
    {
      if ContainsTagSequence(Values[i], tags) && ContainsTokenSequence(Values[i], loweredTokens) {
        resultType := Some(Values[i]);
        break;
      }
      i := i + 1;
    }
  }

  /** `Rank` inverts indexing into `Values`. */
  lemma RankOfValue(i: nat)
    requires i < |Values|
    ensures Rank(Values[i]) == i
  {
  }

  /** `evaluate` returns null exactly when no constant matches the lowercased tokens and the tags. */
  lemma EvaluatedNone(tokens: seq<string>, tags: seq<string>)
    ensures Evaluated(tokens, tags) == None <==> forall q :: !Matches(q, LowerAll(tokens), tags)
  {
    if Evaluated(tokens, tags) == None {
      forall q ensures !Matches(q, LowerAll(tokens), tags) {
        assert Values[Rank(q)] == q;
      }
    }
  }

  /** What `evaluate` returns matches, and no constant declared before it does. */
  lemma EvaluatedFirst(tokens: seq<string>, tags: seq<string>)
    requires Evaluated(tokens, tags) != None
    ensures var q := Evaluated(tokens, tags).value;
      Matches(q, LowerAll(tokens), tags) &&
      forall p :: Rank(p) < Rank(q) ==> !Matches(p, LowerAll(tokens), tags)
  {
    var lowered := LowerAll(tokens);
    var i := FirstMatchIndex(lowered, tags, 0);
    RankOfValue(i);
    forall p | Rank(p) < i ensures !Matches(p, lowered, tags) {
      var j := Rank(p);
      assert Values[j] == p;
    }
  }

  /** The converse: a matching constant with no earlier match is what `evaluate` returns. */
  lemma EvaluatedIs(tokens: seq<string>, tags: seq<string>, q: QuestionType)
    requires Matches(q, LowerAll(tokens), tags)
    requires forall p :: Rank(p) < Rank(q) ==> !Matches(p, LowerAll(tokens), tags)
    ensures Evaluated(tokens, tags) == Some(q)
  {
    FirstMatchIs(LowerAll(tokens), tags, q);
  }

  /** On lowercased tokens: a matching constant with no earlier match is the first match. */
  lemma FirstMatchIs(loweredTokens: seq<string>, tags: seq<string>, q: QuestionType)
    requires Matches(q, loweredTokens, tags)
    requires forall p :: Rank(p) < Rank(q) ==> !Matches(p, loweredTokens, tags)
    ensures FirstMatchIndex(loweredTokens, tags, 0) == Rank(q)
  {
    var r := FirstMatchIndex(loweredTokens, tags, 0);
    assert Values[Rank(q)] == q;
    assert r != -1 && r <= Rank(q);
    RankOfValue(r);
    assert Matches(Values[r], loweredTokens, tags);
  }

  /** `evaluate` returns the constant at the first match of the lowercased tokens. */
  lemma EvaluatedAt(tokens: seq<string>, loweredTokens: seq<string>, tags: seq<string>, q: QuestionType)
    requires loweredTokens == LowerAll(tokens)
    requires FirstMatchIndex(loweredTokens, tags, 0) == Rank(q)
    ensures Evaluated(tokens, tags) == Some(q)
  {
  }

  /** A one-element run occurs exactly when the element does. */
  lemma ContainsSingleton(source: seq<string>, x: string)
    ensures IndexOfSubList(source, [x]) != -1 <==> x in source
  {
    if x in source {
      var k :| 0 <= k < |source| && source[k] == x;
      assert source[k..k + 1] == [x];
      assert SubListAt(source, [x], k);
    }
    if IndexOfSubList(source, [x]) != -1 {
      var k := IndexOfSubList(source, [x]);
      assert source[k..k + 1] == [x];
      assert source[k] == x;
    }
  }

  /** A two-element run occurs exactly when its elements stand side by side. */
  lemma ContainsPair(source: seq<string>, x: string, y: string)
    ensures IndexOfSubList(source, [x, y]) != -1 <==>
      exists k :: 0 <= k < |source| - 1 && source[k] == x && source[k + 1] == y
  {
    if exists k :: 0 <= k < |source| - 1 && source[k] == x && source[k + 1] == y {
      var k :| 0 <= k < |source| - 1 && source[k] == x && source[k + 1] == y;
      assert source[k..k + 2] == [x, y];
      assert SubListAt(source, [x, y], k);
    }
    if IndexOfSubList(source, [x, y]) != -1 {
      var k := IndexOfSubList(source, [x, y]);
      var w := source[k..k + 2];
      assert w == [x, y];
      assert w[0] == source[k] && w[1] == source[k + 1];
    }
  }

  /** A run containing an element the source lacks does not occur. */
  lemma ElementAbsent(source: seq<string>, target: seq<string>, x: string)
    requires x in target && x !in source
    ensures IndexOfSubList(source, target) == -1
  {
  }

  /**
   * Without the tags WP and WDT and the words "where", "when" and "why", none
   * of the one-word constants declared before QUANTITY matches.
   */
  lemma NoOneWordMatch(loweredTokens: seq<string>, tags: seq<string>)
    requires "WP" !in tags && "WDT" !in tags
    requires "where" !in loweredTokens && "when" !in loweredTokens && "why" !in loweredTokens
    ensures forall p :: Rank(p) < Rank(Quantity) ==> !Matches(p, loweredTokens, tags)
  {
    forall p | Rank(p) < Rank(Quantity) ensures !Matches(p, loweredTokens, tags) {
      if p.People? || p.Information? || p.Choice? {
        ElementAbsent(tags, TagSequence(p), TagSequence(p)[0]);
      } else {
        ElementAbsent(loweredTokens, TokenSequence(p), TokenSequence(p)[0]);
      }
    }
  }

  /** Without the words "much", "often" and "far", none of the two-word constants matches. */
  lemma NoTwoWordMatch(loweredTokens: seq<string>, tags: seq<string>)
    requires "much" !in loweredTokens && "often" !in loweredTokens && "far" !in loweredTokens
    ensures forall p :: Rank(Quantity) <= Rank(p) < Rank(Description) ==> !Matches(p, loweredTokens, tags)
  {
    forall p | Rank(Quantity) <= Rank(p) < Rank(Description) ensures !Matches(p, loweredTokens, tags) {
      ElementAbsent(loweredTokens, TokenSequence(p), TokenSequence(p)[1]);
    }
  }

  /** Without the tags WP and WRB, no constant declared before CHOICE matches. */
  lemma NoMatchBeforeChoice(loweredTokens: seq<string>, tags: seq<string>)
    requires "WP" !in tags && "WRB" !in tags
    ensures forall p :: Rank(p) < Rank(Choice) ==> !Matches(p, loweredTokens, tags)
  {
    forall p | Rank(p) < Rank(Choice) ensures !Matches(p, loweredTokens, tags) {
      ElementAbsent(tags, TagSequence(p), TagSequence(p)[0]);
    }
  }

  /**
   * The token match and the tag match are found independently: in "Tell me
   * who" tagged WP PRP NN the tag WP stands at the front while "who" is the
   * last word, and the sentence is a PEOPLE question.
   */
  lemma IndependentMatchScenario(tokens: seq<string>, tags: seq<string>)
    requires tokens == ["Tell", "me", "who"] && tags == ["WP", "PRP", "NN"]
    ensures IndexOfSubList(tags, TagSequence(People)) == 0
    ensures IndexOfSubList(LowerAll(tokens), TokenSequence(People)) == 2
    ensures Evaluated(tokens, tags) == Some(People)
  {
    var lowered := TellMeWhoLowered(tokens);
    assert SubListAt(tags, ["WP"], 0) by { assert tags[0..1] == ["WP"]; }
    assert SubListAt(lowered, ["who"], 2) by { assert lowered[2..3] == ["who"]; }
    assert !SubListAt(lowered, ["who"], 0) && !SubListAt(lowered, ["who"], 1) by {
      assert lowered[0..1] == ["tell"] && lowered[1..2] == ["me"];
    }
    EvaluatedIs(tokens, tags, People);
  }

  lemma TellMeWhoLowered(tokens: seq<string>) returns (lowered: seq<string>)
    requires tokens == ["Tell", "me", "who"]
    ensures lowered == LowerAll(tokens) && lowered == ["tell", "me", "who"]
  {
    assert Lower("Tell") == "tell" && Lower("me") == "me" && Lower("who") == "who";
    lowered := LowerAll(tokens);
  }

  /** Tags are compared as written: a lowercase "wp" tag does not identify PEOPLE. */
  lemma TagsCaseSensitive(tokens: seq<string>, tags: seq<string>)
    requires tokens == ["who"] && tags == ["wp"]
    ensures Evaluated(tokens, tags) == None
  {
    assert Lower("who") == "who";
    assert LowerAll(tokens) == ["who"];
    forall q ensures !Matches(q, LowerAll(tokens), tags) {
      if SingleWord(q) {
        ContainsSingleton(tags, TagSequence(q)[0]);
        assert TagSequence(q) == [TagSequence(q)[0]];
      } else {
        ContainsPair(tags, TagSequence(q)[0], TagSequence(q)[1]);
        assert TagSequence(q) == [TagSequence(q)[0], TagSequence(q)[1]];
      }
    }
    EvaluatedNone(tokens, tags);
  }

  /** Tokens are lowercased first: "WHO" matches like "who". */
  lemma TokensLowercased(tokens: seq<string>, tags: seq<string>)
    requires tokens == ["WHO"] && tags == ["WP"]
    ensures Evaluated(tokens, tags) == Some(People)
  {
    assert Lower("WHO") == "who";
    assert LowerAll(tokens) == ["who"];
    ContainsSingleton(LowerAll(tokens), "who");
    ContainsSingleton(tags, "WP");
    EvaluatedIs(tokens, tags, People);
  }
}
