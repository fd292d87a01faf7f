/**
 * `PhraseAnalyzer.java`: a sentence is interrogative when its tags open with
 * one of six tag patterns and its last token is not "!"; the question type is
 * then what `QuestionType.evaluate` finds.
 */
module PhraseAnalyzer {
  import opened Wrappers
  import opened Strings
  import opened PhraseModel

  /** `SEQUENCES`: the opening tag patterns, in declaration order. */
  const Sequences: seq<seq<string>> :=
    [["WRB"], ["MD"], ["WDT"], ["WP"], ["VBP", "PRP"], ["WP", "VBP", "PRP", "VB"]]

  /**
   * The inner loop of `hasStartingSequence`: the first index at or after
   * `from` that holds `tag`, or 0 when there is none.
   */
  function FirstPosition(posTags: seq<string>, tag: string, from: nat): (r: nat)
    requires from >= 1
    decreases |posTags| - from
    ensures r == 0 <==> forall m :: from <= m < |posTags| ==> posTags[m] != tag
    ensures r != 0 ==> from <= r < |posTags| && posTags[r] == tag && forall m :: from <= m < r ==> posTags[m] != tag
  {
    if from >= |posTags| then 0
    else if posTags[from] == tag then from
    else FirstPosition(posTags, tag, from + 1)
  }

  /** Where the search for `tag` stops: its first index after the opening one, or 0. */
  function Position(posTags: seq<string>, tag: string): nat
  {
    FirstPosition(posTags, tag, 1)
  }

  /** The position element `i` of the pattern must lie beyond: 0 for the second element. */
  function Previous(posTags: seq<string>, sequence: seq<string>, i: nat): nat
    requires 1 <= i < |sequence|
  {
    if i == 1 then 0 else Position(posTags, sequence[i - 1])
  }

  /** Element `i` of the pattern is found beyond the previous one. */
  predicate Beyond(posTags: seq<string>, sequence: seq<string>, i: nat)
    requires 1 <= i < |sequence|
  {
    Previous(posTags, sequence, i) < Position(posTags, sequence[i])
  }

  /**
   * The test `hasStartingSequence` performs: the first tag is the pattern's
   * first element, and every later element is found after the opening tag at
   * a first position beyond the previous element's first position.
   */
  predicate StartingSequence(posTags: seq<string>, sequence: seq<string>)
    requires |posTags| > 0 && |sequence| > 0
  {
    posTags[0] == sequence[0] &&
    forall i :: 1 <= i < |sequence| ==> Beyond(posTags, sequence, i)
  }

  /** `hasStartingSequence`: the nested scans, with a `currentPosition` that is never reset. */
  method HasStartingSequence(posTags: seq<string>, sequence: seq<string>) returns (hasSequence: bool)
    requires |posTags| > 0 && |sequence| > 0
    ensures hasSequence == StartingSequence(posTags, sequence)
  {
    hasSequence := false;
    if posTags[0] == sequence[0] {
      hasSequence := true;
      var lastPosition := 0;
      var currentPosition := 0;
      var i := 1;
      while i < |sequence|
        invariant 1 <= i <= |sequence|
        invariant hasSequence
        invariant currentPosition == lastPosition
        invariant lastPosition == if i == 1 then 0 else Position(posTags, sequence[i - 1])
        invariant forall k :: 1 <= k < i ==> Beyond(posTags, sequence, k)
      {
        var element := sequence[i];
        var j := 1;
        while j < |posTags|
          invariant 1 <= j <= |posTags|
          invariant currentPosition == lastPosition
          invariant forall m :: 1 <= m < j ==> posTags[m] != element
        {
          if element == posTags[j] {
            currentPosition := j;
            break;
          }
          j := j + 1;
        }
        ghost var position := Position(posTags, element);
        assert currentPosition == if position > 0 then position else lastPosition;
        assert Previous(posTags, sequence, i) == lastPosition;
        if currentPosition > lastPosition {
          lastPosition := currentPosition;
          assert lastPosition == Position(posTags, sequence[i]);
          assert Beyond(posTags, sequence, i);
        } else {
          hasSequence := false;
          assert !Beyond(posTags, sequence, i);
          break;
        }
        i := i + 1;
      }
    }
  }

  /** Every later element of a matched pattern is found, in strictly increasing first positions. */
  lemma StartingSequenceFound(posTags: seq<string>, sequence: seq<string>)
    requires |posTags| > 0 && |sequence| > 0
    requires StartingSequence(posTags, sequence)
    ensures forall i :: 1 <= i < |sequence| ==>
      1 <= Position(posTags, sequence[i]) < |posTags| && posTags[Position(posTags, sequence[i])] == sequence[i]
    ensures forall i :: 1 <= i < |sequence| - 1 ==> Position(posTags, sequence[i]) < Position(posTags, sequence[i + 1])
  {
    forall i | 1 <= i < |sequence|
      ensures 1 <= Position(posTags, sequence[i])
    {
      assert Beyond(posTags, sequence, i);
    }
    forall i | 1 <= i < |sequence| - 1
      ensures Position(posTags, sequence[i]) < Position(posTags, sequence[i + 1])
    {
      assert Beyond(posTags, sequence, i + 1);
    }
  }

  /** The pattern fails whenever the first tag differs from its first element. */
  lemma FirstTagDiffers(posTags: seq<string>, sequence: seq<string>)
    requires |posTags| > 0 && |sequence| > 0 && posTags[0] != sequence[0]
    ensures !StartingSequence(posTags, sequence)
  {
  }

  /** A one-element pattern is exactly a test of the first tag. */
  lemma SingletonStartingSequence(posTags: seq<string>, x: string)
    requires |posTags| > 0
    ensures StartingSequence(posTags, [x]) <==> posTags[0] == x
  {
  }

  /** A two-element pattern: the first tag, then the second element anywhere after it. */
  lemma PairStartingSequence(posTags: seq<string>, x: string, y: string)
    requires |posTags| > 0
    ensures StartingSequence(posTags, [x, y]) <==>
      posTags[0] == x && exists j :: 1 <= j < |posTags| && posTags[j] == y
  {
    assert Beyond(posTags, [x, y], 1) <==> Position(posTags, y) > 0;
    if exists j :: 1 <= j < |posTags| && posTags[j] == y {
      var j :| 1 <= j < |posTags| && posTags[j] == y;
      assert Position(posTags, y) > 0;
    }
  }

  /**
   * The search for each element restarts after the opening tag, so a pattern
   * that occurs in order can still fail: WP VB VBP PRP VB holds WP VBP PRP VB
   * at indices 0, 2, 3, 4, but VB is first found at 1, before PRP.
   */
  lemma RestartedSearchScenario(posTags: seq<string>)
    requires posTags == ["WP", "VB", "VBP", "PRP", "VB"]
    ensures posTags[0] == Sequences[5][0] && posTags[2] == Sequences[5][1]
    ensures posTags[3] == Sequences[5][2] && posTags[4] == Sequences[5][3]
    ensures !StartingSequence(posTags, Sequences[5])
  {
    var sequence := Sequences[5];
    assert posTags[1] != "PRP" && posTags[2] != "PRP" && posTags[3] == "PRP" && posTags[4] != "PRP";
    assert Position(posTags, "PRP") == 3;
    assert Position(posTags, "VB") == 1;
    assert !Beyond(posTags, sequence, 3);
  }

  /** `Stream.of(SEQUENCES).anyMatch(...)`: some pattern opens the tags. */
  predicate SequenceFound(posTags: seq<string>)
    requires |posTags| > 0
  {
    exists k :: 0 <= k < |Sequences| && StartingSequence(posTags, Sequences[k])
  }

  /**
   * `detectInterrogative`: the question type of an interrogative sentence,
   * None otherwise. Reading the first tag needs a tag, and reading the last
   * token needs a token once a pattern has matched.
   */
  function DetectInterrogative(tokens: seq<string>, posTags: seq<string>): (r: Option<QuestionType>)
    requires |posTags| > 0
    requires SequenceFound(posTags) ==> |tokens| > 0
    ensures r != None ==> SequenceFound(posTags)
  {
    if SequenceFound(posTags) && tokens[|tokens| - 1] != "!" then Evaluated(tokens, posTags) else None
  }

  /**
   * The six patterns reduce to one rule: the first tag is WRB, MD, WDT or WP,
   * or it is VBP with a PRP somewhere after it. The four-element pattern
   * starts with WP and adds nothing.
   */
  lemma SequenceFoundIff(posTags: seq<string>)
    requires |posTags| > 0
    ensures SequenceFound(posTags) <==>
      posTags[0] in ["WRB", "MD", "WDT", "WP"] ||
      (posTags[0] == "VBP" && exists j :: 1 <= j < |posTags| && posTags[j] == "PRP")
  {
    SingletonStartingSequence(posTags, "WRB");
    SingletonStartingSequence(posTags, "MD");
    SingletonStartingSequence(posTags, "WDT");
    SingletonStartingSequence(posTags, "WP");
    PairStartingSequence(posTags, "VBP", "PRP");
    assert Sequences[0] == ["WRB"] && Sequences[1] == ["MD"] && Sequences[2] == ["WDT"];
    assert Sequences[3] == ["WP"] && Sequences[4] == ["VBP", "PRP"];
    if StartingSequence(posTags, Sequences[5]) {
      assert StartingSequence(posTags, Sequences[3]);
    }
  }

  /** A sentence ending in "!" is never a question. */
  lemma ExclamationIsNoQuestion(tokens: seq<string>, posTags: seq<string>)
    requires |posTags| > 0 && |tokens| > 0 && tokens[|tokens| - 1] == "!"
    ensures DetectInterrogative(tokens, posTags) == None
  {
  }

  /** Without an opening pattern the sentence is not a question. */
  lemma NoPatternNoQuestion(tokens: seq<string>, posTags: seq<string>)
    requires |posTags| > 0
    requires posTags[0] !in ["WRB", "MD", "WDT", "WP", "VBP"]
    ensures DetectInterrogative(tokens, posTags) == None
  {
    SequenceFoundIff(posTags);
  }

  /** A tag list some pattern accepts leaves the answer to `evaluate`, which may still be None. */
  lemma DetectEvaluates(tokens: seq<string>, posTags: seq<string>)
    requires |posTags| > 0 && |tokens| > 0 && tokens[|tokens| - 1] != "!"
    requires posTags[0] in ["WRB", "MD", "WDT", "WP"] ||
      (posTags[0] == "VBP" && exists j :: 1 <= j < |posTags| && posTags[j] == "PRP")
    ensures DetectInterrogative(tokens, posTags) == Evaluated(tokens, posTags)
  {
    SequenceFoundIff(posTags);
  }

  /** A question whose lowercased tokens first match the constant `q` is a `q` question. */
  lemma DetectedAt(tokens: seq<string>, lowered: seq<string>, posTags: seq<string>, q: QuestionType)
    requires |posTags| > 0 && |tokens| > 0 && tokens[|tokens| - 1] != "!"
    requires posTags[0] in ["WRB", "MD", "WDT", "WP"] ||
      (posTags[0] == "VBP" && exists j :: 1 <= j < |posTags| && posTags[j] == "PRP")
    requires lowered == LowerAll(tokens) && FirstMatchIndex(lowered, posTags, 0) == Rank(q)
    ensures DetectInterrogative(tokens, posTags) == Some(q)
  {
    DetectEvaluates(tokens, posTags);
    EvaluatedAt(tokens, lowered, posTags, q);
  }

  /** A question opened by a modal with no question word has no type: "Can I go?" is None. */
  lemma ModalQuestionScenario(tokens: seq<string>, posTags: seq<string>)
    requires tokens == ["Can", "I", "go", "?"] && posTags == ["MD", "PRP", "VB", "."]
    ensures SequenceFound(posTags)
    ensures DetectInterrogative(tokens, posTags) == None
  {
    SequenceFoundIff(posTags);
    forall q ensures !Matches(q, LowerAll(tokens), posTags) {
      ElementAbsent(posTags, TagSequence(q), TagSequence(q)[0]);
    }
    EvaluatedNone(tokens, posTags);
  }

  /** "Where is the library?" tagged WRB VBZ DT NN . is a LOCATION question. */
  lemma LocationScenario(tokens: seq<string>, posTags: seq<string>)
    requires tokens == ["Where", "is", "the", "library", "?"] && posTags == ["WRB", "VBZ", "DT", "NN", "."]
    ensures DetectInterrogative(tokens, posTags) == Some(Location)
  {
    assert Lower("Where") == "where";
    var lowered := OpeningLowered(tokens, "where");
    LocationFirstMatch(lowered, posTags);
    DetectedAt(tokens, lowered, posTags, Location);
  }

  /** A sentence opening with "where" tagged WRB, without the tag WP, is a LOCATION question. */
  lemma LocationFirstMatch(lowered: seq<string>, posTags: seq<string>)
    requires |lowered| > 0 && lowered[0] == "where"
    requires |posTags| > 0 && posTags[0] == "WRB" && "WP" !in posTags
    ensures FirstMatchIndex(lowered, posTags, 0) == Rank(Location)
  {
    ContainsSingleton(lowered, "where");
    ContainsSingleton(posTags, "WRB");
    ElementAbsent(posTags, TagSequence(People), "WP");
    FirstMatchIs(lowered, posTags, Location);
  }

  /** The lowercased tokens of a sentence, of which only the first is computed. */
  lemma OpeningLowered(tokens: seq<string>, first: string) returns (lowered: seq<string>)
    requires |tokens| > 0 && Lower(tokens[0]) == first
    ensures lowered == LowerAll(tokens) && |lowered| > 0 && lowered[0] == first
  {
    lowered := LowerAll(tokens);
  }

  /** "Which drink did you order?" tagged WDT NN VBD PRP NN . is a CHOICE question. */
  lemma ChoiceScenario(tokens: seq<string>, posTags: seq<string>)
    requires tokens == ["Which", "drink", "did", "you", "order", "?"]
    requires posTags == ["WDT", "NN", "VBD", "PRP", "NN", "."]
    ensures DetectInterrogative(tokens, posTags) == Some(Choice)
  {
    assert Lower("Which") == "which";
    var lowered := OpeningLowered(tokens, "which");
    ChoiceFirstMatch(lowered, posTags);
    DetectedAt(tokens, lowered, posTags, Choice);
  }

  /** A sentence opening with "which" tagged WDT, without the tags WP and WRB, is a CHOICE question. */
  lemma ChoiceFirstMatch(lowered: seq<string>, posTags: seq<string>)
    requires |lowered| > 0 && lowered[0] == "which"
    requires |posTags| > 0 && posTags[0] == "WDT" && "WP" !in posTags && "WRB" !in posTags
    ensures FirstMatchIndex(lowered, posTags, 0) == Rank(Choice)
  {
    ContainsSingleton(lowered, "which");
    ContainsSingleton(posTags, "WDT");
    NoMatchBeforeChoice(lowered, posTags);
    FirstMatchIs(lowered, posTags, Choice);
  }

  /** "How much money will I need?" tagged WRB JJ NN MD PRP VB . is a QUANTITY question. */
  lemma QuantityScenario(tokens: seq<string>, posTags: seq<string>)
    requires tokens == ["How", "much", "money", "will", "I", "need", "?"]
    requires posTags == ["WRB", "JJ", "NN", "MD", "PRP", "VB", "."]
    ensures DetectInterrogative(tokens, posTags) == Some(Quantity)
  {
    var lowered := HowMuchLowered(tokens);
    QuantityFirstMatch(lowered, posTags);
    DetectedAt(tokens, lowered, posTags, Quantity);
  }

  /**
   * A sentence opening with "how much" tagged WRB JJ, without the tags WP and
   * WDT and the words "where", "when" and "why", is a QUANTITY question.
   */
  lemma QuantityFirstMatch(lowered: seq<string>, posTags: seq<string>)
    requires |lowered| > 1 && lowered[0] == "how" && lowered[1] == "much"
    requires |posTags| > 1 && posTags[0] == "WRB" && posTags[1] == "JJ"
    requires "WP" !in posTags && "WDT" !in posTags
    requires "where" !in lowered && "when" !in lowered && "why" !in lowered
    ensures FirstMatchIndex(lowered, posTags, 0) == Rank(Quantity)
  {
    ContainsPair(lowered, "how", "much");
    ContainsPair(posTags, "WRB", "JJ");
    NoOneWordMatch(lowered, posTags);
    FirstMatchIs(lowered, posTags, Quantity);
  }

  lemma HowMuchLowered(tokens: seq<string>) returns (lowered: seq<string>)
    requires tokens == ["How", "much", "money", "will", "I", "need", "?"]
    ensures lowered == LowerAll(tokens) && lowered == ["how", "much", "money", "will", "i", "need", "?"]
  {
    assert Lower("How") == "how" && Lower("much") == "much" && Lower("money") == "money";
    assert Lower("will") == "will" && Lower("I") == "i" && Lower("need") == "need" && Lower("?") == "?";
    lowered := LowerAll(tokens);
  }

  /** "How often does she study?" tagged WRB RB VBZ PRP VB . is a FREQUENCY question. */
  lemma FrequencyScenario(tokens: seq<string>, posTags: seq<string>)
    requires tokens == ["How", "often", "does", "she", "study", "?"]
    requires posTags == ["WRB", "RB", "VBZ", "PRP", "VB", "."]
    ensures DetectInterrogative(tokens, posTags) == Some(Frequency)
  {
    var lowered := HowOftenLowered(tokens);
    FrequencyFirstMatch(lowered, posTags);
    DetectedAt(tokens, lowered, posTags, Frequency);
  }

  /**
   * A sentence opening with "how often" tagged WRB RB, without the tags WP,
   * WDT and JJ and the words "where", "when" and "why", is a FREQUENCY question.
   */
  lemma FrequencyFirstMatch(lowered: seq<string>, posTags: seq<string>)
    requires |lowered| > 1 && lowered[0] == "how" && lowered[1] == "often"
    requires |posTags| > 1 && posTags[0] == "WRB" && posTags[1] == "RB"
    requires "WP" !in posTags && "WDT" !in posTags && "JJ" !in posTags
    requires "where" !in lowered && "when" !in lowered && "why" !in lowered
    ensures FirstMatchIndex(lowered, posTags, 0) == Rank(Frequency)
  {
    ContainsPair(lowered, "how", "often");
    ContainsPair(posTags, "WRB", "RB");
    NoOneWordMatch(lowered, posTags);
    ElementAbsent(posTags, TagSequence(Quantity), "JJ");
    FirstMatchIs(lowered, posTags, Frequency);
  }

  lemma HowOftenLowered(tokens: seq<string>) returns (lowered: seq<string>)
    requires tokens == ["How", "often", "does", "she", "study", "?"]
    ensures lowered == LowerAll(tokens) && lowered == ["how", "often", "does", "she", "study", "?"]
  {
    assert Lower("How") == "how" && Lower("often") == "often" && Lower("does") == "does";
    assert Lower("she") == "she" && Lower("study") == "study" && Lower("?") == "?";
    lowered := LowerAll(tokens);
  }

  /**
   * "How do you cook paella?" tagged WRB VBP PRP VB NN . matches none of the
   * two-word constants and falls through to DESCRIPTION, declared last.
   */
  lemma DescriptionScenario(tokens: seq<string>, posTags: seq<string>)
    requires tokens == ["How", "do", "you", "cook", "paella", "?"]
    requires posTags == ["WRB", "VBP", "PRP", "VB", "NN", "."]
    ensures DetectInterrogative(tokens, posTags) == Some(Description)
  {
    var lowered := HowDoLowered(tokens);
    DescriptionFirstMatch(lowered, posTags);
    DetectedAt(tokens, lowered, posTags, Description);
  }

  /**
   * A sentence with "how" tagged WRB but none of the tags WP and WDT and none
   * of the words "where", "when", "why", "much", "often" and "far" is a
   * DESCRIPTION question.
   */
  lemma DescriptionFirstMatch(lowered: seq<string>, posTags: seq<string>)
    requires "how" in lowered && "WRB" in posTags
    requires "WP" !in posTags && "WDT" !in posTags
    requires "where" !in lowered && "when" !in lowered && "why" !in lowered
    requires "much" !in lowered && "often" !in lowered && "far" !in lowered
    ensures FirstMatchIndex(lowered, posTags, 0) == Rank(Description)
  {
    ContainsSingleton(lowered, "how");
    ContainsSingleton(posTags, "WRB");
    NoOneWordMatch(lowered, posTags);
    NoTwoWordMatch(lowered, posTags);
    FirstMatchIs(lowered, posTags, Description);
  }

  lemma HowDoLowered(tokens: seq<string>) returns (lowered: seq<string>)
    requires tokens == ["How", "do", "you", "cook", "paella", "?"]
    ensures lowered == LowerAll(tokens) && lowered == ["how", "do", "you", "cook", "paella", "?"]
  {
    assert Lower("How") == "how" && Lower("do") == "do" && Lower("you") == "you";
    assert Lower("cook") == "cook" && Lower("paella") == "paella" && Lower("?") == "?";
    lowered := LowerAll(tokens);
  }
}
