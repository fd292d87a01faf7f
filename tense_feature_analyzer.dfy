/**
 * `analyzers/TenseFeatureAnalyzer.kt`: the bag of verb features the tense
 * classifier is fed with. Each verb-like word of a sentence becomes an entry
 * such as `VBZ(be,0)`, `VBG(going,1)` or `TO`, numbered by its position among
 * the verb-like words, and the entries are joined by single spaces.
 */
module TenseFeatureAnalyzer {
  import opened Wrappers
  import opened Strings
  import InputModel

  /** `WordInfo`: a normalised token, its POS tag and the wordnet lemma (`lemma`), if any. */
  datatype WordInfo = WordInfo(token: string, tag: string, lemmaForm: Option<string>)

  /** `"$tag($x,$index)"`. */
  function Tagged(tag: string, x: string, index: nat): string
  {
    tag + "(" + x + "," + NatToString(index) + ")"
  }

  /** The first rule of `WordInfo.map` whose test holds decides the entry. */
  function Entry(w: WordInfo, index: nat): (r: string)
    ensures |w.tag| <= |r| && r[..|w.tag|] == w.tag
    ensures r != w.tag ==> w.tag in ["VBP", "VBZ", "VBD", "VBN", "VB", "VBG", "MD"]
  {
    if (w.tag == "VBP" || w.tag == "VBZ") && w.lemmaForm == Some("be") then Tagged(w.tag, "be", index)
    else if (w.tag == "VBP" || w.tag == "VBZ") && w.lemmaForm == Some("have") then Tagged(w.tag, "have", index)
    else if (w.tag == "VBD" || w.tag == "VBN") && w.lemmaForm == Some("be") then Tagged(w.tag, "be", index)
    else if (w.tag == "VBD" || w.tag == "VB") && w.lemmaForm == Some("have") then Tagged(w.tag, "have", index)
    else if w.tag == "VBG" && w.token == "going" then Tagged(w.tag, w.token, index)
    else if w.tag == "MD" && (w.token == "will" || w.token == "would") then Tagged(w.tag, w.token, index)
    else if w.tag == "VBP" || w.tag == "VBG" || w.tag == "VBZ" then w.tag + "(" + NatToString(index) + ")"
    else w.tag
  }

  /** The filter of `buildBag`: verbs, the modals will/would, and TO. */
  predicate IsVerbLike(w: WordInfo)
  {
    StartsWith(w.tag, "V") || (w.tag == "MD" && (w.token == "will" || w.token == "would")) || w.tag == "TO"
  }

  /** `wordinfos.filter { … }`: the verb-like words in sentence order. */
  function Verbs(ws: seq<WordInfo>): (r: seq<WordInfo>)
    ensures |r| <= |ws|
    ensures forall i :: 0 <= i < |r| ==> IsVerbLike(r[i])
  {
    if ws == [] then []
    else Verbs(ws[..|ws| - 1]) + (if IsVerbLike(ws[|ws| - 1]) then [ws[|ws| - 1]] else [])
  }

  /** `verbs.mapIndexed { index, verb -> verb.map(index) }`. */
  function Bag(ws: seq<WordInfo>): (r: seq<string>)
    ensures |r| == |Verbs(ws)| <= |ws|
    ensures forall j :: 0 <= j < |r| ==> |Verbs(ws)[j].tag| <= |r[j]| && r[j][..|Verbs(ws)[j].tag|] == Verbs(ws)[j].tag
  {
    var verbs := Verbs(ws);
    seq(|verbs|, j requires 0 <= j < |verbs| => Entry(verbs[j], j))
  }

  /** The verbs of a prefix are a prefix of the verbs. */
  lemma {:induction false} VerbsPrefix(ws: seq<WordInfo>, k: nat)
    requires k <= |ws|
    ensures Verbs(ws[..k]) <= Verbs(ws)
    decreases |ws| - k
  {
    if k < |ws| {
      VerbsPrefix(ws, k + 1);
      assert ws[..k + 1][..k] == ws[..k];
    } else {
      assert ws[..k] == ws;
    }
  }

  /** A word is kept in the bag exactly when it is verb-like. */
  lemma VerbsStep(ws: seq<WordInfo>, k: nat)
    requires k < |ws|
    ensures Verbs(ws[..k + 1]) == Verbs(ws[..k]) + (if IsVerbLike(ws[k]) then [ws[k]] else [])
  {
    assert ws[..k + 1][..k] == ws[..k];
  }

  /**
   * A verb-like word gets the entry numbered by how many verb-like words
   * precede it, not by its position in the sentence.
   */
  lemma BagEntryOfWord(ws: seq<WordInfo>, k: nat)
    requires k < |ws| && IsVerbLike(ws[k])
    ensures var j := |Verbs(ws[..k])|; j < |Bag(ws)| && Bag(ws)[j] == Entry(ws[k], j)
  {
    VerbsStep(ws, k);
    VerbsPrefix(ws, k + 1);
  }

  /** A word that is not verb-like leaves no entry: the bag of the rest is the same. */
  lemma BagSkipsOthers(ws: seq<WordInfo>, w: WordInfo)
    requires !IsVerbLike(w)
    ensures Bag(ws + [w]) == Bag(ws)
  {
    assert (ws + [w])[..|ws|] == ws;
  }

  // ---------------------------------------------------------------------------
  // removeContractions

  /** `replace("^wo$".toRegex(), "will")`: the whole token "wo" only. */
  function ExpandWo(s: string): string
  {
    if s == "wo" then "will" else s
  }

  /** `removeContractions`: the eight rewrites in their fixed order. */
  function RemoveContractions(s: string): string
  {
    var s1 := ExpandWo(s);
    var s2 := ReplaceAll(s1, "n't", "not");
    var s3 := ReplaceAll(s2, "'re", "are");
    var s4 := ReplaceAll(s3, "'m", " am");
    var s5 := ReplaceAll(s4, "'ll", "will");
    var s6 := ReplaceAll(s5, "'ve", "have");
    var s7 := ReplaceAll(s6, "'d", "would");
    ReplaceAll(s7, "'s", "is")
  }

  /** A pattern with a character the string lacks does not occur in it. */
  lemma AbsentChar(p: string, s: string, ch: char)
    requires ch in p && ch !in s
    ensures !Occurs(p, s)
  {
  }

  /** Every pattern holds an apostrophe, so words without one are only subject to the "wo" rule. */
  lemma RemoveContractionsPlain(s: string)
    requires '\'' !in s
    ensures RemoveContractions(s) == ExpandWo(s)
  {
    var s1 := ExpandWo(s);
    assert '\'' !in s1;
    assert "n't"[1] == '\'' && "'re"[0] == '\'' && "'m"[0] == '\'' && "'ll"[0] == '\'';
    assert "'ve"[0] == '\'' && "'d"[0] == '\'' && "'s"[0] == '\'';
    AbsentChar("n't", s1, '\'');
    ReplaceAllAbsent(s1, "n't", "not");
    AbsentChar("'re", s1, '\'');
    ReplaceAllAbsent(s1, "'re", "are");
    AbsentChar("'m", s1, '\'');
    ReplaceAllAbsent(s1, "'m", " am");
    AbsentChar("'ll", s1, '\'');
    ReplaceAllAbsent(s1, "'ll", "will");
    AbsentChar("'ve", s1, '\'');
    ReplaceAllAbsent(s1, "'ve", "have");
    AbsentChar("'d", s1, '\'');
    ReplaceAllAbsent(s1, "'d", "would");
    AbsentChar("'s", s1, '\'');
    ReplaceAllAbsent(s1, "'s", "is");
  }

  /**
   * A token other than "wo" in which none of the seven patterns occurs comes
   * out unchanged, apostrophes elsewhere (as in "rock'n'roll") included.
   */
  lemma RemoveContractionsUnchanged(s: string)
    requires s != "wo"
    requires !Occurs("n't", s) && !Occurs("'re", s) && !Occurs("'m", s) && !Occurs("'ll", s)
    requires !Occurs("'ve", s) && !Occurs("'d", s) && !Occurs("'s", s)
    ensures RemoveContractions(s) == s
  {
    ReplaceAllAbsent(s, "n't", "not");
    ReplaceAllAbsent(s, "'re", "are");
    ReplaceAllAbsent(s, "'m", " am");
    ReplaceAllAbsent(s, "'ll", "will");
    ReplaceAllAbsent(s, "'ve", "have");
    ReplaceAllAbsent(s, "'d", "would");
    ReplaceAllAbsent(s, "'s", "is");
  }

  /** The tokenizer's first half of "won't", "wo", becomes "will". */
  lemma WoScenario()
    ensures RemoveContractions("wo") == "will"
  {
    RemoveContractionsPlain("wo");
  }

  /** The tokenizer's second half of "won't", "n't", becomes "not". */
  lemma NegationScenario()
    ensures RemoveContractions("n't") == "not"
  {
    assert ExpandWo("n't") == "n't";
    var s2 := ReplaceAll("n't", "n't", "not");
    assert s2 == "not" by {
      assert "n't" == "n't" + "";
      ReplaceAllAtStart("n't", "", "not");
    }
    AfterNegation(s2);
  }

  /** An untokenized "won't" misses the whole-token "wo" rule and becomes "wonot". */
  lemma WontScenario()
    ensures RemoveContractions("won't") == "wonot"
  {
    var n := ReplaceAll("won't", "n't", "not");
    assert n == "w" + ReplaceAll("on't", "n't", "not") by {
      StartsWithSlice("won't", "n't");
    }
    assert ReplaceAll("on't", "n't", "not") == "o" + ReplaceAll("n't", "n't", "not") by {
      StartsWithSlice("on't", "n't");
    }
    assert "n't" == "n't" + "";
    ReplaceAllAtStart("n't", "", "not");
    assert n == "wonot";
    AfterNegation("wonot");
  }

  /** Once the negation is expanded, no apostrophe is left for the later rewrites. */
  lemma AfterNegation(s: string)
    requires '\'' !in s
    ensures var s4 := ReplaceAll(ReplaceAll(ReplaceAll(s, "'re", "are"), "'m", " am"), "'ll", "will");
      ReplaceAll(ReplaceAll(ReplaceAll(s4, "'ve", "have"), "'d", "would"), "'s", "is") == s
  {
    assert "'re"[0] == '\'' && "'m"[0] == '\'' && "'ll"[0] == '\'';
    assert "'ve"[0] == '\'' && "'d"[0] == '\'' && "'s"[0] == '\'';
    AbsentChar("'re", s, '\'');
    ReplaceAllAbsent(s, "'re", "are");
    AbsentChar("'m", s, '\'');
    ReplaceAllAbsent(s, "'m", " am");
    AbsentChar("'ll", s, '\'');
    ReplaceAllAbsent(s, "'ll", "will");
    AbsentChar("'ve", s, '\'');
    ReplaceAllAbsent(s, "'ve", "have");
    AbsentChar("'d", s, '\'');
    ReplaceAllAbsent(s, "'d", "would");
    AbsentChar("'s", s, '\'');
    ReplaceAllAbsent(s, "'s", "is");
  }

  // ---------------------------------------------------------------------------
  // buildWordInfo and transform

  /** `words[index]?.lemma`. */
  function LemmaOf(word: Option<InputModel.AnalyzedWord>): Option<string>
  {
    if word.None? then None else word.value.lemmaForm
  }

  /** What `buildWordInfo` needs: a tag and a wordnet word for every token. */
  predicate Aligned(sentence: InputModel.Sentence)
  {
    |sentence.nlp.posTags| >= |sentence.nlp.tokens| && |sentence.wordnet.analyzedWords| >= |sentence.nlp.tokens|
  }

  /** `buildWordInfo`: one word per token, lowercased and normalised, with the tag and lemma at its index. */
  function BuildWordInfo(sentence: InputModel.Sentence): (r: seq<WordInfo>)
    requires Aligned(sentence)
    ensures |r| == |sentence.nlp.tokens|
    ensures forall i :: 0 <= i < |r| ==>
      r[i].tag == sentence.nlp.posTags[i] && r[i].lemmaForm == LemmaOf(sentence.wordnet.analyzedWords[i])
  {
    var tokens := sentence.nlp.tokens;
    seq(|tokens|, i requires 0 <= i < |tokens| =>
      WordInfo(RemoveContractions(Lower(tokens[i])), sentence.nlp.posTags[i], LemmaOf(sentence.wordnet.analyzedWords[i])))
  }

  /** `TenseFeatureTransformer.transform`: a single feature string, the bag joined by spaces. */
  function Transform(sentence: InputModel.Sentence): (r: seq<string>)
    requires Aligned(sentence)
    ensures |r| == 1
  {
    [Join(Bag(BuildWordInfo(sentence)), " ")]
  }

  /** The joined bag lists the entries in order, one space between neighbours. */
  lemma {:induction false} JoinSnoc(xs: seq<string>, x: string, sep: string)
    ensures Join(xs + [x], sep) == if xs == [] then x else Join(xs, sep) + sep + x
  {
    if |xs| == 1 {
      assert xs + [x] == [xs[0], x];
    } else if |xs| > 1 {
      assert (xs + [x])[1..] == xs[1..] + [x];
      JoinSnoc(xs[1..], x, sep);
    }
  }

  /** "I go" gives "VBP(0)": a present verb other than be or have carries only its index. */
  lemma PresentScenario(ws: seq<WordInfo>)
    requires ws == [WordInfo("i", "PRP", Some("i")), WordInfo("go", "VBP", Some("go"))]
    ensures Join(Bag(ws), " ") == "VBP(0)"
  {
    assert ws[..1] == [ws[0]] && ws[..1][..0] == [];
    assert Verbs(ws) == [ws[1]];
    assert NatToString(0) == "0";
    assert Entry(ws[1], 0) == "VBP(0)";
    assert Bag(ws) == ["VBP(0)"];
  }

  /** "I will go" gives "MD(will,0) VB": the modal carries its word, the bare verb only its tag. */
  lemma ModalScenario(ws: seq<WordInfo>)
    requires ws == [WordInfo("i", "PRP", None), WordInfo("will", "MD", Some("will")), WordInfo("go", "VB", Some("go"))]
    ensures Join(Bag(ws), " ") == "MD(will,0) VB"
  {
    ModalVerbs(ws);
    assert NatToString(0) == "0";
    assert Entry(ws[1], 0) == "MD(will,0)" && Entry(ws[2], 1) == "VB";
    assert Bag(ws) == ["MD(will,0)", "VB"];
    assert ["MD(will,0)", "VB"][1..] == ["VB"];
  }

  lemma ModalVerbs(ws: seq<WordInfo>)
    requires ws == [WordInfo("i", "PRP", None), WordInfo("will", "MD", Some("will")), WordInfo("go", "VB", Some("go"))]
    ensures Verbs(ws) == [ws[1], ws[2]]
  {
    assert ws[..2] == [ws[0], ws[1]] && ws[..2][..1] == [ws[0]] && ws[..2][..1][..0] == [];
    assert Verbs(ws[..2]) == [ws[1]];
  }

  /** "I am going to go", with wordnet's lemmas, becomes "VBP(be,0) VBG(going,1) TO VB". */
  lemma GoingToScenario(ws: seq<WordInfo>)
    requires ws == [WordInfo("i", "PRP", None), WordInfo("am", "VBP", Some("be")), WordInfo("going", "VBG", Some("go")),
      WordInfo("to", "TO", None), WordInfo("go", "VB", Some("go"))]
    ensures Join(Bag(ws), " ") == "VBP(be,0) VBG(going,1) TO VB"
  {
    GoingToVerbs(ws);
    var bag := GoingToBag(ws);
    JoinFour("VBP(be,0)", "VBG(going,1)", "TO", "VB", " ");
  }

  /**
   * The same sentence as it arrives from the input model: the tokens as the
   * tokenizer gives them, their tags, and wordnet's words, with no analysis
   * for "I" and "to". The whole transform yields the one feature string.
   */
  lemma GoingToSentenceScenario(sentence: InputModel.Sentence)
    requires sentence == InputModel.Sentence(
      InputModel.NlpSentence("I am going to go", ["I", "am", "going", "to", "go"], ["PRP", "VBP", "VBG", "TO", "VB"]),
      InputModel.WordnetSentence([None, Some(InputModel.AnalyzedWord(Some("be"))), Some(InputModel.AnalyzedWord(Some("go"))),
        None, Some(InputModel.AnalyzedWord(Some("go")))]))
    ensures Aligned(sentence)
    ensures Transform(sentence) == ["VBP(be,0) VBG(going,1) TO VB"]
  {
    var ws := GoingToWords(sentence);
    GoingToScenario(ws);
  }

  lemma GoingToWords(sentence: InputModel.Sentence) returns (ws: seq<WordInfo>)
    requires sentence == InputModel.Sentence(
      InputModel.NlpSentence("I am going to go", ["I", "am", "going", "to", "go"], ["PRP", "VBP", "VBG", "TO", "VB"]),
      InputModel.WordnetSentence([None, Some(InputModel.AnalyzedWord(Some("be"))), Some(InputModel.AnalyzedWord(Some("go"))),
        None, Some(InputModel.AnalyzedWord(Some("go")))]))
    ensures Aligned(sentence)
    ensures ws == BuildWordInfo(sentence)
    ensures ws == [WordInfo("i", "PRP", None), WordInfo("am", "VBP", Some("be")), WordInfo("going", "VBG", Some("go")),
      WordInfo("to", "TO", None), WordInfo("go", "VB", Some("go"))]
  {
    GoingToLowered();
    BuildWordInfoPlain(sentence);
    ws := BuildWordInfo(sentence);
  }

  lemma GoingToLowered()
    ensures Lower("I") == "i" && Lower("am") == "am" && Lower("going") == "going"
    ensures Lower("to") == "to" && Lower("go") == "go"
  {
    assert Lower("I") == "i" && Lower("am") == "am" && Lower("going") == "going";
  }

  lemma JoinFour(a: string, b: string, c: string, d: string, sep: string)
    ensures Join([a, b, c, d], sep) == a + sep + b + sep + c + sep + d
  {
    assert [a, b, c, d][1..] == [b, c, d] && [b, c, d][1..] == [c, d] && [c, d][1..] == [d];
    assert Join([c, d], sep) == c + sep + d;
    assert Join([b, c, d], sep) == b + sep + (c + sep + d);
    assert Join([a, b, c, d], sep) == a + sep + (b + sep + (c + sep + d));
  }

  /**
   * Tokens without apostrophes, none of which lowercases to "wo", are only
   * lowercased: each word is the lowercased token with its tag and lemma.
   */
  lemma BuildWordInfoPlain(sentence: InputModel.Sentence)
    requires Aligned(sentence)
    requires forall i :: 0 <= i < |sentence.nlp.tokens| ==>
      '\'' !in sentence.nlp.tokens[i] && Lower(sentence.nlp.tokens[i]) != "wo"
    ensures forall i :: 0 <= i < |sentence.nlp.tokens| ==>
      BuildWordInfo(sentence)[i] ==
        WordInfo(Lower(sentence.nlp.tokens[i]), sentence.nlp.posTags[i], LemmaOf(sentence.wordnet.analyzedWords[i]))
  {
    forall i | 0 <= i < |sentence.nlp.tokens|
      ensures RemoveContractions(Lower(sentence.nlp.tokens[i])) == Lower(sentence.nlp.tokens[i])
    {
      PlainToken(sentence.nlp.tokens[i]);
    }
  }

  /** A token without an apostrophe that does not lowercase to "wo" is only lowercased. */
  lemma PlainToken(t: string)
    requires '\'' !in t && Lower(t) != "wo"
    ensures RemoveContractions(Lower(t)) == Lower(t)
  {
    assert forall k :: 0 <= k < |t| ==> Lower(t)[k] != '\'';
    RemoveContractionsPlain(Lower(t));
  }

  lemma GoingToBag(ws: seq<WordInfo>) returns (bag: seq<string>)
    requires ws == [WordInfo("i", "PRP", None), WordInfo("am", "VBP", Some("be")), WordInfo("going", "VBG", Some("go")),
      WordInfo("to", "TO", None), WordInfo("go", "VB", Some("go"))]
    requires Verbs(ws) == ws[1..]
    ensures bag == Bag(ws) && bag == ["VBP(be,0)", "VBG(going,1)", "TO", "VB"]
  {
    BeEntry(ws[1]);
    GoingEntry(ws[2]);
    PlainEntries(ws[3], ws[4]);
    bag := Bag(ws);
  }

  lemma BeEntry(w: WordInfo)
    requires w == WordInfo("am", "VBP", Some("be"))
    ensures Entry(w, 0) == "VBP(be,0)"
  {
    assert NatToString(0) == "0";
  }

  lemma GoingEntry(w: WordInfo)
    requires w == WordInfo("going", "VBG", Some("go"))
    ensures Entry(w, 1) == "VBG(going,1)"
  {
    assert NatToString(1) == "1";
  }

  lemma PlainEntries(to: WordInfo, go: WordInfo)
    requires to == WordInfo("to", "TO", None) && go == WordInfo("go", "VB", Some("go"))
    ensures Entry(to, 2) == "TO" && Entry(go, 3) == "VB"
  {
  }

  lemma GoingToVerbs(ws: seq<WordInfo>)
    requires ws == [WordInfo("i", "PRP", None), WordInfo("am", "VBP", Some("be")), WordInfo("going", "VBG", Some("go")),
      WordInfo("to", "TO", None), WordInfo("go", "VB", Some("go"))]
    ensures Verbs(ws) == ws[1..]
  {
    assert ws[..1] == [ws[0]] && ws[..1][..0] == [];
    assert ws[..2][..1] == ws[..1] && ws[..3][..2] == ws[..2] && ws[..4][..3] == ws[..3] && ws[..4] == ws[..5][..4];
    assert ws[..5] == ws;
    assert Verbs(ws[..1]) == [];
    assert Verbs(ws[..2]) == [ws[1]];
    assert Verbs(ws[..3]) == [ws[1], ws[2]];
    assert Verbs(ws[..4]) == [ws[1], ws[2], ws[3]];
  }
}
