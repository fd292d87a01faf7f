/**
 * The records of `input/InputModel.kt`: what the NLP stage and the wordnet
 * stage deliver for one request, and the pairing of the two per sentence.
 * Kotlin data classes compare structurally, as datatypes do.
 */
module InputModel {
  import opened Wrappers

  datatype NlpSentence = NlpSentence(raw: string, tokens: seq<string>, posTags: seq<string>)

  datatype AnalyzedText = AnalyzedText(sentences: seq<NlpSentence>)

  /** A word's lemma (`lemma`, a Dafny keyword), which the wordnet stage may not know. */
  datatype AnalyzedWord = AnalyzedWord(lemmaForm: Option<string>)

  /** `List<AnalyzedWord?>`: an entry may itself be null. */
  datatype WordnetSentence = WordnetSentence(analyzedWords: seq<Option<AnalyzedWord>>)

  datatype WordnetAnalysis = WordnetAnalysis(sentences: seq<WordnetSentence>)

  datatype Sentence = Sentence(nlp: NlpSentence, wordnet: WordnetSentence)

  datatype AnalyzedInputText = AnalyzedInputText(analyzedText: AnalyzedText, wordnetAnalysis: WordnetAnalysis)

  /** Pairs the i-th nlp sentence with the i-th wordnet sentence. */
  function Zip(nlp: seq<NlpSentence>, wordnet: seq<WordnetSentence>): (r: seq<Sentence>)
    requires |wordnet| >= |nlp|
    ensures |r| == |nlp|
    ensures forall i :: 0 <= i < |r| ==> r[i] == Sentence(nlp[i], wordnet[i])
  {
    if nlp == [] then [] else [Sentence(nlp[0], wordnet[0])] + Zip(nlp[1..], wordnet[1..])
  }

  /**
   * `AnalyzedInputText.getSentences`: one sentence per nlp sentence, in order;
   * `wordnetAnalysis.sentences[index]` needs a wordnet sentence for each.
   */
  function GetSentences(input: AnalyzedInputText): (r: seq<Sentence>)
    requires |input.wordnetAnalysis.sentences| >= |input.analyzedText.sentences|
    ensures |r| == |input.analyzedText.sentences|
    ensures forall i :: 0 <= i < |r| ==>
      r[i] == Sentence(input.analyzedText.sentences[i], input.wordnetAnalysis.sentences[i])
  {
    Zip(input.analyzedText.sentences, input.wordnetAnalysis.sentences)
  }

  /** Wordnet sentences beyond the nlp sentences are ignored. */
  lemma GetSentencesIgnoresExtra(text: AnalyzedText, wordnet: seq<WordnetSentence>, extra: seq<WordnetSentence>)
    requires |wordnet| >= |text.sentences|
    ensures GetSentences(AnalyzedInputText(text, WordnetAnalysis(wordnet + extra)))
         == GetSentences(AnalyzedInputText(text, WordnetAnalysis(wordnet)))
  {
    var a := GetSentences(AnalyzedInputText(text, WordnetAnalysis(wordnet + extra)));
    var b := GetSentences(AnalyzedInputText(text, WordnetAnalysis(wordnet)));
    assert forall i :: 0 <= i < |a| ==> a[i] == b[i];
  }
}
