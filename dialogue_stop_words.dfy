/** `DialogueStopWords.kt`: the stop-word handler the text classifiers use. */
module DialogueStopWords {

  /** `STOPS`: the constant list of stop words. */
  const Stops: seq<string> := ["I", "i", "it", "It"]

  /** `isStopword`: membership in `STOPS`, compared exactly. */
  predicate IsStopword(word: string)
  {
    word in Stops
  }

  /** The stop words are exactly "I", "i", "it" and "It". */
  lemma StopwordsExactly(word: string)
    ensures IsStopword(word) <==> word == "I" || word == "i" || word == "it" || word == "It"
  {
  }

  /** The match is case-sensitive and whole-word: "IT", "iT" and "its" are kept. */
  lemma CaseSensitive()
    ensures !IsStopword("IT") && !IsStopword("iT") && !IsStopword("its")
  {
    StopwordsExactly("IT");
    StopwordsExactly("iT");
    StopwordsExactly("its");
  }
}

/** `DialogueStopWords.java`: the Java twin of the handler, with its own static list. */
module DialogueStopWordsJava {
  import Kotlin = DialogueStopWords

  /** `STOPS`: the `static final` list. */
  const Stops: seq<string> := ["I", "i", "it", "It"]

  /** `isStopword`: `STOPS.contains(word)`. */
  predicate IsStopword(word: string)
  {
    word in Stops
  }

  /** The stop words are exactly "I", "i", "it" and "It". */
  lemma StopwordsExactly(word: string)
    ensures IsStopword(word) <==> word == "I" || word == "i" || word == "it" || word == "It"
  {
  }

  /** The match is case-sensitive: "IT" is kept. */
  lemma CaseSensitive()
    ensures !IsStopword("IT") && !IsStopword("iT") && !IsStopword("its")
  {
    StopwordsExactly("IT");
    StopwordsExactly("iT");
    StopwordsExactly("its");
  }

  /** The Java and the Kotlin handler agree on every word. */
  lemma AgreesWithKotlin(word: string)
    ensures IsStopword(word) == Kotlin.IsStopword(word)
  {
    StopwordsExactly(word);
    Kotlin.StopwordsExactly(word);
  }
}
