/**
 * The sentence-type feature pipeline shared by the three analyzer revisions
 * (`analyzers/TypeFeatureAnalyzer.kt`, `classifier/SentenceFeatureAnalyzer.kt`
 * and the root `SentenceFeatureAnalyzer.kt`). A revision is its `TokenConstants`
 * plus the list of transformer objects its `transform` folds through; both are
 * carried by a `Constants` record.
 *
 * Each transformer copies its input into a mutable list, edits that list and
 * returns it. Every stage therefore appears twice: a function that states what
 * the stage yields, and a method that performs the source's edits on a local
 * copy and is proved to yield exactly that.
 */
module SentenceFeatures {
  import opened Strings

  /** `AnalyzedToken = Pair<String, String>`: a token's text and its tag. */
  datatype Token = Token(text: string, tag: string)

  /** The transformer objects, each a rewrite of the whole token list. */
  datatype Stage = Relevant | Duplicate | StartMark | Fill | EndMark

  /** One revision's `TokenConstants`, token case handling and stage list. */
  datatype Constants = Constants(
    vtag: string,        // VTAG
    jtag: string,        // JTAG
    whtag: string,       // WHTAG
    itag: string,        // ITAG, the terminator tag
    lowercase: bool,     // whether mapToAnalyzed lowercases the token text
    stages: seq<Stage>)  // the transformers `transform` runs, in order

  const ANY := Token("", "*")
  const START := Token("", "^")

  /** The size `FillTokenTransformer` pads to. */
  const WIDTH := 8

  /** `RelevantTokenTransformer.jTypes`: the adjectives and adverbs that are kept. */
  const JTypes: seq<string> := ["much", "often", "many", "far"]

  function VerbToken(c: Constants): Token { Token("_", c.vtag) }
  function QM(c: Constants): Token { Token("QM", c.itag) }
  function EM(c: Constants): Token { Token("EM", c.itag) }
  function DT(c: Constants): Token { Token("DT", c.itag) }

  /** `ANALYZER_TAGS`, in the order the duplicate pass visits them. */
  function AnalyzerTags(c: Constants): seq<string>
  {
    [c.whtag, c.vtag, c.jtag, c.itag]
  }

  function AnalyzerTagSet(c: Constants): set<string>
  {
    {c.whtag, c.vtag, c.jtag, c.itag}
  }

  /**
   * What every revision's constants satisfy: the four analyzer tags differ,
   * the tag reduction's later tests cannot fire on an earlier test's output,
   * and the terminator tag is neither "?" nor "!".
   */
  predicate Valid(c: Constants)
  {
    && c.whtag != c.vtag && c.whtag != c.jtag && c.whtag != c.itag
    && c.vtag != c.jtag && c.vtag != c.itag && c.jtag != c.itag
    && !StartsWith(c.whtag, "VB")
    && c.whtag != "JJ" && c.whtag != "RB" && c.vtag != "JJ" && c.vtag != "RB"
    && c.itag != "?" && c.itag != "!"
    && !StartsWith(c.vtag, "WRB") && !StartsWith(c.vtag, "WP")
    && !StartsWith(c.jtag, "WRB") && !StartsWith(c.jtag, "WP") && !StartsWith(c.jtag, "VB")
  }

  // ---------------------------------------------------------------------------
  // mapToAnalyzed

  /**
   * The tag reduction of `mapToAnalyzed`, first matching rule wins: a tag starting WRB or WP to
   * the WH tag, VB* to the verb tag, exactly JJ or RB to the J tag, anything
   * else unchanged.
   */
  function ReduceTag(c: Constants, tag: string): string
  {
    if StartsWith(tag, "WRB") || StartsWith(tag, "WP") then c.whtag
    else if StartsWith(tag, "VB") then c.vtag
    else if tag == "JJ" || tag == "RB" then c.jtag
    else tag
  }

  /** The reduction is a normalisation: a reduced tag reduces to itself. */
  lemma ReduceTagIdempotent(c: Constants, tag: string)
    requires Valid(c)
    ensures ReduceTag(c, ReduceTag(c, tag)) == ReduceTag(c, tag)
  {
  }

  function Normalize(c: Constants, text: string): string
  {
    if c.lowercase then Lower(text) else text
  }

  /** The synthetic terminator pair, appended unless the last raw tag is the terminator tag. */
  function Terminator(c: Constants, tags: seq<string>): seq<Token>
    requires |tags| > 0
  {
    if tags[|tags| - 1] != c.itag then [Token(c.itag, c.itag)] else []
  }

  /** One pair per token, in order, then the terminator. */
  function Analyzed(c: Constants, tokens: seq<string>, tags: seq<string>): seq<Token>
    requires |tags| > 0 && |tokens| <= |tags|
  {
    seq(|tokens|, i requires 0 <= i < |tokens| => Token(Normalize(c, tokens[i]), ReduceTag(c, tags[i])))
      + Terminator(c, tags)
  }

  /**
   * What `transform` needs of its input: `tags.last()` needs a tag, `tags[index]`
   * needs a tag per token, and `analyzedTokens.first()` in the start stage needs
   * a token, which only an empty sentence that already ends in the terminator
   * tag fails to give.
   */
  predicate Feasible(c: Constants, tokens: seq<string>, tags: seq<string>)
  {
    |tags| > 0 && |tokens| <= |tags| && (|tokens| > 0 || tags[|tags| - 1] != c.itag)
  }

  /** `mapToAnalyzed`: the indexed loop with its `var tag` rewritten by three tests. */
  method MapToAnalyzed(c: Constants, tokens: seq<string>, tags: seq<string>) returns (tokenTags: seq<Token>)
    requires Valid(c)
    requires |tags| > 0 && |tokens| <= |tags|
    ensures tokenTags == Analyzed(c, tokens, tags)
    ensures |tokenTags| == |tokens| + (if tags[|tags| - 1] != c.itag then 1 else 0)
  {
    tokenTags := [];
    for index := 0 to |tokens|
      invariant |tokenTags| == index
      invariant forall i :: 0 <= i < index ==>
        tokenTags[i] == Token(Normalize(c, tokens[i]), ReduceTag(c, tags[i]))
    {
      var tag := tags[index];
      if StartsWith(tag, "WRB") || StartsWith(tag, "WP") {
        tag := c.whtag;
      }
      if StartsWith(tag, "VB") {
        tag := c.vtag;
      }
      if tag == "JJ" || tag == "RB" {
        tag := c.jtag;
      }
      var text := if c.lowercase then Lower(tokens[index]) else tokens[index];
      tokenTags := tokenTags + [Token(text, tag)];
    }
    if tags[|tags| - 1] != c.itag {
      tokenTags := tokenTags + [Token(c.itag, c.itag)];
    }
  }

  // ---------------------------------------------------------------------------
  // RelevantTokenTransformer

  /** The first pass: a token whose tag starts with no analyzer tag becomes ANY. */
  function Prefiltered(c: Constants, t: Token): Token
  {
    if StartsWithAny(t.tag, AnalyzerTags(c)) then t else ANY
  }

  /** Both passes on one token: verbs lose their text, J tokens outside jTypes become ANY. */
  function RelevantToken(c: Constants, t: Token): Token
  {
    var u := Prefiltered(c, t);
    if u.tag == c.vtag then VerbToken(c)
    else if u.tag == c.jtag && u.text !in JTypes then ANY
    else u
  }

  function RelevanceFiltered(c: Constants, s: seq<Token>): seq<Token>
  {
    seq(|s|, i requires 0 <= i < |s| => RelevantToken(c, s[i]))
  }

  /** `RelevantTokenTransformer.transform`: a map, then an indexed pass of in-place sets. */
  method RelevantTokenTransform(c: Constants, tokens: seq<Token>) returns (filtered: seq<Token>)
    requires Valid(c)
    ensures filtered == RelevanceFiltered(c, tokens)
    ensures |filtered| == |tokens|
  {
    filtered := seq(|tokens|, i requires 0 <= i < |tokens| => Prefiltered(c, tokens[i]));
    var index := 0;
    while index < |filtered|
      invariant 0 <= index <= |filtered| == |tokens|
      invariant forall i :: 0 <= i < index ==> filtered[i] == RelevantToken(c, tokens[i])
      invariant forall i :: index <= i < |filtered| ==> filtered[i] == Prefiltered(c, tokens[i])
    {
      var t := filtered[index];
      if t.tag == c.vtag {
        filtered := filtered[index := VerbToken(c)];
      }
      if t.tag == c.jtag && t.text !in JTypes {
        filtered := filtered[index := ANY];
      }
      index := index + 1;
    }
  }

  // ---------------------------------------------------------------------------
  // DuplicateTokenTransformer

  /** `removeAll { it.second == tag }`. */
  function Without(s: seq<Token>, tag: string): seq<Token>
  {
    if s == [] then [] else (if s[0].tag == tag then [] else [s[0]]) + Without(s[1..], tag)
  }

  /** `indexOfFirst { it.second == tag }`. */
  function FirstIndexOfTag(s: seq<Token>, tag: string): (r: int)
    ensures -1 <= r < |s|
    ensures r == -1 <==> forall i :: 0 <= i < |s| ==> s[i].tag != tag
    ensures r >= 0 ==> s[r].tag == tag && forall i :: 0 <= i < r ==> s[i].tag != tag
  {
    if s == [] then -1
    else if s[0].tag == tag then 0
    else var k := FirstIndexOfTag(s[1..], tag); if k == -1 then -1 else k + 1
  }

  /** The number of tokens carrying `tag`. */
  function CountTag(s: seq<Token>, tag: string): nat
  {
    if s == [] then 0 else (if s[0].tag == tag then 1 else 0) + CountTag(s[1..], tag)
  }

  /** The first token carrying `tag` stays where it is; every later one is dropped. */
  function KeepFirst(s: seq<Token>, tag: string): (r: seq<Token>)
    ensures |s| > 0 ==> |r| > 0 && r[0] == s[0]
  {
    if s == [] then []
    else if s[0].tag == tag then [s[0]] + Without(s[1..], tag)
    else [s[0]] + KeepFirst(s[1..], tag)
  }

  /** The loop over `ANALYZER_TAGS`. */
  function KeepFirstEach(tags: seq<string>, s: seq<Token>): (r: seq<Token>)
    ensures |s| > 0 ==> |r| > 0 && r[0] == s[0]
  {
    if tags == [] then s else KeepFirstEach(tags[1..], KeepFirst(s, tags[0]))
  }

  /**
   * Reference definition of the first-occurrence pass: scanning left to right,
   * a token is kept unless its tag is in `tags` and was already `seen`.
   */
  function FirstOnly(s: seq<Token>, tags: set<string>, seen: set<string>): seq<Token>
  {
    if s == [] then []
    else if s[0].tag in tags && s[0].tag in seen then FirstOnly(s[1..], tags, seen)
    else [s[0]] + FirstOnly(s[1..], tags, seen + {s[0].tag})
  }

  /** The tokens whose tag is not in `tags`, in order. */
  function WithoutAll(s: seq<Token>, tags: set<string>): seq<Token>
  {
    if s == [] then [] else (if s[0].tag in tags then [] else [s[0]]) + WithoutAll(s[1..], tags)
  }

  predicate NoAdjacentDuplicates(s: seq<Token>)
  {
    forall i :: 0 < i < |s| ==> s[i - 1] != s[i]
  }

  /** Run-length reduction: of every run of equal adjacent tokens only one is left. */
  function Collapse(s: seq<Token>): (r: seq<Token>)
    ensures |r| <= |s|
    ensures |s| > 0 ==> |r| > 0 && r[0] == s[0] && r[|r| - 1] == s[|s| - 1]
  {
    if |s| <= 1 then s
    else if s[0] == s[1] then Collapse(s[1..])
    else [s[0]] + Collapse(s[1..])
  }

  function Deduplicated(c: Constants, s: seq<Token>): (r: seq<Token>)
    ensures |s| > 0 ==> |r| > 0 && r[0] == s[0]
  {
    Collapse(KeepFirstEach(AnalyzerTags(c), s))
  }

  /** Removing every `tag` token, then re-adding the first at its index, is KeepFirst. */
  lemma {:induction false} KeepFirstByReinsertion(s: seq<Token>, tag: string, index: int)
    requires index == FirstIndexOfTag(s, tag) && index >= 0
    ensures index <= |Without(s, tag)|
    ensures Without(s, tag)[..index] + [s[index]] + Without(s, tag)[index..] == KeepFirst(s, tag)
  {
    var t := s[1..];
    if index == 0 {
      ReinsertAtHead(s, tag);
    } else {
      KeepFirstByReinsertion(t, tag, index - 1);
      WithoutKeepFirstCons(s, tag);
      assert t[index - 1] == s[index];
      ReinsertAfterHead(s[0], Without(t, tag), s[index], index - 1);
    }
  }

  /** A head token carrying `tag` is the one `KeepFirst` keeps, in front of the rest. */
  lemma ReinsertAtHead(s: seq<Token>, tag: string)
    requires |s| > 0 && s[0].tag == tag
    ensures Without(s, tag)[..0] + [s[0]] + Without(s, tag)[0..] == KeepFirst(s, tag)
  {
    var ws := Without(s, tag);
    assert ws == Without(s[1..], tag);
    assert ws[..0] + [s[0]] + ws[0..] == [s[0]] + ws;
  }

  /** Behind a head token of another tag, both passes work on the tail. */
  lemma WithoutKeepFirstCons(s: seq<Token>, tag: string)
    requires |s| > 0 && s[0].tag != tag
    ensures Without(s, tag) == [s[0]] + Without(s[1..], tag)
    ensures KeepFirst(s, tag) == [s[0]] + KeepFirst(s[1..], tag)
  {
  }

  /** Reinserting behind a head token is reinserting into the tail. */
  lemma ReinsertAfterHead(h: Token, w: seq<Token>, x: Token, j: nat)
    requires j <= |w|
    ensures ([h] + w)[..j + 1] + [x] + ([h] + w)[j + 1..] == [h] + (w[..j] + [x] + w[j..])
  {
    assert ([h] + w)[..j + 1] == [h] + w[..j];
    assert ([h] + w)[j + 1..] == w[j..];
  }

  /** Without a `tag` token there is nothing to dedupe. */
  lemma {:induction false} KeepFirstAbsent(s: seq<Token>, tag: string)
    requires FirstIndexOfTag(s, tag) == -1
    ensures KeepFirst(s, tag) == s
  {
    if s != [] {
      KeepFirstAbsent(s[1..], tag);
    }
  }

  /** A list in which no token carries `tag` loses nothing to `removeAll`. */
  lemma {:induction false} WithoutAbsent(s: seq<Token>, tag: string)
    requires forall i :: 0 <= i < |s| ==> s[i].tag != tag
    ensures Without(s, tag) == s
  {
    if s != [] {
      WithoutAbsent(s[1..], tag);
    }
  }

  /** `removeAll` of a tag carried by the token at `m` alone drops just that token. */
  lemma {:induction false} WithoutSingle(s: seq<Token>, tag: string, m: nat)
    requires m < |s| && s[m].tag == tag
    requires forall i :: 0 <= i < |s| && i != m ==> s[i].tag != tag
    ensures Without(s, tag) == s[..m] + s[m + 1..]
  {
    if m == 0 {
      WithoutAbsent(s[1..], tag);
    } else {
      WithoutSingle(s[1..], tag, m - 1);
      assert s[..m] == [s[0]] + s[1..][..m - 1];
      assert s[m + 1..] == s[1..][m..];
    }
  }

  /** A tag carried at most once needs no dedupe. */
  lemma {:induction false} KeepFirstAtMostOnce(s: seq<Token>, tag: string)
    requires forall i, j :: 0 <= i < j < |s| && s[i].tag == tag ==> s[j].tag != tag
    ensures KeepFirst(s, tag) == s
  {
    if s != [] {
      if s[0].tag == tag {
        WithoutAbsent(s[1..], tag);
      } else {
        KeepFirstAtMostOnce(s[1..], tag);
      }
    }
  }

  /** KeepFirst keeps everything up to the first `tag` token and drops every later one. */
  lemma {:induction false} KeepFirstSplit(s: seq<Token>, tag: string, k: nat)
    requires k < |s| && s[k].tag == tag
    requires forall i :: 0 <= i < k ==> s[i].tag != tag
    ensures KeepFirst(s, tag) == s[..k + 1] + Without(s[k + 1..], tag)
  {
    if k > 0 {
      KeepFirstSplit(s[1..], tag, k - 1);
      assert s[..k + 1] == [s[0]] + s[1..][..k];
      assert s[k + 1..] == s[1..][k..];
    }
  }

  /** When no analyzer tag is carried twice the first-occurrence pass changes nothing. */
  lemma {:induction false} KeepFirstEachIdentity(tags: seq<string>, s: seq<Token>)
    requires forall i, j :: 0 <= i < j < |s| && s[i].tag in tags ==> s[j].tag != s[i].tag
    ensures KeepFirstEach(tags, s) == s
  {
    if tags != [] {
      KeepFirstAtMostOnce(s, tags[0]);
      KeepFirstEachIdentity(tags[1..], s);
    }
  }

  /** The passes over `tags1 + tags2` are the passes over `tags1`, then over `tags2`. */
  lemma {:induction false} KeepFirstEachAppend(tags1: seq<string>, tags2: seq<string>, s: seq<Token>)
    ensures KeepFirstEach(tags1 + tags2, s) == KeepFirstEach(tags2, KeepFirstEach(tags1, s))
  {
    if tags1 == [] {
      assert tags1 + tags2 == tags2;
    } else {
      assert (tags1 + tags2)[1..] == tags1[1..] + tags2;
      KeepFirstEachAppend(tags1[1..], tags2, KeepFirst(s, tags1[0]));
    }
  }

  /** A list without adjacent duplicates is its own run-length reduction. */
  lemma {:induction false} CollapseNoAdjacentIdentity(s: seq<Token>)
    requires NoAdjacentDuplicates(s)
    ensures Collapse(s) == s
    decreases |s|
  {
    if |s| > 1 {
      CollapseNoAdjacentIdentity(s[1..]);
    }
  }

  /** Dropping one of two equal neighbours does not change the run-length reduction. */
  lemma {:induction false} CollapseDropRepeat(s: seq<Token>, i: nat)
    requires 0 < i < |s| && s[i - 1] == s[i]
    ensures Collapse(s) == Collapse(s[..i] + s[i + 1..])
    decreases i
  {
    var t := s[..i] + s[i + 1..];
    if i == 1 {
      assert t == s[1..];
    } else {
      var u := s[1..];
      CollapseDropRepeat(u, i - 1);
      assert t[1..] == u[..i - 1] + u[i..];
      assert Collapse(t[1..]) == Collapse(u);
      assert |t| >= 2 && t[0] == s[0] && t[1] == s[1];
      if s[0] == s[1] {
        assert Collapse(t) == Collapse(t[1..]);
      } else {
        assert Collapse(t) == [t[0]] + Collapse(t[1..]);
      }
    }
  }

  /** Deduplication leaves alone a list whose analyzer tags are carried once each, with no equal neighbours. */
  lemma DeduplicatedIdentity(c: Constants, s: seq<Token>)
    requires forall i, j :: 0 <= i < j < |s| && s[i].tag in AnalyzerTags(c) ==> s[j].tag != s[i].tag
    requires NoAdjacentDuplicates(s)
    ensures Deduplicated(c, s) == s
  {
    KeepFirstEachIdentity(AnalyzerTags(c), s);
    CollapseNoAdjacentIdentity(s);
  }

  lemma {:induction false} FirstOnlyNoTags(s: seq<Token>, seen: set<string>)
    ensures FirstOnly(s, {}, seen) == s
  {
    if s != [] {
      FirstOnlyNoTags(s[1..], seen + {s[0].tag});
    }
  }

  /** Once `t` has been seen, dropping every `t` token is adding `t` to the deduped tags. */
  lemma {:induction false} WithoutFirstOnly(s: seq<Token>, tags: set<string>, seen: set<string>, t: string)
    requires t !in tags && t in seen
    ensures Without(FirstOnly(s, tags, seen), t) == FirstOnly(s, tags + {t}, seen)
  {
    if s != [] {
      if s[0].tag in tags && s[0].tag in seen {
        WithoutFirstOnly(s[1..], tags, seen, t);
      } else {
        WithoutFirstOnly(s[1..], tags, seen + {s[0].tag}, t);
        if s[0].tag == t {
          assert seen + {s[0].tag} == seen;
        }
      }
    }
  }

  /** One more KeepFirst pass is one more tag in the reference definition. */
  lemma {:induction false} KeepFirstFirstOnly(s: seq<Token>, tags: set<string>, seen: set<string>, t: string)
    requires t !in tags && t !in seen
    ensures KeepFirst(FirstOnly(s, tags, seen), t) == FirstOnly(s, tags + {t}, seen)
  {
    if s != [] {
      if s[0].tag in tags && s[0].tag in seen {
        KeepFirstFirstOnly(s[1..], tags, seen, t);
      } else if s[0].tag == t {
        WithoutFirstOnly(s[1..], tags, seen + {t}, t);
      } else {
        KeepFirstFirstOnly(s[1..], tags, seen + {s[0].tag}, t);
      }
    }
  }

  predicate Distinct(tags: seq<string>)
  {
    forall i, j :: 0 <= i < j < |tags| ==> tags[i] != tags[j]
  }

  lemma {:induction false} KeepFirstEachFirstOnly(tags: seq<string>, s: seq<Token>, done: set<string>)
    requires Distinct(tags)
    requires forall i :: 0 <= i < |tags| ==> tags[i] !in done
    ensures KeepFirstEach(tags, FirstOnly(s, done, {})) == FirstOnly(s, done + set t | t in tags, {})
  {
    if tags == [] {
      assert (set t | t in tags) == {};
      assert done + {} == done;
    } else {
      KeepFirstFirstOnly(s, done, {}, tags[0]);
      assert forall i :: 0 <= i < |tags[1..]| ==> tags[1..][i] == tags[i + 1];
      KeepFirstEachFirstOnly(tags[1..], s, done + {tags[0]});
      assert done + {tags[0]} + (set t | t in tags[1..]) == done + set t | t in tags;
    }
  }

  /**
   * The first-occurrence pass of `DuplicateTokenTransformer` keeps a token
   * exactly when its tag is no analyzer tag or it is the first token with its tag.
   */
  lemma FirstOccurrencePass(c: Constants, s: seq<Token>)
    requires Valid(c)
    ensures KeepFirstEach(AnalyzerTags(c), s) == FirstOnly(s, AnalyzerTagSet(c), {})
  {
    FirstOnlyNoTags(s, {});
    KeepFirstEachFirstOnly(AnalyzerTags(c), s, {});
    assert {} + (set t | t in AnalyzerTags(c)) == AnalyzerTagSet(c);
  }

  /** A deduped tag is carried by at most one token, and only if some input token carried it. */
  lemma {:induction false} FirstOnlyCount(s: seq<Token>, tags: set<string>, seen: set<string>, t: string)
    requires t in tags
    ensures CountTag(FirstOnly(s, tags, seen), t) == if t in seen || CountTag(s, t) == 0 then 0 else 1
  {
    if s != [] {
      if s[0].tag in tags && s[0].tag in seen {
        FirstOnlyCount(s[1..], tags, seen, t);
      } else {
        FirstOnlyCount(s[1..], tags, seen + {s[0].tag}, t);
      }
    }
  }

  /** The token carrying a tag first in the input is still the first one carrying it. */
  lemma {:induction false} FirstOnlyKeepsFirst(s: seq<Token>, tags: set<string>, seen: set<string>, t: string)
    requires t !in tags || t !in seen
    requires FirstIndexOfTag(s, t) >= 0
    ensures FirstIndexOfTag(FirstOnly(s, tags, seen), t) >= 0
    ensures FirstOnly(s, tags, seen)[FirstIndexOfTag(FirstOnly(s, tags, seen), t)] == s[FirstIndexOfTag(s, t)]
  {
    if s[0].tag != t {
      var u := s[1..];
      var k := FirstIndexOfTag(u, t);
      assert FirstIndexOfTag(s, t) == k + 1 && s[k + 1] == u[k];
      if s[0].tag in tags && s[0].tag in seen {
        FirstOnlyKeepsFirst(u, tags, seen, t);
      } else {
        var f := FirstOnly(u, tags, seen + {s[0].tag});
        FirstOnlyKeepsFirst(u, tags, seen + {s[0].tag}, t);
        var g := [s[0]] + f;
        assert FirstOnly(s, tags, seen) == g;
        assert g[1..] == f;
        assert FirstIndexOfTag(g, t) == FirstIndexOfTag(f, t) + 1;
      }
    }
  }

  /** Tokens with other tags are all kept, in their relative order. */
  lemma {:induction false} FirstOnlyKeepsOthers(s: seq<Token>, tags: set<string>, seen: set<string>)
    ensures WithoutAll(FirstOnly(s, tags, seen), tags) == WithoutAll(s, tags)
  {
    if s != [] {
      if s[0].tag in tags && s[0].tag in seen {
        FirstOnlyKeepsOthers(s[1..], tags, seen);
      } else {
        FirstOnlyKeepsOthers(s[1..], tags, seen + {s[0].tag});
      }
    }
  }

  /** Appending to the list being reduced, as the `forEach` with `lastOrNull` does. */
  lemma {:induction false} CollapseSnoc(p: seq<Token>, x: Token)
    ensures Collapse(p + [x]) == if |p| > 0 && p[|p| - 1] == x then Collapse(p) else Collapse(p) + [x]
    decreases |p|
  {
    if |p| >= 2 {
      assert (p + [x])[1..] == p[1..] + [x];
      CollapseSnoc(p[1..], x);
    } else if |p| == 1 {
      assert p + [x] == [p[0], x];
    }
  }

  lemma {:induction false} CollapseNoAdjacent(s: seq<Token>)
    ensures NoAdjacentDuplicates(Collapse(s))
    decreases |s|
  {
    if |s| > 1 {
      CollapseNoAdjacent(s[1..]);
    }
  }

  /** Collapsing never removes the last token of a tag, and never adds one. */
  lemma {:induction false} CollapseCount(s: seq<Token>, t: string)
    ensures CountTag(Collapse(s), t) <= CountTag(s, t)
    ensures CountTag(s, t) > 0 ==> CountTag(Collapse(s), t) > 0
    decreases |s|
  {
    if |s| > 1 {
      CollapseCount(s[1..], t);
    }
  }

  /** Collapsing keeps the first token carrying each tag. */
  lemma {:induction false} CollapseKeepsFirst(s: seq<Token>, t: string)
    requires FirstIndexOfTag(s, t) >= 0
    ensures FirstIndexOfTag(Collapse(s), t) >= 0
    ensures Collapse(s)[FirstIndexOfTag(Collapse(s), t)] == s[FirstIndexOfTag(s, t)]
    decreases |s|
  {
    if |s| > 1 {
      if s[0] == s[1] {
        CollapseKeepsFirst(s[1..], t);
      } else if s[0].tag != t {
        CollapseKeepsFirst(s[1..], t);
      }
    }
  }

  /**
   * After `DuplicateTokenTransformer` every analyzer tag is carried by one token
   * if the input had any, by none otherwise; that token is the first input
   * token with the tag; and no two adjacent tokens are equal.
   */
  lemma DeduplicatedCarriers(c: Constants, s: seq<Token>, t: string)
    requires Valid(c)
    requires t in AnalyzerTagSet(c)
    ensures CountTag(Deduplicated(c, s), t) == if CountTag(s, t) == 0 then 0 else 1
    ensures FirstIndexOfTag(s, t) >= 0 ==>
      FirstIndexOfTag(Deduplicated(c, s), t) >= 0 &&
      Deduplicated(c, s)[FirstIndexOfTag(Deduplicated(c, s), t)] == s[FirstIndexOfTag(s, t)]
    ensures NoAdjacentDuplicates(Deduplicated(c, s))
  {
    var f := KeepFirstEach(AnalyzerTags(c), s);
    FirstOccurrencePass(c, s);
    FirstOnlyCount(s, AnalyzerTagSet(c), {}, t);
    CollapseCount(f, t);
    if FirstIndexOfTag(s, t) >= 0 {
      FirstOnlyKeepsFirst(s, AnalyzerTagSet(c), {}, t);
      CollapseKeepsFirst(f, t);
    }
    CollapseNoAdjacent(f);
  }

  /** The last token survives the reference pass unless an earlier token shares its deduped tag. */
  lemma {:induction false} FirstOnlyKeepsLast(s: seq<Token>, tags: set<string>, seen: set<string>)
    requires |s| > 0
    requires s[|s| - 1].tag !in tags ||
      (s[|s| - 1].tag !in seen && forall i :: 0 <= i < |s| - 1 ==> s[i].tag != s[|s| - 1].tag)
    ensures var r := FirstOnly(s, tags, seen); |r| > 0 && r[|r| - 1] == s[|s| - 1]
  {
    if |s| > 1 {
      var x := s[0];
      assert s[1..][|s| - 2] == s[|s| - 1];
      if x.tag in tags && x.tag in seen {
        FirstOnlyKeepsLast(s[1..], tags, seen);
      } else {
        FirstOnlyKeepsLast(s[1..], tags, seen + {x.tag});
      }
    }
  }

  /**
   * Deduplication keeps the last token in place when its tag is no analyzer tag
   * or no earlier token carries that tag.
   */
  lemma DeduplicatedKeepsLast(c: Constants, s: seq<Token>)
    requires Valid(c)
    requires |s| > 0
    requires s[|s| - 1].tag !in AnalyzerTagSet(c) || forall i :: 0 <= i < |s| - 1 ==> s[i].tag != s[|s| - 1].tag
    ensures var r := Deduplicated(c, s); |r| > 0 && r[|r| - 1] == s[|s| - 1]
  {
    FirstOccurrencePass(c, s);
    FirstOnlyKeepsLast(s, AnalyzerTagSet(c), {});
  }

  /** Before the collapse, tokens with other tags are untouched and in order. */
  lemma FirstOccurrenceKeepsOthers(c: Constants, s: seq<Token>)
    requires Valid(c)
    ensures WithoutAll(KeepFirstEach(AnalyzerTags(c), s), AnalyzerTagSet(c)) == WithoutAll(s, AnalyzerTagSet(c))
  {
    FirstOccurrencePass(c, s);
    FirstOnlyKeepsOthers(s, AnalyzerTagSet(c), {});
  }

  /** The first loop of `DuplicateTokenTransformer.transform`: remove every carrier, re-insert the first. */
  method FirstOccurrences(c: Constants, tokens: seq<Token>) returns (filtered: seq<Token>)
    ensures filtered == KeepFirstEach(AnalyzerTags(c), tokens)
  {
    filtered := tokens;
    var tags := AnalyzerTags(c);
    for k := 0 to |tags|
      invariant KeepFirstEach(tags[k..], filtered) == KeepFirstEach(tags, tokens)
    {
      var tag := tags[k];
      var index := FirstIndexOfTag(filtered, tag);
      if index != -1 {
        var first := filtered[index];
        KeepFirstByReinsertion(filtered, tag, index);
        filtered := Without(filtered, tag);
        filtered := filtered[..index] + [first] + filtered[index..];
      } else {
        KeepFirstAbsent(filtered, tag);
      }
      assert tags[k..][1..] == tags[k + 1..];
    }
    assert tags[|tags|..] == [];
  }

  /** The second loop of `DuplicateTokenTransformer.transform`: append unless equal to the last. */
  method CollapseRepeats(filtered: seq<Token>) returns (reduced: seq<Token>)
    ensures reduced == Collapse(filtered)
  {
    reduced := [];
    for i := 0 to |filtered|
      invariant reduced == Collapse(filtered[..i])
    {
      var it := filtered[i];
      ghost var p := filtered[..i];
      assert filtered[..i + 1] == p + [it];
      CollapseSnoc(p, it);
      if |reduced| == 0 || reduced[|reduced| - 1] != it {
        reduced := reduced + [it];
      }
    }
    assert filtered[..|filtered|] == filtered;
  }

  /** `DuplicateTokenTransformer.transform`. */
  method DuplicateTokenTransform(c: Constants, tokens: seq<Token>) returns (reduced: seq<Token>)
    ensures reduced == Deduplicated(c, tokens)
  {
    var filtered := FirstOccurrences(c, tokens);
    reduced := CollapseRepeats(filtered);
  }

  // ---------------------------------------------------------------------------
  // StartTokenTransformer

  /** START before a WH or verb opening, ANY before any other opening except ANY's tag. */
  function StartMarked(c: Constants, s: seq<Token>): seq<Token>
    requires |s| > 0
  {
    if s[0].tag == c.whtag || s[0].tag == c.vtag then [START] + s
    else if s[0].tag != "*" then [ANY] + s
    else s
  }

  /** `StartTokenTransformer.transform`. */
  method StartTokenTransform(c: Constants, analyzedTokens: seq<Token>) returns (tokens: seq<Token>)
    requires |analyzedTokens| > 0
    ensures tokens == StartMarked(c, analyzedTokens)
    ensures tokens[1..] == analyzedTokens || tokens == analyzedTokens
  {
    var tag := analyzedTokens[0].tag;
    tokens := analyzedTokens;
    if tag == c.whtag || tag == c.vtag {
      tokens := [START] + tokens;
    } else if tag != "*" {
      tokens := [ANY] + tokens;
    }
  }

  // ---------------------------------------------------------------------------
  // FillTokenTransformer

  function Repeat(t: Token, n: nat): seq<Token>
  {
    seq(n, _ => t)
  }

  /** ANY tokens inserted just before the last token until there are WIDTH. */
  function Filled(s: seq<Token>): seq<Token>
    requires |s| > 0
  {
    if |s| >= WIDTH then s else s[..|s| - 1] + Repeat(ANY, WIDTH - |s|) + [s[|s| - 1]]
  }

  /** `FillTokenTransformer.transform`: the while loop inserting at `size - 1`. */
  method FillTokenTransform(analyzedTokens: seq<Token>) returns (tokens: seq<Token>)
    requires |analyzedTokens| > 0
    ensures tokens == Filled(analyzedTokens)
    ensures |tokens| == if |analyzedTokens| >= WIDTH then |analyzedTokens| else WIDTH
    ensures tokens[|tokens| - 1] == analyzedTokens[|analyzedTokens| - 1]
    ensures analyzedTokens[..|analyzedTokens| - 1] <= tokens
  {
    var n := |analyzedTokens|;
    tokens := analyzedTokens;
    assert analyzedTokens == analyzedTokens[..n - 1] + Repeat(ANY, 0) + [analyzedTokens[n - 1]];
    while |tokens| < WIDTH
      invariant n <= |tokens| && (|tokens| <= WIDTH || tokens == analyzedTokens)
      invariant tokens == analyzedTokens[..n - 1] + Repeat(ANY, |tokens| - n) + [analyzedTokens[n - 1]]
      decreases WIDTH - |tokens|
    {
      ghost var pad := Repeat(ANY, |tokens| - n);
      tokens := tokens[..|tokens| - 1] + [ANY] + tokens[|tokens| - 1..];
      assert pad + [ANY] == Repeat(ANY, |tokens| - n);
    }
  }

  // ---------------------------------------------------------------------------
  // EndTokenTransformer

  /** The last token rewritten by its text: "?" to QM, "!" to EM, the terminator tag to DT. */
  function EndToken(c: Constants, t: Token): Token
  {
    if t.text == "?" then QM(c)
    else if t.text == "!" then EM(c)
    else if t.text == c.itag then DT(c)
    else t
  }

  function EndMarked(c: Constants, s: seq<Token>): seq<Token>
    requires |s| > 0
  {
    s[..|s| - 1] + [EndToken(c, s[|s| - 1])]
  }

  /** `EndTokenTransformer.transform`: three tests on the last text, each a set of the last slot. */
  method EndTokenTransform(c: Constants, analyzedTokens: seq<Token>) returns (tokens: seq<Token>)
    requires Valid(c)
    requires |analyzedTokens| > 0
    ensures tokens == EndMarked(c, analyzedTokens)
    ensures |tokens| == |analyzedTokens|
    ensures forall i :: 0 <= i < |tokens| - 1 ==> tokens[i] == analyzedTokens[i]
  {
    tokens := analyzedTokens;
    var token := tokens[|tokens| - 1].text;
    if token == "?" {
      tokens := tokens[|tokens| - 1 := QM(c)];
    }
    if token == "!" {
      tokens := tokens[|tokens| - 1 := EM(c)];
    }
    if token == c.itag {
      tokens := tokens[|tokens| - 1 := DT(c)];
    }
  }

  // ---------------------------------------------------------------------------
  // The fold through the stage list

  function AfterStage(c: Constants, stage: Stage, s: seq<Token>): (r: seq<Token>)
    requires |s| > 0
    ensures |r| > 0
  {
    match stage
    case Relevant => RelevanceFiltered(c, s)
    case Duplicate => Deduplicated(c, s)
    case StartMark => StartMarked(c, s)
    case Fill => Filled(s)
    case EndMark => EndMarked(c, s)
  }

  function AfterStages(c: Constants, stages: seq<Stage>, s: seq<Token>): (r: seq<Token>)
    requires |s| > 0
    ensures |r| > 0
  {
    if stages == [] then s else AfterStages(c, stages[1..], AfterStage(c, stages[0], s))
  }

  /** The analyzed pairs after every stage of the revision. */
  function Features(c: Constants, tokens: seq<string>, tags: seq<string>): seq<Token>
    requires Feasible(c, tokens, tags)
  {
    AfterStages(c, c.stages, Analyzed(c, tokens, tags))
  }

  method ApplyStage(c: Constants, stage: Stage, analyzedTokens: seq<Token>) returns (tokens: seq<Token>)
    requires Valid(c)
    requires |analyzedTokens| > 0
    ensures tokens == AfterStage(c, stage, analyzedTokens)
  {
    match stage
    case Relevant => tokens := RelevantTokenTransform(c, analyzedTokens);
    case Duplicate => tokens := DuplicateTokenTransform(c, analyzedTokens);
    case StartMark => tokens := StartTokenTransform(c, analyzedTokens);
    case Fill => tokens := FillTokenTransform(analyzedTokens);
    case EndMark => tokens := EndTokenTransform(c, analyzedTokens);
  }

  /** `mapToAnalyzed`, then `analyzedTokens = transformer.transform(analyzedTokens)` per stage. */
  method Pipeline(c: Constants, tokens: seq<string>, tags: seq<string>) returns (analyzedTokens: seq<Token>)
    requires Valid(c)
    requires Feasible(c, tokens, tags)
    ensures analyzedTokens == Features(c, tokens, tags)
  {
    analyzedTokens := MapToAnalyzed(c, tokens, tags);
    for k := 0 to |c.stages|
      invariant |analyzedTokens| > 0
      invariant AfterStages(c, c.stages[k..], analyzedTokens) == Features(c, tokens, tags)
    {
      AfterStagesStep(c, c.stages, k, analyzedTokens);
      analyzedTokens := ApplyStage(c, c.stages[k], analyzedTokens);
    }
    assert c.stages[|c.stages|..] == [];
  }

  /** One step of the fold: the stages from `k` are stage `k`, then the stages after it. */
  lemma AfterStagesStep(c: Constants, stages: seq<Stage>, k: nat, s: seq<Token>)
    requires k < |stages| && |s| > 0
    ensures AfterStages(c, stages[k..], s) == AfterStages(c, stages[k + 1..], AfterStage(c, stages[k], s))
  {
    assert stages[k..][0] == stages[k];
    assert stages[k..][1..] == stages[k + 1..];
  }

  /** The fold through the full five-stage list. */
  lemma FoldFiveStages(c: Constants, s: seq<Token>)
    requires |s| > 0
    requires c.stages == [Relevant, Duplicate, StartMark, Fill, EndMark]
    ensures AfterStages(c, c.stages, s) == EndMarked(c, Filled(StartMarked(c, Deduplicated(c, RelevanceFiltered(c, s)))))
  {
    var s1 := RelevanceFiltered(c, s);
    var s2 := Deduplicated(c, s1);
    var s3 := StartMarked(c, s2);
    var s4 := Filled(s3);
    FoldLastTwo(c, s3);
    assert [StartMark, Fill, EndMark][1..] == [Fill, EndMark];
    assert AfterStages(c, [StartMark, Fill, EndMark], s2) == EndMarked(c, s4);
    assert [Duplicate, StartMark, Fill, EndMark][1..] == [StartMark, Fill, EndMark];
    assert AfterStages(c, [Duplicate, StartMark, Fill, EndMark], s1) == EndMarked(c, s4);
    assert c.stages[1..] == [Duplicate, StartMark, Fill, EndMark];
  }

  lemma FoldLastTwo(c: Constants, s: seq<Token>)
    requires |s| > 0
    ensures AfterStages(c, [Fill, EndMark], s) == EndMarked(c, Filled(s))
  {
    var f := Filled(s);
    assert [Fill, EndMark][1..] == [EndMark];
    assert AfterStages(c, [Fill, EndMark], s) == AfterStages(c, [EndMark], f);
    assert [EndMark][1..] == [];
    assert AfterStages(c, [EndMark], f) == AfterStages(c, [], EndMarked(c, f));
  }

  /** The fold through a four-stage list without end marking. */
  lemma FoldFourStages(c: Constants, s: seq<Token>)
    requires |s| > 0
    requires c.stages == [Relevant, Duplicate, StartMark, Fill]
    ensures AfterStages(c, c.stages, s) == Filled(StartMarked(c, Deduplicated(c, RelevanceFiltered(c, s))))
  {
    var s1 := RelevanceFiltered(c, s);
    var s2 := Deduplicated(c, s1);
    var s3 := StartMarked(c, s2);
    assert [Fill][1..] == [];
    assert AfterStages(c, [Fill], s3) == Filled(s3);
    assert [StartMark, Fill][1..] == [Fill];
    assert AfterStages(c, [StartMark, Fill], s2) == Filled(s3);
    assert [Duplicate, StartMark, Fill][1..] == [StartMark, Fill];
    assert AfterStages(c, [Duplicate, StartMark, Fill], s1) == Filled(s3);
    assert c.stages[1..] == [Duplicate, StartMark, Fill];
  }

  /**
   * Through the five stages the last token ends up end-marked, provided
   * relevance keeps it and no earlier token shares its tag afterwards.
   */
  lemma FiveStagesLast(c: Constants, tokens: seq<string>, tags: seq<string>)
    requires Valid(c)
    requires Feasible(c, tokens, tags)
    requires c.stages == [Relevant, Duplicate, StartMark, Fill, EndMark]
    requires var s := Analyzed(c, tokens, tags); var r := RelevanceFiltered(c, s);
      r[|r| - 1] == s[|s| - 1] && forall i :: 0 <= i < |r| - 1 ==> r[i].tag != r[|r| - 1].tag
    ensures var s := Analyzed(c, tokens, tags); var e := Features(c, tokens, tags);
      e[|e| - 1] == EndToken(c, s[|s| - 1])
  {
    var s := Analyzed(c, tokens, tags);
    var r := RelevanceFiltered(c, s);
    LastFourStagesLast(c, r);
    FoldFiveStages(c, s);
  }

  /** The stages after relevance end-mark the last token when no earlier token shares its tag. */
  lemma LastFourStagesLast(c: Constants, r: seq<Token>)
    requires Valid(c)
    requires |r| > 0
    requires forall i :: 0 <= i < |r| - 1 ==> r[i].tag != r[|r| - 1].tag
    ensures var e := EndMarked(c, Filled(StartMarked(c, Deduplicated(c, r)))); e[|e| - 1] == EndToken(c, r[|r| - 1])
  {
    DeduplicatedKeepsLast(c, r);
    var d := Deduplicated(c, r);
    var st := StartMarked(c, d);
    assert st[|st| - 1] == d[|d| - 1];
    var f := Filled(st);
    FilledShape(st);
  }

  // ---------------------------------------------------------------------------
  // render

  /** `(text/tag)`, or `(tag)` for a token without text. */
  function Render(t: Token): string
  {
    if |t.text| > 0 then "(" + t.text + "/" + t.tag + ")" else "(" + t.tag + ")"
  }

  /** `map { render(it) }`: one rendered string per token, in order. */
  function Rendered(s: seq<Token>): (r: seq<string>)
    ensures |r| == |s|
  {
    seq(|s|, i requires 0 <= i < |s| => Render(s[i]))
  }

  // ---------------------------------------------------------------------------
  // Properties of the stages shared by the revisions

  /** Padding never truncates: the result has max(WIDTH, n) tokens and ends with the old last one. */
  lemma FilledShape(s: seq<Token>)
    requires |s| > 0
    ensures |Filled(s)| == if |s| >= WIDTH then |s| else WIDTH
    ensures Filled(s)[|Filled(s)| - 1] == s[|s| - 1]
    ensures forall i :: 0 <= i < |s| - 1 ==> Filled(s)[i] == s[i]
    ensures forall i :: |s| - 1 <= i < |Filled(s)| - 1 ==> Filled(s)[i] == ANY
  {
  }

  /**
   * The first token after start marking and padding is START or ANY, provided
   * a token tagged like ANY is ANY (start marking leaves such a list alone).
   */
  lemma StartFillHead(c: Constants, s: seq<Token>)
    requires |s| > 0
    requires s[0].tag == "*" ==> s[0] == ANY
    ensures Filled(StartMarked(c, s))[0] == START || Filled(StartMarked(c, s))[0] == ANY
  {
  }

  /** A stage list ending in start marking and padding, perhaps then end marking, gives at least WIDTH tokens. */
  lemma {:induction false} AtLeastWidth(c: Constants, stages: seq<Stage>, s: seq<Token>)
    requires |s| > 0
    requires |stages| >= 1 && (stages[|stages| - 1] == Fill ||
      (|stages| >= 2 && stages[|stages| - 2] == Fill && stages[|stages| - 1] == EndMark))
    ensures |AfterStages(c, stages, s)| >= WIDTH
  {
    if |stages| == 1 {
      assert AfterStages(c, stages[1..], Filled(s)) == Filled(s);
    } else if |stages| == 2 && stages[0] == Fill && stages[1] == EndMark {
      var f := Filled(s);
      assert stages[1..] == [EndMark] && [EndMark][1..] == [];
      assert AfterStages(c, stages, s) == EndMarked(c, f);
    } else {
      AtLeastWidth(c, stages[1..], AfterStage(c, stages[0], s));
    }
  }
}
