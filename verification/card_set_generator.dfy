/** The pure word handling of the card set generator: the check on the two
    language codes, the English-only gate, and the removal of the pieces
    that splitting English contractions at the apostrophe leaves behind in a
    frequency word list. */
module CardSetGenerator {
  import opened Wrappers

  const Apostrophe: char := '\''

  /** The keys of the contraction table, in table order. The table is one
      literal in the program; it is cut here into nine runs of thirteen keys
      only so that a fact about every key can be checked one run at a time
      (see NoKeyStartsHelOrCar). */
  const Contractions: seq<string> :=
    Contractions1 + Contractions2 + Contractions3 + Contractions4 + Contractions5
    + Contractions6 + Contractions7 + Contractions8 + Contractions9

  const Contractions1: seq<string> := [
      "ain't", "aren't", "can't", "can't've", "'cause", "could've", "couldn't",
      "couldn't've", "didn't", "doesn't", "don't", "hadn't", "hadn't've"
    ]

  const Contractions2: seq<string> := [
      "hasn't", "haven't", "he'd", "he'd've", "he'll", "he'll've", "he's", "how'd",
      "how'd'y", "how'll", "how's", "I'd", "I'd've"
    ]

  const Contractions3: seq<string> := [
      "I'll", "I'll've", "I'm", "I've", "isn't", "it'd", "it'd've", "it'll", "it'll've",
      "it's", "let's", "ma'am", "mayn't"
    ]

  const Contractions4: seq<string> := [
      "might've", "mightn't", "mightn't've", "must've", "mustn't", "mustn't've",
      "needn't", "needn't've", "o'clock", "oughtn't", "oughtn't've", "shan't", "sha'n't"
    ]

  const Contractions5: seq<string> := [
      "shan't've", "she'd", "she'd've", "she'll", "she'll've", "she's", "should've",
      "shouldn't", "shouldn't've", "so've", "so's", "that'd", "that'd've"
    ]

  const Contractions6: seq<string> := [
      "that's", "there'd", "there'd've", "there's", "they'd", "they'd've", "they'll",
      "they'll've", "they're", "they've", "to've", "wasn't", "we'd"
    ]

  const Contractions7: seq<string> := [
      "we'd've", "we'll", "we'll've", "we're", "we've", "weren't", "what'll",
      "what'll've", "what're", "what's", "what've", "when's", "when've"
    ]

  const Contractions8: seq<string> := [
      "where'd", "where's", "where've", "who'll", "who'll've", "who's", "who've", "why's",
      "why've", "will've", "won't", "won't've", "would've"
    ]

  const Contractions9: seq<string> := [
      "wouldn't", "wouldn't've", "y'all", "y'all'd", "y'all'd've", "y'all're", "y'all've",
      "you'd", "you'd've", "you'll", "you'll've", "you're", "you've"
    ]

  /** Words that are pieces of contractions but are real words of their own. */
  const Exceptions: seq<string> := [
      "it", "would", "could", "that", "won", "must", "who", "why", "should", "he", "I",
      "where", "will", "might", "there", "they", "to", "when", "so", "can", "we", "let",
      "you", "she", "how", "what"
    ]

  /** `sep.join(parts)`. */
  function Join(parts: seq<string>, sep: char): string
    requires |parts| >= 1
  {
    if |parts| == 1 then parts[0] else parts[0] + [sep] + Join(parts[1..], sep)
  }

  /** `s.split(sep)`: the pieces between separators, empty ones included;
      there is always at least one piece. */
  function Split(s: string, sep: char): (parts: seq<string>)
    ensures |parts| >= 1
    ensures forall i :: 0 <= i < |parts| ==> sep !in parts[i]
  {
    if s == [] then [""]
    else
      var rest := Split(s[1..], sep);
      if s[0] == sep then [""] + rest
      else [[s[0]] + rest[0]] + rest[1..]
  }

  /** Splitting and joining again with the same separator gives back the
      text, so the pieces are exactly the separator-free stretches. */
  lemma {:induction false} JoinSplit(s: string, sep: char)
    ensures Join(Split(s, sep), sep) == s
  {
    if s != [] {
      var rest := Split(s[1..], sep);
      JoinSplit(s[1..], sep);
      var parts := Split(s, sep);
      if s[0] == sep {
        assert parts[1..] == rest;
      } else if |rest| == 1 {
        assert parts == [[s[0]] + rest[0]];
      } else {
        assert parts[1..] == rest[1..];
        assert Join(rest, sep) == rest[0] + [sep] + Join(rest[1..], sep);
      }
    }
  }

  /** The first piece of a split is the text up to the first separator. */
  lemma {:induction false} FirstPieceIsPrefix(s: string, sep: char)
    ensures var p := Split(s, sep)[0];
            |p| <= |s| && s[..|p|] == p && (|p| == |s| || s[|p|] == sep)
  {
    if s != [] {
      FirstPieceIsPrefix(s[1..], sep);
    }
  }

  /** Text without a separator splits into itself. */
  lemma {:induction false} SplitSeparatorFree(a: string, sep: char)
    requires sep !in a
    ensures Split(a, sep) == [a]
  {
    if a != [] {
      SplitSeparatorFree(a[1..], sep);
      assert a == [a[0]] + a[1..];
    }
  }

  /** Splitting cuts at the first separator and goes on with the rest. */
  lemma {:induction false} SplitAtFirstSeparator(a: string, b: string, sep: char)
    requires sep !in a
    ensures Split(a + [sep] + b, sep) == [a] + Split(b, sep)
  {
    var s := a + [sep] + b;
    if a == [] {
      assert s[1..] == b;
    } else {
      assert s[1..] == a[1..] + [sep] + b;
      SplitAtFirstSeparator(a[1..], b, sep);
      assert a == [a[0]] + a[1..];
    }
  }

  /** The filter entry for piece `i` of a key: the first piece as it is,
      every later one with its apostrophe put back in front. */
  function Piece(key: string, i: nat): string
    requires i < |Split(key, Apostrophe)|
  {
    var parts := Split(key, Apostrophe);
    if i == 0 then parts[0] else [Apostrophe] + parts[i]
  }

  /** The filter list: every piece of every key, except the exceptions and
      the empty string. */
  function FilterList(keys: seq<string>, exceptions: seq<string>): (f: set<string>)
    ensures forall e :: e in f ==> e !in exceptions && e != ""
    ensures forall e :: e in f ==>
              exists k, i :: k in keys && 0 <= i < |Split(k, Apostrophe)| && e == Piece(k, i)
    ensures forall k, i :: (k in keys && 0 <= i < |Split(k, Apostrophe)|
                            && Piece(k, i) !in exceptions && Piece(k, i) != "") ==> Piece(k, i) in f
  {
    set k, i | k in keys && 0 <= i < |Split(k, Apostrophe)|
                 && Piece(k, i) !in exceptions && Piece(k, i) != "" :: Piece(k, i)
  }

  /** An entry of the filter list without a leading apostrophe is the part
      of some key before its first apostrophe. */
  lemma FilterEntryOrigin(keys: seq<string>, exceptions: seq<string>, e: string)
    requires e in FilterList(keys, exceptions) && (e == [] || e[0] != Apostrophe)
    ensures exists k :: k in keys && |e| <= |k| && k[..|e|] == e
                        && (|e| == |k| || k[|e|] == Apostrophe)
  {
    var k, i :| k in keys && 0 <= i < |Split(k, Apostrophe)| && e == Piece(k, i);
    assert i == 0;
    FirstPieceIsPrefix(k, Apostrophe);
  }

  /** `[word for word in words if word not in filter]`. */
  function Keep(words: seq<string>, filter: set<string>): (r: seq<string>)
    ensures forall w :: w in r <==> w in words && w !in filter
  {
    if words == [] then []
    else
      var rest := Keep(words[1..], filter);
      assert words == [words[0]] + words[1..];
      if words[0] in filter then rest
      else
        assert ([words[0]] + rest)[1..] == rest;
        [words[0]] + rest
  }

  /** `a` is obtained from `b` by deleting elements. */
  ghost predicate IsSubsequence<T>(a: seq<T>, b: seq<T>)
    decreases |b|
  {
    if a == [] then true
    else if b == [] then false
    else (a[0] == b[0] && IsSubsequence(a[1..], b[1..])) || IsSubsequence(a, b[1..])
  }

  /** A word that is not filtered keeps its number of occurrences; a
      filtered word has none left. */
  lemma {:induction false} KeepCounts(words: seq<string>, filter: set<string>, w: string)
    ensures multiset(Keep(words, filter))[w] == if w in filter then 0 else multiset(words)[w]
  {
    if words != [] {
      KeepCounts(words[1..], filter, w);
      KeepFirst(words[0], words[1..], filter);
      assert words == [words[0]] + words[1..];
    }
  }

  /** Filtering only deletes words: the survivors keep their order. */
  lemma {:induction false} KeepIsSubsequence(words: seq<string>, filter: set<string>)
    ensures IsSubsequence(Keep(words, filter), words)
  {
    if words != [] {
      var rest := Keep(words[1..], filter);
      KeepIsSubsequence(words[1..], filter);
      KeepFirst(words[0], words[1..], filter);
      assert words == [words[0]] + words[1..];
      if words[0] !in filter {
        assert ([words[0]] + rest)[1..] == rest;
      }
    }
  }

  /** Filtering changes nothing when no word is in the filter. */
  lemma {:induction false} KeepUnchanged(words: seq<string>, filter: set<string>)
    requires forall w :: w in words ==> w !in filter
    ensures Keep(words, filter) == words
  {
    if words != [] {
      KeepUnchanged(words[1..], filter);
      assert words == [words[0]] + words[1..];
    }
  }

  /** Filtering twice is filtering once. */
  lemma KeepIdempotent(words: seq<string>, filter: set<string>)
    ensures Keep(Keep(words, filter), filter) == Keep(words, filter)
  {
    KeepUnchanged(Keep(words, filter), filter);
  }

  /** `_remove_contraction_leftovers`: the words that are not leftovers of
      a contraction, in their order. */
  function RemoveContractionLeftovers(words: seq<string>): (r: seq<string>)
    ensures forall w :: w in r <==> w in words && w !in FilterList(Contractions, Exceptions)
  {
    Keep(words, FilterList(Contractions, Exceptions))
  }

  /** Every piece of every contraction that is neither an exception nor
      empty is removed wherever it occurs in the words. */
  lemma LeftoverRemoved(words: seq<string>, k: string, i: nat)
    requires k in Contractions && i < |Split(k, Apostrophe)|
    requires Piece(k, i) !in Exceptions && Piece(k, i) != ""
    ensures Piece(k, i) !in RemoveContractionLeftovers(words)
  {
  }

  /** Exceptions such as "it" or "you" always survive the filter, and so
      does the empty word. */
  lemma ExceptionsSurvive(words: seq<string>, w: string)
    requires w in words && (w in Exceptions || w == "")
    ensures w in RemoveContractionLeftovers(words)
  {
  }

  /** Starts with "hel" or "car". The nine lemmas after it state, one run of
      keys each, that no contraction key does; NoKeyStartsHelOrCar puts them
      together. */
  predicate StartsHelOrCar(k: string) {
    |k| >= 3 && ((k[0] == 'h' && k[1] == 'e' && k[2] == 'l') || (k[0] == 'c' && k[1] == 'a' && k[2] == 'r'))
  }

  lemma NoKeyStartsHelOrCar1()
    ensures forall k :: k in Contractions1 ==> !StartsHelOrCar(k)
  {
  }

  lemma NoKeyStartsHelOrCar2()
    ensures forall k :: k in Contractions2 ==> !StartsHelOrCar(k)
  {
  }

  lemma NoKeyStartsHelOrCar3()
    ensures forall k :: k in Contractions3 ==> !StartsHelOrCar(k)
  {
  }

  lemma NoKeyStartsHelOrCar4()
    ensures forall k :: k in Contractions4 ==> !StartsHelOrCar(k)
  {
  }

  lemma NoKeyStartsHelOrCar5()
    ensures forall k :: k in Contractions5 ==> !StartsHelOrCar(k)
  {
  }

  lemma NoKeyStartsHelOrCar6()
    ensures forall k :: k in Contractions6 ==> !StartsHelOrCar(k)
  {
  }

  lemma NoKeyStartsHelOrCar7()
    ensures forall k :: k in Contractions7 ==> !StartsHelOrCar(k)
  {
  }

  lemma NoKeyStartsHelOrCar8()
    ensures forall k :: k in Contractions8 ==> !StartsHelOrCar(k)
  {
  }

  lemma NoKeyStartsHelOrCar9()
    ensures forall k :: k in Contractions9 ==> !StartsHelOrCar(k)
  {
  }

  /** No key of the table starts with "hel" or "car". */
  lemma NoKeyStartsHelOrCar(k: string)
    requires k in Contractions
    ensures !StartsHelOrCar(k)
  {
    NoKeyStartsHelOrCar1(); NoKeyStartsHelOrCar2(); NoKeyStartsHelOrCar3();
    NoKeyStartsHelOrCar4(); NoKeyStartsHelOrCar5(); NoKeyStartsHelOrCar6();
    NoKeyStartsHelOrCar7(); NoKeyStartsHelOrCar8(); NoKeyStartsHelOrCar9();
  }

  /** A filter entry of three or more characters without a leading
      apostrophe is the start of a key, so it does not start with "hel" or
      "car" either. */
  lemma NoEntryStartsHelOrCar(e: string)
    requires |e| >= 3 && e[0] != Apostrophe
    ensures e in FilterList(Contractions, Exceptions) ==> !StartsHelOrCar(e)
  {
    if e in FilterList(Contractions, Exceptions) {
      FilterEntryOrigin(Contractions, Exceptions, e);
      var k :| k in Contractions && |e| <= |k| && k[..|e|] == e
               && (|e| == |k| || k[|e|] == Apostrophe);
      assert k[..|e|][0] == k[0] && k[..|e|][1] == k[1] && k[..|e|][2] == k[2];
      NoKeyStartsHelOrCar(k);
    }
  }

  /** "hello" and "car" are not in the filter list. */
  lemma FilterLacksHelloAndCar()
    ensures "hello" !in FilterList(Contractions, Exceptions)
    ensures "car" !in FilterList(Contractions, Exceptions)
  {
    NoEntryStartsHelOrCar("hello");
    NoEntryStartsHelOrCar("car");
    assert StartsHelOrCar("hello") && StartsHelOrCar("car");
  }

  /** A key with one apostrophe splits into the text before it and the
      text after it. */
  lemma SplitOnce(a: string, b: string)
    requires Apostrophe !in a && Apostrophe !in b
    ensures Split(a + [Apostrophe] + b, Apostrophe) == [a, b]
  {
    SplitAtFirstSeparator(a, b, Apostrophe);
    SplitSeparatorFree(b, Apostrophe);
  }

  lemma ExampleKeys()
    ensures "isn't" in Contractions && "he'll" in Contractions
  {
    assert "he'll" in Contractions2 && "isn't" in Contractions3;
  }

  /** "isn", "'t" and "'ll" are in the filter list: they are pieces of
      "isn't" and "he'll". */
  lemma IsnIsFiltered()
    ensures "isn" in FilterList(Contractions, Exceptions)
  {
    assert "isn't" == "isn" + [Apostrophe] + "t";
    SplitOnce("isn", "t");
    ExampleKeys();
    assert Piece("isn't", 0) == "isn";
    assert "isn" !in Exceptions;
  }

  lemma TIsFiltered()
    ensures "'t" in FilterList(Contractions, Exceptions)
  {
    assert "isn't" == "isn" + [Apostrophe] + "t";
    SplitOnce("isn", "t");
    ExampleKeys();
    assert Piece("isn't", 1) == "'t";
    assert "'t" !in Exceptions;
  }

  lemma LlIsFiltered()
    ensures "'ll" in FilterList(Contractions, Exceptions)
  {
    assert "he'll" == "he" + [Apostrophe] + "ll";
    SplitOnce("he", "ll");
    ExampleKeys();
    assert Piece("he'll", 1) == "'ll";
    assert "'ll" !in Exceptions;
  }

  /** The filter example of the generator's tests: the leftovers "isn",
      "'ll" and "'t" go, "hello" and "car" stay, in order. */
  lemma RemovalExample()
    ensures RemoveContractionLeftovers(["hello", "car", "isn", "'ll", "'t"]) == ["hello", "car"]
  {
    IsnIsFiltered();
    TIsFiltered();
    LlIsFiltered();
    FilterLacksHelloAndCar();
    KeepExample("hello", "car", "isn", "'ll", "'t", FilterList(Contractions, Exceptions));
  }

  /** Five words of which the last three are filtered keep the first two. */
  lemma KeepExample(a: string, b: string, c: string, d: string, e: string, f: set<string>)
    requires a !in f && b !in f && c in f && d in f && e in f
    ensures Keep([a, b, c, d, e], f) == [a, b]
  {
    assert Keep([e], f) == [] by { KeepFirst(e, [], f); }
    assert Keep([d, e], f) == [] by { KeepFirst(d, [e], f); }
    assert Keep([c, d, e], f) == [] by { KeepFirst(c, [d, e], f); }
    assert Keep([b, c, d, e], f) == [b] by { KeepFirst(b, [c, d, e], f); }
    KeepFirst(a, [b, c, d, e], f);
  }

  /** One step of the filter. */
  lemma KeepFirst(x: string, rest: seq<string>, f: set<string>)
    ensures Keep([x] + rest, f) == if x in f then Keep(rest, f) else [x] + Keep(rest, f)
  {
    assert ([x] + rest)[1..] == rest;
  }

  /** Lower-case ASCII letter, the class `[a-z]`. */
  predicate IsLowerAscii(c: char) {
    'a' <= c <= 'z'
  }

  /** `re.match("^[a-z]{2}$", s)`: two lower-case letters, then the end of
      the text, where `$` also matches before one final newline. */
  function MatchesTwoLetterCode(s: string): (b: bool)
    ensures b <==> (|s| == 2 || (|s| == 3 && s[2] == '\n'))
                   && IsLowerAscii(s[0]) && IsLowerAscii(s[1])
  {
    |s| >= 2 && IsLowerAscii(s[0]) && IsLowerAscii(s[1]) && (s[2..] == "" || s[2..] == "\n")
  }

  /** A language code is accepted when it is "auto" or an ISO 639-1 shaped
      code. */
  function IsSupportedCode(lang: string): (b: bool)
    ensures b <==> lang == "auto"
                   || ((|lang| == 2 || (|lang| == 3 && lang[2] == '\n'))
                       && IsLowerAscii(lang[0]) && IsLowerAscii(lang[1]))
  {
    MatchesTwoLetterCode(lang) || lang == "auto"
  }

  /** The pure steps of `create` before translation: both language codes are
      checked (ValueError otherwise), then a non-empty list of English words
      loses its contraction leftovers; other lists pass through unchanged. */
  function PrepareWords(words: seq<string>, sourceLang: string, targetLang: string)
    : (r: Result<seq<string>, PyError>)
    ensures r.Failure? <==> !IsSupportedCode(sourceLang) || !IsSupportedCode(targetLang)
    ensures r.Failure? ==> r.error == ValueError
    ensures r.Success? && (words == [] || sourceLang != "en") ==> r.value == words
    ensures r.Success? && words != [] && sourceLang == "en" ==>
              r.value == RemoveContractionLeftovers(words)
  {
    if !IsSupportedCode(sourceLang) || !IsSupportedCode(targetLang) then Failure(ValueError)
    else if words != [] && sourceLang == "en" then Success(RemoveContractionLeftovers(words))
    else Success(words)
  }

  /** Three-letter codes are refused, a code with one trailing newline is
      accepted, as Python's `$` allows. */
  lemma LanguageCodeExamples()
    ensures !IsSupportedCode("ger") && !IsSupportedCode("eng")
    ensures IsSupportedCode("de") && IsSupportedCode("de\n") && IsSupportedCode("auto")
    ensures !IsSupportedCode("De") && !IsSupportedCode("")
  {
  }
}
