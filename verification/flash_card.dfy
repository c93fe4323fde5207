/** A flash card: a vocabulary word and its definition, fixed when the card
    is made, with the text form `vocabulary:definition`. */
module FlashCards {

  datatype FlashCard = FlashCard(vocabulary: string, definition: string)

  /** The text form of a card: the vocabulary, a colon, then the definition. */
  function ToString(c: FlashCard): (s: string)
    ensures |s| == |c.vocabulary| + 1 + |c.definition|
    ensures s[..|c.vocabulary|] == c.vocabulary
    ensures s[|c.vocabulary|] == ':'
    ensures s[|c.vocabulary| + 1..] == c.definition
  {
    c.vocabulary + ":" + c.definition
  }

  /** Position of the first colon in `s`, or `|s|` when there is none. */
  function FirstColon(s: string): (i: nat)
    ensures i <= |s|
    ensures forall j :: 0 <= j < i ==> s[j] != ':'
    ensures i < |s| ==> s[i] == ':'
  {
    if s == [] then 0
    else if s[0] == ':' then 0
    else 1 + FirstColon(s[1..])
  }

  /** When no vocabulary holds a colon, the text form determines the card:
      the first colon of the text separates the two fields. */
  lemma ToStringInjective(a: FlashCard, b: FlashCard)
    requires ':' !in a.vocabulary && ':' !in b.vocabulary
    requires ToString(a) == ToString(b)
    ensures a == b
  {
    var s := ToString(a);
    ColonAfterVocabulary(a);
    ColonAfterVocabulary(b);
    assert a.vocabulary == s[..FirstColon(s)] == b.vocabulary;
  }

  /** For a colon-free vocabulary, the first colon of the text form sits
      right after the vocabulary. */
  lemma ColonAfterVocabulary(c: FlashCard)
    requires ':' !in c.vocabulary
    ensures FirstColon(ToString(c)) == |c.vocabulary|
  {
  }

  /** Without the colon-free condition two different cards can share a text
      form. */
  lemma ToStringCollision()
    ensures FlashCard("x", "y:z") != FlashCard("x:y", "z")
    ensures ToString(FlashCard("x", "y:z")) == ToString(FlashCard("x:y", "z"))
  {
  }
}
