/** The card file box: compartments of flash cards, the card drawn last,
    the compartment the learner is working in and the draw history. Each
    method is proved against the value-level functions of BoxSpec. */
module CardFileBoxes {
  import opened Wrappers
  import opened PyLists
  import opened FlashCards
  import opened CardSets
  import opened BoxSpec

  /** A message handed to the user-information printer, and its level. */
  datatype Notice = Notice(message: string, level: string)

  /** `_register_cards`: `n` compartments (none when `n <= 0`), the first
      holding the members of the card set in iteration order. A non-empty
      card set with no compartment to put it in is an IndexError. */
  method RegisterCards(cards: CardSet?, n: int) returns (r: Result<seq<seq<FlashCard>>, PyError>)
    ensures cards != null && cards.members != [] && n <= 0 ==> r == Failure(IndexError)
    ensures !(cards != null && cards.members != [] && n <= 0) ==>
              && r.Success?
              && |r.value| == (if n > 0 then n else 0)
              && (|r.value| > 0 ==> r.value[0] == (if cards == null then [] else cards.members))
              && (forall k :: 1 <= k < |r.value| ==> r.value[k] == [])
  {
    var compartments := Empties(n);
    if cards != null && cards.Len() > 0 {
      if |compartments| == 0 {
        return Failure(IndexError);
      }
      var items := ToList(cards);
      compartments := compartments[0 := items];
    }
    r := Success(compartments);
  }

  class CardFileBox {
    var compartments: seq<seq<FlashCard>>
    var sourceLang: string
    var targetLang: string
    /** The weights of the compartments, handed to the sampler as they are. */
    var probabilities: seq<real>
    var currentCard: Option<FlashCard>
    var history: seq<FlashCard>
    var currentCompartment: Option<CompartmentRef>

    /** A current compartment given by position lies within the box. */
    ghost predicate Valid()
      reads this
    {
      RefInRange(compartments, currentCompartment)
    }

    /** The state right after `__init__`, with the compartments already
        registered: no card drawn, no current compartment, empty history. */
    constructor(compartments: seq<seq<FlashCard>>, sourceLang: string, targetLang: string,
                probabilities: seq<real>)
      ensures Valid()
      ensures this.compartments == compartments
      ensures this.sourceLang == sourceLang && this.targetLang == targetLang
      ensures this.probabilities == probabilities
      ensures currentCard == None && history == [] && currentCompartment == None
    {
      this.compartments := compartments;
      this.sourceLang := sourceLang;
      this.targetLang := targetLang;
      this.probabilities := probabilities;
      currentCard := None;
      history := [];
      currentCompartment := None;
    }

    /** `CardFileBox(card_set, source_lang, target_lang, n, probabilities)`:
        registers the cards and starts with nothing drawn; the IndexError of
        the registration propagates. */
    static method Create(cards: CardSet?, sourceLang: string, targetLang: string, n: int := 4,
                         probabilities: seq<real> := [0.55, 0.3, 0.1, 0.05])
      returns (r: Result<CardFileBox, PyError>)
      ensures cards != null && cards.members != [] && n <= 0 <==> r.Failure?
      ensures r.Failure? ==> r.error == IndexError
      ensures r.Success? ==>
                && fresh(r.value) && r.value.Valid()
                && |r.value.compartments| == (if n > 0 then n else 0)
                && (n > 0 ==> r.value.compartments[0] == (if cards == null then [] else cards.members))
                && (forall k :: 1 <= k < |r.value.compartments| ==> r.value.compartments[k] == [])
                && r.value.sourceLang == sourceLang && r.value.targetLang == targetLang
                && r.value.probabilities == probabilities
                && r.value.currentCard == None && r.value.history == []
                && r.value.currentCompartment == None
    {
      var registered := RegisterCards(cards, n);
      match registered
      case Failure(e) =>
        r := Failure(e);
      case Success(comps) =>
        var box := new CardFileBox(comps, sourceLang, targetLang, probabilities);
        r := Success(box);
    }

    /** `draw_card`. The sampler is handed the compartment indices and the
        weights (a ValueError unless there is a weight per compartment and at
        least one compartment); its picks, `tierPicks`, are drawn until one
        names a non-empty compartment, which is then not used. The card is
        drawn from compartment 0 (an IndexError when that is empty) by the
        positions `cardPicks` until one is not in the history. The history
        grows by NextHistory and the card becomes the current card; the
        compartments and the current compartment stay as they are. */
    method DrawCard(tierPicks: seq<nat>, cardPicks: seq<nat>) returns (r: Result<FlashCard, PyError>)
      requires SamplerAccepts(|compartments|, probabilities) ==> GatePasses(compartments, tierPicks)
      requires SamplerAccepts(|compartments|, probabilities) && compartments[0] != [] ==>
                 FreshPickAhead(compartments[0], history, cardPicks)
      modifies this`history, this`currentCard
      ensures !SamplerAccepts(|compartments|, probabilities) ==>
                r == Failure(ValueError) && history == old(history) && currentCard == old(currentCard)
      ensures SamplerAccepts(|compartments|, probabilities) && compartments[0] == [] ==>
                r == Failure(IndexError) && history == old(history) && currentCard == old(currentCard)
      ensures SamplerAccepts(|compartments|, probabilities) && compartments[0] != [] ==>
                && r.Success?
                && r.value in compartments[0]
                && r.value !in old(history)
                && history == NextHistory(old(history), r.value)
                && currentCard == Some(r.value)
    {
      if !SamplerAccepts(|compartments|, probabilities) {
        return Failure(ValueError);
      }
      var t := 0;
      while compartments[tierPicks[t]] == []
        invariant t < |tierPicks|
        invariant exists j :: t <= j < |tierPicks| && compartments[tierPicks[j]] != []
        decreases |tierPicks| - t
      {
        t := t + 1;
      }
      if compartments[0] == [] {
        return Failure(IndexError);
      }
      var first := compartments[0];
      var c := 0;
      var card := first[cardPicks[c]];
      while card in history
        invariant c < |cardPicks| && card == first[cardPicks[c]]
        invariant exists j :: c <= j < |cardPicks| && first[cardPicks[j]] !in history
        decreases |cardPicks| - c
      {
        c := c + 1;
        card := first[cardPicks[c]];
      }
      history := NextHistory(history, card);
      currentCard := Some(card);
      r := Success(card);
    }

    /** The shared body of `upgrade_card` and `downgrade_card`. */
    method MoveCurrent(up: bool) returns (r: Outcome<PyError>)
      requires Valid()
      modifies this`compartments, this`currentCompartment
      ensures Valid()
      ensures var s := Relocate(old(compartments), currentCard, old(currentCompartment), up);
              compartments == s.compartments && currentCompartment == s.current && r == s.outcome
    {
      if currentCard.None? || currentCompartment.None?
         || RefCards(compartments, currentCompartment.value) == [] {
        return Pass;
      }
      match currentCompartment.value
      case Detached(_) =>
        r := Fail(ValueError);
      case Slot(i) =>
        var from := FirstIndex(compartments, compartments[i]);
        if (up && from == |compartments| - 1) || (!up && from == 0) {
          return Pass;
        }
        var to := if up then from + 1 else from - 1;
        var card := currentCard.value;
        if card !in compartments[from] {
          return Fail(ValueError);
        }
        var cardIndex := FirstIndex(compartments[from], card);
        compartments := compartments[to := compartments[to] + [card]];
        compartments := compartments[from := RemoveAt(compartments[from], cardIndex)];
        currentCompartment := Some(Slot(to));
        r := Pass;
    }

    /** `upgrade_card`: moves the current card one compartment up. */
    method UpgradeCard() returns (r: Outcome<PyError>)
      requires Valid()
      modifies this`compartments, this`currentCompartment
      ensures Valid()
      ensures var s := Relocate(old(compartments), currentCard, old(currentCompartment), true);
              compartments == s.compartments && currentCompartment == s.current && r == s.outcome
    {
      r := MoveCurrent(true);
    }

    /** `downgrade_card`: moves the current card one compartment down. */
    method DowngradeCard() returns (r: Outcome<PyError>)
      requires Valid()
      modifies this`compartments, this`currentCompartment
      ensures Valid()
      ensures var s := Relocate(old(compartments), currentCard, old(currentCompartment), false);
              compartments == s.compartments && currentCompartment == s.current && r == s.outcome
    {
      r := MoveCurrent(false);
    }

    /** `save_setup`, without the file: the header names the two language
        columns and "Compartment"; the rows go compartment by compartment. */
    method SaveSetup() returns (table: Table)
      ensures table.header == Header(sourceLang, targetLang, "Compartment")
      ensures table.rows == SaveRows(compartments)
    {
      var rows: seq<Row> := [];
      var k := 0;
      while k < |compartments|
        invariant 0 <= k <= |compartments|
        invariant rows == SaveRows(compartments[..k])
      {
        var compartment := compartments[k];
        var j := 0;
        while j < |compartment|
          invariant 0 <= j <= |compartment|
          invariant rows == SaveRows(compartments[..k]) + CompartmentRows(compartment[..j], k)
        {
          var card := compartment[j];
          assert CompartmentRows(compartment[..j + 1], k)
              == CompartmentRows(compartment[..j], k) + [Row(card.vocabulary, card.definition, k)];
          rows := rows + [Row(card.vocabulary, card.definition, k)];
          j := j + 1;
        }
        assert compartment[..j] == compartment;
        assert compartments[..k + 1][..k] == compartments[..k];
        k := k + 1;
      }
      assert compartments[..k] == compartments;
      table := Table(Header(sourceLang, targetLang, "Compartment"), rows);
    }

    /** `load_setup`, on a table already read. The compartment count comes
        first (a ValueError there changes nothing); then the compartments are
        replaced by that many empty ones, the languages are taken from the
        header, and the rows are appended in order until one names a
        compartment that does not exist (IndexError, the rows before it
        staying appended). A current compartment given by position now
        refers to a list that is no longer in the box. */
    method LoadSetup(table: Table, count: Option<int> := None) returns (r: Outcome<PyError>)
      requires Valid()
      modifies this`compartments, this`sourceLang, this`targetLang, this`currentCompartment
      ensures Valid()
      ensures CompartmentCount(table.rows, count).Failure? ==>
                && r == Fail(CompartmentCount(table.rows, count).error)
                && compartments == old(compartments)
                && sourceLang == old(sourceLang) && targetLang == old(targetLang)
                && currentCompartment == old(currentCompartment)
      ensures CompartmentCount(table.rows, count).Success? ==>
                var p := PlaceRows(Empties(CompartmentCount(table.rows, count).value), table.rows);
                && compartments == p.compartments
                && (r == if p.complete then Pass else Fail(IndexError))
                && sourceLang == table.header.source && targetLang == table.header.target
                && currentCompartment == Detach(old(compartments), old(currentCompartment))
    {
      var n := CompartmentCount(table.rows, count);
      if n.Failure? {
        return Fail(n.error);
      }
      currentCompartment := Detach(compartments, currentCompartment);
      compartments := Empties(n.value);
      sourceLang := table.header.source;
      targetLang := table.header.target;
      var i := 0;
      while i < |table.rows|
        invariant 0 <= i <= |table.rows|
        invariant |compartments| == n.value
        invariant PlaceRows(compartments, table.rows[i..]) == PlaceRows(Empties(n.value), table.rows)
        invariant sourceLang == table.header.source && targetLang == table.header.target
        invariant currentCompartment == Detach(old(compartments), old(currentCompartment))
      {
        var row := table.rows[i];
        assert table.rows[i..][1..] == table.rows[i + 1..];
        match PyIndex(|compartments|, row.compartment)
        case None =>
          return Fail(IndexError);
        case Some(k) =>
          compartments := compartments[k := compartments[k] + [CardOf(row)]];
        i := i + 1;
      }
      r := Pass;
    }

    /** Assigning `source_lang` after construction: the value is ignored and
        the user is told so. */
    method SetSourceLang(value: string) returns (notice: Notice)
      ensures sourceLang == old(sourceLang)
      ensures notice == Notice("Source language can only be set during initialization phase.", "info")
    {
      notice := Notice("Source language can only be set during initialization phase.", "info");
    }

    /** Assigning `target_lang` after construction is ignored likewise. */
    method SetTargetLang(value: string) returns (notice: Notice)
      ensures targetLang == old(targetLang)
      ensures notice == Notice("Target language can only be set during initialization phase.", "info")
    {
      notice := Notice("Target language can only be set during initialization phase.", "info");
    }

    /** Assigning `probabilities` after construction is ignored likewise. */
    method SetProbabilities(value: seq<real>) returns (notice: Notice)
      ensures probabilities == old(probabilities)
      ensures notice == Notice("Probabilities can only be set during initialization phase.", "info")
    {
      notice := Notice("Probabilities can only be set during initialization phase.", "info");
    }
  }

  /** What the current compartment refers to once the compartments are
      replaced: the list it named, now outside the box. */
  function Detach(comps: seq<seq<FlashCard>>, ref: Option<CompartmentRef>): (d: Option<CompartmentRef>)
    requires RefInRange(comps, ref)
    ensures d.None? <==> ref.None?
    ensures d.Some? ==> d.value.Detached? && d.value.cards == RefCards(comps, ref.value)
  {
    match ref
    case None => None
    case Some(Slot(i)) => Some(Detached(comps[i]))
    case Some(Detached(cards)) => ref
  }

  /** A box built with the default arguments, as the tests build theirs:
      four compartments holding the set's cards in the first, the default
      weights, and nothing drawn. */
  method DefaultSetup(cards: CardSet, sourceLang: string, targetLang: string)
    returns (box: CardFileBox)
    ensures fresh(box) && box.Valid()
    ensures |box.compartments| == 4 && box.compartments[0] == cards.members
    ensures box.compartments[1] == [] && box.compartments[2] == [] && box.compartments[3] == []
    ensures box.probabilities == [0.55, 0.3, 0.1, 0.05]
    ensures box.sourceLang == sourceLang && box.targetLang == targetLang
    ensures box.history == [] && box.currentCard == None && box.currentCompartment == None
  {
    var r := CardFileBox.Create(cards, sourceLang, targetLang);
    box := r.value;
  }
}
