/** The card set: an ordered list of cards that refuses to add a card twice,
    and its iterator, which walks the members present when it was made. */
module CardSets {
  import opened Wrappers
  import opened PyLists
  import opened FlashCards

  class CardSet {
    var members: seq<FlashCard>

    /** Takes the given items as they are (no duplicate check), or starts
        empty when none are given. */
    constructor(items: Option<seq<FlashCard>> := None)
      ensures members == if items.Some? then items.value else []
    {
      members := if items.Some? then items.value else [];
    }

    /** `len(card_set)`. */
    function Len(): (n: nat)
      reads this
      ensures n == |members|
    {
      |members|
    }

    /** Appends a card that is not yet a member; a card already present is
        refused with RuntimeError and the members stay as they were. */
    method Add(card: FlashCard) returns (r: Outcome<PyError>)
      modifies this
      ensures card in old(members) ==> r == Fail(RuntimeError) && members == old(members)
      ensures card !in old(members) ==> r == Pass && members == old(members) + [card]
      ensures Unique(old(members)) ==> Unique(members)
    {
      if card in members {
        return Fail(RuntimeError);
      }
      members := members + [card];
      r := Pass;
    }

    /** `list.remove`: drops the first occurrence of the card, keeping the
        others in order; a non-member is a ValueError and changes nothing. */
    method Remove(card: FlashCard) returns (r: Outcome<PyError>)
      modifies this
      ensures card !in old(members) ==> r == Fail(ValueError) && members == old(members)
      ensures card in old(members) ==>
                r == Pass && members == RemoveAt(old(members), FirstIndex(old(members), card))
      ensures Unique(old(members)) ==> Unique(members) && card !in members
    {
      if card !in members {
        return Fail(ValueError);
      }
      ghost var before := members;
      members := RemoveAt(members, FirstIndex(members, card));
      if Unique(before) {
        RemoveFirstLeavesNone(before, card);
        forall x ensures multiset(members)[x] <= 1 {
          assert multiset(members)[x] <= multiset(before)[x];
        }
      }
      r := Pass;
    }

    /** `members[index]` with Python's subscription rules: a negative index
        counts from the end, anything else out of range is an IndexError. */
    method GetCard(index: int) returns (r: Result<FlashCard, PyError>)
      ensures 0 <= index < |members| ==> r == Success(members[index])
      ensures -|members| <= index < 0 ==> r == Success(members[|members| + index])
      ensures !(-|members| <= index < |members|) ==> r == Failure(IndexError)
    {
      match PyIndex(|members|, index)
      case None => r := Failure(IndexError);
      case Some(k) => r := Success(members[k]);
    }

    /** `iter(card_set)`. */
    method Iter() returns (it: CardSetIter)
      ensures fresh(it) && it.Valid()
      ensures it.cards == members && it.currentIndex == 0
    {
      it := new CardSetIter(this);
    }
  }

  /** Iterator over a card set: it remembers the members and their number
      when it is made, and a cursor that moves one card per step. */
  class CardSetIter {
    var cards: seq<FlashCard>
    var classSize: nat
    var currentIndex: nat

    ghost predicate Valid()
      reads this
    {
      classSize == |cards| && currentIndex <= classSize
    }

    constructor(cardSet: CardSet)
      ensures Valid()
      ensures cards == cardSet.members && currentIndex == 0
    {
      cards := cardSet.members;
      classSize := |cardSet.members|;
      currentIndex := 0;
    }

    /** `__next__`: the card under the cursor, advancing it, or None
        (StopIteration) once the cursor has reached the remembered size. */
    method Next() returns (r: Option<FlashCard>)
      requires Valid()
      modifies this`currentIndex
      ensures Valid()
      ensures old(currentIndex) < classSize ==>
                r == Some(cards[old(currentIndex)]) && currentIndex == old(currentIndex) + 1
      ensures old(currentIndex) == classSize ==> r == None && currentIndex == classSize
    {
      if currentIndex < classSize {
        r := Some(cards[currentIndex]);
        currentIndex := currentIndex + 1;
      } else {
        r := None;
      }
    }
  }

  /** `list(card_set)`: runs the iterator protocol to the end and collects
      what it yields, which is exactly the members, in order. */
  method ToList(cardSet: CardSet) returns (items: seq<FlashCard>)
    ensures items == cardSet.members
  {
    var it := cardSet.Iter();
    items := [];
    var next := it.Next();
    while next.Some?
      invariant it.Valid() && it.cards == cardSet.members
      invariant next.Some? ==> 0 < it.currentIndex && next.value == it.cards[it.currentIndex - 1]
      invariant next.Some? ==> items == it.cards[..it.currentIndex - 1]
      invariant next.None? ==> items == it.cards && it.currentIndex == it.classSize
      decreases it.classSize - it.currentIndex + (if next.Some? then 1 else 0)
    {
      items := items + [next.value];
      next := it.Next();
    }
  }
}
