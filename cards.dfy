/** Cards: a name, a number of uses and a list of actions run in order. */
module Cards {

  /** What an action does; the order is the declaration order. */
  datatype ActionType = Melee | Heal | Bomb | Damage | Range | Move | Draw | Push

  /** An action: its kind and its strength (damage, distance, range). */
  datatype Action = Action(actionType: ActionType, amount: int)

  class Card {
    var name: string
    var uses: int
    /** The action array; copies share it, so it is only ever replaced. */
    var actions: array<Action>

    constructor (name: string, uses: int, actions: array<Action>)
      ensures this.name == name && this.uses == uses && this.actions == actions
    {
      this.name := name;
      this.uses := uses;
      this.actions := actions;
    }

    /** A new card with this card's name and uses and the same action array. */
    method CopyCard() returns (newCard: Card)
      ensures fresh(newCard)
      ensures newCard.name == name && newCard.uses == uses
      ensures newCard.actions == actions
    {
      newCard := new Card(name, uses, actions);
    }
  }

  /** A card in the hand: the game object made for a card. */
  class CardSlot {
    const card: Card

    constructor (card: Card)
      ensures this.card == card
    {
      this.card := card;
    }
  }

  /** The player's hand: its card objects in child order. */
  class CardHand {
    var slots: seq<CardSlot>

    constructor (slots: seq<CardSlot>)
      ensures this.slots == slots
    {
      this.slots := slots;
    }

    /** Makes a new card object for `card` at the end of the hand. */
    method AddCard(card: Card) returns (slot: CardSlot)
      modifies this
      ensures fresh(slot) && slot.card == card
      ensures slots == old(slots) + [slot]
    {
      slot := new CardSlot(card);
      slots := slots + [slot];
    }

    /** Destroys a card object: it leaves the hand. */
    method RemoveCard(slot: CardSlot)
      modifies this
      ensures slots == Without(old(slots), slot)
    {
      slots := Without(slots, slot);
    }

    /** The cards the hand holds, in child order. */
    function Cards(): (cards: seq<Card>)
      reads this
      ensures |cards| == |slots|
      ensures forall i :: 0 <= i < |slots| ==> cards[i] == slots[i].card
    {
      seq(|slots|, i requires 0 <= i < |slots| reads this => slots[i].card)
    }
  }

  /** The slots other than `slot`, in order. */
  function Without(slots: seq<CardSlot>, slot: CardSlot): (r: seq<CardSlot>)
    ensures slot !in r
    ensures forall i :: 0 <= i < |r| ==> r[i] in slots && r[i] != slot
    ensures forall i :: 0 <= i < |slots| && slots[i] != slot ==> slots[i] in r
    ensures |r| <= |slots|
    ensures multiset(r) == multiset(slots)[slot := 0]
  {
    if |slots| == 0 then []
    else
      assert slots == [slots[0]] + slots[1..];
      if slots[0] == slot then Without(slots[1..], slot)
      else [slots[0]] + Without(slots[1..], slot)
  }

  /** Removal works piece by piece, so the kept slots stay in their order:
      removing from two hands put together is removing from each. */
  lemma {:induction false} WithoutConcat(a: seq<CardSlot>, b: seq<CardSlot>, slot: CardSlot)
    ensures Without(a + b, slot) == Without(a, slot) + Without(b, slot)
    decreases |a|
  {
    if |a| == 0 {
      assert a + b == b;
    } else {
      assert (a + b)[1..] == a[1..] + b;
      WithoutConcat(a[1..], b, slot);
    }
  }

  /** Removing a slot after adding a different one is removing it first. */
  lemma {:induction false} WithoutAppend(slots: seq<CardSlot>, slot: CardSlot, added: CardSlot)
    requires added != slot
    ensures Without(slots + [added], slot) == Without(slots, slot) + [added]
    decreases |slots|
  {
    if |slots| == 0 {
      assert slots + [added] == [added];
    } else {
      assert (slots + [added])[1..] == slots[1..] + [added];
      WithoutAppend(slots[1..], slot, added);
    }
  }
}
