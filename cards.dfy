/**
 * The card records the core reads from the card service, and the slots of the
 * reading that hold them.
 */
module Cards {
  import opened Optional

  /**
   * A card record of the service. Only `name` and `meaning_up` are read; a
   * record without a name (or whose name is not a string) has `name == None`.
   */
  datatype Card = Card(name: Option<string>, meaningUp: string)

  /**
   * One position of the reading. JavaScript distinguishes `null` (no card yet,
   * or a failed draw) from `undefined` (an index past the end of the card list):
   * the two are told apart by `!== null` and confused by `!card`.
   */
  datatype Slot = Null | Undefined | Present(card: Card)

  /** `allCards[index]`: the card at the index, or `undefined` past the end. */
  function CardAt(cards: seq<Card>, index: nat): (s: Slot)
    ensures s.Present? <==> index < |cards|
    ensures s.Present? ==> s.card == cards[index]
    ensures s != Null
  {
    if index < |cards| then Present(cards[index]) else Undefined
  }

  /** `indices.map(index => allCards[index])`. */
  function CardsAt(cards: seq<Card>, indices: seq<nat>): (r: seq<Slot>)
    ensures |r| == |indices|
    ensures forall i :: 0 <= i < |indices| ==> r[i] == CardAt(cards, indices[i])
  {
    seq(|indices|, i requires 0 <= i < |indices| => CardAt(cards, indices[i]))
  }
}
