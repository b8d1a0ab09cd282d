/**
 * The fortune page's reading: the three fortunes, the clarifying card and the
 * chosen indices that the fortune buttons write, and the answer shown from
 * them. Ties what the sampler hands back to what the verdict evaluator makes
 * of it.
 */
module Reading {
  import opened Optional
  import opened Cards
  import opened Verdict
  import opened Sampler

  /** The state the fortune page keeps for a reading. */
  datatype Page = Page(fortunes: seq<Slot>, clarify: Slot, indices: seq<nat>, topic: string)

  /** A fresh page: three null fortunes, no clarifying card, no indices and no topic chosen. */
  const InitialPage := Page([Null, Null, Null], Null, [], "")

  /**
   * The answer the page shows. Its text is the prompt to draw exactly when a
   * primary fortune is still null, and "Yes" or "No" otherwise.
   */
  function ShownAnswer(p: Page): (a: Answer)
    ensures AnswerText(a) == PendingText <==> Null in p.fortunes
    ensures Null !in p.fortunes ==> AnswerText(a) == "Yes" || AnswerText(a) == "No"
  {
    Evaluate(p.fortunes, p.clarify, p.topic)
  }

  /**
   * Hands a button's update to the page: a primary draw sets the fortunes and,
   * when it succeeded, the indices; a clarifying draw sets the clarifying card.
   */
  function Apply(p: Page, u: Update): (q: Page)
    ensures q.topic == p.topic
    ensures u.SetFortunes? ==> q.clarify == p.clarify && q.fortunes == u.fortunes
    ensures u.SetFortunes? ==> q.indices == (if u.indices.Some? then u.indices.value else p.indices)
    ensures u.SetClarify? ==> q.fortunes == p.fortunes && q.indices == p.indices && q.clarify == u.card
  {
    match u
    case SetFortunes(fortunes, indices) =>
      p.(fortunes := fortunes, indices := if indices.Some? then indices.value else p.indices)
    case SetClarify(card, _) => p.(clarify := card)
  }

  /** A fresh page asks for a reading, whatever topic and clarifying card it is then given. */
  lemma InitialPageIsPending(topic: string, clarify: Slot)
    ensures ShownAnswer(InitialPage.(topic := topic, clarify := clarify)) == Pending
  {
    assert InitialPage.(topic := topic, clarify := clarify).fortunes[0] == Null;
  }

  /**
   * Any successful primary draw gives the page an answer: every drawn slot is a
   * card or, for an index past the end of the list, undefined, and never null.
   */
  lemma DrawnFortunesAreAnswered(p: Page, cards: seq<Card>, indices: seq<nat>)
    ensures ShownAnswer(Apply(p, SetFortunes(CardsAt(cards, indices), Some(indices)))) != Pending
    ensures Apply(p, SetFortunes(CardsAt(cards, indices), Some(indices))).indices == indices
  {
    var q := Apply(p, SetFortunes(CardsAt(cards, indices), Some(indices)));
    assert Null !in q.fortunes;
  }

  /** A failed primary fetch puts the page back to asking for a reading and keeps the old indices. */
  lemma FailedFetchIsPending(p: Page)
    ensures ShownAnswer(Apply(p, SetFortunes([Null, Null, Null], None))) == Pending
    ensures Apply(p, SetFortunes([Null, Null, Null], None)).indices == p.indices
  {
    assert Apply(p, SetFortunes([Null, Null, Null], None)).fortunes[0] == Null;
  }

  /** A lost clarifying card counts for nothing: the answer is that of the three fortunes alone. */
  lemma LostClarifyingCardIsIgnored(p: Page)
    requires Null !in p.fortunes
    ensures ShownAnswer(Apply(p, SetClarify(Null, true))) == Reduce(p.topic, Outcomes(p.fortunes))
  {
    ClarifyJoinsWhenPresent(p.fortunes, Null, p.topic);
  }

  /**
   * A clarifying update never turns a pending page into an answered one or
   * back: whether the page asks for a reading depends on the fortunes alone.
   */
  lemma ClarifyKeepsPending(p: Page, card: Slot, lost: bool)
    ensures ShownAnswer(Apply(p, SetClarify(card, lost))) == Pending <==> ShownAnswer(p) == Pending
  {
  }
}
