/**
 * The verdict evaluator of the fortune page: each drawn card is classified as
 * Yes, No or Maybe by looking its normalised name up in three constant tables,
 * and the classifications are reduced to one answer by a rule chosen by the
 * topic of the question.
 */
module Verdict {
  import opened Optional
  import opened JsText
  import opened Cards

  /** The classification of one card (the strings the source compares against). */
  datatype Outcome =
    | Yes
    | No
    | Maybe
    | Uncertain  // a name found in none of the tables
    | Unnamed    // no card, or a card without a name: "Uncertain, the cosmos cannot determine"

  /** The overall answer shown on the page. */
  datatype Answer = AnswerYes | AnswerNo | Pending

  const PendingText: string := "Please click \"Your Fortune\" to get a reading"

  /** The text the page shows for an answer. */
  function AnswerText(a: Answer): (t: string)
    ensures a == Pending <==> t == PendingText
    ensures t == "Yes" <==> a == AnswerYes
    ensures t == "No" <==> a == AnswerNo
  {
    match a
    case AnswerYes => "Yes"
    case AnswerNo => "No"
    case Pending => PendingText
  }

  // ----------------------------------------------------------------------------
  // The three classification tables
  // ----------------------------------------------------------------------------

  /**
   * The Yes table, in the source's order; written as the concatenation of its
   * six source lines, which is the same sequence of 46 names.
   */
  const YesCards: seq<string> :=
      ["the fool", "the magician", "empress", "lovers", "chariot", "fortitude", "wheel of fortune", "temperance", "star", "sun"]
    + ["the last judgement", "world", "knight of wands", "king of wands", "queen of wands", "page of wands", "two of wands", "three of wands"]
    + ["six of wands", "eight of wands", "nine of wands", "ace of wands", "four of wands", "ace of cups", "two of cups", "three of cups"]
    + ["six of cups", "nine of cups", "ten of cups", "page of cups", "knight of cups", "queen of cups", "king of cups", "knight of swords"]
    + ["page of swords", "ace of swords", "king of pentacles", "queen of pentacles", "knight of pentacles", "page of pentacles"]
    + ["ten of pentacles", "nine of pentacles", "eight of pentacles", "six of pentacles", "three of pentacles", "ace of pentacles"]

  const NoCards: seq<string> := [
    "death", "devil", "tower", "moon", "five of wands", "ten of wands", "seven of wands", "five of cups", "eight of cups",
    "ten of swords", "nine of swords", "eight of swords", "seven of swords", "five of swords", "three of swords", "five of pentacles",
    "four of pentacles"
  ]

  const MaybeCards: seq<string> := [
    "high priestess", "emperor", "hierophant", "hermit", "justice", "hanged man", "four of cups", "seven of cups", "king of swords",
    "four of swords", "two of swords", "seven of pentacles", "two of pentacles", "queen of swords", "six of swords"
  ]

  // ----------------------------------------------------------------------------
  // Name normalisation: toLowerCase() then replace(/^the\s+/, '')
  // ----------------------------------------------------------------------------

  /** The name begins with "the" followed by at least one white-space character. */
  predicate StartsWithThe(s: string) {
    |s| >= 4 && s[..3] == "the" && IsWhiteSpace(s[3])
  }

  /**
   * `replace(/^the\s+/, '')`: one leading "the" and the whole run of white space
   * after it are removed; any other string is returned unchanged.
   */
  function StripLeadingThe(s: string): (r: string)
    ensures |r| <= |s| && r == s[|s| - |r|..]
    ensures r != s <==> StartsWithThe(s)
    ensures StartsWithThe(s) ==>
      && |s| - |r| > 3
      && (forall i :: 3 <= i < |s| - |r| ==> IsWhiteSpace(s[i]))
      && (r == [] || !IsWhiteSpace(r[0]))
  {
    if StartsWithThe(s) then s[3 + WhiteSpacePrefixLength(s[3..])..] else s
  }

  /**
   * The normalised card name the tables are searched for: a suffix of the
   * lower-cased name, with no upper-case ASCII letter left in it.
   */
  function Normalize(name: string): (r: string)
    ensures |r| <= |name| && r == ToLower(name)[|name| - |r|..]
    ensures forall i :: 0 <= i < |r| ==> !('A' <= r[i] <= 'Z')
  {
    StripLeadingThe(ToLower(name))
  }

  /** The table lookup, in the source's order: Yes, then No, then Maybe. */
  function Lookup(n: string): (o: Outcome)
    ensures o != Unnamed
    ensures o == Yes <==> n in YesCards
    ensures o == Uncertain <==> n !in YesCards && n !in NoCards && n !in MaybeCards
  {
    if n in YesCards then Yes
    else if n in NoCards then No
    else if n in MaybeCards then Maybe
    else Uncertain
  }

  /**
   * The classification of one slot: a missing card, a card without a name and a
   * card whose name is the empty string are all Unnamed (JavaScript's `!card`
   * and `!card.name`).
   */
  function Classify(slot: Slot): (o: Outcome)
    ensures o == Unnamed <==> !slot.Present? || slot.card.name.None? || slot.card.name.value == ""
    ensures o != Unnamed ==> o == Lookup(Normalize(slot.card.name.value))
  {
    match slot
    case Present(Card(Some(name), _)) =>
      if name == "" then Unnamed else Lookup(Normalize(name))
    case _ => Unnamed
  }

  // ----------------------------------------------------------------------------
  // Reduction by topic and the page's overall answer
  // ----------------------------------------------------------------------------

  /** The answer for a topic over the card outcomes; an unknown topic keeps the default No. */
  function Reduce(topic: string, outcomes: seq<Outcome>): (a: Answer)
    ensures a != Pending
  {
    if topic == "Love" then
      (if No in outcomes || Maybe in outcomes then AnswerNo else AnswerYes)
    else if topic == "Career" then
      (if Maybe in outcomes && No in outcomes then AnswerNo else AnswerYes)
    else if topic == "Financial" then
      (if Yes in outcomes then AnswerYes else AnswerNo)
    else
      AnswerNo
  }

  /** `slots.filter(card => card !== null)`. */
  function NonNull(slots: seq<Slot>): (r: seq<Slot>)
    ensures Null !in r
    ensures forall s :: s in r ==> s in slots
  {
    if slots == [] then []
    else if slots[0] == Null then NonNull(slots[1..])
    else [slots[0]] + NonNull(slots[1..])
  }

  /** `slots.map(classify)`. */
  function Outcomes(slots: seq<Slot>): (r: seq<Outcome>)
    ensures |r| == |slots|
    ensures forall i :: 0 <= i < |slots| ==> r[i] == Classify(slots[i])
  {
    seq(|slots|, i requires 0 <= i < |slots| => Classify(slots[i]))
  }

  /**
   * The overall answer of the fortune page: pending unless every primary slot
   * holds something other than null; otherwise the topic's reduction over the
   * primary cards and, when it is not null, the clarifying card. It is pending
   * exactly when some primary slot is null, whatever the topic and the
   * clarifying card; an `undefined` slot does not make it pending.
   */
  function Evaluate(fortunes: seq<Slot>, clarify: Slot, topic: string): (a: Answer)
    ensures a == Pending <==> Null in fortunes
  {
    if forall i :: 0 <= i < |fortunes| ==> fortunes[i] != Null then
      Reduce(topic, Outcomes(NonNull(fortunes + [clarify])))
    else
      Pending
  }

  // ----------------------------------------------------------------------------
  // The tables are pairwise disjoint
  // ----------------------------------------------------------------------------

  /**
   * A fingerprint of a name that already tells the tables apart: its length,
   * its first two characters and its last one. Comparing fingerprints is much
   * cheaper for the solver than comparing the names themselves.
   */
  ghost function NameKey(s: string): (int, char, char, char)
    requires |s| >= 2
  {
    (|s|, s[0], s[1], s[|s| - 1])
  }

  ghost const NoKeys: set<(int, char, char, char)> := {
    (5, 'd', 'e', 'h'), (5, 'd', 'e', 'l'), (5, 't', 'o', 'r'), (4, 'm', 'o', 'n'), (13, 'f', 'i', 's'),
    (12, 't', 'e', 's'), (14, 's', 'e', 's'), (12, 'f', 'i', 's'), (13, 'e', 'i', 's'), (13, 't', 'e', 's'),
    (14, 'n', 'i', 's'), (15, 'e', 'i', 's'), (15, 's', 'e', 's'), (14, 'f', 'i', 's'), (15, 't', 'h', 's'),
    (17, 'f', 'i', 's'), (17, 'f', 'o', 's')
  }

  ghost const MaybeKeys: set<(int, char, char, char)> := {
    (14, 'h', 'i', 's'), (7, 'e', 'm', 'r'), (10, 'h', 'i', 't'), (6, 'h', 'e', 't'), (7, 'j', 'u', 'e'),
    (10, 'h', 'a', 'n'), (12, 'f', 'o', 's'), (13, 's', 'e', 's'), (14, 'k', 'i', 's'), (14, 'f', 'o', 's'),
    (13, 't', 'w', 's'), (18, 's', 'e', 's'), (16, 't', 'w', 's'), (15, 'q', 'u', 's'), (13, 's', 'i', 's')
  }

  lemma NoTableKeys()
    ensures forall i :: 0 <= i < |NoCards| ==>
      |NoCards[i]| >= 2 && NameKey(NoCards[i]) in NoKeys && NameKey(NoCards[i]) !in MaybeKeys
  {
    forall i | 0 <= i < |NoCards|
      ensures |NoCards[i]| >= 2 && NameKey(NoCards[i]) in NoKeys && NameKey(NoCards[i]) !in MaybeKeys
    {
      assert i == 0 || i == 1 || i == 2 || i == 3 || i == 4 || i == 5 || i == 6 || i == 7 || i == 8
        || i == 9 || i == 10 || i == 11 || i == 12 || i == 13 || i == 14 || i == 15 || i == 16;
    }
  }

  lemma MaybeTableKeys()
    ensures forall i :: 0 <= i < |MaybeCards| ==> |MaybeCards[i]| >= 2 && NameKey(MaybeCards[i]) in MaybeKeys
  {
    forall i | 0 <= i < |MaybeCards| ensures |MaybeCards[i]| >= 2 && NameKey(MaybeCards[i]) in MaybeKeys {
      assert i == 0 || i == 1 || i == 2 || i == 3 || i == 4 || i == 5 || i == 6 || i == 7
        || i == 8 || i == 9 || i == 10 || i == 11 || i == 12 || i == 13 || i == 14;
    }
  }

  /** The fingerprint of a Yes name is neither a No nor a Maybe fingerprint. */
  ghost predicate YesKeyApart(i: int)
    requires 0 <= i < |YesCards|
  {
    |YesCards[i]| >= 2 && NameKey(YesCards[i]) !in NoKeys && NameKey(YesCards[i]) !in MaybeKeys
  }

  lemma YesTableKeysLines1And2()
    ensures forall i :: 0 <= i < 18 ==> YesKeyApart(i)
  {
    forall i | 0 <= i < 18 ensures YesKeyApart(i) {
      assert i == 0 || i == 1 || i == 2 || i == 3 || i == 4 || i == 5 || i == 6 || i == 7 || i == 8
        || i == 9 || i == 10 || i == 11 || i == 12 || i == 13 || i == 14 || i == 15 || i == 16 || i == 17;
    }
  }

  lemma YesTableKeysLines3And4()
    ensures forall i :: 18 <= i < 34 ==> YesKeyApart(i)
  {
    forall i | 18 <= i < 34 ensures YesKeyApart(i) {
      assert i == 18 || i == 19 || i == 20 || i == 21 || i == 22 || i == 23 || i == 24 || i == 25
        || i == 26 || i == 27 || i == 28 || i == 29 || i == 30 || i == 31 || i == 32 || i == 33;
    }
  }

  lemma YesTableKeysLines5And6()
    ensures forall i :: 34 <= i < 46 ==> YesKeyApart(i)
  {
    forall i | 34 <= i < 46 ensures YesKeyApart(i) {
      assert i == 34 || i == 35 || i == 36 || i == 37 || i == 38 || i == 39
        || i == 40 || i == 41 || i == 42 || i == 43 || i == 44 || i == 45;
    }
  }

  /** The fingerprint of every Yes name is neither a No nor a Maybe fingerprint. */
  lemma YesTableKeys()
    ensures forall i :: 0 <= i < |YesCards| ==> YesKeyApart(i)
  {
    YesTableKeysLines1And2();
    YesTableKeysLines3And4();
    YesTableKeysLines5And6();
  }

  /** No name is in two of the tables. */
  lemma TablesDisjoint()
    ensures forall n :: n in YesCards ==> n !in NoCards && n !in MaybeCards
    ensures forall n :: n in NoCards ==> n !in MaybeCards
  {
    NoTableKeys();
    MaybeTableKeys();
    YesTableKeys();
    forall n | n in YesCards ensures n !in NoCards && n !in MaybeCards {
      var i :| 0 <= i < |YesCards| && YesCards[i] == n;
      assert YesKeyApart(i);
    }
  }

  // ----------------------------------------------------------------------------
  // Classification
  // ----------------------------------------------------------------------------

  /**
   * Because the tables are disjoint, the order Yes, No, Maybe in which they are
   * searched never decides a classification: each outcome holds exactly when the
   * name is in the matching table.
   */
  lemma LookupByTable(n: string)
    ensures Lookup(n) == Yes <==> n in YesCards
    ensures Lookup(n) == No <==> n in NoCards
    ensures Lookup(n) == Maybe <==> n in MaybeCards
    ensures Lookup(n) == Uncertain <==> n !in YesCards && n !in NoCards && n !in MaybeCards
    ensures Lookup(n) != Unnamed
  {
    TablesDisjoint();
  }

  /** "the", one space, and a word not starting with white space: only the word is kept. */
  lemma StripArticleAndSpace(rest: string)
    requires rest != [] && !IsWhiteSpace(rest[0])
    ensures StripLeadingThe("the " + rest) == rest
  {
    var s := "the " + rest;
    assert s[..3] == "the" && s[3] == ' ';
    assert s[3..] == [' '] + rest;
    assert WhiteSpacePrefixLength(s[3..]) == 1;
    assert s[4..] == rest;
  }

  /** "The Fool" and "fool" normalise to the same name. */
  lemma NormalizeTheFool()
    ensures Normalize("The Fool") == "fool" && Normalize("fool") == "fool"
  {
    assert ToLower("The Fool") == "the " + "fool";
    StripArticleAndSpace("fool");
    assert ToLower("fool") == "fool";
    assert !StartsWithThe("fool");
  }

  /** "fool" is in none of the tables. */
  lemma FoolIsUnlisted()
    ensures Lookup("fool") == Uncertain
  {
    assert "fool" !in YesCards;
    assert "fool" !in NoCards;
    assert "fool" !in MaybeCards;
  }

  /**
   * "The Fool" and "fool" both classify as Uncertain: the normalised name "fool"
   * is in no table, because the Yes table lists "the fool".
   */
  lemma TheFoolIsUncertain()
    ensures Classify(Present(Card(Some("The Fool"), ""))) == Uncertain
    ensures Classify(Present(Card(Some("fool"), ""))) == Uncertain
  {
    NormalizeTheFool();
    FoolIsUnlisted();
    assert Classify(Present(Card(Some("fool"), ""))) == Lookup(Normalize("fool"));
    SameNormalFormSameClass("The Fool", "fool", "");
  }

  /** A doubled article loses only its first "the": "The The Fool" normalises to "the fool". */
  lemma NormalizeDoubledArticle()
    ensures Normalize("The The Fool") == "the fool"
  {
    assert ToLower("The The Fool") == "the " + "the fool";
    StripArticleAndSpace("the fool");
  }

  /** Only a doubled article reaches the Yes entry "the fool": "The The Fool" classifies as Yes. */
  lemma DoubledArticleReachesTheFool()
    ensures Classify(Present(Card(Some("The The Fool"), ""))) == Yes
  {
    NormalizeDoubledArticle();
    assert YesCards[0] == "the fool";
  }

  /**
   * A name that normalises to a table entry beginning with "the" and white space
   * must itself begin, once lower-cased, with "the" and white space: the entry is
   * what is left after the name's own article was removed. So no capitalisation
   * of "the fool" itself ever reaches the entry "the fool".
   */
  lemma ArticleEntriesNeedADoubleArticle(name: string, entry: string)
    requires Normalize(name) == entry && StartsWithThe(entry)
    ensures StartsWithThe(ToLower(name))
    ensures ToLower(name) != entry
  {
  }

  // ----------------------------------------------------------------------------
  // Reduction
  // ----------------------------------------------------------------------------

  predicate IsVote(o: Outcome) {
    o == Yes || o == No || o == Maybe
  }

  /** The outcomes that are votes, in order: Uncertain and Unnamed dropped. */
  function Votes(outcomes: seq<Outcome>): (r: seq<Outcome>)
    ensures forall o :: o in r <==> o in outcomes && IsVote(o)
    ensures |r| <= |outcomes|
  {
    if outcomes == [] then []
    else if IsVote(outcomes[0]) then [outcomes[0]] + Votes(outcomes[1..])
    else Votes(outcomes[1..])
  }

  /**
   * Uncertain and Unnamed outcomes count toward none of the topic rules: the
   * answer over all outcomes is the answer over the votes alone.
   */
  lemma UncertainIsNoVote(topic: string, outcomes: seq<Outcome>)
    ensures Reduce(topic, outcomes) == Reduce(topic, Votes(outcomes))
  {
    assert Yes in outcomes <==> Yes in Votes(outcomes);
    assert No in outcomes <==> No in Votes(outcomes);
    assert Maybe in outcomes <==> Maybe in Votes(outcomes);
  }

  /**
   * The per-topic rules stated over positions: Love says No exactly when some
   * card says No or Maybe; Career says No exactly when some card says Maybe and
   * some card says No; Financial says Yes exactly when some card says Yes; any
   * other topic (the empty one included) says No.
   */
  lemma ReductionRules(topic: string, outcomes: seq<Outcome>)
    ensures topic == "Love" ==>
      (Reduce(topic, outcomes) == AnswerNo <==> exists i :: 0 <= i < |outcomes| && outcomes[i] in {No, Maybe})
    ensures topic == "Career" ==>
      (Reduce(topic, outcomes) == AnswerNo <==>
        (exists i :: 0 <= i < |outcomes| && outcomes[i] == Maybe) && (exists j :: 0 <= j < |outcomes| && outcomes[j] == No))
    ensures topic == "Financial" ==>
      (Reduce(topic, outcomes) == AnswerYes <==> exists i :: 0 <= i < |outcomes| && outcomes[i] == Yes)
    ensures topic !in {"Love", "Career", "Financial"} ==> Reduce(topic, outcomes) == AnswerNo
  {
    if topic == "Love" && Reduce(topic, outcomes) == AnswerNo {
      var o :| o in outcomes && o in {No, Maybe};
      var i :| 0 <= i < |outcomes| && outcomes[i] == o;
    }
  }

  /**
   * Adding cards can move the answer only one way: under Love and Career a No
   * stays No, under Financial a Yes stays Yes.
   */
  lemma MoreCardsOnlyOneWay(topic: string, outcomes: seq<Outcome>, more: seq<Outcome>)
    ensures topic in {"Love", "Career"} && Reduce(topic, outcomes) == AnswerNo ==> Reduce(topic, outcomes + more) == AnswerNo
    ensures topic == "Financial" && Reduce(topic, outcomes) == AnswerYes ==> Reduce(topic, outcomes + more) == AnswerYes
  {
    forall o | o in outcomes ensures o in outcomes + more {
      var i :| 0 <= i < |outcomes| && outcomes[i] == o;
      assert (outcomes + more)[i] == o;
    }
  }

  /** The worked cases of the reading rules. */
  lemma ReductionExamples()
    ensures Reduce("Love", [Yes, Yes, Yes]) == AnswerYes
    ensures Reduce("Love", [Yes, No, Yes]) == AnswerNo
    ensures Reduce("Love", [Yes, Maybe, Yes]) == AnswerNo
    ensures Reduce("Career", [No, Maybe, Yes]) == AnswerNo
    ensures Reduce("Career", [No, No, Yes]) == AnswerYes
    ensures Reduce("Financial", [No, No, No]) == AnswerNo
    ensures Reduce("Financial", [No, Yes, No]) == AnswerYes
    ensures Reduce("", [Yes, Yes, Yes]) == AnswerNo
    ensures Reduce("Love", [Uncertain, Uncertain, Unnamed]) == AnswerYes
  {
    assert [Yes, No, Yes][1] == No;
    assert [Yes, Maybe, Yes][1] == Maybe;
    assert [No, Maybe, Yes][0] == No && [No, Maybe, Yes][1] == Maybe;
    assert [No, Yes, No][1] == Yes;
  }

  // ----------------------------------------------------------------------------
  // The overall answer
  // ----------------------------------------------------------------------------

  lemma {:induction false} NonNullAppend(a: seq<Slot>, b: seq<Slot>)
    ensures NonNull(a + b) == NonNull(a) + NonNull(b)
  {
    if a == [] {
      assert a + b == b;
    } else {
      assert (a + b)[0] == a[0];
      assert (a + b)[1..] == a[1..] + b;
      NonNullAppend(a[1..], b);
    }
  }

  lemma {:induction false} NonNullKeeps(a: seq<Slot>)
    requires Null !in a
    ensures NonNull(a) == a
  {
    if a != [] {
      NonNullKeeps(a[1..]);
    }
  }


  /**
   * With all primary slots filled, the answer is the topic's rule over the
   * primary cards' outcomes, followed by the clarifying card's outcome only when
   * that card is not null.
   */
  lemma ClarifyJoinsWhenPresent(fortunes: seq<Slot>, clarify: Slot, topic: string)
    requires Null !in fortunes
    ensures Evaluate(fortunes, clarify, topic) ==
      Reduce(topic, Outcomes(fortunes) + (if clarify == Null then [] else [Classify(clarify)]))
  {
    NonNullAppend(fortunes, [clarify]);
    NonNullKeeps(fortunes);
    assert NonNull([clarify]) == if clarify == Null then [] else [clarify];
    assert Outcomes(fortunes + (if clarify == Null then [] else [clarify])) ==
      Outcomes(fortunes) + (if clarify == Null then [] else [Classify(clarify)]);
  }

  /**
   * The clarifying card can change the answer in one direction only: under Love
   * and Career it can turn Yes into No, under Financial No into Yes.
   */
  lemma ClarifyOnlyOneWay(fortunes: seq<Slot>, clarify: Slot, topic: string)
    requires Null !in fortunes
    ensures topic in {"Love", "Career"} && Evaluate(fortunes, Null, topic) == AnswerNo ==>
      Evaluate(fortunes, clarify, topic) == AnswerNo
    ensures topic == "Financial" && Evaluate(fortunes, Null, topic) == AnswerYes ==>
      Evaluate(fortunes, clarify, topic) == AnswerYes
  {
    ClarifyJoinsWhenPresent(fortunes, Null, topic);
    ClarifyJoinsWhenPresent(fortunes, clarify, topic);
    assert Outcomes(fortunes) + [] == Outcomes(fortunes);
    MoreCardsOnlyOneWay(topic, Outcomes(fortunes), if clarify == Null then [] else [Classify(clarify)]);
  }

  /**
   * The answer depends on the cards only through which slots are null and how
   * each card classifies.
   */
  lemma SameClassesSameAnswer(a: seq<Slot>, b: seq<Slot>, clarify: Slot, topic: string)
    requires |a| == |b|
    requires forall i :: 0 <= i < |a| ==> (a[i] == Null <==> b[i] == Null) && Classify(a[i]) == Classify(b[i])
    ensures Evaluate(a, clarify, topic) == Evaluate(b, clarify, topic)
  {
    if Null !in a {
      assert Null !in b by {
        forall i | 0 <= i < |b| ensures b[i] != Null {
          assert a[i] != Null;
        }
      }
      ClarifyJoinsWhenPresent(a, clarify, topic);
      ClarifyJoinsWhenPresent(b, clarify, topic);
      assert Outcomes(a) == Outcomes(b);
    } else {
      var i :| 0 <= i < |a| && a[i] == Null;
      assert b[i] == Null;
    }
  }

  /** Two cards whose non-empty names have the same normal form classify alike. */
  lemma SameNormalFormSameClass(name1: string, name2: string, meaning: string)
    requires name1 != "" && name2 != "" && Normalize(name1) == Normalize(name2)
    ensures Classify(Present(Card(Some(name1), meaning))) == Classify(Present(Card(Some(name2), meaning)))
  {
  }

  /** Classifying slots distributes over concatenation. */
  lemma OutcomesAppend(a: seq<Slot>, b: seq<Slot>)
    ensures Outcomes(a + b) == Outcomes(a) + Outcomes(b)
  {
    forall i | 0 <= i < |a + b|
      ensures Outcomes(a + b)[i] == (Outcomes(a) + Outcomes(b))[i]
    {
      if i < |a| {
        assert (a + b)[i] == a[i];
      } else {
        assert (a + b)[i] == b[i - |a|];
      }
    }
  }

  /** Classifying slots maps over a slot placed between two lists. */
  lemma OutcomesAround(before: seq<Slot>, x: Slot, after: seq<Slot>)
    ensures Outcomes(before + [x] + after) == Outcomes(before) + [Classify(x)] + Outcomes(after)
  {
    OutcomesAppend(before + [x], after);
    OutcomesAppend(before, [x]);
  }

  /**
   * Replacing one present slot by another that classifies alike, between the
   * same neighbours, does not change the answer.
   */
  lemma SameClassInPlaceSameAnswer(before: seq<Slot>, after: seq<Slot>, clarify: Slot, topic: string, x: Slot, y: Slot)
    requires x != Null && y != Null && Classify(x) == Classify(y)
    ensures Evaluate(before + [x] + after, clarify, topic) == Evaluate(before + [y] + after, clarify, topic)
  {
    var a, b := before + [x] + after, before + [y] + after;
    assert Null in a <==> Null in before || Null in after;
    assert Null in b <==> Null in before || Null in after;
    if Null !in a {
      ClarifyJoinsWhenPresent(a, clarify, topic);
      ClarifyJoinsWhenPresent(b, clarify, topic);
      OutcomesAround(before, x, after);
      OutcomesAround(before, y, after);
    }
  }

  /** Two non-empty names with the same normal form give the same answer in the same position. */
  lemma SameNormalFormSameAnswer(before: seq<Slot>, after: seq<Slot>, clarify: Slot, topic: string,
                                 name1: string, name2: string, meaning: string)
    requires name1 != "" && name2 != "" && Normalize(name1) == Normalize(name2)
    ensures Evaluate(before + [Present(Card(Some(name1), meaning))] + after, clarify, topic)
         == Evaluate(before + [Present(Card(Some(name2), meaning))] + after, clarify, topic)
  {
    SameNormalFormSameClass(name1, name2, meaning);
    SameClassInPlaceSameAnswer(before, after, clarify, topic,
      Present(Card(Some(name1), meaning)), Present(Card(Some(name2), meaning)));
  }

  /** A card named "The Fool" and one named "fool" give the same answer in the same position. */
  lemma SameAnswerForTheFoolAndFool(before: seq<Slot>, after: seq<Slot>, clarify: Slot, topic: string, meaning: string)
    ensures Evaluate(before + [Present(Card(Some("The Fool"), meaning))] + after, clarify, topic)
         == Evaluate(before + [Present(Card(Some("fool"), meaning))] + after, clarify, topic)
  {
    NormalizeTheFool();
    SameNormalFormSameAnswer(before, after, clarify, topic, "The Fool", "fool", meaning);
  }
}
