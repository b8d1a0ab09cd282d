# Tarot reading: a verified model of its deterministic core

The app asks for a lucky number from 1 to 100. On the fortune page it draws
three tarot cards from a pseudo-random generator seeded with that number and
the date. It can draw one more "clarifying" (destiny) card. It then turns the
card names into a Yes/No answer according to the topic the user picked (Love,
Career or Financial).

This project models the three pieces of logic in `src/App.jsx` that decide
what the user sees, and proves what they promise:

- **Seed entry** (`seed_entry.dfy`, module `SeedEntry`).
  - `parseInt(text, 10)` on the raw input, as JavaScript defines it: skip leading white space, take an optional sign, then the longest run of digits.
  - The accept rule (non-empty, a number, from 1 to 100). On acceptance the raw text, not the number, is carried to the fortune page.
  - The `default` seed used when no seed arrives.
- **Seeded sampler** (`sampler.dfy`, module `Sampler`).
  - The daily seed string `<seed>-<YYYY-MM-DD>`, with `-clarify` appended for the clarifying card.
  - The draw loop, written as a `while` loop (`SampleIndices`) and proved against a reference function (`Accumulate`). Starting from nothing, or from a copy of the three drawn indices, it keeps each drawn index not already held until it holds three, or one more than before.
  - The fortune button (`FetchFortune`), which maps the indices to cards and hands the result to the page.
- **Verdict evaluator** (`verdict.dfy`, module `Verdict`).
  - Each card name is lower-cased and loses one leading `the` plus the white space after it.
  - The name is looked up in the Yes, No and Maybe tables, in that order. A name in none of them is Uncertain. A missing card or name gets the "cosmos cannot determine" outcome.
  - The outcomes are reduced by the topic rule. The page shows the "Your Fortune" prompt while any of the three fortunes is still null.
- **The reading** (`reading.dfy`, module `Reading`). The page state (fortunes, clarifying card, indices, topic) and the answer shown from it. The buttons write the fortunes, the clarifying card and the indices; the topic is written by the topic dropdown, and a button's update never changes it.

Shared pieces:

- `optional.dfy`: an `Option` type.
- `js_text.dfy`: JavaScript white space, decimal digits and lower-casing.
- `cards.dfy`: a card and an array slot.
  - A slot is `null`, `undefined` or a card.
  - `undefined` is what an index past the end of the card list yields. It counts as drawn (it is not `null`), but it has no name.

The pseudo-random generator is a parameter: a function from the seed string to the sequence of indices it yields, already scaled to the card list and rounded down. The date is a parameter too, and so is the result of fetching the card list.

## Model

| member | source | states |
|---|---|---|
| `Cards.CardAt` | src/App.jsx:104 | the slot at an index is the card there when the index is in range and `undefined` past the end, never `null` |
| `Cards.CardsAt` | src/App.jsx:104 | mapping indices to cards keeps their number and order, slot by slot |
| `JsText.IsWhiteSpace` | src/App.jsx:209 | the white space shared by `\s` and `parseInt`'s trim contains no digit, no sign and no ASCII letter |
| `JsText.ToLower` | src/App.jsx:208 | lower-casing keeps the length, changes each character on its own, and leaves no upper-case ASCII letter |
| `JsText.WhiteSpacePrefixLength` | src/App.jsx:209 | the run of JavaScript white space at the start of a string ends at the first character that is not white space |
| `JsText.DigitPrefixLength` | src/App.jsx:42 | the run of decimal digits at the start of a string ends at the first non-digit |
| `Verdict.AnswerText` | src/App.jsx:200-232 | display helper for the answer line: the text is the "Your Fortune" prompt exactly when the answer is pending, "Yes" exactly for a Yes answer and "No" exactly for a No answer |
| `Verdict.StripLeadingThe` | src/App.jsx:209 | the result is a suffix of the name; it differs from the name exactly when the name starts with `the` and white space; then all that was removed after `the` is white space and the rest does not start with white space |
| `Verdict.Normalize` | src/App.jsx:207-209 | the normal form is a suffix of the lower-cased name, with no upper-case ASCII letter in it; when it differs from the lower-cased name is stated by `Verdict.StripLeadingThe` |
| `Verdict.Lookup` | src/App.jsx:210-213 | a lookup is never the missing-card outcome; it is Yes exactly for a name in the Yes table, and Uncertain exactly for a name in no table |
| `Verdict.Classify` | src/App.jsx:204-214 | a missing slot, a card without a name, or an empty name give the "cosmos cannot determine" outcome, and nothing else does; any other card is classified by table lookup of its normalised name |
| `Verdict.Reduce` | src/App.jsx:218-230 | a reduction of outcomes never yields the pending prompt |
| `Verdict.NonNull` | src/App.jsx:203 | filtering leaves no `null` and keeps only slots that were there |
| `Verdict.Outcomes` | src/App.jsx:204-214 | one outcome per slot, each the slot's classification |
| `Verdict.TablesDisjoint` | src/App.jsx:8-26 | no name is in two of the Yes, No and Maybe tables |
| `Verdict.LookupByTable` | src/App.jsx:210-213 | a name is Yes, No or Maybe exactly when it is in that table, and Uncertain exactly when it is in none; the check order never matters |
| `Verdict.StripArticleAndSpace` | src/App.jsx:209 | `the`, one space and a word not starting with white space strip to that word (lower-casing is not involved) |
| `Verdict.NormalizeTheFool` | src/App.jsx:207-209 | "The Fool" and "fool" both normalise to "fool" |
| `Verdict.FoolIsUnlisted` | src/App.jsx:8-26 | "fool" is in none of the tables, since the Yes table lists "the fool" |
| `Verdict.TheFoolIsUncertain` | src/App.jsx:205-213 | a card named "The Fool", or "fool", is classified Uncertain |
| `Verdict.NormalizeDoubledArticle` | src/App.jsx:207-209 | only one article is removed: "The The Fool" normalises to "the fool" |
| `Verdict.DoubledArticleReachesTheFool` | src/App.jsx:205-213 | a card named "The The Fool" is classified Yes |
| `Verdict.ArticleEntriesNeedADoubleArticle` | src/App.jsx:207-210 | a name can only match a table entry beginning with `the` if, once lower-cased, it starts with `the` and differs from that entry |
| `Verdict.Votes` | src/App.jsx:219-230 | the votes are exactly the Yes, No and Maybe outcomes |
| `Verdict.UncertainIsNoVote` | src/App.jsx:219-230 | Uncertain and unnamed outcomes never change the answer |
| `Verdict.ReductionRules` | src/App.jsx:219-230 | Love is No iff some outcome is No or Maybe; Career is No iff there is a Maybe and a No; Financial is Yes iff there is a Yes; any other topic, including none chosen, stays No |
| `Verdict.MoreCardsOnlyOneWay` | src/App.jsx:219-230 | extra outcomes never turn a Love or Career No into Yes, nor a Financial Yes into No |
| `Verdict.ReductionExamples` | src/App.jsx:200-230 | concrete readings per topic, such as Career over No, No, Yes giving Yes, and no topic giving No |
| `Verdict.NonNullAppend` | src/App.jsx:203 | filtering nulls distributes over concatenation |
| `Verdict.NonNullKeeps` | src/App.jsx:203 | filtering a list with no null changes nothing |
| `Verdict.Evaluate` | src/App.jsx:200-233 | the answer is pending exactly when one of the fortunes is null, whatever the clarifying card and topic; an `undefined` fortune does not make it pending |
| `Verdict.ClarifyJoinsWhenPresent` | src/App.jsx:203 | with all fortunes present, the answer reduces the fortunes' outcomes plus the clarifying card's outcome, and the latter only when that card is not null |
| `Verdict.ClarifyOnlyOneWay` | src/App.jsx:203-230 | a clarifying card never turns a Love or Career No into Yes, nor a Financial Yes into No |
| `Verdict.SameClassesSameAnswer` | src/App.jsx:203-230 | readings whose slots agree on null-ness and classification get the same answer |
| `Verdict.SameNormalFormSameClass` | src/App.jsx:205-213 | two cards whose non-empty names have the same normal form get the same outcome |
| `Verdict.OutcomesAppend` | src/App.jsx:204 | classifying the slots of a concatenation gives the concatenation of their outcome lists |
| `Verdict.OutcomesAround` | src/App.jsx:204 | the outcome list of a slot placed between two lists is the outcomes before it, its own outcome, then the outcomes after it |
| `Verdict.SameClassInPlaceSameAnswer` | src/App.jsx:201-230 | replacing one non-null slot by another with the same outcome, in the same position, leaves the answer unchanged |
| `Verdict.SameNormalFormSameAnswer` | src/App.jsx:205-213 | swapping a card for one whose non-empty name has the same normal form does not change the answer |
| `Verdict.SameAnswerForTheFoolAndFool` | src/App.jsx:205-213 | a reading with "The Fool" gets the same answer as one with "fool" in its place |
| `Sampler.DailySeed` | src/App.jsx:90 | the seed string holds the user's seed, a dash and the date at fixed places, followed by `-clarify` for a clarifying draw |
| `Sampler.ClarifySeedExtendsPrimary` | src/App.jsx:90 | the clarifying seed is the primary seed of the same day with `-clarify` appended, so the two differ |
| `Sampler.DailySeedDeterminesSeedAndDate` | src/App.jsx:88-90 | for dates of equal length, equal seed strings of one draw kind mean the same lucky number and the same day |
| `Sampler.PrimaryAndClarifySeedsNeverMeet` | src/App.jsx:88-90 | with an ISO date, no primary seed string equals any clarifying seed string |
| `Sampler.Accumulate` | src/App.jsx:94-101 | the reference draw fails only while fewer than the target indices are held, and a finished draw holds exactly the target number (or the start, when it already has enough) |
| `Sampler.AccumulateShape` | src/App.jsx:94-101 | a finished draw keeps the start indices as a prefix, reaches the target length, and adds only drawn values, each different from all before it |
| `Sampler.AccumulateInRange` | src/App.jsx:97-99 | in-range draws added to in-range indices give in-range indices |
| `Sampler.AccumulateSucceedsIff` | src/App.jsx:96-101 | the draw finishes exactly when the draws hold enough distinct values not already held to reach the target |
| `Sampler.AccumulateIgnoresLaterDraws` | src/App.jsx:96-101 | once finished, further draws change nothing: the loop reads only what it needs |
| `Sampler.SampleIndices` | src/App.jsx:94-101 | the loop computes the reference draw for its start and target; when it finishes it holds the target number of indices, the start as a prefix, and no new index repeated or already held |
| `Sampler.PrimaryDraw` | src/App.jsx:94-101 | a primary draw gives exactly three pairwise-distinct indices, in range when the draws are |
| `Sampler.ClarifyDraw` | src/App.jsx:94-101 | a clarifying draw keeps the primary indices unchanged and appends exactly one index, not among them and in range when the draws are |
| `Sampler.PrimaryThenClarify` | src/App.jsx:94-101 | a primary draw followed by a clarifying one gives four distinct indices |
| `Sampler.FetchFortune` | src/App.jsx:73-116 | a failed fetch gives three null fortunes, or a null clarifying card with the alert; otherwise a primary draw gives the cards at three distinct drawn indices plus those indices, and a clarifying draw gives the card at the last index, one not among the primary ones |
| `SeedEntry.ParseInt` | src/App.jsx:42 | a number comes out only of text holding a digit; its values are stated by `SeedEntry.ParseIntRoundTrip` and `SeedEntry.ParseIntNaN` |
| `SeedEntry.Accepts` | src/App.jsx:43 | a seed text is accepted exactly when it parses to a number from 1 to 100; the empty text never parses |
| `SeedEntry.DecimalStringValue` | src/App.jsx:42 | the decimal numeral of a number reads back as that number |
| `SeedEntry.NumeralValue` | src/App.jsx:42 | a numeral with any number of leading zeros reads back as the same number |
| `SeedEntry.ParseDigits` | src/App.jsx:42 | there is a number exactly when the text starts with a digit |
| `SeedEntry.ParseSigned` | src/App.jsx:42 | a negative result comes only after a minus sign |
| `SeedEntry.ParseDigitsRoundTrip` | src/App.jsx:42 | the digits of a numeral, with any leading zeros, followed by a non-digit read back as its number |
| `SeedEntry.ParseSignedPlus` | src/App.jsx:42 | a plus sign leaves the number unchanged |
| `SeedEntry.ParseSignedMinus` | src/App.jsx:42 | a minus sign before digits negates their number |
| `SeedEntry.ParseIntSkipsWhiteSpace` | src/App.jsx:42 | leading white space is skipped and what follows is read as a signed number |
| `SeedEntry.ParseSignedRoundTrip` | src/App.jsx:42 | a sign before such a numeral reads back as its number, negated after `-` |
| `SeedEntry.ParseIntRoundTrip` | src/App.jsx:42 | white space, an optional sign, a numeral with any leading zeros and trailing non-digit text read back as the numeral's number, with its sign |
| `SeedEntry.ParseIntNaN` | src/App.jsx:42-43 | text with no digit after the white space and the optional sign, including the empty text, is not a number |
| `SeedEntry.HandleSubmit` | src/App.jsx:40-48 | submitting navigates exactly when the text parses to a number from 1 to 100; the seed carried is the raw text, never empty; otherwise the alert is shown |
| `SeedEntry.FortuneSeed` | src/App.jsx:192 | the fortune page's seed is never empty: the one it received when non-empty, `default` otherwise |
| `SeedEntry.AcceptedSeedReachesFortunePage` | src/App.jsx:43-44 | an accepted seed reaches the fortune page unchanged |
| `SeedEntry.AcceptsNumbersInRange` | src/App.jsx:42-44 | every number from 1 to 100 is accepted with optional leading white space, a plus sign, any leading zeros and trailing non-digit text, and the raw text is the seed |
| `SeedEntry.RefusesNumbersOutOfRange` | src/App.jsx:42-46 | zero, negative numbers and numbers above 100 are refused with the alert, whatever surrounds them and however many leading zeros they have |
| `SeedEntry.PlainExample` | src/App.jsx:42-44 | "42" is accepted as typed |
| `SeedEntry.SpacedPlusExample` | src/App.jsx:42-44 | " +7" is accepted as typed |
| `SeedEntry.CutAtNonDigitExamples` | src/App.jsx:42-44 | "1e2" reads as 1 and "3.7" as 3, and both are accepted |
| `SeedEntry.ZeroExample` | src/App.jsx:42-46 | "0" is refused |
| `SeedEntry.NegativeExample` | src/App.jsx:42-46 | "-5" is refused |
| `SeedEntry.AboveRangeExample` | src/App.jsx:42-46 | "101" is refused |
| `SeedEntry.NotANumberExamples` | src/App.jsx:42-46 | the empty text, "abc" and a lone "+" are refused |
| `SeedEntry.DoubleZeroExample` | src/App.jsx:42-46 | "00" reads as 0 and is refused |
| `SeedEntry.PaddedAboveRangeExample` | src/App.jsx:42-46 | "0101" reads as 101 and is refused |
| `SeedEntry.LeadingZerosMakeAnotherSeed` | src/App.jsx:42-44 | "007" and "7" are both accepted, as two different seeds |
| `Reading.ShownAnswer` | src/App.jsx:200-233 | the page's text is the "Your Fortune" prompt exactly when a fortune is still null, and "Yes" or "No" otherwise |
| `Reading.Apply` | src/App.jsx:106-112 | a primary update replaces the fortunes, and the indices with the drawn ones exactly when it carries them (keeping the old ones otherwise); a clarifying update replaces only the clarifying card; the topic is untouched |
| `Reading.InitialPageIsPending` | src/App.jsx:186-187 | a fresh page shows the prompt, whatever topic or clarifying card it then has |
| `Reading.DrawnFortunesAreAnswered` | src/App.jsx:104-109 | after any successful primary draw the page shows an answer, not the prompt, and stores the drawn indices |
| `Reading.FailedFetchIsPending` | src/App.jsx:110-112 | after a failed primary fetch the page shows the prompt again and keeps its old indices |
| `Reading.LostClarifyingCardIsIgnored` | src/App.jsx:110-114 | a lost clarifying card leaves the answer that of the three fortunes alone |
| `Reading.ClarifyKeepsPending` | src/App.jsx:106 | a clarifying update never changes whether the page shows the prompt |

## Left out

- Rendering, routing and React state: the page state is a value (`Reading.Page`), and each button outcome is one `Reading.Apply` step: `setFortunes`, together with `setIndices` after a successful primary draw, or the clarifying card's setter. No state between those two back-to-back setter calls is modelled. The topic dropdown's setter is not an update of its own; the topic is a field of the page. The question box, the topic dropdown being disabled until a question is typed, and the "The answer to the question" line are not modelled.
- The request for the card list, its HTTP status check, JSON decoding and the `data.cards || data` choice are network I/O. `Sampler.FetchFortune` receives the card list, or `None` for any failure on that path.
- The internals of `seedrandom` and the floating-point `rng() * length` are left out. The generator is the `stream` parameter, giving already-scaled indices.
- The clock: today's date is the `today` parameter. `Sampler.PrimaryAndClarifySeedsNeverMeet` requires it to have the `YYYY-MM-DD` form.
- Sampler.SampleIndices: the source loops until it has enough distinct indices and never stops when the generator cannot supply them (for instance, a card list of fewer than three cards). Here a finite draw sequence that runs out gives `None`.
- `numCards` is computed in the button but never used; it is not modelled.
- Console logging, the card image and its `onError` fallback, and the display name computed in the card component (never used) are display-only.
- The alert on a lost clarifying card is modelled only as the `lost` flag of `Sampler.SetClarify`; the alert after a refused seed is modelled as `SeedEntry.Alert`.
- Both buttons can have requests in flight at once, and their completion order is not modelled. Each update is applied on its own.
- JsText.ToLower: lower-cases ASCII letters only. The full Unicode case mapping of `toLowerCase` is not modelled, so a name with non-ASCII capitals may normalise differently.
- Verdict.Classify: a card name is a string or missing. A name of another JavaScript type is not modelled.
- SeedEntry.ParseInt: returns 0 for `-0` (the comparisons against 1 and 100 treat both alike). Its numbers are exact integers, while JavaScript's value is a double, exact up to 2^53; every value it rounds is far above 100 (or far below 1), so whether a seed is accepted or refused is the same.
- SeedEntry.HandleSubmit: the input is any text. A number input in a browser may reject some texts before they reach the handler; that sanitising is not modelled.
