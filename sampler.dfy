/**
 * The seeded card sampler of the fortune button. A seed string is built from
 * the user's number, the calendar date and the kind of draw; a pseudo-random
 * generator seeded with it yields card indices, and the draw keeps each index
 * that is not yet among the chosen ones until it has enough of them.
 *
 * The generator itself is not modelled: the indices it yields for a seed
 * string, already scaled to the length of the card list and rounded down,
 * are an input sequence `draws`. The source loops until it has enough
 * distinct indices; here a finite `draws` that runs out before that gives
 * `None`.
 */
module Sampler {
  import opened Optional
  import opened Cards

  // ----------------------------------------------------------------------------
  // The seed string
  // ----------------------------------------------------------------------------

  /**
   * `${seed}-${today}` followed by `-clarify` for the clarifying card: the
   * user's seed, a dash and the date sit at fixed places, and the tag after them.
   */
  function DailySeed(seed: string, today: string, isClarify: bool): (r: string)
    ensures |r| == |seed| + 1 + |today| + (if isClarify then 8 else 0)
    ensures r[..|seed|] == seed && r[|seed|] == '-'
    ensures r[|seed| + 1..|seed| + 1 + |today|] == today
    ensures isClarify ==> r[|seed| + 1 + |today|..] == "-clarify"
  {
    seed + "-" + today + (if isClarify then "-clarify" else "")
  }

  /** A `YYYY-MM-DD` calendar date, the date part of an ISO 8601 timestamp. */
  predicate IsIsoDate(d: string) {
    && |d| == 10
    && d[4] == '-' && d[7] == '-'
    && forall i :: 0 <= i < 10 && i != 4 && i != 7 ==> '0' <= d[i] <= '9'
  }

  /** The clarifying seed is the primary seed of the same day with `-clarify` appended, so the two differ. */
  lemma ClarifySeedExtendsPrimary(seed: string, today: string)
    ensures DailySeed(seed, today, true) == DailySeed(seed, today, false) + "-clarify"
    ensures DailySeed(seed, today, true) != DailySeed(seed, today, false)
  {
    assert |DailySeed(seed, today, true)| == |DailySeed(seed, today, false)| + 8;
  }

  /**
   * For dates of one length (every ISO date has ten characters), the seed
   * string of a draw kind determines both the user's seed and the date: two
   * different days never share a seed string.
   */
  lemma DailySeedDeterminesSeedAndDate(seed1: string, seed2: string, today1: string, today2: string, isClarify: bool)
    requires |today1| == |today2|
    requires DailySeed(seed1, today1, isClarify) == DailySeed(seed2, today2, isClarify)
    ensures seed1 == seed2 && today1 == today2
  {
    var s1, s2 := DailySeed(seed1, today1, isClarify), DailySeed(seed2, today2, isClarify);
    assert |seed1| == |seed2| by {
      assert |s1| == |s2|;
    }
  }

  /**
   * A primary seed string ends in the last digit of its date and a clarifying
   * one in `y`, so for ISO dates no primary draw shares a seed with any
   * clarifying draw, whatever the user's numbers and days.
   */
  lemma PrimaryAndClarifySeedsNeverMeet(seed1: string, seed2: string, today1: string, today2: string)
    requires IsIsoDate(today1)
    ensures DailySeed(seed1, today1, false) != DailySeed(seed2, today2, true)
  {
    var p, c := DailySeed(seed1, today1, false), DailySeed(seed2, today2, true);
    assert p[|p| - 1] == today1[9];
    assert c[|c| - 1] == 'y';
  }

  // ----------------------------------------------------------------------------
  // The draw
  // ----------------------------------------------------------------------------

  /** The indices the draw starts from: a copy of the primary indices for a clarifying draw, none otherwise. */
  function StartIndices(isClarify: bool, existing: seq<nat>): seq<nat> {
    if isClarify then existing else []
  }

  /** The number of indices the draw stops at: one more than the primary ones for a clarifying draw, three otherwise. */
  function TargetLength(isClarify: bool, existing: seq<nat>): nat {
    if isClarify then |existing| + 1 else 3
  }

  /**
   * The reference definition of the draw loop: while fewer than `target`
   * indices are held, take the next draw and append it unless it is already
   * held. `None` when the draws run out first, which can only happen while
   * fewer than `target` indices are held; otherwise exactly `target` of them
   * (or the held ones, when there are already enough).
   */
  function Accumulate(acc: seq<nat>, target: nat, draws: seq<nat>): (r: Option<seq<nat>>)
    ensures r.None? ==> |acc| < target
    ensures r.Some? ==> |r.value| == (if |acc| >= target then |acc| else target)
    decreases |draws|
  {
    if |acc| >= target then Some(acc)
    else if draws == [] then None
    else if draws[0] in acc then Accumulate(acc, target, draws[1..])
    else Accumulate(acc + [draws[0]], target, draws[1..])
  }

  /** Every element of `r` from position `k` on differs from every element before it. */
  ghost predicate FreshFrom(r: seq<nat>, k: nat) {
    forall i, j :: 0 <= j < i < |r| && k <= i ==> r[i] != r[j]
  }

  /** No index occurs twice: every element is fresh from the start on. */
  ghost predicate Distinct(s: seq<nat>) {
    FreshFrom(s, 0)
  }

  /** Every element is a valid index into a list of `n` cards. */
  ghost predicate InRange(s: seq<nat>, n: nat) {
    forall i :: 0 <= i < |s| ==> s[i] < n
  }

  /** The values among the draws that are not already held. */
  ghost function NewValues(acc: seq<nat>, draws: seq<nat>): set<nat> {
    set x | x in draws && x !in acc
  }

  /**
   * What the draw produces: the held indices unchanged as a prefix, then new
   * indices up to the target, each taken from the draws and different from
   * everything before it.
   */
  lemma {:induction false} AccumulateShape(acc: seq<nat>, target: nat, draws: seq<nat>)
    requires Accumulate(acc, target, draws).Some?
    ensures var r := Accumulate(acc, target, draws).value;
      && |r| == (if |acc| >= target then |acc| else target)
      && r[..|acc|] == acc
      && FreshFrom(r, |acc|)
      && forall i :: |acc| <= i < |r| ==> r[i] in draws
    decreases |draws|
  {
    if |acc| >= target {
    } else if draws[0] in acc {
      AccumulateShape(acc, target, draws[1..]);
    } else {
      var acc' := acc + [draws[0]];
      AccumulateShape(acc', target, draws[1..]);
      var r := Accumulate(acc', target, draws[1..]).value;
      assert r[..|acc'|] == acc';
      assert r[..|acc|] == acc by {
        assert r[..|acc|] == r[..|acc'|][..|acc|];
      }
      forall i, j | 0 <= j < i < |r| && |acc| <= i ensures r[i] != r[j] {
        if i == |acc| {
          assert r[i] == draws[0] && r[j] == acc[j];
        }
      }
    }
  }

  /** Indices taken from in-range draws, added to in-range held indices, are in range. */
  lemma AccumulateInRange(acc: seq<nat>, target: nat, draws: seq<nat>, n: nat)
    requires Accumulate(acc, target, draws).Some?
    requires InRange(acc, n) && InRange(draws, n)
    ensures InRange(Accumulate(acc, target, draws).value, n)
  {
    AccumulateShape(acc, target, draws);
    var r := Accumulate(acc, target, draws).value;
    forall i | 0 <= i < |r| ensures r[i] < n {
      if i < |acc| {
        assert r[i] == r[..|acc|][i] == acc[i];
      }
    }
  }

  /**
   * The draw succeeds exactly when the draws hold enough distinct values that
   * are not already held to reach the target.
   */
  lemma {:induction false} AccumulateSucceedsIff(acc: seq<nat>, target: nat, draws: seq<nat>)
    ensures Accumulate(acc, target, draws).Some? <==> |acc| + |NewValues(acc, draws)| >= target
    decreases |draws|
  {
    if |acc| >= target {
    } else if draws == [] {
      assert NewValues(acc, draws) == {};
    } else if draws[0] in acc {
      assert NewValues(acc, draws) == NewValues(acc, draws[1..]) by {
        assert forall x :: x in draws <==> x == draws[0] || x in draws[1..];
      }
      AccumulateSucceedsIff(acc, target, draws[1..]);
    } else {
      var d := draws[0];
      assert NewValues(acc, draws) == {d} + NewValues(acc + [d], draws[1..]) by {
        assert forall x :: x in draws <==> x == d || x in draws[1..];
        assert forall x :: x in acc + [d] <==> x == d || x in acc;
      }
      assert d !in NewValues(acc + [d], draws[1..]);
      AccumulateSucceedsIff(acc + [d], target, draws[1..]);
    }
  }

  /**
   * The draw reads only as many draws as it needs: once it succeeds on a
   * sequence of draws, any further draws change nothing.
   */
  lemma {:induction false} AccumulateIgnoresLaterDraws(acc: seq<nat>, target: nat, draws: seq<nat>, more: seq<nat>)
    requires Accumulate(acc, target, draws).Some?
    ensures Accumulate(acc, target, draws + more) == Accumulate(acc, target, draws)
    decreases |draws|
  {
    if |acc| < target {
      assert (draws + more)[0] == draws[0];
      assert (draws + more)[1..] == draws[1..] + more;
      if draws[0] in acc {
        AccumulateIgnoresLaterDraws(acc, target, draws[1..], more);
      } else {
        AccumulateIgnoresLaterDraws(acc + [draws[0]], target, draws[1..], more);
      }
    }
  }

  /**
   * The draw loop of the fortune button. Starts from a copy of `existing` for
   * a clarifying draw and from nothing otherwise, and appends each draw that is
   * not yet held until it holds three indices, or one more than `existing`.
   */
  method SampleIndices(isClarify: bool, existing: seq<nat>, draws: seq<nat>) returns (r: Option<seq<nat>>)
    ensures r == Accumulate(StartIndices(isClarify, existing), TargetLength(isClarify, existing), draws)
    ensures r.Some? ==>
      && |r.value| == TargetLength(isClarify, existing)
      && r.value[..|StartIndices(isClarify, existing)|] == StartIndices(isClarify, existing)
      && FreshFrom(r.value, |StartIndices(isClarify, existing)|)
  {
    var indices := if isClarify then existing else [];
    var target := if isClarify then |existing| + 1 else 3;
    var k := 0;
    while |indices| < target
      invariant 0 <= k <= |draws|
      invariant Accumulate(indices, target, draws[k..]) == Accumulate(StartIndices(isClarify, existing), target, draws)
      decreases |draws| - k
    {
      if k == |draws| {
        return None;
      }
      var index := draws[k];
      assert draws[k..][1..] == draws[k + 1..];
      k := k + 1;
      if index !in indices {
        indices := indices + [index];
      }
    }
    r := Some(indices);
    AccumulateShape(StartIndices(isClarify, existing), target, draws);
  }

  // ----------------------------------------------------------------------------
  // The two kinds of draw
  // ----------------------------------------------------------------------------

  /** A primary draw that succeeds holds exactly three distinct indices, in range when the draws are. */
  lemma PrimaryDraw(draws: seq<nat>, n: nat)
    requires Accumulate([], 3, draws).Some?
    ensures var r := Accumulate([], 3, draws).value;
      |r| == 3 && Distinct(r) && (InRange(draws, n) ==> InRange(r, n))
  {
    AccumulateShape([], 3, draws);
    if InRange(draws, n) {
      AccumulateInRange([], 3, draws, n);
    }
  }

  /**
   * A clarifying draw that succeeds keeps the primary indices as an unchanged
   * prefix and appends exactly one index, different from every one of them and
   * in range when the draws are.
   */
  lemma ClarifyDraw(existing: seq<nat>, draws: seq<nat>, n: nat)
    requires Accumulate(existing, |existing| + 1, draws).Some?
    ensures var r := Accumulate(existing, |existing| + 1, draws).value;
      && |r| == |existing| + 1
      && r[..|existing|] == existing
      && r[|existing|] !in existing
      && (InRange(draws, n) ==> r[|existing|] < n)
  {
    AccumulateShape(existing, |existing| + 1, draws);
    var r := Accumulate(existing, |existing| + 1, draws).value;
    forall j | 0 <= j < |existing| ensures r[|existing|] != existing[j] {
      assert existing[j] == r[..|existing|][j] == r[j];
    }
  }

  /** A primary draw followed by a clarifying draw yields four distinct indices. */
  lemma PrimaryThenClarify(primary: seq<nat>, clarify: seq<nat>)
    requires Accumulate([], 3, primary).Some?
    requires Accumulate(Accumulate([], 3, primary).value, 4, clarify).Some?
    ensures var r := Accumulate(Accumulate([], 3, primary).value, 4, clarify).value;
      |r| == 4 && Distinct(r)
  {
    PrimaryDraw(primary, 0);
    var p := Accumulate([], 3, primary).value;
    AccumulateShape(p, 4, clarify);
    var r := Accumulate(p, 4, clarify).value;
    forall i, j | 0 <= j < i < 4 ensures r[i] != r[j] {
      if i < 3 {
        assert r[i] == p[i] && r[j] == p[j] by {
          assert r[..3] == p;
          assert r[i] == r[..3][i] && r[j] == r[..3][j];
        }
      }
    }
  }

  // ----------------------------------------------------------------------------
  // The fortune button
  // ----------------------------------------------------------------------------

  /** What the fortune button hands back to the page. */
  datatype Update =
    // primary draw: the three fortunes, and the chosen indices when the draw succeeded
    | SetFortunes(fortunes: seq<Slot>, indices: Option<seq<nat>>)
    // clarifying draw: the new card, and whether the "card was lost in the cosmos" alert is shown
    | SetClarify(card: Slot, lost: bool)

  /**
   * The fortune button. `fetched` is the card list, `None` when the request or
   * its decoding failed. `stream` gives, for a seed string, the scaled and
   * rounded-down outputs of the generator seeded with it. A primary draw hands
   * back the cards at the three chosen indices together with the indices; a
   * clarifying draw hands back the card at the last index, which is never one of
   * `existing`. On failure the fortunes become three nulls, or the clarifying
   * card null with an alert. `None` when the draws run out.
   */
  method FetchFortune(seed: string, today: string, isClarify: bool, existing: seq<nat>,
                      fetched: Option<seq<Card>>, stream: string -> seq<nat>)
    returns (u: Option<Update>)
    ensures fetched.None? ==>
      u == Some(if isClarify then SetClarify(Null, true) else SetFortunes([Null, Null, Null], None))
    ensures fetched.Some? ==>
      var draws := stream(DailySeed(seed, today, isClarify));
      var r := Accumulate(StartIndices(isClarify, existing), TargetLength(isClarify, existing), draws);
      && (u.Some? <==> r.Some?)
      && (u.Some? && !isClarify ==> u.value == SetFortunes(CardsAt(fetched.value, r.value), Some(r.value)))
      && (u.Some? && isClarify ==>
            r.value != [] && u.value == SetClarify(CardAt(fetched.value, r.value[|r.value| - 1]), false))
    ensures fetched.Some? && u.Some? && !isClarify ==>
      && u.value.SetFortunes? && u.value.indices.Some?
      && |u.value.fortunes| == 3 && Distinct(u.value.indices.value)
      && (InRange(stream(DailySeed(seed, today, isClarify)), |fetched.value|) ==>
            forall i :: 0 <= i < 3 ==>
              && u.value.indices.value[i] < |fetched.value|
              && u.value.fortunes[i] == Present(fetched.value[u.value.indices.value[i]]))
    ensures fetched.Some? && u.Some? && isClarify ==>
      && u.value.SetClarify?
      && exists j :: j !in existing && u.value.card == CardAt(fetched.value, j)
  {
    if fetched.None? {
      return Some(if isClarify then SetClarify(Null, true) else SetFortunes([Null, Null, Null], None));
    }
    var cards := fetched.value;
    var draws := stream(DailySeed(seed, today, isClarify));
    var indices := SampleIndices(isClarify, existing, draws);
    if indices.None? {
      return None;
    }
    var chosen := indices.value;
    var fortunes := CardsAt(cards, chosen);
    if isClarify {
      ClarifyDraw(existing, draws, |cards|);
      u := Some(SetClarify(fortunes[|fortunes| - 1], false));
    } else {
      PrimaryDraw(draws, |cards|);
      if InRange(draws, |cards|) {
        AccumulateInRange([], 3, draws, |cards|);
      }
      u := Some(SetFortunes(fortunes, Some(chosen)));
    }
  }
}
