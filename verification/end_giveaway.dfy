/** Closing a giveaway and drawing its winners (apps/bot/src/utils/giveaway/end-giveaway.ts). */
module EndGiveaway {
  import opened Wrappers
  import opened Sequences
  import opened GiveawayModel

  /** The random source `Math.floor(Math.random() * n)`: on round `i`, with `n` candidates
      left, the index drawn is `pick(i, n) % n`. Any function is a possible run. */
  type Oracle = (nat, nat) -> nat

  const NotFoundError := "Giveaway not found"
  const AlreadyEndedError := "Giveaway already ended"
  const EndFailedError := "An error occurred while ending the giveaway"

  datatype EndResult = EndResult(success: bool, winners: Option<seq<string>>, error: Option<string>)

  /** The partial Fisher–Yates draw: copy the list, then up to `count` times pick an index
      into the copy, push that element and splice it out. */
  method GetRandomWinners(participants: seq<string>, count: int, pick: Oracle) returns (winners: seq<string>)
    ensures |winners| == DrawSize(count, |participants|)
    ensures multiset(winners) <= multiset(participants)
    ensures forall w :: w in winners ==> w in participants
  {
    winners := [];
    var copy := participants;
    var i := 0;
    while i < count && |copy| > 0
      invariant |winners| == i
      invariant |copy| == |participants| - i
      invariant i <= DrawSize(count, |participants|)
      invariant multiset(winners) + multiset(copy) == multiset(participants)
    {
      var k := pick(i, |copy|) % |copy|;
      assert copy == copy[..k] + [copy[k]] + copy[k + 1..];
      winners := winners + [copy[k]];
      copy := copy[..k] + copy[k + 1..];
      i := i + 1;
    }
    assert forall w :: w in winners ==> w in multiset(participants);
  }

  /** The record after a successful end: the drawn winners stored, `ended` set, all else kept. */
  function Closed(g: Giveaway, winners: seq<string>): (c: Giveaway)
    ensures c.ended && c.winners == winners
    ensures c.participants == g.participants && c.endTime == g.endTime && c.id == g.id
  {
    g.(winners := winners, ended := true)
  }

  /** A draw that `execute` may store for `g`: `min(winnerCount, |participants|)` winners,
      each drawn at most as often as it participates. */
  ghost predicate ValidDraw(g: Giveaway, winners: seq<string>) {
    && |winners| == DrawSize(g.winnerCount, |g.participants|)
    && multiset(winners) <= multiset(g.participants)
  }

  /** Ending keeps a record well formed: the winners of a valid draw are distinct
      (the participants are) and are participants. */
  lemma ClosedWellFormed(g: Giveaway, winners: seq<string>)
    requires WellFormed(g) && !g.ended && ValidDraw(g, winners)
    ensures WellFormed(Closed(g, winners))
  {
    DistinctSub(winners, g.participants);
    forall w | w in winners ensures w in g.participants {
      assert w in multiset(winners);
    }
  }

  /** `execute(giveawayId)`: the guard chain "not found", "already ended", then the draw,
      and the single write of `winners` and `ended`. `saveOk` is the outcome of
      `giveaway.save()`; announcing the result is outside the model and cannot fail the call. */
  method Execute(store: GiveawayStore, giveawayId: int, pick: Oracle, saveOk: bool) returns (r: EndResult)
    requires store.Valid()
    modifies store
    ensures store.Valid()
    ensures store.settings == old(store.settings)
    ensures EndedStaysEnded(old(store.giveaways), store.giveaways)
    ensures giveawayId !in old(store.giveaways) ==>
      r == EndResult(false, None, Some(NotFoundError)) && store.giveaways == old(store.giveaways)
    ensures giveawayId in old(store.giveaways) && old(store.giveaways)[giveawayId].ended ==>
      r == EndResult(false, None, Some(AlreadyEndedError)) && store.giveaways == old(store.giveaways)
    ensures giveawayId in old(store.giveaways) && !old(store.giveaways)[giveawayId].ended && !saveOk ==>
      r == EndResult(false, None, Some(EndFailedError)) && store.giveaways == old(store.giveaways)
    ensures r.success <==> giveawayId in old(store.giveaways) && !old(store.giveaways)[giveawayId].ended && saveOk
    ensures r.success ==>
      && r.winners.Some? && r.error.None?
      && ValidDraw(old(store.giveaways)[giveawayId], r.winners.value)
      && store.giveaways == old(store.giveaways)[giveawayId := Closed(old(store.giveaways)[giveawayId], r.winners.value)]
  {
    if giveawayId !in store.giveaways {
      return EndResult(false, None, Some(NotFoundError));
    }
    var g := store.giveaways[giveawayId];
    if g.ended {
      return EndResult(false, None, Some(AlreadyEndedError));
    }
    var count := if g.winnerCount < |g.participants| then g.winnerCount else |g.participants|;
    var winners := GetRandomWinners(g.participants, count, pick);
    if !saveOk {
      return EndResult(false, None, Some(EndFailedError));
    }
    ClosedWellFormed(g, winners);
    UpdateKeepsInvariant(store.giveaways, store.settings, giveawayId, Closed(g, winners));
    store.giveaways := store.giveaways[giveawayId := Closed(g, winners)];
    r := EndResult(true, Some(winners), None);
  }
}
