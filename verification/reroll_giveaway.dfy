/** Drawing additional winners for a closed giveaway (apps/bot/src/utils/giveaway/reroll-giveaway.ts). */
module RerollGiveaway {
  import opened Wrappers
  import opened Sequences
  import opened GiveawayModel
  import EndGiveaway

  const NotFoundError := "Giveaway not found"
  const ActiveError := "Cannot reroll an active giveaway"
  const NoMoreEligibleError := "No more eligible participants to select as winners"
  const NoEligibleError := "No eligible participants for reroll"
  const RerollFailedError := "An error occurred while rerolling the giveaway"

  datatype RerollResult = RerollResult(success: bool, newWinners: Option<seq<string>>, error: Option<string>)

  /** `getRandomWinners(participants, excludeIds, count)`: filter out the excluded ids,
      then the same push-and-splice draw as when ending. */
  method GetRandomWinners(participants: seq<string>, excludeIds: seq<string>, count: int, pick: EndGiveaway.Oracle)
    returns (winners: seq<string>)
    ensures |winners| == DrawSize(count, |Excluding(participants, excludeIds)|)
    ensures multiset(winners) <= multiset(participants)
    ensures forall w :: w in winners ==> w in participants && w !in excludeIds
  {
    var filtered := Excluding(participants, excludeIds);
    winners := EndGiveaway.GetRandomWinners(filtered, count, pick);
    assert multiset(filtered) <= multiset(participants);
  }

  /** The record after a successful reroll: the new winners appended, all else kept. */
  function Rerolled(g: Giveaway, newWinners: seq<string>): (c: Giveaway)
    ensures c.winners == g.winners + newWinners && g.winners <= c.winners
    ensures c.ended == g.ended && c.participants == g.participants && c.id == g.id
  {
    g.(winners := g.winners + newWinners)
  }

  /** A reroll draw that `execute` may append to `g`: between one and `count` fresh winners,
      `min(count, |participants| - |winners|)` of them, none an earlier winner. */
  ghost predicate ValidReroll(g: Giveaway, count: int, newWinners: seq<string>) {
    && 0 < |newWinners|
    && |newWinners| == DrawSize(if count < |g.participants| - |g.winners| then count else |g.participants| - |g.winners|,
                               |Excluding(g.participants, g.winners)|)
    && multiset(newWinners) <= multiset(Excluding(g.participants, g.winners))
  }

  /** Appending a valid reroll keeps a record well formed: the whole winner list stays
      distinct (the new winners avoid the old ones) and drawn from the participants. */
  lemma RerolledWellFormed(g: Giveaway, count: int, newWinners: seq<string>)
    requires WellFormed(g) && g.ended && ValidReroll(g, count, newWinners)
    ensures WellFormed(Rerolled(g, newWinners))
    ensures forall w :: w in newWinners ==> w !in g.winners && w in g.participants
  {
    var e := Excluding(g.participants, g.winners);
    DistinctSub(e, g.participants);
    DistinctSub(newWinners, e);
    forall w | w in newWinners ensures w in e {
      assert w in multiset(newWinners);
    }
    var all := g.winners + newWinners;
    assert multiset(all) == multiset(g.winners) + multiset(newWinners);
    forall x ensures multiset(all)[x] <= 1 {
      if x in newWinners {
        assert x !in g.winners;
      }
    }
  }

  /** Under the store invariant, a reroll that passes the "no more eligible participants" guard
      with a positive count never finds the pool empty: there are exactly
      `|participants| - |winners|` candidates left. */
  lemma EligiblePoolSize(g: Giveaway)
    requires WellFormed(g)
    ensures |Excluding(g.participants, g.winners)| == |g.participants| - |g.winners|
  {
    ExcludingCard(g.participants, g.winners);
  }

  /** `execute(giveawayId, count)`: the guards "not found", "active", "no more eligible",
      the draw over the non-winners, the "empty draw" guard, then the append.
      `saveOk` is the outcome of `giveaway.save()`; the notification is outside the model. */
  method Execute(store: GiveawayStore, giveawayId: int, count: int, pick: EndGiveaway.Oracle, saveOk: bool)
    returns (r: RerollResult)
    requires store.Valid()
    modifies store
    ensures store.Valid()
    ensures store.settings == old(store.settings)
    ensures EndedStaysEnded(old(store.giveaways), store.giveaways)
    ensures giveawayId !in old(store.giveaways) ==>
      r == RerollResult(false, None, Some(NotFoundError)) && store.giveaways == old(store.giveaways)
    ensures giveawayId in old(store.giveaways) && !old(store.giveaways)[giveawayId].ended ==>
      r == RerollResult(false, None, Some(ActiveError)) && store.giveaways == old(store.giveaways)
    ensures giveawayId in old(store.giveaways) && old(store.giveaways)[giveawayId].ended
            && |old(store.giveaways)[giveawayId].participants| <= |old(store.giveaways)[giveawayId].winners| ==>
      r == RerollResult(false, None, Some(NoMoreEligibleError)) && store.giveaways == old(store.giveaways)
    ensures giveawayId in old(store.giveaways) && old(store.giveaways)[giveawayId].ended
            && |old(store.giveaways)[giveawayId].participants| > |old(store.giveaways)[giveawayId].winners| ==>
      (count <= 0 <==> r.error == Some(NoEligibleError))
    ensures !r.success ==> r.newWinners.None? && store.giveaways == old(store.giveaways)
    ensures r.success <==>
      giveawayId in old(store.giveaways) && old(store.giveaways)[giveawayId].ended
      && |old(store.giveaways)[giveawayId].participants| > |old(store.giveaways)[giveawayId].winners|
      && count > 0 && saveOk
    ensures r.success ==>
      && r.newWinners.Some? && r.error.None?
      && ValidReroll(old(store.giveaways)[giveawayId], count, r.newWinners.value)
      && store.giveaways == old(store.giveaways)[giveawayId := Rerolled(old(store.giveaways)[giveawayId], r.newWinners.value)]
  {
    if giveawayId !in store.giveaways {
      return RerollResult(false, None, Some(NotFoundError));
    }
    var g := store.giveaways[giveawayId];
    if !g.ended {
      return RerollResult(false, None, Some(ActiveError));
    }
    if |g.participants| <= |g.winners| {
      return RerollResult(false, None, Some(NoMoreEligibleError));
    }
    var n := |g.participants| - |g.winners|;
    var newWinners := GetRandomWinners(g.participants, g.winners, if count < n then count else n, pick);
    EligiblePoolSize(g);
    if |newWinners| == 0 {
      return RerollResult(false, None, Some(NoEligibleError));
    }
    if !saveOk {
      return RerollResult(false, None, Some(RerollFailedError));
    }
    RerolledWellFormed(g, count, newWinners);
    UpdateKeepsInvariant(store.giveaways, store.settings, giveawayId, Rerolled(g, newWinners));
    store.giveaways := store.giveaways[giveawayId := Rerolled(g, newWinners)];
    r := RerollResult(true, Some(newWinners), None);
  }
}
