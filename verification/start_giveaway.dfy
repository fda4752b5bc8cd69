/** Creating a giveaway (apps/bot/src/utils/giveaway/start-giveaway.ts). */
module StartGiveaway {
  import opened Wrappers
  import opened GiveawayModel

  /** The record `execute` builds for id `id` at time `now` (one clock reading for both times). */
  function NewGiveaway(id: int, prize: string, duration: int, winners: int,
                       requiredRole: Option<string>, pingRole: Option<string>,
                       messageId: string, channelId: string, now: int): (g: Giveaway)
    ensures g.id == id && g.prize == prize && g.duration == duration && g.winnerCount == winners
    ensures g.requiredRole == requiredRole && g.pingRole == pingRole
    ensures g.messageId == messageId && g.channelId == channelId
    ensures g.startTime == now && g.endTime == now + duration * 1000
    ensures g.participants == [] && g.winners == [] && !g.ended
    ensures WellFormed(g)
  {
    Giveaway(id, prize, duration, messageId, channelId, winners, requiredRole, pingRole,
             now, now + duration * 1000, [], [], false)
  }

  /** `execute(prize, duration, winners, requiredRole, pingRole, messageId, channelId)`:
      load (or create with a zero counter) the settings, advance the counter, save it
      (`counterSaved`), then save the new record under the new counter value (`recordSaved`).
      Returns the new id, or None when a save fails; a failed record save leaves the
      advanced counter behind, so that id is never used. */
  method Execute(store: GiveawayStore, prize: string, duration: int, winners: int,
                 requiredRole: Option<string>, pingRole: Option<string>,
                 messageId: string, channelId: string, now: int,
                 counterSaved: bool, recordSaved: bool)
    returns (r: Option<int>)
    requires store.Valid()
    modifies store
    ensures store.Valid()
    ensures EndedStaysEnded(old(store.giveaways), store.giveaways)
    ensures !counterSaved ==> r == None && store.settings == old(store.settings) && store.giveaways == old(store.giveaways)
    ensures counterSaved ==>
      && store.settings.Some?
      && Counter(store.settings) == Counter(old(store.settings)) + 1
      && (old(store.settings).Some? ==> store.settings == Some(old(store.settings).value.(totalGiveaways := Counter(store.settings))))
      && (old(store.settings).None? ==> store.settings == Some(DefaultSettings().(totalGiveaways := 1)))
    ensures counterSaved && !recordSaved ==> r == None && store.giveaways == old(store.giveaways)
    ensures counterSaved && recordSaved ==>
      && r == Some(Counter(store.settings))
      && r.value !in old(store.giveaways)
      && store.giveaways == old(store.giveaways)[r.value :=
           NewGiveaway(r.value, prize, duration, winners, requiredRole, pingRole, messageId, channelId, now)]
  {
    var settings := if store.settings.Some? then store.settings.value else DefaultSettings();
    settings := settings.(totalGiveaways := settings.totalGiveaways + 1);
    if !counterSaved {
      return None;
    }
    store.settings := Some(settings);
    var g := NewGiveaway(settings.totalGiveaways, prize, duration, winners, requiredRole, pingRole,
                         messageId, channelId, now);
    if !recordSaved {
      return None;
    }
    store.giveaways := store.giveaways[g.id := g];
    r := Some(g.id);
  }
}
