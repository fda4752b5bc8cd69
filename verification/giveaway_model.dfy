/** The persisted giveaway record (apps/bot/src/models/Giveaway.ts, apps/bot/types/global.d.ts),
    the global giveaway settings record (apps/bot/src/models/GiveawaySettings.ts),
    and the repository both live in. */
module GiveawayModel {
  import opened Wrappers
  import opened Sequences
  import opened BanList

  /** One giveaway document. Times are epoch milliseconds, `duration` is seconds. */
  datatype Giveaway = Giveaway(
    id: int,
    prize: string,
    duration: int,
    messageId: string,
    channelId: string,
    winnerCount: int,
    requiredRole: Option<string>,
    pingRole: Option<string>,
    startTime: int,
    endTime: int,
    participants: seq<string>,
    winners: seq<string>,
    ended: bool)

  datatype GiveawayAccess = Enabled | Disabled

  datatype GiveawaySettings = GiveawaySettings(
    totalGiveaways: int,
    access: GiveawayAccess,
    defaultDuration: int,
    defaultWinnerCount: int,
    autoReroll: bool,
    bannedUsers: Option<seq<Ban>>)

  /** The document `new GiveawaySettings({ totalGiveaways: 0 })` builds from the schema defaults. */
  function DefaultSettings(): (s: GiveawaySettings)
    ensures s.totalGiveaways == 0 && s.access == Enabled
  {
    GiveawaySettings(0, Enabled, 86400, 1, false, Some([]))
  }

  /** The next id `start` will issue: the counter of the stored settings, or 0 when there are none. */
  function Counter(settings: Option<GiveawaySettings>): int {
    if settings.Some? then settings.value.totalGiveaways else 0
  }

  /** The number of winners a draw of `count` from `n` candidates yields:
      `min(count, n)`, and none for a count that is not positive. */
  function DrawSize(count: int, n: nat): (k: nat)
    ensures k <= n
    ensures count >= 0 ==> k <= count
    ensures k == n || k == count || (count < 0 && k == 0)
  {
    if count <= 0 then 0 else if count < n then count else n
  }

  /** What every stored giveaway satisfies: the end time is fixed by the duration, the
      participant list holds no duplicate, the winners are distinct participants, and
      an open giveaway has no winners yet. */
  ghost predicate WellFormed(g: Giveaway) {
    && g.endTime == g.startTime + g.duration * 1000
    && Distinct(g.participants)
    && Distinct(g.winners)
    && (forall w :: w in g.winners ==> w in g.participants)
    && (!g.ended ==> g.winners == [])
  }

  /** The repository invariant: every record is stored under its own id, is well formed,
      and was issued by the settings counter (so a fresh id is never in use). */
  ghost predicate StoreInvariant(giveaways: map<int, Giveaway>, settings: Option<GiveawaySettings>) {
    && Counter(settings) >= 0
    && forall id :: id in giveaways ==>
      && giveaways[id].id == id
      && WellFormed(giveaways[id])
      && 1 <= id <= Counter(settings)
  }

  /** Closing is one-way: a record that was ended stays ended, with the same participants
      and with its earlier winners as a prefix; no record disappears. */
  ghost predicate EndedStaysEnded(before: map<int, Giveaway>, after: map<int, Giveaway>) {
    forall id :: id in before ==>
      && id in after
      && (before[id].ended ==>
            && after[id].ended
            && after[id].participants == before[id].participants
            && before[id].winners <= after[id].winners)
  }

  lemma EndedStaysEndedTrans(a: map<int, Giveaway>, b: map<int, Giveaway>, c: map<int, Giveaway>)
    requires EndedStaysEnded(a, b) && EndedStaysEnded(b, c)
    ensures EndedStaysEnded(a, c)
  {
  }

  /** Replacing a stored record by a well-formed one with the same id keeps the invariant. */
  lemma UpdateKeepsInvariant(giveaways: map<int, Giveaway>, settings: Option<GiveawaySettings>, id: int, g: Giveaway)
    requires StoreInvariant(giveaways, settings)
    requires id in giveaways && g.id == id && WellFormed(g)
    ensures StoreInvariant(giveaways[id := g], settings)
  {
  }

  /** The Mongo collection of giveaways and the single settings document. */
  class GiveawayStore {
    var giveaways: map<int, Giveaway>
    var settings: Option<GiveawaySettings>

    constructor (giveaways: map<int, Giveaway>, settings: Option<GiveawaySettings>)
      ensures this.giveaways == giveaways && this.settings == settings
    {
      this.giveaways := giveaways;
      this.settings := settings;
    }

    ghost predicate Valid()
      reads this
    {
      StoreInvariant(giveaways, settings)
    }
  }
}
