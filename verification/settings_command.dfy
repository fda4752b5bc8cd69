/** The `/settings` command's handlers that change settings (apps/bot/src/commands/settings.ts):
    the ticket group (access, claims, auto-close, ban list) and the giveaway group (access,
    defaults, auto-reroll, ban list). Each handler loads the settings document or a fresh one
    with the schema defaults, changes it, and saves it; a handler that answers without changing
    anything saves nothing. */
module SettingsCommand {
  import opened Wrappers
  import opened BanList
  import TicketModel
  import GiveawayModel

  /** The command's answer: the change was saved, a list was shown, 409, 404, no reply at
      all (an action that falls through the switch), or the 500 the command answers when the
      save throws. */
  datatype Reply = Updated | Shown | Conflict | NotFound | NoReply | ServerError

  datatype BanAction = ViewBans | AddBan | RemoveBan

  /** The ban-list subcommand on one list: the reply, and the list to save when there is one.
      Adding or removing needs a user; without one the handler falls through. */
  function BanListOutcome(bans: Option<seq<Ban>>, action: BanAction, user: Option<string>,
                          moderator: string, reason: Option<string>, now: int): (r: (Reply, Option<seq<Ban>>))
    ensures r.1.Some? <==> r.0 == Updated
    ensures action == ViewBans ==> r == (Shown, None)
    ensures action != ViewBans && user.None? ==> r == (NoReply, None)
    ensures action == AddBan && user.Some? ==>
      && (r.0 == Conflict <==> bans.Some? && Listed(bans.value, user.value))
      && (r.0 != Conflict ==> r == (Updated, Some(Add(bans, user.value, moderator, reason, now).bans)))
    ensures action == RemoveBan && user.Some? ==>
      && (r.0 == NotFound <==> bans.None? || !Listed(bans.value, user.value))
      && (r.0 != NotFound ==> bans.Some? && r == (Updated, Some(WithoutUser(bans.value, user.value))))
  {
    match action
    case ViewBans => (Shown, None)
    case AddBan =>
      if user.None? then (NoReply, None)
      else (match Add(bans, user.value, moderator, reason, now)
            case AlreadyBanned => (Conflict, None)
            case Added(list) => (Updated, Some(list)))
    case RemoveBan =>
      if user.None? then (NoReply, None)
      else (match Remove(bans, user.value)
            case NotBanned => (NotFound, None)
            case Removed(list) => (Updated, Some(list)))
  }

  /** Minutes as entered, stored as seconds (`value * 60`); the view divides by 60 again. */
  function MinutesToSeconds(minutes: int): (seconds: int)
    ensures seconds / 60 == minutes && seconds % 60 == 0
  {
    minutes * 60
  }

  // ----- ticket group -----

  datatype ClaimsToggle = ToggleClaiming | ToggleAutoClaim | ToggleOneClaimer

  /** The `claims` actions: each flips exactly its own flag. */
  function Toggled(c: TicketModel.Claims, which: ClaimsToggle): (r: TicketModel.Claims)
    ensures which == ToggleClaiming ==> r == c.(enabled := !c.enabled)
    ensures which == ToggleAutoClaim ==> r == c.(autoClaimOnMessage := !c.autoClaimOnMessage)
    ensures which == ToggleOneClaimer ==> r == c.(onlyOneClaimer := !c.onlyOneClaimer)
  {
    match which
    case ToggleClaiming => c.(enabled := !c.enabled)
    case ToggleAutoClaim => c.(autoClaimOnMessage := !c.autoClaimOnMessage)
    case ToggleOneClaimer => c.(onlyOneClaimer := !c.onlyOneClaimer)
  }

  /** The same toggle twice gives the flags back; two different toggles commute. */
  lemma ToggleTwice(c: TicketModel.Claims, which: ClaimsToggle, other: ClaimsToggle)
    ensures Toggled(Toggled(c, which), which) == c
    ensures Toggled(Toggled(c, which), other) == Toggled(Toggled(c, other), which)
  {
  }

  /** `ticket access <level>`. */
  method SetTicketAccess(desk: TicketModel.TicketDesk, level: TicketModel.Access, saved: bool)
    returns (reply: Reply)
    modifies desk
    ensures desk.tickets == old(desk.tickets) && desk.users == old(desk.users)
    ensures reply == (if saved then Updated else ServerError)
    ensures saved ==> desk.settings == Some(TicketModel.LoadOrDefault(old(desk.settings)).(access := level))
    ensures !saved ==> desk.settings == old(desk.settings)
  {
    var settings := TicketModel.LoadOrDefault(desk.settings);
    if !saved {
      return ServerError;
    }
    desk.settings := Some(settings.(access := level));
    reply := Updated;
  }

  /** `ticket claims <action>`. */
  method ToggleTicketClaims(desk: TicketModel.TicketDesk, which: ClaimsToggle, saved: bool)
    returns (reply: Reply)
    modifies desk
    ensures desk.tickets == old(desk.tickets) && desk.users == old(desk.users)
    ensures reply == (if saved then Updated else ServerError)
    ensures var before := TicketModel.LoadOrDefault(old(desk.settings));
      saved ==> desk.settings == Some(before.(claims := Toggled(before.claims, which)))
    ensures !saved ==> desk.settings == old(desk.settings)
  {
    var settings := TicketModel.LoadOrDefault(desk.settings);
    if !saved {
      return ServerError;
    }
    desk.settings := Some(settings.(claims := Toggled(settings.claims, which)));
    reply := Updated;
  }

  datatype AutoCloseAction = ToggleAutoClose | SetInterval

  /** `ticket autoclose <action> [value]`: the toggle flips `autoClose.enabled`; the interval
      needs a truthy value (given and non-zero) and stores it in seconds; otherwise the handler
      falls through without a reply. */
  method TicketAutoClose(desk: TicketModel.TicketDesk, action: AutoCloseAction, value: Option<int>, saved: bool)
    returns (reply: Reply)
    modifies desk
    ensures desk.tickets == old(desk.tickets) && desk.users == old(desk.users)
    ensures reply == ServerError <==> !saved && (action == ToggleAutoClose || (value.Some? && value.value != 0))
    ensures reply == ServerError ==> desk.settings == old(desk.settings)
    ensures var before := TicketModel.LoadOrDefault(old(desk.settings));
      && (action == ToggleAutoClose && saved ==>
            reply == Updated && desk.settings == Some(before.(autoClose := before.autoClose.(enabled := !before.autoClose.enabled))))
      && (action == SetInterval && value.Some? && value.value != 0 && saved ==>
            reply == Updated && desk.settings == Some(before.(autoClose := before.autoClose.(interval := Some(MinutesToSeconds(value.value))))))
      && (action == SetInterval && (value.None? || value.value == 0) ==>
            reply == NoReply && desk.settings == old(desk.settings))
  {
    var settings := TicketModel.LoadOrDefault(desk.settings);
    if action == ToggleAutoClose {
      if !saved {
        return ServerError;
      }
      desk.settings := Some(settings.(autoClose := settings.autoClose.(enabled := !settings.autoClose.enabled)));
      return Updated;
    } else if value.Some? && value.value != 0 {
      if !saved {
        return ServerError;
      }
      desk.settings := Some(settings.(autoClose := settings.autoClose.(interval := Some(MinutesToSeconds(value.value)))));
      return Updated;
    }
    reply := NoReply;
  }

  /** `ticket banlist <action> [user] [reason]`. */
  method TicketBanList(desk: TicketModel.TicketDesk, action: BanAction, user: Option<string>,
                       moderator: string, reason: Option<string>, now: int, saved: bool)
    returns (reply: Reply)
    modifies desk
    ensures desk.tickets == old(desk.tickets) && desk.users == old(desk.users)
    ensures var before := TicketModel.LoadOrDefault(old(desk.settings));
      var outcome := BanListOutcome(before.ticketBanList, action, user, moderator, reason, now);
      && reply == (if outcome.0 == Updated && !saved then ServerError else outcome.0)
      && (reply == Updated ==> desk.settings == Some(before.(ticketBanList := outcome.1)))
      && (reply != Updated ==> desk.settings == old(desk.settings))
  {
    var settings := TicketModel.LoadOrDefault(desk.settings);
    var outcome := BanListOutcome(settings.ticketBanList, action, user, moderator, reason, now);
    reply := outcome.0;
    if reply == Updated && !saved {
      return ServerError;
    }
    if reply == Updated {
      desk.settings := Some(settings.(ticketBanList := outcome.1));
    }
  }

  // ----- giveaway group -----

  /** `GiveawaySettings.findOne() || new GiveawaySettings()`. */
  function GiveawaySettingsOrDefault(settings: Option<GiveawayModel.GiveawaySettings>): (s: GiveawayModel.GiveawaySettings)
    ensures settings.Some? ==> s == settings.value
    ensures settings.None? ==> s == GiveawayModel.DefaultSettings()
    ensures s.totalGiveaways == GiveawayModel.Counter(settings)
  {
    if settings.Some? then settings.value else GiveawayModel.DefaultSettings()
  }

  /** `giveaway access <status>`. */
  method SetGiveawayAccess(store: GiveawayModel.GiveawayStore, status: GiveawayModel.GiveawayAccess, saved: bool)
    returns (reply: Reply)
    requires store.Valid()
    modifies store
    ensures store.Valid()
    ensures store.giveaways == old(store.giveaways)
    ensures reply == (if saved then Updated else ServerError)
    ensures saved ==> store.settings == Some(GiveawaySettingsOrDefault(old(store.settings)).(access := status))
    ensures !saved ==> store.settings == old(store.settings)
  {
    var settings := GiveawaySettingsOrDefault(store.settings);
    if !saved {
      return ServerError;
    }
    store.settings := Some(settings.(access := status));
    reply := Updated;
  }

  datatype DefaultSetting = DefaultDuration | DefaultWinners

  /** `giveaway defaults <setting> <value>`: the duration is entered in minutes and stored in
      seconds; the winner count is stored as given. */
  method SetGiveawayDefault(store: GiveawayModel.GiveawayStore, setting: DefaultSetting, value: int, saved: bool)
    returns (reply: Reply)
    requires store.Valid()
    modifies store
    ensures store.Valid()
    ensures store.giveaways == old(store.giveaways)
    ensures reply == (if saved then Updated else ServerError)
    ensures var before := GiveawaySettingsOrDefault(old(store.settings));
      && (saved && setting == DefaultDuration ==> store.settings == Some(before.(defaultDuration := MinutesToSeconds(value))))
      && (saved && setting == DefaultWinners ==> store.settings == Some(before.(defaultWinnerCount := value)))
    ensures !saved ==> store.settings == old(store.settings)
  {
    var settings := GiveawaySettingsOrDefault(store.settings);
    if !saved {
      return ServerError;
    }
    if setting == DefaultDuration {
      store.settings := Some(settings.(defaultDuration := MinutesToSeconds(value)));
    } else {
      store.settings := Some(settings.(defaultWinnerCount := value));
    }
    reply := Updated;
  }

  /** `giveaway autoreroll`. */
  method ToggleAutoReroll(store: GiveawayModel.GiveawayStore, saved: bool) returns (reply: Reply)
    requires store.Valid()
    modifies store
    ensures store.Valid()
    ensures store.giveaways == old(store.giveaways)
    ensures reply == (if saved then Updated else ServerError)
    ensures var before := GiveawaySettingsOrDefault(old(store.settings));
      saved ==> store.settings == Some(before.(autoReroll := !before.autoReroll))
    ensures !saved ==> store.settings == old(store.settings)
  {
    var settings := GiveawaySettingsOrDefault(store.settings);
    if !saved {
      return ServerError;
    }
    store.settings := Some(settings.(autoReroll := !settings.autoReroll));
    reply := Updated;
  }

  /** `giveaway banlist <action> [user] [reason]`: the same rules on `bannedUsers`. */
  method GiveawayBanList(store: GiveawayModel.GiveawayStore, action: BanAction, user: Option<string>,
                         moderator: string, reason: Option<string>, now: int, saved: bool)
    returns (reply: Reply)
    requires store.Valid()
    modifies store
    ensures store.Valid()
    ensures store.giveaways == old(store.giveaways)
    ensures var before := GiveawaySettingsOrDefault(old(store.settings));
      var outcome := BanListOutcome(before.bannedUsers, action, user, moderator, reason, now);
      && reply == (if outcome.0 == Updated && !saved then ServerError else outcome.0)
      && (reply == Updated ==> store.settings == Some(before.(bannedUsers := outcome.1)))
      && (reply != Updated ==> store.settings == old(store.settings))
  {
    var settings := GiveawaySettingsOrDefault(store.settings);
    var outcome := BanListOutcome(settings.bannedUsers, action, user, moderator, reason, now);
    reply := outcome.0;
    if reply == Updated && !saved {
      return ServerError;
    }
    if reply == Updated {
      store.settings := Some(settings.(bannedUsers := outcome.1));
    }
  }

  /** A ban list whose users are listed once stays that way under every ban-list subcommand. */
  lemma BanListKeepsOnePerUser(bans: Option<seq<Ban>>, action: BanAction, user: Option<string>,
                               moderator: string, reason: Option<string>, now: int)
    requires bans.Some? ==> OnePerUser(bans.value)
    ensures var r := BanListOutcome(bans, action, user, moderator, reason, now);
      r.1.Some? ==> OnePerUser(r.1.value)
  {
    var r := BanListOutcome(bans, action, user, moderator, reason, now);
    if r.1.Some? {
      if action == AddBan {
        AddKeepsOnePerUser(bans, user.value, moderator, reason, now);
      } else {
        WithoutUserKeepsOnePerUser(bans.value, user.value);
      }
    }
  }
}
