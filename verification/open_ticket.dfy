/** Opening and reopening tickets (apps/bot/src/utils/tickets/open-ticket.ts). */
module OpenTicket {
  import opened Wrappers
  import opened BanList
  import opened TicketModel

  /** The role the "clients only" access level asks for. */
  const ClientRoleId := "1288653045453819934"

  /** Why an open is refused, in the order the checks run: settings not configured (500), no
      user document (404), client role missing (403), ticket creation disabled (403), an
      unrecognised access level (500, after writing a fresh settings document), a ban (403),
      an unlinked account (403), an open ticket already (409). */
  datatype Refusal =
    | SettingsMissing | UnknownUser | NotAClient | CreationDisabled | SettingsRecreated
    | Banned | NotLinked | AlreadyOpen

  /** The user has a ticket with status open: `Tickets.findOne({ userId, status: "open" })`. */
  predicate HasOpenTicket(tickets: map<string, Ticket>, userId: string) {
    exists id :: id in tickets && tickets[id].userId == userId && tickets[id].status == Status.Open
  }

  /** The access level's verdict: everyone passes, clients only need the client role,
      "closed" and anything unrecognised refuse. */
  function AccessVerdict(access: Access, memberRoles: set<string>): (r: Option<Refusal>)
    ensures r.None? <==> access == Everyone || (access == ClientsOnly && ClientRoleId in memberRoles)
    ensures access == Disabled ==> r == Some(CreationDisabled)
    ensures access == Unrecognised ==> r == Some(SettingsRecreated)
  {
    match access
    case Everyone => None
    case ClientsOnly => if ClientRoleId in memberRoles then None else Some(NotAClient)
    case Disabled => Some(CreationDisabled)
    case Unrecognised => Some(SettingsRecreated)
  }

  /** The eligibility chain of `open()`; none means the department menu is shown. `linked` is
      the account-link answer (always yes outside production). */
  function Eligibility(settings: Option<TicketSettings>, userKnown: bool, userId: string,
                       memberRoles: set<string>, linked: bool, hasOpen: bool): (r: Option<Refusal>)
    ensures r.None? <==>
      && settings.Some? && userKnown
      && AccessVerdict(settings.value.access, memberRoles).None?
      && !(settings.value.ticketBanList.Some? && Listed(settings.value.ticketBanList.value, userId))
      && linked && !hasOpen
    ensures settings.None? ==> r == Some(SettingsMissing)
    ensures settings.Some? && !userKnown ==> r == Some(UnknownUser)
    ensures settings.Some? && userKnown && AccessVerdict(settings.value.access, memberRoles).Some? ==>
      r == AccessVerdict(settings.value.access, memberRoles)
  {
    if settings.None? then Some(SettingsMissing)
    else if !userKnown then Some(UnknownUser)
    else if AccessVerdict(settings.value.access, memberRoles).Some? then AccessVerdict(settings.value.access, memberRoles)
    else if settings.value.ticketBanList.Some? && Listed(settings.value.ticketBanList.value, userId) then Some(Banned)
    else if !linked then Some(NotLinked)
    else if hasOpen then Some(AlreadyOpen)
    else None
  }

  /** `totalTickets++` when it is a number. */
  function CountTicket(s: TicketSettings): (r: TicketSettings)
    ensures s.totalTickets.Some? ==> r.totalTickets == Some(s.totalTickets.value + 1)
    ensures s.totalTickets.None? ==> r.totalTickets.None?
    ensures r == s.(totalTickets := r.totalTickets)
  {
    if s.totalTickets.Some? then s.(totalTickets := Some(s.totalTickets.value + 1)) else s
  }

  /** The new ticket document: open, unclaimed, created now. */
  function NewTicket(userId: string, channelId: string, channelName: string, department: Department,
                     now: int): (t: Ticket)
    ensures t.userId == userId && t.ticketId == channelId && t.status == Status.Open
    ensures !t.claim.status && t.claim.claimedBy.None?
    ensures t.timestamps.createdAt == now && t.timestamps.firstResponseAt.None?
  {
    Ticket(userId, channelId, channelName, Status.Open, department, Claim(false, None, None),
           Timestamps(now, None, None, None, None), None)
  }

  /** The outcome: a refusal, no pick before the menu times out, the new ticket, or nothing
      because a step after the pick throws and the error handler takes over. */
  datatype OpenReply = Refused(why: Refusal) | MenuTimedOut | Created(ticketId: string) | Errored

  /** `open()`: the eligibility chain, then (once the member picks a department from the menu,
      `selection`) the new channel `channelId` and its ticket document, with the ticket counter
      advanced. No pick within the menu's time limit changes nothing. `channelCreated`,
      `settingsSaved` and `ticketSaved` are the outcomes of the channel creation and the two
      saves, in the order they run; a throw skips everything after it, so a failed ticket save
      leaves the counter advanced with no ticket behind it. */
  method Open(desk: TicketDesk, userId: string, memberRoles: set<string>, linked: bool,
              selection: Option<Department>, channelId: string, channelName: string, now: int,
              channelCreated: bool, settingsSaved: bool, ticketSaved: bool)
    returns (reply: OpenReply)
    requires desk.Valid()
    modifies desk
    ensures desk.Valid()
    ensures desk.users == old(desk.users)
    ensures channelId !in old(desk.tickets) ==> TicketStep(old(desk.tickets), desk.tickets)
    ensures reply.Refused? <==>
      Eligibility(old(desk.settings), userId in old(desk.users), userId, memberRoles, linked,
                  HasOpenTicket(old(desk.tickets), userId)).Some?
    ensures reply.Refused? ==>
      Some(reply.why) == Eligibility(old(desk.settings), userId in old(desk.users), userId, memberRoles, linked,
                                     HasOpenTicket(old(desk.tickets), userId))
    ensures !reply.Created? ==> desk.tickets == old(desk.tickets)
    ensures !reply.Created? && !(reply == Errored && channelCreated && settingsSaved) ==>
      desk.settings == old(desk.settings)
    ensures reply == Errored <==>
      !reply.Refused? && selection.Some? && !(channelCreated && settingsSaved && ticketSaved)
    ensures reply == Errored && channelCreated && settingsSaved ==>
      desk.settings == Some(CountTicket(old(desk.settings).value))
    ensures reply.Created? <==> !reply.Refused? && selection.Some? && channelCreated && settingsSaved && ticketSaved
    ensures reply.Created? ==>
      && reply.ticketId == channelId
      && desk.tickets == old(desk.tickets)[channelId := NewTicket(userId, channelId, channelName, selection.value, now)]
      && desk.settings == Some(CountTicket(old(desk.settings).value))
      && HasOpenTicket(desk.tickets, userId)
  {
    var verdict := Eligibility(desk.settings, userId in desk.users, userId, memberRoles, linked,
                               HasOpenTicket(desk.tickets, userId));
    if verdict.Some? {
      return Refused(verdict.value);
    }
    if selection.None? {
      return MenuTimedOut;
    }
    if !channelCreated {
      return Errored;
    }
    var ticket := NewTicket(userId, channelId, channelName, selection.value, now);
    if !settingsSaved {
      return Errored;
    }
    desk.settings := Some(CountTicket(desk.settings.value));
    if !ticketSaved {
      return Errored;
    }
    desk.tickets := desk.tickets[channelId := ticket];
    assert desk.tickets[channelId].userId == userId;
    reply := Created(channelId);
  }

  /** At most one open ticket per user. */
  ghost predicate OneOpenPerUser(tickets: map<string, Ticket>) {
    forall a, b :: a in tickets && b in tickets && a != b && tickets[a].status == Status.Open && tickets[b].status == Status.Open
      ==> tickets[a].userId != tickets[b].userId
  }

  /** A successful open never gives a user a second open ticket. */
  lemma OpenKeepsOneOpen(tickets: map<string, Ticket>, userId: string, channelId: string, channelName: string,
                         department: Department, now: int)
    requires OneOpenPerUser(tickets) && !HasOpenTicket(tickets, userId) && channelId !in tickets
    ensures OneOpenPerUser(tickets[channelId := NewTicket(userId, channelId, channelName, department, now)])
  {
    var t := tickets[channelId := NewTicket(userId, channelId, channelName, department, now)];
    forall a, b | a in t && b in t && a != b && t[a].status == Status.Open && t[b].status == Status.Open
      ensures t[a].userId != t[b].userId
    {
      if a == channelId {
        assert b in tickets && tickets[b].status == Status.Open;
      } else if b == channelId {
        assert a in tickets && tickets[a].status == Status.Open;
      }
    }
  }

  /** The reply: the 404s, the 409 for a ticket that is not closed, the 403, the "Ticket
      Reopened" panel, or nothing because a step throws and the error handler takes over. */
  datatype ReopenReply = UserNotFound | TicketNotFound | NotClosed(status: Status) | Forbidden | Reopened | ReopenErrored

  /** The ticket after a reopen at `now`. */
  function ReopenedTicket(t: Ticket, now: int): (r: Ticket)
    ensures r.status == Status.Open && r.timestamps.reopenedAt == Some(now)
    ensures r == t.(status := Status.Open, timestamps := r.timestamps)
    ensures r.timestamps == t.timestamps.(reopenedAt := Some(now))
  {
    t.(status := Status.Open, timestamps := t.timestamps.(reopenedAt := Some(now)))
  }

  /** `reopen()`: only a closed ticket, and only its creator or a staff member.
      `overwriteEdited` and `saved` are the outcomes of giving the creator back the right to
      write, and of the save that follows it; either throwing leaves the ticket closed. */
  method Reopen(desk: TicketDesk, userId: string, channelId: string, staffRoleIds: seq<string>,
                memberRoles: set<string>, now: int, overwriteEdited: bool, saved: bool)
    returns (reply: ReopenReply)
    requires desk.Valid()
    modifies desk
    ensures desk.Valid()
    ensures desk.users == old(desk.users) && desk.settings == old(desk.settings)
    ensures TicketStep(old(desk.tickets), desk.tickets)
    ensures reply == UserNotFound <==> userId !in old(desk.users)
    ensures reply == TicketNotFound <==> userId in old(desk.users) && channelId !in old(desk.tickets)
    ensures reply.NotClosed? <==>
      userId in old(desk.users) && channelId in old(desk.tickets) && old(desk.tickets)[channelId].status != Closed
    ensures reply == Forbidden <==>
      && userId in old(desk.users) && channelId in old(desk.tickets)
      && old(desk.tickets)[channelId].status == Closed
      && old(desk.tickets)[channelId].userId != userId && !HasStaffRole(staffRoleIds, memberRoles)
    ensures reply == ReopenErrored <==>
      && userId in old(desk.users) && channelId in old(desk.tickets)
      && old(desk.tickets)[channelId].status == Closed
      && (old(desk.tickets)[channelId].userId == userId || HasStaffRole(staffRoleIds, memberRoles))
      && !(overwriteEdited && saved)
    ensures reply != Reopened ==> desk.tickets == old(desk.tickets)
    ensures reply == Reopened ==>
      desk.tickets == old(desk.tickets)[channelId := ReopenedTicket(old(desk.tickets)[channelId], now)]
  {
    if userId !in desk.users {
      return UserNotFound;
    }
    if channelId !in desk.tickets {
      return TicketNotFound;
    }
    var ticket := desk.tickets[channelId];
    if ticket.status != Closed {
      return NotClosed(ticket.status);
    }
    if ticket.userId != userId && !HasStaffRole(staffRoleIds, memberRoles) {
      return Forbidden;
    }
    if !overwriteEdited || !saved {
      return ReopenErrored;
    }
    desk.tickets := desk.tickets[channelId := ReopenedTicket(ticket, now)];
    reply := Reopened;
  }

  /** Reopen does not look for another open ticket of the creator, so it can leave a user with
      two open tickets, which `open` refuses to create. */
  lemma ReopenCanBreakOneOpen()
    ensures exists tickets: map<string, Ticket>, now: int ::
      OneOpenPerUser(tickets) && "c2" in tickets && tickets["c2"].status == Closed &&
      !OneOpenPerUser(tickets["c2" := ReopenedTicket(tickets["c2"], now)])
  {
    var first := NewTicket("u", "c1", "ticket-u", General, 0);
    var second := NewTicket("u", "c2", "ticket-u", General, 0).(status := Closed);
    var tickets := map["c1" := first, "c2" := second];
    var after := tickets["c2" := ReopenedTicket(tickets["c2"], 1)];
    assert after["c1"].status == Status.Open && after["c2"].status == Status.Open && after["c1"].userId == after["c2"].userId;
    assert OneOpenPerUser(tickets);
  }
}
