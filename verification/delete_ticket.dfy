/** Deleting a ticket (apps/bot/src/utils/tickets/delete-ticket.ts). */
module DeleteTicket {
  import opened Wrappers
  import opened TicketModel

  /** The reply: the 404s, the 409 for a ticket that is open or already deleted, the 403 for a
      member without a staff role, none because the channel is deleted, or none because a save
      throws and the error handler takes over. */
  datatype DeleteReply = UserNotFound | TicketNotFound | CannotDelete | Forbidden | DeletedOk | Errored

  /** The ticket after a delete at `now`: first response stamped if missing, then deleted. */
  function DeletedTicket(t: Ticket, now: int): (r: Ticket)
    ensures r.status == Deleted && r.timestamps.deletedAt == Some(now)
    ensures r.timestamps.firstResponseAt.Some?
    ensures t.timestamps.firstResponseAt.Some? ==> r.timestamps.firstResponseAt == t.timestamps.firstResponseAt
    ensures r.userId == t.userId && r.ticketId == t.ticketId && r.claim == t.claim
  {
    var s := RecordFirstResponse(t, now);
    s.(status := Deleted, timestamps := s.timestamps.(deletedAt := Some(now)))
  }

  /** The settings after a delete: the first-response update when there was one, then one more
      resolved ticket. */
  function ResolvedSettings(settings: Option<TicketSettings>, t: Ticket): (r: TicketSettings)
    ensures r.stats.totalResolved == LoadOrDefault(settings).stats.totalResolved + 1
    ensures r.stats.totalTicketsWithResponse ==
      LoadOrDefault(settings).stats.totalTicketsWithResponse + (if t.timestamps.firstResponseAt.None? then 1 else 0)
    ensures r == LoadOrDefault(settings).(stats := r.stats)
  {
    var s := LoadOrDefault(SettingsAfterStamp(settings, t));
    s.(stats := s.stats.(totalResolved := s.stats.totalResolved + 1))
  }

  /** `delete()`: the guard chain (user document, ticket document, status, staff role), then the
      first-response stamp, the transition to deleted and the resolved count. `statsSaved`,
      `ticketSaved` and `resolvedSaved` are the outcomes of the three saves, in the order they
      run (the first only when the stamp is new); a throw skips everything after it, so a
      failed last save leaves a deleted ticket that was never counted as resolved. */
  method Delete(desk: TicketDesk, userId: string, channelId: string, staffRoleIds: seq<string>,
                memberRoles: set<string>, now: int, statsSaved: bool, ticketSaved: bool, resolvedSaved: bool)
    returns (reply: DeleteReply)
    requires desk.Valid()
    modifies desk
    ensures desk.Valid()
    ensures desk.users == old(desk.users)
    ensures TicketStep(old(desk.tickets), desk.tickets)
    ensures reply == UserNotFound <==> userId !in old(desk.users)
    ensures reply == TicketNotFound <==> userId in old(desk.users) && channelId !in old(desk.tickets)
    ensures reply == CannotDelete <==>
      userId in old(desk.users) && channelId in old(desk.tickets) && old(desk.tickets)[channelId].status != Closed
    ensures reply == Forbidden <==>
      && userId in old(desk.users) && channelId in old(desk.tickets)
      && old(desk.tickets)[channelId].status == Closed && !HasStaffRole(staffRoleIds, memberRoles)
    ensures reply == Errored <==>
      && userId in old(desk.users) && channelId in old(desk.tickets)
      && old(desk.tickets)[channelId].status == Closed && HasStaffRole(staffRoleIds, memberRoles)
      && (!(statsSaved || old(desk.tickets)[channelId].timestamps.firstResponseAt.Some?) || !ticketSaved || !resolvedSaved)
    ensures reply != DeletedOk && reply != Errored ==> desk.tickets == old(desk.tickets) && desk.settings == old(desk.settings)
    ensures reply == Errored ==>
      var t := old(desk.tickets)[channelId];
      if t.timestamps.firstResponseAt.None? && !statsSaved then
        desk.tickets == old(desk.tickets) && desk.settings == old(desk.settings)
      else if !ticketSaved then
        desk.tickets == old(desk.tickets) && desk.settings == SettingsAfterStamp(old(desk.settings), t)
      else
        desk.tickets == old(desk.tickets)[channelId := DeletedTicket(t, now)]
        && desk.settings == SettingsAfterStamp(old(desk.settings), t)
    ensures reply == DeletedOk ==>
      && desk.tickets == old(desk.tickets)[channelId := DeletedTicket(old(desk.tickets)[channelId], now)]
      && desk.settings == Some(ResolvedSettings(old(desk.settings), old(desk.tickets)[channelId]))
  {
    if userId !in desk.users {
      return UserNotFound;
    }
    if channelId !in desk.tickets {
      return TicketNotFound;
    }
    var ticket := desk.tickets[channelId];
    if ticket.status == Open || ticket.status == Deleted {
      return CannotDelete;
    }
    if !HasStaffRole(staffRoleIds, memberRoles) {
      return Forbidden;
    }
    if ticket.timestamps.firstResponseAt.None? {
      ticket := RecordFirstResponse(ticket, now);
      if !statsSaved {
        return Errored;
      }
      var settings := LoadOrDefault(desk.settings);
      desk.settings := Some(CountResponse(settings));
    }
    if !ticketSaved {
      return Errored;
    }
    ticket := ticket.(status := Deleted, timestamps := ticket.timestamps.(deletedAt := Some(now)));
    desk.tickets := desk.tickets[channelId := ticket];
    if !resolvedSaved {
      return Errored;
    }
    var settings := LoadOrDefault(desk.settings);
    desk.settings := Some(settings.(stats := settings.stats.(totalResolved := settings.stats.totalResolved + 1)));
    reply := DeletedOk;
  }
}
