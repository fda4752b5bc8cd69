/** Closing a ticket (apps/bot/src/utils/tickets/close-ticket.ts). */
module CloseTicket {
  import opened Wrappers
  import opened TicketModel

  /** The reply: the 404s for a missing user or ticket document, the 409 for a ticket that is
      already closed or deleted, the "Ticket Closed" panel, or nothing when a save throws and
      the error handler takes over. */
  datatype CloseReply = UserNotFound | TicketNotFound | AlreadyClosed(status: Status) | ClosedOk | Errored

  /** The ticket after a close at `now`: first response stamped if missing, then closed. */
  function ClosedTicket(t: Ticket, now: int): (r: Ticket)
    ensures r.status == Closed && r.timestamps.closedAt == Some(now)
    ensures r.timestamps.firstResponseAt.Some?
    ensures t.timestamps.firstResponseAt.Some? ==> r.timestamps.firstResponseAt == t.timestamps.firstResponseAt
    ensures r.userId == t.userId && r.ticketId == t.ticketId && r.claim == t.claim
  {
    var s := RecordFirstResponse(t, now);
    s.(status := Closed, timestamps := s.timestamps.(closedAt := Some(now)))
  }

  /** `close()`: the guard chain (user document, ticket document of this channel, status),
      then the first-response stamp with its statistics, then the transition to closed. The
      clock is read as one `now`. `statsSaved` and `ticketSaved` are the outcomes of the two
      saves, which run in that order (the statistics only when the stamp is new); a throw
      skips everything after it, so a failed ticket save leaves the counted response behind
      on a ticket that stays open. */
  method Close(desk: TicketDesk, userId: string, channelId: string, now: int,
               statsSaved: bool, ticketSaved: bool)
    returns (reply: CloseReply)
    requires desk.Valid()
    modifies desk
    ensures desk.Valid()
    ensures desk.users == old(desk.users)
    ensures TicketStep(old(desk.tickets), desk.tickets)
    ensures reply == UserNotFound <==> userId !in old(desk.users)
    ensures reply == TicketNotFound <==> userId in old(desk.users) && channelId !in old(desk.tickets)
    ensures reply.AlreadyClosed? <==>
      userId in old(desk.users) && channelId in old(desk.tickets) && old(desk.tickets)[channelId].status != Open
    ensures reply.AlreadyClosed? ==> reply.status == old(desk.tickets)[channelId].status
    ensures reply == Errored <==>
      && userId in old(desk.users) && channelId in old(desk.tickets) && old(desk.tickets)[channelId].status == Open
      && (!ticketSaved || (old(desk.tickets)[channelId].timestamps.firstResponseAt.None? && !statsSaved))
    ensures reply != ClosedOk ==> desk.tickets == old(desk.tickets)
    ensures reply != ClosedOk && reply != Errored ==> desk.settings == old(desk.settings)
    ensures reply == Errored ==>
      var t := old(desk.tickets)[channelId];
      desk.settings == if t.timestamps.firstResponseAt.None? && statsSaved
                       then SettingsAfterStamp(old(desk.settings), t) else old(desk.settings)
    ensures reply == ClosedOk ==>
      && desk.tickets == old(desk.tickets)[channelId := ClosedTicket(old(desk.tickets)[channelId], now)]
      && desk.settings == SettingsAfterStamp(old(desk.settings), old(desk.tickets)[channelId])
  {
    if userId !in desk.users {
      return UserNotFound;
    }
    if channelId !in desk.tickets {
      return TicketNotFound;
    }
    var ticket := desk.tickets[channelId];
    if ticket.status == Closed || ticket.status == Deleted {
      return AlreadyClosed(ticket.status);
    }
    if ticket.timestamps.firstResponseAt.None? {
      ticket := RecordFirstResponse(ticket, now);
      if !statsSaved {
        return Errored;
      }
      var settings := LoadOrDefault(desk.settings);
      desk.settings := Some(CountResponse(settings));
    }
    if !ticketSaved {
      return Errored;
    }
    ticket := ticket.(status := Closed, timestamps := ticket.timestamps.(closedAt := Some(now)));
    desk.tickets := desk.tickets[channelId := ticket];
    reply := ClosedOk;
  }
}
