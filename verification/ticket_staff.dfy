/** The staff panel and ticket claiming (apps/bot/src/utils/tickets/staff.ts). */
module TicketStaff {
  import opened Wrappers
  import opened TicketModel

  datatype PanelReply = PanelForbidden | Panel

  /** `openStaffPanel()`: the panel for a member holding one of the staff roles, a 403 otherwise. */
  function OpenStaffPanel(staffRoleIds: seq<string>, memberRoles: set<string>): (r: PanelReply)
    ensures r == Panel <==> exists i :: 0 <= i < |staffRoleIds| && staffRoleIds[i] in memberRoles
    ensures staffRoleIds == [] ==> r == PanelForbidden
  {
    if HasStaffRole(staffRoleIds, memberRoles) then Panel else PanelForbidden
  }

  /** `toLowerCase()` on the ASCII letters. */
  function Lower(c: char): (d: char)
    ensures 'A' <= c <= 'Z' ==> d as int == c as int + 32
    ensures !('A' <= c <= 'Z') ==> d == c
  {
    if 'A' <= c <= 'Z' then (c as int + 32) as char else c
  }

  /** A character `[a-z0-9\-]` keeps. */
  predicate ChannelChar(c: char) {
    'a' <= c <= 'z' || '0' <= c <= '9' || c == '-'
  }

  /** `.toLowerCase().replace(/[^a-z0-9\-]/g, "")`. */
  function Normalise(s: string): (r: string)
    ensures forall i :: 0 <= i < |r| ==> ChannelChar(r[i])
    ensures |r| <= |s|
  {
    if s == [] then []
    else (if ChannelChar(Lower(s[0])) then [Lower(s[0])] else []) + Normalise(s[1..])
  }

  /** A name made only of kept characters comes out as it went in. */
  lemma {:induction false} NormaliseKeepsChannelNames(s: string)
    requires forall i :: 0 <= i < |s| ==> ChannelChar(s[i])
    ensures Normalise(s) == s
  {
    if s != [] {
      assert Lower(s[0]) == s[0];
      NormaliseKeepsChannelNames(s[1..]);
      assert s == [s[0]] + s[1..];
    }
  }

  /** Normalising twice is normalising once. */
  lemma NormaliseIdempotent(s: string)
    ensures Normalise(Normalise(s)) == Normalise(s)
  {
    NormaliseKeepsChannelNames(Normalise(s));
  }

  /** Normalising distributes over concatenation, so each part of a name is cleaned on its own. */
  lemma {:induction false} NormaliseAppend(a: string, b: string)
    ensures Normalise(a + b) == Normalise(a) + Normalise(b)
  {
    if a != [] {
      assert (a + b)[0] == a[0];
      assert (a + b)[1..] == a[1..] + b;
      NormaliseAppend(a[1..], b);
    } else {
      assert a + b == b;
    }
  }

  const ChannelPrefix := "ticket-"

  /** The fixed prefix survives normalising untouched. */
  lemma NormaliseAfterPrefix(rest: string)
    ensures Normalise(ChannelPrefix + rest) == ChannelPrefix + Normalise(rest)
  {
    NormaliseAppend(ChannelPrefix, rest);
    assert forall i :: 0 <= i < |ChannelPrefix| ==> ChannelChar(ChannelPrefix[i]);
    NormaliseKeepsChannelNames(ChannelPrefix);
  }

  /** The renamed channel: `ticket-<claimer>-<author>`, with `unknown` when the author could not
      be fetched. */
  function ClaimedChannelName(claimerName: string, authorName: Option<string>): (r: string)
    ensures forall i :: 0 <= i < |r| ==> ChannelChar(r[i])
    ensures |r| >= |ChannelPrefix| && r[..|ChannelPrefix|] == ChannelPrefix
  {
    var author := if authorName.Some? then authorName.value else "unknown";
    var rest := claimerName + "-" + author;
    NormaliseAfterPrefix(rest);
    Normalise(ChannelPrefix + rest)
  }

  /** The reply: the 500 without settings, the 404, the 409, the claim with the channel's new
      name, or nothing because a step throws and the error handler takes over. */
  datatype ClaimReply =
    | SettingsMissing | TicketNotFound | AlreadyClaimed(claimedBy: Option<string>) | Claimed(channelName: string)
    | Errored

  /** `claimTicket()`: with one claimer only, a claimed ticket is refused (409); otherwise the
      claim goes to this member, replacing any previous claimer. The settings are looked up
      without creating them. `renamed` and `saved` are the outcomes of renaming the channel and
      of the save that follows it; either throwing leaves the claim as it was. */
  method ClaimTicket(desk: TicketDesk, channelId: string, userId: string, claimerName: string,
                     authorName: Option<string>, now: int, renamed: bool, saved: bool)
    returns (reply: ClaimReply)
    requires desk.Valid()
    modifies desk
    ensures desk.Valid()
    ensures desk.users == old(desk.users) && desk.settings == old(desk.settings)
    ensures TicketStep(old(desk.tickets), desk.tickets)
    ensures reply == SettingsMissing <==> old(desk.settings).None?
    ensures reply == TicketNotFound <==> old(desk.settings).Some? && channelId !in old(desk.tickets)
    ensures reply.AlreadyClaimed? <==>
      && old(desk.settings).Some? && channelId in old(desk.tickets)
      && old(desk.settings).value.claims.onlyOneClaimer && old(desk.tickets)[channelId].claim.status
    ensures reply == Errored <==>
      && old(desk.settings).Some? && channelId in old(desk.tickets)
      && !(old(desk.settings).value.claims.onlyOneClaimer && old(desk.tickets)[channelId].claim.status)
      && !(renamed && saved)
    ensures !reply.Claimed? ==> desk.tickets == old(desk.tickets)
    ensures reply.Claimed? ==>
      && reply.channelName == ClaimedChannelName(claimerName, authorName)
      && desk.tickets == old(desk.tickets)[channelId := old(desk.tickets)[channelId].(claim := Claim(true, Some(userId), Some(now)))]
  {
    if desk.settings.None? {
      return SettingsMissing;
    }
    if channelId !in desk.tickets {
      return TicketNotFound;
    }
    var ticket := desk.tickets[channelId];
    if desk.settings.value.claims.onlyOneClaimer && ticket.claim.status {
      return AlreadyClaimed(ticket.claim.claimedBy);
    }
    ticket := ticket.(claim := Claim(true, Some(userId), Some(now)));
    var name := ClaimedChannelName(claimerName, authorName);
    if !renamed || !saved {
      return Errored;
    }
    desk.tickets := desk.tickets[channelId := ticket];
    reply := Claimed(name);
  }
}
