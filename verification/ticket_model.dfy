/** The ticket record (apps/bot/types/global.d.ts, apps/bot/src/models/Tickets.ts), the ticket
    settings record (apps/bot/src/models/TicketSettings.ts), and the store they live in with the
    user records. Times are epoch milliseconds. */
module TicketModel {
  import opened Wrappers
  import opened BanList

  datatype Status = Open | Closed | Deleted
  datatype Department = General | Billing | Technical | Advertising | Other

  datatype Claim = Claim(status: bool, claimedBy: Option<string>, claimedAt: Option<int>)

  datatype Timestamps = Timestamps(
    createdAt: int,
    closedAt: Option<int>,
    deletedAt: Option<int>,
    firstResponseAt: Option<int>,
    reopenedAt: Option<int>)

  /** One ticket; `ticketId` is the id of its channel. */
  datatype Ticket = Ticket(
    userId: string,
    ticketId: string,
    name: string,
    status: Status,
    department: Department,
    claim: Claim,
    timestamps: Timestamps,
    responseTime: Option<int>)

  /** The stored access level; `Unrecognised` is any value outside the schema's enum (a
      document written before the field existed, for instance). */
  datatype Access = Everyone | ClientsOnly | Disabled | Unrecognised

  datatype Claims = Claims(enabled: bool, autoClaimOnMessage: bool, onlyOneClaimer: bool)
  /** `interval` is in seconds. */
  datatype AutoClose = AutoClose(enabled: bool, interval: Option<int>)
  /** The integer statistics; the running average response time is a float and is not modelled. */
  datatype Stats = Stats(totalResolved: int, totalTicketsWithResponse: int)

  datatype TicketSettings = TicketSettings(
    access: Access,
    autoClose: AutoClose,
    claims: Claims,
    stats: Stats,
    totalTickets: Option<int>,
    ticketBanList: Option<seq<Ban>>)

  /** `new TicketSettings()` with the schema defaults. `claims.enabled` has no default; the
      absent value is falsy, so it is modelled as false. */
  function DefaultSettings(): (s: TicketSettings)
    ensures s.access == Everyone && s.totalTickets == Some(0)
    ensures s.stats == Stats(0, 0) && s.ticketBanList == Some([])
    ensures !s.claims.enabled && s.claims.onlyOneClaimer && !s.autoClose.enabled
  {
    TicketSettings(Everyone, AutoClose(false, None), Claims(false, false, true), Stats(0, 0), Some(0), Some([]))
  }

  /** `findOne() || new TicketSettings()`. */
  function LoadOrDefault(settings: Option<TicketSettings>): (s: TicketSettings)
    ensures settings.Some? ==> s == settings.value
    ensures settings.None? ==> s == DefaultSettings()
  {
    if settings.Some? then settings.value else DefaultSettings()
  }

  /** `staffRoleIds.some(id => member.roles.cache.has(id))`. */
  predicate HasStaffRole(staffRoleIds: seq<string>, memberRoles: set<string>) {
    exists i :: 0 <= i < |staffRoleIds| && staffRoleIds[i] in memberRoles
  }

  /** The status changes the ticket operations make: close (open to closed), delete (closed to
      deleted) and reopen (closed to open). A deleted ticket never changes status again. */
  predicate AllowedStatusChange(before: Status, after: Status) {
    before == after
    || (before == Open && after == Closed)
    || (before == Closed && after == Deleted)
    || (before == Closed && after == Open)
  }

  /** What each ticket operation of this model does to the ticket records: no ticket
      disappears, statuses change only along allowed steps, the creator never changes, and a
      first response once stamped stays as it is. Every operation here reads the ticket from
      the store. The bot's close and delete read it through a five-minute cache that reopen
      and claim write around, so there a stale "closed" copy can take a reopened ticket
      straight to deleted; this predicate does not describe that. */
  ghost predicate TicketStep(before: map<string, Ticket>, after: map<string, Ticket>) {
    && before.Keys <= after.Keys
    && forall id :: id in before ==>
         && AllowedStatusChange(before[id].status, after[id].status)
         && after[id].userId == before[id].userId
         && (before[id].timestamps.firstResponseAt.Some? ==>
               after[id].timestamps.firstResponseAt == before[id].timestamps.firstResponseAt)
  }

  /** The first-response stamp close and delete share: when no first response is recorded,
      record `now` and the response time `now - createdAt`; otherwise change nothing. */
  function RecordFirstResponse(t: Ticket, now: int): (r: Ticket)
    ensures t.timestamps.firstResponseAt.Some? ==> r == t
    ensures t.timestamps.firstResponseAt.None? ==>
      && r.timestamps.firstResponseAt == Some(now)
      && r.responseTime == Some(now - t.timestamps.createdAt)
      && r == t.(timestamps := r.timestamps, responseTime := r.responseTime)
      && r.timestamps == t.timestamps.(firstResponseAt := Some(now))
  {
    if t.timestamps.firstResponseAt.Some? then t
    else t.(timestamps := t.timestamps.(firstResponseAt := Some(now)),
            responseTime := Some(now - t.timestamps.createdAt))
  }

  /** A first response is stamped once: stamping again, at any later time, changes nothing. */
  lemma FirstResponseOnce(t: Ticket, first: int, later: int)
    ensures RecordFirstResponse(t, first).timestamps.firstResponseAt.Some?
    ensures RecordFirstResponse(RecordFirstResponse(t, first), later) == RecordFirstResponse(t, first)
  {
  }

  /** The statistics update that goes with a first response: one more ticket with a response. */
  function CountResponse(s: TicketSettings): (r: TicketSettings)
    ensures r.stats.totalTicketsWithResponse == s.stats.totalTicketsWithResponse + 1
    ensures r == s.(stats := r.stats) && r.stats.totalResolved == s.stats.totalResolved
  {
    s.(stats := s.stats.(totalTicketsWithResponse := s.stats.totalTicketsWithResponse + 1))
  }

  /** The settings after a close or delete recorded (or not) a first response: unchanged when
      the ticket already had one, otherwise the loaded (or fresh) settings with one more
      ticket counted. */
  function SettingsAfterStamp(settings: Option<TicketSettings>, t: Ticket): (r: Option<TicketSettings>)
    ensures t.timestamps.firstResponseAt.Some? ==> r == settings
    ensures t.timestamps.firstResponseAt.None? ==> r == Some(CountResponse(LoadOrDefault(settings)))
  {
    if t.timestamps.firstResponseAt.Some? then settings else Some(CountResponse(LoadOrDefault(settings)))
  }

  /** What every stored ticket satisfies: it is filed under its channel id. */
  ghost predicate DeskInvariant(tickets: map<string, Ticket>) {
    forall id :: id in tickets ==> tickets[id].ticketId == id
  }

  /** The ticket collection, the single ticket settings document and the set of user ids that
      have a user document. */
  class TicketDesk {
    var tickets: map<string, Ticket>
    var settings: Option<TicketSettings>
    var users: set<string>

    constructor(tickets: map<string, Ticket>, settings: Option<TicketSettings>, users: set<string>)
      requires DeskInvariant(tickets)
      ensures this.tickets == tickets && this.settings == settings && this.users == users
      ensures Valid()
    {
      this.tickets := tickets;
      this.settings := settings;
      this.users := users;
    }

    ghost predicate Valid()
      reads this
    {
      DeskInvariant(tickets)
    }
  }
}
