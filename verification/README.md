# Astra core in Dafny

Astra is a Discord bot with a web dashboard. This project models, in Dafny, the parts of it that
decide things, and proves what they promise.

**Giveaways** (`apps/bot/src/utils/giveaway/`). The store is a `GiveawayStore` object: a map from
id to giveaway record plus the optional settings record that holds the id counter. The model
covers these operations:

- starting a giveaway;
- entering and leaving one;
- ending one with a partial Fisher–Yates draw of the winners;
- rerolling extra winners, excluding the earlier winners;
- the expiry scan and `checkById`;
- listing.

Two things are parameters of the operations:

- The random source is an index oracle; `pick(i, n) % n` stands for `Math.floor(Math.random() * n)`.
- Whether a save succeeds is a boolean.

The store invariant holds across every operation:

- `endTime` is `startTime + duration * 1000`;
- participants are distinct;
- winners are distinct, drawn from the participants, and present only once the giveaway has ended;
- ids never exceed the counter.

**The TTL cache** (`apps/bot/src/utils/cache.ts`) is a `CacheManager` class over a map field. The
clock is an explicit `now`.

**Tickets** (`apps/bot/src/utils/tickets/`):

- opening, with its eligibility chain;
- closing;
- deleting;
- reopening;
- the staff panel and claiming.

These run over a `TicketDesk` object holding the tickets, the ticket settings and the user
records. The ban lists and toggles of the `/settings` command (`apps/bot/src/commands/settings.ts`)
run over the same settings records. Each save, and each Discord call whose failure aborts the
operation, is a boolean parameter. A failure skips every later step, and the contracts state
what the earlier steps have already written.

**Welcome messages** (`apps/api`):

- the collecting validators of `WelcomeDto.ts`;
- the first-failure middleware of `WelcomeValidation.ts`, over a small model of JavaScript
  values (`typeof`, truthiness, property access);
- the placeholder substitution and the create and toggle operations of `WelcomeService.ts`.

**Account checks** are `validateUsername`, `validatePassword`, `validateEmail` and `sanitizeInput`
of `apps/api/src/utils/ValidationUtils.ts`. The regular expressions are spelled out as predicates.

**Guild access** (`apps/api/src/modules/guild/GuildAccessService.ts`) covers the permission rule
on the bits of the permission number, the order in which `getDetailedGuildAccess` refuses, its
result cache and the list of manageable servers. What Discord answers is passed in, and so
is whether Redis accepts the write of a grant.

## Model

| member | source | states |
|---|---|---|
| Sequences.Without | apps/bot/src/utils/giveaway/participate.ts:91-93 | the filter removes every occurrence of the user, keeps every other element with its multiplicity and keeps the order of what is left |
| Sequences.Excluding | apps/bot/src/utils/giveaway/reroll-giveaway.ts:13-15 | the filter keeps exactly the participants that are not earlier winners, each with its multiplicity |
| Sequences.ExcludingCard | apps/bot/src/utils/giveaway/reroll-giveaway.ts:13-15 | with distinct participants and distinct winners drawn from them, the pool left has as many entries as participants minus winners |
| GiveawayModel.GiveawayStore.constructor | apps/bot/src/models/Giveaway.ts:3-17 | the store holds the given records and settings |
| GiveawayModel.DefaultSettings | apps/bot/src/models/GiveawaySettings.ts:19-39 | a freshly created settings document has counted no giveaways and has the giveaway system enabled |
| GiveawayModel.DrawSize | apps/bot/src/utils/giveaway/end-giveaway.ts:11-15 | the loop draws `min(count, n)` winners: never more than the candidates, never more than a non-negative count, and none for a count that is not positive |
| EndGiveaway.GetRandomWinners | apps/bot/src/utils/giveaway/end-giveaway.ts:7-18 | the push-and-splice loop returns exactly `DrawSize(count, |participants|)` winners, each one a participant and no participant more often than it is listed (so distinct participants give distinct winners) |
| EndGiveaway.Closed | apps/bot/src/utils/giveaway/end-giveaway.ts:44-45 | the ended record stores the drawn winners and `ended`, and keeps the participants, end time and id |
| EndGiveaway.ClosedWellFormed | apps/bot/src/utils/giveaway/end-giveaway.ts:39-46 | ending an open, well-formed giveaway with a valid draw leaves it well formed: distinct winners, all of them participants |
| EndGiveaway.Execute | apps/bot/src/utils/giveaway/end-giveaway.ts:20-129 | an unknown id gives "Giveaway not found", an ended one "Giveaway already ended", a failed save the catch-all error, each with nothing changed; otherwise success, with `min(winnerCount, |participants|)` winners stored and returned, `ended` set and no other record touched; ended records stay ended |
| RerollGiveaway.GetRandomWinners | apps/bot/src/utils/giveaway/reroll-giveaway.ts:8-27 | the draw returns `DrawSize(count, |eligible|)` ids, where the eligible ids are the participants not in `excludeIds`; every id is a participant and none is excluded |
| RerollGiveaway.Rerolled | apps/bot/src/utils/giveaway/reroll-giveaway.ts:93 | the new winners are appended: the old winners are a prefix, and `ended`, participants and id are kept |
| RerollGiveaway.RerolledWellFormed | apps/bot/src/utils/giveaway/reroll-giveaway.ts:74-94 | appending a valid reroll keeps the record well formed; every new winner is a participant who had not won before |
| RerollGiveaway.EligiblePoolSize | apps/bot/src/utils/giveaway/reroll-giveaway.ts:61-79 | for a well-formed record exactly `|participants| - |winners|` participants are eligible, so the "no more eligible" guard is the only way the pool is empty |
| RerollGiveaway.Execute | apps/bot/src/utils/giveaway/reroll-giveaway.ts:29-125 | "not found", "active", "no more eligible" (when `|participants| <= |winners|`) and "no eligible participants" (exactly for a non-positive count) refuse with nothing changed; success exactly when the giveaway has ended, has candidates left, `count > 0` and the save succeeds, and then `min(count, |participants| - |winners|)` fresh winners are appended |
| Participate.Toggle | apps/bot/src/utils/giveaway/participate.ts:90-98 | after the toggle the user is a participant exactly when they were not before, and every other user's membership is unchanged |
| Participate.ToggleDistinct | apps/bot/src/utils/giveaway/participate.ts:90-98 | toggling keeps a duplicate-free participant list duplicate-free |
| Participate.ToggleTwice | apps/bot/src/utils/giveaway/participate.ts:90-98 | two toggles by the same user restore everyone's membership, and restore the list itself when the user was not in it |
| Participate.ActionAfter | apps/bot/src/utils/giveaway/participate.ts:163-166 | the reported action is "added" exactly when the user was not a participant before the toggle |
| Participate.Execute | apps/bot/src/utils/giveaway/participate.ts:23-175 | "does not exist", "already ended" and "required role" refuse in that order with nothing changed; otherwise a successful save stores the toggled list and changes no other record; a message that cannot be fetched or edited is reported as a failure although the toggle stays saved; success reports the action |
| StartGiveaway.NewGiveaway | apps/bot/src/utils/giveaway/start-giveaway.ts:27-41 | the new record carries the given fields, is open with no participants and no winners, ends `duration` seconds after it starts, and is well formed |
| StartGiveaway.Execute | apps/bot/src/utils/giveaway/start-giveaway.ts:7-51 | the counter (created at 0 when missing) goes up by one and is saved first; the new record is stored under the new counter value, an id no record used before; a failed save returns null, and a failed record save leaves the advanced counter behind |
| CheckGiveaway.DueIds | apps/bot/src/utils/giveaway/check-giveaway.ts:17-20 | an id is found by the scan exactly when its record is not ended and its end time is at or before now |
| CheckGiveaway.Execute | apps/bot/src/utils/giveaway/check-giveaway.ts:13-60 | every found record whose save succeeds is closed with a valid draw, every other record is untouched, ended records stay ended; the count returned is the number of found records whose end succeeded, at most the number found, and 0 with nothing changed when none is found |
| CheckGiveaway.EndFound | apps/bot/src/utils/giveaway/check-giveaway.ts:28-53 | the loop over the found records: a failed end does not stop the others; per-record outcome and the count of successes as above |
| CheckGiveaway.EndDue | apps/bot/src/utils/giveaway/check-giveaway.ts:30-33 | ending one found record succeeds exactly when its save does and changes no other record |
| CheckGiveaway.CheckById | apps/bot/src/utils/giveaway/check-giveaway.ts:62-95 | true exactly when the giveaway exists, is not ended, is due and its end is saved; false leaves every record unchanged; true closes that one record with a valid draw |
| ListGiveaways.Filter | apps/bot/src/utils/giveaway/list-giveaways.ts:20-23 | keeps every record of the requested status with its multiplicity and nothing else; no status keeps everything |
| ListGiveaways.Insert | apps/bot/src/utils/giveaway/list-giveaways.ts:32 | inserting into an ordered list gives an ordered list holding one more record, that one |
| ListGiveaways.Sort | apps/bot/src/utils/giveaway/list-giveaways.ts:25-32 | the sorted answer is a permutation of its input, ordered by the chosen field in the chosen direction |
| ListGiveaways.Take | apps/bot/src/utils/giveaway/list-giveaways.ts:33-35 | a truthy limit keeps the first `limit` records (by magnitude) or all when fewer; no limit keeps all |
| ListGiveaways.Execute | apps/bot/src/utils/giveaway/list-giveaways.ts:16-53 | every listed record is stored and has the requested status, never more copies than stored; ordered by the given field (descending only for "desc") or by id descending by default; with a limit, exactly `min(|limit|, matching)` records; with no limit, exactly the matching records |
| ListGiveaways.GetActive | apps/bot/src/utils/giveaway/list-giveaways.ts:55-57 | exactly the records not ended, newest id first |
| ListGiveaways.GetEnded | apps/bot/src/utils/giveaway/list-giveaways.ts:59-61 | exactly the ended records, newest id first |
| ListGiveaways.GetRecent | apps/bot/src/utils/giveaway/list-giveaways.ts:63-65 | records of any status, latest start first, exactly `limit` of them when that many exist |
| ListGiveaways.FilterNone | apps/bot/src/utils/giveaway/list-giveaways.ts:21-23 | with `active` undefined the query filters nothing |
| ListGiveaways.ActiveAndEndedPartition | apps/bot/src/utils/giveaway/list-giveaways.ts:55-61 | every stored record is listed by exactly one of getActive and getEnded |
| ListGiveaways.LimitedIsPrefix | apps/bot/src/utils/giveaway/list-giveaways.ts:32-35 | the limited answer is a prefix of the unlimited one |
| Cache.ExpiryFor | apps/bot/src/utils/cache.ts:16 | a positive expiry is counted from now; zero or negative means the entry never expires |
| Cache.Lookup | apps/bot/src/utils/cache.ts:20-33 | `get` answers a value exactly when the key is stored and its entry has not expired, and then it is the stored value |
| Cache.AfterGet | apps/bot/src/utils/cache.ts:27-30 | `get` evicts the entry it finds expired and changes nothing otherwise |
| Cache.Sweep | apps/bot/src/utils/cache.ts:52-59 | after a sweep exactly the unexpired entries remain, unchanged |
| Cache.CacheManager.constructor | apps/bot/src/utils/cache.ts:6-8 | a new cache is empty |
| Cache.CacheManager.Set | apps/bot/src/utils/cache.ts:10-18 | stores or overwrites the key's entry with its expiry time and leaves every other key alone |
| Cache.CacheManager.Get | apps/bot/src/utils/cache.ts:20-33 | answers the live value of the key or nothing, evicting an expired entry on the way |
| Cache.CacheManager.Delete | apps/bot/src/utils/cache.ts:35-38 | removes exactly that key, a no-op when it is absent |
| Cache.CacheManager.Has | apps/bot/src/utils/cache.ts:40-42 | true exactly when `get` would answer a value, with the same eviction |
| Cache.CacheManager.Clear | apps/bot/src/utils/cache.ts:44-46 | empties the cache, so its size is 0 |
| Cache.CacheManager.Size | apps/bot/src/utils/cache.ts:48-50 | the size is 0 exactly when nothing is stored |
| Cache.CacheManager.CleanUp | apps/bot/src/utils/cache.ts:52-59 | the loop over the stored keys leaves exactly the unexpired entries |
| Cache.SetThenGet | apps/bot/src/utils/cache.ts:10-33 | a value just set is returned up to and including its expiry time, and forever without a positive expiry |
| Cache.SetThenGetLate | apps/bot/src/utils/cache.ts:16-30 | after its expiry time a value set with a positive expiry is gone |
| Cache.GetIsObservablyPure | apps/bot/src/utils/cache.ts:20-33 | a live `get` changes nothing, and no `get` changes what any key answers at the same time |
| Cache.DeleteOnlyThatKey | apps/bot/src/utils/cache.ts:35-38 | a deleted key answers nothing and every other key answers as before |
| Cache.SweepKeepsAnswers | apps/bot/src/utils/cache.ts:52-59 | a sweep changes no answer of `get` at the same time and is idempotent |
| Cache.SweepSize | apps/bot/src/utils/cache.ts:48-59 | a sweep never grows the size, and shrinks it exactly when some stored entry has expired |
| TicketModel.DefaultSettings | apps/bot/src/models/TicketSettings.ts:31-61 | a fresh settings document lets everyone open tickets, counts no tickets, resolutions or responses, bans nobody, allows one claimer and has auto-close off |
| TicketModel.LoadOrDefault | apps/bot/src/utils/tickets/close-ticket.ts:119-120 | the stored settings document when there is one, else a fresh one |
| TicketModel.RecordFirstResponse | apps/bot/src/utils/tickets/close-ticket.ts:106-113 | a ticket without a first response gets one at `now` with response time `now - createdAt` and nothing else changed; a ticket that has one is unchanged |
| TicketModel.FirstResponseOnce | apps/bot/src/utils/tickets/close-ticket.ts:106-113 | the first response is stamped once: stamping again, at any time, changes nothing |
| TicketModel.CountResponse | apps/bot/src/utils/tickets/close-ticket.ts:125-133 | one more ticket counted with a response, every other setting unchanged |
| TicketModel.SettingsAfterStamp | apps/bot/src/utils/tickets/close-ticket.ts:106-138 | the settings are untouched when the ticket already had a first response, otherwise the loaded or fresh settings count one more response |
| TicketModel.TicketDesk.constructor | apps/bot/src/models/Tickets.ts:6-39 | a desk holds the given tickets, filed under their channel ids, settings and users |
| CloseTicket.ClosedTicket | apps/bot/src/utils/tickets/close-ticket.ts:106-141 | a closed ticket is closed at `now`, has a first response (the old one when there was one) and keeps its creator, channel and claim |
| CloseTicket.Close | apps/bot/src/utils/tickets/close-ticket.ts:27-197 | 404 exactly for a missing user, then a missing ticket; 409 exactly for a ticket already closed or deleted, naming its status; every refusal changes nothing; otherwise the statistics save (only for a new first response) and the ticket save run in that order. If both succeed, only that ticket becomes closed and the settings count its first response when it had none. A failed save leaves the ticket as it was, but a failed ticket save after a successful statistics save leaves the counted response behind. Every step respects the allowed status changes |
| DeleteTicket.DeletedTicket | apps/bot/src/utils/tickets/delete-ticket.ts:96-131 | a deleted ticket is deleted at `now`, has a first response (the old one when there was one) and keeps its creator, channel and claim |
| DeleteTicket.ResolvedSettings | apps/bot/src/utils/tickets/delete-ticket.ts:96-145 | one more resolved ticket, one more response exactly when the ticket had none, every other setting as loaded |
| DeleteTicket.Delete | apps/bot/src/utils/tickets/delete-ticket.ts:24-153 | 404 exactly for a missing user, then a missing ticket; 409 exactly for a ticket that is not closed; 403 exactly for a member without a staff role; every refusal changes nothing; otherwise the statistics save (only for a new first response), the ticket save and the resolved-count save run in that order. If all succeed, only that ticket becomes deleted and the settings count the resolution (and the response when there was none). Each failure is stated with what was already written, e.g. a failed last save leaves a deleted ticket that was never counted as resolved |
| OpenTicket.AccessVerdict | apps/bot/src/utils/tickets/open-ticket.ts:78-108 | the access level lets a member through exactly when it is EVERYONE, or CLIENTS_ONLY and the member has the client role; CLOSED refuses as disabled and an unrecognised level refuses with the recreate error |
| OpenTicket.Eligibility | apps/bot/src/utils/tickets/open-ticket.ts:46-154 | the department menu is shown exactly when settings exist, the user document exists, the access level lets the member through, the member is not on the ticket ban list, the account is linked and no ticket of theirs is open; the first failing check, in that order, names the refusal |
| OpenTicket.CountTicket | apps/bot/src/utils/tickets/open-ticket.ts:250-252 | the ticket counter goes up by one when it is a number and every other setting stays |
| OpenTicket.NewTicket | apps/bot/src/utils/tickets/open-ticket.ts:236-248 | a new ticket belongs to the member, is filed under its channel, is open and unclaimed, created now and without a first response |
| OpenTicket.Open | apps/bot/src/utils/tickets/open-ticket.ts:39-359 | refused exactly when the eligibility chain refuses, with its reason. A ticket is created exactly when the member passes, picks a department, and the channel creation, the settings save and the ticket save all succeed; then only the new ticket is added, the counter advances and the member has an open ticket. The tickets change only on creation. A failed ticket save after a successful settings save leaves the counter advanced with no ticket; any other failure changes nothing |
| OpenTicket.OpenKeepsOneOpen | apps/bot/src/utils/tickets/open-ticket.ts:145-155 | a successful open never gives a member a second open ticket |
| OpenTicket.ReopenedTicket | apps/bot/src/utils/tickets/open-ticket.ts:408-409 | a reopened ticket is open with its reopen time stamped and nothing else changed |
| OpenTicket.Reopen | apps/bot/src/utils/tickets/open-ticket.ts:361-432 | 404 exactly for a missing user, then a missing ticket; 409 exactly for a ticket that is not closed, naming its status; 403 exactly when the member is neither its creator nor staff; a refusal changes nothing; past the guards, a failed permission-overwrite edit or a failed save ends in the error handler and changes nothing; otherwise only that ticket is reopened |
| OpenTicket.ReopenCanBreakOneOpen | apps/bot/src/utils/tickets/open-ticket.ts:375-409 | reopen does not look for another open ticket of the creator, so it can leave a user with two open tickets, which open refuses to create |
| TicketStaff.OpenStaffPanel | apps/bot/src/utils/tickets/staff.ts:28-40 | the panel is shown exactly when the member holds one of the staff roles; with no staff roles configured nobody gets it |
| TicketStaff.Normalise | apps/bot/src/utils/tickets/staff.ts:178-181 | a normalised name holds only `[a-z0-9-]` and is never longer than its input |
| TicketStaff.NormaliseKeepsChannelNames | apps/bot/src/utils/tickets/staff.ts:178-181 | a name already made of `[a-z0-9-]` is left as it is |
| TicketStaff.NormaliseIdempotent | apps/bot/src/utils/tickets/staff.ts:178-181 | normalising twice is normalising once |
| TicketStaff.NormaliseAppend | apps/bot/src/utils/tickets/staff.ts:178-181 | normalising a concatenation normalises each part on its own |
| TicketStaff.NormaliseAfterPrefix | apps/bot/src/utils/tickets/staff.ts:177-181 | the `ticket-` prefix survives normalising untouched |
| TicketStaff.ClaimedChannelName | apps/bot/src/utils/tickets/staff.ts:170-181 | the claimed channel name starts with `ticket-` and holds only `[a-z0-9-]` |
| TicketStaff.ClaimTicket | apps/bot/src/utils/tickets/staff.ts:119-199 | 500 exactly when settings are missing, 404 exactly for a missing ticket, 409 exactly when only one claimer is allowed and the ticket is claimed; a refusal changes nothing; past the guards, a failed rename of the channel or a failed save ends in the error handler and changes nothing; otherwise only that ticket's claim becomes this member's, now, replacing any earlier claimer, and the channel gets the normalised name |
| BanList.StoredReason | apps/bot/src/commands/settings.ts:280 | a reason is stored exactly when one is given and it is not empty |
| BanList.WithoutUser | apps/bot/src/commands/settings.ts:297-303 | the filtered list no longer lists the user, keeps every other entry with its multiplicity and adds nothing; it is as long as before exactly when the user was not listed |
| BanList.ListedCons | apps/bot/src/commands/settings.ts:267-269 | a user is listed exactly when the first entry is theirs or the rest lists them |
| BanList.Add | apps/bot/src/commands/settings.ts:262-289 | adding is refused (409) exactly when the user is already listed; otherwise one entry for the user, with moderator, stored reason and time, is appended to the list (an absent list counts as empty) |
| BanList.Remove | apps/bot/src/commands/settings.ts:290-315 | removing answers 404 exactly when the list is absent or does not list the user; otherwise every entry of the user goes and nothing else |
| BanList.AddKeepsOnePerUser | apps/bot/src/commands/settings.ts:262-289 | adding keeps every user listed at most once |
| BanList.AddThenRemove | apps/bot/src/commands/settings.ts:262-315 | after an add the user is listed, and a remove then gives back the list as it was before the add |
| BanList.WithoutUnlisted | apps/bot/src/commands/settings.ts:297-303 | filtering out a user who is not listed changes nothing |
| BanList.WithoutAppended | apps/bot/src/commands/settings.ts:277-303 | filtering out a user removes an entry of theirs appended at the end |
| BanList.WithoutUserKeepsOnePerUser | apps/bot/src/commands/settings.ts:297-303 | filtering keeps every remaining user listed at most once |
| BanList.RemoveTwice | apps/bot/src/commands/settings.ts:290-315 | after a successful remove a second remove of the same user answers 404 |
| SettingsCommand.BanListOutcome | apps/bot/src/commands/settings.ts:229-316 | a list is saved exactly when the answer is "updated"; view only shows; add or remove without a user falls through without a reply; add conflicts exactly when the user is listed and otherwise saves the appended list; remove answers 404 exactly when the user is not listed and otherwise saves the filtered list |
| SettingsCommand.MinutesToSeconds | apps/bot/src/commands/settings.ts:219 | the stored seconds are a whole number of minutes, and dividing by 60 (as the view does) gives the minutes back |
| SettingsCommand.Toggled | apps/bot/src/commands/settings.ts:166-200 | each claims action flips its own flag and leaves the other two alone |
| SettingsCommand.ToggleTwice | apps/bot/src/commands/settings.ts:166-200 | the same claims action twice restores the flags, and two different actions commute |
| SettingsCommand.SetTicketAccess | apps/bot/src/commands/settings.ts:145-164 | saves the loaded (or fresh) settings with the new access level and nothing else changed; a failed save answers 500 and changes nothing |
| SettingsCommand.ToggleTicketClaims | apps/bot/src/commands/settings.ts:166-200 | saves the loaded (or fresh) settings with the chosen claims flag flipped; a failed save answers 500 and changes nothing |
| SettingsCommand.TicketAutoClose | apps/bot/src/commands/settings.ts:205-227 | the toggle flips auto-close; an interval with a truthy value is stored in seconds; an interval without one falls through and saves nothing; 500 exactly when a save is attempted and fails, changing nothing |
| SettingsCommand.TicketBanList | apps/bot/src/commands/settings.ts:229-316 | answers as the ban-list rules say and saves the new ticket ban list exactly when the answer is "updated"; a failed save turns that answer into 500; every other answer leaves the settings as they were |
| SettingsCommand.GiveawaySettingsOrDefault | apps/bot/src/commands/settings.ts:380-387 | the stored giveaway settings or a fresh document with the schema defaults, whose counter is the store's |
| SettingsCommand.SetGiveawayAccess | apps/bot/src/commands/settings.ts:390-401 | saves the giveaway settings with the new access status, records untouched; a failed save answers 500 and changes nothing |
| SettingsCommand.SetGiveawayDefault | apps/bot/src/commands/settings.ts:403-423 | the default duration is stored in seconds from the minutes given; the default winner count as given; a failed save answers 500 and changes nothing |
| SettingsCommand.ToggleAutoReroll | apps/bot/src/commands/settings.ts:425-434 | saves the giveaway settings with auto-reroll flipped; a failed save answers 500 and changes nothing |
| SettingsCommand.GiveawayBanList | apps/bot/src/commands/settings.ts:436-524 | the same ban-list rules on the giveaway ban list; saved exactly when the answer is "updated"; a failed save turns that answer into 500 |
| SettingsCommand.BanListKeepsOnePerUser | apps/bot/src/commands/settings.ts:229-316 | every ban-list subcommand keeps each user listed at most once |
| JsValues.Get | apps/api/src/dto/WelcomeDto.ts:47-49 | a property read gives the stored property of an object and `undefined` for a missing property or a primitive |
| JsValues.DigitChar | apps/api/src/modules/welcome/WelcomeService.ts:26-27 | a digit below ten prints as a decimal digit character |
| JsValues.Digits | apps/api/src/modules/welcome/WelcomeService.ts:26-27 | a natural number prints as a non-empty string of decimal digits |
| JsValues.DecimalString | apps/api/src/modules/welcome/WelcomeService.ts:26-27 | an integer prints as decimal digits, with a leading minus exactly for a negative number |
| JsValues.ToJsString | apps/api/src/dto/WelcomeDto.ts:63-70 | converting a string to a string gives it back |
| Checks.Failures | apps/api/src/dto/WelcomeDto.ts:44-75 | a collecting validator lists at most one message per check, and lists none exactly when every check passed |
| Checks.Report | apps/api/src/dto/WelcomeDto.ts:47-52 | one check adds its message exactly when it failed |
| Checks.FailuresOfTwo | apps/api/src/dto/WelcomeDto.ts:84-94 | two checks report their messages in order |
| Checks.FailuresOfThree | apps/api/src/dto/WelcomeDto.ts:110-128 | three checks report their messages in order |
| Checks.FailuresOfFour | apps/api/src/dto/WelcomeDto.ts:47-73 | four checks report their messages in order |
| Checks.FirstFailure | apps/api/src/modules/welcome/WelcomeValidation.ts:5-110 | an early-return chain passes exactly when every check passed |
| Checks.FirstFailureCons | apps/api/src/modules/welcome/WelcomeValidation.ts:5-110 | a failing first check answers with its own message; a passing one hands over to the rest |
| Checks.Then | apps/api/src/modules/welcome/WelcomeValidation.ts:5-110 | a chain of two parts passes exactly when both parts pass |
| Checks.FailuresAppend | apps/api/src/dto/WelcomeDto.ts:130-150 | the messages of two runs of checks are the first run's followed by the second's |
| Checks.FirstFailureAppend | apps/api/src/modules/welcome/WelcomeValidation.ts:5-110 | a chain split in two answers as the first part, or as the second when the first passes |
| Checks.FirstIsHeadOfFailures | apps/api/src/modules/welcome/WelcomeValidation.ts:5-110 | the early-return chain rejects exactly when the collecting validator lists something, and its message is the first one listed |
| Checks.FailuresCount | apps/api/src/dto/WelcomeDto.ts:44-75 | with distinct messages each failed check's message is listed exactly once and a passed check's not at all |
| Checks.FailuresCountZero | apps/api/src/dto/WelcomeDto.ts:44-75 | a message no check carries is never listed |
| WelcomeDto.ValidateEmbed | apps/api/src/dto/WelcomeDto.ts:44-76 | the embed's errors are, in order, a blank title, a blank description, an image that does not parse as a URL and a colour that is not `#` and six hex digits, each when present; valid exactly when there are none |
| WelcomeDto.ValidateWelcomeContent | apps/api/src/dto/WelcomeDto.ts:78-102 | a non-boolean `enabled`, then content that is present but not a string, then the embed's errors when an embed is present; valid exactly when there are none |
| WelcomeDto.ValidateSections | apps/api/src/dto/WelcomeDto.ts:130-150 | the section errors are those of `message`, then `dm`, then `card` |
| WelcomeDto.ValidateSection | apps/api/src/dto/WelcomeDto.ts:130-133 | a section is checked only when it is truthy |
| WelcomeDto.ValidateCard | apps/api/src/dto/WelcomeDto.ts:140-150 | a truthy card reports a bad image URL before its content errors |
| WelcomeDto.ValidateCreateWelcome | apps/api/src/dto/WelcomeDto.ts:104-153 | a missing or blank guild id, a missing or blank channel id, an unknown type, then the section errors, all of them; valid exactly when there are none |
| WelcomeDto.ValidateUpdateWelcome | apps/api/src/dto/WelcomeDto.ts:155-198 | a channel id given but blank, a type given but unknown, then the section errors; valid exactly when there are none |
| WelcomeDto.EmbedErrorCounts | apps/api/src/dto/WelcomeDto.ts:44-76 | each embed check adds its message exactly once when it fails and never otherwise |
| WelcomeDto.CreateReportsEveryHeaderFailure | apps/api/src/dto/WelcomeDto.ts:104-128 | create does not stop at the first failure: its list starts with one message for each failed header check |
| WelcomeDto.EmptyUpdateIsValid | apps/api/src/dto/WelcomeDto.ts:155-198 | an update naming none of the checked fields is valid |
| WelcomeDto.CreateValidIsUpdateValid | apps/api/src/dto/WelcomeDto.ts:104-198 | a body create accepts, update accepts too |
| WelcomeValidation.SectionVerdict | apps/api/src/modules/welcome/WelcomeValidation.ts:34-67 | a truthy `message` or `dm` section passes exactly when its `enabled` is absent or boolean and its content is falsy or a string; a falsy section is not checked |
| WelcomeValidation.CardVerdict | apps/api/src/modules/welcome/WelcomeValidation.ts:69-107 | a truthy card passes exactly when `enabled` and `showCount` are absent or boolean and content, image URL and card message are falsy or strings |
| WelcomeValidation.SectionsVerdict | apps/api/src/modules/welcome/WelcomeValidation.ts:34-107 | the sections pass exactly when message, dm and card each pass |
| WelcomeValidation.CreateMiddleware | apps/api/src/modules/welcome/WelcomeValidation.ts:5-110 | a create request is passed on exactly when guild id and channel id are non-blank strings, the type is one of message, card, dm, and the sections pass |
| WelcomeValidation.UpdateMiddleware | apps/api/src/modules/welcome/WelcomeValidation.ts:112-225 | an update is passed on exactly when the id is 24 hex digits, guild and channel ids are non-blank strings when present, the type is valid when present, and the sections pass; a bad id is rejected first |
| WelcomeValidation.ToggleMiddleware | apps/api/src/modules/welcome/WelcomeValidation.ts:227-253 | a toggle is passed on exactly when the id is 24 hex digits, the type is message, dm or card, and `enabled` is a boolean; a bad id is rejected first |
| WelcomeValidation.GetMiddleware | apps/api/src/modules/welcome/WelcomeValidation.ts:255-266 | a read is passed on exactly when the id is 24 hex digits |
| WelcomeValidation.GuildWelcomesMiddleware | apps/api/src/modules/welcome/WelcomeValidation.ts:268-283 | the guild listing is passed on exactly when the guild id is not blank |
| WelcomeValidation.SectionIsFirstFailure | apps/api/src/modules/welcome/WelcomeValidation.ts:34-51 | the section middleware answers with the first of its checks that fails |
| WelcomeValidation.CardIsFirstFailure | apps/api/src/modules/welcome/WelcomeValidation.ts:69-107 | the card middleware answers with the first of its five checks that fails |
| WelcomeValidation.SectionsIsFirstFailure | apps/api/src/modules/welcome/WelcomeValidation.ts:34-107 | the section part answers with the first failing check of message, dm, card in that order |
| WelcomeValidation.CreateIsFirstFailure | apps/api/src/modules/welcome/WelcomeValidation.ts:5-110 | the create middleware answers with the first of all its checks, in order, that fails |
| WelcomeValidation.CreateReportsFirstCollected | apps/api/src/modules/welcome/WelcomeValidation.ts:5-110 | the create middleware rejects exactly when collecting the same checks lists an error, and its error is the first one listed |
| WelcomeValidation.CreatePassImpliesUpdatePass | apps/api/src/modules/welcome/WelcomeValidation.ts:5-225 | a body the create middleware passes is passed by the update middleware under any well-formed id |
| WelcomeValidation.HeaderChecksAgree | apps/api/src/modules/welcome/WelcomeValidation.ts:10-32 | the middleware's guild, channel and type checks fail exactly when the collecting validator reports one of them |
| WelcomeValidation.EmptyMessageBody | apps/api/src/modules/welcome/WelcomeValidation.ts:34-42 | a create body whose message section is an empty object |
| WelcomeValidation.MiddlewarePassesEmptyMessage | apps/api/src/modules/welcome/WelcomeValidation.ts:34-42 | the middleware passes a message section without `enabled` |
| WelcomeValidation.CollectorRejectsEmptyMessage | apps/api/src/dto/WelcomeDto.ts:84-86 | the collecting validator rejects the same body with exactly the "Enabled must be a boolean" error |
| WelcomeValidation.EmptyMessageHeader | apps/api/src/dto/WelcomeDto.ts:110-128 | that body passes the collecting header checks |
| WelcomeValidation.EmptyMessageSections | apps/api/src/dto/WelcomeDto.ts:130-133 | its sections collect exactly the missing-`enabled` error |
| WelcomeService.ReplaceAbsent | apps/api/src/modules/welcome/WelcomeService.ts:18-27 | text holding no occurrence of a placeholder is left as it is by its replacement |
| WelcomeService.FirstCharAbsent | apps/api/src/modules/welcome/WelcomeService.ts:18-27 | text without an opening brace holds no placeholder |
| WelcomeService.BracedAbsent | apps/api/src/modules/welcome/WelcomeService.ts:19-27 | no placeholder occurs inside a different one |
| WelcomeService.ReplaceSplits | apps/api/src/modules/welcome/WelcomeService.ts:18-27 | every occurrence of a placeholder in the text is replaced by its value, wherever it sits, and the text around it is replaced independently |
| WelcomeService.ReplaceSplitsMatched | apps/api/src/modules/welcome/WelcomeService.ts:18-27 | the step of the above where the text starts with the placeholder |
| WelcomeService.ReplaceSplitsSkipped | apps/api/src/modules/welcome/WelcomeService.ts:18-27 | the step of the above where it does not |
| WelcomeService.ReplaceWhole | apps/api/src/modules/welcome/WelcomeService.ts:18-27 | a placeholder on its own becomes its value |
| WelcomeService.Tags | apps/api/src/modules/welcome/WelcomeService.ts:19-27 | six placeholders, each a brace-delimited name, all different |
| WelcomeService.OrElse | apps/api/src/modules/welcome/WelcomeService.ts:19-26 | `v || fallback`: a missing or empty value falls back |
| WelcomeService.Values | apps/api/src/modules/welcome/WelcomeService.ts:19-27 | "Unknown Server" without a guild name; "Unknown User" without a username; the display name falls back to the username and then "Unknown User"; both counts are the same, "0" without a count |
| WelcomeService.ReplaceVariables | apps/api/src/modules/welcome/WelcomeService.ts:16 | empty content comes back unchanged |
| WelcomeService.SubstituteAbsent | apps/api/src/modules/welcome/WelcomeService.ts:18-27 | text holding none of the placeholders passes the whole chain unchanged |
| WelcomeService.PlainTextUnchanged | apps/api/src/modules/welcome/WelcomeService.ts:18-27 | content without a brace is returned unchanged |
| WelcomeService.SubstituteOne | apps/api/src/modules/welcome/WelcomeService.ts:18-27 | a placeholder on its own passes the chain as its value, when that value opens no placeholder |
| WelcomeService.PlaceholderBecomesValue | apps/api/src/modules/welcome/WelcomeService.ts:18-27 | content that is exactly one placeholder becomes that placeholder's value |
| WelcomeService.PlaceholderCanReappear | apps/api/src/modules/welcome/WelcomeService.ts:18-27 | the substitution is one pass per placeholder: halves of a placeholder around a replaced one join into a placeholder that stays in the result |
| WelcomeService.ValueReplacedLater | apps/api/src/modules/welcome/WelcomeService.ts:18-27 | a value that is itself a later placeholder is replaced in turn |
| WelcomeService.TestVariableReplacement | apps/api/src/modules/welcome/WelcomeService.ts:152-185 | the test endpoint returns the content as given and a table of the six placeholders with the mock values "Test Server", the mention of the user, "TestUser" twice and "100" twice |
| WelcomeService.TestTableIsTruthful | apps/api/src/modules/welcome/WelcomeService.ts:152-185 | each placeholder on its own is replaced by exactly its entry in that table |
| WelcomeService.Filled | apps/api/src/modules/welcome/WelcomeService.ts:42-54 | the stored document keeps the request's guild, channel and type and each given section, and replaces each missing section by a disabled one |
| WelcomeService.WithEnabled | apps/api/src/modules/welcome/WelcomeService.ts:122-128 | only the chosen section's flag is set; every other flag and every content field stay |
| WelcomeService.ToggleBackRestores | apps/api/src/modules/welcome/WelcomeService.ts:122-128 | setting a flag back to its old value restores the document |
| WelcomeService.WelcomeStore.constructor | apps/api/src/modules/welcome/WelcomeService.ts:9 | the store holds the given configurations |
| WelcomeService.WelcomeStore.Create | apps/api/src/modules/welcome/WelcomeService.ts:30-60 | refused exactly when the guild and channel already have a configuration, changing nothing; otherwise, when the save succeeds, the filled document is stored under the new id, and a failed save throws and changes nothing; unless the save failed, the pair is configured afterwards |
| WelcomeService.WelcomeStore.Toggle | apps/api/src/modules/welcome/WelcomeService.ts:103-134 | a missing configuration, a denied guild access or a failed save changes nothing; otherwise only the chosen section's flag and the update time change |
| ValidationUtils.Lower | apps/api/src/utils/ValidationUtils.ts:15 | the `i` flag: each character is compared in lower case, the length kept |
| ValidationUtils.ValidateUsername | apps/api/src/utils/ValidationUtils.ts:113-140 | a username is valid exactly when it matches `USERNAME_PATTERN` (a letter, then 2 to 29 letters, digits, `_` or `-`); otherwise the message names the first rule broken: required, then length 3 to 30, then the characters |
| ValidationUtils.PasswordRules | apps/api/src/utils/ValidationUtils.ts:142-175 | the order of the password rules: required, at least 12 characters, the character classes, then no common pattern; valid exactly when the pattern holds and no common pattern is found |
| ValidationUtils.ValidatePassword | apps/api/src/utils/ValidationUtils.ts:142-175 | a password is valid exactly when it matches `PASSWORD_PATTERN` and no entry of `COMMON_PATTERNS`, read as the regular expression engine reads it, matches |
| ValidationUtils.CommonPatterns | apps/api/src/utils/ValidationUtils.ts:14-108 | the list has 93 entries, in source order |
| ValidationUtils.PatternText | apps/api/src/utils/ValidationUtils.ts:14-108 | the text an entry was written with |
| ValidationUtils.PlainEntriesAgree | apps/api/src/utils/ValidationUtils.ts:14-108 | for a plain-text entry, a regular expression match is an occurrence of its text ignoring case |
| ValidationUtils.AnchoredEntryNeverMatches | apps/api/src/utils/ValidationUtils.ts:85-87 | `/1qaz$rfv/i` and `/1qaz^yhn/i` match no password at all |
| ValidationUtils.CommonNeedsPattern | apps/api/src/utils/ValidationUtils.ts:157-172 | the common-pattern refusal only comes after the length and class rules have passed |
| ValidationUtils.AnchoredEntryAdmitsItsText | apps/api/src/utils/ValidationUtils.ts:85 | "Zz1qaz$rfvZz" contains the listed "1qaz$rfv" and is still accepted |
| ValidationUtils.RepeatedEntryAdmitsItsText | apps/api/src/utils/ValidationUtils.ts:89 | "Zz1qaz*ikZzz" contains the listed "1qaz*ik" and is still accepted |
| ValidationUtils.ValidatePasswordIntended | apps/api/src/utils/ValidationUtils.ts:142-175 | the corrected check: valid exactly when the pattern holds and no listed text occurs, ignoring case |
| ValidationUtils.IntendedRefusesEveryListedText | apps/api/src/utils/ValidationUtils.ts:14-108 | under the corrected check, any password containing any listed text is refused, with the common-pattern message once the other rules pass |
| ValidationUtils.EmailMatches | apps/api/src/utils/ValidationUtils.ts:110-111 | deciding `EMAIL_PATTERN` by splitting at the first `@` and the last dot agrees with the pattern for every input |
| ValidationUtils.ValidateEmail | apps/api/src/utils/ValidationUtils.ts:177-190 | valid exactly when the email matches the pattern; "Email is required" for the empty string, "Invalid email format" otherwise |
| ValidationUtils.StripAngles | apps/api/src/utils/ValidationUtils.ts:194 | the result holds exactly the characters of the input other than `<` and `>`; input without them is unchanged |
| ValidationUtils.StripScheme | apps/api/src/utils/ValidationUtils.ts:195 | removing "javascript:" never lengthens the text |
| ValidationUtils.StripSchemeChars | apps/api/src/utils/ValidationUtils.ts:195 | removing "javascript:" only drops characters |
| ValidationUtils.StripSchemeFixes | apps/api/src/utils/ValidationUtils.ts:195 | the removal leaves the text unchanged exactly when no "javascript:" occurs in it in any case, and otherwise shortens it |
| ValidationUtils.HandlerLength | apps/api/src/utils/ValidationUtils.ts:196 | a match of `/on\w+=/i` at the start is "on", at least one word character and "=", the word characters taken greedily |
| ValidationUtils.StripHandlers | apps/api/src/utils/ValidationUtils.ts:196 | removing handlers never lengthens the text |
| ValidationUtils.StripHandlersChars | apps/api/src/utils/ValidationUtils.ts:196 | removing handlers only drops characters |
| ValidationUtils.StripHandlersFixes | apps/api/src/utils/ValidationUtils.ts:196 | the removal leaves the text unchanged exactly when no `on...=` handler occurs in it, and otherwise shortens it |
| ValidationUtils.TrimStart | apps/api/src/utils/ValidationUtils.ts:197 | the leading white space goes and what is left does not start with white space |
| ValidationUtils.TrimEnd | apps/api/src/utils/ValidationUtils.ts:197 | the trailing white space goes and what is left does not end with white space |
| ValidationUtils.Trim | apps/api/src/utils/ValidationUtils.ts:197 | `trim()` returns a slice of the input with no white space at either end |
| ValidationUtils.SanitizeInput | apps/api/src/utils/ValidationUtils.ts:192-198 | the result holds no `<` or `>`, only characters of the input, is no longer than the input and is trimmed |
| ValidationUtils.TrimKeepsClean | apps/api/src/utils/ValidationUtils.ts:197 | trimming text with no scheme and no handler leaves none |
| ValidationUtils.Scrub | apps/api/src/utils/ValidationUtils.ts:195-196 | the two word removals only drop characters |
| ValidationUtils.ScrubFixes | apps/api/src/utils/ValidationUtils.ts:195-196 | one scrub changes the text exactly when a scheme or handler remains in it, and then shortens it |
| ValidationUtils.ScrubUntilClean | apps/api/src/utils/ValidationUtils.ts:195-196 | repeating the removals until nothing is found leaves no scheme and no handler |
| ValidationUtils.HiddenScheme | apps/api/src/utils/ValidationUtils.ts:195 | a single left-to-right pass removes "javascript:" from "java" + "javascript:" + a short tail and closes the gap |
| ValidationUtils.SchemeSurvivesSanitizing | apps/api/src/utils/ValidationUtils.ts:192-198 | `sanitizeInput("javajavascript:script:")` is "javascript:" |
| ValidationUtils.SanitizeInputCorrected | apps/api/src/utils/ValidationUtils.ts:192-198 | the corrected sanitizer: no `<` or `>`, no "javascript:" and no handler left, only characters of the input, trimmed |
| ValidationUtils.CorrectedAgrees | apps/api/src/utils/ValidationUtils.ts:192-198 | when one pass already leaves nothing to remove, the corrected sanitizer returns what `sanitizeInput` returns |
| GuildAccess.Pow2 | apps/api/src/modules/guild/GuildAccessService.ts:12-13 | the permission flags are powers of two (`0x8` is 2^3, `0x20` is 2^5) |
| GuildAccess.BitAnd | apps/api/src/modules/guild/GuildAccessService.ts:98-104 | the bitwise and of two permission numbers is at most either of them |
| GuildAccess.Bit | apps/api/src/modules/guild/GuildAccessService.ts:98-104 | a binary digit is 0 or 1 |
| GuildAccess.BitAndFlag | apps/api/src/modules/guild/GuildAccessService.ts:98-104 | `(permissions & flag) === flag` for a single-bit flag holds exactly when that bit of the permissions is set, and otherwise the and is 0 |
| GuildAccess.ZeroHasNoBits | apps/api/src/modules/guild/GuildAccessService.ts:98-104 | no permission bit is set in 0 |
| GuildAccess.CanManageByDigits | apps/api/src/modules/guild/GuildAccessService.ts:97-118 | a user may manage a server exactly when bit 3 (Administrator) or bit 5 (Manage Guild) of their permissions is set, or they own it |
| GuildAccess.CacheKey | apps/api/src/modules/guild/GuildAccessService.ts:61 | a server's key starts with the user's `guild_access:<id>:` prefix and ends with the server id |
| GuildAccess.FindGuild | apps/api/src/modules/guild/GuildAccessService.ts:87-88 | nothing is found exactly when no server in the list has the id; what is found is in the list and has the id |
| GuildAccess.FindGuildIsFirst | apps/api/src/modules/guild/GuildAccessService.ts:88 | what is found is the first server in the list with that id |
| GuildAccess.GetDetailedGuildAccess | apps/api/src/modules/guild/GuildAccessService.ts:47-153 | an unauthenticated user is refused first; a live cache entry answers as stored; only a grant changes the cache, by storing itself for ten minutes under the user's and server's key; a refusal carries a reason; a cache holding only grants keeps holding only grants |
| GuildAccess.DecisionOrder | apps/api/src/modules/guild/GuildAccessService.ts:71-143 | without the cache: a failed refresh of an expired token, then a failed server list, then no membership, then missing permission, then a missing bot, each with its own reason, then a failed cache write, which lands in the catch-all, and otherwise a grant |
| GuildAccess.FreshGrantIff | apps/api/src/modules/guild/GuildAccessService.ts:71-143 | without the cache, access is granted exactly when the token is usable, the server is in the list, the user may manage it, the bot is in it and the grant is written to the cache |
| GuildAccess.CheckUserGuildAccess | apps/api/src/modules/guild/GuildAccessService.ts:34-45 | the boolean is the detailed check's `hasAccess`; a refusal leaves the cache as it was |
| GuildAccess.GrantIsRemembered | apps/api/src/modules/guild/GuildAccessService.ts:60-69 | after a grant, the same user and server get the same result for ten minutes, whatever Discord would answer |
| GuildAccess.ClearUserGuildAccessCache | apps/api/src/modules/guild/GuildAccessService.ts:267-284 | with a server id only that server's key goes; without one every key with the user's prefix goes; no remaining entry changes |
| GuildAccess.ClearedCheckIsFresh | apps/api/src/modules/guild/GuildAccessService.ts:267-284 | after the user's whole cache is cleared, the next check of any server asks Discord again |
| GuildAccess.Manageable | apps/api/src/modules/guild/GuildAccessService.ts:247-256 | the filter keeps exactly the servers the user may manage, and no more than it was given |
| GuildAccess.GetUserGuildsWithAccess | apps/api/src/modules/guild/GuildAccessService.ts:238-265 | empty without an access token or when the list cannot be fetched; otherwise exactly the manageable servers |
| GuildAccess.ListedIffGranted | apps/api/src/modules/guild/GuildAccessService.ts:238-265 | a server whose id appears once is listed exactly when a fresh check with the bot present grants it; when the cache write fails, exactly when that check ends in the catch-all |

## Left out

- Discord I/O is not modelled: embeds, buttons, replies, collectors, the announcement messages, and the channel edits whose failure is caught or that run after the last save. Their failure changes no stored state, so none is a parameter.
- Three Discord calls run before a save and abort the operation when they fail. Each is a boolean parameter: the channel creation in `OpenTicket.Open`, the permission-overwrite edit in `OpenTicket.Reopen` and the channel rename in `TicketStaff.ClaimTicket`.
- What Discord tells an operation is a parameter: the member's roles, the linked-account answer, the department picked.
- Persistence is not modelled as Mongo or Redis: the stores are maps. Each save is a boolean parameter of the operation that makes it: the giveaway operations, the ticket operations, the `/settings` handlers, `WelcomeStore.Create`, `WelcomeStore.Toggle`, and the write of a grant in `GuildAccess.GetDetailedGuildAccess`. A failure skips the steps after it, and what the earlier saves wrote stays written.
- `OpenTicket.Open`: the model has no Discord channels, so the channel left behind when a save fails after the channel was created is not represented.
- `GuildAccess.GetDetailedGuildAccess`: a failed Redis read (`GuildAccessService.ts:62`) also lands in the catch-all; the model's cache read always succeeds.
- The logger, error handler, `setInterval` poller and command layer are not modelled.
- Concurrency is not modelled: each operation runs alone on the store, so "ended at most once" is a sequential guarantee. The source's unguarded read-modify-write in start, participate and end is not captured.
- The clock is one `now` per operation. `start-giveaway.ts:36-37` reads the clock twice; the model uses the same instant for both, which gives `endTime == startTime + duration * 1000`.
- Participate reads the giveaway through the bot cache, which can be stale (`participate.ts:41-49`). The model reads the store.
- The user-document lookups through the bot cache in participate, close and delete are not modelled.
- `CloseTicket.Close`, `DeleteTicket.Delete`: the bot reads the ticket document through its cache, keyed `ticket_<channel>`, for five minutes (`close-ticket.ts:56-65`, `delete-ticket.ts:54-63`). The key is evicted only after a successful save, and reopen and claim write through the database without evicting it. The model reads the store, so it does not capture the stale copy. In the bot, a 403 on delete leaves a "closed" copy cached. If the creator then reopens, a staff delete within five minutes takes the ticket from open straight to deleted, a step `TicketStep` does not allow. A close in that window answers a spurious 409.
- `CloseTicket.Close`, `DeleteTicket.Delete`, `OpenTicket.Open` and the ticket `/settings` handlers also read the ticket settings through the cache. They change the cached document before saving it, so after a failed save the unsaved change stays cached until the entry expires. The model's settings are the stored ones.
- `participate.ts` never consults the giveaway ban list, and the model has no ban check there either.
- The listing's own cache is not modelled. Its key ignores `sortBy` (`list-giveaways.ts:37`), so two listings that differ only in order can share an entry.
- Sorting by `participants` (an array field) is not modelled. Between equal keys the model keeps the store's order, which is one order the database may return.
- `ListGiveaways.Sort`: it is an insertion sort on the model's sequence and stands for the database sort, so the order among equal keys is one possible order, not the database's.
- The running average response time and `responseTimeLastUpdated` are floating-point or date fields and are not modelled. Only the integer counters are.
- Formatted durations are not modelled.
- When `open` meets an unrecognised access level, it saves a fresh ticket settings document. The model returns the refusal but does not add that document.
- The `/settings` declaration (`settings.ts:13-123`) registers only the `ticket` subcommand group, so the giveaway handlers cannot be reached from Discord. They are modelled as written.
- Reopening does not check for another open ticket of the same creator; `OpenTicket.ReopenCanBreakOneOpen` exhibits this, and the one-open-ticket invariant is therefore proved for `open` only.
- `new URL(...)` is not modelled. It is a predicate parameter `validUrl`.
- Permission strings are taken as the numbers they spell, so a `BigInt` parse failure is not modelled.
- The axios requests are not modelled. For the token refresh, the server list and the bot lookup, only their outcome is passed in.
- The refresh's update of the user's token fields is not modelled.
- The Redis pattern `guild_access:<id>:*` is read as a key prefix.
- Case folding covers ASCII letters only.
- Strings are sequences of characters, not UTF-16 code units.
- Numbers are integers.
- A cached value is never `null`.
- JavaScript `$` patterns in replacement strings are not interpreted.
- modules/welcome/WelcomeModel.ts is not part of this model. The stored welcome document is a datatype with the fields the service reads and writes.
- `updateWelcome`, `deleteWelcome` and the getters of `WelcomeService.ts` are not modelled. They are plain store reads and writes behind the same access check.
- `WelcomeService.ReplaceSplits`: every placeholder occurrence in the input is replaced. The result is not promised to be free of placeholders, because the replacements can splice a new one together (`WelcomeService.PlaceholderCanReappear`).

## Findings

| source | as written | input that shows it | evidently intended | confidence | as-written member | corrected member |
|---|---|---|---|---|---|---|
| apps/api/src/utils/ValidationUtils.ts:85 | `/1qaz$rfv/i` has an end-of-input anchor before more text, so the entry matches no password | "Zz1qaz$rfvZz" is accepted | refuse every password containing "1qaz$rfv" in any case | not executed | ValidationUtils.AnchoredEntryAdmitsItsText | ValidationUtils.ValidatePasswordIntended |
| apps/api/src/utils/ValidationUtils.ts:89 | `/1qaz*ik/i` repeats the `z`: it matches "1qa", any number of "z", then "ik", but not the text "1qaz*ik" | "Zz1qaz*ikZzz" is accepted | refuse every password containing "1qaz*ik" in any case | not executed | ValidationUtils.RepeatedEntryAdmitsItsText | ValidationUtils.ValidatePasswordIntended |
| apps/api/src/utils/ValidationUtils.ts:192-198 | each removal runs once, so removing "javascript:" can join the pieces around it into a new "javascript:" | `sanitizeInput("javajavascript:script:")` returns "javascript:" | output containing no "javascript:" and no `on...=` handler | not executed | ValidationUtils.SchemeSurvivesSanitizing | ValidationUtils.SanitizeInputCorrected |
