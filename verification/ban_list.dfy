/** The ban lists kept in the ticket settings (`ticketBanList`) and the giveaway settings
    (`bannedUsers`), and the add and remove rules the settings command applies to both
    (apps/bot/src/commands/settings.ts). */
module BanList {
  import opened Wrappers

  /** One entry; `bannedAt` is epoch milliseconds. */
  datatype Ban = Ban(userId: string, moderator: string, reason: Option<string>, bannedAt: int)

  predicate Listed(bans: seq<Ban>, userId: string) {
    exists i :: 0 <= i < |bans| && bans[i].userId == userId
  }

  /** No user is listed twice. */
  ghost predicate OnePerUser(bans: seq<Ban>) {
    forall i, j :: 0 <= i < j < |bans| ==> bans[i].userId != bans[j].userId
  }

  /** `reason || undefined`: a missing or empty reason is stored as absent. */
  function StoredReason(reason: Option<string>): (r: Option<string>)
    ensures r.Some? <==> reason.Some? && reason.value != ""
    ensures r.Some? ==> r == reason
  {
    if reason.Some? && reason.value != "" then reason else None
  }

  /** `filter(ban => ban.userId !== userId)`. */
  function WithoutUser(bans: seq<Ban>, userId: string): (r: seq<Ban>)
    ensures !Listed(r, userId)
    ensures forall b: Ban :: b.userId != userId ==> multiset(r)[b] == multiset(bans)[b]
    ensures forall b: Ban :: b in r ==> b in bans
    ensures |r| <= |bans|
    ensures |r| == |bans| <==> !Listed(bans, userId)
  {
    if bans == [] then []
    else
      var rest := WithoutUser(bans[1..], userId);
      assert bans == [bans[0]] + bans[1..];
      ListedCons(bans, userId);
      if bans[0].userId == userId then rest
      else
        ListedCons([bans[0]] + rest, userId);
        assert ([bans[0]] + rest)[1..] == rest;
        [bans[0]] + rest
  }

  lemma ListedCons(bans: seq<Ban>, userId: string)
    requires bans != []
    ensures Listed(bans, userId) <==> bans[0].userId == userId || Listed(bans[1..], userId)
  {
    if Listed(bans[1..], userId) {
      var i :| 0 <= i < |bans[1..]| && bans[1..][i].userId == userId;
      assert bans[i + 1].userId == userId;
    }
    if Listed(bans, userId) && bans[0].userId != userId {
      var i :| 0 <= i < |bans| && bans[i].userId == userId;
      assert bans[1..][i - 1].userId == userId;
    }
  }

  datatype AddOutcome = AlreadyBanned | Added(bans: seq<Ban>)

  /** The `add` action: an absent list counts as empty; a user already listed is refused
      (409); otherwise one entry is appended. */
  function Add(bans: Option<seq<Ban>>, userId: string, moderator: string, reason: Option<string>,
               now: int): (r: AddOutcome)
    ensures r.AlreadyBanned? <==> bans.Some? && Listed(bans.value, userId)
    ensures r.Added? ==>
      r.bans == (if bans.Some? then bans.value else []) + [Ban(userId, moderator, StoredReason(reason), now)]
  {
    var list := if bans.Some? then bans.value else [];
    if Listed(list, userId) then AlreadyBanned
    else Added(list + [Ban(userId, moderator, StoredReason(reason), now)])
  }

  datatype RemoveOutcome = NotBanned | Removed(bans: seq<Ban>)

  /** The `remove` action: an absent list, or a filter that removes nothing (same length),
      is "not banned" (404); otherwise every entry of the user goes. */
  function Remove(bans: Option<seq<Ban>>, userId: string): (r: RemoveOutcome)
    ensures r.NotBanned? <==> bans.None? || !Listed(bans.value, userId)
    ensures r.Removed? ==> bans.Some? && r.bans == WithoutUser(bans.value, userId)
  {
    if bans.None? then NotBanned
    else
      var filtered := WithoutUser(bans.value, userId);
      if |filtered| == |bans.value| then NotBanned else Removed(filtered)
  }

  /** The add rule keeps every user listed at most once. */
  lemma AddKeepsOnePerUser(bans: Option<seq<Ban>>, userId: string, moderator: string,
                           reason: Option<string>, now: int)
    requires bans.Some? ==> OnePerUser(bans.value)
    ensures Add(bans, userId, moderator, reason, now).Added? ==>
      OnePerUser(Add(bans, userId, moderator, reason, now).bans)
  {
    var r := Add(bans, userId, moderator, reason, now);
    if r.Added? {
      var list := if bans.Some? then bans.value else [];
      forall i, j | 0 <= i < j < |r.bans| ensures r.bans[i].userId != r.bans[j].userId {
        if j == |list| {
          assert r.bans[i] == list[i];
        }
      }
    }
  }

  /** After an add, the user is listed; a remove then takes them off again and gives back
      the list as it was before the add. */
  lemma {:induction false} AddThenRemove(bans: seq<Ban>, userId: string, moderator: string,
                                         reason: Option<string>, now: int)
    requires !Listed(bans, userId)
    ensures Add(Some(bans), userId, moderator, reason, now).Added?
    ensures Listed(Add(Some(bans), userId, moderator, reason, now).bans, userId)
    ensures Remove(Some(Add(Some(bans), userId, moderator, reason, now).bans), userId) == Removed(bans)
  {
    var b := Ban(userId, moderator, StoredReason(reason), now);
    var added := bans + [b];
    assert added[|bans|].userId == userId;
    WithoutUnlisted(bans, userId);
    WithoutAppended(bans, b);
  }

  lemma {:induction false} WithoutUnlisted(bans: seq<Ban>, userId: string)
    requires !Listed(bans, userId)
    ensures WithoutUser(bans, userId) == bans
  {
    if bans != [] {
      ListedCons(bans, userId);
      WithoutUnlisted(bans[1..], userId);
      assert bans[0].userId != userId;
      assert bans == [bans[0]] + bans[1..];
    }
  }

  lemma {:induction false} WithoutAppended(bans: seq<Ban>, b: Ban)
    ensures WithoutUser(bans + [b], b.userId) == WithoutUser(bans, b.userId)
  {
    if bans == [] {
      assert WithoutUser([b], b.userId) == [] by {
        assert [b][1..] == [];
      }
    } else {
      assert (bans + [b])[1..] == bans[1..] + [b];
      WithoutAppended(bans[1..], b);
    }
  }

  /** Filtering a user out keeps the rest listed once. */
  lemma {:induction false} WithoutUserKeepsOnePerUser(bans: seq<Ban>, userId: string)
    requires OnePerUser(bans)
    ensures OnePerUser(WithoutUser(bans, userId))
  {
    if bans != [] {
      WithoutUserKeepsOnePerUser(bans[1..], userId);
      var rest := WithoutUser(bans[1..], userId);
      if bans[0].userId != userId {
        var r := [bans[0]] + rest;
        forall i, j | 0 <= i < j < |r| ensures r[i].userId != r[j].userId {
          if i == 0 {
            assert r[j] in rest;
            var k :| 0 <= k < |bans[1..]| && bans[1..][k] == r[j];
            assert bans[k + 1] == r[j];
          }
        }
      }
    }
  }

  /** Removing twice: the second remove finds nothing. */
  lemma RemoveTwice(bans: seq<Ban>, userId: string)
    ensures Remove(Some(bans), userId).Removed? ==>
      Remove(Some(Remove(Some(bans), userId).bans), userId) == NotBanned
  {
  }
}
