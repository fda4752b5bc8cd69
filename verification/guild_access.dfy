/** Whether a dashboard user may manage a Discord server
    (apps/api/src/modules/guild/GuildAccessService.ts): the permission bit rule, the order in
    which `getDetailedGuildAccess` refuses, the result cache, and the list of manageable
    servers. What Discord answers (the guild list, the token refresh, the bot lookup) is
    passed in. */
module GuildAccess {
  import opened Wrappers

  // ------------------------------------------------------------------ permission bits

  const AdministratorPermission: nat := 0x8
  const ManageGuildPermission: nat := 0x20
  /** Seconds a granted result stays in the cache. */
  const CacheTtl: nat := 60 * 10

  function Pow2(k: nat): (p: nat)
    ensures p >= 1
  {
    if k == 0 then 1 else 2 * Pow2(k - 1)
  }

  /** `a & b` on non-negative integers, one binary digit at a time. */
  function BitAnd(a: nat, b: nat): (r: nat)
    ensures r <= a && r <= b
    decreases a
  {
    if a == 0 || b == 0 then 0
    else 2 * BitAnd(a / 2, b / 2) + (if a % 2 == 1 && b % 2 == 1 then 1 else 0)
  }

  /** Binary digit `k` of `p`. */
  function Bit(p: nat, k: nat): (d: nat)
    ensures d <= 1
  {
    if k == 0 then p % 2 else Bit(p / 2, k - 1)
  }

  /** Masking with a single flag keeps the flag exactly when that digit is set. */
  lemma {:induction false} BitAndFlag(p: nat, k: nat)
    ensures BitAnd(p, Pow2(k)) == Bit(p, k) * Pow2(k)
    ensures BitAnd(p, Pow2(k)) == Pow2(k) <==> Bit(p, k) == 1
    decreases k
  {
    if k > 0 && p != 0 {
      BitAndFlag(p / 2, k - 1);
      var m := Pow2(k - 1);
      assert Pow2(k) == 2 * m && Pow2(k) / 2 == m && Pow2(k) % 2 == 0;
      assert BitAnd(p, Pow2(k)) == 2 * BitAnd(p / 2, m);
      if Bit(p / 2, k - 1) == 0 {
        assert BitAnd(p / 2, m) == 0;
      } else {
        assert BitAnd(p / 2, m) == m;
      }
    } else if k > 0 {
      ZeroHasNoBits(k);
    }
  }

  lemma {:induction false} ZeroHasNoBits(k: nat)
    ensures Bit(0, k) == 0
  {
    if k > 0 {
      ZeroHasNoBits(k - 1);
    }
  }

  /** `(permissions & flag) === flag`. */
  predicate HasFlag(permissions: nat, flag: nat) {
    BitAnd(permissions, flag) == flag
  }

  /** A server the user may manage: Administrator, Manage Guild, or owner. */
  predicate CanManage(g: DiscordGuild) {
    HasFlag(g.permissions, AdministratorPermission) || HasFlag(g.permissions, ManageGuildPermission)
    || g.owner
  }

  /** The rule in terms of the binary digits Discord documents: digit 3 is Administrator and
      digit 5 is Manage Guild. */
  lemma CanManageByDigits(g: DiscordGuild)
    ensures CanManage(g) <==> Bit(g.permissions, 3) == 1 || Bit(g.permissions, 5) == 1 || g.owner
  {
    assert Pow2(3) == AdministratorPermission;
    assert Pow2(5) == ManageGuildPermission;
    BitAndFlag(g.permissions, 3);
    BitAndFlag(g.permissions, 5);
  }

  // ------------------------------------------------------------------ data

  /** One entry of `GET /users/@me/guilds`; `permissions` is the decimal string Discord
      sends, read as the number it spells. */
  datatype DiscordGuild = DiscordGuild(id: string, name: string, owner: bool, permissions: nat)

  /** The stored user; `tokenExpires` is in milliseconds since the epoch. */
  datatype User = User(
    discordId: Option<string>,
    accessToken: Option<string>,
    refreshToken: Option<string>,
    tokenExpires: Option<int>)

  /** `!!field` for an optional string: absent and empty are both false. */
  predicate Given(o: Option<string>) {
    o.Some? && o.value != []
  }

  predicate Authenticated(u: User) {
    Given(u.accessToken) && Given(u.discordId)
  }

  predicate TokenExpired(u: User, now: int) {
    u.tokenExpires.Some? && u.tokenExpires.value < now
  }

  /** What the services outside answer during one check: whether Discord's token refresh
      hands back a new access token, the user's servers (`None` when the request fails),
      whether the bot can see the server, and whether Redis accepts the write of a grant. */
  datatype Discord = Discord(refreshGranted: bool, guilds: Option<seq<DiscordGuild>>, botPresent: bool,
                             cacheWritten: bool)

  /** `refreshUserToken`: false at once without a refresh token, else what Discord says. */
  predicate Refreshed(u: User, d: Discord) {
    Given(u.refreshToken) && d.refreshGranted
  }

  datatype AccessResult = AccessResult(
    hasAccess: bool,
    reason: Option<string>,
    permissions: Option<seq<nat>>,
    isOwner: Option<bool>,
    botPresent: Option<bool>)

  const AuthRequired := "Discord authentication required"
  const RefreshFailed := "Discord token expired and refresh failed"
  const NotMember := "User is not a member of this guild"
  const Insufficient := "Insufficient permissions (requires Administrator, Manage Guild, or Owner)"
  const BotMissing := "Bot is not present in this guild"
  const CheckFailed := "Error checking guild access"

  function Denied(reason: string): AccessResult {
    AccessResult(false, Some(reason), None, None, None)
  }

  /** The result that is granted, and the only kind that is cached. */
  predicate IsGrant(r: AccessResult) {
    r.hasAccess && r.reason.None? && r.botPresent == Some(true)
  }

  /** Cached results with the moment, in milliseconds, at which they expire. */
  datatype Cached = Cached(result: AccessResult, expiresAt: int)

  type AccessCache = map<string, Cached>

  const KeyPrefix := "guild_access:"

  function UserPrefix(discordId: string): string {
    KeyPrefix + discordId + ":"
  }

  function CacheKey(discordId: string, guildId: string): (k: string)
    ensures k == UserPrefix(discordId) + guildId
  {
    KeyPrefix + discordId + ":" + guildId
  }

  predicate CacheHit(cache: AccessCache, key: string, now: int) {
    key in cache && now < cache[key].expiresAt
  }

  /** Every live entry is a grant. */
  predicate HoldsOnlyGrants(cache: AccessCache) {
    forall k :: k in cache ==> IsGrant(cache[k].result)
  }

  // ------------------------------------------------------------------ lookup

  /** `guilds.find(g => g.id === guildId)`: a server with that id when there is one. */
  function FindGuild(gs: seq<DiscordGuild>, guildId: string): (r: Option<DiscordGuild>)
    ensures r.None? <==> forall g :: g in gs ==> g.id != guildId
    ensures r.Some? ==> r.value in gs && r.value.id == guildId
  {
    if gs == [] then None
    else if gs[0].id == guildId then Some(gs[0])
    else FindGuild(gs[1..], guildId)
  }

  /** ... and it is the first one. */
  lemma {:induction false} FindGuildIsFirst(gs: seq<DiscordGuild>, guildId: string)
    requires FindGuild(gs, guildId).Some?
    ensures exists i :: 0 <= i < |gs| && gs[i] == FindGuild(gs, guildId).value
                        && forall j :: 0 <= j < i ==> gs[j].id != guildId
  {
    if gs[0].id == guildId {
      assert gs[0] == FindGuild(gs, guildId).value;
    } else {
      FindGuildIsFirst(gs[1..], guildId);
      var i :| 0 <= i < |gs[1..]| && gs[1..][i] == FindGuild(gs[1..], guildId).value
               && forall j :: 0 <= j < i ==> gs[1..][j].id != guildId;
      assert gs[i + 1] == FindGuild(gs, guildId).value;
      forall j | 0 <= j < i + 1
        ensures gs[j].id != guildId
      {
        if j > 0 {
          assert gs[j] == gs[1..][j - 1];
        }
      }
    }
  }

  // ------------------------------------------------------------------ the check

  /** The result of `getDetailedGuildAccess` and the cache it leaves. */
  datatype Checked = Checked(result: AccessResult, cache: AccessCache)

  /** `getDetailedGuildAccess(user, guildId)` at time `now` (milliseconds): refuse an
      unauthenticated user, answer from the cache, refresh an expired token, then require
      membership, permission and the bot, in that order; a grant is cached for
      `CacheTtl` seconds. A failed request for the server list, or a failed write of the
      grant to the cache, lands in the catch-all. */
  function GetDetailedGuildAccess(user: User, guildId: string, now: int, cache: AccessCache, discord: Discord)
    : (out: Checked)
    ensures !Authenticated(user) ==> out == Checked(Denied(AuthRequired), cache)
    ensures Authenticated(user) && CacheHit(cache, CacheKey(user.discordId.value, guildId), now) ==>
      out == Checked(cache[CacheKey(user.discordId.value, guildId)].result, cache)
    ensures out.result.hasAccess && out.cache != cache ==>
      IsGrant(out.result) && Authenticated(user)
      && out.cache == cache[CacheKey(user.discordId.value, guildId) := Cached(out.result, now + CacheTtl * 1000)]
    ensures !out.result.hasAccess ==> out.cache == cache
    ensures !out.result.hasAccess && HoldsOnlyGrants(cache) ==> out.result.reason.Some?
    ensures HoldsOnlyGrants(cache) ==> HoldsOnlyGrants(out.cache)
  {
    if !Authenticated(user) then Checked(Denied(AuthRequired), cache)
    else
      var key := CacheKey(user.discordId.value, guildId);
      if CacheHit(cache, key, now) then Checked(cache[key].result, cache)
      else if TokenExpired(user, now) && !Refreshed(user, discord) then Checked(Denied(RefreshFailed), cache)
      else if discord.guilds.None? then Checked(Denied(CheckFailed), cache)
      else
        var target := FindGuild(discord.guilds.value, guildId);
        if target.None? then Checked(Denied(NotMember), cache)
        else
          var g := target.value;
          if !CanManage(g) then
            Checked(AccessResult(false, Some(Insufficient), Some([g.permissions]), Some(g.owner), None), cache)
          else if !discord.botPresent then
            Checked(AccessResult(false, Some(BotMissing), Some([g.permissions]), Some(g.owner), Some(false)), cache)
          else if !discord.cacheWritten then Checked(Denied(CheckFailed), cache)
          else
            var granted := AccessResult(true, None, Some([g.permissions]), Some(g.owner), Some(true));
            Checked(granted, cache[key := Cached(granted, now + CacheTtl * 1000)])
  }

  /** The check without the cache answering: the reasons in their order. */
  predicate Fresh(user: User, guildId: string, now: int, cache: AccessCache) {
    Authenticated(user) && !CacheHit(cache, CacheKey(user.discordId.value, guildId), now)
  }

  /** Which refusal a fresh check gives, and that it grants exactly when nothing refuses. */
  lemma DecisionOrder(user: User, guildId: string, now: int, cache: AccessCache, d: Discord)
    requires Fresh(user, guildId, now, cache)
    ensures var r := GetDetailedGuildAccess(user, guildId, now, cache, d).result;
      && (TokenExpired(user, now) && !Refreshed(user, d) ==> r == Denied(RefreshFailed))
      && (!(TokenExpired(user, now) && !Refreshed(user, d)) ==>
            && (d.guilds.None? ==> r == Denied(CheckFailed))
            && (d.guilds.Some? ==>
                  var t := FindGuild(d.guilds.value, guildId);
                  && (t.None? ==> r == Denied(NotMember))
                  && (t.Some? && !CanManage(t.value) ==> !r.hasAccess && r.reason == Some(Insufficient)
                                                          && r.isOwner == Some(t.value.owner))
                  && (t.Some? && CanManage(t.value) && !d.botPresent ==>
                        !r.hasAccess && r.reason == Some(BotMissing) && r.botPresent == Some(false))
                  && (t.Some? && CanManage(t.value) && d.botPresent && !d.cacheWritten ==>
                        r == Denied(CheckFailed))
                  && (t.Some? && CanManage(t.value) && d.botPresent && d.cacheWritten ==> IsGrant(r))))
  {
  }

  /** A fresh check grants exactly when the token is usable, the server is in the user's
      list, the user may manage it, the bot is there and the grant is written to the cache. */
  lemma FreshGrantIff(user: User, guildId: string, now: int, cache: AccessCache, d: Discord)
    requires Fresh(user, guildId, now, cache)
    ensures GetDetailedGuildAccess(user, guildId, now, cache, d).result.hasAccess <==>
      && !(TokenExpired(user, now) && !Refreshed(user, d))
      && d.guilds.Some?
      && (exists g :: g in d.guilds.value && g.id == guildId)
      && CanManage(FindGuild(d.guilds.value, guildId).value)
      && d.botPresent
      && d.cacheWritten
  {
  }

  /** `checkUserGuildAccess`: the `hasAccess` of the detailed check, with its cache. */
  function CheckUserGuildAccess(user: User, guildId: string, now: int, cache: AccessCache, discord: Discord)
    : (r: (bool, AccessCache))
    ensures r.0 ==> Authenticated(user)
    ensures r.0 <==> GetDetailedGuildAccess(user, guildId, now, cache, discord).result.hasAccess
    ensures !r.0 ==> r.1 == cache
  {
    var out := GetDetailedGuildAccess(user, guildId, now, cache, discord);
    (out.result.hasAccess, out.cache)
  }

  /** Once granted, the same user and server are answered from the cache, with the same
      result, until the entry expires, whatever Discord would say. */
  lemma GrantIsRemembered(user: User, guildId: string, now: int, later: int, cache: AccessCache,
                          d: Discord, d': Discord)
    requires now <= later < now + CacheTtl * 1000
    requires Fresh(user, guildId, now, cache)
    requires GetDetailedGuildAccess(user, guildId, now, cache, d).result.hasAccess
    ensures var first := GetDetailedGuildAccess(user, guildId, now, cache, d);
      GetDetailedGuildAccess(user, guildId, later, first.cache, d') == first
  {
    var first := GetDetailedGuildAccess(user, guildId, now, cache, d);
    var key := CacheKey(user.discordId.value, guildId);
    assert first.cache == cache[key := Cached(first.result, now + CacheTtl * 1000)];
    assert CacheHit(first.cache, key, later);
  }

  // ------------------------------------------------------------------ clearing the cache

  function StartsWith(s: string, p: string): bool {
    |p| <= |s| && s[..|p|] == p
  }

  /** `clearUserGuildAccessCache(userId, guildId?)`: one entry when a server is named,
      otherwise every `guild_access:<userId>:*` entry. */
  function ClearUserGuildAccessCache(cache: AccessCache, userId: string, guildId: Option<string>)
    : (r: AccessCache)
    ensures Given(guildId) ==> r == map k | k in cache && k != CacheKey(userId, guildId.value) :: cache[k]
    ensures !Given(guildId) ==> forall k :: k in r <==> k in cache && !StartsWith(k, UserPrefix(userId))
    ensures forall k :: k in r ==> k in cache && r[k] == cache[k]
  {
    if Given(guildId) then map k | k in cache && k != CacheKey(userId, guildId.value) :: cache[k]
    else map k | k in cache && !StartsWith(k, UserPrefix(userId)) :: cache[k]
  }

  /** After clearing a user's whole cache, the next check of any server is fresh. */
  lemma ClearedCheckIsFresh(user: User, guildId: string, now: int, cache: AccessCache)
    requires Authenticated(user)
    ensures Fresh(user, guildId, now, ClearUserGuildAccessCache(cache, user.discordId.value, None))
  {
    var id := user.discordId.value;
    var k := CacheKey(id, guildId);
    assert k[..|UserPrefix(id)|] == UserPrefix(id);
    assert StartsWith(k, UserPrefix(id));
  }

  // ------------------------------------------------------------------ the server list

  /** `userGuilds.filter(...)` with the permission rule, in the list's order. */
  function Manageable(gs: seq<DiscordGuild>): (r: seq<DiscordGuild>)
    ensures |r| <= |gs|
    ensures forall g :: g in r <==> g in gs && CanManage(g)
  {
    if gs == [] then []
    else if CanManage(gs[0]) then [gs[0]] + Manageable(gs[1..])
    else Manageable(gs[1..])
  }

  /** `getUserGuildsWithAccess`: nothing without a token or when the list cannot be fetched,
      otherwise the servers the user may manage. */
  function GetUserGuildsWithAccess(user: User, guilds: Option<seq<DiscordGuild>>): (r: seq<DiscordGuild>)
    ensures !Given(user.accessToken) || guilds.None? ==> r == []
    ensures Given(user.accessToken) && guilds.Some? ==>
      forall g :: g in r <==> g in guilds.value && CanManage(g)
  {
    if !Given(user.accessToken) || guilds.None? then [] else Manageable(guilds.value)
  }

  /** The list and the single check agree: a server whose id is not shared with another
      entry is listed exactly when a fresh check with the bot present grants it, or, when the
      cache write fails, exactly when that check ends in the catch-all. */
  lemma {:induction false} ListedIffGranted(user: User, g: DiscordGuild, now: int, cache: AccessCache,
                                            d: Discord)
    requires Fresh(user, g.id, now, cache) && !TokenExpired(user, now)
    requires d.guilds.Some? && g in d.guilds.value && d.botPresent
    requires forall i :: 0 <= i < |d.guilds.value| && d.guilds.value[i].id == g.id ==> d.guilds.value[i] == g
    ensures d.cacheWritten ==>
      (g in GetUserGuildsWithAccess(user, d.guilds) <==> GetDetailedGuildAccess(user, g.id, now, cache, d).result.hasAccess)
    ensures !d.cacheWritten ==>
      (g in GetUserGuildsWithAccess(user, d.guilds) <==> GetDetailedGuildAccess(user, g.id, now, cache, d).result == Denied(CheckFailed))
  {
    var t := FindGuild(d.guilds.value, g.id);
    assert t == Some(g);
    FreshGrantIff(user, g.id, now, cache, d);
  }
}
