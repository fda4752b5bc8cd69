/** The welcome service (apps/api/src/modules/welcome/WelcomeService.ts): placeholder
    substitution in welcome texts, and the create and toggle operations on the stored welcome
    configurations. */
module WelcomeService {
  import opened Wrappers
  import opened JsValues

  // ----- template substitution -----

  /** `s.replace(/pat/g, val)` for a pattern without special characters: scanning left to right,
      each occurrence is replaced and scanning resumes after it. Its properties are lemmas below:
      `ReplaceAbsent` (no occurrence, no change), `ReplaceWhole` (the pattern alone becomes the
      value) and `ReplaceSplits` (a placeholder anywhere is replaced, and the text on either side
      of it is replaced on its own). */
  function ReplaceAll(s: string, pat: string, val: string): string
    requires |pat| > 0
    decreases |s|
  {
    if |s| < |pat| then s
    else if s[..|pat|] == pat then val + ReplaceAll(s[|pat|..], pat, val)
    else [s[0]] + ReplaceAll(s[1..], pat, val)
  }

  /** `pat` occurs in `s` at index `i`. */
  predicate MatchAt(s: string, pat: string, i: int) {
    0 <= i && i + |pat| <= |s| && s[i..i + |pat|] == pat
  }

  /** `pat` occurs nowhere in `s`. */
  ghost predicate Absent(s: string, pat: string) {
    forall i :: !MatchAt(s, pat, i)
  }

  /** A placeholder: a name between braces, with no brace inside. */
  predicate Braced(t: string) {
    && |t| >= 2 && t[0] == '{' && t[|t| - 1] == '}'
    && forall i :: 0 < i < |t| - 1 ==> t[i] != '{' && t[i] != '}'
  }

  /** Text without any occurrence of `pat` is left as it is. */
  lemma {:induction false} ReplaceAbsent(s: string, pat: string, val: string)
    requires |pat| > 0 && Absent(s, pat)
    ensures ReplaceAll(s, pat, val) == s
    decreases |s|
  {
    if |s| >= |pat| {
      assert !MatchAt(s, pat, 0);
      assert Absent(s[1..], pat) by {
        forall i | 0 <= i && i + |pat| <= |s[1..]| ensures !MatchAt(s[1..], pat, i) {
          assert s[1..][i..i + |pat|] == s[i + 1..i + 1 + |pat|];
          assert !MatchAt(s, pat, i + 1);
        }
      }
      ReplaceAbsent(s[1..], pat, val);
      assert [s[0]] + s[1..] == s;
    }
  }

  /** Text without the pattern's first character does not contain the pattern. */
  lemma FirstCharAbsent(s: string, pat: string)
    requires |pat| > 0 && pat[0] !in s
    ensures Absent(s, pat)
  {
    forall i | 0 <= i && i + |pat| <= |s| ensures !MatchAt(s, pat, i) {
      assert s[i..i + |pat|][0] == s[i];
    }
  }

  /** One placeholder does not occur inside another. */
  lemma BracedAbsent(s: string, pat: string)
    requires Braced(s) && Braced(pat) && s != pat
    ensures Absent(s, pat)
  {
  }

  /** Every occurrence of a placeholder in the input is replaced by the value, wherever it sits:
      no occurrence can overlap one of its neighbours. */
  lemma {:induction false} ReplaceSplits(a: string, b: string, pat: string, val: string)
    requires Braced(pat)
    ensures ReplaceAll(a + pat + b, pat, val) == ReplaceAll(a, pat, val) + val + ReplaceAll(b, pat, val)
    decreases |a|
  {
    var s := a + pat + b;
    if a == [] {
      assert s == pat + b && s[..|pat|] == pat && s[|pat|..] == b;
    } else if |a| >= |pat| && a[..|pat|] == pat {
      ReplaceSplits(a[|pat|..], b, pat, val);
      ReplaceSplitsMatched(a, b, pat, val);
    } else {
      ReplaceSplits(a[1..], b, pat, val);
      ReplaceSplitsSkipped(a, b, pat, val);
    }
  }

  /** The step of `ReplaceSplits` where `a` starts with the placeholder. */
  lemma ReplaceSplitsMatched(a: string, b: string, pat: string, val: string)
    requires |pat| > 0 && |a| >= |pat| && a[..|pat|] == pat
    requires ReplaceAll(a[|pat|..] + pat + b, pat, val)
          == ReplaceAll(a[|pat|..], pat, val) + val + ReplaceAll(b, pat, val)
    ensures ReplaceAll(a + pat + b, pat, val) == ReplaceAll(a, pat, val) + val + ReplaceAll(b, pat, val)
  {
    var s := a + pat + b;
    var rest := a[|pat|..];
    assert s[..|pat|] == pat;
    assert s[|pat|..] == rest + pat + b;
    var tail := ReplaceAll(rest + pat + b, pat, val);
    assert ReplaceAll(s, pat, val) == val + tail;
    assert ReplaceAll(a, pat, val) == val + ReplaceAll(rest, pat, val);
  }

  /** The step of `ReplaceSplits` where `a` does not start with the placeholder. */
  lemma ReplaceSplitsSkipped(a: string, b: string, pat: string, val: string)
    requires Braced(pat) && a != [] && !(|a| >= |pat| && a[..|pat|] == pat)
    requires ReplaceAll(a[1..] + pat + b, pat, val)
          == ReplaceAll(a[1..], pat, val) + val + ReplaceAll(b, pat, val)
    ensures ReplaceAll(a + pat + b, pat, val) == ReplaceAll(a, pat, val) + val + ReplaceAll(b, pat, val)
  {
    NotAtFront(a, b, pat);
    SkipFront(a, b, pat, val);
    SkipSame(a, pat, val);
    ConsAssoc(a[0], ReplaceAll(a[1..], pat, val), val, ReplaceAll(b, pat, val));
  }

  lemma ConsAssoc(c: char, x: string, y: string, z: string)
    ensures [c] + (x + y + z) == ([c] + x) + y + z
  {
  }

  /** Past a front that is not the placeholder, the first character is kept. */
  lemma SkipFront(a: string, b: string, pat: string, val: string)
    requires |pat| > 0 && a != [] && (a + pat + b)[..|pat|] != pat
    ensures ReplaceAll(a + pat + b, pat, val) == [a[0]] + ReplaceAll(a[1..] + pat + b, pat, val)
  {
    var s := a + pat + b;
    assert s[1..] == a[1..] + pat + b;
    assert s[0] == a[0];
  }

  /** ... and the same holds of `a` alone. */
  lemma SkipSame(a: string, pat: string, val: string)
    requires |pat| > 0 && a != [] && !(|a| >= |pat| && a[..|pat|] == pat)
    ensures ReplaceAll(a, pat, val) == [a[0]] + ReplaceAll(a[1..], pat, val)
  {
    if |a| < |pat| {
      assert ReplaceAll(a[1..], pat, val) == a[1..];
      assert [a[0]] + a[1..] == a;
    }
  }

  /** When `a` does not start with the placeholder, neither does `a + pat + b`. */
  lemma NotAtFront(a: string, b: string, pat: string)
    requires Braced(pat) && a != [] && !(|a| >= |pat| && a[..|pat|] == pat)
    ensures (a + pat + b)[..|pat|] != pat
  {
    var s := a + pat + b;
    if |a| < |pat| {
      assert s[..|pat|][|a|] == pat[0];
    } else {
      assert s[..|pat|] == a[..|pat|];
    }
  }

  /** The placeholder itself becomes the value. */
  lemma ReplaceWhole(pat: string, val: string)
    requires |pat| > 0
    ensures ReplaceAll(pat, pat, val) == val
  {
    assert pat[..|pat|] == pat;
    assert pat[|pat|..] == [];
  }

  const ServerNameTag := "{SERVER_NAME}"
  const UserTag := "{USER}"
  const UsernameTag := "{USERNAME}"
  const DisplayNameTag := "{DISPLAY_NAME}"
  const MemberCountTag := "{MEMBER_COUNT}"
  const UserCountTag := "{USER_COUNT}"

  /** The placeholders, in the order they are replaced. */
  function Tags(): (tags: seq<string>)
    ensures |tags| == 6
    ensures forall k :: 0 <= k < 6 ==> Braced(tags[k])
    ensures forall j, k :: 0 <= j < k < 6 ==> tags[j] != tags[k]
  {
    [ServerNameTag, UserTag, UsernameTag, DisplayNameTag, MemberCountTag, UserCountTag]
  }

  datatype Member = Member(id: Option<string>, username: Option<string>, displayName: Option<string>)

  /** What the substitution reads: the guild's name, the member, and the member count. */
  datatype Context = Context(guildName: Option<string>, member: Option<Member>, memberCount: Option<int>)

  /** `v || fallback` for an optional string: missing or empty falls back. */
  function OrElse(v: Option<string>, fallback: string): (r: string)
    ensures v.Some? && v.value != "" ==> r == v.value
    ensures v.None? || v.value == "" ==> r == fallback
  {
    if v.Some? && v.value != "" then v.value else fallback
  }

  function Username(ctx: Context): Option<string> {
    if ctx.member.Some? then ctx.member.value.username else None
  }

  /** The values, in placeholder order, with the fallbacks: "Unknown Server", the mention of
      the member id ("undefined" when there is none), "Unknown User", the display name falling
      back to the username, and the count falling back to "0". */
  function Values(ctx: Context): (vals: seq<string>)
    ensures |vals| == 6
    ensures vals[0] == OrElse(ctx.guildName, "Unknown Server")
    ensures vals[2] == OrElse(Username(ctx), "Unknown User")
    ensures ctx.member.Some? && ctx.member.value.displayName.Some? && ctx.member.value.displayName.value != ""
            ==> vals[3] == ctx.member.value.displayName.value
    ensures ctx.member.None? || ctx.member.value.displayName.None? || ctx.member.value.displayName.value == ""
            ==> vals[3] == vals[2]
    ensures vals[4] == vals[5]
    ensures ctx.memberCount.None? ==> vals[4] == "0"
  {
    var id := if ctx.member.Some? && ctx.member.value.id.Some? then ctx.member.value.id.value else "undefined";
    var display := if ctx.member.Some? then ctx.member.value.displayName else None;
    var count := if ctx.memberCount.Some? then DecimalString(ctx.memberCount.value) else "0";
    [ OrElse(ctx.guildName, "Unknown Server"),
      "<@" + id + ">",
      OrElse(Username(ctx), "Unknown User"),
      OrElse(display, OrElse(Username(ctx), "Unknown User")),
      count,
      count ]
  }

  /** The chain of `.replace` calls: each placeholder in turn, applied to the previous result. */
  function Substitute(s: string, tags: seq<string>, vals: seq<string>): string
    requires |tags| == |vals|
    requires forall k :: 0 <= k < |tags| ==> |tags[k]| > 0
    decreases |tags|
  {
    if tags == [] then s else Substitute(ReplaceAll(s, tags[0], vals[0]), tags[1..], vals[1..])
  }

  /** `replaceVariables(content, guild, member, memberCount)`. What it does to a text is stated
      by `PlainTextUnchanged` (text without a brace is kept), `PlaceholderBecomesValue` (a lone
      placeholder becomes its value) and `PlaceholderCanReappear` (the single pass can splice a
      new placeholder together). */
  function ReplaceVariables(content: string, ctx: Context): (r: string)
    ensures content == [] ==> r == []
  {
    if content == [] then content else Substitute(content, Tags(), Values(ctx))
  }

  lemma {:induction false} SubstituteAbsent(s: string, tags: seq<string>, vals: seq<string>)
    requires |tags| == |vals|
    requires forall k :: 0 <= k < |tags| ==> |tags[k]| > 0 && Absent(s, tags[k])
    ensures Substitute(s, tags, vals) == s
  {
    if tags != [] {
      ReplaceAbsent(s, tags[0], vals[0]);
      SubstituteAbsent(s, tags[1..], vals[1..]);
    }
  }

  /** Text without a brace passes through unchanged. */
  lemma PlainTextUnchanged(content: string, ctx: Context)
    requires '{' !in content
    ensures ReplaceVariables(content, ctx) == content
  {
    if content != [] {
      forall k | 0 <= k < 6 ensures |Tags()[k]| > 0 && Absent(content, Tags()[k]) {
        FirstCharAbsent(content, Tags()[k]);
      }
      SubstituteAbsent(content, Tags(), Values(ctx));
    }
  }

  lemma {:induction false} SubstituteOne(k: nat, tags: seq<string>, vals: seq<string>)
    requires |tags| == |vals| && k < |tags|
    requires forall j :: 0 <= j < |tags| ==> Braced(tags[j]) && |tags[j]| > 0
    requires forall j :: 0 <= j < k ==> tags[j] != tags[k]
    requires '{' !in vals[k]
    ensures Substitute(tags[k], tags, vals) == vals[k]
  {
    if k == 0 {
      ReplaceWhole(tags[0], vals[0]);
      forall j | 0 <= j < |tags[1..]| ensures |tags[1..][j]| > 0 && Absent(vals[0], tags[1..][j]) {
        FirstCharAbsent(vals[0], tags[1..][j]);
      }
      SubstituteAbsent(vals[0], tags[1..], vals[1..]);
    } else {
      BracedAbsent(tags[k], tags[0]);
      ReplaceAbsent(tags[k], tags[0], vals[0]);
      assert tags[1..][k - 1] == tags[k];
      SubstituteOne(k - 1, tags[1..], vals[1..]);
    }
  }

  /** Content that is exactly one placeholder becomes that placeholder's value, provided the
      value does not itself open a placeholder. */
  lemma PlaceholderBecomesValue(k: nat, ctx: Context)
    requires k < 6 && '{' !in Values(ctx)[k]
    ensures ReplaceVariables(Tags()[k], ctx) == Values(ctx)[k]
  {
    SubstituteOne(k, Tags(), Values(ctx));
  }

  /** The replacement is a single pass per placeholder, not a fixpoint: two halves of a
      placeholder around a replaced one form a new placeholder that stays in the result. */
  lemma PlaceholderCanReappear(ctx: Context)
    requires ctx.guildName == Some("ER_N")
    ensures ReplaceVariables("{SERV" + ServerNameTag + "AME}", ctx) == ServerNameTag
  {
    var vals := Values(ctx);
    ReplaceSplits("{SERV", "AME}", ServerNameTag, vals[0]);
    assert ReplaceAll("{SERV", ServerNameTag, vals[0]) == "{SERV";
    assert ReplaceAll("AME}", ServerNameTag, vals[0]) == "AME}";
    assert "{SERV" + vals[0] + "AME}" == ServerNameTag;
    var rest := Tags()[1..];
    forall k | 0 <= k < |rest| ensures |rest[k]| > 0 && Absent(ServerNameTag, rest[k]) {
      BracedAbsent(ServerNameTag, rest[k]);
    }
    SubstituteAbsent(ServerNameTag, rest, vals[1..]);
  }

  /** The replacements run in order on the previous result, so a value that is itself a later
      placeholder is replaced in turn: a server named "{USER}" becomes the member's mention. */
  lemma ValueReplacedLater(ctx: Context)
    requires ctx.guildName == Some(UserTag) && '{' !in Values(ctx)[1]
    ensures ReplaceVariables(ServerNameTag, ctx) == Values(ctx)[1]
  {
    var tags, vals := Tags(), Values(ctx);
    ReplaceWhole(tags[0], vals[0]);
    assert vals[0] == UserTag == tags[1..][0];
    SubstituteOne(0, tags[1..], vals[1..]);
  }

  /** The mock data of `testVariableReplacement`. */
  function MockContext(userId: string): Context {
    Context(Some("Test Server"), Some(Member(Some(userId), Some("TestUser"), Some("TestUser"))), Some(100))
  }

  datatype TestReport = TestReport(original: string, replaced: string, variables: map<string, string>)

  /** `testVariableReplacement(content, guildId, userId)`: the content substituted with mock
      data, together with the table of what each placeholder stands for. */
  function TestVariableReplacement(content: string, userId: string): (r: TestReport)
    ensures r.original == content
    ensures r.variables.Keys == {ServerNameTag, UserTag, UsernameTag, DisplayNameTag, MemberCountTag, UserCountTag}
    ensures r.variables[ServerNameTag] == "Test Server" && r.variables[UserTag] == "<@" + userId + ">"
    ensures r.variables[UsernameTag] == "TestUser" && r.variables[DisplayNameTag] == "TestUser"
    ensures r.variables[MemberCountTag] == "100" && r.variables[UserCountTag] == "100"
  {
    var vals := Values(MockContext(userId));
    assert DecimalString(100) == "100" by {
      assert Digits(1) == "1" && Digits(10) == "10";
    }
    TestReport(content, ReplaceVariables(content, MockContext(userId)),
               map[ServerNameTag := vals[0], UserTag := vals[1], UsernameTag := vals[2],
                   DisplayNameTag := vals[3], MemberCountTag := vals[4], UserCountTag := vals[5]])
  }

  /** The table the test endpoint returns is what the substitution does: each placeholder on
      its own is replaced by its entry (for a user id without a brace). */
  lemma TestTableIsTruthful(k: nat, userId: string)
    requires k < 6 && '{' !in userId
    ensures var r := TestVariableReplacement(Tags()[k], userId);
      r.replaced == r.variables[Tags()[k]]
  {
    var vals := Values(MockContext(userId));
    assert '{' !in vals[1] by {
      assert vals[1] == "<@" + userId + ">";
    }
    assert '{' !in vals[4];
    PlaceholderBecomesValue(k, MockContext(userId));
  }

  // ----- stored welcome configurations -----

  datatype Embed = Embed(title: Option<string>, description: Option<string>, image: Option<string>, color: Option<string>)

  /** A `message` or `dm` section. */
  datatype Section = Section(enabled: bool, content: Option<string>, embed: Option<Embed>)

  datatype Card = Card(section: Section, imageUrl: Option<string>, showCount: bool, cardMessage: Option<string>)

  datatype WelcomeType = MessageType | CardType | DmType

  datatype Welcome = Welcome(guildId: string, channelId: string, kind: WelcomeType,
                             message: Section, dm: Section, card: Card, updatedAt: int)

  datatype CreateRequest = CreateRequest(guildId: string, channelId: string, kind: WelcomeType,
                                         message: Option<Section>, dm: Option<Section>, card: Option<Card>)

  const DisabledSection := Section(false, None, None)
  const DisabledCard := Card(DisabledSection, None, false, None)

  /** The document `createWelcome` stores: the request, with each missing section replaced by
      a disabled one. */
  function Filled(data: CreateRequest, now: int): (w: Welcome)
    ensures w.guildId == data.guildId && w.channelId == data.channelId && w.kind == data.kind
    ensures w.message == (if data.message.Some? then data.message.value else DisabledSection)
    ensures w.dm == (if data.dm.Some? then data.dm.value else DisabledSection)
    ensures w.card == (if data.card.Some? then data.card.value else DisabledCard)
  {
    Welcome(data.guildId, data.channelId, data.kind,
            if data.message.Some? then data.message.value else DisabledSection,
            if data.dm.Some? then data.dm.value else DisabledSection,
            if data.card.Some? then data.card.value else DisabledCard,
            now)
  }

  /** Whether a section is switched on. */
  function Enabled(w: Welcome, kind: WelcomeType): bool {
    match kind
    case MessageType => w.message.enabled
    case DmType => w.dm.enabled
    case CardType => w.card.section.enabled
  }

  /** The document with one section's flag set. */
  function WithEnabled(w: Welcome, kind: WelcomeType, enabled: bool): (r: Welcome)
    ensures Enabled(r, kind) == enabled
    ensures forall other :: other != kind ==> Enabled(r, other) == Enabled(w, other)
    ensures r.guildId == w.guildId && r.channelId == w.channelId && r.kind == w.kind && r.updatedAt == w.updatedAt
    ensures r.message.content == w.message.content && r.message.embed == w.message.embed
    ensures r.dm.content == w.dm.content && r.dm.embed == w.dm.embed
    ensures r.card.section.content == w.card.section.content && r.card.section.embed == w.card.section.embed
    ensures r.card.imageUrl == w.card.imageUrl && r.card.showCount == w.card.showCount && r.card.cardMessage == w.card.cardMessage
  {
    match kind
    case MessageType => w.(message := w.message.(enabled := enabled))
    case DmType => w.(dm := w.dm.(enabled := enabled))
    case CardType => w.(card := w.card.(section := w.card.section.(enabled := enabled)))
  }

  /** Setting a flag back to what it was restores the document. */
  lemma ToggleBackRestores(w: Welcome, kind: WelcomeType, enabled: bool)
    ensures WithEnabled(WithEnabled(w, kind, enabled), kind, Enabled(w, kind)) == w
  {
  }

  /** Is there a configuration for this guild and channel? */
  predicate Configured(welcomes: map<string, Welcome>, guildId: string, channelId: string) {
    exists id :: id in welcomes && welcomes[id].guildId == guildId && welcomes[id].channelId == channelId
  }

  /** What the service methods return or throw; the `SaveFailed` cases are the save's own error. */
  datatype CreateOutcome = AlreadyExists | Created(id: string) | CreateSaveFailed
  datatype ToggleOutcome = WelcomeNotFound | AccessDenied | Toggled(welcome: Welcome) | ToggleSaveFailed

  /** The welcome collection. */
  class WelcomeStore {
    var welcomes: map<string, Welcome>

    constructor(welcomes: map<string, Welcome>)
      ensures this.welcomes == welcomes
    {
      this.welcomes := welcomes;
    }

    /** `createWelcome(data)`: refused when the guild and channel already have a
        configuration; otherwise the filled document is stored under the id `newId` the
        database hands out, when the save (`saved`) goes through. */
    method Create(data: CreateRequest, newId: string, now: int, saved: bool) returns (outcome: CreateOutcome)
      requires newId !in welcomes
      modifies this
      ensures outcome == AlreadyExists <==> Configured(old(welcomes), data.guildId, data.channelId)
      ensures outcome == CreateSaveFailed <==> !Configured(old(welcomes), data.guildId, data.channelId) && !saved
      ensures !outcome.Created? ==> welcomes == old(welcomes)
      ensures outcome.Created? ==> outcome == Created(newId) && welcomes == old(welcomes)[newId := Filled(data, now)]
      ensures outcome != CreateSaveFailed ==> Configured(welcomes, data.guildId, data.channelId)
    {
      if exists id :: id in welcomes && welcomes[id].guildId == data.guildId && welcomes[id].channelId == data.channelId {
        return AlreadyExists;
      }
      if !saved {
        return CreateSaveFailed;
      }
      welcomes := welcomes[newId := Filled(data, now)];
      assert welcomes[newId].guildId == data.guildId && welcomes[newId].channelId == data.channelId;
      outcome := Created(newId);
    }

    /** `toggleWelcome(id, type, enabled)`: after the lookup and the guild access check
        (`hasAccess`), only the chosen section's flag changes, when the save (`saved`) goes
        through. */
    method Toggle(id: string, kind: WelcomeType, enabled: bool, hasAccess: bool, now: int, saved: bool)
      returns (outcome: ToggleOutcome)
      modifies this
      ensures id !in old(welcomes) ==> outcome == WelcomeNotFound && welcomes == old(welcomes)
      ensures id in old(welcomes) && !hasAccess ==> outcome == AccessDenied && welcomes == old(welcomes)
      ensures id in old(welcomes) && hasAccess && !saved ==> outcome == ToggleSaveFailed && welcomes == old(welcomes)
      ensures id in old(welcomes) && hasAccess && saved ==>
        && outcome == Toggled(WithEnabled(old(welcomes)[id], kind, enabled).(updatedAt := now))
        && welcomes == old(welcomes)[id := outcome.welcome]
    {
      if id !in welcomes {
        return WelcomeNotFound;
      }
      if !hasAccess {
        return AccessDenied;
      }
      if !saved {
        return ToggleSaveFailed;
      }
      var updated := WithEnabled(welcomes[id], kind, enabled).(updatedAt := now);
      welcomes := welcomes[id := updated];
      outcome := Toggled(updated);
    }
  }
}
