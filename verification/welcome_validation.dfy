/** The welcome request middleware (apps/api/src/modules/welcome/WelcomeValidation.ts): each
    validator is a chain of checks that answers 400 with the first failing check's message and
    passes the request on (`next()`) only when every check passes. */
module WelcomeValidation {
  import opened JsValues
  import opened Checks
  import WelcomeDto

  const GuildRequired := "Guild ID is required and must be a string"
  const ChannelRequired := "Channel ID is required and must be a string"
  const TypeInvalid := "Type must be one of: message, card, dm"
  const ToggleTypeInvalid := "Type must be one of: message, dm, card"
  const IdInvalid := "Invalid welcome ID format"
  const GuildNotString := "Guild ID must be a string"
  const ChannelNotString := "Channel ID must be a string"
  const EnabledNotBoolean := "Enabled must be a boolean"

  /** `/^[0-9a-fA-F]{24}$/`: the form of a stored document id. */
  predicate WelcomeId(id: string) {
    |id| == 24 && forall i :: 0 <= i < |id| ==> WelcomeDto.HexDigit(id[i])
  }

  /** `typeof v !== "undefined" && typeof v !== "boolean"`. */
  predicate NotFlag(v: JsValue) {
    !v.Undefined? && !v.Bool?
  }

  /** `v && typeof v !== "string"`. */
  predicate NotText(v: JsValue) {
    Truthy(v) && !v.Str?
  }

  /** The checks of a truthy `message` or `dm` section; `title` is "Message" or "DM". */
  function SectionChecks(section: JsValue, title: string): seq<Check> {
    [ Check(Truthy(section) && NotFlag(Get(section, "enabled")), title + " enabled must be a boolean"),
      Check(Truthy(section) && NotText(Get(section, "content")), title + " content must be a string") ]
  }

  function CardChecks(card: JsValue): seq<Check> {
    [ Check(Truthy(card) && NotFlag(Get(card, "enabled")), "Card enabled must be a boolean"),
      Check(Truthy(card) && NotText(Get(card, "content")), "Card content must be a string"),
      Check(Truthy(card) && NotText(Get(card, "imageUrl")), "Card image URL must be a string"),
      Check(Truthy(card) && NotFlag(Get(card, "showCount")), "Card showCount must be a boolean"),
      Check(Truthy(card) && NotText(Get(card, "cardMessage")), "Card cardMessage must be a string") ]
  }

  /** The section checks shared by create and update, in order: message, dm, card. */
  function SectionsChecks(body: JsValue): seq<Check> {
    SectionChecks(Get(body, "message"), "Message") + (SectionChecks(Get(body, "dm"), "DM") + CardChecks(Get(body, "card")))
  }

  function CreateHeaderChecks(body: JsValue): seq<Check> {
    [ Check(!FilledString(Get(body, "guildId")), GuildRequired),
      Check(!FilledString(Get(body, "channelId")), ChannelRequired),
      Check(!WelcomeDto.WelcomeType(Get(body, "type")), TypeInvalid) ]
  }

  /** Every check the create middleware makes, in the order it makes them. */
  function CreateChecks(body: JsValue): seq<Check> {
    CreateHeaderChecks(body) + SectionsChecks(body)
  }

  function SectionVerdict(section: JsValue, title: string): (v: Verdict)
    ensures v.Next? <==> !Truthy(section) || (!NotFlag(Get(section, "enabled")) && !NotText(Get(section, "content")))
  {
    if !Truthy(section) then Next
    else if NotFlag(Get(section, "enabled")) then Reject(title + " enabled must be a boolean")
    else if NotText(Get(section, "content")) then Reject(title + " content must be a string")
    else Next
  }

  function CardVerdict(card: JsValue): (v: Verdict)
    ensures v.Next? <==> (!Truthy(card) ||
      (!NotFlag(Get(card, "enabled")) && !NotText(Get(card, "content")) && !NotText(Get(card, "imageUrl"))
       && !NotFlag(Get(card, "showCount")) && !NotText(Get(card, "cardMessage"))))
  {
    if !Truthy(card) then Next
    else if NotFlag(Get(card, "enabled")) then Reject("Card enabled must be a boolean")
    else if NotText(Get(card, "content")) then Reject("Card content must be a string")
    else if NotText(Get(card, "imageUrl")) then Reject("Card image URL must be a string")
    else if NotFlag(Get(card, "showCount")) then Reject("Card showCount must be a boolean")
    else if NotText(Get(card, "cardMessage")) then Reject("Card cardMessage must be a string")
    else Next
  }

  /** The section checks shared by create and update: message, then dm, then card. */
  function SectionsVerdict(body: JsValue): (v: Verdict)
    ensures v.Next? <==> SectionVerdict(Get(body, "message"), "Message").Next?
                         && SectionVerdict(Get(body, "dm"), "DM").Next? && CardVerdict(Get(body, "card")).Next?
  {
    Then(SectionVerdict(Get(body, "message"), "Message"),
         Then(SectionVerdict(Get(body, "dm"), "DM"), CardVerdict(Get(body, "card"))))
  }

  /** `validateCreateWelcomeMiddleware`. */
  function CreateMiddleware(body: JsValue): (v: Verdict)
    ensures v.Next? <==> FilledString(Get(body, "guildId")) && FilledString(Get(body, "channelId"))
                         && WelcomeDto.WelcomeType(Get(body, "type")) && SectionsVerdict(body).Next?
  {
    if !FilledString(Get(body, "guildId")) then Reject(GuildRequired)
    else if !FilledString(Get(body, "channelId")) then Reject(ChannelRequired)
    else if !WelcomeDto.WelcomeType(Get(body, "type")) then Reject(TypeInvalid)
    else SectionsVerdict(body)
  }

  /** `validateUpdateWelcomeMiddleware`: the id first; the header fields only when present. */
  function UpdateMiddleware(id: string, body: JsValue): (v: Verdict)
    ensures v.Next? <==> WelcomeId(id) && !WelcomeDto.PresentButBlank(Get(body, "guildId"))
                         && !WelcomeDto.PresentButBlank(Get(body, "channelId"))
                         && (Get(body, "type").Undefined? || WelcomeDto.WelcomeType(Get(body, "type")))
                         && SectionsVerdict(body).Next?
    ensures !WelcomeId(id) ==> v == Reject(IdInvalid)
  {
    if !WelcomeId(id) then Reject(IdInvalid)
    else if WelcomeDto.PresentButBlank(Get(body, "guildId")) then Reject(GuildNotString)
    else if WelcomeDto.PresentButBlank(Get(body, "channelId")) then Reject(ChannelNotString)
    else if !Get(body, "type").Undefined? && !WelcomeDto.WelcomeType(Get(body, "type")) then Reject(TypeInvalid)
    else SectionsVerdict(body)
  }

  /** `validateToggleWelcomeMiddleware`. */
  function ToggleMiddleware(id: string, body: JsValue): (v: Verdict)
    ensures v.Next? <==> WelcomeId(id) && WelcomeDto.WelcomeType(Get(body, "type")) && Get(body, "enabled").Bool?
    ensures !WelcomeId(id) ==> v == Reject(IdInvalid)
  {
    if !WelcomeId(id) then Reject(IdInvalid)
    else if !WelcomeDto.WelcomeType(Get(body, "type")) then Reject(ToggleTypeInvalid)
    else if !Get(body, "enabled").Bool? then Reject(EnabledNotBoolean)
    else Next
  }

  /** `validateGetWelcomeMiddleware`. */
  function GetMiddleware(id: string): (v: Verdict)
    ensures v.Next? <==> WelcomeId(id)
  {
    if !WelcomeId(id) then Reject(IdInvalid) else Next
  }

  /** `validateGetGuildWelcomesMiddleware`: the path parameter must not be blank. */
  function GuildWelcomesMiddleware(guildId: string): (v: Verdict)
    ensures v.Next? <==> !Blank(guildId)
  {
    if Blank(guildId) then Reject(GuildRequired) else Next
  }

  lemma SectionIsFirstFailure(section: JsValue, title: string)
    ensures SectionVerdict(section, title) == FirstFailure(SectionChecks(section, title))
  {
    var cs := SectionChecks(section, title);
    assert cs == [cs[0]] + [cs[1]];
    FirstFailureCons(cs[0], [cs[1]]);
    FirstFailureCons(cs[1], []);
  }

  lemma CardIsFirstFailure(card: JsValue)
    ensures CardVerdict(card) == FirstFailure(CardChecks(card))
  {
    var cs := CardChecks(card);
    assert cs == [cs[0]] + ([cs[1]] + ([cs[2]] + ([cs[3]] + [cs[4]])));
    FirstFailureCons(cs[0], [cs[1]] + ([cs[2]] + ([cs[3]] + [cs[4]])));
    FirstFailureCons(cs[1], [cs[2]] + ([cs[3]] + [cs[4]]));
    FirstFailureCons(cs[2], [cs[3]] + [cs[4]]);
    FirstFailureCons(cs[3], [cs[4]]);
    FirstFailureCons(cs[4], []);
  }

  lemma SectionsIsFirstFailure(body: JsValue)
    ensures SectionsVerdict(body) == FirstFailure(SectionsChecks(body))
  {
    var message := SectionChecks(Get(body, "message"), "Message");
    var dm := SectionChecks(Get(body, "dm"), "DM");
    var card := CardChecks(Get(body, "card"));
    FirstFailureAppend(message, dm + card);
    FirstFailureAppend(dm, card);
    SectionIsFirstFailure(Get(body, "message"), "Message");
    SectionIsFirstFailure(Get(body, "dm"), "DM");
    CardIsFirstFailure(Get(body, "card"));
  }

  /** The create middleware answers with the first of its checks, in order, that fails. */
  lemma CreateIsFirstFailure(body: JsValue)
    ensures CreateMiddleware(body) == FirstFailure(CreateChecks(body))
  {
    var header := CreateHeaderChecks(body);
    FirstFailureAppend(header, SectionsChecks(body));
    SectionsIsFirstFailure(body);
    assert header == [header[0]] + ([header[1]] + [header[2]]);
    FirstFailureCons(header[0], [header[1]] + [header[2]]);
    FirstFailureCons(header[1], [header[2]]);
    FirstFailureCons(header[2], []);
  }

  /** The create middleware's answer is the first message the same checks would collect. */
  lemma CreateReportsFirstCollected(body: JsValue)
    ensures CreateMiddleware(body).Next? <==> Failures(CreateChecks(body)) == []
    ensures CreateMiddleware(body).Reject? ==> CreateMiddleware(body).error == Failures(CreateChecks(body))[0]
  {
    CreateIsFirstFailure(body);
    FirstIsHeadOfFailures(CreateChecks(body));
  }

  /** A body the create middleware passes is passed by the update middleware under any
      well-formed id. */
  lemma CreatePassImpliesUpdatePass(id: string, body: JsValue)
    requires WelcomeId(id)
    requires CreateMiddleware(body).Next?
    ensures UpdateMiddleware(id, body).Next?
  {
  }

  /** The middleware gets past guild, channel and type exactly when the collecting create
      validator reports no error for them. */
  lemma HeaderChecksAgree(body: JsValue)
    ensures Failures(WelcomeDto.CreateHeaderChecks(body)) == []
        <==> FilledString(Get(body, "guildId")) && FilledString(Get(body, "channelId"))
             && WelcomeDto.WelcomeType(Get(body, "type"))
    ensures (!WelcomeDto.WelcomeType(Get(body, "type")) || !FilledString(Get(body, "guildId"))
             || !FilledString(Get(body, "channelId"))) ==> CreateMiddleware(body).Reject?
  {
    var header := WelcomeDto.CreateHeaderChecks(body);
    FailuresOfThree(header[0], header[1], header[2]);
    assert header == [header[0], header[1], header[2]];
  }

  /** A create body whose `message` is an empty object. */
  function EmptyMessageBody(): (body: JsValue)
    ensures body.Obj?
  {
    Obj(map["guildId" := Str("g"), "channelId" := Str("c"), "type" := Str("message"), "message" := Obj(map[])])
  }

  /** The middleware lets a section's `enabled` be missing, where the collecting validator
      demands a boolean: the same body passes the one ... */
  lemma MiddlewarePassesEmptyMessage()
    ensures CreateMiddleware(EmptyMessageBody()).Next?
  {
    var body := EmptyMessageBody();
    assert !WhiteSpace("g"[0]) && !WhiteSpace("c"[0]);
    assert FilledString(Get(body, "guildId")) && FilledString(Get(body, "channelId"));
    assert Get(body, "dm") == Undefined && Get(body, "card") == Undefined;
    assert SectionsVerdict(body) == Next;
  }

  /** ... and fails the other with exactly one error. */
  lemma CollectorRejectsEmptyMessage(validUrl: string -> bool)
    ensures WelcomeDto.CreateErrors(EmptyMessageBody(), validUrl) == [WelcomeDto.EnabledMessage]
  {
    EmptyMessageHeader();
    EmptyMessageSections(validUrl);
  }

  lemma EmptyMessageHeader()
    ensures Failures(WelcomeDto.CreateHeaderChecks(EmptyMessageBody())) == []
  {
    var body := EmptyMessageBody();
    assert !WhiteSpace("g"[0]) && !WhiteSpace("c"[0]);
    var header := WelcomeDto.CreateHeaderChecks(body);
    FailuresOfThree(header[0], header[1], header[2]);
    assert header == [header[0], header[1], header[2]];
  }

  lemma EmptyMessageSections(validUrl: string -> bool)
    ensures WelcomeDto.SectionsErrors(EmptyMessageBody(), validUrl) == [WelcomeDto.EnabledMessage]
  {
    var body := EmptyMessageBody();
    var message := Obj(map[]);
    assert Get(body, "dm") == Undefined && Get(body, "card") == Undefined;
    assert Get(body, "message") == message;
    FailuresOfTwo(Check(!Get(message, "enabled").Bool?, WelcomeDto.EnabledMessage),
                  Check(!Nullish(Get(message, "content")) && !Get(message, "content").Str?, WelcomeDto.ContentMessage));
  }
}
