/** The collecting validators of the welcome DTOs (apps/api/src/dto/WelcomeDto.ts): each check
    that fails appends its message, no check stops the others, and the input is valid exactly
    when nothing was appended. `validUrl` stands for `new URL(...)` not throwing. */
module WelcomeDto {
  import opened JsValues
  import opened Checks

  const TitleMessage := "Title cannot be empty if provided"
  const DescriptionMessage := "Description cannot be empty if provided"
  const ImageMessage := "Image must be a valid URL"
  const ColorMessage := "Color must be a valid hex color"
  const EnabledMessage := "Enabled must be a boolean"
  const ContentMessage := "Content must be a string"
  const GuildMessage := "Guild ID is required"
  const ChannelMessage := "Channel ID is required"
  const TypeMessage := "Type must be a valid welcome type"
  const CardUrlMessage := "Card image URL must be a valid URL"
  const ChannelUpdateMessage := "Channel ID cannot be empty if provided"

  predicate HexDigit(c: char) {
    ('0' <= c <= '9') || ('a' <= c <= 'f') || ('A' <= c <= 'F')
  }

  /** `/^#[0-9A-F]{6}$/i`. */
  predicate HexColor(s: string) {
    |s| == 7 && s[0] == '#' && forall i :: 1 <= i < 7 ==> HexDigit(s[i])
  }

  /** One of the `WelcomeType` values: "message", "card" or "dm". */
  predicate WelcomeType(v: JsValue) {
    v == Str("message") || v == Str("card") || v == Str("dm")
  }

  /** A text field that, when present, must be a non-blank string. */
  predicate PresentButBlank(v: JsValue) {
    !v.Undefined? && !FilledString(v)
  }

  /** A URL field that, when not null or undefined, must parse. */
  predicate BadUrl(v: JsValue, validUrl: string -> bool) {
    !Nullish(v) && !validUrl(ToJsString(v))
  }

  function EmbedChecks(embed: JsValue, validUrl: string -> bool): seq<Check> {
    [ Check(PresentButBlank(Get(embed, "title")), TitleMessage),
      Check(PresentButBlank(Get(embed, "description")), DescriptionMessage),
      Check(BadUrl(Get(embed, "image"), validUrl), ImageMessage),
      Check(!Nullish(Get(embed, "color")) && !HexColor(ToJsString(Get(embed, "color"))), ColorMessage) ]
  }

  /** What `validateEmbed` reports. */
  function EmbedErrors(embed: JsValue, validUrl: string -> bool): seq<string> {
    Failures(EmbedChecks(embed, validUrl))
  }

  /** What `validateWelcomeContent` reports: its own two checks, then the embed's errors when
      there is an embed. */
  function ContentErrors(content: JsValue, validUrl: string -> bool): seq<string> {
    var text := Get(content, "content");
    Failures([ Check(!Get(content, "enabled").Bool?, EnabledMessage),
               Check(!Nullish(text) && !text.Str?, ContentMessage) ])
    + (if Nullish(Get(content, "embed")) then [] else EmbedErrors(Get(content, "embed"), validUrl))
  }

  /** A section (`message` or `dm`) is validated only when it is truthy. */
  function SectionErrors(section: JsValue, validUrl: string -> bool): seq<string> {
    if Truthy(section) then ContentErrors(section, validUrl) else []
  }

  /** The card: its image URL first, then its content errors. */
  function CardErrors(card: JsValue, validUrl: string -> bool): seq<string> {
    if Truthy(card) then Failures([Check(BadUrl(Get(card, "imageUrl"), validUrl), CardUrlMessage)]) + ContentErrors(card, validUrl)
    else []
  }

  function CreateHeaderChecks(body: JsValue): seq<Check> {
    [ Check(!FilledString(Get(body, "guildId")), GuildMessage),
      Check(!FilledString(Get(body, "channelId")), ChannelMessage),
      Check(!WelcomeType(Get(body, "type")), TypeMessage) ]
  }

  /** The errors of the `message`, `dm` and `card` sections, in that order. */
  function SectionsErrors(body: JsValue, validUrl: string -> bool): seq<string> {
    SectionErrors(Get(body, "message"), validUrl) + SectionErrors(Get(body, "dm"), validUrl)
    + CardErrors(Get(body, "card"), validUrl)
  }

  /** What `validateCreateWelcome` reports, in the order guild, channel, type, message, dm, card. */
  function CreateErrors(body: JsValue, validUrl: string -> bool): seq<string> {
    Failures(CreateHeaderChecks(body)) + SectionsErrors(body, validUrl)
  }

  function UpdateHeaderChecks(body: JsValue): seq<Check> {
    [ Check(PresentButBlank(Get(body, "channelId")), ChannelUpdateMessage),
      Check(!Get(body, "type").Undefined? && !WelcomeType(Get(body, "type")), TypeMessage) ]
  }

  /** What `validateUpdateWelcome` reports: every field is optional. */
  function UpdateErrors(body: JsValue, validUrl: string -> bool): seq<string> {
    Failures(UpdateHeaderChecks(body)) + SectionsErrors(body, validUrl)
  }

  /** `validateEmbed(embed)`, for an embed that is neither null nor undefined. */
  method ValidateEmbed(embed: JsValue, validUrl: string -> bool) returns (isValid: bool, errors: seq<string>)
    ensures errors == EmbedErrors(embed, validUrl)
    ensures isValid <==> errors == []
  {
    var checks := EmbedChecks(embed, validUrl);
    FailuresOfFour(checks[0], checks[1], checks[2], checks[3]);
    assert checks == [checks[0], checks[1], checks[2], checks[3]];
    errors := [];
    if PresentButBlank(Get(embed, "title")) {
      errors := errors + [TitleMessage];
    }
    if PresentButBlank(Get(embed, "description")) {
      errors := errors + [DescriptionMessage];
    }
    var image := Get(embed, "image");
    if !Nullish(image) && !validUrl(ToJsString(image)) {
      errors := errors + [ImageMessage];
    }
    var color := Get(embed, "color");
    if !Nullish(color) && !HexColor(ToJsString(color)) {
      errors := errors + [ColorMessage];
    }
    isValid := |errors| == 0;
  }

  /** `validateWelcomeContent(content)`. */
  method ValidateWelcomeContent(content: JsValue, validUrl: string -> bool) returns (isValid: bool, errors: seq<string>)
    ensures errors == ContentErrors(content, validUrl)
    ensures isValid <==> errors == []
  {
    var text := Get(content, "content");
    FailuresOfTwo(Check(!Get(content, "enabled").Bool?, EnabledMessage), Check(!Nullish(text) && !text.Str?, ContentMessage));
    errors := [];
    if !Get(content, "enabled").Bool? {
      errors := errors + [EnabledMessage];
    }
    if !Nullish(text) && !text.Str? {
      errors := errors + [ContentMessage];
    }
    var embed := Get(content, "embed");
    if !Nullish(embed) {
      var _, embedErrors := ValidateEmbed(embed, validUrl);
      errors := errors + embedErrors;
    }
    isValid := |errors| == 0;
  }

  /** The `message`, `dm` and `card` part shared by create and update. */
  method ValidateSections(body: JsValue, validUrl: string -> bool) returns (errors: seq<string>)
    ensures errors == SectionsErrors(body, validUrl)
  {
    var messageErrors := ValidateSection(Get(body, "message"), validUrl);
    var dmErrors := ValidateSection(Get(body, "dm"), validUrl);
    var cardErrors := ValidateCard(Get(body, "card"), validUrl);
    errors := messageErrors + dmErrors + cardErrors;
  }

  /** A `message` or `dm` section: checked only when truthy. */
  method ValidateSection(section: JsValue, validUrl: string -> bool) returns (errors: seq<string>)
    ensures errors == SectionErrors(section, validUrl)
  {
    errors := [];
    if Truthy(section) {
      var _, contentErrors := ValidateWelcomeContent(section, validUrl);
      errors := contentErrors;
    }
  }

  /** The card section: its image URL is checked before its content. */
  method ValidateCard(card: JsValue, validUrl: string -> bool) returns (errors: seq<string>)
    ensures errors == CardErrors(card, validUrl)
  {
    errors := [];
    if Truthy(card) {
      var _, contentErrors := ValidateWelcomeContent(card, validUrl);
      if BadUrl(Get(card, "imageUrl"), validUrl) {
        errors := errors + [CardUrlMessage];
      }
      errors := errors + contentErrors;
      assert [Check(BadUrl(Get(card, "imageUrl"), validUrl), CardUrlMessage)][1..] == [];
    }
  }

  /** `validateCreateWelcome(data)`. */
  method ValidateCreateWelcome(body: JsValue, validUrl: string -> bool) returns (isValid: bool, errors: seq<string>)
    ensures errors == CreateErrors(body, validUrl)
    ensures isValid <==> errors == []
  {
    var header := CreateHeaderChecks(body);
    FailuresOfThree(header[0], header[1], header[2]);
    assert header == [header[0], header[1], header[2]];
    errors := [];
    if !FilledString(Get(body, "guildId")) {
      errors := errors + [GuildMessage];
    }
    if !FilledString(Get(body, "channelId")) {
      errors := errors + [ChannelMessage];
    }
    if !WelcomeType(Get(body, "type")) {
      errors := errors + [TypeMessage];
    }
    assert errors == Failures(header);
    var sectionErrors := ValidateSections(body, validUrl);
    errors := errors + sectionErrors;
    isValid := |errors| == 0;
  }

  /** `validateUpdateWelcome(data)`. */
  method ValidateUpdateWelcome(body: JsValue, validUrl: string -> bool) returns (isValid: bool, errors: seq<string>)
    ensures errors == UpdateErrors(body, validUrl)
    ensures isValid <==> errors == []
  {
    var header := UpdateHeaderChecks(body);
    FailuresOfTwo(header[0], header[1]);
    assert header == [header[0], header[1]];
    errors := [];
    if PresentButBlank(Get(body, "channelId")) {
      errors := errors + [ChannelUpdateMessage];
    }
    var kind := Get(body, "type");
    if !kind.Undefined? && !WelcomeType(kind) {
      errors := errors + [TypeMessage];
    }
    assert errors == Failures(header);
    var sectionErrors := ValidateSections(body, validUrl);
    errors := errors + sectionErrors;
    isValid := |errors| == 0;
  }

  /** Each embed check adds its message exactly once when it fails and never otherwise. */
  lemma EmbedErrorCounts(embed: JsValue, validUrl: string -> bool)
    ensures var count := multiset(EmbedErrors(embed, validUrl));
      && count[TitleMessage] == (if PresentButBlank(Get(embed, "title")) then 1 else 0)
      && count[DescriptionMessage] == (if PresentButBlank(Get(embed, "description")) then 1 else 0)
      && count[ImageMessage] == (if BadUrl(Get(embed, "image"), validUrl) then 1 else 0)
      && count[ColorMessage] == (if !Nullish(Get(embed, "color")) && !HexColor(ToJsString(Get(embed, "color"))) then 1 else 0)
  {
    var checks := EmbedChecks(embed, validUrl);
    FailuresCount(checks, 0);
    FailuresCount(checks, 1);
    FailuresCount(checks, 2);
    FailuresCount(checks, 3);
  }

  /** Create does not stop at the first failure: the list opens with one message for each
      failed header check, in the order guild, channel, type. */
  lemma CreateReportsEveryHeaderFailure(body: JsValue, validUrl: string -> bool)
    ensures var header := Failures(CreateHeaderChecks(body));
      && header <= CreateErrors(body, validUrl)
      && multiset(header)[GuildMessage] == (if FilledString(Get(body, "guildId")) then 0 else 1)
      && multiset(header)[ChannelMessage] == (if FilledString(Get(body, "channelId")) then 0 else 1)
      && multiset(header)[TypeMessage] == (if WelcomeType(Get(body, "type")) then 0 else 1)
  {
    var checks := CreateHeaderChecks(body);
    FailuresCount(checks, 0);
    FailuresCount(checks, 1);
    FailuresCount(checks, 2);
  }

  /** An update that names none of the checked fields is valid, whatever else it carries. */
  lemma EmptyUpdateIsValid(body: JsValue, validUrl: string -> bool)
    requires Get(body, "channelId") == Undefined && Get(body, "type") == Undefined
    requires !Truthy(Get(body, "message")) && !Truthy(Get(body, "dm")) && !Truthy(Get(body, "card"))
    ensures UpdateErrors(body, validUrl) == []
  {
    assert Failures(UpdateHeaderChecks(body)) == [];
  }

  /** A body the create validator accepts passes the update validator too. */
  lemma CreateValidIsUpdateValid(body: JsValue, validUrl: string -> bool)
    requires CreateErrors(body, validUrl) == []
    ensures UpdateErrors(body, validUrl) == []
  {
    assert Failures(CreateHeaderChecks(body)) == [];
    assert Failures(UpdateHeaderChecks(body)) == [];
  }
}
