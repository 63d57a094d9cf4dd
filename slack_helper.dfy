/**
 * The Slack slash-command payload: decoding it from the form fields,
 * encoding it back, classifying the first word of its text into a
 * sub-command and cutting the sub-command's argument out of the text.
 */
module SlackHelper {
  import opened Wrappers
  import opened Fields

  /** The sub-commands the classifier knows. There is no `delete`. */
  datatype SubCommand = List | Add | Assign | Unknown

  /** The decoded slash-command payload, field by field. */
  datatype SlashCommand = SlashCommand(
    token: string,
    teamID: string,
    teamDomain: string,
    enterpriseID: string,
    enterpriseName: string,
    channelID: string,
    channelName: string,
    userID: string,
    userName: string,
    command: string,
    text: string,
    responseURL: string,
    triggerID: string)

  /** The Slack identity carried by a payload. */
  datatype SlackUser = SlackUser(token: string, userID: string, userName: string)

  /** The form body as a JSON object: every value is a string. */
  type Json = map<string, string>

  const TokenKey := "token"
  const TeamIDKey := "team_id"
  const TeamDomainKey := "team_domain"
  const EnterpriseIDKey := "enterprise_id"
  const EnterpriseNameKey := "enterprise_name"
  const ChannelIDKey := "channel_id"
  const ChannelNameKey := "channel_name"
  const UserIDKey := "user_id"
  const UserNameKey := "user_name"
  const CommandKey := "command"
  const TextKey := "text"
  const ResponseURLKey := "response_url"
  const TriggerIDKey := "trigger_id"

  /** The keys whose absence makes decoding fail, in the order they are read. */
  const RequiredKeys: seq<string> :=
    [TokenKey, UserIDKey, UserNameKey, CommandKey, TextKey, ResponseURLKey]

  /** The fields whose key may be absent, in which case they are "". */
  datatype Defaulted = TeamID | TeamDomain | EnterpriseID | EnterpriseName | ChannelID | ChannelName | TriggerID

  function DefaultedKey(d: Defaulted): string
  {
    match d
    case TeamID => TeamIDKey
    case TeamDomain => TeamDomainKey
    case EnterpriseID => EnterpriseIDKey
    case EnterpriseName => EnterpriseNameKey
    case ChannelID => ChannelIDKey
    case ChannelName => ChannelNameKey
    case TriggerID => TriggerIDKey
  }

  function DefaultedField(c: SlashCommand, d: Defaulted): string
  {
    match d
    case TeamID => c.teamID
    case TeamDomain => c.teamDomain
    case EnterpriseID => c.enterpriseID
    case EnterpriseName => c.enterpriseName
    case ChannelID => c.channelID
    case ChannelName => c.channelName
    case TriggerID => c.triggerID
  }

  /** `try json.get(key) ?? ""` */
  function OrEmpty(json: Json, key: string): string
  {
    if key in json then json[key] else ""
  }

  /**
   * The first of `keys` that `json` lacks, reading them in order as the
   * initialiser's arguments are evaluated.
   */
  function FirstMissing(json: Json, keys: seq<string>): (r: Option<string>)
    ensures r.None? <==> forall k :: k in keys ==> k in json
    ensures r.Some? ==> exists i :: 0 <= i < |keys| && keys[i] == r.value && r.value !in json &&
                                   forall j :: 0 <= j < i ==> keys[j] in json
  {
    if keys == [] then None
    else if keys[0] !in json then Some(keys[0])
    else
      var r := FirstMissing(json, keys[1..]);
      assert forall k :: k in keys[1..] ==> k in keys;
      r
  }

  /**
   * `SlackSlashCommand(json:)`: fails on the first required key that is
   * missing, and fills every optional key that is missing with "".
   */
  function DecodeSlashCommand(json: Json): (r: Result<SlashCommand, FieldError>)
    ensures r.Ok? <==> forall k :: k in RequiredKeys ==> k in json
    ensures r.Err? ==> r.error.MissingField? && Some(r.error.key) == FirstMissing(json, RequiredKeys)
    ensures r.Ok? ==> r.value.token == json[TokenKey] && r.value.userID == json[UserIDKey] &&
                      r.value.userName == json[UserNameKey] && r.value.command == json[CommandKey] &&
                      r.value.text == json[TextKey] && r.value.responseURL == json[ResponseURLKey]
    ensures r.Ok? ==> forall d :: DefaultedKey(d) !in json ==> DefaultedField(r.value, d) == ""
    ensures r.Ok? ==> forall d :: DefaultedKey(d) in json ==> DefaultedField(r.value, d) == json[DefaultedKey(d)]
  {
    match FirstMissing(json, RequiredKeys)
    case Some(k) => Err(MissingField(k))
    case None =>
      var c := SlashCommand(
        json[TokenKey],
        OrEmpty(json, TeamIDKey),
        OrEmpty(json, TeamDomainKey),
        OrEmpty(json, EnterpriseIDKey),
        OrEmpty(json, EnterpriseNameKey),
        OrEmpty(json, ChannelIDKey),
        OrEmpty(json, ChannelNameKey),
        json[UserIDKey],
        json[UserNameKey],
        json[CommandKey],
        json[TextKey],
        json[ResponseURLKey],
        OrEmpty(json, TriggerIDKey));
      DefaultedFieldsOrEmpty(json, c);
      Ok(c)
  }

  /** A payload whose seven defaulted fields were each read with `?? ""`. */
  lemma DefaultedFieldsOrEmpty(json: Json, c: SlashCommand)
    requires c.teamID == OrEmpty(json, TeamIDKey) && c.teamDomain == OrEmpty(json, TeamDomainKey)
    requires c.enterpriseID == OrEmpty(json, EnterpriseIDKey) && c.enterpriseName == OrEmpty(json, EnterpriseNameKey)
    requires c.channelID == OrEmpty(json, ChannelIDKey) && c.channelName == OrEmpty(json, ChannelNameKey)
    requires c.triggerID == OrEmpty(json, TriggerIDKey)
    ensures forall d :: DefaultedField(c, d) == OrEmpty(json, DefaultedKey(d))
  {
    forall d
      ensures DefaultedField(c, d) == OrEmpty(json, DefaultedKey(d))
    {
      match d
      case TeamID =>
      case TeamDomain =>
      case EnterpriseID =>
      case EnterpriseName =>
      case ChannelID =>
      case ChannelName =>
      case TriggerID =>
    }
  }

  /** `makeJSON()`: all 13 fields under their keys; decoding it gives the payload back. */
  function EncodeSlashCommand(c: SlashCommand): (json: Json)
    ensures DecodeSlashCommand(json) == Ok(c)
  {
    var json := map[TokenKey := c.token, TeamIDKey := c.teamID, TeamDomainKey := c.teamDomain,
        EnterpriseIDKey := c.enterpriseID, EnterpriseNameKey := c.enterpriseName,
        ChannelIDKey := c.channelID, ChannelNameKey := c.channelName,
        UserIDKey := c.userID, UserNameKey := c.userName, CommandKey := c.command,
        TextKey := c.text, ResponseURLKey := c.responseURL, TriggerIDKey := c.triggerID];
    assert FirstMissing(json, RequiredKeys) == None;
    json
  }

  /** `SlackUser(json:)`: token, user_id and user_name are all required. */
  function DecodeSlackUser(json: Json): (r: Result<SlackUser, FieldError>)
    ensures r.Ok? <==> TokenKey in json && UserIDKey in json && UserNameKey in json
  {
    if TokenKey !in json then Err(MissingField(TokenKey))
    else if UserIDKey !in json then Err(MissingField(UserIDKey))
    else if UserNameKey !in json then Err(MissingField(UserNameKey))
    else Ok(SlackUser(json[TokenKey], json[UserIDKey], json[UserNameKey]))
  }

  /** `SlackUser.makeJSON()`: decoding it gives the identity back. */
  function EncodeSlackUser(u: SlackUser): (json: Json)
    ensures json.Keys == {TokenKey, UserIDKey, UserNameKey}
    ensures DecodeSlackUser(json) == Ok(u)
  {
    map[TokenKey := u.token, UserIDKey := u.userID, UserNameKey := u.userName]
  }

  /**
   * `slackUser()`: the payload's identity. The slash command's keys for it
   * are a SlackUser's keys, so decoding the payload's JSON as a SlackUser
   * gives the same identity.
   */
  function SlackUserOf(c: SlashCommand): (u: SlackUser)
    ensures DecodeSlackUser(EncodeSlashCommand(c)) == Ok(u)
  {
    SlackUser(c.token, c.userID, c.userName)
  }

  // ---------------------------------------------------------------------
  // Splitting, case folding, trimming

  /**
   * A member of Foundation's `CharacterSet.whitespaces`: the tab and the
   * Unicode space separators (general category Zs).
   */
  predicate IsBlank(c: char)
  {
    c == '\t' || c == ' ' || c == '\U{A0}' || c == '\U{1680}' ||
    ('\U{2000}' <= c <= '\U{200A}') || c == '\U{202F}' || c == '\U{205F}' || c == '\U{3000}'
  }

  predicate NoBlank(s: string) { forall i :: 0 <= i < |s| ==> !IsBlank(s[i]) }

  /**
   * `text.components(separatedBy: .whitespaces)`: the pieces between the
   * separators, empty pieces included. There is always at least one piece,
   * and the first is the longest prefix of the text without a separator.
   */
  function Components(s: string): (parts: seq<string>)
    ensures |parts| >= 1
    ensures forall k :: 0 <= k < |parts| ==> NoBlank(parts[k])
    ensures |parts[0]| <= |s| && parts[0] == s[..|parts[0]|]
    ensures |parts[0]| == |s| || IsBlank(s[|parts[0]|])
  {
    if s == [] then [""]
    else if IsBlank(s[0]) then [""] + Components(s[1..])
    else
      var rest := Components(s[1..]);
      [[s[0]] + rest[0]] + rest[1..]
  }

  /** `lowercased()` on one character, for the ASCII letters. */
  function LowerChar(c: char): char
  {
    if 'A' <= c <= 'Z' then (c as int + 32) as char else c
  }

  /**
   * `lowercased()` on the ASCII letters: no upper-case letter is left, each
   * one becomes its lower-case partner 32 code points on, and every other
   * character is kept.
   */
  function LowerAscii(s: string): (r: string)
    ensures |r| == |s|
    ensures forall i :: 0 <= i < |r| ==> !('A' <= r[i] <= 'Z')
    ensures forall i :: 0 <= i < |s| && 'A' <= s[i] <= 'Z' ==> r[i] == (s[i] as int + 32) as char
    ensures forall i :: 0 <= i < |s| && !('A' <= s[i] <= 'Z') ==> r[i] == s[i]
  {
    seq(|s|, i requires 0 <= i < |s| => LowerChar(s[i]))
  }

  /** The keyword that selects a sub-command. */
  function Keyword(c: SubCommand): string
    requires c != Unknown
  {
    match c
    case List => "list"
    case Add => "add"
    case Assign => "assign"
  }

  /**
   * `text` begins with `kw` in any letter case, followed by a separator or
   * by the end of the text.
   */
  predicate StartsWithKeyword(text: string, kw: string)
  {
    |kw| <= |text| && LowerAscii(text[..|kw|]) == kw && (|kw| == |text| || IsBlank(text[|kw|]))
  }

  /**
   * `subCommand`: the lower-cased first component of the text against the
   * three keywords; anything else is `Unknown`.
   */
  function SubCommandOf(text: string): (r: SubCommand)
    ensures r != Unknown ==> StartsWithKeyword(text, Keyword(r))
  {
    var parts := Components(text);
    if |parts| == 0 then Unknown
    else
      var word := LowerAscii(parts[0]);
      if word == "list" then List
      else if word == "add" then Add
      else if word == "assign" then Assign
      else Unknown
  }

  /** The literal offset at which `content` starts, per sub-command. */
  function Offset(c: SubCommand): nat
  {
    match c
    case List => 4
    case Add => 3
    case Assign => 6
    case Unknown => 0
  }

  /** A character that `trim()` removes from either end. */
  predicate IsTrimSpace(c: char) { c == ' ' || c == '\t' || c == '\n' || c == '\r' }

  function TrimLeft(s: string): (r: string)
    ensures |r| <= |s| && r == s[|s| - |r|..]
    ensures forall i :: 0 <= i < |s| - |r| ==> IsTrimSpace(s[i])
    ensures r == [] || !IsTrimSpace(r[0])
  {
    if s != [] && IsTrimSpace(s[0]) then TrimLeft(s[1..]) else s
  }

  function TrimRight(s: string): (r: string)
    ensures |r| <= |s| && r == s[..|r|]
    ensures forall i :: |r| <= i < |s| ==> IsTrimSpace(s[i])
    ensures r == [] || !IsTrimSpace(r[|r| - 1])
  {
    if s != [] && IsTrimSpace(s[|s| - 1]) then TrimRight(s[..|s| - 1]) else s
  }

  /** Neither end of `s` is a character that `trim()` removes. */
  predicate Trimmed(s: string)
  {
    s == [] || (!IsTrimSpace(s[0]) && !IsTrimSpace(s[|s| - 1]))
  }

  /**
   * `trim()`: `s` without its leading and trailing trim characters; the
   * result is a slice of `s` and everything cut off is a trim character.
   */
  function Trim(s: string): (r: string)
    ensures Trimmed(r)
    ensures exists i, j :: 0 <= i <= j <= |s| && r == s[i..j] &&
                           (forall k :: 0 <= k < i ==> IsTrimSpace(s[k])) &&
                           (forall k :: j <= k < |s| ==> IsTrimSpace(s[k]))
  {
    var left := TrimLeft(s);
    var r := TrimRight(left);
    assert r == s[|s| - |left|..|s| - |left| + |r|];
    r
  }

  /**
   * `content`: the text from the sub-command's offset on, trimmed. Each
   * offset is its keyword's length, so this is the trimmed text after the
   * keyword, and for `Unknown` the whole text trimmed.
   */
  function ContentOf(text: string): (r: string)
    ensures Trimmed(r)
    ensures SubCommandOf(text) == Unknown ==> r == Trim(text)
    ensures SubCommandOf(text) != Unknown ==>
              r == Trim(text[|Keyword(SubCommandOf(text))|..])
  {
    var c := SubCommandOf(text);
    Trim(text[Offset(c)..])
  }

  // ---------------------------------------------------------------------
  // Properties of the classifier and of `content`

  lemma {:induction false} TrimIdempotent(s: string)
    ensures Trim(Trim(s)) == Trim(s)
  {
    var r := Trim(s);
    assert TrimLeft(r) == r;
    assert TrimRight(r) == r;
  }

  lemma LowerCharOfBlank(c: char)
    ensures IsBlank(LowerChar(c)) <==> IsBlank(c)
  {
  }

  /** The first component of text that starts with a keyword is that keyword's span. */
  lemma {:induction false} FirstComponentOfKeyword(text: string, c: SubCommand)
    requires c != Unknown
    requires StartsWithKeyword(text, Keyword(c))
    ensures Components(text)[0] == text[..|Keyword(c)|]
  {
  }

  /**
   * The classification in its own terms: the text gives sub-command `c`
   * exactly when it begins with `c`'s keyword in any letter case, followed by
   * a separator or by the end of the text.
   */
  lemma {:induction false} SubCommandIff(text: string, c: SubCommand)
    requires c != Unknown
    ensures SubCommandOf(text) == c <==> StartsWithKeyword(text, Keyword(c))
  {
    if StartsWithKeyword(text, Keyword(c)) {
      FirstComponentOfKeyword(text, c);
    }
  }

  /** Only a keyword selects a sub-command: a text that starts with some other word is `Unknown`. */
  lemma {:induction false} OtherWordIsUnknown(text: string)
    requires forall c :: c != Unknown ==> !StartsWithKeyword(text, Keyword(c))
    ensures SubCommandOf(text) == Unknown
  {
  }

  /** Empty text, and text with a leading separator, give `Unknown`. */
  lemma {:induction false} LeadingBlankIsUnknown(text: string)
    requires text == [] || IsBlank(text[0])
    ensures SubCommandOf(text) == Unknown
  {
  }

  /** The classification ignores letter case: texts equal up to case classify alike. */
  lemma {:induction false} SubCommandIgnoresCase(a: string, b: string)
    requires |a| == |b|
    requires forall i :: 0 <= i < |a| ==> LowerChar(a[i]) == LowerChar(b[i])
    ensures SubCommandOf(a) == SubCommandOf(b)
  {
    forall c | c != Unknown
      ensures StartsWithKeyword(a, Keyword(c)) <==> StartsWithKeyword(b, Keyword(c))
    {
      var kw := Keyword(c);
      if |kw| <= |a| {
        assert LowerAscii(a[..|kw|]) == LowerAscii(b[..|kw|]);
      }
      if |kw| < |a| {
        LowerCharOfBlank(a[|kw|]);
        LowerCharOfBlank(b[|kw|]);
      }
    }
    if SubCommandOf(a) != Unknown {
      SubCommandIff(a, SubCommandOf(a));
      SubCommandIff(b, SubCommandOf(a));
    } else if SubCommandOf(b) != Unknown {
      SubCommandIff(a, SubCommandOf(b));
      SubCommandIff(b, SubCommandOf(b));
    }
  }

  /**
   * There is no `delete` sub-command: a text whose first word is "delete",
   * in any letter case, is `Unknown`.
   */
  lemma {:induction false} DeleteIsUnknown(text: string)
    requires StartsWithKeyword(text, "delete")
    ensures SubCommandOf(text) == Unknown
  {
  }

  /** `trim()` leaves a text alone that has no trim character at either end. */
  lemma TrimOfTrimmed(s: string)
    requires Trimmed(s)
    ensures Trim(s) == s
  {
    assert TrimLeft(s) == s;
  }

  /** `trim()` of one trim character followed by a trimmed non-empty text. */
  lemma TrimOfPadded(s: string)
    requires |s| >= 2 && IsTrimSpace(s[0]) && Trimmed(s[1..])
    ensures Trim(s) == s[1..]
  {
    assert TrimLeft(s) == TrimLeft(s[1..]) == s[1..];
  }

  /**
   * A keyword followed by nothing or by a separator and anything selects
   * that keyword's sub-command, and the content is the rest trimmed.
   */
  lemma KeywordThenRest(c: SubCommand, rest: string)
    requires c != Unknown
    requires rest == [] || IsBlank(rest[0])
    ensures SubCommandOf(Keyword(c) + rest) == c
    ensures ContentOf(Keyword(c) + rest) == Trim(rest)
  {
    var kw := Keyword(c);
    var text := kw + rest;
    assert text[..|kw|] == kw && text[|kw|..] == rest;
    assert LowerAscii(kw) == kw;
    SubCommandIff(text, c);
  }

  /** A keyword, one space and a trimmed argument: the content is the argument. */
  lemma KeywordSpaceArgument(c: SubCommand, arg: string)
    requires c != Unknown
    requires |arg| >= 1 && Trimmed(arg)
    ensures SubCommandOf(Keyword(c) + [' '] + arg) == c
    ensures ContentOf(Keyword(c) + [' '] + arg) == arg
  {
    var rest := [' '] + arg;
    assert Keyword(c) + [' '] + arg == Keyword(c) + rest;
    KeywordThenRest(c, rest);
    assert rest[1..] == arg;
    TrimOfPadded(rest);
  }

  /** "add buy milk" is `Add` with content "buy milk". */
  lemma AddExample(text: string)
    requires text == "add buy milk"
    ensures SubCommandOf(text) == Add && ContentOf(text) == "buy milk"
  {
    var arg := "buy milk";
    assert text == Keyword(Add) + [' '] + arg;
    assert arg[0] == 'b' && arg[|arg| - 1] == 'k';
    KeywordSpaceArgument(Add, arg);
  }

  /** "list" alone is `List` with empty content. */
  lemma ListExample(text: string)
    requires text == "list"
    ensures SubCommandOf(text) == List && ContentOf(text) == ""
  {
    assert text == Keyword(List) + [];
    KeywordThenRest(List, []);
  }

  /** "assign 3 bob" is `Assign` with content "3 bob". */
  lemma AssignExample(text: string)
    requires text == "assign 3 bob"
    ensures SubCommandOf(text) == Assign && ContentOf(text) == "3 bob"
  {
    var arg := "3 bob";
    assert text == Keyword(Assign) + [' '] + arg;
    assert arg[0] == '3' && arg[|arg| - 1] == 'b';
    KeywordSpaceArgument(Assign, arg);
  }

  /** The keyword matches in any letter case. */
  lemma CaseExample(upper: string, mixed: string)
    requires upper == "LIST" && mixed == "List"
    ensures SubCommandOf(upper) == List && SubCommandOf(mixed) == List
  {
    assert upper[..4] == upper && LowerAscii(upper) == "list";
    SubCommandIff(upper, List);
    assert mixed[..4] == mixed && LowerAscii(mixed) == "list";
    SubCommandIff(mixed, List);
  }

  /** "delete 3" is `Unknown`, and its content is the whole text. */
  lemma DeleteExample(text: string)
    requires text == "delete 3"
    ensures SubCommandOf(text) == Unknown && ContentOf(text) == "delete 3"
  {
    assert text[..6] == "delete";
    DeleteIsUnknown(text);
    assert text[0] == 'd' && text[|text| - 1] == '3';
    TrimOfTrimmed(text);
  }

  /**
   * "delete", a space and an argument: `Unknown`, whose offset 0 makes the
   * content the whole text, which begins with 'd' and so is no integer.
   */
  lemma DeleteThenArgument(arg: string)
    requires |arg| >= 1 && !IsTrimSpace(arg[|arg| - 1])
    ensures var text := "delete" + [' '] + arg;
            SubCommandOf(text) == Unknown && ContentOf(text) == text && ParseInt(ContentOf(text)).None?
  {
    var text := "delete" + [' '] + arg;
    assert text[..6] == "delete";
    DeleteIsUnknown(text);
    assert text[0] == 'd' && text[|text| - 1] == arg[|arg| - 1];
    TrimOfTrimmed(text);
  }
}
