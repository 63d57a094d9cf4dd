/**
 * The User entity: a local user linked to one Slack identity, with its
 * database row and JSON forms.
 */
module UserModel {
  import opened Wrappers
  import opened Fields
  import opened SlackHelper

  /** A stored or new user. `id` is set once the user is saved. */
  datatype User = User(
    id: Option<nat>,
    slackUserID: string,
    slackUserName: string,
    slackUserToken: string,
    created: Date,
    lastModified: Date)

  /** The Slack identity a user record carries. */
  function IdentityOf(u: User): SlackUser
  {
    SlackUser(u.slackUserToken, u.slackUserID, u.slackUserName)
  }

  /**
   * `User(slackUser:)`: a user not yet saved, seeded from the Slack identity
   * (user id, name and token each to its own field) and stamped `now`.
   */
  function UserFromSlack(su: SlackUser, now: Date): (u: User)
    ensures IdentityOf(u) == su
    ensures u.id.None? && u.created == now && u.lastModified == now
  {
    User(None, su.userID, su.userName, su.token, now, now)
  }

  const SlackUserIDKey := "slack_user_id"
  const SlackUserNameKey := "slack_user_name"
  const SlackUserTokenKey := "slack_user_token"
  const CreatedKey := "created"
  const LastModifiedKey := "last_modified"
  const IdKey := "id"

  /** `makeRow()`: the five stored columns; reading the row back gives every one of them. */
  function UserRow(u: User): (row: Record)
    ensures row.Keys == {SlackUserIDKey, SlackUserNameKey, SlackUserTokenKey, CreatedKey, LastModifiedKey}
    ensures UserFromRecord(row) == Ok(u.(id := None))
  {
    map[SlackUserIDKey := Str(u.slackUserID), SlackUserNameKey := Str(u.slackUserName),
        SlackUserTokenKey := Str(u.slackUserToken), CreatedKey := Stamp(u.created),
        LastModifiedKey := Stamp(u.lastModified)]
  }

  /**
   * `init(row:)` and `init(json:)` read the same five keys: each is
   * required, and the first that is missing or of the wrong kind fails.
   */
  function UserFromRecord(rec: Record): (r: Result<User, FieldError>)
    ensures r.Ok? <==> GetString(rec, SlackUserIDKey).Ok? && GetString(rec, SlackUserNameKey).Ok? &&
                       GetString(rec, SlackUserTokenKey).Ok? && GetDate(rec, CreatedKey).Ok? &&
                       GetDate(rec, LastModifiedKey).Ok?
    ensures r.Ok? ==> r.value.id.None?
  {
    match GetString(rec, SlackUserIDKey)
    case Err(e) => Err(e)
    case Ok(slackUserID) =>
      match GetString(rec, SlackUserNameKey)
      case Err(e) => Err(e)
      case Ok(slackUserName) =>
        match GetString(rec, SlackUserTokenKey)
        case Err(e) => Err(e)
        case Ok(slackUserToken) =>
          match GetDate(rec, CreatedKey)
          case Err(e) => Err(e)
          case Ok(created) =>
            match GetDate(rec, LastModifiedKey)
            case Err(e) => Err(e)
            case Ok(lastModified) =>
              Ok(User(None, slackUserID, slackUserName, slackUserToken, created, lastModified))
  }

  /** `makeJSON()`: the id (null before saving) and the five fields; decoding it drops only the id. */
  function UserJson(u: User): (json: Record)
    ensures json.Keys == {IdKey, SlackUserIDKey, SlackUserNameKey, SlackUserTokenKey, CreatedKey, LastModifiedKey}
    ensures UserFromRecord(json) == Ok(u.(id := None))
    ensures json[IdKey] == (if u.id.Some? then Num(u.id.value) else Null)
  {
    UserRow(u)[IdKey := if u.id.Some? then Num(u.id.value) else Null]
  }
}
