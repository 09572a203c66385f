/** The notification records shared by the comment routes, the
    notification service and the email digest. */
module NotificationModels {
  import opened Common

  datatype NotificationType =
    | ReplyToSnippet
    | ReplyToComment
    | Mention
    | VoteOnYourSnippet
    | ModerationUpdate
    | System
  {
    function Value(): string {
      match this
      case ReplyToSnippet => "reply_to_snippet"
      case ReplyToComment => "reply_to_comment"
      case Mention => "mention"
      case VoteOnYourSnippet => "vote_on_your_snippet"
      case ModerationUpdate => "moderation_update"
      case System => "system"
    }
  }

  datatype EmailDigestOption = Off | Daily | Weekly {
    function Value(): string {
      match this
      case Off => "off"
      case Daily => "daily"
      case Weekly => "weekly"
    }
  }

  /** A notification to be stored. */
  datatype NotificationCreate = NotificationCreate(
    userId: int,
    kind: NotificationType,
    actorUserId: Option<int>,
    snippetId: Option<int>,
    commentId: Option<int>,
    title: Option<string>,
    body: Option<string>)

  /** A stored notification; `createdAt` is in seconds. */
  datatype Notification = Notification(
    id: int,
    userId: int,
    kind: NotificationType,
    actorUserId: Option<int>,
    snippetId: Option<int>,
    commentId: Option<int>,
    title: Option<string>,
    body: Option<string>,
    isRead: bool,
    createdAt: int)

  /** One switch per notification type, and the digest frequency. */
  datatype NotificationPreferences = NotificationPreferences(
    userId: int,
    replyToSnippet: bool,
    replyToComment: bool,
    mention: bool,
    voteOnYourSnippet: bool,
    moderationUpdate: bool,
    system: bool,
    emailDigest: EmailDigestOption)

  /** `NotificationPreferences.default`: every type on, weekly digests. */
  function DefaultPreferences(userId: int): (p: NotificationPreferences)
    ensures p.userId == userId && p.emailDigest == Weekly
    ensures p.replyToSnippet && p.replyToComment && p.mention && p.voteOnYourSnippet
            && p.moderationUpdate && p.system
  {
    NotificationPreferences(userId, true, true, true, true, true, true, Weekly)
  }

  /** A partial update: None leaves a setting alone. */
  datatype PreferencesUpdate = PreferencesUpdate(
    replyToSnippet: Option<bool>,
    replyToComment: Option<bool>,
    mention: Option<bool>,
    voteOnYourSnippet: Option<bool>,
    moderationUpdate: Option<bool>,
    system: Option<bool>,
    emailDigest: Option<EmailDigestOption>)
}
