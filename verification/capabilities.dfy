/** What can be granted: capabilities, the bundles they are granted in, and the actions they allow. */
module Capabilities {

  datatype Capability =
    | DomainManage | Status | MailboxProvision
    | MessageList | MessageRead | MessageSearch | MessageCreateDraft | MessageMarkRead
    | MessageArchive | MessageManage | MessageSend | MessageReply
    | AgentClaim | AgentManage | OAuthConnectionManage
    | MailboxCreate | MailboxUpdate | ForwardingGroupManage | MailboxReadAll

  datatype MailboxGrant = CreateDrafts | ManageMessages | ReadMailbox | SendAs

  datatype SystemPermission =
    | CreateAccounts | ManageAccounts | ManageAgents | ManageDomains
    | ManageForwardingGroups | ManageOAuthConnections | ReadAllMailboxes

  datatype Action =
    | Archive | Claim | Create | CreateDraft | Delete | List | Manage | MarkRead
    | Provision | Read | Reply | Search | Send | ReadStatus | Update

  datatype Subject =
    | Agent | AgentGrant | ApiKey | Domain | Draft | ForwardingGroup | Mailbox | Message | OAuthConnection | Organization

  /** The `email.message.` capabilities are held on one mailbox; the others on an organization. */
  predicate IsMailboxScoped(c: Capability) {
    c in {MessageList, MessageRead, MessageSearch, MessageCreateDraft, MessageMarkRead,
          MessageArchive, MessageManage, MessageSend, MessageReply}
  }

  function MailboxBundle(g: MailboxGrant): seq<Capability> {
    match g
    case CreateDrafts => [MessageCreateDraft]
    case ManageMessages => [MessageMarkRead, MessageArchive, MessageManage]
    case ReadMailbox => [MessageList, MessageRead, MessageSearch]
    case SendAs => [MessageSend, MessageReply]
  }

  function SystemBundle(p: SystemPermission): seq<Capability> {
    match p
    case CreateAccounts => [MailboxCreate]
    case ManageAccounts => [MailboxUpdate]
    case ManageAgents => [AgentManage]
    case ManageDomains => [DomainManage]
    case ManageForwardingGroups => [ForwardingGroupManage]
    case ManageOAuthConnections => [OAuthConnectionManage]
    case ReadAllMailboxes => [MailboxReadAll]
  }

  function ActionOf(c: Capability): Action {
    match c
    case AgentClaim => Claim
    case AgentManage => Manage
    case DomainManage => Manage
    case ForwardingGroupManage => Manage
    case MailboxCreate => Create
    case MailboxProvision => Provision
    case MailboxReadAll => Read
    case MailboxUpdate => Update
    case OAuthConnectionManage => Manage
    case MessageArchive => Archive
    case MessageCreateDraft => CreateDraft
    case MessageList => List
    case MessageManage => Manage
    case MessageMarkRead => MarkRead
    case MessageRead => Read
    case MessageReply => Reply
    case MessageSearch => Search
    case MessageSend => Send
    case Status => ReadStatus
  }

  /** Every message capability is in exactly one mailbox bundle, and nothing else is in any. */
  lemma MailboxBundlesPartition(c: Capability)
    ensures IsMailboxScoped(c) <==> exists g :: c in MailboxBundle(g)
    ensures forall g, h :: c in MailboxBundle(g) && c in MailboxBundle(h) ==> g == h
  {
    if IsMailboxScoped(c) {
      var g := match c
        case MessageCreateDraft => CreateDrafts
        case MessageMarkRead => ManageMessages
        case MessageArchive => ManageMessages
        case MessageManage => ManageMessages
        case MessageSend => SendAs
        case MessageReply => SendAs
        case _ => ReadMailbox;
      assert c in MailboxBundle(g);
    }
  }
}
