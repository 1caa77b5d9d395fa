/** The Slack service as the plugin sees it.

    Every network call the plugin makes (auth.test, users.info,
    conversations.info) is answered from one snapshot of the workspace: the
    tokens that authenticate, and the user and conversation directories.  A
    lookup that fails on the network is a key missing from the snapshot. */
module Slack {

  datatype Option<+T> = None | Some(value: T)

  /** A user record as users.info returns it. */
  datatype User = User(id: string, realName: string)

  /** A conversation record as conversations.info returns it. */
  datatype Channel = Channel(name: string)

  /** What auth.test reports for a token: the token's own user and its team. */
  datatype Identity = Identity(userId: string, team: string)

  datatype Workspace = Workspace(
    identities: map<string, Identity>,
    users: map<string, User>,
    channels: map<string, Channel>)

  /** auth.test: the identity behind a token, or a failure. */
  function AuthTest(w: Workspace, token: string): Option<Identity>
  {
    if token in w.identities then Some(w.identities[token]) else None
  }

  /** users.info */
  function GetUserInfo(w: Workspace, id: string): Option<User>
  {
    if id in w.users then Some(w.users[id]) else None
  }

  /** conversations.info */
  function GetConversationInfo(w: Workspace, id: string): Option<Channel>
  {
    if id in w.channels then Some(w.channels[id]) else None
  }
}
