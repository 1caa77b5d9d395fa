/** The body of the real-time event loop: how Slack events become Gotify
    notifications.

    The loop reads the session's events in order.  A message event is looked
    up (its conversation, then its sender), dropped when either lookup fails
    or when the sender is the plugin's own user, and otherwise turned into one
    notification with a title naming team, channel and sender, the text with
    its mentions rewritten, and priority 5.  An invalid-authentication event
    ends the loop with an error; every other event is ignored. */
module Bridge {
  import opened Slack
  import opened Mentions

  /** The errors the plugin reports to its host. */
  datatype Error =
    | InvalidToken        // a new, non-empty token that auth.test rejects
    | NotConfigured       // Enable before any token was stored
    | TokenNoLongerValid  // Enable with a stored token that auth.test now rejects
    | AuthTestFailed      // auth.test failing as a session starts
    | InvalidCredentials  // the session reported invalid authentication
    | DisconnectFailed    // closing the real-time session failed

  /** The events of the real-time session, as far as the loop tells them apart. */
  datatype Event =
    | Message(user: string, channel: string, text: string)
    | InvalidAuth
    | Other

  /** A message handed to Gotify. */
  datatype Notification = Notification(title: string, message: string, priority: int)

  /** What a run of the loop leaves behind: the notifications it sent, in
      order, and the error it stopped with, if any. */
  datatype Outcome = Outcome(sent: seq<Notification>, err: Option<Error>)

  /** Every notification is sent with this priority. */
  const PRIORITY := 5

  /** The notification title: team, then the channel name when there is one,
      then the sender's real name. */
  function Title(team: string, channelName: string, realName: string): string
  {
    "Slack | " + team + " | " + (if channelName != "" then channelName + " | " else "") + realName
  }

  /** The title as the event loop builds it, piece by piece. */
  method BuildTitle(team: string, channelName: string, realName: string) returns (title: string)
    ensures title == Title(team, channelName, realName)
  {
    title := "Slack | " + team + " | ";
    if channelName != "" {
      title := title + (channelName + " | ");
    }
    title := title + realName;
  }

  /** One message event: the notification it yields, or None when it is
      dropped.  uid and team are the session's own user id and team name. */
  function Handle(w: Workspace, uid: string, team: string, user: string, channel: string, text: string): (r: Option<Notification>)
    ensures r.Some? ==> r.value.priority == PRIORITY && r.value.message == Rewrite(w, text)
  {
    match GetConversationInfo(w, channel)
    case None => None
    case Some(ch) =>
      match GetUserInfo(w, user)
      case None => None
      case Some(u) =>
        if u.id == uid then None
        else Some(Notification(Title(team, ch.name, u.realName), Rewrite(w, text), PRIORITY))
  }

  /** The number of message events in events. */
  function MessageCount(events: seq<Event>): nat
  {
    if events == [] then 0
    else (if events[0].Message? then 1 else 0) + MessageCount(events[1..])
  }

  /** The loop over a finite stream of events.  It fails exactly when an
      invalid-authentication event arrives, sends at most one notification
      per message event, and sends every one with priority 5. */
  function Forward(w: Workspace, uid: string, team: string, events: seq<Event>): (r: Outcome)
    ensures r.err == if InvalidAuth in events then Some(InvalidCredentials) else None
    ensures |r.sent| <= MessageCount(events)
    ensures forall n :: n in r.sent ==> n.priority == PRIORITY
    decreases |events|
  {
    if events == [] then Outcome([], None)
    else
      assert events == [events[0]] + events[1..];
      match events[0]
      case InvalidAuth => Outcome([], Some(InvalidCredentials))
      case Other => Forward(w, uid, team, events[1..])
      case Message(user, channel, text) =>
        var rest := Forward(w, uid, team, events[1..]);
        match Handle(w, uid, team, user, channel, text)
        case None => rest
        case Some(n) => Outcome([n] + rest.sent, rest.err)
  }

  /** The title of the worked examples, with and without a channel name. */
  lemma TitleExamples()
    ensures Title("Acme", "general", "Jane Doe") == "Slack | Acme | general | Jane Doe"
    ensures Title("Acme", "", "Jane Doe") == "Slack | Acme | Jane Doe"
  {
  }

  /** The channel segment is in the title exactly when the channel has a name. */
  lemma TitleChannelSegment(team: string, channelName: string, realName: string)
    ensures Title(team, channelName, realName) == Title(team, "", realName) <==> channelName == ""
    ensures channelName != "" ==>
      Title(team, channelName, realName) == Title(team, "", "") + channelName + " | " + realName
  {
  }

  /** A message event is dropped exactly when its conversation or its sender
      cannot be looked up, or when the sender is the session's own user. */
  lemma HandleDrops(w: Workspace, uid: string, team: string, user: string, channel: string, text: string)
    ensures Handle(w, uid, team, user, channel, text).None? <==>
      channel !in w.channels || user !in w.users || w.users[user].id == uid
  {
  }

  /** A message event that is kept gives the title of its team, channel and
      sender, the rewritten text and priority 5. */
  lemma HandleBuilds(w: Workspace, uid: string, team: string, user: string, channel: string, text: string)
    requires Handle(w, uid, team, user, channel, text).Some?
    ensures var n := Handle(w, uid, team, user, channel, text).value;
      channel in w.channels && user in w.users &&
      n == Notification(Title(team, w.channels[channel].name, w.users[user].realName), Rewrite(w, text), PRIORITY)
  {
  }

  /** Processing is sequential: a prefix without an invalid-authentication
      event sends its notifications first, and the rest of the stream
      continues from there. */
  lemma {:induction false} ForwardAppend(w: Workspace, uid: string, team: string, pre: seq<Event>, post: seq<Event>)
    requires InvalidAuth !in pre
    ensures Forward(w, uid, team, pre + post) ==
      Outcome(Forward(w, uid, team, pre).sent + Forward(w, uid, team, post).sent, Forward(w, uid, team, post).err)
    decreases |pre|
  {
    if pre == [] {
      assert pre + post == post;
    } else {
      var all := pre + post;
      assert all[0] == pre[0] && all[1..] == pre[1..] + post;
      assert pre[0] != InvalidAuth;
      assert InvalidAuth !in pre[1..] by { assert pre == [pre[0]] + pre[1..]; }
      ForwardAppend(w, uid, team, pre[1..], post);
      match pre[0]
      case Other =>
      case Message(user, channel, text) =>
        var a, b := Forward(w, uid, team, pre[1..]).sent, Forward(w, uid, team, post).sent;
        match Handle(w, uid, team, user, channel, text)
        case None =>
        case Some(n) => assert [n] + (a + b) == ([n] + a) + b;
    }
  }

  /** One more event that is not invalid authentication adds at most its
      own notification to what the loop has sent. */
  lemma ForwardSnoc(w: Workspace, uid: string, team: string, done: seq<Event>, ev: Event)
    requires InvalidAuth !in done && ev != InvalidAuth
    ensures InvalidAuth !in done + [ev]
    ensures Forward(w, uid, team, done + [ev]).sent == Forward(w, uid, team, done).sent +
      (if ev.Message? && Handle(w, uid, team, ev.user, ev.channel, ev.text).Some?
       then [Handle(w, uid, team, ev.user, ev.channel, ev.text).value] else [])
  {
    ForwardAppend(w, uid, team, done, [ev]);
    assert [ev][1..] == [];
  }

  /** An invalid-authentication event ends processing: nothing after it is
      looked at, and the run fails with InvalidCredentials. */
  lemma ForwardStopsAtInvalidAuth(w: Workspace, uid: string, team: string, pre: seq<Event>, post: seq<Event>)
    requires InvalidAuth !in pre
    ensures Forward(w, uid, team, pre + [InvalidAuth] + post) ==
      Outcome(Forward(w, uid, team, pre).sent, Some(InvalidCredentials))
  {
    assert pre + [InvalidAuth] + post == pre + ([InvalidAuth] + post);
    ForwardAppend(w, uid, team, pre, [InvalidAuth] + post);
    assert Forward(w, uid, team, [InvalidAuth] + post).sent == [];
    assert Forward(w, uid, team, pre).sent + [] == Forward(w, uid, team, pre).sent;
  }

  /** An event that yields no notification leaves no trace: processing goes on
      with the next event exactly as if it had not been there. */
  lemma {:induction false} DroppedEventInvisible(w: Workspace, uid: string, team: string, pre: seq<Event>, ev: Event, post: seq<Event>)
    requires ev.Other? || (ev.Message? && Handle(w, uid, team, ev.user, ev.channel, ev.text).None?)
    ensures Forward(w, uid, team, pre + [ev] + post) == Forward(w, uid, team, pre + post)
    decreases |pre|
  {
    var with, without := pre + [ev] + post, pre + post;
    if pre == [] {
      assert with[0] == ev && with[1..] == post;
      assert without == post;
    } else {
      assert with[0] == pre[0] && with[1..] == pre[1..] + [ev] + post;
      assert without[0] == pre[0] && without[1..] == pre[1..] + post;
      DroppedEventInvisible(w, uid, team, pre[1..], ev, post);
    }
  }

  /** A message whose sender is the session's own user never produces a
      notification, whatever its channel and text. */
  lemma SelfMessageIgnored(w: Workspace, uid: string, team: string, pre: seq<Event>, user: string, channel: string, text: string, post: seq<Event>)
    requires user in w.users && w.users[user].id == uid
    ensures Forward(w, uid, team, pre + [Message(user, channel, text)] + post) == Forward(w, uid, team, pre + post)
  {
    HandleDrops(w, uid, team, user, channel, text);
    DroppedEventInvisible(w, uid, team, pre, Message(user, channel, text), post);
  }
}
