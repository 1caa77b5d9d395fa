/** The plugin instance and its lifecycle: configuring the token, enabling,
    disabling, and starting and stopping the real-time session.

    The operations are specified by transition functions over a State value
    (AfterStop, AfterStart, AfterSetConfig, AfterEnable, AfterDisable); the
    methods of class Plugin update the fields in place and are proved to
    perform exactly those transitions.  Service calls are answered from the
    Workspace passed to each operation; whether Disconnect succeeds is the
    parameter disconnectOk; the events a session delivers are the sequence
    events, consumed to its end before the operation returns. */
module Lifecycle {
  import opened Slack
  import opened Mentions
  import opened Bridge

  /** The user configuration: one Slack API token. */
  datatype Config = Config(slackToken: string)
  {
    /** Config.Valid: auth.test accepts the token. */
    predicate Valid(w: Workspace)
    {
      AuthTest(w, slackToken).Some?
    }
  }

  /** The fields of a plugin instance.  api is the token the Slack client was
      created with (None when there is no client); rtm says whether a
      real-time session object exists; outbox holds the messages handed to
      Gotify, oldest first. */
  datatype State = State(
    enabled: bool,
    config: Option<Config>,
    api: Option<string>,
    rtm: bool,
    uid: string,
    team: string,
    outbox: seq<Notification>)

  /** The state after an operation, and the error it returned. */
  datatype Step = Step(state: State, err: Option<Error>)

  /** A fresh instance: every field at its zero value. */
  const INITIAL := State(false, None, None, false, "", "", [])

  /** What every reachable state satisfies: the plugin is enabled only with a
      stored configuration, a stored token is never empty, and a session
      exists only together with a client. */
  predicate Consistent(st: State)
  {
    (st.enabled ==> st.config.Some?) &&
    (st.config.Some? ==> st.config.value.slackToken != "") &&
    (st.rtm ==> st.api.Some?)
  }

  /** stopRTM: with no session, drop the client and succeed; with one, ask it
      to disconnect and return that result.  The session object is kept. */
  function AfterStop(st: State, disconnectOk: bool): (r: Step)
    ensures Consistent(st) ==> Consistent(r.state)
  {
    if !st.rtm then Step(st.(api := None), None)
    else if disconnectOk then Step(st, None)
    else Step(st, Some(DisconnectFailed))
  }

  /** startRTM: create a client for the stored token; if auth.test fails,
      stop there with its error; otherwise record the session's user id and
      team, open the session and run the event loop to its end. */
  function AfterStart(st: State, w: Workspace, events: seq<Event>): (r: Step)
    requires Consistent(st) && st.enabled
    ensures Consistent(r.state)
  {
    var token := st.config.value.slackToken;
    var withClient := st.(api := Some(token));
    match AuthTest(w, token)
    case None => Step(withClient, Some(AuthTestFailed))
    case Some(id) =>
      var run := Forward(w, id.userId, id.team, events);
      Step(withClient.(uid := id.userId, team := id.team, rtm := true, outbox := st.outbox + run.sent), run.err)
  }

  /** ValidateAndSetConfig. */
  function AfterSetConfig(st: State, conf: Config, w: Workspace, disconnectOk: bool, events: seq<Event>): (r: Step)
    requires Consistent(st)
    ensures Consistent(r.state)
  {
    if conf.slackToken == "" then AfterStop(st, disconnectOk)
    else if !conf.Valid(w) then Step(st, Some(InvalidToken))
    else
      var stored := st.(config := Some(conf));
      if !stored.enabled then Step(stored, None)
      else
        var stopped := AfterStop(stored, disconnectOk);
        if stopped.err.Some? then stopped
        else AfterStart(stopped.state, w, events)
  }

  /** Enable.  The session is started but its result is not waited for, so
      Enable succeeds whatever the session does. */
  function AfterEnable(st: State, w: Workspace, events: seq<Event>): (r: Step)
    requires Consistent(st)
    ensures Consistent(r.state)
  {
    if st.config.None? then Step(st, Some(NotConfigured))
    else if !st.config.value.Valid(w) then Step(st, Some(TokenNoLongerValid))
    else Step(AfterStart(st.(enabled := true), w, events).state, None)
  }

  /** Disable. */
  function AfterDisable(st: State, disconnectOk: bool): (r: Step)
    ensures Consistent(st) ==> Consistent(r.state)
  {
    var stopped := AfterStop(st, disconnectOk);
    if stopped.err.Some? then stopped
    else Step(stopped.state.(enabled := false), None)
  }

  /** An empty token only stops the session: the stored configuration and
      the enabled flag stay as they were, and a failing disconnect is the
      result. */
  lemma EmptyTokenOnlyStops(st: State, w: Workspace, disconnectOk: bool, events: seq<Event>)
    requires Consistent(st)
    ensures var r := AfterSetConfig(st, Config(""), w, disconnectOk, events);
      r == AfterStop(st, disconnectOk) &&
      r.state.config == st.config && r.state.enabled == st.enabled &&
      (st.rtm && !disconnectOk ==> r.err == Some(DisconnectFailed))
  {
  }

  /** A non-empty token that auth.test rejects is refused and nothing changes. */
  lemma InvalidTokenChangesNothing(st: State, conf: Config, w: Workspace, disconnectOk: bool, events: seq<Event>)
    requires Consistent(st) && conf.slackToken != "" && !conf.Valid(w)
    ensures AfterSetConfig(st, conf, w, disconnectOk, events) == Step(st, Some(InvalidToken))
  {
  }

  /** A valid token is stored; while disabled nothing else happens. */
  lemma ValidTokenWhileDisabled(st: State, conf: Config, w: Workspace, disconnectOk: bool, events: seq<Event>)
    requires Consistent(st) && conf.slackToken != "" && conf.Valid(w) && !st.enabled
    ensures AfterSetConfig(st, conf, w, disconnectOk, events) == Step(st.(config := Some(conf)), None)
  {
  }

  /** While enabled, a failing disconnect is returned before any restart: the
      token is stored but no new session is started and nothing is sent. */
  lemma ValidTokenStopFails(st: State, conf: Config, w: Workspace, events: seq<Event>)
    requires Consistent(st) && conf.slackToken != "" && conf.Valid(w) && st.enabled && st.rtm
    ensures AfterSetConfig(st, conf, w, false, events) ==
      Step(st.(config := Some(conf)), Some(DisconnectFailed))
  {
  }

  /** While enabled, once the old session is stopped a new one is started
      with the new token, and its result is returned. */
  lemma ValidTokenRestarts(st: State, conf: Config, w: Workspace, disconnectOk: bool, events: seq<Event>)
    requires Consistent(st) && conf.slackToken != "" && conf.Valid(w) && st.enabled && (disconnectOk || !st.rtm)
    ensures var r := AfterSetConfig(st, conf, w, disconnectOk, events);
      var id := AuthTest(w, conf.slackToken).value;
      var run := Forward(w, id.userId, id.team, events);
      r.err == run.err &&
      r.state == st.(config := Some(conf), api := Some(conf.slackToken), rtm := true,
                     uid := id.userId, team := id.team, outbox := st.outbox + run.sent)
  {
  }

  /** While disabled, setting the same configuration twice is the same as
      setting it once. */
  lemma SetConfigIdempotentWhileDisabled(st: State, conf: Config, w: Workspace, disconnectOk: bool, events: seq<Event>)
    requires Consistent(st) && !st.enabled
    ensures var once := AfterSetConfig(st, conf, w, disconnectOk, events);
      AfterSetConfig(once.state, conf, w, disconnectOk, events) == once
  {
  }

  /** While enabled, setting the same token again is not idempotent: every
      call disconnects and starts a new session, which runs the event loop
      once more. */
  lemma ReapplyWhileEnabledRestarts(st: State, conf: Config, w: Workspace, events: seq<Event>)
    requires Consistent(st) && st.enabled && conf.slackToken != "" && conf.Valid(w)
    ensures var once := AfterSetConfig(st, conf, w, true, events);
      var twice := AfterSetConfig(once.state, conf, w, true, events);
      var id := AuthTest(w, conf.slackToken).value;
      var run := Forward(w, id.userId, id.team, events);
      twice.err == once.err == run.err &&
      twice.state == once.state.(outbox := once.state.outbox + run.sent)
  {
    var once := AfterSetConfig(st, conf, w, true, events);
    ValidTokenRestarts(st, conf, w, true, events);
    ValidTokenRestarts(once.state, conf, w, true, events);
  }

  /** ValidateAndSetConfig checks the token with auth.test before it starts
      the session, and both calls see the same workspace, so the session's own
      auth.test failure is never what it returns. */
  lemma SetConfigNeverAuthTestFailed(st: State, conf: Config, w: Workspace, disconnectOk: bool, events: seq<Event>)
    requires Consistent(st)
    ensures AfterSetConfig(st, conf, w, disconnectOk, events).err != Some(AuthTestFailed)
  {
  }

  /** Enable needs a stored configuration whose token still passes auth.test;
      otherwise it fails and nothing changes.  When it succeeds the plugin is
      enabled. */
  lemma EnableGuards(st: State, w: Workspace, events: seq<Event>)
    requires Consistent(st)
    ensures var r := AfterEnable(st, w, events);
      (st.config.None? ==> r == Step(st, Some(NotConfigured))) &&
      (st.config.Some? && !st.config.value.Valid(w) ==> r == Step(st, Some(TokenNoLongerValid))) &&
      (st.config.Some? && st.config.value.Valid(w) ==> r.err.None? && r.state.enabled)
  {
  }

  /** A successful Enable starts a session with the stored token, runs its
      event loop, and changes nothing else. */
  lemma EnableStartsSession(st: State, w: Workspace, events: seq<Event>)
    requires Consistent(st) && st.config.Some? && st.config.value.Valid(w)
    ensures var token := st.config.value.slackToken;
      var id := AuthTest(w, token).value;
      AfterEnable(st, w, events) ==
        Step(st.(enabled := true, api := Some(token), rtm := true, uid := id.userId, team := id.team,
                 outbox := st.outbox + Forward(w, id.userId, id.team, events).sent), None)
  {
  }

  /** With a session, Disable only clears the enabled flag when Disconnect
      succeeds, and changes nothing when it fails. */
  lemma DisableWithSession(st: State)
    requires st.rtm
    ensures AfterDisable(st, true) == Step(st.(enabled := false), None)
    ensures AfterDisable(st, false) == Step(st, Some(DisconnectFailed))
  {
  }

  /** Disable clears the enabled flag exactly when stopping succeeds; when it
      fails nothing changes. */
  lemma DisableOnlyWhenStopped(st: State, disconnectOk: bool)
    ensures var r := AfterDisable(st, disconnectOk);
      (r.err.None? <==> AfterStop(st, disconnectOk).err.None?) &&
      (r.err.None? ==> !r.state.enabled) &&
      (r.err.Some? ==> r.state == st)
  {
  }

  /** Without a session, stopping drops the client and always succeeds, and
      so does Disable. */
  lemma StopWithoutSession(st: State, disconnectOk: bool)
    requires !st.rtm
    ensures AfterStop(st, disconnectOk) == Step(st.(api := None), None)
    ensures AfterDisable(st, disconnectOk) == Step(st.(api := None, enabled := false), None)
  {
  }

  /** With a session, stopping never discards the session object. */
  lemma StopKeepsSession(st: State, disconnectOk: bool)
    requires st.rtm
    ensures AfterStop(st, disconnectOk).state == st
  {
  }

  /** A plugin instance. */
  class Plugin {
    var enabled: bool
    var config: Option<Config>
    var api: Option<string>
    var rtm: bool
    var uid: string
    var team: string
    var outbox: seq<Notification>

    /** The fields as one value. */
    function Snapshot(): State
      reads this
    {
      State(enabled, config, api, rtm, uid, team, outbox)
    }

    ghost predicate Valid()
      reads this
    {
      Consistent(Snapshot())
    }

    /** NewGotifyPluginInstance: a zero-valued instance. */
    constructor ()
      ensures Snapshot() == INITIAL && Valid()
    {
      enabled, config, api, rtm := false, None, None, false;
      uid, team, outbox := "", "", [];
    }

    method StopRTM(disconnectOk: bool) returns (err: Option<Error>)
      requires Valid()
      modifies this
      ensures Valid()
      ensures Step(Snapshot(), err) == AfterStop(old(Snapshot()), disconnectOk)
    {
      if !rtm {
        api := None;
        return None;
      }
      err := if disconnectOk then None else Some(DisconnectFailed);
    }

    method StartRTM(w: Workspace, events: seq<Event>) returns (err: Option<Error>)
      requires Valid() && enabled
      modifies this
      ensures Valid()
      ensures Step(Snapshot(), err) == AfterStart(old(Snapshot()), w, events)
    {
      var token := config.value.slackToken;
      api := Some(token);
      var identity := AuthTest(w, token);
      if identity.None? {
        return Some(AuthTestFailed);
      }
      uid := identity.value.userId;
      team := identity.value.team;
      rtm := true;
      ghost var start := old(Snapshot());

      for i := 0 to |events|
        invariant InvalidAuth !in events[..i]
        invariant enabled == start.enabled && config == start.config && api == Some(token) && rtm
        invariant uid == identity.value.userId && team == identity.value.team
        invariant outbox == start.outbox + Forward(w, uid, team, events[..i]).sent
      {
        assert events[..i + 1] == events[..i] + [events[i]];
        match events[i]
        case Message(user, channel, text) =>
          ForwardSnoc(w, uid, team, events[..i], events[i]);
          var ch := GetConversationInfo(w, channel);
          if ch.None? {
            continue;
          }
          var u := GetUserInfo(w, user);
          if u.None? {
            continue;
          }
          if u.value.id == uid {
            continue;
          }
          var title := BuildTitle(team, ch.value.name, u.value.realName);
          var msgText := Rewrite(w, text);
          outbox := outbox + [Notification(title, msgText, PRIORITY)];
        case InvalidAuth =>
          assert events == events[..i] + [InvalidAuth] + events[i + 1..];
          ForwardStopsAtInvalidAuth(w, uid, team, events[..i], events[i + 1..]);
          return Some(InvalidCredentials);
        case Other =>
          ForwardSnoc(w, uid, team, events[..i], events[i]);
      }
      assert events[..|events|] == events;
      return None;
    }

    method ValidateAndSetConfig(conf: Config, w: Workspace, disconnectOk: bool, events: seq<Event>)
      returns (err: Option<Error>)
      requires Valid()
      modifies this
      ensures Valid()
      ensures Step(Snapshot(), err) == AfterSetConfig(old(Snapshot()), conf, w, disconnectOk, events)
    {
      if conf.slackToken == "" {
        err := StopRTM(disconnectOk);
        return;
      }
      if !conf.Valid(w) {
        return Some(InvalidToken);
      }
      config := Some(conf);
      if !enabled {
        return None;
      }
      err := StopRTM(disconnectOk);
      if err.Some? {
        return;
      }
      err := StartRTM(w, events);
    }

    method Enable(w: Workspace, events: seq<Event>) returns (err: Option<Error>)
      requires Valid()
      modifies this
      ensures Valid()
      ensures Step(Snapshot(), err) == AfterEnable(old(Snapshot()), w, events)
    {
      if config.None? {
        return Some(NotConfigured);
      }
      if !config.value.Valid(w) {
        return Some(TokenNoLongerValid);
      }
      enabled := true;
      // The source starts the session on its own goroutine and never reads
      // its result.
      var _ := StartRTM(w, events);
      return None;
    }

    method Disable(disconnectOk: bool) returns (err: Option<Error>)
      requires Valid()
      modifies this
      ensures Valid()
      ensures Step(Snapshot(), err) == AfterDisable(old(Snapshot()), disconnectOk)
    {
      err := StopRTM(disconnectOk);
      if err.Some? {
        return;
      }
      enabled := false;
    }
  }
}
