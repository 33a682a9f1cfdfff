/**
  The bot's session and credential state machine as values: the state held in Bot.js's three
  module-level variables, what one incoming message does to it (Step), and what the completion of
  a login request does to it (AfterLogin). The class in TelegramBot runs the same transitions in
  place and is proved against these functions.
 */
module Session {
  import opened Wrappers
  import opened JsText
  import opened Commands

  /** userCredentials: the login ID and password, "" while not yet collected. */
  datatype Credentials = Credentials(loginId: string, password: string)

  const NoCredentials := Credentials("", "")

  /** accessToken (null/undefined as None), tokenExpiry in milliseconds (null as None), userCredentials. */
  datatype BotState = BotState(accessToken: Option<string>, tokenExpiry: Option<int>, credentials: Credentials)

  const Initial := BotState(None, None, NoCredentials)

  /** 24 * 60 * 60 * 1000 milliseconds. */
  const TokenLifetime: int := 86_400_000

  /** JavaScript truthiness of accessToken: present and not the empty string. */
  predicate HasToken(s: BotState) {
    s.accessToken.Some? && s.accessToken.value != ""
  }

  /** The number `now >= tokenExpiry` compares against: JavaScript converts null to 0. */
  function ExpiryNumber(expiry: Option<int>): int {
    match expiry
    case None => 0
    case Some(t) => t
  }

  /** checkToken's condition: a login is attempted before a report request exactly when this holds. */
  function NeedsRefresh(s: BotState, now: int): (r: bool)
    ensures !HasToken(s) ==> r
    ensures s.tokenExpiry.None? && now >= 0 ==> r
  {
    !HasToken(s) || now >= ExpiryNumber(s.tokenExpiry)
  }

  /** Both credential fields are filled: only then does a message reach command dispatch. */
  predicate Complete(c: Credentials) {
    c.loginId != "" && c.password != ""
  }

  /**
    The invariant every reachable state keeps: a password is collected only after a login ID, and
    a token is never held without an expiry.
   */
  predicate Consistent(s: BotState) {
    && (s.credentials.password != "" ==> s.credentials.loginId != "")
    && (s.accessToken.Some? ==> s.tokenExpiry.Some?)
  }

  // ---------------------------------------------------------------- login completion

  /** How the login POST ended: a response (whose token field may be missing) or an exception. */
  datatype LoginResult = LoginSucceeded(token: Option<string>) | LoginFailed

  /** Bot.js:30-31 and 62-65: success stores the token and expiry; failure only clears the credentials. */
  function AfterLogin(s: BotState, result: LoginResult, now: int): (s': BotState)
    ensures result.LoginSucceeded? ==> s'.credentials == s.credentials && s'.tokenExpiry == Some(now + TokenLifetime)
    ensures result.LoginSucceeded? ==> s'.accessToken == result.token
    ensures result.LoginFailed? ==> s'.credentials == NoCredentials
    ensures result.LoginFailed? ==> s'.accessToken == s.accessToken && s'.tokenExpiry == s.tokenExpiry
  {
    match result
    case LoginSucceeded(token) => s.(accessToken := token, tokenExpiry := Some(now + TokenLifetime))
    case LoginFailed => s.(credentials := NoCredentials)
  }

  const LoginSucceededMenu: string :=
    "Login successful! You can now request sales reports. Here are your options:\n"
    + "- \"Get sales report\"\n"
    + "- \"Get daily sales report\"\n"
    + "- \"Get weekly sales report\"\n"
    + "- \"Get monthly sales report\"\n"
    + "- \"Get quarterly sales report\"\n"
    + "- \"Schedule report {type} {HH:MM}\" to schedule a report\n"
    + "- \"Show scheduled reports\" to view all scheduled reports\n"
    + "- \"Delete scheduled report {task number}\" to delete a scheduled report\n"
    + "- \"/command\" to see all available commands\n"

  const LoginFailedMessage: string := "Login failed. Please check your credentials and try again."

  /** The message login sends when its request ends. */
  function LoginReply(result: LoginResult): string {
    if result.LoginSucceeded? then LoginSucceededMenu else LoginFailedMessage
  }

  // ---------------------------------------------------------------- one message

  /** What handling one message sets off, with the side effects kept abstract. */
  datatype Action =
    | Reply(message: string)                                      // bot.sendMessage to the chat
    | SendCommandList                                             // sendCommandList(chatId)
    | Logout                                                      // logout(chatId)
    | AttemptLogin(credentials: Credentials)                      // login(chatId): POST with these credentials
    | FetchReport(query: string, refreshLogin: Option<Credentials>) // getSalesReport: GET with this query, after a login when stale
    | ScheduleReport(reportType: string, time: string)            // scheduleReport(chatId, reportType, time)
    | ShowScheduledTasks                                          // showScheduledTasks(chatId)
    | DeleteScheduledTask(taskNumber: int)                        // deleteScheduledTask(chatId, taskNumber)
    | Crash                                                       // the handler throws a TypeError

  datatype Transition = Transition(state: BotState, action: Action)

  const AlreadyLoggedIn: string := "You are already logged in. Please logout to login again."
  const AskLoginId: string := "Please provide your login ID:"
  const AskPassword: string := "Please provide your password:"
  const ScheduleFormatHelp: string := "Invalid command. Use the format: \"Schedule report {type} {HH:MM}\"."
  const TaskNumberHelp: string := "Please provide a valid task number."
  const InvalidCommandHelp: string := "Invalid command. Type '/command' for help."

  /** msg.text.trim().toLowerCase(). */
  function Normalize(raw: string): string {
    Lower(Trim(raw))
  }

  /**
    The normalized text has no whitespace at its ends and no ASCII capital, and normalizing it again
    changes nothing: every comparison sees one canonical form of the message.
   */
  lemma NormalizeCanonical(raw: string)
    ensures var n := Normalize(raw); n == [] || (!IsJsWhitespace(n[0]) && !IsJsWhitespace(n[|n| - 1]))
    ensures forall i | 0 <= i < |Normalize(raw)| :: !('A' <= Normalize(raw)[i] <= 'Z')
    ensures Normalize(Normalize(raw)) == Normalize(raw)
  {
    TrimLowered(Trim(raw));
    LowerIdempotent(Trim(raw));
  }

  /** The commands matched before the credentials are looked at. */
  predicate IsFixedCommand(t: string) {
    t == "/start" || t == "/command" || t == "logout"
  }

  /** The action of a message that reached command dispatch; the token matters only to checkToken. */
  function Dispatch(c: Command, s: BotState, now: int): (a: Action)
    ensures a.FetchReport? <==> c.GetReport?
    ensures a.FetchReport? ==> QueryFilter(a.query) == Some(c.filter)
    ensures a.FetchReport? ==> (a.refreshLogin.Some? <==> NeedsRefresh(s, now))
    ensures a.FetchReport? && a.refreshLogin.Some? ==> a.refreshLogin.value == s.credentials
    ensures a.ScheduleReport? <==> c.Schedule? && c.outcome.ScheduleAccepted?
    ensures a.DeleteScheduledTask? <==> c.DeleteTask?
    ensures c.Schedule? && c.outcome.ScheduleAccepted? ==> a == ScheduleReport(c.outcome.reportType, c.outcome.time)
    ensures c == Schedule(ScheduleRejected) ==> a == Reply(ScheduleFormatHelp)
    ensures c == Schedule(ScheduleMissingTime) ==> a == Crash
    ensures c.ShowSchedules? <==> a == ShowScheduledTasks
    ensures c.DeleteTask? ==> a == DeleteScheduledTask(c.taskNumber)
    ensures c.InvalidTaskNumber? ==> a == Reply(TaskNumberHelp)
    ensures c.Unrecognized? ==> a == Reply(InvalidCommandHelp)
  {
    match c
    case GetReport(f) =>
      QuerySuffixRoundTrip(f);
      FetchReport(QuerySuffix(f), if NeedsRefresh(s, now) then Some(s.credentials) else None)
    case Schedule(ScheduleAccepted(reportType, time)) => ScheduleReport(reportType, time)
    case Schedule(ScheduleRejected) => Reply(ScheduleFormatHelp)
    case Schedule(ScheduleMissingTime) => Crash
    case ShowSchedules => ShowScheduledTasks
    case DeleteTask(n) => DeleteScheduledTask(n)
    case InvalidTaskNumber => Reply(TaskNumberHelp)
    case Unrecognized => Reply(InvalidCommandHelp)
  }

  /**
    The message handler of Bot.js:153-241 on one message (None: a message without text). The
    credentials store the trimmed text as typed; every comparison uses the normalized text.
   */
  function Step(s: BotState, text: Option<string>, hour: int, now: int): (t: Transition)
    ensures t.state.accessToken == s.accessToken && t.state.tokenExpiry == s.tokenExpiry
    ensures text.None? ==> t == Transition(s, Crash)
  {
    match text
    case None => Transition(s, Crash)
    case Some(raw) =>
      var msg := Normalize(raw);
      if msg == "/start" then Transition(s, Reply(WelcomeMessage(hour)))
      else if msg == "/command" then Transition(s, SendCommandList)
      else if msg == "logout" then Transition(s, Logout)
      else if msg == "login" then
        if HasToken(s) then Transition(s, Reply(AlreadyLoggedIn))
        else Transition(s.(credentials := NoCredentials), Reply(AskLoginId))
      else if s.credentials.loginId == "" then
        Transition(s.(credentials := s.credentials.(loginId := Trim(raw))), Reply(AskPassword))
      else if s.credentials.password == "" then
        var c := s.credentials.(password := Trim(raw));
        Transition(s.(credentials := c), AttemptLogin(c))
      else Transition(s, Dispatch(Classify(msg), s, now))
  }

  // ---------------------------------------------------------------- properties

  /** The invariant holds initially and is kept by every message and every login completion. */
  lemma ConsistentPreserved(s: BotState, text: Option<string>, hour: int, now: int, result: LoginResult)
    requires Consistent(s)
    ensures Consistent(Initial)
    ensures Consistent(Step(s, text, hour, now).state)
    ensures Consistent(AfterLogin(s, result, now))
  {
    if text.Some? {
      var raw := text.value;
      if IsFixedCommand(Normalize(raw)) {
        FixedCommandsWin(s, raw, hour, now);
      } else if Normalize(raw) == "login" {
        LoginCommand(s, raw, hour, now);
      } else if !Complete(s.credentials) {
        OneFieldPerMessage(s, raw, hour, now);
      } else {
        StepDispatches(s, raw, hour, now);
      }
    }
  }

  /**
    /start, /command and logout are recognised on the normalized text before any credential
    capture: they leave the state alone, so they are never stored as a login ID or password.
   */
  lemma FixedCommandsWin(s: BotState, raw: string, hour: int, now: int)
    requires IsFixedCommand(Normalize(raw))
    ensures Step(s, Some(raw), hour, now).state == s
    ensures Normalize(raw) == "/start" ==> Step(s, Some(raw), hour, now).action == Reply(WelcomeMessage(hour))
    ensures Normalize(raw) == "/command" ==> Step(s, Some(raw), hour, now).action == SendCommandList
    ensures Normalize(raw) == "logout" ==> Step(s, Some(raw), hour, now).action == Logout
  {
  }

  /** `login` with a token held changes nothing; without one it clears both fields, whatever was collected. */
  lemma LoginCommand(s: BotState, raw: string, hour: int, now: int)
    requires Normalize(raw) == "login"
    ensures HasToken(s) ==> Step(s, Some(raw), hour, now) == Transition(s, Reply(AlreadyLoggedIn))
    ensures !HasToken(s) ==>
      Step(s, Some(raw), hour, now) == Transition(s.(credentials := NoCredentials), Reply(AskLoginId))
  {
  }

  /**
    Any other message while collecting fills exactly one field, the first empty one, with the
    trimmed text as typed (case kept); filling the password sets off exactly one login attempt
    with the credentials just stored.
   */
  lemma OneFieldPerMessage(s: BotState, raw: string, hour: int, now: int)
    requires !IsFixedCommand(Normalize(raw)) && Normalize(raw) != "login"
    requires !Complete(s.credentials)
    ensures var t := Step(s, Some(raw), hour, now);
      if s.credentials.loginId == "" then
        t == Transition(s.(credentials := Credentials(Trim(raw), s.credentials.password)), Reply(AskPassword))
      else
        t == Transition(s.(credentials := Credentials(s.credentials.loginId, Trim(raw))),
                        AttemptLogin(Credentials(s.credentials.loginId, Trim(raw))))
  {
  }

  /** The actions only command dispatch produces. */
  predicate FromDispatch(a: Action) {
    || a.FetchReport? || a.ScheduleReport? || a.ShowScheduledTasks? || a.DeleteScheduledTask? || a.Crash?
    || a == Reply(ScheduleFormatHelp) || a == Reply(TaskNumberHelp) || a == Reply(InvalidCommandHelp)
  }

  lemma DispatchActions(c: Command, s: BotState, now: int)
    ensures FromDispatch(Dispatch(c, s, now))
  {
  }

  /** The replies of the fixed commands, of `login` and of collection are none of dispatch's replies. */
  lemma RepliesOutsideDispatch(hour: int)
    ensures !FromDispatch(Reply(WelcomeMessage(hour)))
    ensures !FromDispatch(Reply(AlreadyLoggedIn)) && !FromDispatch(Reply(AskLoginId)) && !FromDispatch(Reply(AskPassword))
  {
    assert |Greeting(hour)| == 13 || |Greeting(hour)| == 15;
    assert |ScheduleFormatHelp| == 66 && |TaskNumberHelp| == 35 && |InvalidCommandHelp| == 42;
    assert |WelcomeMessage(hour)| == |Greeting(hour)| + 50;
    assert |AlreadyLoggedIn| == 56 && |AskLoginId| == 29 && |AskPassword| == 29;
  }

  /**
    A message with text reaches command dispatch exactly when it is neither a fixed command nor
    `login` and both fields are filled; whether a token is held plays no part in that.
   */
  lemma ReachesDispatch(s: BotState, raw: string, hour: int, now: int)
    ensures FromDispatch(Step(s, Some(raw), hour, now).action) <==>
      !IsFixedCommand(Normalize(raw)) && Normalize(raw) != "login" && Complete(s.credentials)
    ensures !IsFixedCommand(Normalize(raw)) && Normalize(raw) != "login" && Complete(s.credentials) ==>
      Step(s, Some(raw), hour, now) == Transition(s, Dispatch(Classify(Normalize(raw)), s, now))
  {
    var msg := Normalize(raw);
    RepliesOutsideDispatch(hour);
    if IsFixedCommand(msg) {
      FixedCommandsWin(s, raw, hour, now);
    } else if msg == "login" {
      LoginCommand(s, raw, hour, now);
    } else if !Complete(s.credentials) {
      OneFieldPerMessage(s, raw, hour, now);
    } else {
      StepDispatches(s, raw, hour, now);
      DispatchActions(Classify(msg), s, now);
    }
  }

  /**
    A schedule command reaches scheduleReport exactly when its third and fourth words pass the
    whitelist and the HH:MM pattern; otherwise nothing is scheduled and the state is unchanged.
   */
  lemma ScheduleReachesRegistry(s: BotState, raw: string, hour: int, now: int)
    requires Complete(s.credentials) && StartsWith(Normalize(raw), "schedule report")
    ensures var t := Step(s, Some(raw), hour, now);
      && t.state == s
      && (t.action.ScheduleReport? <==> ScheduleCommand(Normalize(raw)).ScheduleAccepted?)
      && (t.action.ScheduleReport? ==> t.action.reportType in ReportTypes && IsClockPattern(t.action.time))
      && (ScheduleCommand(Normalize(raw)).ScheduleAccepted? ==>
            t.action == ScheduleReport(ScheduleCommand(Normalize(raw)).reportType, ScheduleCommand(Normalize(raw)).time))
      && (ScheduleCommand(Normalize(raw)) == ScheduleMissingTime ==> t.action == Crash)
      && (ScheduleCommand(Normalize(raw)) == ScheduleRejected ==> t.action == Reply(ScheduleFormatHelp))
  {
    var msg := Normalize(raw);
    StartsWithFirst(msg, "schedule report");
    NotFixedCommand(msg);
    StepDispatches(s, raw, hour, now);
    ClassifySchedulePrefix(msg);
  }

  /**
    A delete command reaches deleteScheduledTask with parseInt of its fourth word whenever that is
    a number (any integer), and otherwise only replies.
   */
  lemma DeleteReachesRegistry(s: BotState, raw: string, hour: int, now: int)
    requires Complete(s.credentials) && StartsWith(Normalize(raw), "delete scheduled report")
    ensures var t := Step(s, Some(raw), hour, now);
      && t.state == s
      && (DeleteCommand(Normalize(raw)).None? ==> t.action == Reply(TaskNumberHelp))
      && (DeleteCommand(Normalize(raw)).Some? ==> t.action == DeleteScheduledTask(DeleteCommand(Normalize(raw)).value))
  {
    var msg := Normalize(raw);
    StartsWithFirst(msg, "delete scheduled report");
    NotFixedCommand(msg);
    StepDispatches(s, raw, hour, now);
    ClassifyDeletePrefix(msg);
  }

  /** A text that starts with none of '/' and 'l' is neither a fixed command nor `login`. */
  lemma NotFixedCommand(msg: string)
    requires msg != [] && msg[0] != '/' && msg[0] != 'l'
    ensures !IsFixedCommand(msg) && msg != "login"
  {
    assert "/start"[0] == '/' && "/command"[0] == '/' && "logout"[0] == 'l' && "login"[0] == 'l';
  }

  lemma StepDispatches(s: BotState, raw: string, hour: int, now: int)
    requires Complete(s.credentials) && !IsFixedCommand(Normalize(raw)) && Normalize(raw) != "login"
    ensures Step(s, Some(raw), hour, now) == Transition(s, Dispatch(Classify(Normalize(raw)), s, now))
  {
  }

  /**
    A report phrase, once the fields are filled, asks for the report with the phrase's filter, and
    logs in first with the stored credentials exactly when checkToken finds the token stale.
   */
  lemma ReportRequestRefreshes(s: BotState, raw: string, hour: int, now: int, f: Option<Filter>)
    requires Complete(s.credentials) && Normalize(raw) == ReportPhrase(f)
    ensures Step(s, Some(raw), hour, now)
      == Transition(s, FetchReport(QuerySuffix(f), if NeedsRefresh(s, now) then Some(s.credentials) else None))
  {
    var msg := Normalize(raw);
    ClassifyReportPhrase(f);
    NotFixedCommand(msg);
    StepDispatches(s, raw, hour, now);
  }

  /** A token obtained at time t0 passes checkToken for every now before t0 + 24h and fails from then on. */
  lemma TokenWindow(s: BotState, token: string, t0: int, now: int)
    requires token != ""
    ensures NeedsRefresh(AfterLogin(s, LoginSucceeded(Some(token)), t0), now) <==> now >= t0 + TokenLifetime
  {
  }

  /** A login response without a usable token leaves every report request to log in again first. */
  lemma NoTokenAlwaysRefreshes(s: BotState, token: Option<string>, t0: int, now: int)
    requires token.None? || token == Some("")
    ensures NeedsRefresh(AfterLogin(s, LoginSucceeded(token), t0), now)
  {
  }

  /**
    After a failed login both fields are empty and the token is as it was, so the next message that
    is not a command is taken as a new login ID.
   */
  lemma FailedLoginRestartsCollection(s: BotState, raw: string, hour: int, now: int, later: int)
    requires !IsFixedCommand(Normalize(raw)) && Normalize(raw) != "login"
    ensures var s1 := AfterLogin(s, LoginFailed, now);
      && s1.accessToken == s.accessToken
      && Step(s1, Some(raw), hour, later) == Transition(s1.(credentials := Credentials(Trim(raw), "")), Reply(AskPassword))
  {
  }

  /**
    The whole collection: without a token, `login`, then a login ID, then a password set off one
    login attempt with exactly the trimmed ID and password typed.
   */
  lemma LoginConversation(s: BotState, login: string, id: string, password: string, hour: int, now: int)
    requires !HasToken(s) && Normalize(login) == "login"
    requires !IsFixedCommand(Normalize(id)) && Normalize(id) != "login" && Trim(id) != ""
    requires !IsFixedCommand(Normalize(password)) && Normalize(password) != "login"
    ensures var s1 := Step(s, Some(login), hour, now).state;
      var s2 := Step(s1, Some(id), hour, now).state;
      Step(s2, Some(password), hour, now)
        == Transition(s.(credentials := Credentials(Trim(id), Trim(password))),
                      AttemptLogin(Credentials(Trim(id), Trim(password))))
  {
    LoginCommand(s, login, hour, now);
    var s1 := s.(credentials := NoCredentials);
    OneFieldPerMessage(s1, id, hour, now);
    var s2 := s1.(credentials := Credentials(Trim(id), ""));
    OneFieldPerMessage(s2, password, hour, now);
  }
}
