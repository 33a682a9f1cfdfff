/**
  The bot process's mutable state and its two entry points: the `message` handler and the end of
  a login request. Each runs the source's if/else-if chain in place on the fields and is proved to
  make the transition Session.Step or Session.AfterLogin describes.
 */
module TelegramBot {
  import opened Wrappers
  import opened JsText
  import opened Commands
  import opened Session

  class Bot {
    var accessToken: Option<string>
    var tokenExpiry: Option<int>
    var userCredentials: Credentials

    /** The state the three fields hold. */
    function State(): BotState
      reads this
    {
      BotState(accessToken, tokenExpiry, userCredentials)
    }

    /**
      The class invariant Session.Consistent on the fields. No method relies on it; it is carried
      through every method to show that every state the bot reaches satisfies it.
     */
    ghost predicate Valid()
      reads this
    {
      Consistent(State())
    }

    /** Bot.js:10-17: no token, no expiry, both credential fields empty. */
    constructor ()
      ensures Valid() && State() == Initial
    {
      accessToken := None;
      tokenExpiry := None;
      userCredentials := NoCredentials;
    }

    /** checkToken's condition on the current fields at time now. */
    function TokenIsStale(now: int): (stale: bool)
      reads this
      ensures stale == NeedsRefresh(State(), now)
    {
      accessToken.None? || accessToken.value == "" || now >= ExpiryNumber(tokenExpiry)
    }

    /**
      bot.on("message"): handles one message (None for a message without text) at local hour
      `hour` and time `now`, updating the credentials and returning what the handler sets off.
     */
    method HandleMessage(text: Option<string>, hour: int, now: int) returns (action: Action)
      requires Valid()
      modifies this
      ensures Valid()
      ensures State() == Step(old(State()), text, hour, now).state
      ensures action == Step(old(State()), text, hour, now).action
    {
      if text.None? {
        action := Crash;
        return;
      }
      var raw := text.value;
      var msg := Lower(Trim(raw));

      if msg == "/start" {
        FixedCommandsWin(State(), raw, hour, now);
        action := Reply(WelcomeMessage(hour));
        return;
      }
      if msg == "/command" {
        FixedCommandsWin(State(), raw, hour, now);
        action := SendCommandList;
        return;
      }
      if msg == "logout" {
        FixedCommandsWin(State(), raw, hour, now);
        action := Logout;
        return;
      }

      if msg == "login" {
        LoginCommand(State(), raw, hour, now);
        if accessToken.Some? && accessToken.value != "" {
          action := Reply(AlreadyLoggedIn);
          return;
        }
        userCredentials := NoCredentials;
        action := Reply(AskLoginId);
      } else if userCredentials.loginId == "" {
        OneFieldPerMessage(State(), raw, hour, now);
        userCredentials := userCredentials.(loginId := Trim(raw));
        action := Reply(AskPassword);
      } else if userCredentials.password == "" {
        OneFieldPerMessage(State(), raw, hour, now);
        userCredentials := userCredentials.(password := Trim(raw));
        action := AttemptLogin(userCredentials);
      } else {
        StepDispatches(State(), raw, hour, now);
        action := RunCommand(Classify(msg), now);
      }
    }

    /** The dispatch chain of the handler once both fields are filled (Bot.js:199-239). */
    method RunCommand(c: Command, now: int) returns (action: Action)
      ensures action == Dispatch(c, State(), now)
    {
      match c {
        case GetReport(f) =>
          var refresh := if TokenIsStale(now) then Some(userCredentials) else None;
          action := FetchReport(QuerySuffix(f), refresh);
        case Schedule(outcome) =>
          match outcome {
            case ScheduleAccepted(reportType, time) => action := ScheduleReport(reportType, time);
            case ScheduleRejected => action := Reply(ScheduleFormatHelp);
            case ScheduleMissingTime => action := Crash;
          }
        case ShowSchedules => action := ShowScheduledTasks;
        case DeleteTask(n) => action := DeleteScheduledTask(n);
        case InvalidTaskNumber => action := Reply(TaskNumberHelp);
        case Unrecognized => action := Reply(InvalidCommandHelp);
      }
    }

    /**
      The end of login's POST, for a login set off by a message or by checkToken: success stores
      the token with an expiry 24 hours after `now`, failure clears the credentials.
     */
    method CompleteLogin(result: LoginResult, now: int) returns (reply: string)
      requires Valid()
      modifies this
      ensures Valid()
      ensures State() == AfterLogin(old(State()), result, now)
      ensures reply == LoginReply(result)
    {
      match result
      case LoginSucceeded(token) =>
        accessToken := token;
        tokenExpiry := Some(now + 24 * 60 * 60 * 1000);
        reply := LoginSucceededMenu;
      case LoginFailed =>
        reply := LoginFailedMessage;
        userCredentials := NoCredentials;
    }
  }

  /**
    A session as a caller sees it through the class alone: the first two ordinary messages are taken
    as the login ID and the password without any `login` command, and after that login fails the
    next ordinary message starts a new login ID.
   */
  method FailedLoginScenario(id: string, password: string, retry: string, hour: int, now: int)
    returns (attempt: Action, collected: Credentials)
    requires !IsFixedCommand(Normalize(id)) && Normalize(id) != "login" && Trim(id) != ""
    requires !IsFixedCommand(Normalize(password)) && Normalize(password) != "login"
    requires !IsFixedCommand(Normalize(retry)) && Normalize(retry) != "login"
    ensures attempt == AttemptLogin(Credentials(Trim(id), Trim(password)))
    ensures collected == Credentials(Trim(retry), "")
  {
    var bot := new Bot();
    var askPassword := bot.HandleMessage(Some(id), hour, now);
    attempt := bot.HandleMessage(Some(password), hour, now);
    var reply := bot.CompleteLogin(LoginFailed, now);
    var askAgain := bot.HandleMessage(Some(retry), hour, now);
    collected := bot.userCredentials;
  }
}
