/**
 * Telegram helpers (apis/tgram/utils.py): the module-global bot, the bounded
 * retry loop that sends or edits a chat message, and the allow-list guard put
 * around privileged command handlers.
 */
module TelegramUtils {
  import opened Wrappers
  import Text
  import Settings

  /** Seconds each API call may take. */
  const BOT_TIMEOUT: int := 7

  /** Caught network failures tolerated before `reply_chat` gives up. */
  const MAX_ATTEMPTS: nat := 10

  /** A bot object; any bot is truthy. */
  datatype Bot = Bot(id: int)

  /** The module-global `main_bot`. */
  class BotHolder {
    var mainBot: Option<Bot>

    constructor ()
      ensures mainBot == None
    {
      mainBot := None;
    }

    /** `get_bot`. */
    function GetBot(): Option<Bot>
      reads this
    {
      mainBot
    }

    /** `set_bot`: `get_bot` returns this value until the next call. */
    method SetBot(bot: Option<Bot>)
      modifies this
      ensures GetBot() == bot
    {
      mainBot := bot;
    }
  }

  /** The API request `reply_chat` issues on each attempt. */
  datatype ApiCall =
    | EditMessageText(chatId: int, messageId: int, text: string, timeout: int)
    | SendMessage(chatId: int, text: string, timeout: int)

  /** What one API request did: delivered a message, or raised. */
  datatype CallOutcome = Delivered(message: int) | TimedOut | NetworkError | Raised(error: string)
  {
    /** The two exceptions `reply_chat` catches and retries. */
    predicate Retryable() { TimedOut? || NetworkError? }
  }

  /** How `reply_chat` ends: a returned value (`None` after too many failures) or an exception. */
  datatype ReplyResult = Returned(value: Option<int>) | Propagated(error: string)

  /** Edit the given message when there is one, otherwise send a new message. */
  function Request(chatId: int, message: string, msgEdit: Option<int>): ApiCall
  {
    match msgEdit
    case Some(messageId) => EditMessageText(chatId, messageId, message, BOT_TIMEOUT)
    case None => SendMessage(chatId, message, BOT_TIMEOUT)
  }

  /**
   * The loop variables of `reply_chat` after some passes: `attempts`,
   * `exit_condition`, the requests issued so far, and the value returned or
   * the exception raised once the function has been left.
   */
  datatype LoopState = LoopState(attempts: nat, exit: bool, calls: seq<ApiCall>, left: Option<ReplyResult>)
  {
    /** The loop is over: its condition is false or the function has returned or raised. */
    predicate Done() { exit || left.Some? }
  }

  /** The loop variables before the first pass. */
  const START := LoopState(0, false, [], None)

  /**
   * One pass of the loop body. `ready` is `get_bot() and chat_id`, `request`
   * the edit or send the pass issues, `o` what that request does. A ready
   * pass either leaves the function or counts one more failure; a pass that
   * is not ready changes nothing.
   */
  function Pass(ready: bool, request: ApiCall, s: LoopState, o: CallOutcome): (t: LoopState)
    requires s.left.None?
    ensures !ready ==> t == s
    ensures ready ==> t.calls == s.calls + [request]
    ensures ready ==> t.left.Some? || (t.attempts == s.attempts + 1 && (t.exit <==> t.attempts > MAX_ATTEMPTS))
    ensures t.left.Some? ==> ready && !o.Retryable()
  {
    if !ready then s
    else
      var calls := s.calls + [request];
      match o
      case Delivered(m) => LoopState(s.attempts, true, calls, Some(Returned(Some(m))))
      case Raised(e) => LoopState(s.attempts, s.exit, calls, Some(Propagated(e)))
      case _ => LoopState(s.attempts + 1, s.attempts + 1 > MAX_ATTEMPTS, calls, None)
  }

  /**
   * The loop variables after `n` passes, where `outcome(k)` is what the k-th
   * request does; once the loop is over they stay as they are.
   */
  function Passes(ready: bool, request: ApiCall, outcome: nat -> CallOutcome, n: nat): LoopState
    decreases n
  {
    if n == 0 then START
    else
      var s := Passes(ready, request, outcome, n - 1);
      if s.Done() then s else Pass(ready, request, s, outcome(|s.calls|))
  }

  /**
   * Without a bot or with a falsy chat id no pass ever issues a request,
   * counts an attempt or sets the exit flag: after any number of passes the
   * loop is where it started, so it never ends.
   */
  lemma {:induction false} NotReadyNeverEnds(request: ApiCall, outcome: nat -> CallOutcome, n: nat)
    ensures Passes(false, request, outcome, n) == START
    ensures !Passes(false, request, outcome, n).Done()
    decreases n
  {
    if n > 0 {
      NotReadyNeverEnds(request, outcome, n - 1);
    }
  }

  /**
   * With a bot and a chat id, each pass before the end issues one request and
   * counts one failure, so the loop is over after at most eleven passes.
   */
  lemma {:induction false} ReadyEndsWithinLimit(request: ApiCall, outcome: nat -> CallOutcome, n: nat)
    ensures var s := Passes(true, request, outcome, n);
      (!s.Done() ==> s.attempts == n && |s.calls| == n) &&
      |s.calls| <= MAX_ATTEMPTS + 1 &&
      (n > MAX_ATTEMPTS ==> s.Done())
    decreases n
  {
    if n > 0 {
      ReadyEndsWithinLimit(request, outcome, n - 1);
    }
  }

  /**
   * `reply_chat(chat_id, message, msg_edit)`. `outcome(k)` is what the k-th
   * request does. The result is that of the first request that does not raise
   * `TimedOut` or `NetworkError`; after eleven such failures it is `None`.
   */
  method ReplyChat(holder: BotHolder, chatId: int, message: string, msgEdit: Option<int>,
                   outcome: nat -> CallOutcome)
    returns (result: ReplyResult, calls: seq<ApiCall>)
    requires holder.mainBot.Some? && chatId != 0
    ensures 1 <= |calls| <= MAX_ATTEMPTS + 1
    ensures forall k :: 0 <= k < |calls| ==> calls[k] == Request(chatId, message, msgEdit)
    ensures forall k :: 0 <= k < |calls| - 1 ==> outcome(k).Retryable()
    ensures outcome(|calls| - 1).Delivered? ==> result == Returned(Some(outcome(|calls| - 1).message))
    ensures outcome(|calls| - 1).Raised? ==> result == Propagated(outcome(|calls| - 1).error)
    ensures outcome(|calls| - 1).Retryable() ==> |calls| == MAX_ATTEMPTS + 1 && result == Returned(None)
  {
    var request := Request(chatId, message, msgEdit);
    var state := START;
    ghost var n: nat := 0;
    while !state.exit
      invariant state == Passes(true, request, outcome, n)
      invariant state.left.None?
      invariant state.attempts == |state.calls| <= MAX_ATTEMPTS + 1
      invariant forall k :: 0 <= k < |state.calls| ==> state.calls[k] == request
      invariant forall k :: 0 <= k < |state.calls| ==> outcome(k).Retryable()
      invariant state.exit <==> state.attempts > MAX_ATTEMPTS
      decreases MAX_ATTEMPTS + 1 - state.attempts
    {
      var ready := holder.GetBot().Some? && chatId != 0;
      var o := outcome(|state.calls|);
      state := Pass(ready, request, state, o);
      n := n + 1;
      if state.left.Some? {
        return state.left.value, state.calls;
      }
    }
    return Returned(None), state.calls;
  }

  /** A Telegram user as the handlers see it. */
  datatype User = User(id: int, firstName: string)

  /** What a guarded handler call amounts to: refused with a warning, or run. */
  datatype Guarded<R> = Denied(warning: string) | Handled(result: R)

  /**
   * `restricted(logger)(handler)` applied to an update from `user`: the handler
   * runs only for users in the allow-list (`get_allowed_users()`), and its
   * result is passed back unchanged.
   */
  function Restricted<U, R>(allowedUsers: seq<int>, user: User, handler: U -> R, update: U): (g: Guarded<R>)
    ensures g.Handled? <==> user.id in allowedUsers
  {
    if user.id !in allowedUsers then
      Denied("Acceso no autorizado para el usuario " + user.firstName + " con id " + Text.IntToString(user.id))
    else
      Handled(handler(update))
  }

  /** For an authorized user the guard returns exactly what the handler returns. */
  lemma AuthorizedGetsHandlerResult<U, R>(allowedUsers: seq<int>, user: User, handler: U -> R, update: U)
    requires user.id in allowedUsers
    ensures Restricted(allowedUsers, user, handler, update) == Handled(handler(update))
  {
  }

  /**
   * For an unauthorized user the outcome does not depend on the handler at all:
   * the handler is never consulted.
   */
  lemma UnauthorizedIgnoresHandler<U, R>(allowedUsers: seq<int>, user: User, h1: U -> R, h2: U -> R, update: U)
    requires user.id !in allowedUsers
    ensures Restricted(allowedUsers, user, h1, update) == Restricted(allowedUsers, user, h2, update)
    ensures Restricted(allowedUsers, user, h1, update).Denied?
  {
  }

  /** With the shared settings, the developer may run every restricted command. */
  lemma DeveloperIsAuthorized<U, R>(firstName: string, handler: U -> R, update: U)
    ensures Restricted(Settings.LIST_OF_ADMINS, User(Settings.MARTIN, firstName), handler, update) == Handled(handler(update))
  {
  }
}
