# Admission challenge of a Telegram group bot, in Dafny

This project models the core of a Telegram bot that moderates a group chat.
When someone joins, the bot removes the newcomer's four send rights. It then
posts a challenge: a 4×4 keyboard of sixteen food buttons, shuffled. Each
button carries the payload `"<id>,<first name>,<food>"`. When the newcomer
presses the glass of milk (`leche`), the bot gives the rights back, deletes the
challenge and welcomes them. Any other button turns the challenge into a
quarantine notice. A press by someone else does nothing.

Beside that core the project models the bot's small helpers:

- the retry loop that sends or edits a chat message;
- the allow-list guard on privileged commands and the module-global bot;
- the run-time log-level command and its level tables;
- the environment predicates;
- the log filter that drops polling time-outs;
- the version-number logic of the deployment script: parsing `a.b.c[-rcN]`,
  formatting it back, choosing the next release candidate, and the tag check.

Modules, one per source file:

| module | file | models |
|---|---|---|
| `Admission` | `admission.dfy` | `main.py`: `manage_new_member`, `get_keyboard_markup`, `button_pressed`, the message templates |
| `Deploy` | `deploy.dfy` | `deploy_tools/deploy.py`: `get_version_numbers`, `build_version`, `calculate_new_version_numbers`, `check_if_tag_exists` |
| `TelegramUtils` | `tgram_utils.dfy` | `apis/tgram/utils.py`: `set_bot`/`get_bot`, `reply_chat`, `restricted` |
| `LogConfig` | `log_config.dfy` | `config/log_config.py`: `LOG_LEVELS`, `LOG_LABELS`, `handlers`, `log_level` |
| `Settings` | `settings.dfy` | `config/common.py`: `get_active_env`, `deploy_server`, `production`, `MARTIN` |
| `LogFilter` | `log_filter.dfy` | `common/utils/filters.py`: `TimedOutFilter.filter` |
| `Text` | `text.dfy` | Python's `str.split`, `in` on strings, `str(int)` and `int(str)` |
| `Wrappers` | `wrappers.dfy` | `Option` and `Result` |

How the outside world is modelled:

- Calls to the chat platform (`restrict_chat_member`, `send_message`,
  `delete_message`, `edit_message_text`) are `Action` values. The methods of
  `Admission.ChatBot` append them to the bot's `trace`. Pure functions
  (`MemberEffects`, `JoinEffects`, `Press`) say which actions each handler
  issues; the lemmas are stated over them.
- `random.shuffle` is the Fisher–Yates loop CPython runs. The random draws are
  a parameter `choices` (`choices[i] <= i`), so every shuffle the library can
  produce is covered.
- The outcome of each API request in `reply_chat` is a parameter
  `outcome: nat -> CallOutcome`.
- The `ENV` environment variable is a parameter `Option<string>`.
- The allow-list of `restricted` is a parameter, since `get_allowed_users`
  lives in `config/environments.py`, which is not part of this model.
- The user's answer to the release-candidate prompt is a parameter `rcInput`.
- Python exceptions are `Result`/`Option` values or dedicated error datatypes.

The regular expression `(\d+)\.(\d+)\.(\d+)(-rc(?P<rcv>\d+))?` of the
deployment script is written out by hand (`Deploy.Search`): the leftmost
start, each `\d+` taking the longest run of digits. Backtracking cannot change
a match of this pattern, so on ASCII digits the greedy runs give the groups
`re.search` gives. Digits throughout the model are ASCII `0`-`9` (see
"## Left out").

Three facts about `main.py` shape the admission model:

- There is no timer, no ban and no random choice of the correct answer. The
  correct token is always `leche`.
- `button_pressed` splits the payload on every comma
  (`query.data.split(",")`). A first name holding a comma therefore shows up
  cut at that comma in the welcome or quarantine text
  (`Admission.PayloadFields`).
- The test for the correct answer is `'leche' in query.data` over the whole
  payload. A newcomer whose first name contains `leche` passes with any button
  (`Admission.PressOwnButton`).

## Model

| member | source | states |
|---|---|---|
| `Admission.TestMessage` | main.py:36 | the challenge text addresses the member by name, at a fixed place |
| `Admission.WelcomeMessage` | main.py:37-38 | the welcome text holds the name, at a fixed place |
| `Admission.QuarantineNotice` | main.py:226 | the quarantine text holds the name, at a fixed place |
| `Admission.MessagesNameOnePerson` | main.py:36-38 | each of the three messages names exactly one person: equal messages mean equal names |
| `Admission.KeyboardItems` | main.py:164-181 | there are sixteen buttons; button k shows glyph k and carries the payload `"<id>,<name>,<token k>"` |
| `Admission.OneAnswerToken` | main.py:164-181 | there are sixteen tokens and sixteen glyphs; exactly one token is `leche`, at index 2 |
| `Admission.ItemsDistinct` | main.py:164-181 | a member's sixteen buttons are pairwise different |
| `Admission.AnswerButtonOnly` | main.py:165-180 | only button 2 carries the payload with `leche` as its token |
| `Admission.PayloadFields` | main.py:165-180 | on every generated payload, field 0 parses to the member id; field 1 is the name up to its first comma, so it is the whole name exactly when the name has no comma |
| `Admission.PayloadHoldsAnswer` | main.py:165-180 | a generated payload contains `leche` exactly when the name or the token does; the id and the commas never contribute |
| `Admission.TokensHoldingAnswer` | main.py:164-181 | of the sixteen tokens only `leche` contains `leche` |
| `Admission.Press` | main.py:201-226 | a press raises exactly when field 0 is not an integer or there is no field 1; it makes 0, 1 or 3 calls; any call means the presser is the encoded member; the only restrict call grants all rights, to the presser, and only when `leche` is in the payload |
| `Admission.PressByOther` | main.py:203-207 | pressing a button of another member's challenge issues no call at all |
| `Admission.PressOwnButton` | main.py:203-226 | the member pressing their own button gets exactly restrict with all four rights true, delete the challenge, send the welcome (in that order) when the button is `leche` or the name contains `leche`, and otherwise exactly one edit into the quarantine notice |
| `Admission.ShufflePermutes` | main.py:183 | shuffling keeps the same items with the same multiplicities |
| `Admission.Shuffle` | main.py:183 | the in-place shuffle leaves the array equal to the shuffle function of the old contents |
| `Admission.GridShape` | main.py:186-195 | the keyboard has 4 rows of 4 buttons, and row i, column n holds item 4·i+n |
| `Admission.GridCells` | main.py:186-195 | reading the keyboard row after row gives back the list it was built from |
| `Admission.GetKeyboardMarkup` | main.py:163-198 | the nested loops with the running counter build exactly the row-major grid of the shuffled buttons |
| `Admission.ChallengeKeyboardHoldsEachButtonOnce` | main.py:163-198 | the challenge keyboard is 4×4 and holds each of the member's sixteen buttons exactly once, whatever the shuffle |
| `Admission.JoinOne` | main.py:145-160 | one joining member who is not the bot gets one restrict with all four rights false, then one challenge addressed by first name; the bot's own entry produces nothing |
| `Admission.JoinEffectsConcat` | main.py:145 | members joining together are handled one after the other, in list order |
| `Admission.JoinEffectsStep` | main.py:145-160 | handling one more member extends the calls by exactly that member's calls |
| `Admission.JoinEffectsShape` | main.py:145-160 | joining issues an even number of calls, at most two per member; it never restricts the bot, every restrict removes all rights, and every message is a 4-row challenge to the chat |
| `Admission.ChatBot.ManageNewMember` | main.py:137-160 | the trace grows by exactly the join calls of the members, in list order |
| `Admission.ChatBot.ButtonPressed` | main.py:201-226 | a press that raises changes nothing; otherwise the trace grows by exactly the calls of `Press` |
| `Deploy.GetVersionNumbers` | deploy_tools/deploy.py:78-92 | the result is the parsed list of the first version in the line: 0, 3 or 4 non-empty digit strings |
| `Deploy.NoDigitsNoVersion` | deploy_tools/deploy.py:84-86 | a line with no digit gives `[]` |
| `Deploy.ParseRelease` | deploy_tools/deploy.py:84-92 | `a.b.c` after a prefix without digits parses to `[a, b, c]` |
| `Deploy.ParseCandidate` | deploy_tools/deploy.py:84-92 | `a.b.c-rcd` after a prefix without digits parses to `[a, b, c, d]` |
| `Deploy.BuildVersion` | deploy_tools/deploy.py:165-175 | three numbers give `a.b.c`, four or more give `a.b.c-rcd`, fewer than three raise `IndexError` |
| `Deploy.BuildIgnoresExtra` | deploy_tools/deploy.py:171-175 | numbers after the fourth do not show in the version string |
| `Deploy.BuildThenParse` | deploy_tools/deploy.py:84-175 | for 3 or 4 non-empty digit strings, parsing the built version gives the list back |
| `Deploy.ParseBuilt` | deploy_tools/deploy.py:84-175 | the round trip also holds inside a line, between a prefix without digits and a suffix that does not extend the version |
| `Deploy.FileVersionRoundTrip` | deploy_tools/deploy.py:64-74 | the version line `VERSION = '<v>'` reads back as the same version `v` |
| `Deploy.VersionNumbersDigits` | deploy_tools/deploy.py:84-92 | every parsed list has 0, 3 or 4 entries, each a non-empty digit string |
| `Deploy.NextCandidate` | deploy_tools/deploy.py:140 | for a digit string, the next candidate number is a digit string whose value is one more |
| `Deploy.CalculateNewVersionNumbers` | deploy_tools/deploy.py:116-147 | the mutating procedure returns exactly the list the release-candidate rules define |
| `Deploy.KeepsTypedVersion` | deploy_tools/deploy.py:131-133 | in production, and for the answer `0`, the result is the parsed new version unchanged |
| `Deploy.AppendsTypedCandidate` | deploy_tools/deploy.py:134-135 | an answer starting with a digit is appended, whatever the list already holds |
| `Deploy.TypedCandidateAfterCandidate` | deploy_tools/deploy.py:134-175 | a typed candidate appended to a version that already has one becomes a fifth number and does not show in the built version |
| `Deploy.DefaultCandidate` | deploy_tools/deploy.py:136-146 | an empty answer outside production yields four numbers with the typed three first; the fourth is previous RC + 1 when the previous version was a candidate of exactly those three numbers, and `1` otherwise; a line without a version stays `[]` |
| `Deploy.NextCandidateOfSameRelease` | deploy_tools/deploy.py:136-175 | after `a.b.c-rcN`, deploying `a.b.c` with an empty answer gives `a.b.c-rc(N+1)` |
| `Deploy.StagingExample` | deploy_tools/deploy.py:116-175 | `1.2.3-rc4` then `1.2.3` in staging deploys `1.2.3-rc5` |
| `Deploy.TagExists` | deploy_tools/deploy.py:184-185 | a version holding a line break is never found in the listing; over an empty listing only the empty string is |
| `Deploy.TagExistsIffListed` | deploy_tools/deploy.py:184-185 | over a `git tag` listing, a built version counts as existing exactly when it equals one whole tag name |
| `TelegramUtils.BotHolder.SetBot` | apis/tgram/utils.py:12-24 | `get_bot` returns the value last passed to `set_bot` |
| `TelegramUtils.Pass` | apis/tgram/utils.py:40-55 | one pass of the loop: without a bot or chat id it changes nothing; otherwise it issues the request and either leaves the function (only on a result or an exception other than `TimedOut`/`NetworkError`) or counts one more failure, setting the exit flag once failures exceed 10 |
| `TelegramUtils.NotReadyNeverEnds` | apis/tgram/utils.py:37-41 | with no bot or a falsy chat id, after any number of passes no request was issued, `attempts` is 0 and the exit flag is unset: the loop never ends |
| `TelegramUtils.ReadyEndsWithinLimit` | apis/tgram/utils.py:37-55 | with a bot and a chat id, every pass before the end adds one request and one failure, at most 11 requests are issued, and the loop is over after 11 passes |
| `TelegramUtils.ReplyChat` | apis/tgram/utils.py:27-55 | every request is the edit (with `msg_edit`) or the send (without), all but the last raised `TimedOut`/`NetworkError`; the result is that of the first request that returns or raises something else; after 11 caught failures it is `None`; there are between 1 and 11 requests |
| `TelegramUtils.Restricted` | apis/tgram/utils.py:94-112 | the handler runs exactly when the user id is in the allow-list |
| `TelegramUtils.AuthorizedGetsHandlerResult` | apis/tgram/utils.py:107-110 | for an authorized user the guard returns the handler's result unchanged |
| `TelegramUtils.UnauthorizedIgnoresHandler` | apis/tgram/utils.py:103-106 | for an unauthorized user the outcome is a refusal that does not depend on the handler |
| `TelegramUtils.DeveloperIsAuthorized` | apis/tgram/utils.py:94-110 | with the shared admin list the developer may run every restricted command |
| `LogConfig.TablesAgree` | config/log_config.py:28-46 | `LOG_LEVELS` and `LOG_LABELS` have the keys {10, 20, 30, 35, 40, 50}, and `LOG_LEVELS` maps each key to itself |
| `LogConfig.NewLevelIsInput` | config/log_config.py:122 | `LOG_LEVELS.get(level, level)` is always `level` |
| `LogConfig.LevelReport` | config/log_config.py:125 | the report of a known level is `"<LABEL>(<level>)"`; an unknown level raises `KeyError` of that level |
| `LogConfig.ReportIdentifiesLevel` | config/log_config.py:125 | two levels with the same successful report are the same level |
| `LogConfig.LogSetup.constructor` | config/log_config.py:75-95 | the handlers are a file handler at DEBUG, an e-mail handler at EMAIL_WARNING on a remote deployment only, and a console handler at INFO |
| `LogConfig.LogSetup.LogLevel` | config/log_config.py:115-125 | with no level or 0, no handler changes and the report is that of the first handler's level; with a truthy level every handler ends at that level (also when the label lookup then fails) and the report is that of the new level; no handlers raise `IndexError` |
| `LogConfig.InitialReport` | config/log_config.py:75-125 | right after start-up the reported level is `DEBUG(10)` |
| `Settings.ActiveEnv` | config/common.py:12-17 | the environment is `ENV`, or `dev` when it is unset |
| `Settings.DeployServer` | config/common.py:20-26 | a remote deployment means exactly `ENV` set to `pro` or `sta` |
| `Settings.Production` | config/common.py:29-35 | production means exactly `ENV` set to `pro` |
| `Settings.ProductionIsDeployed` | config/common.py:20-35 | production implies a remote deployment; `dev` and an unset `ENV` are neither |
| `Settings.MartinIsAdmin` | config/common.py:3-6 | the developer is in `LIST_OF_ADMINS` |
| `LogFilter.Filter` | common/utils/filters.py:5-8 | a record is dropped exactly when its message contains the polling time-out text somewhere |
| `LogFilter.DropsLongerMessages` | common/utils/filters.py:6 | any message with the time-out text inside it is dropped, not only the exact text |
| `LogFilter.DependsOnMessageOnly` | common/utils/filters.py:5-8 | records with the same message get the same verdict |
| `LogFilter.KeepsNearMisses` | common/utils/filters.py:6-8 | a message that stops one letter short of the text is kept; one that extends it is dropped |

## Left out

- Glyphs of the buttons are compared only for being distinct; `InlineKeyboardMarkup` is a plain list of rows.
- Uniformity of the shuffle is not stated: the draws are a parameter, and the model covers every possible draw.
- The chat-platform calls are recorded, not executed. `reply_func` sends through `reply_chat`; the model records the challenge as one `SendMessage` and does not replay the retry loop inside `manage_new_member`.
- Exceptions that the platform calls themselves might raise inside `manage_new_member` and `button_pressed` are not modelled.
- `shutdown`, `quit_bot`, `stop_and_restart`, `restart`, `log`, `show_help`, `error_handler` and `main` in `main.py`: process control, threads, signals and handler registration.
- In `deploy_tools/deploy.py`: the `input()` prompt loops, git through `os.popen`/`os.system`, reading and writing the version file, `sys.exit`, and the regular-expression substitution of `replace_version`.
- `admin_reply`, `dev_reply` and `reply_func` in `apis/tgram/utils.py`: one-line wrappers around `reply_chat`; `admin_forward`, which calls `reply_chat` and then `forward_message` to the admin.
- The logger lines `restricted` writes are kept only as the refusal text; handler construction (file, SMTP, stream), `getLogger`, `my_timezone_time` and the `logged` decorator's timing in `config/log_config.py`.
- `config/environments.py`, `config/pro_env.py` and `config/timezone.py` are not part of this model: configuration constants, environment variables and a time-zone library.
- TelegramUtils.ReplyChat: requires a bot and a non-zero chat id. With a falsy chat id the source loops forever. Without a bot it re-reads `get_bot()` on every pass, so it goes on once another thread calls `set_bot`; `main` starts the updater's handler threads before it calls `set_bot`. The model has no concurrency: `TelegramUtils.NotReadyNeverEnds` states the loop under a fixed missing bot or chat id, and a bot set by another thread mid-loop is not modelled.
- TelegramUtils.ReplyChat: the `*args`/`**kwargs` passed through to the API, and the message reference of `msg_edit` (reduced to its `message_id`), are not modelled.
- Admission.Press: the model takes `'leche' in query.data` on code points; no Unicode normalisation is modelled.
- Admission.Press: field 0 is parsed by `int()` narrowed to an optional sign and ASCII digits; Python's `int()` also strips surrounding whitespace, accepts `_` between digits and accepts any Unicode decimal digit, so a payload such as `" 7,Ana,kiwi"` raises `ValueError` in the model but is handled by the source.
- Admission.ChatBot.ButtonPressed: the same narrowed `int()` as `Admission.Press`.
- Deploy.GetVersionNumbers: `\d` in the pattern is read as an ASCII digit; Python's `\d` on `str` also matches the other Unicode decimal digits, so a line such as `'١.٢.٣'` gives `[]` in the model.
- Deploy.NoDigitsNoVersion: "no digit" means no ASCII digit, for the same reason.
- Deploy.CalculateNewVersionNumbers: `re.match(r'\d+', …)` on the answer and `int(…)` on the previous candidate number are read with ASCII digits only, so an answer starting with another Unicode decimal digit is not appended by the model.
