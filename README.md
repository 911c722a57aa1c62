# ai-chat, modelled in Dafny

ai-chat is a chat-bot plugin. Players trigger it by starting a chat message
with a trigger word. It forwards the rest of the message to an AI provider,
with a system prompt chosen by the sender's "mode". It sends the answer back
to the chat. This project models four parts of it:

- **The chat handler** (core/ChatHandler.js): the closure `createChatHandler`
  returns. Module `ChatHandler` has:
  - the pure gate `Gate`, which runs from the event to the start of an AI
    call: self check, chat type, trigger, user, permissions, in-flight set,
    cooldown, empty prompt;
  - `ReplacePlaceholders` and the answer shaping `Reply` / `ErrorLog`;
  - class `Handler`, which holds the two tables the closure mutates: the
    cooldown map and the set of users with a call in flight.
  The asynchronous handler is split at its `await` of the AI call. `Begin`
  runs up to and including `processingUsers.add`. `Settle` is the `finally`
  block, run once the call has ended. A ghost multiset of outstanding calls
  shows that no user ever has two AI calls at once.
- **The mode command** (commands/gptmode.js), module `GptMode`:
  - `Decide` is the command's case analysis: no argument, one argument that
    is a mode or a player, a mode name alone, or a player and a mode;
  - class `ModeCommand` holds the prompt table and the key-value store as a
    `map` field. Its method `Handle` runs the branches imperatively and is
    proved equal to `Decide`;
  - lemmas give the message each branch sends, which branches write, log or
    look up a player, and that a write reads back.
- **The proxy validator** (core/ProxyValidator.js), module `ProxyValidator`:
  `validate`, `formatProxyInfo`, `needsAuthentication` and
  `createProxyObject`, as pure functions over an optional descriptor.
- **`clearBadSymbols`** (utils/textUtils.js), module `TextUtils`. It removes
  the emoji and CJK classes, collapses runs of white space and trims. The
  result is proved sanitised. It keeps exactly the non-removed,
  non-white-space characters, in order, and the filter is idempotent.

Supporting modules:

- `JsString` models the JavaScript string built-ins the code uses: `trim`
  with the ECMAScript white-space set, `toLowerCase`, `substring`, `replace`
  with a string pattern (first match only) and with a `/g` pattern (all
  matches), `join`, `String(n)` and `parseInt`.
- `Prompts` holds the prompt table and the `ai:mode:<user>` store records
  that the handler and the command share.
- `Constants` holds the permission names and message templates of
  constants.js.
- `ModeHandoff` joins the command and the handler: a mode the command
  writes is the mode the handler reads back.
- `Wrappers` holds `Option`.

JavaScript truthiness is modelled explicitly. A missing value, `""` and `0`
are falsy. Where the code tests a string field only for truthiness, the
empty string stands for the field being absent.

The clock, the user lookup, the store read and the AI call are inputs, not
effects:
- the clock is `now` in milliseconds, plus the rendered `time` and `date`
  strings;
- the user lookup is an `Option<User>` or a `resolved` flag;
- the store read is a `map`;
- the AI call is an `AiResult`.
Messages sent to the chat and to the log are outputs.

Two behaviours of the code are modelled as written and shown by lemmas:
- `ChatHandler.LeadingSpaceQuirk`: the trigger's length is cut from the raw
  message, not from the trimmed one it was matched against. So
  "  бот привет" yields the prompt "от привет".
- `GptMode.PlayerModeChained`: the two `replace` calls on a message are
  chained, so a player name holding `{mode}` receives the mode.

## Model

| member | source | states |
|---|---|---|
| JsString.Trim | utils/textUtils.js:5 | `trim` leaves no white space at either end, never lengthens, and leaves a text without edge white space unchanged |
| JsString.TrimSlice | core/ChatHandler.js:35 | `trim` result is a contiguous slice of the input, and everything cut on either side is white space |
| JsString.TrimStartRun | utils/textUtils.js:5 | a maximal run of white space, as `\s+` matches it, is exactly what is skipped in front of a text that does not start with white space |
| JsString.TrimStartSuffix | core/ProxyValidator.js:15 | the leading white space `parseInt` skips is a prefix of white space, and what remains is the suffix after it |
| JsString.TrimEndPrefix | core/ChatHandler.js:67 | trailing trim keeps a prefix and cuts only white space |
| JsString.SubstringFrom | core/ChatHandler.js:67 | `substring(start)` is what follows the first `start` characters: the cut prefix and the result make up the input again; past the end it is empty |
| JsString.ReplaceAllAbsent | core/ChatHandler.js:15-21 | a global replace of a pattern that does not occur returns the text unchanged |
| JsString.ReplaceFirstAbsent | core/ChatHandler.js:61 | a first-match replace of a pattern that does not occur returns the text unchanged |
| JsString.ReplaceAllSkips | core/ChatHandler.js:16 | a prefix free of the pattern's first character passes through a global replace untouched |
| JsString.ReplaceAllAtStart | core/ChatHandler.js:16 | an occurrence at the very start is replaced and the global replace carries on right after it |
| JsString.ReplaceAllPastToken | core/ChatHandler.js:16-21 | a placeholder of another name is stepped past whole, without a match starting inside it |
| JsString.ReplaceFirstAfter | core/ChatHandler.js:61 | string-pattern `replace` substitutes exactly the first placeholder and keeps the rest as it was |
| JsString.ReplaceFirstAtFirst | core/ChatHandler.js:61 | string-pattern `replace` substitutes the occurrence before which no other occurrence starts, and keeps the rest |
| JsString.ReplaceFirstAtEnd | commands/gptmode.js:38 | a placeholder at the end of a brace-free prefix is the one replaced |
| JsString.NatToString | core/ProxyValidator.js:32 | `String(n)` of a natural is non-empty, all decimal digits, with no leading zero |
| JsString.DigitChar | core/ChatHandler.js:61 | a digit's character is a decimal digit of that value |
| JsString.LeadingDigits | core/ProxyValidator.js:15 | `parseInt` reads the longest prefix of digits of the radix, and the next character is no digit |
| JsString.DecimalRoundTrip | core/ProxyValidator.js:15 | the digits of `String(n)` read back as `n`, and all of them are taken |
| JsString.LeadingDigitsAll | core/ProxyValidator.js:15 | a digit-only string is read whole |
| JsString.IntStringRoundTrip | core/ProxyValidator.js:15 | `parseInt(String(n)) == n` for every integer, negatives included |
| JsString.ParseInt | core/ProxyValidator.js:15 | `parseInt` of blank text or of text starting with neither a digit nor a sign is `NaN`; a negative result comes only after a leading `-` |
| JsString.ParseUnsigned | core/ProxyValidator.js:15 | after the sign, a result is never negative, and text not starting with a decimal digit is `NaN` |
| TextUtils.Strip | utils/textUtils.js:3-4 | a global character-class removal never lengthens and leaves no character of the class |
| TextUtils.StripAppend | utils/textUtils.js:3-4 | removal distributes over concatenation |
| TextUtils.StripKeeps | utils/textUtils.js:3-4 | a property shared by all input characters holds of all output characters |
| TextUtils.StripNone | utils/textUtils.js:3-4 | a text with nothing to remove is kept whole |
| TextUtils.StripAll | utils/textUtils.js:5 | a text made only of removed characters disappears |
| TextUtils.StripThree | utils/textUtils.js:3-5 | removing emoji, then CJK, then white space leaves exactly the kept characters |
| TextUtils.Collapse | utils/textUtils.js:5 | `/\s+/g` to `' '` yields only single plain spaces, never two in a row, and keeps emptiness and a leading white space |
| TextUtils.CollapseKeeps | utils/textUtils.js:5 | collapsing introduces no character but a space |
| TextUtils.CollapseNonWs | utils/textUtils.js:5 | collapsing keeps every non-white-space character, in order |
| TextUtils.CollapseFixed | utils/textUtils.js:5 | a collapsed text is a fixed point of collapsing |
| TextUtils.CollapseRun | utils/textUtils.js:5 | a run of white space between two parts that do not touch it with white space becomes exactly one space, and each part is collapsed on its own |
| TextUtils.TrimNonWs | utils/textUtils.js:5 | trimming removes white space only |
| TextUtils.FilteredNoRemoved | utils/textUtils.js:3-5 | after both removals and the collapse no removed character is left |
| TextUtils.TrimSanitizes | utils/textUtils.js:5 | trimming a collapsed, filtered text gives a sanitised text |
| TextUtils.Clean | utils/textUtils.js:3-5 | the output is sanitised (no removed class, no edge white space, single spaces) and its non-white-space characters are exactly the kept ones, in order |
| TextUtils.CleanFixed | utils/textUtils.js:3-5 | a sanitised text passes through unchanged |
| TextUtils.CleanIdempotent | utils/textUtils.js:3-5 | sanitising twice equals sanitising once |
| TextUtils.CleanJoin | utils/textUtils.js:3-5 | two sanitised texts with any run of white space between them come out joined by exactly one space |
| TextUtils.CleanTwoWords | utils/textUtils.js:3-5 | two kept characters separated by white space come out as those characters with one space between |
| TextUtils.ClearBadSymbols | utils/textUtils.js:1-6 | a non-string is returned as it is; a string comes back sanitised with exactly its kept characters |
| ProxyValidator.PortNumberParses | core/ProxyValidator.js:15 | a numeric port parses to itself |
| ProxyValidator.FalsyPortOutOfRange | core/ProxyValidator.js:11-16 | a falsy port never passes the range check |
| ProxyValidator.Validate | core/ProxyValidator.js:2-34 | disabled or missing means valid with "Прокси отключен"; otherwise valid iff the host is given and not blank and the port parses into [1, 65535]; each failing check yields its own message in the code's order; a valid result names `host:port` |
| ProxyValidator.FormatHidesPassword | core/ProxyValidator.js:41-47 | the display string does not depend on the password |
| ProxyValidator.CreateProxyObject | core/ProxyValidator.js:58-77 | null iff disabled; host and port copied; user and pass present exactly when given, with their values |
| ProxyValidator.AuthMatchesObject | core/ProxyValidator.js:50-77 | authentication is needed iff the built object carries both credentials |
| ProxyValidator.ValidObject | core/ProxyValidator.js:2-77 | a descriptor that validates yields an object with a non-blank host and an in-range port |
| Prompts.ModeKeyInjective | core/ChatHandler.js:76 | distinct user keys give distinct `ai:mode:` store keys |
| Prompts.StoredMode | core/ChatHandler.js:77 | a missing or empty record reads as "default"; otherwise the record; never empty |
| Prompts.Template | core/ChatHandler.js:78 | the mode's template, else the "default" template, else the built-in prompt; never empty |
| ChatHandler.FirstMatch | core/ChatHandler.js:38 | `find`: the first trigger that prefixes the message and none before it; none when no trigger does |
| ChatHandler.MatchedTriggerFacts | core/ChatHandler.js:35-39 | a match is a non-empty configured trigger prefixing the lowered, trimmed message with no earlier prefix; there is no match iff every prefixing trigger comes at or after an empty word |
| ChatHandler.MatchedTrigger | core/ChatHandler.js:35-39 | a found trigger is non-empty and a prefix of the lowered, trimmed message |
| ChatHandler.PromptText | core/ChatHandler.js:67 | the prompt has no white space at either end, and is either empty or no longer than the message with the trigger's length cut |
| ChatHandler.CeilDiv | core/ChatHandler.js:60 | `Math.ceil(a / b)` is the least q with a <= q * b |
| ChatHandler.CooldownText | core/ChatHandler.js:61 | with no configured message the notice reads "Подождите еще N сек."; a configured message without `{timeLeft}` is sent as it is; for any split of a configured message around a `{timeLeft}` before which no other `{timeLeft}` starts, that one becomes the seconds left and the rest is kept |
| ChatHandler.Gate | core/ChatHandler.js:24-73 | silent iff not admitted (self, chat type, trigger, user, permissions); thinking notice iff admitted and in flight; a cooldown notice carries the ceiling of the remaining seconds, at least 1; a call starts iff admitted, not in flight, not cooling and the prompt is non-empty, with the user key and the cut prompt |
| ChatHandler.CooldownBound | core/ChatHandler.js:54-64 | the reported seconds are between 1 and the whole cooldown in seconds, rounded up |
| ChatHandler.CeilDivMonotonic | core/ChatHandler.js:60 | the ceiling division is monotonic in the dividend |
| ChatHandler.RetriggerWhilePending | core/ChatHandler.js:49-52 | once a call has started, the same event at any later time only gets the thinking notice |
| ChatHandler.RetriggerWithinCooldown | core/ChatHandler.js:54-64 | after a settle stamped at `t`, a trigger within the cooldown gets exactly the cooldown notice for the seconds left |
| ChatHandler.ExampleLowered | core/ChatHandler.js:35 | "Бот привет" lowers and trims to "бот привет" |
| ChatHandler.ExampleTrigger | core/ChatHandler.js:38 | with triggers "бот" and "ai", "Бот привет" matches "бот" |
| ChatHandler.ExamplePrompt | core/ChatHandler.js:67 | the prompt cut from "Бот привет" after "бот" is "привет" |
| ChatHandler.TriggerExample | core/ChatHandler.js:24-73 | an ordinary user writing "Бот привет" starts a call for key "steve" with prompt "привет" |
| ChatHandler.QuirkLowered | core/ChatHandler.js:35 | "  бот привет" lowers and trims to "бот привет" |
| ChatHandler.LeadingSpaceQuirk | core/ChatHandler.js:35-67 | "  бот привет" matches "бот" yet yields the prompt "от привет", because the trigger's length is cut from the raw message |
| ChatHandler.ReplacePlaceholders | core/ChatHandler.js:10-22 | a template with none of the six placeholders is returned unchanged |
| ChatHandler.ReplaceStep | core/ChatHandler.js:15-21 | over a template cut into brace-free text and placeholders, with the earlier placeholders already filled by brace-free values, the n-th global replace fills exactly the holes of the n-th placeholder |
| ChatHandler.ReplacePlaceholdersFills | core/ChatHandler.js:10-22 | a template cut into brace-free text and any of the six placeholders, filled with brace-free values, has each placeholder replaced by its own value and the text kept |
| ChatHandler.SystemPrompt | core/ChatHandler.js:76-79 | the template of the user's mode, returned unchanged when it has no placeholder |
| ChatHandler.SystemPromptFills | core/ChatHandler.js:76-79 | when the template of the user's mode is cut into literal text without '{' and placeholders, and the user name, chat type, time and date hold no '{', the system prompt is that template with every placeholder replaced by its value |
| ModeHandoff.CommandModeReachesHandler | core/ChatHandler.js:76-78 | a mode set by the mode command is the one whose template the handler picks for that user |
| ChatHandler.Truncate | core/ChatHandler.js:91-93 | at most 250 characters; a short text unchanged; a long one keeps its first 247 characters followed by "..." |
| ChatHandler.Reply | core/ChatHandler.js:83-99 | the fixed apology for an error or an empty answer; otherwise the answer, sanitised when the setting asks, then truncated |
| ChatHandler.ErrorLoggedWithApology | core/ChatHandler.js:97-99 | whenever an error is logged the chat gets only the apology |
| ChatHandler.TruncateSanitized | core/ChatHandler.js:91-93 | cutting a sanitised text to 250 characters keeps it sanitised |
| ChatHandler.SanitizedReply | core/ChatHandler.js:88-93 | with the setting on, every non-empty answer is sent sanitised |
| ChatHandler.AddFresh | core/ChatHandler.js:73 | adding a key not in flight adds exactly one outstanding call |
| ChatHandler.Handler.AtMostOneCallPerUser | core/ChatHandler.js:49-73 | no user ever has two AI calls outstanding |
| ChatHandler.Handler.constructor | core/ChatHandler.js:4-8 | both tables start empty |
| ChatHandler.Handler.Begin | core/ChatHandler.js:24-73 | the outcome is `Gate` of the old tables; cooldowns untouched; the user is added to the in-flight set exactly when a call starts |
| ChatHandler.Handler.Settle | core/ChatHandler.js:83-106 | sends `Reply`, logs `ErrorLog`, removes the user from the in-flight set, and stamps the cooldown with `now` unless the user is exempt |
| ChatHandler.TwoRapidTriggers | core/ChatHandler.js:49-106 | a second trigger while the first call is pending gets the thinking notice; the cooldown is stamped once, at settle |
| ChatHandler.CallResult | core/ChatHandler.js:78 | without a prompt table the call fails before the AI is asked; with one, the AI's answer is the result |
| ChatHandler.MissingTableAlwaysApologises | core/ChatHandler.js:78-99 | without a prompt table every started call logs the error and sends the apology |
| ChatHandler.GivenTableAnswers | core/ChatHandler.js:78-95 | with a prompt table a non-empty answer logs nothing and is sent, truncated and sanitised as set |
| GptMode.CurrentModeText | commands/gptmode.js:38 | the report reads "&aВаш режим: &e" and the mode |
| GptMode.ChangedSelfText | commands/gptmode.js:48 | the confirmation reads "&aВаш режим изменён на &e" and the mode |
| GptMode.NoPlayerText | commands/gptmode.js:58 | the notice names the player as written |
| GptMode.TwoPlaceholders | commands/gptmode.js:62 | two chained first-match replaces land each value in its own place when the pieces and the first value hold no '{' |
| GptMode.PlayerModeShape | commands/gptmode.js:62 | the player report names the player and the mode when the name holds no '{' |
| GptMode.PlayerModeChained | commands/gptmode.js:62 | a player name holding `{mode}` receives the mode, and the template's own placeholder stays |
| GptMode.ChangedOtherShape | commands/gptmode.js:109 | the confirmation names the player and the mode when the name holds no '{' |
| GptMode.InvalidModeShape | commands/gptmode.js:71 | the notice names the rejected mode and lists the modes when the name holds no '{' |
| GptMode.NoArgumentReports | commands/gptmode.js:35-41 | no argument reports the invoker's stored mode or "default"; nothing is written, logged or looked up |
| GptMode.OneArgumentMode | commands/gptmode.js:43-51 | one argument naming a mode sets the invoker's mode, confirms and logs, with no lookup |
| GptMode.OneArgumentPlayer | commands/gptmode.js:52-65 | one argument naming no mode is looked up as a player: an unknown other player gets the notice, anyone else's mode is reported, in so many words when the name holds no '{'; nothing is written or logged |
| GptMode.ModeNameOnly | commands/gptmode.js:68-80 | a mode name alone is rejected with the list when unknown; otherwise it sets the invoker's mode with a log line; no lookup |
| GptMode.TwoArgumentsSelf | commands/gptmode.js:84-96 | with the invoker's own name: no lookup, no log, and a write of the invoker's key iff the mode is known |
| GptMode.TwoArgumentsOther | commands/gptmode.js:97-112 | with another player: lookup first, then the mode check, then a write of the target's key with a log line |
| GptMode.Decide | commands/gptmode.js:29-114 | every write stores a mode of the table, under the invoker's key or, for a two-argument change, the target's |
| GptMode.AuditLogCases | commands/gptmode.js:43-112 | a log line is sent iff a write happens, except for the two-argument change of one's own mode |
| GptMode.LookupCases | commands/gptmode.js:52-98 | a player is looked up iff one argument names no mode, or two arguments name someone else |
| GptMode.NoLookupNoDependence | commands/gptmode.js:35-96 | where no lookup happens, its answer does not matter |
| GptMode.OthersUnchanged | commands/gptmode.js:47-108 | a write changes its own key only |
| GptMode.WriteReadsBack | commands/gptmode.js:37-108 | after any write the stored mode under that key reads back as the value written |
| GptMode.PromptsOrDefault | commands/gptmode.js:21 | a missing table becomes the one-entry "default" table; a given one is kept |
| GptMode.ModeCommand.constructor | commands/gptmode.js:19-22 | keeps the store and the prompt table, or its default |
| GptMode.ModeCommand.Handle | commands/gptmode.js:29-114 | message, log line and lookup are those of `Decide` on the old store; the new store is the old one with `Decide`'s write applied |
| GptMode.SetThenShow | commands/gptmode.js:35-51 | setting one's own mode and then asking for it reports that mode |

## Left out

- Strings are sequences of Unicode code points. JavaScript counts UTF-16 code
  units, so a character outside the Basic Multilingual Plane counts 1 here
  and 2 there. This affects `substring`, `length` and the 250 cut.
- `ToLower` maps only ASCII, Latin-1 and basic Cyrillic capitals. Every other
  character is its own lower case. No lower-casing that changes length.
- The emoji and CJK classes are approximated by code-point ranges. The
  regular-expression engine's Unicode property tables are not part of this
  model.
- `replace` treats the replacement literally. `$&`, `$1` and the other `$`
  patterns in a user name, chat type, mode name or number are not
  interpreted.
- The clock and locale rendering are inputs. `Date.now()` is `now`, and
  `toLocaleTimeString` / `toLocaleDateString` are the `time` / `date` strings.
- Asynchrony is modelled only by splitting the handler into `Begin` and
  `Settle`. Other events may run between them (see `TwoRapidTriggers`).
  `Begin` takes the user lookup's answer as an input. The code has no
  `await` between that lookup and `processingUsers.add`, so `Begin` is one
  step.
- `bot.api.sendMessage`, `bot.sendLog` and `console.log` become outputs.
  `bot.api.getUser` and `user.hasPermission` become inputs. `console.log(error)`
  is not modelled.
- `aiClient.chat` and the store read before it are one `AiResult` input. A
  store failure is a `Failed` result. core/AiClientFactory.js and index.js
  are not part of this model.
- ChatHandler.CooldownMs: the cooldown is a whole number of seconds. A
  fractional `config.cooldown` and a non-numeric one are not modelled.
- The handler's `Handler` class always has a prompt table. A missing
  `promptsData` is modelled only by `ChatHandler.CallResult`; see
  "## Findings".
- The prompt table is an own-key map. Prototype keys such as `toString` are
  not looked up.
- The command framework's declarations in commands/gptmode.js:6-18 are
  settings of the host, not executed by the command: permission, cooldown,
  allowed chat types, aliases, argument parsing. `getPrompts` is the field
  `prompts` itself.
- ProxyValidator.Validate: a host that is not a string (for which `trim`
  would throw) is not modelled. Nor are the `isNaN` cases of a numeric port
  beyond integers: a fractional port and `NaN`.
- JsString.IntStringRoundTrip: `String(n)` is modelled with plain digits.
  JavaScript writes integers of 10^21 and more in exponent notation, and
  loses precision above 2^53.
- ProxyValidator.FormatProxyInfo: an empty `user` or `pass` stands for the
  field being absent. A user that is set but empty renders like a missing
  one, as falsy values do in the code.
- GptMode.PlayerModeShape, GptMode.ChangedOtherShape, GptMode.InvalidModeShape:
  stated only for names without '{'. With a '{' the chained `replace` may
  substitute inside the name; `GptMode.PlayerModeChained` shows such a case.
- ChatHandler.ReplacePlaceholdersFills, ChatHandler.SystemPromptFills: stated for literal text without '{'
  and values without '{'. A value that holds a later placeholder is itself
  substituted by the chained replaces; a '{' in the text may join with a
  value into a placeholder.
- GptMode.SelfLog, GptMode.OtherLog: template literals with no contract of
  their own; the branch lemmas state the log line each branch sends.

## Findings

| source | as written | input that shows it | evidently intended | confidence | as-written member | corrected member |
|---|---|---|---|---|---|---|
| index.js:39 | the handler is created as `createChatHandler(bot, settings, config, aiClient)`, without `store` and `promptsData`, so core/ChatHandler.js:78 reads a property of `undefined` and throws | any message that starts a call | pass the prompt table (and the store) so the AI is asked | not executed | ChatHandler.MissingTableAlwaysApologises | ChatHandler.GivenTableAnswers |
