/** The chat handler of core/ChatHandler.js: the gate every chat event goes
    through before the bot asks the model, the bookkeeping done when the
    model's answer (or failure) comes back, the system prompt built from the
    user's mode, and the shaping of the answer.

    The handler closure awaits between these steps, and other events are
    handled meanwhile. The model splits it at those points: `Begin` is the
    part from the event up to marking the user in flight (the user lookup it
    awaits is an input), `SystemPrompt` is what the awaited store read
    feeds, and `Settle` is the `finally` block once the AI call is over. No
    `await` separates the in-flight check from the in-flight mark, so
    `Begin` runs them as one step. */
module ChatHandler {
  import opened Wrappers
  import opened JsString
  import opened Constants
  import opened Prompts
  import TextUtils

  // ---------------------------------------------------------------------
  // Inputs and configuration
  // ---------------------------------------------------------------------

  /** One `chat:message` event. */
  datatype ChatEvent = ChatEvent(username: string, message: string, chatType: string)

  /** The two permissions of a resolved user that the handler asks about:
      `user.ai` and `user.ainocd`. */
  datatype User = User(hasAi: bool, hasNoCooldown: bool)

  /** The plugin settings the handler reads. An empty `cooldownMessage`
      stands for the setting being absent. */
  datatype Settings = Settings(
    allowedChatTypes: Option<seq<string>>,
    thinkingMessage: string,
    cooldownMessage: string,
    noPromptMessage: string,
    clearBadSymbols: bool)

  /** The AI provider configuration the handler reads: the trigger words
      (an absent list is the empty one) and the cooldown in seconds. */
  datatype AiConfig = AiConfig(triggerWords: seq<string>, cooldown: Option<int>)

  const DEFAULT_CHAT_TYPES: seq<string> := ["clan", "chat"]
  /** "Подождите еще {timeLeft} сек.", written around its placeholder. */
  const DEFAULT_COOLDOWN_MESSAGE: string := "Подождите еще " + "{timeLeft}" + " сек."
  const APOLOGY: string := "Извините, у меня возникли технические неполадки."
  const MAX_REPLY: nat := 250

  /** `settings.allowedChatTypes || ['clan', 'chat']`. */
  function AllowedChatTypes(s: Settings): seq<string> {
    s.allowedChatTypes.GetOr(DEFAULT_CHAT_TYPES)
  }

  /** The trigger words lowered once, in configured order. */
  function Triggers(c: AiConfig): (ts: seq<string>)
    ensures |ts| == |c.triggerWords|
    ensures forall i :: 0 <= i < |ts| ==> ts[i] == ToLower(c.triggerWords[i])
  {
    seq(|c.triggerWords|, i requires 0 <= i < |c.triggerWords| => ToLower(c.triggerWords[i]))
  }

  /** `(config.cooldown || 10) * 1000`: an absent or zero cooldown is ten
      seconds. */
  function CooldownMs(c: AiConfig): (d: int)
    ensures c.cooldown.None? || c.cooldown.value == 0 ==> d == 10000
    ensures c.cooldown.Some? && c.cooldown.value != 0 ==> d == c.cooldown.value * 1000
  {
    (if c.cooldown.None? || c.cooldown.value == 0 then 10 else c.cooldown.value) * 1000
  }

  /** The lowered user name that keys the cooldown and in-flight tables. */
  function UserKey(username: string): string {
    ToLower(username)
  }

  // ---------------------------------------------------------------------
  // Trigger matching
  // ---------------------------------------------------------------------

  /** `triggers.find(t => m.startsWith(t))`, as an index: the first trigger,
      in order, that is a prefix of `m`. */
  function FirstMatch(ts: seq<string>, m: string): (r: Option<nat>)
    ensures r.Some? ==> r.value < |ts| && ts[r.value] <= m
    ensures r.Some? ==> forall j :: 0 <= j < r.value ==> !(ts[j] <= m)
    ensures r.None? ==> forall j :: 0 <= j < |ts| ==> !(ts[j] <= m)
    decreases |ts|
  {
    if ts == [] then None
    else if ts[0] <= m then Some(0)
    else match FirstMatch(ts[1..], m)
      case None => None
      case Some(i) => Some(i + 1)
  }

  /** The trigger the handler goes on with: the first lowered trigger that
      prefixes the lowered, trimmed message, unless it is the empty word,
      which is falsy and so treated as no match. */
  function MatchedTrigger(c: AiConfig, message: string): (r: Option<string>)
    ensures r.Some? ==> r.value != "" && r.value <= Trim(ToLower(message))
  {
    var ts := Triggers(c);
    match FirstMatch(ts, Trim(ToLower(message)))
    case None => None
    case Some(i) => if ts[i] == "" then None else Some(ts[i])
  }

  /** A matched trigger is a non-empty configured trigger (lowered) that
      prefixes the lowered, trimmed message, and no trigger before it does.
      There is no match exactly when every trigger that prefixes the
      message comes after (or is) an empty word, which prefixes everything. */
  lemma MatchedTriggerFacts(c: AiConfig, message: string)
    ensures var r := MatchedTrigger(c, message);
            r.Some? ==> && r.value != ""
                        && r.value <= Trim(ToLower(message))
                        && exists i :: 0 <= i < |Triggers(c)| && Triggers(c)[i] == r.value
                                       && forall j :: 0 <= j < i ==> !(Triggers(c)[j] <= Trim(ToLower(message)))
    ensures var r := MatchedTrigger(c, message);
            r.None? <==> forall j :: 0 <= j < |Triggers(c)| && Triggers(c)[j] <= Trim(ToLower(message))
                                     ==> exists k :: 0 <= k <= j && Triggers(c)[k] == ""
  {
    var ts := Triggers(c);
    var m := Trim(ToLower(message));
    match FirstMatch(ts, m)
    case None =>
    case Some(i) =>
      if ts[i] != "" {
        assert ts[i] <= m;
        forall k | 0 <= k <= i
          ensures ts[k] != ""
        {
          if k < i {
            assert !(ts[k] <= m);
          }
        }
      } else {
        forall j | 0 <= j < |ts| && ts[j] <= m
          ensures exists k :: 0 <= k <= j && ts[k] == ""
        {
          assert i <= j;
        }
      }
  }

  /** `message.substring(trigger.length).trim()`: the trigger's length is
      cut from the message as received, not from the lowered and trimmed
      text the trigger was matched against. */
  function PromptText(message: string, trigger: string): (r: string)
    ensures NoEdgeWs(r)
    ensures |r| + |trigger| <= |message| || r == ""
  {
    Trim(SubstringFrom(message, |trigger|))
  }

  // ---------------------------------------------------------------------
  // Cooldown
  // ---------------------------------------------------------------------

  /** `Math.ceil(a / b)` for a positive divisor. */
  function CeilDiv(a: int, b: int): (q: int)
    requires b > 0
    ensures (q - 1) * b < a <= q * b
  {
    -((-a) / b)
  }

  /** `cooldowns.get(key) || 0`. */
  function LastUsed(cooldowns: map<string, int>, key: string): int {
    if key in cooldowns then cooldowns[key] else 0
  }

  /** The cooldown notice: the configured or built-in template with its
      first `{timeLeft}` replaced by the seconds left. With the built-in
      template it reads "Подождите еще N сек."; a configured message without
      the placeholder is sent as it is. */
  function CooldownText(s: Settings, secondsLeft: int): (r: string)
    ensures s.cooldownMessage == "" ==> r == "Подождите еще " + IntToString(secondsLeft) + " сек."
    ensures s.cooldownMessage != "" && !Contains(s.cooldownMessage, "{timeLeft}") ==> r == s.cooldownMessage
    ensures forall a, b :: s.cooldownMessage == a + "{timeLeft}" + b
                && (forall i :: 0 <= i < |a| ==> !OccursAt(s.cooldownMessage, "{timeLeft}", i))
              ==> r == a + IntToString(secondsLeft) + b
  {
    var template := if s.cooldownMessage != "" then s.cooldownMessage else DEFAULT_COOLDOWN_MESSAGE;
    DefaultCooldownTemplate(IntToString(secondsLeft));
    ReplaceFirstAbsentCase(template, "{timeLeft}", IntToString(secondsLeft));
    ReplaceFirstEverySplit(template, "{timeLeft}", IntToString(secondsLeft));
    ReplaceFirst(template, "{timeLeft}", IntToString(secondsLeft))
  }

  /** However a text is split around an occurrence of the pattern, when no
      occurrence starts before it that occurrence is the one replaced. */
  lemma ReplaceFirstEverySplit(t: string, pat: string, rep: string)
    requires pat != []
    ensures forall a, b :: t == a + pat + b && (forall i :: 0 <= i < |a| ==> !OccursAt(t, pat, i))
              ==> ReplaceFirst(t, pat, rep) == a + rep + b
  {
    forall a, b | t == a + pat + b && (forall i :: 0 <= i < |a| ==> !OccursAt(t, pat, i))
      ensures ReplaceFirst(t, pat, rep) == a + rep + b
    {
      ReplaceFirstAtFirst(a, pat, rep, b);
    }
  }

  lemma DefaultCooldownTemplate(n: string)
    ensures ReplaceFirst(DEFAULT_COOLDOWN_MESSAGE, "{timeLeft}", n) == "Подождите еще " + n + " сек."
  {
    ReplaceFirstAfter("Подождите еще ", "{timeLeft}", n, " сек.");
  }

  lemma ReplaceFirstAbsentCase(s: string, pat: string, rep: string)
    requires pat != []
    ensures !Contains(s, pat) ==> ReplaceFirst(s, pat, rep) == s
  {
    if !Contains(s, pat) {
      ReplaceFirstAbsent(s, pat, rep);
    }
  }

  // ---------------------------------------------------------------------
  // The gate
  // ---------------------------------------------------------------------

  /** What an event leads to before any AI call. */
  datatype Outcome =
    | Ignored                                   // nothing is sent
    | Thinking(notice: string)                  // the user already waits for an answer
    | Cooling(notice: string, secondsLeft: int) // the user's cooldown is running
    | NoPrompt(notice: string)                  // only the trigger was written
    | Started(key: string, prompt: string)      // the AI call may go ahead

  /** The event is the bot's own message (user names compared in lower case). */
  predicate IsSelf(botName: string, e: ChatEvent) {
    ToLower(e.username) == ToLower(botName)
  }

  /** The checks that end the handler silently all pass: not the bot
      itself, an allowed chat type, a trigger matched, a resolved user with
      `user.ai` or `user.ainocd`. */
  predicate Admitted(botName: string, s: Settings, c: AiConfig, e: ChatEvent, user: Option<User>) {
    && !IsSelf(botName, e)
    && e.chatType in AllowedChatTypes(s)
    && MatchedTrigger(c, e.message).Some?
    && user.Some?
    && (user.value.hasAi || user.value.hasNoCooldown)
  }

  /** The user is subject to the cooldown and it has not run out. */
  predicate InCooldown(c: AiConfig, cooldowns: map<string, int>, key: string, user: User, now: int) {
    !user.hasNoCooldown && now - LastUsed(cooldowns, key) < CooldownMs(c)
  }

  /** The handler from the event up to marking the user in flight, as a
      function of the event, the user lookup's answer, the clock and the two
      tables. It sends nothing for an event that is not admitted; a user
      already in flight gets the thinking notice whatever else holds; a
      cooldown notice carries the whole seconds left, at least one; and a
      call starts only for an admitted user who is not in flight, not in
      cooldown and wrote a non-empty prompt. */
  function Gate(botName: string, s: Settings, c: AiConfig, cooldowns: map<string, int>, processing: set<string>,
                e: ChatEvent, user: Option<User>, now: int): (r: Outcome)
    ensures !Admitted(botName, s, c, e, user) <==> r == Ignored
    ensures Admitted(botName, s, c, e, user) && UserKey(e.username) in processing
            ==> r == Thinking(s.thinkingMessage)
    ensures r.Thinking? ==> UserKey(e.username) in processing
    ensures r.Cooling? ==>
              && UserKey(e.username) !in processing
              && InCooldown(c, cooldowns, UserKey(e.username), user.value, now)
              && r.secondsLeft == CeilDiv(CooldownMs(c) - (now - LastUsed(cooldowns, UserKey(e.username))), 1000)
              && r.secondsLeft >= 1
              && r.notice == CooldownText(s, r.secondsLeft)
    ensures (&& Admitted(botName, s, c, e, user) && UserKey(e.username) !in processing
             && InCooldown(c, cooldowns, UserKey(e.username), user.value, now)) ==> r.Cooling?
    ensures r.NoPrompt? ==>
              && r.notice == s.noPromptMessage
              && UserKey(e.username) !in processing
              && !InCooldown(c, cooldowns, UserKey(e.username), user.value, now)
              && PromptText(e.message, MatchedTrigger(c, e.message).value) == ""
    ensures r.Started? ==>
              && Admitted(botName, s, c, e, user)
              && r.key == UserKey(e.username)
              && r.key !in processing
              && !InCooldown(c, cooldowns, r.key, user.value, now)
              && r.prompt == PromptText(e.message, MatchedTrigger(c, e.message).value)
              && r.prompt != ""
    ensures Admitted(botName, s, c, e, user) && UserKey(e.username) !in processing
            && !InCooldown(c, cooldowns, UserKey(e.username), user.value, now)
            ==> (r.Started? <==> PromptText(e.message, MatchedTrigger(c, e.message).value) != "")
  {
    var key := UserKey(e.username);
    if IsSelf(botName, e) then Ignored
    else if e.chatType !in AllowedChatTypes(s) then Ignored
    else
      var trigger := MatchedTrigger(c, e.message);
      if trigger.None? then Ignored
      else if user.None? then Ignored
      else if !user.value.hasAi && !user.value.hasNoCooldown then Ignored
      else if key in processing then Thinking(s.thinkingMessage)
      else if InCooldown(c, cooldowns, key, user.value, now) then
        var left := CeilDiv(CooldownMs(c) - (now - LastUsed(cooldowns, key)), 1000);
        Cooling(CooldownText(s, left), left)
      else
        var prompt := PromptText(e.message, trigger.value);
        if prompt == "" then NoPrompt(s.noPromptMessage) else Started(key, prompt)
  }

  /** The seconds a cooldown notice reports are at most the whole cooldown
      in seconds, rounded up, as long as the clock has not gone back since
      the last use. */
  lemma CooldownBound(botName: string, s: Settings, c: AiConfig, cooldowns: map<string, int>,
                      processing: set<string>, e: ChatEvent, user: Option<User>, now: int)
    requires Gate(botName, s, c, cooldowns, processing, e, user, now).Cooling?
    requires now >= LastUsed(cooldowns, UserKey(e.username))
    ensures 1 <= Gate(botName, s, c, cooldowns, processing, e, user, now).secondsLeft <= CeilDiv(CooldownMs(c), 1000)
  {
    var r := Gate(botName, s, c, cooldowns, processing, e, user, now);
    var d := CooldownMs(c);
    var x := d - (now - LastUsed(cooldowns, UserKey(e.username)));
    CeilDivMonotonic(x, d, 1000);
  }

  lemma CeilDivMonotonic(a: int, b: int, d: int)
    requires d > 0 && a <= b
    ensures CeilDiv(a, d) <= CeilDiv(b, d)
  {
    var qa, qb := CeilDiv(a, d), CeilDiv(b, d);
    if qa > qb {
      assert (qa - 1) * d >= qb * d by {
        assert qa - 1 >= qb;
        MulMonotonic(qb, qa - 1, d);
      }
    }
  }

  lemma MulMonotonic(x: int, y: int, d: int)
    requires x <= y && d > 0
    ensures x * d <= y * d
  {
  }

  /** While a call is outstanding, the same event again (at any time, with
      any cooldowns) only yields the thinking notice: no second call can
      start for that user. */
  lemma RetriggerWhilePending(botName: string, s: Settings, c: AiConfig, cooldowns: map<string, int>,
                              processing: set<string>, e: ChatEvent, user: Option<User>, now: int,
                              laterCooldowns: map<string, int>, later: int)
    requires Gate(botName, s, c, cooldowns, processing, e, user, now).Started?
    ensures Gate(botName, s, c, laterCooldowns,
                 processing + {Gate(botName, s, c, cooldowns, processing, e, user, now).key},
                 e, user, later) == Thinking(s.thinkingMessage)
  {
  }

  /** Once a non-exempt user's call has settled at time `t`, a new trigger
      within the cooldown gets the cooldown notice with the ceiling of the
      remaining milliseconds over 1000, and no call. */
  lemma RetriggerWithinCooldown(botName: string, s: Settings, c: AiConfig, cooldowns: map<string, int>,
                                processing: set<string>, e: ChatEvent, user: Option<User>, t: int, now: int)
    requires Admitted(botName, s, c, e, user) && !user.value.hasNoCooldown
    requires UserKey(e.username) !in processing
    requires now - t < CooldownMs(c)
    ensures Gate(botName, s, c, cooldowns[UserKey(e.username) := t], processing, e, user, now)
            == Cooling(CooldownText(s, CeilDiv(CooldownMs(c) - (now - t), 1000)), CeilDiv(CooldownMs(c) - (now - t), 1000))
  {
  }

  /** "Бот привет" lowered is "бот привет", which has nothing to trim. */
  lemma ExampleLowered()
    ensures Trim(ToLower("Бот привет")) == "бот привет"
  {
    var m := "Бот привет";
    var l := "бот привет";
    forall i | 0 <= i < |m| ensures ToLower(m)[i] == l[i] {
    }
    assert l[0] == 'б' && l[|l| - 1] == 'т';
    assert NoEdgeWs(l);
  }

  /** "Бот привет" with the triggers "бот" and "ai" matches "бот". */
  lemma ExampleTrigger()
    ensures MatchedTrigger(AiConfig(["бот", "ai"], None), "Бот привет") == Some("бот")
  {
    var w := "бот";
    var l := "бот привет";
    ExampleLowered();
    assert ToLower(w) == w;
    assert ToLower("ai") == "ai";
    assert Triggers(AiConfig([w, "ai"], None)) == [w, "ai"];
    assert l[..3] == w;
    assert FirstMatch([w, "ai"], l) == Some(0);
  }

  /** The prompt cut from "Бот привет" after the trigger "бот" is "привет". */
  lemma ExamplePrompt()
    ensures PromptText("Бот привет", "бот") == "привет"
  {
    ExampleCut();
    ExampleRestTrimmed();
  }

  lemma ExampleCut()
    ensures SubstringFrom("Бот привет", 3) == " привет"
  {
    assert "Бот привет"[3..] == " привет";
  }

  lemma ExampleRestTrimmed()
    ensures Trim(" привет") == "привет"
  {
    var rest := " привет";
    var p := "привет";
    assert rest[1..] == p;
    TrimStartStep(rest);
    TrimStartStop(p);
    assert TrimEnd(p) == p;
  }

  /** With triggers "бот" and "ai", the message "Бот привет" from an
      ordinary user starts a call with the prompt "привет". */
  lemma TriggerExample(botName: string, s: Settings, cooldowns: map<string, int>, processing: set<string>, now: int)
    requires !IsSelf(botName, ChatEvent("Steve", "Бот привет", "chat"))
    requires "chat" in AllowedChatTypes(s)
    requires "steve" !in processing && "steve" !in cooldowns && now >= 10000
    ensures Gate(botName, s, AiConfig(["бот", "ai"], None), cooldowns, processing,
                 ChatEvent("Steve", "Бот привет", "chat"), Some(User(true, false)), now)
            == Started("steve", "привет")
  {
    ExampleTrigger();
    ExamplePrompt();
    assert ToLower("Steve") == "steve";
  }

  /** "  бот привет" is already lower case; trimmed it is "бот привет". */
  lemma QuirkLowered()
    ensures Trim(ToLower("  бот привет")) == "бот привет"
  {
    QuirkLowerCase();
    QuirkTrimmed();
  }

  lemma QuirkLowerCase()
    ensures ToLower("  бот привет") == "  бот привет"
  {
    var m := "  бот привет";
    forall i | 0 <= i < |m| ensures ToLower(m)[i] == m[i] {
    }
  }

  lemma QuirkTrimmed()
    ensures Trim("  бот привет") == "бот привет"
  {
    var m := "  бот привет";
    var m1 := " бот привет";
    var l := "бот привет";
    assert m[1..] == m1;
    assert m1[1..] == l;
    TrimStartStep(m);
    TrimStartStep(m1);
    TrimStartStop(l);
    assert TrimEnd(l) == l;
  }

  /** The trigger's length is cut from the message as received: with
      leading spaces, "  бот привет" matches "бот" but yields the prompt
      "от привет". */
  lemma LeadingSpaceQuirk()
    ensures MatchedTrigger(AiConfig(["бот"], None), "  бот привет") == Some("бот")
    ensures PromptText("  бот привет", "бот") == "от привет"
  {
    var m := "  бот привет";
    var w := "бот";
    var l := "бот привет";
    QuirkLowered();
    assert ToLower(w) == w;
    assert Triggers(AiConfig([w], None)) == [w];
    assert l[..3] == w;
    assert FirstMatch([w], l) == Some(0);
    var p := "от привет";
    assert SubstringFrom(m, 3) == p by {
      assert m[3..] == p;
    }
    assert p[0] == 'о' && p[|p| - 1] == 'т';
    assert NoEdgeWs(p);
  }

  // ---------------------------------------------------------------------
  // System prompt
  // ---------------------------------------------------------------------

  /** The six placeholders, in the order they are replaced. */
  const PH_USERNAME: string := "{username}"
  const PH_USER: string := "{user}"
  const PH_CHAT_TYPE: string := "{chatType}"
  const PH_TIME: string := "{time}"
  const PH_DATE: string := "{date}"
  const PH_DATETIME: string := "{datetime}"
  const PLACEHOLDERS: seq<string> := [PH_USERNAME, PH_USER, PH_CHAT_TYPE, PH_TIME, PH_DATE, PH_DATETIME]

  /** The values the placeholders are replaced by, in the same order. */
  function PlaceholderValues(username: string, chatType: string, time: string, date: string): (vs: seq<string>)
    ensures |vs| == |PLACEHOLDERS|
  {
    [username, username, chatType, time, date, date + " " + time]
  }

  /** The template holds none of the six placeholders. */
  predicate PlaceholderFree(template: string) {
    forall p :: p in PLACEHOLDERS ==> !Contains(template, p)
  }

  /** `replacePlaceholders`: every `{username}` and `{user}` becomes the
      user name, `{chatType}` the chat type, `{time}` and `{date}` the
      rendered clock, `{datetime}` both separated by a space, one pattern
      after the other. A template holding no placeholder comes back as it
      is. */
  function ReplacePlaceholders(template: string, username: string, chatType: string, time: string, date: string)
    : (r: string)
    ensures PlaceholderFree(template) ==> r == template
  {
    var vs := PlaceholderValues(username, chatType, time, date);
    var a := ReplaceAll(template, PH_USERNAME, vs[0]);
    var b := ReplaceAll(a, PH_USER, vs[1]);
    var c := ReplaceAll(b, PH_CHAT_TYPE, vs[2]);
    var d := ReplaceAll(c, PH_TIME, vs[3]);
    var e := ReplaceAll(d, PH_DATE, vs[4]);
    ReplaceAllAbsentCase(template, PH_USERNAME, vs[0]);
    ReplaceAllAbsentCase(a, PH_USER, vs[1]);
    ReplaceAllAbsentCase(b, PH_CHAT_TYPE, vs[2]);
    ReplaceAllAbsentCase(c, PH_TIME, vs[3]);
    ReplaceAllAbsentCase(d, PH_DATE, vs[4]);
    ReplaceAllAbsentCase(e, PH_DATETIME, vs[5]);
    ReplaceAll(e, PH_DATETIME, vs[5])
  }

  lemma ReplaceAllAbsentCase(s: string, pat: string, rep: string)
    requires pat != []
    ensures !Contains(s, pat) ==> ReplaceAll(s, pat, rep) == s
  {
    if !Contains(s, pat) {
      ReplaceAllAbsent(s, pat, rep);
    }
  }

  /** A template cut into pieces: literal text, or the placeholder with
      the given index. */
  datatype Piece = Lit(text: string) | Hole(index: nat)

  /** Literal text without '{', and only the six placeholders. */
  predicate WellCut(ps: seq<Piece>) {
    forall i :: 0 <= i < |ps| ==> (ps[i].Lit? ==> '{' !in ps[i].text) && (ps[i].Hole? ==> ps[i].index < |PLACEHOLDERS|)
  }

  /** One piece once the first `n` placeholders are replaced by `vs`. */
  function PieceText(p: Piece, vs: seq<string>, n: nat): string {
    match p
    case Lit(t) => t
    case Hole(k) =>
      if k < n && k < |vs| then vs[k] else if k < |PLACEHOLDERS| then PLACEHOLDERS[k] else ""
  }

  /** The pieces once the first `n` placeholders are replaced by `vs`. */
  function Render(ps: seq<Piece>, vs: seq<string>, n: nat): string
    decreases |ps|
  {
    if ps == [] then "" else PieceText(ps[0], vs, n) + Render(ps[1..], vs, n)
  }

  /** The template the pieces spell, every placeholder written out. */
  function Source(ps: seq<Piece>): string {
    Render(ps, [], 0)
  }

  /** The pieces with every placeholder replaced by its value. */
  function Filled(ps: seq<Piece>, vs: seq<string>): string {
    Render(ps, vs, |PLACEHOLDERS|)
  }

  /** With no placeholder replaced yet, the values do not matter. */
  lemma {:induction false} RenderNone(ps: seq<Piece>, vs: seq<string>)
    ensures Render(ps, vs, 0) == Source(ps)
    decreases |ps|
  {
    if ps != [] {
      RenderNone(ps[1..], vs);
    }
  }

  /** Each placeholder opens with its only '{' and closes with its only
      '}', and no two of them are prefixes of each other. */
  lemma PlaceholderShape(k: nat)
    requires k < |PLACEHOLDERS|
    ensures PLACEHOLDERS[k] != [] && PLACEHOLDERS[k][0] == '{' && '{' !in PLACEHOLDERS[k][1..]
  {
    var p := PLACEHOLDERS[k];
    assert p[0] == '{';
    forall i | 1 <= i < |p| ensures p[i] != '{' {
    }
    assert forall c :: c in p[1..] ==> exists i :: 1 <= i < |p| && p[i] == c;
  }

  lemma PlaceholdersApart(n: nat, k: nat)
    requires n < k < |PLACEHOLDERS|
    ensures !(PLACEHOLDERS[n] <= PLACEHOLDERS[k]) && !(PLACEHOLDERS[k] <= PLACEHOLDERS[n])
  {
    var a, b := PLACEHOLDERS[n], PLACEHOLDERS[k];
    if |a| == |b| {
      assert a[1] != b[1];
    } else if |a| < |b| {
      assert a[|a| - 1] == '}' && b[|a| - 1] != '}';
    } else {
      assert b[|b| - 1] == '}' && a[|b| - 1] != '}';
    }
  }

  /** Replacing the placeholder `n` everywhere, once those before it are
      replaced by values without '{', replaces exactly its own holes. */
  lemma {:induction false} ReplaceStep(ps: seq<Piece>, vs: seq<string>, n: nat)
    requires WellCut(ps)
    requires n < |PLACEHOLDERS| == |vs|
    requires forall j :: 0 <= j < n ==> '{' !in vs[j]
    ensures ReplaceAll(Render(ps, vs, n), PLACEHOLDERS[n], vs[n]) == Render(ps, vs, n + 1)
    decreases |ps|
  {
    var pat := PLACEHOLDERS[n];
    PlaceholderShape(n);
    if ps != [] {
      var rest := Render(ps[1..], vs, n);
      assert WellCut(ps[1..]) by {
        forall i | 0 <= i < |ps[1..]| ensures ps[1..][i] == ps[i + 1] {
        }
      }
      ReplaceStep(ps[1..], vs, n);
      var h := PieceText(ps[0], vs, n);
      assert Render(ps, vs, n) == h + rest;
      match ps[0]
      case Lit(t) =>
        ReplaceAllSkips(t, rest, pat, vs[n]);
      case Hole(k) =>
        if k < n {
          ReplaceAllSkips(vs[k], rest, pat, vs[n]);
        } else if k == n {
          ReplaceAllAtStart(pat, rest, vs[n]);
        } else {
          PlaceholderShape(k);
          PlaceholdersApart(n, k);
          ReplaceAllPastToken(PLACEHOLDERS[k], rest, pat, vs[n]);
        }
    }
  }

  /** The first three replaces, `{username}`, `{user}` and `{chatType}`. */
  lemma FillsFirstThree(ps: seq<Piece>, vs: seq<string>)
    requires WellCut(ps) && |vs| == |PLACEHOLDERS|
    requires forall j :: 0 <= j < |vs| ==> '{' !in vs[j]
    ensures ReplaceAll(ReplaceAll(ReplaceAll(Render(ps, vs, 0), PH_USERNAME, vs[0]), PH_USER, vs[1]), PH_CHAT_TYPE, vs[2])
            == Render(ps, vs, 3)
  {
    ReplaceStep(ps, vs, 0);
    assert ReplaceAll(Render(ps, vs, 0), PH_USERNAME, vs[0]) == Render(ps, vs, 1);
    ReplaceStep(ps, vs, 1);
    assert ReplaceAll(Render(ps, vs, 1), PH_USER, vs[1]) == Render(ps, vs, 2);
    ReplaceStep(ps, vs, 2);
  }

  /** The last three replaces, `{time}`, `{date}` and `{datetime}`. */
  lemma FillsLastThree(ps: seq<Piece>, vs: seq<string>)
    requires WellCut(ps) && |vs| == |PLACEHOLDERS|
    requires forall j :: 0 <= j < |vs| ==> '{' !in vs[j]
    ensures ReplaceAll(ReplaceAll(ReplaceAll(Render(ps, vs, 3), PH_TIME, vs[3]), PH_DATE, vs[4]), PH_DATETIME, vs[5])
            == Filled(ps, vs)
  {
    ReplaceStep(ps, vs, 3);
    ReplaceStep(ps, vs, 4);
    ReplaceStep(ps, vs, 5);
  }

  /** Every occurrence of all six placeholders is replaced by its value,
      for a template whose literal text holds no '{' and values that hold
      none either. */
  lemma ReplacePlaceholdersFills(ps: seq<Piece>, username: string, chatType: string, time: string, date: string)
    requires WellCut(ps)
    requires '{' !in username && '{' !in chatType && '{' !in time && '{' !in date
    ensures ReplacePlaceholders(Source(ps), username, chatType, time, date)
            == Filled(ps, PlaceholderValues(username, chatType, time, date))
  {
    var vs := PlaceholderValues(username, chatType, time, date);
    assert '{' !in date + " " + time;
    RenderNone(ps, vs);
    FillsFirstThree(ps, vs);
    FillsLastThree(ps, vs);
  }

  /** The mode the handler uses: the stored one, or "default" when there is
      no record or no store at all. */
  function HandlerMode(store: Option<map<string, string>>, key: string): (mode: string)
    ensures store.None? ==> mode == "default"
    ensures store.Some? ==> mode == StoredMode(store.value, ModeKey(key))
  {
    if store.Some? then StoredMode(store.value, ModeKey(key)) else "default"
  }

  /** The system prompt for a started call: the template of the user's
      mode (falling back to "default", then to the built-in prompt) with
      its placeholders filled in. */
  function SystemPrompt(prompts: PromptTable, store: Option<map<string, string>>, key: string,
                        e: ChatEvent, time: string, date: string): (r: string)
    ensures PlaceholderFree(Template(prompts, HandlerMode(store, key))) ==> r == Template(prompts, HandlerMode(store, key))
  {
    ReplacePlaceholders(Template(prompts, HandlerMode(store, key)), e.username, e.chatType, time, date)
  }

  /** The system prompt of a mode whose template is cut into well-formed
      pieces: every placeholder filled with the event's user name and chat
      type and the rendered clock. */
  lemma SystemPromptFills(prompts: PromptTable, store: Option<map<string, string>>, key: string,
                          e: ChatEvent, time: string, date: string, ps: seq<Piece>)
    requires Template(prompts, HandlerMode(store, key)) == Source(ps) && WellCut(ps)
    requires '{' !in e.username && '{' !in e.chatType && '{' !in time && '{' !in date
    ensures SystemPrompt(prompts, store, key, e, time, date)
            == Filled(ps, PlaceholderValues(e.username, e.chatType, time, date))
  {
    ReplacePlaceholdersFills(ps, e.username, e.chatType, time, date);
  }


  // ---------------------------------------------------------------------
  // The answer
  // ---------------------------------------------------------------------

  /** How the AI call ended: with a text (possibly empty), or with an
      error (thrown by the client or by the store read before it). */
  datatype AiResult = Answered(text: string) | Failed(error: string)

  /** `s.length > 250 ? s.substring(0, 247) + '...' : s`. */
  function Truncate(s: string): (r: string)
    ensures |r| <= MAX_REPLY
    ensures |s| <= MAX_REPLY ==> r == s
    ensures |s| > MAX_REPLY ==> |r| == MAX_REPLY && r[..247] == s[..247] && r[247..] == "..."
  {
    if |s| > MAX_REPLY then s[..247] + "..." else s
  }

  /** The chat message a settled call sends: the fixed apology for an
      error or an empty answer, whatever the error says; otherwise the
      answer, sanitised first when the setting asks for it, then cut to 250
      characters. */
  function Reply(s: Settings, result: AiResult): (r: string)
    ensures result.Failed? || result.text == "" ==> r == APOLOGY
    ensures result.Answered? && result.text != "" ==> |r| <= MAX_REPLY
    ensures result.Answered? && result.text != "" && !s.clearBadSymbols ==> r == Truncate(result.text)
    ensures result.Answered? && result.text != "" && s.clearBadSymbols
            ==> r == Truncate(TextUtils.Clean(result.text))
  {
    match result
    case Failed(_) => APOLOGY
    case Answered(text) =>
      if text == "" then APOLOGY
      else
        var shaped := if s.clearBadSymbols then TextUtils.ClearBadSymbols(TextUtils.Str(text)).s else text;
        Truncate(shaped)
  }

  const EMPTY_ANSWER: string := "Получен пустой ответ от AI API."

  /** The log line of a failed call: the error's message after
      "[ai-chat] Ошибка API: ", an empty answer being the error
      "Получен пустой ответ от AI API."; nothing for an answered call. */
  function ErrorLog(result: AiResult): (r: Option<string>)
    ensures r.Some? <==> result.Failed? || result.text == ""
    ensures result.Failed? ==> r == Some("[ai-chat] Ошибка API: " + result.error)
    ensures result.Answered? && result.text == "" ==> r == Some("[ai-chat] Ошибка API: " + EMPTY_ANSWER)
  {
    match result
    case Failed(error) => Some("[ai-chat] Ошибка API: " + error)
    case Answered(text) => if text == "" then Some("[ai-chat] Ошибка API: " + EMPTY_ANSWER) else None
  }

  /** Whenever an error is logged the user gets the fixed apology: the
      error text never reaches the chat. */
  lemma ErrorLoggedWithApology(s: Settings, result: AiResult)
    ensures ErrorLog(result).Some? ==> Reply(s, result) == APOLOGY
  {
  }

  /** Cutting a sanitised text to 250 characters keeps it sanitised: the
      "..." ends it with a character that is neither white space nor of a
      removed class. */
  lemma TruncateSanitized(t: string)
    requires TextUtils.Sanitized(t)
    ensures TextUtils.Sanitized(Truncate(t))
  {
    if |t| > MAX_REPLY {
      var r := Truncate(t);
      assert forall i :: 247 <= i < |r| ==> r[i] == '.';
      assert !TextUtils.Removed('.') && !IsWs('.');
      forall i | 0 <= i < |r|
        ensures !TextUtils.Removed(r[i])
      {
        if i < 247 {
          assert r[i] == t[i];
        }
      }
      forall i | 0 <= i < |r| && IsWs(r[i])
        ensures r[i] == ' ' && (i + 1 < |r| ==> !IsWs(r[i + 1]))
      {
        assert i < 247 && r[i] == t[i];
        if i + 1 < 247 {
          assert r[i + 1] == t[i + 1];
        }
      }
      assert r[0] == t[0];
    }
  }

  /** With the setting on, every answer reaches the chat sanitised,
      whatever its length. */
  lemma SanitizedReply(s: Settings, text: string)
    requires s.clearBadSymbols && text != ""
    ensures TextUtils.Sanitized(Reply(s, Answered(text)))
  {
    TruncateSanitized(TextUtils.Clean(text));
  }

  // ---------------------------------------------------------------------
  // The handler's state
  // ---------------------------------------------------------------------

  /** Adding a key not yet in a set adds exactly one occurrence. */
  lemma AddFresh(s: set<string>, k: string)
    requires k !in s
    ensures multiset(s + {k}) == multiset(s) + multiset{k}
  {
  }

  /** The closure `createChatHandler` returns, with its two tables. */
  class Handler {
    const botName: string
    const settings: Settings
    const config: AiConfig
    const prompts: PromptTable
    /** Last use, in milliseconds, per user key. */
    var cooldowns: map<string, int>
    /** The user keys whose AI call is outstanding. */
    var processing: set<string>
    /** The AI calls outstanding, one entry per call. */
    ghost var outstanding: multiset<string>

    /** Each outstanding call is recorded in the in-flight set, and each key
        of the in-flight set stands for one call. */
    ghost predicate Valid()
      reads this
    {
      outstanding == multiset(processing)
    }

    /** No user ever has two AI calls outstanding. */
    lemma AtMostOneCallPerUser(key: string)
      requires Valid()
      ensures outstanding[key] <= 1
    {
    }

    constructor(botName: string, settings: Settings, config: AiConfig, prompts: PromptTable)
      ensures Valid()
      ensures this.botName == botName && this.settings == settings && this.config == config
      ensures this.prompts == prompts
      ensures cooldowns == map[] && processing == {} && outstanding == multiset{}
    {
      this.botName := botName;
      this.settings := settings;
      this.config := config;
      this.prompts := prompts;
      cooldowns := map[];
      processing := {};
      outstanding := multiset{};
    }

    /** The handler from the event to the AI call: each check in turn,
        ending early with what it sends, and for a call that may start, the
        user marked in flight in the same step. The cooldown table is never
        touched here. */
    method Begin(e: ChatEvent, user: Option<User>, now: int) returns (outcome: Outcome)
      requires Valid()
      modifies this
      ensures Valid()
      ensures outcome == Gate(botName, settings, config, old(cooldowns), old(processing), e, user, now)
      ensures cooldowns == old(cooldowns)
      ensures outcome.Started? ==> processing == old(processing) + {outcome.key}
      ensures outcome.Started? ==> outstanding == old(outstanding) + multiset{outcome.key}
      ensures !outcome.Started? ==> processing == old(processing) && outstanding == old(outstanding)
    {
      if ToLower(e.username) == ToLower(botName) {
        return Ignored;
      }
      if e.chatType !in AllowedChatTypes(settings) {
        return Ignored;
      }
      var userKey := UserKey(e.username);
      var found := MatchedTrigger(config, e.message);
      if found.None? {
        return Ignored;
      }
      if user.None? {
        return Ignored;
      }
      var hasAi := user.value.hasAi;
      var hasNoCooldown := user.value.hasNoCooldown;
      if !hasAi && !hasNoCooldown {
        return Ignored;
      }
      if userKey in processing {
        return Thinking(settings.thinkingMessage);
      }
      if !hasNoCooldown {
        var lastUsed := LastUsed(cooldowns, userKey);
        var duration := CooldownMs(config);
        if now - lastUsed < duration {
          var timeLeft := CeilDiv(duration - (now - lastUsed), 1000);
          return Cooling(CooldownText(settings, timeLeft), timeLeft);
        }
      }
      var prompt := PromptText(e.message, found.value);
      if prompt == "" {
        return NoPrompt(settings.noPromptMessage);
      }
      AddFresh(processing, userKey);
      processing := processing + {userKey};
      outstanding := outstanding + multiset{userKey};
      return Started(userKey, prompt);
    }

    /** The `finally` block once the AI call of `key` is over, with the
        `user.ainocd` permission as asked at that moment: the user leaves
        the in-flight set, and the cooldown is stamped with `now` unless the
        user is exempt. Nothing else changes. Returns the chat message. */
    method Settle(key: string, result: AiResult, hasNoCooldown: bool, now: int) returns (reply: string, log: Option<string>)
      requires Valid()
      requires key in outstanding
      modifies this
      ensures Valid()
      ensures reply == Reply(settings, result)
      ensures log == ErrorLog(result)
      ensures processing == old(processing) - {key}
      ensures outstanding == old(outstanding) - multiset{key}
      ensures !hasNoCooldown ==> cooldowns == old(cooldowns)[key := now]
      ensures hasNoCooldown ==> cooldowns == old(cooldowns)
    {
      reply := Reply(settings, result);
      log := ErrorLog(result);
      if !hasNoCooldown {
        cooldowns := cooldowns[key := now];
      }
      processing := processing - {key};
      outstanding := outstanding - multiset{key};
    }
  }

  /** Two rapid triggers from one user: the second, while the first is
      pending, yields exactly the thinking notice; the cooldown is stamped
      once, when the first call settles. */
  method TwoRapidTriggers(h: Handler, e: ChatEvent, user: Option<User>, t0: int, t1: int, answer: AiResult, t2: int)
    returns (first: Outcome, second: Outcome, reply: string, log: Option<string>)
    requires h.Valid()
    modifies h
    ensures h.Valid()
    ensures first == Gate(h.botName, h.settings, h.config, old(h.cooldowns), old(h.processing), e, user, t0)
    ensures first.Started? ==> second == Thinking(h.settings.thinkingMessage)
    ensures first.Started? && !user.value.hasNoCooldown ==> h.cooldowns == old(h.cooldowns)[first.key := t2]
    ensures first.Started? ==> h.processing == old(h.processing)
  {
    first := h.Begin(e, user, t0);
    second := Ignored;
    reply := "";
    log := None;
    if first.Started? {
      second := h.Begin(e, user, t1);
      reply, log := h.Settle(first.key, answer, user.value.hasNoCooldown, t2);
    }
  }

  // ---------------------------------------------------------------------
  // The handler as index.js builds it
  // ---------------------------------------------------------------------

  /** How the call step ends when the handler may have no prompt table:
      reading `promptsData[mode]` of a missing table throws a TypeError,
      caught like a failed AI call; with a table the AI call's result
      stands. */
  function CallResult(promptsData: Option<PromptTable>, typeError: string, answer: AiResult): (r: AiResult)
    ensures promptsData.None? ==> r.Failed?
    ensures promptsData.Some? ==> r == answer
  {
    if promptsData.None? then Failed(typeError) else answer
  }

  /** As written, index.js builds the handler without a store and without a
      prompt table: every call that starts logs an error and answers with
      the apology, whatever the model would have said. */
  lemma MissingTableAlwaysApologises(s: Settings, typeError: string, answer: AiResult)
    ensures Reply(s, CallResult(None, typeError, answer)) == APOLOGY
    ensures ErrorLog(CallResult(None, typeError, answer)) == Some("[ai-chat] Ошибка API: " + typeError)
  {
  }

  /** With a prompt table passed in, as the handler's other parameters
      intend, a non-empty answer reaches the chat (sanitised if asked, cut
      to 250 characters) and nothing is logged. */
  lemma GivenTableAnswers(s: Settings, t: PromptTable, typeError: string, text: string)
    requires text != ""
    ensures ErrorLog(CallResult(Some(t), typeError, Answered(text))).None?
    ensures !s.clearBadSymbols ==> Reply(s, CallResult(Some(t), typeError, Answered(text))) == Truncate(text)
    ensures s.clearBadSymbols ==> Reply(s, CallResult(Some(t), typeError, Answered(text)))
                                  == Truncate(TextUtils.Clean(text))
  {
  }
}
