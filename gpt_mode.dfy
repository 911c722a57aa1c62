/** The mode command of commands/gptmode.js: with no argument it reports
    the invoker's mode; with one it sets the invoker's mode when the
    argument names a mode and otherwise reports that player's mode; with a
    mode name alone it sets the invoker's mode; with a player and a mode
    name it sets that player's mode. Modes are kept in the external store
    under `ai:mode:<lowered name>`.

    An empty argument stands for a missing one: the command tests both with
    JavaScript truthiness, for which the two are alike. */
module GptMode {
  import opened Wrappers
  import opened JsString
  import opened Constants
  import opened Prompts

  // ---------------------------------------------------------------------
  // The messages
  // ---------------------------------------------------------------------

  /** The current-mode report reads "&aВаш режим: &e" and the mode. */
  function CurrentModeText(mode: string): (r: string)
    ensures r == "&aВаш режим: &e" + mode
  {
    ReplaceFirstAtEnd("&aВаш режим: &e", "{mode}", mode);
    ReplaceFirst(MODE_CURRENT, "{mode}", mode)
  }

  function PlayerModeText(target: string, mode: string): string {
    ReplaceFirst(ReplaceFirst(MODE_PLAYER, "{playername}", target), "{mode}", mode)
  }

  /** The confirmation of one's own change reads "&aВаш режим изменён на &e"
      and the mode. */
  function ChangedSelfText(mode: string): (r: string)
    ensures r == "&aВаш режим изменён на &e" + mode
  {
    ReplaceFirstAtEnd("&aВаш режим изменён на &e", "{modename}", mode);
    ReplaceFirst(MODE_CHANGED_SELF, "{modename}", mode)
  }

  function ChangedOtherText(target: string, mode: string): string {
    ReplaceFirst(ReplaceFirst(MODE_CHANGED_OTHER, "{playername}", target), "{modename}", mode)
  }

  function InvalidModeText(mode: string, modes: string): string {
    ReplaceFirst(ReplaceFirst(MODE_INVALID, "{modename}", mode), "{modes}", modes)
  }

  /** The unknown-player notice names the player as written. */
  function NoPlayerText(target: string): (r: string)
    ensures r == "&cИгрок &e" + target + "&c не найден или данных нет."
  {
    ReplaceFirstAfter("&cИгрок &e", "{playername}", target, "&c не найден или данных нет.");
    ReplaceFirst(NO_PLAYER, "{playername}", target)
  }

  /** The audit line for a change of one's own mode. */
  function SelfLog(username: string, mode: string): string {
    "[ai-chat] " + username + " сменил свой режим на " + mode
  }

  /** The audit line for a change of another player's mode. */
  function OtherLog(username: string, target: string, mode: string): string {
    "[ai-chat] " + username + " (" + PERM_GPTMODE + ") сменил режим " + target + " на " + mode
  }

  /** Three texts without '{' make one without '{'. */
  lemma NoBrace3(a: string, b: string, c: string)
    requires '{' !in a && '{' !in b && '{' !in c
    ensures '{' !in a + b + c
  {
  }

  /** Filling two placeholders one after the other, `x` then `y`, in
      `p + "{x}" + q + "{y}"`: when neither `p`, `q` nor the first value
      holds a '{', each value lands in its own place. */
  lemma TwoPlaceholders(p: string, x: string, q: string, y: string, vx: string, vy: string)
    requires x != [] && y != [] && x[0] == '{' && y[0] == '{'
    requires '{' !in p && '{' !in q && '{' !in vx
    ensures ReplaceFirst(ReplaceFirst(p + x + q + y, x, vx), y, vy) == p + vx + q + vy
  {
    assert p + x + q + y == p + x + (q + y);
    ReplaceFirstAfter(p, x, vx, q + y);
    var a := p + vx + q;
    assert p + vx + (q + y) == a + y;
    NoBrace3(p, vx, q);
    ReplaceFirstAtEnd(a, y, vy);
  }

  /** A player's mode report names the player and the mode, as long as the
      player name holds no '{' for the second replacement to find. */
  lemma PlayerModeShape(target: string, mode: string)
    requires '{' !in target
    ensures PlayerModeText(target, mode) == "&aРежим &e" + target + ": &e" + mode
  {
    PlayerTemplateParts();
    TwoPlaceholders("&aРежим &e", "{playername}", ": &e", "{mode}", target, mode);
  }

  lemma PlayerTemplateParts()
    ensures '{' !in "&aРежим &e" && '{' !in ": &e"
  {
  }

  /** The replacements are chained: a player name that itself holds
      "{mode}" receives the mode, and the template's own placeholder is
      left in the message. */
  lemma PlayerModeChained(mode: string)
    ensures PlayerModeText("{mode}", mode) == "&aРежим &e" + mode + ": &e{mode}"
  {
    assert MODE_PLAYER == "&aРежим &e" + "{playername}" + ": &e{mode}";
    ReplaceFirstAfter("&aРежим &e", "{playername}", "{mode}", ": &e{mode}");
    ReplaceFirstAfter("&aРежим &e", "{mode}", mode, ": &e{mode}");
  }

  /** The confirmation of another player's change names the player and the
      mode, as long as the player name holds no '{'. */
  lemma ChangedOtherShape(target: string, mode: string)
    requires '{' !in target
    ensures ChangedOtherText(target, mode) == "&aРежим &e" + target + " изменён на &e" + mode
  {
    ChangedOtherTemplateParts();
    TwoPlaceholders("&aРежим &e", "{playername}", " изменён на &e", "{modename}", target, mode);
  }

  lemma ChangedOtherTemplateParts()
    ensures '{' !in "&aРежим &e" && '{' !in " изменён на &e"
  {
    var q := " изменён на &e";
    forall i | 0 <= i < |q| ensures q[i] != '{' {
    }
  }

  /** The unknown-mode notice names the rejected mode and lists the modes,
      as long as the rejected name holds no '{'. */
  lemma InvalidModeShape(mode: string, modes: string)
    requires '{' !in mode
    ensures InvalidModeText(mode, modes) == "&c- &e" + mode + "&c | Доступные режимы: &e" + modes
  {
    InvalidTemplateNoBrace();
    TwoPlaceholders("&c- &e", "{modename}", "&c | Доступные режимы: &e", "{modes}", mode, modes);
  }

  lemma InvalidTemplateNoBrace()
    ensures '{' !in "&c- &e" && '{' !in "&c | Доступные режимы: &e"
  {
    var q := "&c | Доступные режимы: &e";
    forall i | 0 <= i < |q| ensures q[i] != '{' {
    }
  }

  // ---------------------------------------------------------------------
  // The decision
  // ---------------------------------------------------------------------

  /** One store write, `store.set(key, value)`. */
  datatype Write = Write(key: string, value: string)

  /** What one invocation does: the message sent to the invoker, the audit
      line sent to the log if any, whether the player was looked up, and
      the store write if any. */
  datatype Effect = Effect(message: string, log: Option<string>, lookedUp: bool, write: Option<Write>)

  /** The store after an optional write. */
  function Apply(store: map<string, string>, w: Option<Write>): map<string, string> {
    if w.Some? then store[w.value.key := w.value.value] else store
  }

  /** The two arguments name the invoker, case-insensitively. */
  predicate SameName(username: string, target: string) {
    ToLower(target) == ToLower(username)
  }

  /** The command's case analysis over `(target, modename)`, as a function
      of the prompt table, the store as read, the invoker and whether the
      host resolves the target player (asked only where the command asks). */
  function Decide(t: PromptTable, store: map<string, string>, username: string,
                  target: string, modename: string, resolved: bool): (o: Effect)
    ensures o.write.Some? ==>
              && HasMode(t, o.write.value.value)
              && (o.write.value.key == ModeKey(ToLower(username))
                  || (target != "" && modename != "" && o.write.value.key == ModeKey(ToLower(target))))
  {
    var own := ModeKey(ToLower(username));
    if target == "" && modename == "" then
      Effect(CurrentModeText(StoredMode(store, own)), None, false, None)
    else if modename == "" then
      if HasMode(t, target) then
        Effect(ChangedSelfText(target), Some(SelfLog(username, target)), false, Some(Write(own, target)))
      else if !resolved && !SameName(username, target) then
        Effect(NoPlayerText(target), None, true, None)
      else
        Effect(PlayerModeText(target, StoredMode(store, ModeKey(ToLower(target)))), None, true, None)
    else if target == "" then
      if !HasMode(t, modename) then
        Effect(InvalidModeText(modename, ModesList(t)), None, false, None)
      else
        Effect(ChangedSelfText(modename), Some(SelfLog(username, modename)), false, Some(Write(own, modename)))
    else if SameName(username, target) then
      if !HasMode(t, modename) then
        Effect(InvalidModeText(modename, ModesList(t)), None, false, None)
      else
        Effect(ChangedSelfText(modename), None, false, Some(Write(own, modename)))
    else if !resolved then
      Effect(NoPlayerText(target), None, true, None)
    else if !HasMode(t, modename) then
      Effect(InvalidModeText(modename, ModesList(t)), None, true, None)
    else
      Effect(ChangedOtherText(target, modename), Some(OtherLog(username, target, modename)), true,
             Some(Write(ModeKey(ToLower(target)), modename)))
  }

  // ---------------------------------------------------------------------
  // Properties of the decision
  // ---------------------------------------------------------------------

  /** No argument: the invoker's stored mode, or "default", is reported;
      nothing is written, logged or looked up. */
  lemma NoArgumentReports(t: PromptTable, store: map<string, string>, username: string, resolved: bool)
    ensures var o := Decide(t, store, username, "", "", resolved);
            && o.message == "&aВаш режим: &e" + StoredMode(store, ModeKey(ToLower(username)))
            && o.write.None? && o.log.None? && !o.lookedUp
  {
  }

  /** One argument naming a mode: it becomes the invoker's mode, as
      written, with an audit line, and no player is looked up, whatever
      player of that name exists. */
  lemma OneArgumentMode(t: PromptTable, store: map<string, string>, username: string, target: string, resolved: bool)
    requires target != "" && HasMode(t, target)
    ensures var o := Decide(t, store, username, target, "", resolved);
            && o.write == Some(Write(ModeKey(ToLower(username)), target))
            && !o.lookedUp
            && o.message == "&aВаш режим изменён на &e" + target
            && o.log == Some(SelfLog(username, target))
  {
  }

  /** One argument that names no mode: it is taken as a player, who is
      looked up; an unknown player other than the invoker gets the notice,
      anyone else's stored mode (or "default") is reported, in so many words
      when the name holds no '{'. Nothing is written or logged. */
  lemma OneArgumentPlayer(t: PromptTable, store: map<string, string>, username: string, target: string, resolved: bool)
    requires target != "" && !HasMode(t, target)
    ensures var o := Decide(t, store, username, target, "", resolved);
            && o.lookedUp && o.write.None? && o.log.None?
            && (!resolved && !SameName(username, target) ==> o.message == NoPlayerText(target))
            && (resolved || SameName(username, target)
                ==> o.message == PlayerModeText(target, StoredMode(store, ModeKey(ToLower(target)))))
            && ((resolved || SameName(username, target)) && '{' !in target
                ==> o.message == "&aРежим &e" + target + ": &e" + StoredMode(store, ModeKey(ToLower(target))))
  {
    if '{' !in target {
      PlayerModeShape(target, StoredMode(store, ModeKey(ToLower(target))));
    }
  }

  /** A mode name alone: an unknown one is rejected with the list of modes
      and nothing written; a known one becomes the invoker's mode, with an
      audit line. No player is looked up. */
  lemma ModeNameOnly(t: PromptTable, store: map<string, string>, username: string, modename: string, resolved: bool)
    requires modename != ""
    ensures var o := Decide(t, store, username, "", modename, resolved);
            && !o.lookedUp
            && (!HasMode(t, modename) ==> o.message == InvalidModeText(modename, ModesList(t)) && o.write.None? && o.log.None?)
            && (HasMode(t, modename) ==> o.write == Some(Write(ModeKey(ToLower(username)), modename))
                                         && o.log == Some(SelfLog(username, modename)))
  {
  }

  /** A player and a mode, the player being the invoker (in any case): no
      lookup, no audit line, and a write of the invoker's own key exactly
      when the mode is known. */
  lemma TwoArgumentsSelf(t: PromptTable, store: map<string, string>, username: string, target: string,
                         modename: string, resolved: bool)
    requires target != "" && modename != "" && SameName(username, target)
    ensures var o := Decide(t, store, username, target, modename, resolved);
            && !o.lookedUp && o.log.None?
            && (o.write.Some? <==> HasMode(t, modename))
            && (o.write.Some? ==> o.write.value == Write(ModeKey(ToLower(username)), modename))
            && (!HasMode(t, modename) ==> o.message == InvalidModeText(modename, ModesList(t)))
  {
  }

  /** A player and a mode, the player being someone else: the player is
      looked up first, so an unknown player is reported even with an
      unknown mode; then an unknown mode is rejected; only then is the
      player's key, and no other, written, with an audit line. */
  lemma TwoArgumentsOther(t: PromptTable, store: map<string, string>, username: string, target: string,
                          modename: string, resolved: bool)
    requires target != "" && modename != "" && !SameName(username, target)
    ensures var o := Decide(t, store, username, target, modename, resolved);
            && o.lookedUp
            && (!resolved ==> o.message == NoPlayerText(target) && o.write.None? && o.log.None?)
            && (resolved && !HasMode(t, modename)
                ==> o.message == InvalidModeText(modename, ModesList(t)) && o.write.None? && o.log.None?)
            && (resolved && HasMode(t, modename)
                ==> o.write == Some(Write(ModeKey(ToLower(target)), modename))
                    && o.log == Some(OtherLog(username, target, modename))
                    && o.message == ChangedOtherText(target, modename))
  {
  }

  /** The audit line is sent exactly for the changes made by one argument,
      by a mode name alone, or for another player, and never for the
      two-argument change of one's own mode. */
  lemma AuditLogCases(t: PromptTable, store: map<string, string>, username: string, target: string,
                      modename: string, resolved: bool)
    ensures var o := Decide(t, store, username, target, modename, resolved);
            o.log.Some? <==> o.write.Some? && !(target != "" && modename != "" && SameName(username, target))
  {
  }

  /** A player is looked up only when the arguments may name another
      player: one argument that is no mode, or two arguments naming someone
      other than the invoker. */
  lemma LookupCases(t: PromptTable, store: map<string, string>, username: string, target: string,
                    modename: string, resolved: bool)
    ensures var o := Decide(t, store, username, target, modename, resolved);
            o.lookedUp <==> target != "" && ((modename == "" && !HasMode(t, target))
                                             || (modename != "" && !SameName(username, target)))
  {
  }

  /** The decision does not depend on the lookup's answer where no lookup
      happens. */
  lemma NoLookupNoDependence(t: PromptTable, store: map<string, string>, username: string, target: string,
                             modename: string)
    requires !Decide(t, store, username, target, modename, false).lookedUp
    ensures Decide(t, store, username, target, modename, false) == Decide(t, store, username, target, modename, true)
  {
  }

  /** A write changes its own key and leaves every other entry alone. */
  lemma OthersUnchanged(store: map<string, string>, w: Option<Write>, k: string)
    requires w.None? || k != w.value.key
    ensures k in Apply(store, w) <==> k in store
    ensures k in store ==> Apply(store, w)[k] == store[k]
  {
  }

  /** A set mode reads back: after a write the stored mode under that key
      is the value written (modes of the table are never empty). */
  lemma WriteReadsBack(t: PromptTable, store: map<string, string>, username: string, target: string,
                       modename: string, resolved: bool)
    requires Decide(t, store, username, target, modename, resolved).write.Some?
    ensures var w := Decide(t, store, username, target, modename, resolved).write.value;
            StoredMode(Apply(store, Some(w)), w.key) == w.value
  {
  }

  /** `promptsData || { default: FALLBACK_PROMPT }`: an object is always
      truthy, so only a missing table is replaced. */
  function PromptsOrDefault(promptsData: Option<PromptTable>): (t: PromptTable)
    ensures promptsData.Some? ==> t == promptsData.value
    ensures promptsData.None? ==> t.keys == ["default"] && HasMode(t, "default") && WellFormed(t)
  {
    if promptsData.Some? then promptsData.value else DEFAULT_TABLE
  }

  // ---------------------------------------------------------------------
  // The command object
  // ---------------------------------------------------------------------

  /** `GptModeCommand`, holding the prompt table and the store it writes. */
  class ModeCommand {
    const prompts: PromptTable
    /** The external key-value store, as far as the command sees it. */
    var store: map<string, string>

    constructor(promptsData: Option<PromptTable>, store: map<string, string>)
      ensures prompts == PromptsOrDefault(promptsData)
      ensures this.store == store
    {
      prompts := PromptsOrDefault(promptsData);
      this.store := store;
    }

    /** `handler`: the branches in the command's order, each ending with the
        message it sends; `resolved` is the answer `getUser(target)` gives
        when it is asked. */
    method Handle(username: string, target: string, modename: string, resolved: bool)
      returns (message: string, log: Option<string>, lookedUp: bool)
      modifies this
      ensures var o := Decide(prompts, old(store), username, target, modename, resolved);
              message == o.message && log == o.log && lookedUp == o.lookedUp && store == Apply(old(store), o.write)
    {
      var modesList := ModesList(prompts);
      var userLower := ToLower(username);
      var modeKey := ModeKey(userLower);
      log := None;
      lookedUp := false;

      if target == "" && modename == "" {
        var mode := StoredMode(store, modeKey);
        message := CurrentModeText(mode);
        return;
      }

      if target != "" && modename == "" {
        if HasMode(prompts, target) {
          store := store[modeKey := target];
          message := ChangedSelfText(target);
          log := Some(SelfLog(username, target));
          return;
        } else {
          var targetLower := ToLower(target);
          var targetModeKey := ModeKey(targetLower);
          lookedUp := true;
          if !resolved && targetLower != userLower {
            message := NoPlayerText(target);
            return;
          }
          var mode := StoredMode(store, targetModeKey);
          message := PlayerModeText(target, mode);
          return;
        }
      }

      if target == "" && modename != "" {
        if !HasMode(prompts, modename) {
          message := InvalidModeText(modename, modesList);
          return;
        }
        store := store[modeKey := modename];
        message := ChangedSelfText(modename);
        log := Some(SelfLog(username, modename));
        return;
      }

      var targetLower := ToLower(target);
      if targetLower == userLower {
        if !HasMode(prompts, modename) {
          message := InvalidModeText(modename, modesList);
          return;
        }
        store := store[modeKey := modename];
        message := ChangedSelfText(modename);
        return;
      }
      var targetModeKey := ModeKey(targetLower);
      lookedUp := true;
      if !resolved {
        message := NoPlayerText(target);
        return;
      }
      if !HasMode(prompts, modename) {
        message := InvalidModeText(modename, modesList);
        return;
      }
      store := store[targetModeKey := modename];
      message := ChangedOtherText(target, modename);
      log := Some(OtherLog(username, target, modename));
    }
  }

  /** Setting one's own mode and then asking for it reports that mode. */
  method SetThenShow(c: ModeCommand, username: string, mode: string)
    returns (shown: string)
    requires mode != "" && HasMode(c.prompts, mode)
    modifies c
    ensures shown == "&aВаш режим: &e" + mode
  {
    var changed, log, lookedUp := c.Handle(username, mode, "", false);
    var log2, lookedUp2;
    shown, log2, lookedUp2 := c.Handle(username, "", "", false);
  }
}
