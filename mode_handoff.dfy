/** The mode command and the chat handler together: the command writes a
    player's mode into the external store, and the handler reads it back
    from there when that player next asks the bot. */
module ModeHandoff {
  import opened Wrappers
  import opened Prompts
  import opened GptMode
  import opened ChatHandler

  /** A mode the command stores under a player's key is the mode the
      handler reads for that player's next event, so the system prompt is
      that mode's template. */
  lemma CommandModeReachesHandler(t: PromptTable, store: map<string, string>, username: string, target: string,
                                  modename: string, resolved: bool, e: ChatEvent)
    requires Decide(t, store, username, target, modename, resolved).write.Some?
    requires Decide(t, store, username, target, modename, resolved).write.value.key == ModeKey(UserKey(e.username))
    ensures var w := Decide(t, store, username, target, modename, resolved).write.value;
            && HandlerMode(Some(Apply(store, Some(w))), UserKey(e.username)) == w.value
            && Template(t, HandlerMode(Some(Apply(store, Some(w))), UserKey(e.username))) == t.text[w.value]
  {
    WriteReadsBack(t, store, username, target, modename, resolved);
  }
}
