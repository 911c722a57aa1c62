/** The prompt table (mode name to system-prompt template) and the mode
    records of the external key-value store, shared by the chat handler and
    the mode command. */
module Prompts {
  import opened JsString
  import opened Constants

  /** The prompt table: its own keys in `Object.keys` order and the
      template stored under each. */
  datatype PromptTable = PromptTable(keys: seq<string>, text: map<string, string>)

  /** The keys are distinct and are exactly the table's entries. */
  predicate WellFormed(t: PromptTable) {
    && (forall i, j :: 0 <= i < j < |t.keys| ==> t.keys[i] != t.keys[j])
    && t.text.Keys == set k | k in t.keys
  }

  /** `{ default: MESSAGES.FALLBACK_PROMPT }`, the table the mode command
      falls back to. */
  const DEFAULT_TABLE: PromptTable := PromptTable(["default"], map["default" := FALLBACK_PROMPT])

  /** `prompts[name]` is truthy: an own key whose template is not empty. */
  predicate HasMode(t: PromptTable, name: string) {
    name in t.text && t.text[name] != ""
  }

  /** `Object.keys(prompts).join(', ')`. */
  function ModesList(t: PromptTable): string {
    Join(t.keys, ", ")
  }

  /** The store key under which a user's mode is kept. */
  function ModeKey(userKey: string): string {
    "ai:mode:" + userKey
  }

  /** Different user keys use different store keys. */
  lemma ModeKeyInjective(a: string, b: string)
    requires a != b
    ensures ModeKey(a) != ModeKey(b)
  {
    assert ModeKey(a)[8..] == a && ModeKey(b)[8..] == b;
  }

  /** `await store.get(key) || 'default'`: a missing or empty record reads
      as the mode "default". */
  function StoredMode(store: map<string, string>, key: string): (mode: string)
    ensures mode != ""
    ensures key in store && store[key] != "" ==> mode == store[key]
    ensures !(key in store && store[key] != "") ==> mode == "default"
  {
    if key in store && store[key] != "" then store[key] else "default"
  }

  /** `promptsData[mode] || promptsData.default || FALLBACK_PROMPT`: the
      template of the mode, else of "default", else the built-in prompt;
      never empty. */
  function Template(t: PromptTable, mode: string): (r: string)
    ensures r != ""
    ensures HasMode(t, mode) ==> r == t.text[mode]
    ensures !HasMode(t, mode) && HasMode(t, "default") ==> r == t.text["default"]
    ensures !HasMode(t, mode) && !HasMode(t, "default") ==> r == FALLBACK_PROMPT
  {
    if HasMode(t, mode) then t.text[mode]
    else if HasMode(t, "default") then t.text["default"]
    else FALLBACK_PROMPT
  }
}
