/** The permission names and message templates of constants.js. */
module Constants {

  const PLUGIN_OWNER_ID: string := "plugin:ai-chat"

  /** Talk to the bot, subject to the cooldown. */
  const PERM_AI: string := "user.ai"
  /** Talk to the bot without a cooldown. */
  const PERM_AI_NOCD: string := "user.ainocd"
  /** Use the mode command. */
  const PERM_GPTMODE: string := "admin.gpt"

  // The message templates, each written around its placeholders.
  const MODE_CURRENT: string := "&aВаш режим: &e" + "{mode}"
  const MODE_PLAYER: string := "&aРежим &e" + "{playername}" + ": &e" + "{mode}"
  const MODE_CHANGED_SELF: string := "&aВаш режим изменён на &e" + "{modename}"
  const MODE_CHANGED_OTHER: string := "&aРежим &e" + "{playername}" + " изменён на &e" + "{modename}"
  const MODE_INVALID: string := "&c- &e" + "{modename}" + "&c | Доступные режимы: &e" + "{modes}"
  const NO_PLAYER: string := "&cИгрок &e" + "{playername}" + "&c не найден или данных нет."
  const FALLBACK_PROMPT: string := "Ты — полезный ИИ-бот в игре Minecraft. Отвечай коротко и дружелюбно."
}
