/**
 * The reply mapping of the bot: the top sentiment label of a message picks one
 * of three fixed acknowledgements.
 */
module Replies {

  /** The acknowledgement for a positive message (and for any unknown label). */
  const PositiveReply: string := "Спасибо за хорошую обратную связь!"

  /** The apology for a negative message; the spelling "приянто" is the bot's own. */
  const NegativeReply: string :=
    "Ваше обращение приянто. Просим извинения за неудобства! Мы работаем над улучшением нашего сервиса."

  /** The acknowledgement for a neutral, speech or skip message. */
  const NeutralReply: string := "Ваше обращение принято. Всего доброго!"

  /** The labels answered with the neutral acknowledgement. */
  predicate IsNeutralLabel(key: string) {
    key == "neutral" || key == "speech" || key == "skip"
  }

  /** The three acknowledgements are pairwise different. */
  lemma RepliesDistinct()
    ensures PositiveReply != NegativeReply
    ensures PositiveReply != NeutralReply
    ensures NegativeReply != NeutralReply
  {
  }

  /** The reply to a message whose top label is `key`; total over all strings. */
  function SelectReply(key: string): (r: string)
    ensures r == PositiveReply || r == NeutralReply || r == NegativeReply
    ensures r == NegativeReply <==> key == "negative"
    ensures r == NeutralReply <==> IsNeutralLabel(key)
    ensures r == PositiveReply <==> key != "negative" && !IsNeutralLabel(key)
  {
    RepliesDistinct();
    if key == "negative" then NegativeReply
    else if IsNeutralLabel(key) then NeutralReply
    else PositiveReply
  }
}
