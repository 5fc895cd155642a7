/**
 * The message handler of the bot: check the script of the text, pick the
 * reply, log the exchange once, and hand the reply back for sending.
 */
module Bot {
  import opened ScriptCheck
  import opened Replies
  import opened AuditLog

  /** An incoming text message: its instant in seconds, the sender and the text. */
  datatype Message = Message(date: int, userId: int, username: Option<string>, text: string)

  /** What handling one message produces: the reply sent and the record logged. */
  datatype Outcome = Outcome(reply: string, entry: Record)

  /** The shift applied to the logged date of a Russian message, three hours in seconds. */
  const ThreeHours: int := 3 * 60 * 60

  /** The notice sent to, and logged for, a message not written in Russian. */
  const WrongScriptNotice: string := "При создании сообщения используйте русские символы"

  /** The notice differs from each of the three acknowledgements. */
  lemma NoticeIsNoAcknowledgement()
    ensures WrongScriptNotice != PositiveReply
    ensures WrongScriptNotice != NeutralReply
    ensures WrongScriptNotice != NegativeReply
  {
  }

  /**
   * The outcome of handling `msg`, where `topLabel` stands for the sentiment
   * model and gives the most probable label of a text.
   */
  function Exchange(msg: Message, topLabel: string -> string): (r: Outcome)
    ensures r.entry.answer == r.reply
    ensures r.entry.userId == msg.userId && r.entry.username == msg.username
    ensures r.entry.message == msg.text
    ensures r.reply == WrongScriptNotice <==> Classify(msg.text) == En
    ensures Classify(msg.text) == Rus ==>
      r.reply == SelectReply(topLabel(msg.text)) && r.entry.date == msg.date + ThreeHours
    ensures Classify(msg.text) == En ==> r.entry.date == msg.date
    ensures r.reply in {PositiveReply, NeutralReply, NegativeReply, WrongScriptNotice}
  {
    NoticeIsNoAcknowledgement();
    if Classify(msg.text) == Rus then
      var answer := SelectReply(topLabel(msg.text));
      Outcome(answer, Record(msg.date + ThreeHours, msg.userId, msg.username, msg.text, answer))
    else
      Outcome(WrongScriptNotice, Record(msg.date, msg.userId, msg.username, msg.text, WrongScriptNotice))
  }

  /** A message not in Russian never reaches the sentiment model. */
  lemma EnIgnoresClassifier(msg: Message, f: string -> string, g: string -> string)
    requires Classify(msg.text) == En
    ensures Exchange(msg, f) == Exchange(msg, g)
  {
  }

  /**
   * The same instant is logged three hours later for a Russian message than for
   * one in another script.
   */
  lemma DateShiftOnlyForRus(m: Message, n: Message, topLabel: string -> string)
    requires m.date == n.date
    requires Classify(m.text) == Rus && Classify(n.text) == En
    ensures Exchange(m, topLabel).entry.date == Exchange(n, topLabel).entry.date + ThreeHours
  {
  }

  /** Handles one message: exactly one append to `log`, and the reply to send. */
  method AnswerUser(msg: Message, topLabel: string -> string, log: Log) returns (reply: string)
    modifies log
    ensures reply == Exchange(msg, topLabel).reply
    ensures log.records == old(log.records) + [Exchange(msg, topLabel).entry]
  {
    var lang := CheckSymbol(msg.text);
    if lang == Rus {
      var answer := SelectReply(topLabel(msg.text));
      reply := answer;
      log.WriteJson(msg.date + ThreeHours, msg.userId, msg.username, msg.text, answer);
    } else {
      reply := WrongScriptNotice;
      log.WriteJson(msg.date, msg.userId, msg.username, msg.text, WrongScriptNotice);
    }
  }

  /** The records that the messages `msgs` produce, in the order of the messages. */
  function Transcript(msgs: seq<Message>, topLabel: string -> string): (t: seq<Record>)
    ensures |t| == |msgs|
    ensures forall i | 0 <= i < |msgs| :: t[i] == Exchange(msgs[i], topLabel).entry
  {
    if msgs == [] then []
    else Transcript(msgs[..|msgs| - 1], topLabel) + [Exchange(msgs[|msgs| - 1], topLabel).entry]
  }

  /** One more message extends the transcript by that message's record. */
  lemma TranscriptStep(msgs: seq<Message>, msg: Message, topLabel: string -> string)
    ensures Transcript(msgs + [msg], topLabel) == Transcript(msgs, topLabel) + [Exchange(msg, topLabel).entry]
  {
  }

  /** The transcript of two batches is the first batch's records, then the second's. */
  lemma {:induction false} TranscriptConcat(a: seq<Message>, b: seq<Message>, topLabel: string -> string)
    ensures Transcript(a + b, topLabel) == Transcript(a, topLabel) + Transcript(b, topLabel)
    decreases |b|
  {
    if b == [] {
      assert a + b == a;
    } else {
      var c := b[..|b| - 1];
      assert (a + b)[..|a + b| - 1] == a + c;
      assert (a + b)[|a + b| - 1] == b[|b| - 1];
      TranscriptConcat(a, c, topLabel);
    }
  }

  /** A log ending in the transcript of `msgs[..i]` ends, after one more record, in that of `msgs[..i + 1]`. */
  lemma LogExtendsTranscript(before: seq<Record>, msgs: seq<Message>, i: nat, topLabel: string -> string)
    requires i < |msgs|
    ensures before + Transcript(msgs[..i], topLabel) + [Exchange(msgs[i], topLabel).entry]
      == before + Transcript(msgs[..i + 1], topLabel)
  {
    assert msgs[..i + 1] == msgs[..i] + [msgs[i]];
    TranscriptStep(msgs[..i], msgs[i], topLabel);
  }

  /** Adding the reply to `msgs[i]` keeps `replies` the replies to the messages so far. */
  lemma RepliesExtend(replies: seq<string>, reply: string, msgs: seq<Message>, i: nat, topLabel: string -> string)
    requires i < |msgs| && |replies| == i
    requires forall j | 0 <= j < i :: replies[j] == Exchange(msgs[j], topLabel).reply
    requires reply == Exchange(msgs[i], topLabel).reply
    ensures forall j | 0 <= j < i + 1 :: (replies + [reply])[j] == Exchange(msgs[j], topLabel).reply
  {
  }

  /**
   * The dispatcher handing the messages `msgs` to the handler one at a time:
   * the log ends with exactly their records, in the order they arrived.
   */
  method AnswerAll(msgs: seq<Message>, topLabel: string -> string, log: Log) returns (replies: seq<string>)
    modifies log
    ensures log.records == old(log.records) + Transcript(msgs, topLabel)
    ensures |replies| == |msgs|
    ensures forall i | 0 <= i < |msgs| :: replies[i] == Exchange(msgs[i], topLabel).reply
  {
    ghost var before := log.records;
    replies := [];
    var i := 0;
    while i < |msgs|
      invariant 0 <= i <= |msgs|
      invariant log.records == before + Transcript(msgs[..i], topLabel)
      invariant |replies| == i
      invariant forall j | 0 <= j < i :: replies[j] == Exchange(msgs[j], topLabel).reply
    {
      var reply := AnswerUser(msgs[i], topLabel, log);
      LogExtendsTranscript(before, msgs, i, topLabel);
      RepliesExtend(replies, reply, msgs, i, topLabel);
      replies := replies + [reply];
      i := i + 1;
    }
    assert msgs[..i] == msgs;
  }

  /** The example of the bot's documentation: a Cyrillic review with a positive label. */
  lemma PositiveReviewExample(date: int, userId: int, username: Option<string>, topLabel: string -> string)
    requires topLabel("Настроение поднялось:)).Крутой фильм") == "positive"
    ensures Exchange(Message(date, userId, username, "Настроение поднялось:)).Крутой фильм"), topLabel)
      == Outcome(PositiveReply, Record(date + ThreeHours, userId, username,
                 "Настроение поднялось:)).Крутой фильм", PositiveReply))
  {
    var text := "Настроение поднялось:)).Крутой фильм";
    assert forall i | 0 <= i < |text| :: !IsAsciiLetter(text[i]);
  }

  /** An English message gets the notice, logged with its own text and unshifted date. */
  lemma EnglishMessageExample(date: int, userId: int, username: Option<string>, topLabel: string -> string)
    ensures Exchange(Message(date, userId, username, "This is great"), topLabel)
      == Outcome(WrongScriptNotice, Record(date, userId, username, "This is great", WrongScriptNotice))
  {
    ThisIsGreatIsEn();
  }
}
