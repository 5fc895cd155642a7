# sentiment_bot: a Dafny model of the message handler

The bot answers Telegram text messages. For each message it:

1. decides whether the text is Russian by counting ASCII letters (`check_symbol`);
2. for Russian text, asks a pre-trained sentiment model for the top label and maps that label to one of three fixed acknowledgements (`bot_answer`);
3. for other text, answers with a fixed notice asking for Russian characters;
4. appends one five-field record to the JSON array in `data.json` (`write_json`) and sends the reply (`answer_user`).

The model has four modules:

- `ScriptCheck` (`script_check.dfy`) holds the script check. `CheckSymbol` is the counting loop. `LetterCount` and `Classify` are the functions that specify it.
- `Replies` (`replies.dfy`) holds the three acknowledgements and the total label-to-reply mapping `SelectReply`.
- `AuditLog` (`audit_log.dfy`) holds the log record and the class `Log`. The class keeps the file's array as a `seq<Record>` field. `WriteJson` reads the array, appends one record and writes the array back.
- `Bot` (`bot.dfy`) holds the handler. `Exchange` is the reply and record that one message produces. `AnswerUser` is the method that logs exactly once. `Transcript` is the list of records that a run of messages produces, and `AnswerAll` hands such a run to `AnswerUser` one message at a time, as the dispatcher does.

Abstractions:

- The sentiment model is a parameter `topLabel: string -> string`: any total function from a text to its top label.
- `topLabel` is consulted for a text only when the text is Russian. `EnIgnoresClassifier` states that the non-Russian outcome does not depend on it.
- A date is an integer number of seconds. The `+ timedelta(hours=3)` becomes `+ ThreeHours` (10800).
- `str(date)` is taken as the identity, so a record's `date` holds the instant itself.
- A missing Telegram username is `None`.

The source's threshold test `count > 0.8 * len(text)` is modelled on exact reals (`OverThreshold`). `Classify` states that this is the same as the integer test `5 * count > 4 * len`.

The source logs the Russian branch with the date shifted by three hours and the other branch unshifted. The model keeps this asymmetry, and `DateShiftOnlyForRus` states it.

The notice is written out twice in the source, at main.py:177-178 and main.py:181. After Python's backslash-newline continuation both are the same string, so the model defines it once, as `WrongScriptNotice`. For the same reason, the apology reply reads "неудобства! Мы" with one space.

Points of the code that the model follows as written:

- On the non-Russian branch the code logs the user's own text as `message` and the notice as `answer` (main.py:179-181).
- Empty and whitespace-only text has 0 ASCII letters, and `0 > 0.8 * len` is false, so the code answers `'rus'` for it (main.py:40-43).
- The docstring of `check_symbol` describes `count` as the number of characters other than Cyrillic ones (main.py:28). The loop counts only characters matching `[a-zA-Z]` (main.py:37-39), so digits, punctuation and other scripts count as Russian. The model counts what the loop counts.

## Model

| member | source | states |
|---|---|---|
| ScriptCheck.LetterCount | main.py:36-39 | the tally is at most the length; it is 0 exactly when no character is in `[a-zA-Z]`, and equal to the length exactly when every character is |
| ScriptCheck.LetterCountAppend | main.py:37-39 | the tally of a concatenation is the sum of the tallies, so each character adds 1 if it is an ASCII letter and 0 otherwise |
| ScriptCheck.OverThresholdExact | main.py:40 | `count > 0.8 * len` on exact reals holds exactly when `5 * count > 4 * len` |
| ScriptCheck.Classify | main.py:36-43 | the result is `En` exactly when 5 times the ASCII-letter count exceeds 4 times the length, and `Rus` otherwise; empty text, and text without ASCII letters, is `Rus`; non-empty all-ASCII-letter text is `En` |
| ScriptCheck.CyrillicIsRus | main.py:37-43 | text made only of Cyrillic characters is classified `Rus` |
| ScriptCheck.ClassifyConcat | main.py:36-43 | joining two texts with the same classification keeps that classification |
| ScriptCheck.CheckSymbol | main.py:21-43 | the loop keeps `0 <= count <= i <= len` and `count` equal to the tally of the first `i` characters; it returns `Classify(text)`, that is `En` exactly when `5 * count > 4 * len` |
| Replies.RepliesDistinct | main.py:74-77 | the three acknowledgements are pairwise different strings |
| Replies.SelectReply | main.py:74-89 | the reply is one of the three acknowledgements; it is the apology exactly for `negative`, the neutral one exactly for `neutral`, `speech` or `skip`, and the positive one exactly for every other label |
| AuditLog.Log.constructor | main.py:135-136 | the log starts out holding the array already in the file |
| AuditLog.Log.Load | main.py:135-136 | reading returns the stored array and changes nothing |
| AuditLog.Log.Store | main.py:138-139 | writing replaces the stored array with the given one |
| AuditLog.Log.WriteJson | main.py:127-139 | the array grows by exactly one record at the end; earlier records are unchanged and in order; the new record holds exactly the five arguments |
| Bot.NoticeIsNoAcknowledgement | main.py:74-77 | the wrong-script notice differs from each acknowledgement |
| Bot.Exchange | main.py:162-181 | the logged answer equals the reply sent; the logged user id, username and message are the message's own; the reply is the notice exactly when the text is not Russian; for Russian text the reply is `SelectReply` of the top label and the logged date is shifted by three hours; otherwise the date is unshifted |
| Bot.EnIgnoresClassifier | main.py:167-181 | for non-Russian text the outcome is the same whatever the sentiment model says, so the model is never consulted |
| Bot.DateShiftOnlyForRus | main.py:171-181 | for two messages with the same date, the Russian one is logged three hours later than the other one |
| Bot.AnswerUser | main.py:162-181 | the method returns the reply of `Exchange` and appends exactly its record, one record per message |
| Bot.Transcript | main.py:162-181 | the records that N messages produce are N, in order, the i-th being the record `Exchange` gives for the i-th message |
| Bot.TranscriptConcat | main.py:162-181 | the records of two batches of messages are the first batch's records followed by the second's |
| Bot.AnswerAll | main.py:199-203 | handing N messages to `AnswerUser` one at a time leaves the log as its old contents followed by exactly the N records of `Transcript`, in arrival order, and the i-th reply is the reply `Exchange` gives for the i-th message |
| Bot.PositiveReviewExample | main.py:68-71 | the documented Cyrillic review with a positive label gets the positive acknowledgement and is logged with it and a shifted date |
| ScriptCheck.ThisIsGreatIsEn | main.py:36-43 | "This is great" has 11 ASCII letters among its 13 characters, so it is classified `En` |
| Bot.EnglishMessageExample | main.py:176-181 | "This is great" gets the notice, logged with its own text and the unshifted date |

## Left out

- Telegram integration (`start`, `main`, `Updater`, the handler registration, `reply_text`, `reply_markdown_v2`): network I/O through a foreign framework. The reply is modelled as the value `AnswerUser` returns; the one-at-a-time delivery of messages is modelled by `AnswerAll`, not the polling itself.
- The sentiment model (`RegexTokenizer`, `FastTextSocialNetworkModel`, `model.predict`, the first-key extraction): a foreign pre-trained black box. It is the parameter `topLabel`.
- File I/O and JSON encoding (`open`, `json.load`, `json.dump` with indentation and `ensure_ascii=False`): the file is the `records` field. A missing file, unreadable content and write failures are not modelled.
- `str(date)` and the semantics of `datetime` and `timedelta`: a date is an integer number of seconds, and its string form is the identity.
- `logging.basicConfig`: a diagnostic side channel.
- Concurrency: the source has no lock around the read-modify-write of the log, and the model is sequential. The lost-update hazard between two concurrent writers is not captured.
- ScriptCheck.CheckSymbol: compares on exact reals rather than IEEE doubles. For any length a string can actually have (far below 2^51 characters), the rounding error of `0.8 * n` stays below 1/5, so the double test and the exact test agree for every integer count. That agreement is not proved here.
- Python's `re` engine: `check_symbol` matches each single character against `[a-zA-Z]+$`. The model keeps only the character range that this match accepts, as `IsAsciiLetter`.
