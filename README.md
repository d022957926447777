# Blood pressure bot: verified model of the photo handler

The bot takes a photo of a blood-pressure monitor sent over Telegram. It asks a
vision model for a JSON answer holding `values` (`SBP`, `DBP`, `HR`) and `status`,
and decides what to save and what to reply. It stores complete readings in the
Firestore collection `readings`. This project models the decision logic of
`main.py` in Dafny and proves what it does:

- `Cleaning` (`cleaning.dfy`): the clean-up of the model's answer,
  `strip()` followed by the removal of every "```json" and then every "```". Python's
  whitespace set, and its left-to-right, non-overlapping `replace`, are written out.
- `JsonValue` (`json.dfy`): the parsed answer as a JSON-like datatype. It gives
  Python's truthiness and `dict.get`; calling `.get` on anything other than a dict
  raises.
- `PyInt` (`pyint.dfy`): Python's `int()` applied to such values, partial (None
  where Python raises), and `str()` on integers as its inverse.
- `Extraction` (`extraction.dfy`): `get_bp_from_image` after the image is opened.
  It returns the parser's output on the cleaned text, or the error marker
  `{"error": ...}`.
- `Reconciliation` (`reconciliation.dfy`): the `if`/`elif`/`else` chain under its
  `try`/`except`, as a pure function from the parsed answer to a `Decision`. A
  decision is either a save request carrying the three values, or a final reply:
  partial, "couldn't read", generic "something went wrong" with the data, or
  "Error encountered".
- `Bot` (`bot.dfy`): a class holding the configured user id and whether a Firestore
  client exists, plus a ghost trace of messages sent, save calls and records
  written. `SaveReading` is `save_reading_to_firestore`; `HandleImage` is
  `image_handler`.

The `elif` at `main.py:179` evaluates `bp_data.get('status' == "failed")`, which
is `bp_data.get(False)`. The model keeps this as written. Python's `False` and
`0` are the same dictionary key, so the lookup is `IntKey(0)`.
`Reconciliation.Reconcile` proves that a string-keyed object, such as anything
parsed from JSON text, can never reach the "couldn't read" reply. A
`"status": "failed"` answer, the error marker, and unusable input that is falsy
or a dict without status "success" all get the generic reply, which embeds the
data. Any truthy value that is not a dict (a list, string, number or `true`)
makes the first `.get` raise, and so does a successful answer whose `values` is
not a dict; both get "Error encountered" instead. The evident intent is to send the "couldn't read the
values, please try a clearer picture" reply for a `"failed"` answer. As written,
that reply is unreachable for parsed JSON. The handler follows the code as
written; the corrected chain is `Reconciliation.ReconcileIntended`, and
"## Findings" compares the two.

## Model

| member | source | states |
|---|---|---|
| Cleaning.SkipSpace | main.py:80 | the first non-whitespace position at or after `i`; everything skipped is whitespace (leading part of `strip()`) |
| Cleaning.SkipSpaceBack | main.py:80 | the end once trailing whitespace is dropped; everything dropped is whitespace (trailing part of `strip()`) |
| Cleaning.Strip | main.py:80 | `strip()` returns a slice of its input that neither starts nor ends with whitespace, with only whitespace outside it |
| Cleaning.StripKeepsTrimmed | main.py:80 | text with no whitespace at either end is unchanged by `strip()` |
| Cleaning.StripIdempotent | main.py:80 | `strip()` applied twice equals `strip()` applied once |
| Cleaning.ReplaceAll | main.py:80 | Python's left-to-right, non-overlapping `replace`; replacing by "" never lengthens the text |
| Cleaning.ReplaceAllPrefix | main.py:80 | a prefix that never holds the pattern's first character passes through `replace` unchanged |
| Cleaning.NoFenceAfterRemoval | main.py:80 | after `.replace("```", "")` no "```" remains, including one that would form across a removed fence |
| Cleaning.Clean | main.py:80 | the cleaned text holds neither "```" nor "```json" and is no longer than the raw answer |
| Cleaning.CleanUnwrapsFence | main.py:80 | a fenced "```json" block with no backtick inside is cleaned to exactly its body, surrounding newlines included |
| PyInt.ParseIntLiteral | main.py:103-105 | `int()` on a string accepts only text without the separators U+001C-U+001F that, once stripped, is an optional sign followed by digits and underscores; only a leading minus gives a negative value; plain digits surrounded by other whitespace always convert |
| PyInt.IntOf | main.py:103-105 | `int()` on a parsed value raises exactly for null, lists, dicts and strings that are no literal; integers are kept; booleans become 1 for true and 0 for false; strings convert as `ParseIntLiteral` reads them |
| PyInt.NatDigits | main.py:103-105 | decimal digits of a natural number: non-empty, all digits, no leading zero; used as the input that `int()` reads back in `DecimalRoundTrip` |
| PyInt.Decimal | main.py:103-105 | Python's `str()` on an integer: a minus exactly for negative numbers, then digits with no leading zero except for 0 itself |
| PyInt.NatDigitsValue | main.py:103-105 | the digits of `n` form well-formed digit groups whose value is `n` |
| PyInt.DecimalRoundTrip | main.py:103-105 | `int(str(n)) == n`, and a reading sent as a decimal string converts to the same integer as one sent as a number |
| PyInt.GroupedLiteral | main.py:103-105 | `int(" 1_000\n") == 1000`: surrounding whitespace and single underscores are accepted |
| PyInt.SignedLiteral | main.py:103-105 | `int("-07") == -7`: a sign and leading zeros are accepted |
| PyInt.RejectedLiterals | main.py:103-105 | `int()` raises for a double underscore, trailing text such as a unit, the empty string, and a leading U+001C separator |
| JsonValue.Truthy | main.py:145 | Python's truthiness: the falsy values are exactly null, false, 0, "", the empty list and the empty dict |
| JsonValue.Get | main.py:145-149 | `v.get(k, default)`: raises (None) exactly when `v` is not a dict; otherwise the stored value when the key is there, else the default |
| Extraction.Extract | main.py:76-89 | a failed model call gives the error marker; otherwise the result is exactly what the parser returned on the cleaned text, or the marker when the parser raised |
| Reconciliation.FieldText | main.py:169-171 | a partial-reply field is "N/A" exactly when the value is missing or null, and otherwise the value itself |
| Reconciliation.Fallback | main.py:179-182 | the `elif`/`else` as written: "Error encountered" exactly for truthy non-dict data, "couldn't read" exactly when a truthy value sits under key `False`, otherwise the generic reply carrying the data |
| Reconciliation.Reconcile | main.py:144-184 | save requested iff a truthy dict has status "success" and non-null SBP, DBP and HR, with those three values; partial reply iff success with a dict of values and some value missing, showing each field or "N/A"; error reply iff `.get` hits a non-dict (truthy non-object data, or success with non-object values); "couldn't read" iff a truthy value sits under key `False`, so never for string-keyed objects; otherwise the generic reply carrying the data |
| Reconciliation.Finish | main.py:153-167 | a save request is answered with its three values and the save's outcome as the note; any other decision keeps its reply |
| Reconciliation.FinishAfterReconcile | main.py:144-167 | the saved/not-saved reply is sent exactly for complete readings, and its note is the outcome of the save |
| Reconciliation.IntendedFallback | main.py:179-182 | the `elif` with the evidently intended test `bp_data.get('status') == "failed"`: "couldn't read" exactly for status "failed" |
| Reconciliation.ReconcileIntended | main.py:144-184 | the chain with that corrected `elif`: the same saves and errors as `Reconcile`, and "couldn't read" exactly for status "failed" |
| Reconciliation.ElifAsWrittenVersusIntended | main.py:179 | on string-keyed data the code as written and as intended differ exactly at status "failed": generic reply instead of "couldn't read" |
| Reconciliation.FailedAnswerExample | main.py:179-182 | `{"status":"failed","values":{}}` gets the generic reply as written and "couldn't read" as intended |
| Reconciliation.CompleteExample | main.py:145-157 | `{"values":{"SBP":120,"DBP":80,"HR":70},"status":"success"}` requests a save of 120, 80, 70 |
| Reconciliation.PartialExample | main.py:168-178 | the same answer with DBP null requests no save and shows 120, N/A, 70 |
| Reconciliation.FalsyValuesArePresent | main.py:151 | values 0, false and "" count as present, so a save is requested |
| Reconciliation.FailedStatusFallsThrough | main.py:179-182 | a string-keyed answer with status "failed" gets the generic reply carrying the data, not "couldn't read" |
| Reconciliation.FalseKeySelectsCouldNotRead | main.py:179-180 | the `elif` as written selects "couldn't read" for a dict with a truthy value under key `False` |
| Reconciliation.MalformedValuesRaise | main.py:145-147 | success with `values` null or any other non-dict raises inside the `try` and gets the error reply |
| Bot.CountsAdd | main.py:185-186 | reply and save-call counts add up over concatenated traces |
| Bot.AfterProcessingCounts | main.py:153-186 | a processed photo yields exactly one result reply, and exactly one save call when a save is requested (none otherwise) |
| Bot.FailedExtractionGetsGenericReply | main.py:87-89 | a failed model call or parse produces the generic reply carrying the error marker, not "couldn't read" |
| Bot.FalsyReadingIsNotSaved | main.py:103-105 | the save requested for 0, false and "" fails, because `int("")` raises, and the reply carries the "could not save" note |
| Bot.ConfiguredIdRoundTrip | main.py:124 | a TELEGRAM_USER_ID written as the decimal chat id authorizes exactly that chat |
| Bot.BloodPressureBot.AuthorizedId | main.py:124 | `int(TELEGRAM_USER_ID)`: raises (None) when the setting is unset; otherwise exactly the setting's `int()` value, None when that raises |
| Bot.BloodPressureBot.constructor | main.py:26-48 | the bot starts with the configured user id, the client flag and an empty trace; the program stops when Firebase fails to start, so a bot without a client stands only for the guard at main.py:94 |
| Bot.BloodPressureBot.SaveReading | main.py:92-111 | without a client: false, nothing written; otherwise true iff every `int()` succeeds and the store accepts, writing exactly one record {timestamp, int(sbp), int(dbp), int(hr)}; false writes nothing |
| Bot.BloodPressureBot.ProcessPhoto | main.py:141-186 | after "Processing": the save call and record when a save is requested and succeeds, then exactly one reply whose note reflects the save; one more result reply, and one more save call exactly when a save is requested |
| Bot.BloodPressureBot.HandleImage | main.py:121-186 | unusable configured id: nothing sent; another chat (the check compares the chat id, not the sender): only the rejection; no photo: only "Please send an image file."; image not fetched: only "Processing"; otherwise "Processing", the save call and record when requested, then one reply whose save note reflects the save; result and save counts rise by one each only then |

## Findings

| source | as written | input that shows it | evidently intended | confidence | as-written member | corrected member |
|---|---|---|---|---|---|---|
| main.py:179 | `bp_data.get('status' == "failed")` looks up the key `False`, which no parsed answer has | `{"status": "failed", "values": {}}` gets "something went wrong" with the data | `bp_data.get('status') == "failed"`, giving the "couldn't read, try a clearer picture" reply | high; not executed | Reconciliation.FailedStatusFallsThrough | Reconciliation.ReconcileIntended |

`Reconciliation.ElifAsWrittenVersusIntended` proves that the two chains agree on
every string-keyed answer except those with status "failed", and
`Reconciliation.FailedAnswerExample` shows the difference on one answer. The
handler in `Bot` keeps the chain as written, because that is what the program runs.

## Left out

- Telegram I/O (`send_message`, `get_file`, `download_as_bytearray`, the choice of `photo[-1]`, handler registration, `run_polling`) is out of scope. Messages appear only as trace entries, and a send is assumed to succeed. The "exactly one result reply" of `Bot.AfterProcessingCounts`, `Bot.BloodPressureBot.ProcessPhoto` and `Bot.BloodPressureBot.HandleImage` rests on this: the reply at main.py:186 is sent with Markdown parsing, and a traceback or model data holding an unclosed `_` or `*` may be refused by Telegram, so that the user gets no reply.
- The `/start` handler (main.py:114-119) is left out. It only sends a fixed greeting.
- The Gemini call and PIL decoding are left out as external services. The model's text is an input (`response`), and whether the photo was downloaded and opened is an input (`imageFetched`).
- `json_repair.loads` is a foreign tolerant parser. It is the parameter `repair`, which may return any value or fail.
- The Firestore client, `datetime.now` and the `Asia/Singapore` zone are outside the model. The clock is the `now` input, and the store's answer is `storeAccepts`.
- Configuration loading, Firebase start-up and logging (main.py:10-49, 189-211) are start-up plumbing. Only the `TELEGRAM_USER_ID` setting and the presence of a client are kept.
- Floating-point values, and the truncation `int()` applies to them, are not modelled. Parsed numbers are integers.
- PyInt.ParseIntLiteral: non-ASCII Unicode decimal digits, which Python's `int()` also accepts, are not modelled. Neither is Python's limit on int/str conversion (4300 digits by default since CPython 3.11 and in the 3.7-3.10 security releases): a literal of more than 4300 digits converts here, where `int()` raises and the save returns false.
- PyInt.DecimalRoundTrip: holds for every integer because the digit limit is not modelled; in Python `str()` raises for an integer of more than 4300 digits.
- Bot.BloodPressureBot.HandleImage, Bot.BloodPressureBot.ProcessPhoto, Reconciliation.Reconcile and Reconciliation.Finish: with the digit limit left out, an answer holding an integer of more than 4300 digits gets the extracted-values, partial or generic reply here. In Python the f-string that renders it (main.py:158-162, 172-178 or 182) raises, and the reply is "Error encountered".
- The Markdown wording, emoji and traceback text of the replies are not modelled. Replies are given by branch and the values they interpolate.
- Exceptions raised by `send_message` itself are not modelled. Neither is the `error_handler` that logs exceptions escaping a handler.
