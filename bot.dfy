/**
 * The photo handler and the Firestore save, as methods of the bot that
 * append what they do to a trace: the chat messages sent, the save calls
 * made and the records written.
 */
module Bot {
  import opened Wrappers
  import opened JsonValue
  import opened PyInt
  import opened Extraction
  import opened Reconciliation

  /** The instant `datetime.now` reads in the Asia/Singapore zone, taken as an input. */
  datatype Timestamp = Instant(ticks: int)

  /** A document of the 'readings' collection: exactly these four fields. */
  datatype Record = Record(timestamp: Timestamp, sbp: int, dbp: int, hr: int)

  /** The chat messages the handler sends. */
  datatype Message =
    | NotAuthorized   // "Sorry, you are not authorized to use this bot."
    | SendImage       // "Please send an image file."
    | Processing      // "Processing your image, please wait..."
    | Result(reply: Reply)

  datatype Event =
    | Sent(chatId: int, message: Message)
    | SaveCalled(sbp: Json, dbp: Json, hr: Json)
    | Stored(record: Record)

  /** The number of result replies in a trace. */
  ghost function ResultCount(events: seq<Event>): nat {
    if events == [] then 0
    else ResultCount(events[..|events| - 1]) + (if events[|events| - 1].Sent? && events[|events| - 1].message.Result? then 1 else 0)
  }

  /** The number of save calls in a trace. */
  ghost function SaveCount(events: seq<Event>): nat {
    if events == [] then 0
    else SaveCount(events[..|events| - 1]) + (if events[|events| - 1].SaveCalled? then 1 else 0)
  }

  lemma {:induction false} CountsAdd(a: seq<Event>, b: seq<Event>)
    ensures ResultCount(a + b) == ResultCount(a) + ResultCount(b)
    ensures SaveCount(a + b) == SaveCount(a) + SaveCount(b)
    decreases |b|
  {
    if b == [] {
      assert a + b == a;
    } else {
      CountsAdd(a, b[..|b| - 1]);
      assert (a + b)[..|a + b| - 1] == a + b[..|b| - 1];
    }
  }

  /**
   * What follows the "Processing" message for a photo whose answer led to
   * `d`: when a save is requested, the save call and the record written,
   * if any; then the one result reply, which says whether a record was written.
   */
  ghost function AfterProcessing(chatId: int, d: Decision, written: Option<Record>): seq<Event> {
    (if d.Save? then [SaveCalled(d.sbp, d.dbp, d.hr)] + (if written.Some? then [Stored(written.value)] else []) else [])
      + [Sent(chatId, Result(Finish(d, written.Some?)))]
  }

  /** A processed photo gets exactly one result reply, and a save call only when one is requested. */
  lemma AfterProcessingCounts(chatId: int, d: Decision, written: Option<Record>)
    ensures ResultCount(AfterProcessing(chatId, d, written)) == 1
    ensures SaveCount(AfterProcessing(chatId, d, written)) == (if d.Save? then 1 else 0)
  {
    var reply := [Sent(chatId, Result(Finish(d, written.Some?)))];
    if d.Save? {
      var record := if written.Some? then [Stored(written.value)] else [];
      CountsAdd([SaveCalled(d.sbp, d.dbp, d.hr)], record);
      CountsAdd([SaveCalled(d.sbp, d.dbp, d.hr)] + record, reply);
    } else {
      assert AfterProcessing(chatId, d, written) == reply;
    }
  }

  /**
   * When the model call fails or its answer cannot be parsed, the reply is the
   * generic one carrying the error marker, not the "couldn't read" reply.
   */
  lemma FailedExtractionGetsGenericReply(response: Option<string>, repair: string -> Option<Json>)
    requires response.None? || repair(Cleaning.Clean(response.value)).None?
    ensures Reconcile(Extract(response, repair)) == Answer(SomethingWrong(ErrorMarker))
  {
  }

  /** A TELEGRAM_USER_ID written as the decimal chat id authorizes exactly that chat. */
  lemma ConfiguredIdRoundTrip(bot: BloodPressureBot, chatId: int)
    requires bot.userIdSetting == Some(Decimal(chatId))
    ensures bot.AuthorizedId() == Some(chatId)
  {
    DecimalRoundTrip(chatId);
  }

  /**
   * The falsy readings 0, false and "" request a save, but `int("")` raises:
   * nothing is written, and the reply carries the "could not save" note.
   */
  lemma FalsyReadingIsNotSaved(bot: BloodPressureBot, storeAccepts: bool)
    ensures Reconcile(FalsyAnswer()).Save?
    ensures !bot.SaveSucceeds(JInt(0), JBool(false), JStr(""), storeAccepts)
    ensures Finish(Reconcile(FalsyAnswer()), false) == Extracted(JInt(0), JBool(false), JStr(""), false)
  {
    FalsyValuesArePresent();
    RejectedLiterals();
  }

  class BloodPressureBot {
    /** The TELEGRAM_USER_ID setting, None when it is not set. */
    const userIdSetting: Option<string>
    /**
     * Whether the Firestore client was created at start-up. The program
     * stops when Firebase fails to start, so a bot without a client only
     * stands for the guard at the top of `save_reading_to_firestore`.
     */
    const dbAvailable: bool
    ghost var trace: seq<Event>

    constructor (userIdSetting: Option<string>, dbAvailable: bool)
      ensures this.userIdSetting == userIdSetting && this.dbAvailable == dbAvailable
      ensures trace == []
    {
      this.userIdSetting := userIdSetting;
      this.dbAvailable := dbAvailable;
      trace := [];
    }

    /** `int(TELEGRAM_USER_ID)`; None when the setting is unset or not an integer, so the conversion raises. */
    function AuthorizedId(): (id: Option<int>)
      // an unset setting raises; a set one converts as `int()` does
      ensures userIdSetting.None? ==> id.None?
      ensures id.Some? ==> userIdSetting.Some? && ParseIntLiteral(userIdSetting.value) == id
      ensures userIdSetting.Some? ==> id == ParseIntLiteral(userIdSetting.value)
    {
      match userIdSetting
      case None => None
      case Some(setting) => ParseIntLiteral(setting)
    }

    /** The save writes a record: a client exists, every value converts, and the store accepts the write. */
    predicate SaveSucceeds(sbp: Json, dbp: Json, hr: Json, storeAccepts: bool) {
      dbAvailable && storeAccepts && IntOf(sbp).Some? && IntOf(dbp).Some? && IntOf(hr).Some?
    }

    /**
     * `save_reading_to_firestore`. Without a client it returns false and
     * writes nothing. Otherwise it writes one record holding the timestamp
     * and the `int()` of each value; a conversion that raises or a store that
     * fails (`storeAccepts` false) makes it return false without writing.
     */
    method SaveReading(sbp: Json, dbp: Json, hr: Json, now: Timestamp, storeAccepts: bool) returns (saved: bool)
      modifies this`trace
      ensures !dbAvailable ==> !saved
      ensures saved <==> SaveSucceeds(sbp, dbp, hr, storeAccepts)
      ensures saved ==> trace == old(trace) + [Stored(Record(now, IntOf(sbp).value, IntOf(dbp).value, IntOf(hr).value))]
      ensures !saved ==> trace == old(trace)
    {
      if !dbAvailable {
        return false;
      }
      var s, d, h := IntOf(sbp), IntOf(dbp), IntOf(hr);
      if s.None? || d.None? || h.None? || !storeAccepts {
        return false;
      }
      trace := trace + [Stored(Record(now, s.value, d.value, h.value))];
      return true;
    }

    /**
     * The part of `image_handler` after "Processing" is sent: the answer is
     * extracted and reconciled, a requested save is made, and exactly one
     * reply follows, whose note says whether a record was written.
     */
    method ProcessPhoto(chatId: int, response: Option<string>, repair: string -> Option<Json>,
                        now: Timestamp, storeAccepts: bool)
      modifies this`trace
      ensures
        var d := Reconcile(Extract(response, repair));
        var saved := d.Save? && SaveSucceeds(d.sbp, d.dbp, d.hr, storeAccepts);
        var written := if saved then Some(Record(now, IntOf(d.sbp).value, IntOf(d.dbp).value, IntOf(d.hr).value)) else None;
        trace == old(trace) + AfterProcessing(chatId, d, written)
      ensures ResultCount(trace) == ResultCount(old(trace)) + 1
      ensures SaveCount(trace) == SaveCount(old(trace)) + (if Reconcile(Extract(response, repair)).Save? then 1 else 0)
    {
      ghost var processing := trace;
      var data := Extract(response, repair);
      var decision := Reconcile(data);
      var saved := false;
      ghost var written: Option<Record> := None;
      if decision.Save? {
        trace := trace + [SaveCalled(decision.sbp, decision.dbp, decision.hr)];
        saved := SaveReading(decision.sbp, decision.dbp, decision.hr, now, storeAccepts);
        if saved {
          written := Some(Record(now, IntOf(decision.sbp).value, IntOf(decision.dbp).value, IntOf(decision.hr).value));
        }
      }
      trace := trace + [Sent(chatId, Result(Finish(decision, saved)))];
      assert trace == processing + AfterProcessing(chatId, decision, written);
      AfterProcessingCounts(chatId, decision, written);
      CountsAdd(processing, AfterProcessing(chatId, decision, written));
    }

    /**
     * `image_handler`. `hasPhoto` says whether the message carries a photo;
     * `imageFetched` whether the download and the opening of the image
     * succeeded (both happen outside any `try`, so a failure ends the
     * handler); `response`, `repair`, `now` and `storeAccepts` stand for the
     * model, the parser, the clock and the store.
     */
    method HandleImage(chatId: int, hasPhoto: bool, imageFetched: bool,
                       response: Option<string>, repair: string -> Option<Json>,
                       now: Timestamp, storeAccepts: bool)
      modifies this`trace
      // an unusable TELEGRAM_USER_ID raises before anything is sent
      ensures AuthorizedId().None? ==> trace == old(trace)
      // another chat gets the rejection and nothing else
      ensures AuthorizedId().Some? && chatId != AuthorizedId().value ==>
        trace == old(trace) + [Sent(chatId, NotAuthorized)]
      ensures AuthorizedId() == Some(chatId) && !hasPhoto ==>
        trace == old(trace) + [Sent(chatId, SendImage)]
      ensures AuthorizedId() == Some(chatId) && hasPhoto && !imageFetched ==>
        trace == old(trace) + [Sent(chatId, Processing)]
      // a processed photo: "Processing", the save if one is requested, then exactly one reply
      ensures AuthorizedId() == Some(chatId) && hasPhoto && imageFetched ==>
        var d := Reconcile(Extract(response, repair));
        var saved := d.Save? && SaveSucceeds(d.sbp, d.dbp, d.hr, storeAccepts);
        var written := if saved then Some(Record(now, IntOf(d.sbp).value, IntOf(d.dbp).value, IntOf(d.hr).value)) else None;
        trace == old(trace) + [Sent(chatId, Processing)] + AfterProcessing(chatId, d, written)
      ensures ResultCount(trace) == ResultCount(old(trace)) + (if AuthorizedId() == Some(chatId) && hasPhoto && imageFetched then 1 else 0)
      ensures SaveCount(trace) == SaveCount(old(trace)) +
        (if AuthorizedId() == Some(chatId) && hasPhoto && imageFetched && Reconcile(Extract(response, repair)).Save? then 1 else 0)
    {
      var allowed := AuthorizedId();
      if allowed.None? {
        return;
      }
      if chatId != allowed.value {
        CountsAdd(trace, [Sent(chatId, NotAuthorized)]);
        trace := trace + [Sent(chatId, NotAuthorized)];
        return;
      }
      if !hasPhoto {
        CountsAdd(trace, [Sent(chatId, SendImage)]);
        trace := trace + [Sent(chatId, SendImage)];
        return;
      }
      CountsAdd(trace, [Sent(chatId, Processing)]);
      trace := trace + [Sent(chatId, Processing)];
      if !imageFetched {
        return;
      }
      ProcessPhoto(chatId, response, repair, now, storeAccepts);
    }
  }
}
