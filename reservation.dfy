/** Reservation creation: validate, mint a confirmation code, insert the reservation
    with status "confirmed", then, as a separate statement, take one table off the
    matching availability rows that still have one. The two writes are not one
    transaction, and the cached availability answers are left alone. */
module Reservation {
  import opened Text
  import opened Store
  import Availability

  const CodePrefix: string := "RES"
  const CodeAlphabet: string := "ABCDEFGHIJKLMNOPQRSTUVWXYZ0123456789"

  predicate IsCodeChar(c: char) {
    'A' <= c <= 'Z' || '0' <= c <= '9'
  }

  /** "RES" followed by six characters from A-Z0-9. */
  predicate IsConfirmationCode(code: string) {
    |code| == 9 && code[..3] == CodePrefix && forall i :: 3 <= i < 9 ==> IsCodeChar(code[i])
  }

  /** The code the generator builds from six draws. */
  function ConfirmationCode(draws: seq<nat>): string
    requires |draws| == 6 && forall i :: 0 <= i < 6 ==> draws[i] < |CodeAlphabet|
  {
    CodePrefix + seq(6, i requires 0 <= i < 6 => CodeAlphabet[draws[i]])
  }

  lemma CodeAlphabetChars()
    ensures forall i :: 0 <= i < |CodeAlphabet| ==> IsCodeChar(CodeAlphabet[i])
  {
    forall i | 0 <= i < |CodeAlphabet| ensures IsCodeChar(CodeAlphabet[i]) {
      if i < 26 {
        assert CodeAlphabet[i] as int == 'A' as int + i;
      } else {
        assert CodeAlphabet[i] as int == '0' as int + (i - 26);
      }
    }
  }

  /** Every code the generator can build has the confirmation-code format, and the
      alphabet is exactly the 36 characters A-Z0-9. */
  lemma ConfirmationCodeFormat(draws: seq<nat>)
    requires |draws| == 6 && forall i :: 0 <= i < 6 ==> draws[i] < |CodeAlphabet|
    ensures IsConfirmationCode(ConfirmationCode(draws))
    ensures forall c :: IsCodeChar(c) <==> c in CodeAlphabet
  {
    CodeAlphabetChars();
    forall c | IsCodeChar(c) ensures c in CodeAlphabet {
      if 'A' <= c <= 'Z' {
        assert CodeAlphabet[c as int - 'A' as int] == c;
      } else {
        assert CodeAlphabet[26 + c as int - '0' as int] == c;
      }
    }
  }

  /** `generateConfirmationCode()`, with the six `Math.random()` draws as indices. */
  method GenerateConfirmationCode(draws: seq<nat>) returns (code: string)
    requires |draws| == 6 && forall i :: 0 <= i < 6 ==> draws[i] < |CodeAlphabet|
    ensures code == ConfirmationCode(draws)
    ensures IsConfirmationCode(code)
  {
    code := RandomCode(CodePrefix, CodeAlphabet, draws);
    assert code == CodePrefix + code[3..];
    ConfirmationCodeFormat(draws);
  }

  datatype ReservationRequest = ReservationRequest(
    customerName: Option<string>,
    customerPhone: Option<string>,
    customerEmail: Option<string>,
    partySize: Option<int>,
    date: Option<string>,
    time: Option<string>,
    specialRequests: Option<string>,
    dietaryRestrictions: Option<seq<string>>,
    occasion: Option<string>,
    sessionId: Option<string>)

  /** The five required fields are all truthy. */
  predicate ValidRequest(req: ReservationRequest) {
    && Present(req.customerName) && Present(req.customerPhone) && PresentNumber(req.partySize)
    && Present(req.date) && Present(req.time)
  }

  /** `JSON.stringify` of one string: quoted, with '"' and '\' escaped. */
  function JsonString(s: string): string {
    "\"" + JsonEscape(s) + "\""
  }

  function JsonEscape(s: string): string
    decreases |s|
  {
    if |s| == 0 then ""
    else
      var head := if s[0] == '"' || s[0] == '\\' then ['\\', s[0]] else [s[0]];
      head + JsonEscape(s[1..])
  }

  /** `JSON.stringify` of a list of strings. */
  function JsonList(xs: seq<string>): string {
    "[" + Join(seq(|xs|, i requires 0 <= i < |xs| => JsonString(xs[i])), ",") + "]"
  }

  /** The row the insert writes: the booking as requested, confirmed under the new code,
      with every optional text field stored as given or null. */
  function NewRow(id: int, code: string, req: ReservationRequest): (row: ReservationRow)
    requires ValidRequest(req)
    ensures row.status == "confirmed"
    ensures row.confirmationCode == code && row.id == id
    ensures row.dietaryRestrictions.Some? <==> req.dietaryRestrictions.Some?
    ensures req.dietaryRestrictions.Some? ==> row.dietaryRestrictions.value == JsonList(req.dietaryRestrictions.value)
    ensures row.customerName == req.customerName.value && row.customerPhone == req.customerPhone.value
    ensures row.partySize == req.partySize.value && row.date == req.date.value && row.time == req.time.value
    ensures StoredAsGiven(row.customerEmail, req.customerEmail)
    ensures StoredAsGiven(row.specialRequests, req.specialRequests)
    ensures StoredAsGiven(row.occasion, req.occasion)
    ensures StoredAsGiven(row.sessionId, req.sessionId)
  {
    ReservationRow(
      id, code,
      req.customerName.value, req.customerPhone.value, OrNull(req.customerEmail),
      req.partySize.value, req.date.value, req.time.value,
      OrNull(req.specialRequests),
      if req.dietaryRestrictions.Some? then Some(JsonList(req.dietaryRestrictions.value)) else None,
      OrNull(req.occasion),
      "confirmed",
      OrNull(req.sessionId))
  }

  const ConflictMessage: string := "Please try again - confirmation code conflict"
  const FallbackMessage: string :=
    "Unable to complete reservation at this time. Please try again or call us directly at +356 2133 7367."

  /** The catch block: an error whose message mentions `confirmation_code` (a code
      collision) asks for a retry; anything else gives the phone fallback. */
  function FailureMessage(errorMessage: string): (m: string)
    ensures m == ConflictMessage <==> Contains(errorMessage, "confirmation_code")
    ensures m == FallbackMessage <==> !Contains(errorMessage, "confirmation_code")
  {
    if Contains(errorMessage, "confirmation_code") then ConflictMessage else FallbackMessage
  }

  datatype ReservationReply =
    | MissingParameters                                    // 400
    | Confirmed(
        confirmationCode: string,
        reservationId: int,
        customerName: string,
        partySize: int,
        date: string,
        time: string,
        specialRequests: Option<string>,
        dietaryRestrictions: Option<seq<string>>,
        occasion: Option<string>,
        message: string)                                   // 200
    | Failed(message: string)                              // 500

  /** Rows whose tables the decrement takes one off. */
  predicate Decrementable(s: Slot, date: string, time: string) {
    s.date == date && s.timeSlot == time && s.availableTables > 0
  }

  function TotalTables(slots: seq<Slot>): int
    decreases |slots|
  {
    if |slots| == 0 then 0 else TotalTables(slots[..|slots| - 1]) + slots[|slots| - 1].availableTables
  }

  function CountDecrementable(slots: seq<Slot>, date: string, time: string): nat
    decreases |slots|
  {
    if |slots| == 0 then 0
    else
      var last := if Decrementable(slots[|slots| - 1], date, time) then 1 else 0;
      CountDecrementable(slots[..|slots| - 1], date, time) + last
  }

  /** Across the whole table, the decrement removes exactly one table per matching row
      that had one; with no such row it changes nothing. */
  lemma {:induction false} DecrementRemovesOnePerMatchingRow(slots: seq<Slot>, date: string, time: string)
    ensures TotalTables(Decremented(slots, date, time)) == TotalTables(slots) - CountDecrementable(slots, date, time)
    ensures CountDecrementable(slots, date, time) == 0 ==> Decremented(slots, date, time) == slots
    decreases |slots|
  {
    var d := Decremented(slots, date, time);
    if |slots| > 0 {
      var n := |slots|;
      var front := slots[..n - 1];
      DecrementRemovesOnePerMatchingRow(front, date, time);
      assert d[..n - 1] == Decremented(front, date, time);
      assert TotalTables(d) == TotalTables(d[..n - 1]) + d[n - 1].availableTables;
    } else {
      assert d == [];
    }
  }

  /** The handler. `insertError` and `updateError` are the messages of the errors the
      two statements raise, if they do. */
  method CreateReservation(
    db: Database, kv: KvStore<Availability.AvailabilityResponse>, req: ReservationRequest,
    draws: seq<nat>, newId: int, insertError: Option<string>, updateError: Option<string>)
    returns (reply: ReservationReply)
    requires |draws| == 6 && forall i :: 0 <= i < 6 ==> draws[i] < |CodeAlphabet|
    modifies db`reservations, db`slots
    ensures kv.entries == old(kv.entries)
    ensures !ValidRequest(req) ==>
      reply == MissingParameters && db.reservations == old(db.reservations) && db.slots == old(db.slots)
    ensures ValidRequest(req) && insertError.Some? ==>
      && reply == Failed(FailureMessage(insertError.value))
      && db.reservations == old(db.reservations) && db.slots == old(db.slots)
    ensures ValidRequest(req) && insertError.None? ==>
      db.reservations == old(db.reservations) + [NewRow(newId, ConfirmationCode(draws), req)]
    ensures ValidRequest(req) && insertError.None? && updateError.Some? ==>
      reply == Failed(FailureMessage(updateError.value)) && db.slots == old(db.slots)
    ensures ValidRequest(req) && insertError.None? && updateError.None? ==>
      && db.slots == Decremented(old(db.slots), req.date.value, req.time.value)
      && reply == Confirmed(
           ConfirmationCode(draws), newId, req.customerName.value, req.partySize.value,
           req.date.value, req.time.value, req.specialRequests, req.dietaryRestrictions, req.occasion,
           "Reservation confirmed! Confirmation code: " + ConfirmationCode(draws))
  {
    if !(Present(req.customerName) && Present(req.customerPhone) && PresentNumber(req.partySize)
         && Present(req.date) && Present(req.time)) {
      return MissingParameters;
    }
    var code := GenerateConfirmationCode(draws);
    if insertError.Some? {
      return Failed(FailureMessage(insertError.value));
    }
    db.InsertReservation(NewRow(newId, code, req));
    if updateError.Some? {
      // The reservation row stays: the decrement is a separate statement.
      return Failed(FailureMessage(updateError.value));
    }
    db.DecrementAvailability(req.date.value, req.time.value);
    reply := Confirmed(
      code, newId, req.customerName.value, req.partySize.value,
      req.date.value, req.time.value, req.specialRequests, req.dietaryRestrictions, req.occasion,
      "Reservation confirmed! Confirmation code: " + code);
  }

  /** A reservation for a slot with no free table still succeeds and leaves the table
      as it was. */
  lemma FullSlotStillConfirms(slots: seq<Slot>, date: string, time: string)
    requires forall s :: s in slots && s.date == date && s.timeSlot == time ==> s.availableTables <= 0
    ensures Decremented(slots, date, time) == slots
  {
    forall i | 0 <= i < |slots| ensures !Decrementable(slots[i], date, time) {
      assert slots[i] in slots;
    }
    CountNoneDecrementable(slots, date, time);
    DecrementRemovesOnePerMatchingRow(slots, date, time);
  }

  lemma {:induction false} CountNoneDecrementable(slots: seq<Slot>, date: string, time: string)
    requires forall i :: 0 <= i < |slots| ==> !Decrementable(slots[i], date, time)
    ensures CountDecrementable(slots, date, time) == 0
    decreases |slots|
  {
    if |slots| > 0 {
      CountNoneDecrementable(slots[..|slots| - 1], date, time);
    }
  }

  /** The cached availability answer outlives the reservation that used up the slot's
      last table: the check that follows is served from the cache and still says
      "available", while the table now has no free table left. */
  method StaleAnswerAfterReservation(
    db: Database, kv: KvStore<Availability.AvailabilityResponse>,
    date: string, time: string, partySize: int, req: ReservationRequest, draws: seq<nat>, newId: int)
    returns (before: Availability.AvailabilityReply, after: Availability.AvailabilityReply)
    requires date != "" && time != "" && partySize != 0
    requires kv.entries == map[]
    requires db.slots == [Slot(date, time, 1, partySize)]
    requires req.date == Some(date) && req.time == Some(time) && ValidRequest(req)
    requires |draws| == 6 && forall i :: 0 <= i < 6 ==> draws[i] < |CodeAlphabet|
    modifies db`reservations, db`slots, kv
    ensures before.Answer? && before.body.available
    ensures after == before
    ensures db.slots == [Slot(date, time, 0, partySize)]
    ensures !Availability.Evaluate(db.slots, date, time, partySize).available
  {
    var areq := Availability.AvailabilityRequest(Some(date), Some(time), Some(partySize));
    before := Availability.CheckAvailability(db, kv, areq, NoFault);
    assert Availability.SlotMatches(db.slots[0], date, time, partySize);
    var confirmed := CreateReservation(db, kv, req, draws, newId, None, None);
    assert db.slots == [Slot(date, time, 0, partySize)];
    after := Availability.CheckAvailability(db, kv, areq, NoFault);
  }
}
