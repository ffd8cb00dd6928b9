/** The availability check: validate the request, answer from the cache when the key
    is present, otherwise look for a slot row with a free table big enough for the
    party, cache the answer for two minutes and return it. */
module Availability {
  import opened Text
  import opened Store

  const CachePrefix: string := "availability:"
  const CacheTtlSeconds: nat := 120

  datatype AvailabilityRequest = AvailabilityRequest(date: Option<string>, time: Option<string>, partySize: Option<int>)

  /** The 200 body built on a miss (and whatever was cached on a hit). */
  datatype AvailabilityResponse = AvailabilityResponse(
    available: bool,
    date: string,
    time: string,
    partySize: int,
    message: string,
    tablesAvailable: Option<int>)

  datatype AvailabilityReply =
    | MissingParameters                                  // 400
    | Answer(body: AvailabilityResponse)                 // 200
    | ServiceUnavailable(available: bool, message: string) // 500

  /** `date`, `time` and `party_size` all truthy. */
  predicate ValidRequest(req: AvailabilityRequest) {
    Present(req.date) && Present(req.time) && PresentNumber(req.partySize)
  }

  /** `availability:${date}:${time}:${party_size}`: the prefix, the date and a ':',
      then the time, and after the last ':' the party size in decimal. */
  function CacheKey(date: string, time: string, partySize: int): (key: string)
    ensures StartsWith(key, CachePrefix + date + ":")
    ensures var n := IntToString(partySize); |key| > |n| && key[|key| - |n| - 1..] == ":" + n
    ensures var n := IntToString(partySize);
            && |key| == |CachePrefix| + |date| + |time| + |n| + 2
            && key[|CachePrefix| + |date| + 1..|key| - |n| - 1] == time
  {
    CachePrefix + date + ":" + time + ":" + IntToString(partySize)
  }

  /** Requests that differ get different cache entries, provided the dates have no ':'
      (times such as "19:00" may). */
  lemma CacheKeyInjective(d1: string, t1: string, p1: int, d2: string, t2: string, p2: int)
    requires ':' !in d1 && ':' !in d2
    requires CacheKey(d1, t1, p1) == CacheKey(d2, t2, p2)
    ensures d1 == d2 && t1 == t2 && p1 == p2
  {
    var k1, k2 := CacheKey(d1, t1, p1), CacheKey(d2, t2, p2);
    var n1, n2 := IntToString(p1), IntToString(p2);
    var tail1, tail2 := t1 + ":" + n1, t2 + ":" + n2;
    assert k1 == CachePrefix + (d1 + ":" + tail1);
    assert k2 == CachePrefix + (d2 + ":" + tail2);
    assert k1[|CachePrefix|..] == d1 + ":" + tail1;
    assert k2[|CachePrefix|..] == d2 + ":" + tail2;
    SplitAtFirstColon(d1, tail1, d2, tail2);
    assert ':' !in n1 && ':' !in n2;
    SplitAtLastColon(t1, n1, t2, n2);
    IntToStringInjective(p1, p2);
  }

  /** The `WHERE` clause of the slot query. */
  predicate SlotMatches(s: Slot, date: string, time: string, partySize: int) {
    s.date == date && s.timeSlot == time && s.availableTables > 0 && s.maxPartySize >= partySize
  }

  /** The slot query with `LIMIT 1`: the first matching row, if any. */
  function FirstMatch(slots: seq<Slot>, date: string, time: string, partySize: int): (r: Option<Slot>)
    ensures r.Some? ==> r.value in slots && SlotMatches(r.value, date, time, partySize)
    ensures r.None? <==> forall s :: s in slots ==> !SlotMatches(s, date, time, partySize)
    decreases |slots|
  {
    if |slots| == 0 then None
    else if SlotMatches(slots[0], date, time, partySize) then Some(slots[0])
    else FirstMatch(slots[1..], date, time, partySize)
  }

  /** The response computed on a cache miss. */
  function Evaluate(slots: seq<Slot>, date: string, time: string, partySize: int): (r: AvailabilityResponse)
    ensures r.available <==> exists s :: s in slots && SlotMatches(s, date, time, partySize)
    ensures r.tablesAvailable.Some? <==> r.available
    ensures r.available ==> r.tablesAvailable.value > 0
    ensures r.available ==> r.tablesAvailable == Some(FirstMatch(slots, date, time, partySize).value.availableTables)
    ensures r.date == date && r.time == time && r.partySize == partySize
  {
    var first := FirstMatch(slots, date, time, partySize);
    var size := IntToString(partySize);
    if first.Some? then
      AvailabilityResponse(true, date, time, partySize,
        "Table available for " + size + " guests on " + date + " at " + time,
        Some(first.value.availableTables))
    else
      AvailabilityResponse(false, date, time, partySize,
        "Sorry, no tables available for " + size + " guests at that time. Would you like to try a different time?",
        None)
  }

  const UnavailableMessage: string := "Unable to check availability at this time. Please try again."

  /** The handler. `fault` names the statement that throws, if any; a throw at a
      statement the run does not reach has no effect. */
  method CheckAvailability(db: Database, kv: KvStore<AvailabilityResponse>, req: AvailabilityRequest, fault: CacheAsideFault)
    returns (reply: AvailabilityReply)
    modifies kv
    ensures !ValidRequest(req) ==> reply == MissingParameters && kv.entries == old(kv.entries)
    ensures ValidRequest(req) && fault == CacheReadFails ==>
      reply == ServiceUnavailable(false, UnavailableMessage) && kv.entries == old(kv.entries)
    ensures ValidRequest(req) && fault != CacheReadFails ==>
      var key := CacheKey(req.date.value, req.time.value, req.partySize.value);
      var computed := Evaluate(db.slots, req.date.value, req.time.value, req.partySize.value);
      && (key in old(kv.entries) ==> reply == Answer(old(kv.entries)[key].value) && kv.entries == old(kv.entries))
      && (key !in old(kv.entries) && fault == NoFault ==>
            reply == Answer(computed) && kv.entries == old(kv.entries)[key := CacheEntry(computed, CacheTtlSeconds)])
      && (key !in old(kv.entries) && fault != NoFault ==>
            reply == ServiceUnavailable(false, UnavailableMessage) && kv.entries == old(kv.entries))
  {
    if !(Present(req.date) && Present(req.time) && PresentNumber(req.partySize)) {
      return MissingParameters;
    }
    var date, time, partySize := req.date.value, req.time.value, req.partySize.value;
    if fault == CacheReadFails {
      return ServiceUnavailable(false, UnavailableMessage);
    }
    var key := CacheKey(date, time, partySize);
    var cached := kv.Get(key);
    if cached.Some? {
      return Answer(cached.value);
    }
    if fault == QueryFails {
      return ServiceUnavailable(false, UnavailableMessage);
    }
    var response := Evaluate(db.slots, date, time, partySize);
    if fault == CacheWriteFails {
      return ServiceUnavailable(false, UnavailableMessage);
    }
    kv.Set(key, response, CacheTtlSeconds);
    reply := Answer(response);
  }
}
