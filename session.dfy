/** The voice-session endpoint's local logic: the per-address rate limiter and the
    check of the server-held provider key. The limiter keeps, per caller address, a
    count and the start of a fixed window. The window opens at the first accepted
    request and is not moved by later ones. At most `MaxSessionsPerIp` requests are
    accepted in one window. After every accepted request, entries older than the
    window are swept. */
module Session {
  import opened Text

  const MaxSessionsPerIp: int := 10
  const RateLimitWindow: int := 3600000

  /** What the map holds per caller address: `{ count, timestamp }`. */
  datatype Entry = Entry(count: int, timestamp: int)

  /** `now - timestamp < RATE_LIMIT_WINDOW`: the entry's window is still open. */
  predicate InWindow(e: Entry, now: int) {
    now - e.timestamp < RateLimitWindow
  }

  /** `now - timestamp > RATE_LIMIT_WINDOW`: the sweep deletes the entry. */
  predicate Stale(e: Entry, now: int) {
    now - e.timestamp > RateLimitWindow
  }

  /** The request is refused with 429: an open window whose count reached the cap. */
  predicate Limited(m: map<string, Entry>, ip: string, now: int) {
    ip in m && InWindow(m[ip], now) && m[ip].count >= MaxSessionsPerIp
  }

  /** The invariant the limiter keeps: every count lies in 1..MaxSessionsPerIp. */
  predicate CountsInRange(m: map<string, Entry>) {
    forall ip :: ip in m ==> 1 <= m[ip].count <= MaxSessionsPerIp
  }

  /** The accounting of an accepted request: one more in an open window, keeping the
      window's start; otherwise a new window opening now with count 1. */
  function Counted(m: map<string, Entry>, ip: string, now: int): (r: map<string, Entry>)
    requires !Limited(m, ip, now)
    ensures r.Keys == m.Keys + {ip}
    ensures forall k :: k in m && k != ip ==> r[k] == m[k]
    ensures ip in m && InWindow(m[ip], now) ==> r[ip] == Entry(m[ip].count + 1, m[ip].timestamp)
    ensures ip !in m || !InWindow(m[ip], now) ==> r[ip] == Entry(1, now)
  {
    if ip in m && InWindow(m[ip], now)
    then m[ip := Entry(m[ip].count + 1, m[ip].timestamp)]
    else m[ip := Entry(1, now)]
  }

  /** The map the clean-up loop leaves: exactly the entries that are not stale, each as
      it was. */
  function Swept(m: map<string, Entry>, now: int): (r: map<string, Entry>)
    ensures forall k :: k in r ==> !Stale(r[k], now)
    ensures forall k :: k in r ==> k in m && r[k] == m[k]
    ensures forall k :: k in m && !Stale(m[k], now) ==> k in r
  {
    map k | k in m && !Stale(m[k], now) :: m[k]
  }

  /** The outcome of one request against the limiter. */
  datatype Step = Step(accepted: bool, entries: map<string, Entry>)

  /** Lines 29-51 of the handler as one function: a refused request returns before
      anything is written or swept; an accepted one is counted, then the map is swept. */
  function Admission(m: map<string, Entry>, ip: string, now: int): (s: Step)
    ensures s.accepted <==> !Limited(m, ip, now)
    ensures !s.accepted ==> s.entries == m
    ensures s.accepted ==> s.entries == Swept(Counted(m, ip, now), now)
    ensures s.accepted ==> forall k :: k in s.entries ==> !Stale(s.entries[k], now)
  {
    if Limited(m, ip, now) then Step(false, m) else Step(true, Swept(Counted(m, ip, now), now))
  }

  /** An accepted request leaves the caller's own entry in place: counted, never swept. */
  lemma CallerNotSwept(m: map<string, Entry>, ip: string, now: int)
    requires !Limited(m, ip, now)
    ensures ip in Admission(m, ip, now).entries
    ensures Admission(m, ip, now).entries[ip] == Counted(m, ip, now)[ip]
  {
    var c := Counted(m, ip, now);
    assert !Stale(c[ip], now);
  }

  /** Every request keeps the counts in 1..MaxSessionsPerIp. */
  lemma AdmissionKeepsCounts(m: map<string, Entry>, ip: string, now: int)
    requires CountsInRange(m)
    ensures CountsInRange(Admission(m, ip, now).entries)
  {
    if !Limited(m, ip, now) {
      var c := Counted(m, ip, now);
      assert CountsInRange(c);
    }
  }

  /** A caller whose window has run out (`now - timestamp >= RATE_LIMIT_WINDOW`), or who
      has no entry, is admitted whatever the old count, with a fresh window. */
  lemma ElapsedWindowReopens(m: map<string, Entry>, ip: string, now: int)
    requires ip !in m || now - m[ip].timestamp >= RateLimitWindow
    ensures Admission(m, ip, now).accepted
    ensures ip in Admission(m, ip, now).entries
    ensures Admission(m, ip, now).entries[ip] == Entry(1, now)
  {
    CallerNotSwept(m, ip, now);
  }

  /** A sequence of requests from one address at the given times. */
  datatype Trace = Trace(entries: map<string, Entry>, decisions: seq<bool>)

  function Replay(m: map<string, Entry>, ip: string, times: seq<int>): (t: Trace)
    ensures |t.decisions| == |times|
    decreases |times|
  {
    if |times| == 0 then Trace(m, [])
    else
      var before := Replay(m, ip, times[..|times| - 1]);
      var step := Admission(before.entries, ip, times[|times| - 1]);
      Trace(step.entries, before.decisions + [step.accepted])
  }

  /** From a fresh window opened by the first request, up to MaxSessionsPerIp requests
      whose times fall inside that window are all admitted, and the caller's count is the
      number of requests while the window's start stays at the first request's time. */
  lemma {:induction false} AdmittedUpToCap(m: map<string, Entry>, ip: string, times: seq<int>)
    requires 1 <= |times| <= MaxSessionsPerIp
    requires ip !in m || !InWindow(m[ip], times[0])
    requires forall i :: 0 <= i < |times| ==> times[i] - times[0] < RateLimitWindow
    ensures ip in Replay(m, ip, times).entries
    ensures Replay(m, ip, times).entries[ip] == Entry(|times|, times[0])
    ensures forall i :: 0 <= i < |times| ==> Replay(m, ip, times).decisions[i]
    decreases |times|
  {
    var n := |times|;
    if n == 1 {
      assert times[..0] == [];
      CallerNotSwept(m, ip, times[0]);
    } else {
      var prefix := times[..n - 1];
      assert prefix[0] == times[0];
      AdmittedUpToCap(m, ip, prefix);
      var before := Replay(m, ip, prefix);
      assert !Limited(before.entries, ip, times[n - 1]);
      CallerNotSwept(before.entries, ip, times[n - 1]);
    }
  }

  /** The (MaxSessionsPerIp + 1)-th request inside one window is refused with 429, after
      the first MaxSessionsPerIp were admitted. */
  lemma CapReachedRefuses(m: map<string, Entry>, ip: string, times: seq<int>)
    requires |times| == MaxSessionsPerIp + 1
    requires ip !in m || !InWindow(m[ip], times[0])
    requires forall i :: 0 <= i < |times| ==> times[i] - times[0] < RateLimitWindow
    ensures forall i :: 0 <= i < MaxSessionsPerIp ==> Replay(m, ip, times).decisions[i]
    ensures !Replay(m, ip, times).decisions[MaxSessionsPerIp]
  {
    var prefix := times[..MaxSessionsPerIp];
    AdmittedUpToCap(m, ip, prefix);
    assert Limited(Replay(m, ip, prefix).entries, ip, times[MaxSessionsPerIp]);
  }

  /** `OPENAI_API_KEY` present and starting with "sk-". */
  predicate KeyConfigured(key: Option<string>) {
    key.Some? && StartsWith(key.value, "sk-")
  }

  /** What the local part of the handler decides before any call to the provider. */
  datatype SessionOutcome =
    | RateLimited          // 429 "Too many requests"
    | ConfigurationError   // 500 "Server configuration error"
    | ForwardToProvider    // the request to the voice provider is made

  /** The decision for one request; the key check runs only after the request counted. */
  function Decide(m: map<string, Entry>, ip: string, now: int, key: Option<string>): (r: SessionOutcome)
    ensures r == RateLimited <==> Limited(m, ip, now)
    ensures r == ConfigurationError <==> !Limited(m, ip, now) && !KeyConfigured(key)
    ensures r == ForwardToProvider <==> !Limited(m, ip, now) && KeyConfigured(key)
  {
    if !Admission(m, ip, now).accepted then RateLimited
    else if !KeyConfigured(key) then ConfigurationError
    else ForwardToProvider
  }

  /** A misconfigured key still uses up quota: a run of admitted requests that all end in
      a configuration error leaves the caller's count at the number of requests. */
  lemma MisconfiguredKeyConsumesQuota(m: map<string, Entry>, ip: string, times: seq<int>, key: Option<string>)
    requires !KeyConfigured(key)
    requires 1 <= |times| <= MaxSessionsPerIp
    requires ip !in m || !InWindow(m[ip], times[0])
    requires forall i :: 0 <= i < |times| ==> times[i] - times[0] < RateLimitWindow
    ensures forall i :: 0 <= i < |times| ==>
      Decide(Replay(m, ip, times[..i]).entries, ip, times[i], key) == ConfigurationError
    ensures Replay(m, ip, times).entries[ip].count == |times|
  {
    AdmittedUpToCap(m, ip, times);
    forall i | 0 <= i < |times|
      ensures Decide(Replay(m, ip, times[..i]).entries, ip, times[i], key) == ConfigurationError
    {
      var upTo := times[..i + 1];
      assert upTo[..i] == times[..i];
      AdmittedUpToCap(m, ip, upTo);
      assert Replay(m, ip, upTo).decisions[i];
    }
  }

  /** The process-wide `rateLimitMap`. */
  class RateLimiter {
    var entries: map<string, Entry>

    ghost predicate Valid()
      reads this
    {
      CountsInRange(entries)
    }

    constructor ()
      ensures Valid() && entries == map[]
    {
      entries := map[];
    }

    /** The rate-limit block: refuse (and change nothing) or count the request, then
        sweep stale entries. */
    method Request(ip: string, now: int) returns (accepted: bool)
      requires Valid()
      modifies this
      ensures Valid()
      ensures accepted <==> !Limited(old(entries), ip, now)
      ensures !accepted ==> entries == old(entries)
      ensures accepted ==> entries == Swept(Counted(old(entries), ip, now), now)
    {
      AdmissionKeepsCounts(entries, ip, now);
      if ip in entries {
        var e := entries[ip];
        if now - e.timestamp < RateLimitWindow {
          if e.count >= MaxSessionsPerIp {
            return false;
          }
          entries := entries[ip := Entry(e.count + 1, e.timestamp)];
        } else {
          entries := entries[ip := Entry(1, now)];
        }
      } else {
        entries := entries[ip := Entry(1, now)];
      }
      Sweep(now);
      accepted := true;
    }

    /** The clean-up loop over `rateLimitMap.entries()`, deleting stale entries. */
    method Sweep(now: int)
      modifies this
      ensures entries == Swept(old(entries), now)
    {
      var pending := entries.Keys;
      ghost var start := entries;
      while pending != {}
        invariant pending <= start.Keys
        invariant entries == map k | k in start && (k in pending || !Stale(start[k], now)) :: start[k]
        decreases pending
      {
        var ip :| ip in pending;
        if now - entries[ip].timestamp > RateLimitWindow {
          entries := map k | k in entries && k != ip :: entries[k];
        }
        pending := pending - {ip};
      }
    }

    /** The handler up to the provider call: rate limiting, then the key check. */
    method Handle(ip: string, now: int, key: Option<string>) returns (outcome: SessionOutcome)
      requires Valid()
      modifies this
      ensures Valid()
      ensures outcome == Decide(old(entries), ip, now, key)
      ensures entries == Admission(old(entries), ip, now).entries
    {
      var accepted := Request(ip, now);
      if !accepted {
        return RateLimited;
      }
      if !(key.Some? && StartsWith(key.value, "sk-")) {
        return ConfigurationError;
      }
      outcome := ForwardToProvider;
    }
  }
}
