/**
 The per-IP fixed-window request counter of the DDoS detection middleware.

 Each inbound request carries a client key (the remote address) and the time
 it arrived. The tracker keeps one record per key: how many requests it has
 seen in the current window and when that window began. A request from an
 unknown key, or one that arrives strictly more than `TimeWindow` after its
 key's window began, starts a new window with a count of 1; any other request
 adds 1 to the count, and is flagged as potential DDoS traffic when the new
 count exceeds `RequestLimit`.

 Time is an integer number of nanoseconds. The mutex of the Go middleware
 makes every call atomic, so `Observe` is one atomic step here.
 */
module DdosDetector {

  /** One second, in nanoseconds. */
  const Second: int := 1_000_000_000

  /** Maximum number of requests per IP in one window before it is flagged. */
  const RequestLimit: int := 100

  /** Length of the counting window: ten seconds. */
  const TimeWindow: int := 10 * Second

  /** The counting record of one client. */
  datatype RequestData = RequestData(count: int, timestamp: int)

  /** The tracker's table: client key to its record. */
  type Table = map<string, RequestData>

  /** The table after one request, and whether that request was flagged. */
  datatype Outcome = Outcome(data: Table, flagged: bool)

  /** The window of `rec` has fully elapsed at time `now` (strictly longer than `TimeWindow`). */
  predicate Expired(rec: RequestData, now: int)
  {
    now - rec.timestamp > TimeWindow
  }

  /** A request from `ip` at `now` starts a new window: `ip` is untracked or its window expired. */
  predicate Resets(data: Table, ip: string, now: int)
  {
    ip !in data || Expired(data[ip], now)
  }

  /** Every tracked client has seen at least one request. */
  predicate Counted(data: Table)
  {
    forall k :: k in data ==> data[k].count >= 1
  }

  /**
   One request from `ip` at time `now`: the new table and whether the request
   is flagged. Only the entry for `ip` may change, and it is always present
   afterwards; no key is ever removed.
   */
  function Step(data: Table, ip: string, now: int): (r: Outcome)
    ensures r.data.Keys == data.Keys + {ip}
    ensures forall k :: k in data && k != ip ==> r.data[k] == data[k]
    ensures r.flagged ==> r.data[ip].count > RequestLimit
  {
    if Resets(data, ip, now) then
      Outcome(data[ip := RequestData(1, now)], false)
    else
      var rec := data[ip].(count := data[ip].count + 1);
      Outcome(data[ip := rec], rec.count > RequestLimit)
  }

  /** The tracker object: a table updated in place by every request. */
  class IPTracker {
    var data: Table

    ghost predicate Valid()
      reads this
    {
      Counted(data)
    }

    /** A tracker that has seen no request yet. */
    constructor ()
      ensures Valid()
      ensures data == map[]
    {
      data := map[];
    }

    /**
     Record one request from `ip` at time `now`; `flagged` is the condition
     under which the middleware logs potential DDoS traffic.
     */
    method Observe(ip: string, now: int) returns (flagged: bool)
      requires Valid()
      modifies this
      ensures Valid()
      ensures Outcome(data, flagged) == Step(old(data), ip, now)
      ensures data.Keys == old(data).Keys + {ip}
      ensures forall k :: k in old(data) && k != ip ==> data[k] == old(data)[k]
    {
      if ip !in data || now - data[ip].timestamp > TimeWindow {
        data := data[ip := RequestData(1, now)];
        flagged := false;
      } else {
        var rec := data[ip];
        rec := rec.(count := rec.count + 1);
        data := data[ip := rec];
        flagged := rec.count > RequestLimit;
      }
    }
  }

  /** A client seen for the first time gets a fresh record and is never flagged. */
  lemma StepNewClient(data: Table, ip: string, now: int)
    requires ip !in data
    ensures Step(data, ip, now).data[ip] == RequestData(1, now)
    ensures !Step(data, ip, now).flagged
  {
  }

  /**
   A request strictly more than `TimeWindow` after the window began replaces the
   record with a fresh one, exactly as if the client had never been seen: the
   earlier count has no influence.
   */
  lemma StepExpiredResets(data: Table, ip: string, now: int)
    requires ip in data && now - data[ip].timestamp > TimeWindow
    ensures Step(data, ip, now).data[ip] == RequestData(1, now)
    ensures !Step(data, ip, now).flagged
    ensures Step(data, ip, now) == Step(data - {ip}, ip, now)
  {
  }

  /** A request exactly `TimeWindow` after the window began still counts in that window. */
  lemma StepBoundaryCounts(data: Table, ip: string)
    requires ip in data
    ensures Step(data, ip, data[ip].timestamp + TimeWindow).data[ip]
         == RequestData(data[ip].count + 1, data[ip].timestamp)
  {
  }

  /** Within the window the count grows by exactly one and the window start is kept. */
  lemma StepWithinWindow(data: Table, ip: string, now: int)
    requires ip in data && now - data[ip].timestamp <= TimeWindow
    ensures Step(data, ip, now).data[ip].count == data[ip].count + 1
    ensures Step(data, ip, now).data[ip].timestamp == data[ip].timestamp
  {
  }

  /** A request is flagged exactly when it took the increment path and the new count exceeds the limit. */
  lemma StepFlaggedIff(data: Table, ip: string, now: int)
    ensures Step(data, ip, now).flagged
        <==> ip in data && !Expired(data[ip], now) && data[ip].count + 1 > RequestLimit
  {
  }

  /** Every record keeps a count of at least one. */
  lemma StepKeepsCounted(data: Table, ip: string, now: int)
    requires Counted(data)
    ensures Counted(Step(data, ip, now).data)
  {
  }

  /**
   A record's window start only moves on the reset path, and then strictly
   forward, whatever the value of `now`.
   */
  lemma StepTimestampForward(data: Table, ip: string, now: int, k: string)
    requires k in data
    ensures k in Step(data, ip, now).data
    ensures Step(data, ip, now).data[k].timestamp >= data[k].timestamp
    ensures Step(data, ip, now).data[k].timestamp != data[k].timestamp
        ==> k == ip && Expired(data[k], now) && Step(data, ip, now).data[k].timestamp > data[k].timestamp
  {
  }

  /** Once a client is over the limit, every further request within its window is flagged. */
  lemma StepFlagPersists(data: Table, ip: string, now: int)
    requires ip in data && data[ip].count > RequestLimit && !Expired(data[ip], now)
    ensures Step(data, ip, now).flagged
    ensures Step(data, ip, now).data[ip].count > RequestLimit
  {
  }
}
