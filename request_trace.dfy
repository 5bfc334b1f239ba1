/**
 Sequences of requests run through the tracker one after another, as the
 mutex serializes them, and the properties that relate several calls:
 counting within one window, the threshold, window reset, client
 independence, the count invariant and forward-only window starts.
 */
module RequestTrace {
  import opened DdosDetector

  /** One inbound request: the client key and its arrival time. */
  datatype Request = Request(ip: string, now: int)

  /** The table after a run of requests, and the verdict of each request in order. */
  datatype Trace = Trace(data: Table, flags: seq<bool>)

  /**
   Run `reqs` through the tracker in order, starting from `data`, with one
   verdict per request.
   */
  function Replay(data: Table, reqs: seq<Request>): (r: Trace)
    ensures |r.flags| == |reqs|
    decreases |reqs|
  {
    if reqs == [] then
      Trace(data, [])
    else
      var s := Step(data, reqs[0].ip, reqs[0].now);
      var rest := Replay(s.data, reqs[1..]);
      Trace(rest.data, [s.flagged] + rest.flags)
  }

  /** The clients that made a request in `reqs`. */
  function Clients(reqs: seq<Request>): (r: set<string>)
    ensures forall i :: 0 <= i < |reqs| ==> reqs[i].ip in r
    ensures forall ip :: ip in r ==> exists i :: 0 <= i < |reqs| && reqs[i].ip == ip
  {
    if reqs == [] then {} else {reqs[0].ip} + Clients(reqs[1..])
  }

  /** `n` requests from `ip`, all at time `now`. */
  function Burst(ip: string, now: int, n: nat): (r: seq<Request>)
    ensures |r| == n
    ensures forall i :: 0 <= i < n ==> r[i] == Request(ip, now)
  {
    seq(n, _ => Request(ip, now))
  }

  /** The requests of `reqs` that come from `ip`, in order. */
  function Only(reqs: seq<Request>, ip: string): seq<Request>
  {
    if reqs == [] then []
    else (if reqs[0].ip == ip then [reqs[0]] else []) + Only(reqs[1..], ip)
  }

  /** The verdicts among `flags` that belong to requests of `ip`, in order. */
  function FlagsFor(reqs: seq<Request>, flags: seq<bool>, ip: string): seq<bool>
    requires |flags| == |reqs|
  {
    if reqs == [] then []
    else (if reqs[0].ip == ip then [flags[0]] else []) + FlagsFor(reqs[1..], flags[1..], ip)
  }

  /** `a` and `b` hold the same record for `ip`, or neither tracks it. */
  predicate SameEntry(a: Table, b: Table, ip: string)
  {
    (ip in a <==> ip in b) && (ip in a ==> a[ip] == b[ip])
  }

  /** Concatenation of verdict sequences is associative. */
  lemma ConcatAssoc(x: seq<bool>, y: seq<bool>, z: seq<bool>)
    ensures x + (y + z) == (x + y) + z
  {
  }

  /** Running two batches one after the other ends in the same table as running their concatenation. */
  lemma {:induction false} ReplayAppendData(data: Table, a: seq<Request>, b: seq<Request>)
    ensures Replay(data, a + b).data == Replay(Replay(data, a).data, b).data
    decreases |a|
  {
    if a == [] {
      assert a + b == b;
    } else {
      var ab := a + b;
      assert ab[0] == a[0] && ab[1..] == a[1..] + b;
      ReplayAppendData(Step(data, a[0].ip, a[0].now).data, a[1..], b);
    }
  }

  /** ... and gives the verdicts of the first batch followed by those of the second. */
  lemma {:induction false} ReplayAppendFlags(data: Table, a: seq<Request>, b: seq<Request>)
    ensures Replay(data, a + b).flags == Replay(data, a).flags + Replay(Replay(data, a).data, b).flags
    decreases |a|
  {
    if a == [] {
      assert a + b == b;
    } else {
      var s := Step(data, a[0].ip, a[0].now);
      var ab := a + b;
      assert ab[0] == a[0] && ab[1..] == a[1..] + b;
      ReplayAppendData(s.data, a[1..], b);
      ReplayAppendFlags(s.data, a[1..], b);
      var ra := Replay(s.data, a[1..]);
      var rb := Replay(ra.data, b);
      assert Replay(data, a).flags == [s.flagged] + ra.flags;
      assert Replay(data, ab).flags == [s.flagged] + Replay(s.data, a[1..] + b).flags;
      ConcatAssoc([s.flagged], ra.flags, rb.flags);
    }
  }

  /**
   Over any run, the keys tracked afterwards are exactly those tracked before
   plus the clients that made a request: records are created lazily and never
   removed.
   */
  lemma {:induction false} ReplayKeys(data: Table, reqs: seq<Request>)
    ensures Replay(data, reqs).data.Keys == data.Keys + Clients(reqs)
    decreases |reqs|
  {
    if reqs != [] {
      ReplayKeys(Step(data, reqs[0].ip, reqs[0].now).data, reqs[1..]);
    }
  }

  /** The invariant "every record has a count of at least one" holds after any run. */
  lemma {:induction false} ReplayKeepsCounted(data: Table, reqs: seq<Request>)
    requires Counted(data)
    ensures Counted(Replay(data, reqs).data)
    decreases |reqs|
  {
    if reqs != [] {
      StepKeepsCounted(data, reqs[0].ip, reqs[0].now);
      ReplayKeepsCounted(Step(data, reqs[0].ip, reqs[0].now).data, reqs[1..]);
    }
  }

  /** No record is ever removed, and no window start ever moves backward, over any run. */
  lemma {:induction false} ReplayTimestampForward(data: Table, reqs: seq<Request>, k: string)
    requires k in data
    ensures k in Replay(data, reqs).data
    ensures Replay(data, reqs).data[k].timestamp >= data[k].timestamp
    decreases |reqs|
  {
    if reqs != [] {
      var s := Step(data, reqs[0].ip, reqs[0].now);
      StepTimestampForward(data, reqs[0].ip, reqs[0].now, k);
      ReplayTimestampForward(s.data, reqs[1..], k);
    }
  }

  /** Only the record for `ip` decides what a request from `ip` does to that record. */
  lemma StepLocal(d1: Table, d2: Table, q: Request, ip: string)
    requires SameEntry(d1, d2, ip)
    ensures SameEntry(Step(d1, q.ip, q.now).data, Step(d2, q.ip, q.now).data, ip)
    ensures q.ip == ip ==> Step(d1, q.ip, q.now).flagged == Step(d2, q.ip, q.now).flagged
  {
  }

  /**
   Client independence, generalized over the starting tables: the record and
   the verdicts of `ip` after a run depend only on `ip`'s own requests and its
   own starting record.
   */
  lemma {:induction false} ReplayLocal(d1: Table, d2: Table, reqs: seq<Request>, ip: string)
    requires SameEntry(d1, d2, ip)
    ensures SameEntry(Replay(d1, reqs).data, Replay(d2, Only(reqs, ip)).data, ip)
    ensures FlagsFor(reqs, Replay(d1, reqs).flags, ip) == Replay(d2, Only(reqs, ip)).flags
    decreases |reqs|
  {
    if reqs != [] {
      var q := reqs[0];
      var s1 := Step(d1, q.ip, q.now);
      if q.ip == ip {
        var s2 := Step(d2, q.ip, q.now);
        StepLocal(d1, d2, q, ip);
        assert Only(reqs, ip) == [q] + Only(reqs[1..], ip);
        assert (Only(reqs, ip))[1..] == Only(reqs[1..], ip);
        ReplayLocal(s1.data, s2.data, reqs[1..], ip);
      } else {
        assert Only(reqs, ip) == Only(reqs[1..], ip);
        ReplayLocal(s1.data, d2, reqs[1..], ip);
      }
    }
  }

  /**
   Client independence: however the requests of other clients are interleaved
   with those of `ip`, `ip` ends with the same record and gets the same
   verdicts as if only its own requests had arrived.
   */
  lemma ClientIndependence(data: Table, reqs: seq<Request>, ip: string)
    ensures SameEntry(Replay(data, reqs).data, Replay(data, Only(reqs, ip)).data, ip)
    ensures FlagsFor(reqs, Replay(data, reqs).flags, ip) == Replay(data, Only(reqs, ip)).flags
  {
    ReplayLocal(data, data, reqs, ip);
  }

  /**
   Counting within one window: requests from a tracked `ip` that all arrive no
   more than `TimeWindow` after its window began add one each to its count,
   keep the window start, and request `i` is flagged exactly when the count it
   brings exceeds the limit.
   */
  lemma {:induction false} WithinWindowCounts(data: Table, ip: string, reqs: seq<Request>)
    requires ip in data
    requires forall i :: 0 <= i < |reqs| ==> reqs[i].ip == ip && !Expired(data[ip], reqs[i].now)
    ensures ip in Replay(data, reqs).data
    ensures Replay(data, reqs).data[ip] == RequestData(data[ip].count + |reqs|, data[ip].timestamp)
    ensures forall i :: 0 <= i < |reqs| ==>
              Replay(data, reqs).flags[i] == (data[ip].count + i + 1 > RequestLimit)
    decreases |reqs|
  {
    if reqs != [] {
      var s := Step(data, ip, reqs[0].now);
      assert s.data[ip] == RequestData(data[ip].count + 1, data[ip].timestamp);
      WithinWindowCounts(s.data, ip, reqs[1..]);
      var r := Replay(data, reqs);
      forall i | 0 <= i < |reqs|
        ensures r.flags[i] == (data[ip].count + i + 1 > RequestLimit)
      {
        if i > 0 {
          assert r.flags[i] == Replay(s.data, reqs[1..]).flags[i - 1];
        }
      }
    }
  }

  /**
   A first window: when the first request starts a new window and every
   request of `ip` arrives no more than `TimeWindow` after it, the count is the
   number of requests, the window start is the first arrival, and request `i`
   (counting from 0) is flagged exactly when `i + 1` exceeds the limit.
   */
  lemma FirstWindow(data: Table, ip: string, reqs: seq<Request>)
    requires |reqs| > 0 && Resets(data, ip, reqs[0].now)
    requires forall i :: 0 <= i < |reqs| ==> reqs[i].ip == ip && reqs[i].now - reqs[0].now <= TimeWindow
    ensures ip in Replay(data, reqs).data
    ensures Replay(data, reqs).data[ip] == RequestData(|reqs|, reqs[0].now)
    ensures forall i :: 0 <= i < |reqs| ==> Replay(data, reqs).flags[i] == (i + 1 > RequestLimit)
  {
    var s := Step(data, ip, reqs[0].now);
    assert s.data[ip] == RequestData(1, reqs[0].now);
    var rest := reqs[1..];
    forall i | 0 <= i < |rest|
      ensures rest[i].ip == ip && !Expired(s.data[ip], rest[i].now)
    {
      assert rest[i] == reqs[i + 1];
    }
    WithinWindowCounts(s.data, ip, rest);
    var r := Replay(data, reqs);
    forall i | 0 <= i < |reqs|
      ensures r.flags[i] == (i + 1 > RequestLimit)
    {
      if i > 0 {
        assert r.flags[i] == Replay(s.data, rest).flags[i - 1];
      }
    }
  }

  /**
   The threshold: `RequestLimit` calls from a new client at one instant `t0`
   are not flagged, and call `RequestLimit + 1`, at most `TimeWindow` after
   `t0` (even if the clock went backward), is.
   */
  lemma ThresholdTrigger(data: Table, ip: string, t0: int, later: int)
    requires ip !in data
    requires later - t0 <= TimeWindow
    ensures var r := Replay(data, Burst(ip, t0, RequestLimit) + [Request(ip, later)]);
            (forall i :: 0 <= i < RequestLimit ==> !r.flags[i])
            && r.flags[RequestLimit]
            && ip in r.data && r.data[ip] == RequestData(RequestLimit + 1, t0)
  {
    var reqs := Burst(ip, t0, RequestLimit) + [Request(ip, later)];
    assert reqs[0] == Request(ip, t0);
    assert forall i :: 0 <= i < |reqs| ==> reqs[i].ip == ip && reqs[i].now - reqs[0].now <= TimeWindow;
    FirstWindow(data, ip, reqs);
  }

  /**
   Window reset: after any first window of requests from `ip`, a request
   strictly more than `TimeWindow` after that window began brings the count
   back to 1 and is not flagged, however many requests the window held.
   */
  lemma WindowReset(data: Table, ip: string, reqs: seq<Request>, later: int)
    requires |reqs| > 0 && Resets(data, ip, reqs[0].now)
    requires forall i :: 0 <= i < |reqs| ==> reqs[i].ip == ip && reqs[i].now - reqs[0].now <= TimeWindow
    requires later > reqs[0].now + TimeWindow
    ensures var r := Replay(data, reqs + [Request(ip, later)]);
            ip in r.data && r.data[ip] == RequestData(1, later) && !r.flags[|reqs|]
  {
    FirstWindow(data, ip, reqs);
    ReplayAppendData(data, reqs, [Request(ip, later)]);
    ReplayAppendFlags(data, reqs, [Request(ip, later)]);
  }

  /**
   The fixed-window boundary burst: one request at `t0`, then `RequestLimit - 1`
   requests exactly `TimeWindow` later and `RequestLimit` more one nanosecond
   after that. All `2 * RequestLimit` requests go unflagged, although all but
   the first arrive within one nanosecond of each other.
   */
  lemma BoundaryBurst(data: Table, ip: string, t0: int)
    requires ip !in data
    ensures var reqs := [Request(ip, t0)] + Burst(ip, t0 + TimeWindow, RequestLimit - 1)
                        + Burst(ip, t0 + TimeWindow + 1, RequestLimit);
            |reqs| == 2 * RequestLimit
            && forall i :: 0 <= i < |reqs| ==> !Replay(data, reqs).flags[i]
  {
    var a := [Request(ip, t0)] + Burst(ip, t0 + TimeWindow, RequestLimit - 1);
    var b := Burst(ip, t0 + TimeWindow + 1, RequestLimit);
    assert forall i :: 0 <= i < |a| ==> a[i].ip == ip && a[i].now - a[0].now <= TimeWindow;
    FirstWindow(data, ip, a);
    var ra := Replay(data, a);
    assert b[0] == Request(ip, t0 + TimeWindow + 1);
    FirstWindow(ra.data, ip, b);
    ReplayAppendFlags(data, a, b);
    var flags := Replay(data, a + b).flags;
    assert |flags| == |a| + |b|;
    forall i | 0 <= i < |a| + |b|
      ensures !flags[i]
    {
      if i < |a| {
        assert flags[i] == ra.flags[i];
      } else {
        assert flags[i] == Replay(ra.data, b).flags[i - |a|];
      }
    }
  }

  /** The client of the scenarios below. */
  const Client: string := "1.2.3.4"

  /** One hundred calls at time 0: none flagged, and the count reaches 100. */
  lemma ScenarioHundredCalls()
    ensures var r := Replay(map[], Burst(Client, 0, 100));
            Client in r.data && r.data[Client] == RequestData(100, 0) && forall i :: 0 <= i < 100 ==> !r.flags[i]
  {
    var a := Burst(Client, 0, 100);
    assert a[0] == Request(Client, 0);
    FirstWindow(map[], Client, a);
  }

  /** A 101st call one second later, inside the window, is flagged with a count of 101. */
  lemma ScenarioFlaggedWithinWindow()
    ensures var r := Replay(map[], Burst(Client, 0, 100) + [Request(Client, Second)]);
            Client in r.data && r.data[Client] == RequestData(101, 0) && r.flags[100]
  {
    ThresholdTrigger(map[], Client, 0, Second);
  }

  /** A 101st call eleven seconds later, after the window, is not flagged and the count restarts at 1. */
  lemma ScenarioResetAfterWindow()
    ensures var r := Replay(map[], Burst(Client, 0, 100) + [Request(Client, 11 * Second)]);
            Client in r.data && r.data[Client] == RequestData(1, 11 * Second) && !r.flags[100]
  {
    var a := Burst(Client, 0, 100);
    assert a[0] == Request(Client, 0);
    WindowReset(map[], Client, a, 11 * Second);
  }
}
