/** The fixed-window limiter: one counter and reset instant per key. Times are
    instants on a non-decreasing clock (requests are serialised by the mutex). */
module RateLimit {
  datatype Window = Window(count: int, reset: int)

  datatype Request = Request(key: string, now: int)

  /** One request against the counters: the new counters and the verdict. */
  function Step(limit: int, per: int, counters: map<string, Window>, r: Request): (map<string, Window>, bool) {
    if r.key !in counters || r.now > counters[r.key].reset then
      (counters[r.key := Window(1, r.now + per)], true)
    else if counters[r.key].count >= limit then (counters, false)
    else (counters[r.key := counters[r.key].(count := counters[r.key].count + 1)], true)
  }

  class RateLimiter {
    var counters: map<string, Window>
    const limit: int
    const per: int

    constructor (limit: int, per: int)
      ensures counters == map[] && this.limit == limit && this.per == per
    {
      this.limit, this.per := limit, per;
      counters := map[];
    }

    method Allow(key: string, now: int) returns (admitted: bool)
      modifies this
      ensures (counters, admitted) == Step(limit, per, old(counters), Request(key, now))
      ensures forall k | k != key :: k in counters <==> k in old(counters)
      ensures forall k | k != key && k in counters :: counters[k] == old(counters)[k]
    {
      if key !in counters || now > counters[key].reset {
        counters := counters[key := Window(1, now + per)];
        return true;
      }
      var win := counters[key];
      if win.count >= limit {
        return false;
      }
      counters := counters[key := win.(count := win.count + 1)];
      return true;
    }
  }

  // ----- traces -------------------------------------------------------------------

  function Counters(limit: int, per: int, trace: seq<Request>): map<string, Window> {
    if trace == [] then map[]
    else Step(limit, per, Counters(limit, per, trace[..|trace| - 1]), trace[|trace| - 1]).0
  }

  /** The verdict on the last request of a trace. */
  predicate LastAdmitted(limit: int, per: int, trace: seq<Request>)
    requires trace != []
  {
    Step(limit, per, Counters(limit, per, trace[..|trace| - 1]), trace[|trace| - 1]).1
  }

  /** Admitted requests of a key at instants in the closed interval [from, to]. */
  function Admitted(limit: int, per: int, trace: seq<Request>, key: string, from: int, to: int): nat {
    if trace == [] then 0
    else
      var r := trace[|trace| - 1];
      Admitted(limit, per, trace[..|trace| - 1], key, from, to)
      + if r.key == key && from <= r.now <= to && LastAdmitted(limit, per, trace) then 1 else 0
  }

  ghost predicate InOrder(trace: seq<Request>) {
    forall i, j | 0 <= i < j < |trace| :: trace[i].now <= trace[j].now
  }

  /** A window always takes its first request, even when the limit is below one. */
  function Cap(limit: int): nat {
    if limit < 1 then 1 else limit
  }

  lemma {:induction false} NoneAfterEnd(limit: int, per: int, trace: seq<Request>, key: string, from: int, to: int)
    requires InOrder(trace) && (trace != [] ==> trace[|trace| - 1].now < from)
    ensures Admitted(limit, per, trace, key, from, to) == 0
  {
    if trace != [] {
      NoneAfterEnd(limit, per, trace[..|trace| - 1], key, from, to);
    }
  }

  lemma {:induction false} WiderAdmitsMore(limit: int, per: int, trace: seq<Request>, key: string, from: int, to: int,
                                           from': int, to': int)
    requires from' <= from && to <= to'
    ensures Admitted(limit, per, trace, key, from, to) <= Admitted(limit, per, trace, key, from', to')
  {
    if trace != [] {
      WiderAdmitsMore(limit, per, trace[..|trace| - 1], key, from, to, from', to');
    }
  }

  /** Past the last request the right end of an interval does not matter. */
  lemma {:induction false} RightEndFree(limit: int, per: int, trace: seq<Request>, key: string, from: int, to: int,
                                        to': int)
    requires InOrder(trace) && (trace != [] ==> trace[|trace| - 1].now <= to && trace[|trace| - 1].now <= to')
    ensures Admitted(limit, per, trace, key, from, to) == Admitted(limit, per, trace, key, from, to')
  {
    if trace != [] {
      RightEndFree(limit, per, trace[..|trace| - 1], key, from, to, to');
    }
  }

  /** What a counter stands for: the admissions since its window opened, at most the
      cap, preceded by at most another cap within one window length. */
  ghost predicate CounterOk(limit: int, per: nat, trace: seq<Request>, key: string) {
    trace == [] || CounterOkAt(limit, per, trace, key, Counters(limit, per, trace), trace[|trace| - 1].now)
  }

  ghost predicate CounterOkAt(limit: int, per: nat, trace: seq<Request>, key: string, c: map<string, Window>, end: int)
  {
    if key !in c then forall from :: Admitted(limit, per, trace, key, from, end) == 0
    else
      var open := c[key].reset - per;
      && open <= end
      && Admitted(limit, per, trace, key, open, end) == c[key].count <= Cap(limit)
      && (forall from | open - per <= from <= open ::
            Admitted(limit, per, trace, key, from, end) <= c[key].count + Cap(limit))
  }

  /** The step of the invariant, with the shorter trace's interval ends moved up to
      the new request's instant. */
  lemma CounterStep(limit: int, per: nat, trace: seq<Request>, key: string)
    requires InOrder(trace) && |trace| >= 2 && CounterOk(limit, per, trace[..|trace| - 1], key)
    ensures CounterOk(limit, per, trace, key)
  {
    var n := |trace| - 1;
    var earlier, r := trace[..n], trace[n];
    var before := Counters(limit, per, earlier);
    var end, end' := earlier[n - 1].now, r.now;
    forall from: int
      ensures Admitted(limit, per, earlier, key, from, end') == Admitted(limit, per, earlier, key, from, end)
    {
      RightEndFree(limit, per, earlier, key, from, end', end);
    }
    if r.key == key {
      if key !in before || r.now > before[key].reset {
        NewWindow(limit, per, trace, key);
      } else {
        var more := if before[key].count < limit then 1 else 0;
        assert forall from | from <= end' ::
          Admitted(limit, per, trace, key, from, end') == Admitted(limit, per, earlier, key, from, end) + more;
      }
    } else {
      assert forall from ::
        Admitted(limit, per, trace, key, from, end') == Admitted(limit, per, earlier, key, from, end);
    }
  }

  /** Opening a window: nothing admitted before it lies in it, and at most one
      earlier window reaches back less than one window length. */
  lemma NewWindow(limit: int, per: nat, trace: seq<Request>, key: string)
    requires InOrder(trace) && |trace| >= 2 && CounterOk(limit, per, trace[..|trace| - 1], key)
    requires var r, before := trace[|trace| - 1], Counters(limit, per, trace[..|trace| - 1]);
      r.key == key && (key !in before || r.now > before[key].reset)
    ensures CounterOk(limit, per, trace, key)
  {
    var n := |trace| - 1;
    var earlier, r := trace[..n], trace[n];
    var before := Counters(limit, per, earlier);
    var end, now := earlier[n - 1].now, r.now;
    assert Admitted(limit, per, earlier, key, now, now) == 0 by {
      if key in before && end < now {
        NoneAfterEnd(limit, per, earlier, key, now, now);
      } else if key in before {
        NoneAfterReset(limit, per, earlier, key, now, now);
      } else {
        RightEndFree(limit, per, earlier, key, now, now, end);
      }
    }
    forall from | now - per <= from <= now ensures Admitted(limit, per, earlier, key, from, now) <= Cap(limit) {
      RightEndFree(limit, per, earlier, key, from, now, end);
      if key in before {
        WiderAdmitsMore(limit, per, earlier, key, from, end, before[key].reset - per, end);
      }
    }
    assert Counters(limit, per, trace)[key] == Window(1, now + per);
    assert forall from | from <= now ::
      Admitted(limit, per, trace, key, from, now) == Admitted(limit, per, earlier, key, from, now) + 1;
  }

  /** Nothing of a key is admitted after its window's reset without a new window. */
  lemma {:induction false} NoneAfterReset(limit: int, per: nat, trace: seq<Request>, key: string, from: int, to: int)
    requires InOrder(trace) && key in Counters(limit, per, trace) && Counters(limit, per, trace)[key].reset < from
    ensures Admitted(limit, per, trace, key, from, to) == 0
  {
    if trace != [] {
      var n := |trace| - 1;
      var before := Counters(limit, per, trace[..n]);
      if trace[n].key == key && (key !in before || trace[n].now > before[key].reset) {
        NoneAfterEnd(limit, per, trace[..n], key, from, to);
      } else {
        NoneAfterReset(limit, per, trace[..n], key, from, to);
      }
    }
  }

  lemma FirstRequest(limit: int, per: nat, trace: seq<Request>, key: string)
    requires |trace| == 1
    ensures CounterOk(limit, per, trace, key)
  {
    assert trace[..0] == [];
    assert Counters(limit, per, trace) == map[trace[0].key := Window(1, trace[0].now + per)];
    assert LastAdmitted(limit, per, trace);
    forall from: int, to: int
      ensures Admitted(limit, per, trace, key, from, to)
           == if trace[0].key == key && from <= trace[0].now <= to then 1 else 0
    {
      assert Admitted(limit, per, [], key, from, to) == 0;
    }
  }

  lemma {:induction false} CountersOk(limit: int, per: nat, trace: seq<Request>, key: string)
    requires InOrder(trace)
    ensures CounterOk(limit, per, trace, key)
  {
    if |trace| == 1 {
      FirstRequest(limit, per, trace, key);
    } else if |trace| >= 2 {
      CountersOk(limit, per, trace[..|trace| - 1], key);
      CounterStep(limit, per, trace, key);
    }
  }

  /** Per counter window: the admissions since a key's window opened are exactly its
      count, which never exceeds the limit. */
  lemma WindowBound(limit: int, per: nat, trace: seq<Request>, key: string)
    requires InOrder(trace) && trace != [] && key in Counters(limit, per, trace)
    ensures var w := Counters(limit, per, trace)[key];
      Admitted(limit, per, trace, key, w.reset - per, w.reset) == w.count <= Cap(limit)
  {
    CounterFacts(limit, per, trace, key);
    CountIsAdmissions(limit, per, trace, key, Counters(limit, per, trace)[key], trace[|trace| - 1].now);
  }

  lemma CounterFacts(limit: int, per: nat, trace: seq<Request>, key: string)
    requires InOrder(trace) && trace != [] && key in Counters(limit, per, trace)
    ensures var w, end := Counters(limit, per, trace)[key], trace[|trace| - 1].now;
      w.reset - per <= end && Admitted(limit, per, trace, key, w.reset - per, end) == w.count <= Cap(limit)
  {
    CountersOk(limit, per, trace, key);
    assert CounterOkAt(limit, per, trace, key, Counters(limit, per, trace), trace[|trace| - 1].now);
  }

  lemma CountIsAdmissions(limit: int, per: nat, trace: seq<Request>, key: string, w: Window, end: int)
    requires InOrder(trace) && trace != [] && end == trace[|trace| - 1].now
    requires key in Counters(limit, per, trace) && w == Counters(limit, per, trace)[key] && w.reset - per <= end
    requires Admitted(limit, per, trace, key, w.reset - per, end) == w.count
    ensures Admitted(limit, per, trace, key, w.reset - per, w.reset) == w.count
  {
    var last := if end < w.reset then w.reset else end;
    NoneAfterReset(limit, per, trace, key, w.reset + 1, last);
    SplitAdmitted(limit, per, trace, key, w.reset - per, w.reset, last);
    RightEndFree(limit, per, trace, key, w.reset - per, end, last);
  }

  lemma {:induction false} SplitAdmitted(limit: int, per: int, trace: seq<Request>, key: string, from: int, mid: int,
                                         to: int)
    requires from <= mid + 1 && mid <= to
    ensures Admitted(limit, per, trace, key, from, to)
         == Admitted(limit, per, trace, key, from, mid) + Admitted(limit, per, trace, key, mid + 1, to)
  {
    if trace != [] {
      SplitAdmitted(limit, per, trace[..|trace| - 1], key, from, mid, to);
    }
  }

  /** Sliding bound: any closed interval of the window length, wherever it lies
      relative to the counter windows, admits at most twice the limit. */
  lemma {:induction false} SlidingBound(limit: int, per: nat, trace: seq<Request>, key: string, start: int)
    requires InOrder(trace)
    ensures Admitted(limit, per, trace, key, start, start + per) <= 2 * Cap(limit)
  {
    if trace != [] {
      var n := |trace| - 1;
      var r := trace[n];
      SlidingBound(limit, per, trace[..n], key, start);
      if r.key == key && start <= r.now <= start + per && LastAdmitted(limit, per, trace) {
        CountersOk(limit, per, trace, key);
        var w := Counters(limit, per, trace)[key];
        var open := w.reset - per;
        RightEndFree(limit, per, trace, key, start, start + per, r.now);
        if start <= open {
          assert Admitted(limit, per, trace, key, start, r.now) <= w.count + Cap(limit);
        } else {
          WiderAdmitsMore(limit, per, trace, key, start, r.now, open, r.now);
        }
      }
    }
  }

  /** A refusal is never spurious: the limit was used up within the last window length. */
  lemma RefusedOnlyWhenExhausted(limit: int, per: nat, trace: seq<Request>)
    requires InOrder(trace) && trace != [] && limit >= 1 && !LastAdmitted(limit, per, trace)
    ensures var r := trace[|trace| - 1];
      Admitted(limit, per, trace, r.key, r.now - per, r.now) >= limit
  {
    var n := |trace| - 1;
    var earlier, r := trace[..n], trace[n];
    var w := Counters(limit, per, earlier)[r.key];
    CountersOk(limit, per, earlier, r.key);
    assert earlier != [];
    RightEndFree(limit, per, earlier, r.key, w.reset - per, earlier[n - 1].now, r.now);
    WiderAdmitsMore(limit, per, trace, r.key, w.reset - per, r.now, r.now - per, r.now);
  }

  // ----- independence of keys -----------------------------------------------------

  function OnlyKey(trace: seq<Request>, key: string): seq<Request> {
    if trace == [] then []
    else OnlyKey(trace[..|trace| - 1], key) + if trace[|trace| - 1].key == key then [trace[|trace| - 1]] else []
  }

  lemma {:induction false} KeyCounterAlone(limit: int, per: int, trace: seq<Request>, key: string)
    ensures var all, alone := Counters(limit, per, trace), Counters(limit, per, OnlyKey(trace, key));
      (key in all <==> key in alone) && (key in all ==> all[key] == alone[key])
  {
    if trace != [] {
      var n := |trace| - 1;
      KeyCounterAlone(limit, per, trace[..n], key);
      if trace[n].key == key {
        var only := OnlyKey(trace, key);
        assert only[..|only| - 1] == OnlyKey(trace[..n], key);
      } else {
        assert OnlyKey(trace, key) == OnlyKey(trace[..n], key);
      }
    }
  }

  /** Requests under other keys never change a verdict. */
  lemma KeysIndependent(limit: int, per: int, trace: seq<Request>)
    requires trace != []
    ensures var only := OnlyKey(trace, trace[|trace| - 1].key);
      only != [] && LastAdmitted(limit, per, trace) == LastAdmitted(limit, per, only)
  {
    var n := |trace| - 1;
    var key := trace[n].key;
    var only := OnlyKey(trace, key);
    assert only[..|only| - 1] == OnlyKey(trace[..n], key);
    KeyCounterAlone(limit, per, trace[..n], key);
  }

  // ----- exactly which requests are admitted -------------------------------------------

  /** A key's latest window: when it opened, and how many requests it has had since,
      admitted or not. */
  datatype Since = Never | Since(start: int, requests: nat)

  /** A request opens a window unless it comes within one, whose last instant is `per`
      after its first. */
  function WindowOf(per: int, trace: seq<Request>, key: string): Since {
    if trace == [] then Never
    else
      var r, w := trace[|trace| - 1], WindowOf(per, trace[..|trace| - 1], key);
      if r.key != key then w
      else if w.Since? && r.now <= w.start + per then Since(w.start, w.requests + 1)
      else Since(r.now, 1)
  }

  lemma {:induction false} CounterIsWindow(limit: int, per: int, trace: seq<Request>, key: string)
    ensures var c, w := Counters(limit, per, trace), WindowOf(per, trace, key);
      && (key in c <==> w.Since?)
      && (key in c ==> c[key].reset == w.start + per && w.requests >= 1
                       && c[key].count == if w.requests <= Cap(limit) then w.requests else Cap(limit))
  {
    if trace != [] { CounterIsWindow(limit, per, trace[..|trace| - 1], key); }
  }

  /** A request is admitted if and only if it is among the first `limit` of its key's
      window, or its very first. */
  lemma AdmittedIff(limit: int, per: int, trace: seq<Request>)
    requires trace != []
    ensures LastAdmitted(limit, per, trace) <==> WindowOf(per, trace, trace[|trace| - 1].key).requests <= Cap(limit)
  {
    CounterIsWindow(limit, per, trace[..|trace| - 1], trace[|trace| - 1].key);
  }
}
