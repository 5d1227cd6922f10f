/**
 The sliding-window rate limiter: buckets compacted in place, proved to decide exactly as
 a limiter that keeps every admission for ever.

 Bucket lookup and bucket update are one atomic step here. The two clock readings of one
 request are kept apart: the first gives the cutoff, the second is what is recorded.
 */
module RateLimiter {

  /** A client address, as net.SplitHostPort leaves it. */
  datatype Address = Address(host: string)

  /** The recorded times after a cutoff, in order. */
  function Prune(times: seq<int>, cutoff: int): (r: seq<int>)
    ensures |r| <= |times|
  {
    if times == [] then []
    else
      var n := |times| - 1;
      Prune(times[..n], cutoff) + if times[n] > cutoff then [times[n]] else []
  }

  datatype Verdict = Verdict(requests: seq<int>, admitted: bool)

  /** One request against one bucket: prune, compare, record. */
  function AllowStep(requests: seq<int>, limit: int, window: int, now1: int, now2: int): Verdict {
    var valid := Prune(requests, now1 - window);
    if |valid| >= limit then Verdict(valid, false) else Verdict(valid + [now2], true)
  }

  // --- The bucket, compacted in its own array ---

  class IpBucket {
    var data: array<int>
    var len: nat

    ghost predicate Valid()
      reads this
    {
      len <= data.Length
    }

    ghost function Requests(): seq<int>
      requires Valid()
      reads this, data
    {
      data[..len]
    }

    constructor ()
      ensures Valid() && Requests() == [] && fresh(data)
    {
      data := new int[0];
      len := 0;
    }

    method Allow(limit: int, window: int, now1: int, now2: int) returns (admitted: bool)
      requires Valid()
      modifies this, data
      ensures Valid() && (data == old(data) || fresh(data))
      ensures var v := AllowStep(old(Requests()), limit, window, now1, now2);
              Requests() == v.requests && admitted == v.admitted
    {
      var cutoff := now1 - window;
      var kept := 0;
      ghost var before := Requests();
      for i := 0 to len
        invariant kept <= i
        invariant data == old(data) && len == old(len)
        invariant data[..kept] == Prune(before[..i], cutoff)
        invariant data[i..len] == before[i..]
      {
        assert data[i] == data[i..len][0] == before[i];
        assert before[..i + 1][..i] == before[..i];
        var t := data[i];
        if t > cutoff {
          data[kept] := t;
          kept := kept + 1;
        }
        assert data[i + 1..len] == before[i + 1..];
      }
      assert before[..len] == before;
      len := kept;
      if len >= limit {
        return false;
      }
      Append(now2);
      admitted := true;
    }

    /** The sweep's scan, which stops at the first recent request. */
    method AnyAfter(cutoff: int) returns (active: bool)
      requires Valid()
      ensures active == Active(Requests(), cutoff)
    {
      active := false;
      for i := 0 to len
        invariant !active && forall j :: 0 <= j < i ==> data[j] <= cutoff
      {
        if data[i] > cutoff {
          assert Requests()[i] > cutoff;
          active := true;
          break;
        }
      }
    }

    /** Go's append: in place while there is capacity, else into a larger array. */
    method Append(t: int)
      requires Valid()
      modifies this, data
      ensures Valid() && (data == old(data) || fresh(data))
      ensures Requests() == old(Requests()) + [t]
    {
      if len == data.Length {
        var bigger := new int[2 * data.Length + 1];
        for i := 0 to len
          invariant data == old(data) && len == old(len)
          invariant bigger[..i] == data[..i]
          invariant data[..len] == old(data[..len])
        {
          bigger[i] := data[i];
        }
        data := bigger;
      }
      data[len] := t;
      len := len + 1;
    }
  }

  // --- The limiter as a state machine on values ---

  datatype Event = Allow(ip: Address, now1: int, now2: int) | UpdateLimit(newLimit: int) | Gc(now: int)

  datatype State = State(buckets: map<Address, seq<int>>, limit: int)

  function BucketOf(s: State, ip: Address): seq<int> {
    if ip in s.buckets then s.buckets[ip] else []
  }

  /** Some recorded time is after the cutoff. */
  predicate Active(requests: seq<int>, cutoff: int) {
    exists i :: 0 <= i < |requests| && requests[i] > cutoff
  }

  function Swept(buckets: map<Address, seq<int>>, cutoff: int): map<Address, seq<int>> {
    map ip | ip in buckets && Active(buckets[ip], cutoff) :: buckets[ip]
  }

  function Step(s: State, window: int, e: Event): State {
    match e
    case Allow(ip, now1, now2) =>
      s.(buckets := s.buckets[ip := AllowStep(BucketOf(s, ip), s.limit, window, now1, now2).requests])
    case UpdateLimit(l) => s.(limit := l)
    case Gc(now) => s.(buckets := Swept(s.buckets, now - window))
  }

  /** The answer to an event: only a request has one. */
  function Answer(s: State, window: int, e: Event): bool {
    e.Allow? && AllowStep(BucketOf(s, e.ip), s.limit, window, e.now1, e.now2).admitted
  }

  // --- The reference: every admission is kept ---

  datatype Admission = Admission(checked: int, time: int, limit: int)

  datatype Ledger = Ledger(history: map<Address, seq<Admission>>, limit: int)

  function HistoryOf(r: Ledger, ip: Address): seq<Admission> {
    if ip in r.history then r.history[ip] else []
  }

  function Times(h: seq<Admission>): (t: seq<int>)
    ensures |t| == |h|
  {
    if h == [] then [] else Times(h[..|h| - 1]) + [h[|h| - 1].time]
  }

  /** Admit iff fewer than limit admissions are younger than one window. */
  function LedgerAnswer(r: Ledger, window: int, e: Event): bool {
    e.Allow? && |Prune(Times(HistoryOf(r, e.ip)), e.now1 - window)| < r.limit
  }

  function LedgerStep(r: Ledger, window: int, e: Event): Ledger {
    match e
    case Allow(ip, now1, now2) =>
      if LedgerAnswer(r, window, e)
      then r.(history := r.history[ip := HistoryOf(r, ip) + [Admission(now1, now2, r.limit)]])
      else r
    case UpdateLimit(l) => r.(limit := l)
    case Gc(_) => r
  }

  function Answers(s: State, window: int, es: seq<Event>): seq<bool>
    decreases |es|
  {
    if es == [] then [] else [Answer(s, window, es[0])] + Answers(Step(s, window, es[0]), window, es[1..])
  }

  function LedgerAnswers(r: Ledger, window: int, es: seq<Event>): seq<bool>
    decreases |es|
  {
    if es == [] then [] else [LedgerAnswer(r, window, es[0])] + LedgerAnswers(LedgerStep(r, window, es[0]), window, es[1..])
  }

  function LedgerRun(r: Ledger, window: int, es: seq<Event>): Ledger
    decreases |es|
  {
    if es == [] then r else LedgerRun(LedgerStep(r, window, es[0]), window, es[1..])
  }

  /** The clock after an event that happens at or after clock. */
  function ClockAfter(clock: int, e: Event): int {
    if e.Allow? then e.now2 else if e.Gc? && e.now > clock then e.now else clock
  }

  /** Requests read a clock that never goes back. */
  predicate Timely(clock: int, es: seq<Event>)
    decreases |es|
  {
    es == [] || ((es[0].Allow? ==> clock <= es[0].now1 <= es[0].now2) && Timely(ClockAfter(clock, es[0]), es[1..]))
  }

  // --- Pruning ---

  lemma {:induction false} PruneTwice(times: seq<int>, c: int, d: int)
    requires c <= d
    ensures Prune(Prune(times, c), d) == Prune(times, d)
  {
    if times != [] {
      var n := |times| - 1;
      PruneTwice(times[..n], c, d);
      if times[n] > c {
        PruneAppend(Prune(times[..n], c), times[n], d);
      } else {
        assert Prune(times, c) == Prune(times[..n], c);
      }
    }
  }

  lemma PruneAppend(times: seq<int>, t: int, c: int)
    ensures Prune(times + [t], c) == Prune(times, c) + if t > c then [t] else []
  {
    assert (times + [t])[..|times|] == times;
  }

  lemma ActivePrefix(times: seq<int>, n: nat, c: int)
    requires n <= |times|
    ensures Active(times[..n], c) ==> Active(times, c)
    ensures n < |times| && times[n] > c ==> Active(times, c)
  {
    if Active(times[..n], c) {
      var i :| 0 <= i < n && times[..n][i] > c;
      assert times[i] > c;
    }
  }

  lemma {:induction false} PruneInactive(times: seq<int>, c: int)
    requires !Active(times, c)
    ensures Prune(times, c) == []
  {
    hide Active;
    if times != [] {
      var n := |times| - 1;
      ActivePrefix(times, n, c);
      PruneInactive(times[..n], c);
    }
  }

  lemma {:induction false} PruneShrinks(times: seq<int>, c: int, d: int)
    requires c <= d
    ensures |Prune(times, d)| <= |Prune(times, c)|
  {
    if times != [] { PruneShrinks(times[..|times| - 1], c, d); }
  }

  lemma TimesAppend(h: seq<Admission>, a: Admission)
    ensures Times(h + [a]) == Times(h) + [a.time]
  {
    assert (h + [a])[..|h|] == h;
  }

  // --- Refinement ---

  /** Within any window that can still be asked about, the bucket and the ledger agree. */
  ghost predicate SameWindow(requests: seq<int>, h: seq<Admission>, horizon: int) {
    forall c :: c >= horizon ==> Prune(requests, c) == Prune(Times(h), c)
  }

  ghost predicate Refines(s: State, r: Ledger, window: int, clock: int) {
    s.limit == r.limit && forall ip :: SameWindow(BucketOf(s, ip), HistoryOf(r, ip), clock - window)
  }

  lemma AllowKeepsWindow(requests: seq<int>, h: seq<Admission>, limit: int, window: int, now1: int, now2: int)
    requires now1 <= now2 && SameWindow(requests, h, now1 - window)
    ensures AllowStep(requests, limit, window, now1, now2).admitted <==> |Prune(Times(h), now1 - window)| < limit
    ensures var v := AllowStep(requests, limit, window, now1, now2);
            SameWindow(v.requests, if v.admitted then h + [Admission(now1, now2, limit)] else h, now2 - window)
  {
    hide Prune, Times;
    var v := AllowStep(requests, limit, window, now1, now2);
    forall c | c >= now2 - window
      ensures Prune(v.requests, c) == Prune(Times(if v.admitted then h + [Admission(now1, now2, limit)] else h), c)
    {
      PruneTwice(requests, now1 - window, c);
      assert Prune(requests, c) == Prune(Times(h), c);
      if v.admitted {
        PruneAppend(Prune(requests, now1 - window), now2, c);
        TimesAppend(h, Admission(now1, now2, limit));
        PruneAppend(Times(h), now2, c);
      }
    }
  }

  /** Sweeping idle buckets and changing the limit leave every recorded window as it was. */
  lemma HousekeepingKeepsWindows(s: State, window: int, e: Event, ip: Address, c: int)
    requires e.UpdateLimit? || (e.Gc? && c >= e.now - window)
    ensures Prune(BucketOf(Step(s, window, e), ip), c) == Prune(BucketOf(s, ip), c)
  {
    if e.Gc? && ip in s.buckets && !Active(s.buckets[ip], e.now - window) {
      PruneInactive(s.buckets[ip], e.now - window);
      PruneTwice(s.buckets[ip], e.now - window, c);
    }
  }

  /** A sweep drops exactly the buckets that hold no request of the last window. */
  lemma GcKeepsIff(s: State, window: int, now: int, ip: Address)
    ensures ip in Step(s, window, Event.Gc(now)).buckets <==>
            ip in s.buckets && exists i :: 0 <= i < |s.buckets[ip]| && now - s.buckets[ip][i] < window
    ensures ip in Step(s, window, Event.Gc(now)).buckets ==> Step(s, window, Event.Gc(now)).buckets[ip] == s.buckets[ip]
    ensures Step(s, window, Event.Gc(now)).limit == s.limit
  {
    if ip in s.buckets {
      assert Active(s.buckets[ip], now - window) <==> exists i :: 0 <= i < |s.buckets[ip]| && now - s.buckets[ip][i] < window;
    }
  }

  lemma StepRefines(s: State, r: Ledger, window: int, clock: int, e: Event)
    requires Refines(s, r, window, clock)
    requires e.Allow? ==> clock <= e.now1 <= e.now2
    ensures Answer(s, window, e) == LedgerAnswer(r, window, e)
    ensures Refines(Step(s, window, e), LedgerStep(r, window, e), window, ClockAfter(clock, e))
  {
    hide Prune, Times, Active, AllowStep;
    var s', r', clock' := Step(s, window, e), LedgerStep(r, window, e), ClockAfter(clock, e);
    if e.Allow? {
      AllowKeepsWindow(BucketOf(s, e.ip), HistoryOf(r, e.ip), s.limit, window, e.now1, e.now2);
    }
    forall ip ensures SameWindow(BucketOf(s', ip), HistoryOf(r', ip), clock' - window) {
      assert SameWindow(BucketOf(s, ip), HistoryOf(r, ip), clock - window);
      if !e.Allow? {
        forall c | c >= clock' - window ensures Prune(BucketOf(s', ip), c) == Prune(BucketOf(s, ip), c) {
          HousekeepingKeepsWindows(s, window, e, ip, c);
        }
      }
    }
  }

  lemma {:induction false} RunRefines(s: State, r: Ledger, window: int, clock: int, es: seq<Event>)
    requires Refines(s, r, window, clock) && Timely(clock, es)
    ensures Answers(s, window, es) == LedgerAnswers(r, window, es)
    decreases |es|
  {
    hide Refines, Answer, LedgerAnswer, Step, LedgerStep;
    if es != [] {
      StepRefines(s, r, window, clock, es[0]);
      RunRefines(Step(s, window, es[0]), LedgerStep(r, window, es[0]), window, ClockAfter(clock, es[0]), es[1..]);
    }
  }

  /** From an empty limiter, every run gets the answers of the full admission history. */
  lemma DecidesAsFullHistory(limit: int, window: int, clock: int, es: seq<Event>)
    requires Timely(clock, es)
    ensures Answers(State(map[], limit), window, es) == LedgerAnswers(Ledger(map[], limit), window, es)
  {
    RunRefines(State(map[], limit), Ledger(map[], limit), window, clock, es);
  }

  // --- The bound on every window ---

  /** How many admissions lie in the half-open window that ends at y. */
  function InWindow(h: seq<Admission>, lo: int, y: int): nat {
    if h == [] then 0
    else InWindow(h[..|h| - 1], lo, y) + if lo < h[|h| - 1].time <= y then 1 else 0
  }

  /** The limit in force at the last admission at or before y; 0 when there is none. */
  function LimitAt(h: seq<Admission>, y: int): int {
    if h == [] then 0
    else if h[|h| - 1].time <= y then h[|h| - 1].limit
    else LimitAt(h[..|h| - 1], y)
  }

  /** Each admission was checked against the ones before it, and times do not go back. */
  ghost predicate Recorded(h: seq<Admission>, window: int) {
    h == [] || (
      var n := |h| - 1;
      && Recorded(h[..n], window)
      && h[n].checked <= h[n].time
      && |Prune(Times(h[..n]), h[n].checked - window)| < h[n].limit
      && (n > 0 ==> h[n - 1].time <= h[n].time))
  }

  lemma {:induction false} TimesBelowLast(h: seq<Admission>, window: int, i: int)
    requires Recorded(h, window) && 0 <= i < |h|
    ensures h[i].time <= h[|h| - 1].time
    decreases |h|
  {
    if i < |h| - 1 {
      TimesBelowLast(h[..|h| - 1], window, i);
    }
  }

  lemma {:induction false} InWindowIsPruned(h: seq<Admission>, lo: int, y: int)
    requires forall i :: 0 <= i < |h| ==> h[i].time <= y
    ensures InWindow(h, lo, y) == |Prune(Times(h), lo)|
  {
    if h != [] {
      var n := |h| - 1;
      InWindowIsPruned(h[..n], lo, y);
      assert Times(h)[..n] == Times(h[..n]);
    }
  }

  /** No window of admissions exceeds the limit in force at its last admission. */
  lemma {:induction false} WindowBound(h: seq<Admission>, window: int, y: int)
    requires window >= 0 && Recorded(h, window)
    ensures InWindow(h, y - window, y) <= LimitAt(h, y)
    decreases |h|
  {
    if h != [] {
      var n := |h| - 1;
      if h[n].time > y {
        WindowBound(h[..n], window, y);
      } else {
        forall i | 0 <= i < n ensures h[..n][i].time <= y { TimesBelowLast(h, window, i); }
        InWindowIsPruned(h[..n], y - window, y);
        PruneShrinks(Times(h[..n]), h[n].checked - window, y - window);
      }
    }
  }

  ghost predicate AllRecorded(r: Ledger, window: int, clock: int) {
    forall ip :: Recorded(HistoryOf(r, ip), window) && forall i :: 0 <= i < |HistoryOf(r, ip)| ==> HistoryOf(r, ip)[i].time <= clock
  }

  lemma AppendRecorded(h: seq<Admission>, a: Admission, window: int)
    requires Recorded(h, window) && a.checked <= a.time && |Prune(Times(h), a.checked - window)| < a.limit
    requires forall i :: 0 <= i < |h| ==> h[i].time <= a.time
    ensures Recorded(h + [a], window)
    ensures forall i :: 0 <= i < |h + [a]| ==> (h + [a])[i].time <= a.time
  {
    hide Prune, Times;
    assert (h + [a])[..|h|] == h;
  }

  lemma StepRecords(r: Ledger, window: int, clock: int, e: Event)
    requires AllRecorded(r, window, clock)
    requires e.Allow? ==> clock <= e.now1 <= e.now2
    ensures AllRecorded(LedgerStep(r, window, e), window, ClockAfter(clock, e))
  {
    hide Prune, Times, Recorded;
    var r' := LedgerStep(r, window, e);
    forall ip
      ensures Recorded(HistoryOf(r', ip), window)
      ensures forall i :: 0 <= i < |HistoryOf(r', ip)| ==> HistoryOf(r', ip)[i].time <= ClockAfter(clock, e)
    {
      var h := HistoryOf(r, ip);
      assert Recorded(h, window) && forall i :: 0 <= i < |h| ==> h[i].time <= clock;
      if e.Allow? && e.ip == ip && LedgerAnswer(r, window, e) {
        AppendRecorded(h, Admission(e.now1, e.now2, r.limit), window);
      }
    }
  }

  lemma {:induction false} RunRecords(r: Ledger, window: int, clock: int, es: seq<Event>)
    requires AllRecorded(r, window, clock) && Timely(clock, es)
    ensures forall ip :: Recorded(HistoryOf(LedgerRun(r, window, es), ip), window)
    decreases |es|
  {
    hide LedgerStep, Recorded;
    if es != [] {
      StepRecords(r, window, clock, es[0]);
      RunRecords(LedgerStep(r, window, es[0]), window, ClockAfter(clock, es[0]), es[1..]);
    }
  }

  /**
   Whatever requests, sweeps and limit changes a run makes, the admissions of one address
   in any window that ends at y number at most the limit at the last of them.
   */
  lemma EveryWindowBounded(limit: int, window: int, clock: int, es: seq<Event>, ip: Address, y: int)
    requires window >= 0 && Timely(clock, es)
    ensures var h := HistoryOf(LedgerRun(Ledger(map[], limit), window, es), ip);
            InWindow(h, y - window, y) <= LimitAt(h, y)
  {
    RunRecords(Ledger(map[], limit), window, clock, es);
    WindowBound(HistoryOf(LedgerRun(Ledger(map[], limit), window, es), ip), window, y);
  }

  /** When the requests of the address were recorded that got the answer true. */
  function AdmittedTimes(es: seq<Event>, answers: seq<bool>, ip: Address): seq<int>
    requires |es| == |answers|
    decreases |es|
  {
    if es == [] then []
    else (if es[0].Allow? && es[0].ip == ip && answers[0] then [es[0].now2] else []) + AdmittedTimes(es[1..], answers[1..], ip)
  }

  lemma {:induction false} LedgerAnswerCount(r: Ledger, window: int, es: seq<Event>)
    ensures |LedgerAnswers(r, window, es)| == |es|
    decreases |es|
  {
    hide LedgerAnswer, LedgerStep;
    if es != [] { LedgerAnswerCount(LedgerStep(r, window, es[0]), window, es[1..]); }
  }

  /** The ledger holds exactly the admissions: the requests that were answered true, in order. */
  lemma {:induction false} LedgerHoldsAdmissions(r: Ledger, window: int, es: seq<Event>, ip: Address)
    ensures |LedgerAnswers(r, window, es)| == |es|
    ensures Times(HistoryOf(LedgerRun(r, window, es), ip))
            == Times(HistoryOf(r, ip)) + AdmittedTimes(es, LedgerAnswers(r, window, es), ip)
    decreases |es|
  {
    hide LedgerAnswer, LedgerStep, Times, HistoryOf;
    LedgerAnswerCount(r, window, es);
    if es == [] {
      assert Times(HistoryOf(r, ip)) + [] == Times(HistoryOf(r, ip));
    } else {
      var e, next := es[0], LedgerStep(r, window, es[0]);
      LedgerHoldsAdmissions(next, window, es[1..], ip);
      assert LedgerAnswers(r, window, es)[1..] == LedgerAnswers(next, window, es[1..]);
      AdmissionRecorded(r, window, e, ip);
    }
  }

  lemma AdmissionRecorded(r: Ledger, window: int, e: Event, ip: Address)
    ensures Times(HistoryOf(LedgerStep(r, window, e), ip))
            == Times(HistoryOf(r, ip)) + if e.Allow? && e.ip == ip && LedgerAnswer(r, window, e) then [e.now2] else []
  {
    hide LedgerAnswer;
    if e.Allow? && e.ip == ip && LedgerAnswer(r, window, e) {
      TimesAppend(HistoryOf(r, ip), Admission(e.now1, e.now2, r.limit));
    }
  }

  // --- The limiter object ---

  class Limiter {
    var buckets: map<Address, IpBucket>
    var limit: int
    const window: int

    ghost var Contents: map<Address, seq<int>>
    ghost var Repr: set<object>
    ghost var Owner: map<object, Address>

    /** The bucket and its array belong to this address, and Contents is what they record. */
    ghost predicate BucketOk(ip: Address, b: IpBucket)
      reads this, b, b.data
    {
      && b in Repr && b.data in Repr
      && b in Owner && Owner[b] == ip
      && b.data in Owner && Owner[b.data] == ip
      && b.Valid() && ip in Contents && b.Requests() == Contents[ip]
    }

    ghost predicate Valid()
      reads this, Repr
    {
      && this in Repr
      && Contents.Keys == buckets.Keys
      && (forall ip :: ip in buckets ==> buckets[ip] in Repr && buckets[ip].data in Repr && BucketOk(ip, buckets[ip]))
    }

    ghost function Abs(): State
      reads this
    {
      State(Contents, limit)
    }

    constructor (limit: int, window: int)
      ensures Valid() && fresh(Repr) && this.window == window
      ensures Abs() == State(map[], limit)
    {
      this.buckets := map[];
      this.limit := limit;
      this.window := window;
      Contents := map[];
      Repr := {this};
      Owner := map[];
    }

    /** A new empty bucket for an address that has none. */
    method AddBucket(ip: Address) returns (b: IpBucket)
      requires Valid() && ip !in buckets
      modifies this
      ensures Valid() && fresh(Repr - old(Repr)) && limit == old(limit)
      ensures ip in buckets && buckets[ip] == b && Contents == old(Contents)[ip := []]
    {
      b := new IpBucket();
      Insert(ip, b);
    }

    /** Takes a bucket that shares nothing with the others into the map. */
    method Insert(ip: Address, b: IpBucket)
      requires Valid() && ip !in buckets
      requires b.Valid() && b.Requests() == [] && b !in Repr && b.data !in Repr
      modifies this
      ensures Valid() && Repr == old(Repr) + {b, b.data} && limit == old(limit)
      ensures buckets == old(buckets)[ip := b] && Contents == old(Contents)[ip := []]
    {
      hide Active, Swept, Step, Prune, AllowStep, Answer;
      Own(b, ip);
      Own(b.data, ip);
      Put(ip, b);
    }

    /** The map update alone: bucket and array are already known to belong to the address. */
    method Put(ip: Address, b: IpBucket)
      requires Valid() && ip !in buckets
      requires b in Repr && b.data in Repr && b in Owner && b.data in Owner && Owner[b] == ip && Owner[b.data] == ip
      requires b.Valid() && b.Requests() == []
      modifies this`buckets, this`Contents
      ensures Valid()
      ensures buckets == old(buckets)[ip := b] && Contents == old(Contents)[ip := []]
    {
      hide Active, Swept, Step, Prune, AllowStep, Answer;
      buckets := buckets[ip := b];
      Contents := Contents[ip := []];
      assert BucketOk(ip, b);
      forall jp | jp in buckets && jp != ip ensures BucketOk(jp, buckets[jp]) {
        assert old(BucketOk(jp, buckets[jp]));
      }
    }

    /** Puts an object nobody owns under an address. */
    ghost method Own(o: object, ip: Address)
      requires Valid() && o !in Repr
      modifies this`Repr, this`Owner
      ensures Valid() && Repr == old(Repr) + {o} && Owner == old(Owner)[o := ip]
    {
      hide Active, Swept, Step, Prune, AllowStep, Answer;
      Repr := Repr + {o};
      Owner := Owner[o := ip];
      forall jp | jp in buckets ensures BucketOk(jp, buckets[jp]) {
        assert old(BucketOk(jp, buckets[jp]));
      }
    }

    /** The bucket of an address, created empty on first use. */
    method Lookup(ip: Address) returns (b: IpBucket)
      requires Valid()
      modifies this
      ensures Valid() && fresh(Repr - old(Repr)) && limit == old(limit)
      ensures ip in buckets && buckets[ip] == b
      ensures Contents == old(Contents)[ip := BucketOf(old(Abs()), ip)]
    {
      if ip in buckets {
        b := buckets[ip];
        return;
      }
      b := AddBucket(ip);
    }

    method Allow(ip: Address, now1: int, now2: int) returns (admitted: bool)
      requires Valid()
      modifies Repr
      ensures Valid() && fresh(Repr - old(Repr))
      ensures admitted == Answer(old(Abs()), window, Event.Allow(ip, now1, now2))
      ensures Abs() == Step(old(Abs()), window, Event.Allow(ip, now1, now2))
    {
      hide AllowStep, Prune, Active, Swept, Step, Answer;
      var b := Lookup(ip);
      label Found:
      admitted := b.Allow(limit, window, now1, now2);
      label Allowed:
      forall jp | jp in buckets && jp != ip ensures old@Found(BucketOk(jp, buckets[jp])) && Undisturbed@Found(buckets[jp]) {
        assert old@Found(BucketOk(jp, buckets[jp]) && BucketOk(ip, b));
        assert buckets[jp] != b && buckets[jp].data != old@Found(b.data);
      }
      Record(ip, b);
      UpdateTwice(old(Contents), ip, BucketOf(old(Abs()), ip), b.Requests());
      StepOfAllow(old(Abs()), window, ip, now1, now2);
    }

    static lemma UpdateTwice(m: map<Address, seq<int>>, ip: Address, a: seq<int>, b: seq<int>)
      ensures m[ip := a][ip := b] == m[ip := b]
    {
    }

    static lemma StepOfAllow(s: State, window: int, ip: Address, now1: int, now2: int)
      ensures var v := AllowStep(BucketOf(s, ip), s.limit, window, now1, now2);
              && Step(s, window, Event.Allow(ip, now1, now2)) == State(s.buckets[ip := v.requests], s.limit)
              && Answer(s, window, Event.Allow(ip, now1, now2)) == v.admitted
    {
    }

    /** Nothing the bucket consists of has changed. */
    twostate predicate Undisturbed(b: IpBucket)
      reads b, b.data
    {
      old(b.Valid()) && b.data == old(b.data) && b.Valid() && b.Requests() == old(b.Requests())
    }

    /** Takes the new requests of one bucket into the abstract state. */
    ghost method Record(ip: Address, b: IpBucket)
      requires this in Repr && Contents.Keys == buckets.Keys
      requires ip in buckets && buckets[ip] == b && b in Repr && b in Owner && Owner[b] == ip && b.Valid()
      requires b.data in Repr && b.data in Owner ==> Owner[b.data] == ip
      requires b.data in Repr <==> b.data in Owner
      requires forall jp :: jp in buckets && jp != ip ==> BucketOk(jp, buckets[jp])
      modifies this`Contents, this`Repr, this`Owner
      ensures Valid() && Repr == old(Repr) + {b.data}
      ensures Contents == old(Contents)[ip := b.Requests()]
    {
      Contents := Contents[ip := b.Requests()];
      Repr := Repr + {b.data};
      Owner := Owner[b.data := ip];
      forall jp | jp in buckets ensures BucketOk(jp, buckets[jp]) {
        if jp != ip {
          assert old(BucketOk(jp, buckets[jp]));
        }
      }
    }

    method UpdateLimit(newLimit: int)
      requires Valid()
      modifies this`limit
      ensures Valid() && Repr == old(Repr)
      ensures Abs() == Step(old(Abs()), window, Event.UpdateLimit(newLimit))
    {
      limit := newLimit;
    }

    /** One sweep: every bucket without a recent request is dropped from the map. */
    method Gc(now: int)
      requires Valid()
      modifies this`buckets, this`Contents
      ensures Valid() && Repr == old(Repr)
      ensures Abs() == Step(old(Abs()), window, Event.Gc(now))
    {
      hide Active, Swept, Step, Prune;
      var kept := Recent(now - window);
      SweptKeys(Contents, now - window);
      StepOfGc(Abs(), window, now);
      Retain(kept, Swept(Contents, now - window));
    }

    /** The buckets that hold a request after the cutoff. */
    method Recent(cutoff: int) returns (kept: map<Address, IpBucket>)
      requires Valid()
      ensures forall ip :: ip in kept <==> ip in buckets && Active(Contents[ip], cutoff)
      ensures forall ip :: ip in kept ==> kept[ip] == buckets[ip]
    {
      hide Active;
      kept := buckets;
      var left := buckets.Keys;
      while left != {}
        invariant left <= buckets.Keys
        invariant forall ip :: ip in kept <==> ip in buckets && (ip in left || Active(Contents[ip], cutoff))
        invariant forall ip :: ip in kept ==> kept[ip] == buckets[ip]
        decreases |left|
      {
        var ip :| ip in left;
        assert BucketOk(ip, buckets[ip]);
        var active := buckets[ip].AnyAfter(cutoff);
        if !active {
          kept := kept - {ip};
        }
        left := left - {ip};
      }
    }

    /** Replaces the map by a part of it. */
    method Retain(kept: map<Address, IpBucket>, ghost contents: map<Address, seq<int>>)
      requires Valid()
      requires contents.Keys == kept.Keys <= buckets.Keys
      requires forall ip :: ip in kept ==> kept[ip] == buckets[ip] && contents[ip] == Contents[ip]
      modifies this`buckets, this`Contents
      ensures Valid() && buckets == kept && Contents == contents
    {
      buckets := kept;
      Contents := contents;
      forall ip | ip in kept ensures kept[ip] in Repr && kept[ip].data in Repr && BucketOk(ip, kept[ip]) {
        assert old(BucketOk(ip, kept[ip]));
      }
    }

    static lemma SweptKeys(m: map<Address, seq<int>>, cutoff: int)
      ensures forall ip :: ip in Swept(m, cutoff) <==> ip in m && Active(m[ip], cutoff)
      ensures forall ip :: ip in Swept(m, cutoff) ==> Swept(m, cutoff)[ip] == m[ip]
    {
    }

    static lemma StepOfGc(s: State, window: int, now: int)
      ensures Step(s, window, Event.Gc(now)) == State(Swept(s.buckets, now - window), s.limit)
    {
    }
  }
}
