/**
 The paste lifecycle as a state machine: requests take one step at a time (cache read,
 expiry judgement, database load, cache write, expiry check, view increment,
 invalidation), interleaved with creations, deletions, sweeps and the cache reaper.

 Identifiers are not reused. created, counts, hits and served are history: no step
 consults them.
 */
module PasteProtocol {
  import opened Options
  import opened Utf8
  import opened PasteContent
  import opened PasteTable
  import opened MemoryCache

  /** Five minutes. */
  const PASTE_CACHE_TTL: int := 300_000_000_000

  /** What the cache holds for a paste, and when it was put there. */
  datatype Cached = Cached(paste: Paste, views: int, cachedAt: int)

  /** A paste after json.Marshal and json.Unmarshal. */
  function CacheForm(p: Paste): Paste {
    p.(title := Sanitize(p.title), stored := FromCache(p.stored), language := Sanitize(p.language))
  }

  datatype Stage =
    | Begun
    | Looked(entry: Entry<Cached>)
    | Evicting
    | Missed
    | Fetched(paste: Paste, views: int)
    | Have(paste: Paste, hit: bool)
    | Outdated
    | Ready(paste: Paste, hit: bool)
    | Dropping
    | Done

  datatype Request = Request(id: PasteId, web: bool, stage: Stage)

  datatype Hit = Hit(id: PasteId, paste: Paste, cachedAt: int, at: int)

  datatype Serving = Serving(id: PasteId, paste: Paste, hit: bool, at: int)

  datatype State = State(
    rows: Rows, cache: map<PasteId, Entry<Cached>>, requests: map<nat, Request>,
    created: map<PasteId, Paste>, counts: map<PasteId, seq<Viewed>>,
    hits: seq<Hit>, served: seq<Serving>, now: int)

  datatype Event =
    | Create(id: PasteId, paste: Paste, tokenHash: string)
    | Arrive(r: nat, id: PasteId, web: bool)
    | ReadCache(r: nat)
    | Judge(r: nat)
    | Evict(r: nat)
    | Load(r: nat)
    | Store(r: nat, readAt: int, ok: bool)
    | CheckExpiry(r: nat)
    | DeleteOutdated(r: nat)
    | Increment(r: nat, ok: bool)
    | Invalidate(r: nat)
    | Delete(id: PasteId)
    | Uncache(id: PasteId)
    | SweepExpired(readAt: int)
    | SweepSpent
    | Reap(readAt: int)
    | Advance(to: int)

  /** Where a request stands; one that has not arrived has nothing to do. */
  function StageOf(s: State, r: nat): Stage {
    if r in s.requests then s.requests[r].stage else Done
  }

  /** When a step can be taken. Clock readings are never ahead of the clock. */
  predicate CanHappen(s: State, e: Event) {
    match e
    case Create(id, _, _) => id !in s.created
    case Arrive(r, _, _) => r !in s.requests
    case ReadCache(r) => StageOf(s, r).Begun? && s.requests[r].web
    case Judge(r) => StageOf(s, r).Looked?
    case Evict(r) => StageOf(s, r).Evicting?
    case Load(r) => StageOf(s, r).Missed? || (StageOf(s, r).Begun? && !s.requests[r].web)
    case Store(r, readAt, _) => StageOf(s, r).Fetched? && readAt <= s.now
    case CheckExpiry(r) => StageOf(s, r).Have?
    case DeleteOutdated(r) => StageOf(s, r).Outdated?
    case Increment(r, _) => StageOf(s, r).Ready?
    case Invalidate(r) => StageOf(s, r).Dropping?
    case Delete(_) => true
    case Uncache(_) => true
    case SweepExpired(readAt) => readAt <= s.now
    case SweepSpent => true
    case Reap(readAt) => readAt <= s.now
    case Advance(to) => s.now <= to
  }

  function CountsOf(s: State, id: PasteId): seq<Viewed> {
    if id in s.counts then s.counts[id] else []
  }

  function Moved(s: State, r: nat, stage: Stage): State
    requires r in s.requests
  {
    s.(requests := s.requests[r := s.requests[r].(stage := stage)])
  }

  function Step(s: State, e: Event): State
    requires CanHappen(s, e)
  {
    match e
    case Create(id, paste, tokenHash) =>
      var row := NewRow(paste, tokenHash, s.now);
      s.(rows := s.rows[id := row], created := s.created[id := row.paste], counts := s.counts[id := []])
    case Arrive(r, id, web) => s.(requests := s.requests[r := Request(id, web, Begun)])
    case ReadCache(r) =>
      var id := s.requests[r].id;
      Moved(s, r, if id in s.cache then Looked(s.cache[id]) else Missed)
    case Judge(r) =>
      var q := s.requests[r];
      var c := q.stage.entry.value;
      if Stale(q.stage.entry, s.now) then Moved(s, r, Evicting)
      else if c.paste.burnAfter > 0 then Moved(s, r, Missed)
      else Moved(s, r, Have(c.paste, true)).(hits := s.hits + [Hit(q.id, c.paste, c.cachedAt, s.now)])
    case Evict(r) => Moved(s, r, Missed).(cache := s.cache - {s.requests[r].id})
    case Load(r) =>
      var q := s.requests[r];
      if q.id !in s.rows then Moved(s, r, Done)
      else if q.web then Moved(s, r, Fetched(s.rows[q.id].paste, s.rows[q.id].views))
      else Moved(s, r, Have(s.rows[q.id].paste, false))
    case Store(r, readAt, ok) =>
      var q := s.requests[r];
      var p := q.stage.paste;
      if p.burnAfter > 0 || !ok then Moved(s, r, Have(p, false))
      else
        var entry := Entry(Cached(CacheForm(p), q.stage.views, s.now), ExpiryOf(PASTE_CACHE_TTL, 0, readAt));
        Moved(s, r, Have(p, false)).(cache := s.cache[q.id := entry])
    case CheckExpiry(r) =>
      var q := s.requests[r];
      var p := q.stage.paste;
      if ExpiredBefore(p, s.now) then Moved(s, r, Outdated)
      else Moved(s, r, Ready(p, q.stage.hit)).(served := s.served + [Serving(q.id, p, q.stage.hit, s.now)])
    case DeleteOutdated(r) =>
      var q := s.requests[r];
      Moved(s, r, if q.web then Dropping else Done).(rows := s.rows - {q.id})
    case Increment(r, ok) =>
      var q := s.requests[r];
      var v := ViewOf(s.rows, q.id);
      if !ok || v.NotFound? then Moved(s, r, Done)
      else
        Moved(s, r, if v.burned then Dropping else Done).(
          rows := AfterView(s.rows, q.id, s.now),
          counts := s.counts[q.id := CountsOf(s, q.id) + [v]])
    case Invalidate(r) => Moved(s, r, Done).(cache := s.cache - {s.requests[r].id})
    case Delete(id) => s.(rows := s.rows - {id})
    case Uncache(id) => s.(cache := s.cache - {id})
    case SweepExpired(readAt) => s.(rows := WithoutExpired(s.rows, readAt))
    case SweepSpent => s.(rows := WithoutSpent(s.rows))
    case Reap(readAt) => s.(cache := Reaped(s.cache, readAt))
    case Advance(to) => s.(now := to)
  }

  ghost predicate Possible(s: State, es: seq<Event>)
    decreases |es|
  {
    es == [] || (CanHappen(s, es[0]) && Possible(Step(s, es[0]), es[1..]))
  }

  ghost function After(s: State, es: seq<Event>): State
    requires Possible(s, es)
    decreases |es|
  {
    if es == [] then s else After(Step(s, es[0]), es[1..])
  }

  function Initial(now: int): State {
    State(map[], map[], map[], map[], map[], [], [], now)
  }

  // --- Burn after reading ---

  /** The successful increments of a paste so far, and what they leave of its row. */
  ghost predicate CountedAt(s: State, id: PasteId) {
    var log := CountsOf(s, id);
    && (id in s.rows ==> id in s.created && s.rows[id].paste == s.created[id] && s.rows[id].views == |log|)
    && (id !in s.created ==> log == [])
    && (id in s.created ==>
          var n := s.created[id].burnAfter;
          && (forall i :: 0 <= i < |log| ==> log[i] == Viewed(i + 1, n > 0 && i + 1 == n))
          && (n > 0 ==> |log| <= n && (id in s.rows ==> |log| < n)))
  }

  /** Steps that only remove rows, or touch other parts of the state. */
  lemma CountedFrame(s: State, t: State, id: PasteId)
    requires CountedAt(s, id) && t.created == s.created && t.counts == s.counts
    requires id in t.rows ==> id in s.rows && t.rows[id] == s.rows[id]
    ensures CountedAt(t, id)
  {
  }

  lemma CountedCreate(s: State, e: Event, id: PasteId)
    requires CountedAt(s, id) && CanHappen(s, e) && e.Create?
    ensures CountedAt(Step(s, e), id)
  {
    hide WithDefaults;
  }

  lemma CountedIncrement(s: State, e: Event, id: PasteId)
    requires CountedAt(s, id) && CanHappen(s, e) && e.Increment?
    ensures CountedAt(Step(s, e), id)
  {
  }

  lemma SweepsOnlyShrink(rows: Rows, at: int, id: PasteId)
    ensures id in WithoutExpired(rows, at) ==> id in rows && WithoutExpired(rows, at)[id] == rows[id]
    ensures id in WithoutSpent(rows) ==> id in rows && WithoutSpent(rows)[id] == rows[id]
  {
  }

  /** The cache steps of a request touch no row. */
  lemma CacheStepsKeepRows(s: State, e: Event)
    requires CanHappen(s, e) && (e.ReadCache? || e.Evict? || e.Load?)
    ensures var t := Step(s, e); t.created == s.created && t.counts == s.counts && t.rows == s.rows
  {
    hide CacheForm, Stale, ExpiredBefore, ExpiryOf, WithoutExpired, WithoutSpent, Reaped, AfterView, ViewOf, NewRow, CountsOf;
  }

  lemma JudgeAndStoreKeepRows(s: State, e: Event)
    requires CanHappen(s, e) && (e.Judge? || e.Store?)
    ensures var t := Step(s, e); t.created == s.created && t.counts == s.counts && t.rows == s.rows
  {
    hide CacheForm, Stale, ExpiredBefore, ExpiryOf, WithoutExpired, WithoutSpent, Reaped, AfterView, ViewOf, NewRow, CountsOf;
  }

  /** The later steps, but for the increment, touch at most its own row, to delete it. */
  lemma FinalStepsShrinkRows(s: State, e: Event)
    requires CanHappen(s, e) && (e.CheckExpiry? || e.DeleteOutdated? || e.Invalidate?)
    ensures var t := Step(s, e);
            && t.created == s.created && t.counts == s.counts
            && t.rows == if e.DeleteOutdated? then s.rows - {s.requests[e.r].id} else s.rows
  {
    hide CacheForm, Stale, ExpiredBefore, ExpiryOf, WithoutExpired, WithoutSpent, Reaped, AfterView, ViewOf, NewRow, CountsOf;
  }

  lemma RowsOnlyShrink(s: State, e: Event, id: PasteId)
    requires CanHappen(s, e) && !e.Create? && !e.Increment?
    ensures var t := Step(s, e);
            && t.created == s.created && t.counts == s.counts
            && (id in t.rows ==> id in s.rows && t.rows[id] == s.rows[id])
  {
    hide Reaped, WithoutExpired, WithoutSpent, CanHappen;
    if e.Delete? || e.Uncache? || e.SweepExpired? || e.SweepSpent? || e.Reap? || e.Advance? || e.Arrive? {
      SweepsOnlyShrink(s.rows, if e.SweepExpired? then e.readAt else 0, id);
    } else {
      hide Step;
      if e.CheckExpiry? || e.DeleteOutdated? || e.Invalidate? { FinalStepsShrinkRows(s, e); }
      else if e.Judge? || e.Store? { JudgeAndStoreKeepRows(s, e); }
      else { CacheStepsKeepRows(s, e); }
    }
  }

  lemma CountedStep(s: State, e: Event, id: PasteId)
    requires CountedAt(s, id) && CanHappen(s, e)
    ensures CountedAt(Step(s, e), id)
  {
    hide CountedAt, Step, CanHappen;
    if e.Create? { CountedCreate(s, e, id); }
    else if e.Increment? { CountedIncrement(s, e, id); }
    else {
      RowsOnlyShrink(s, e, id);
      CountedFrame(s, Step(s, e), id);
    }
  }

  lemma {:induction false} CountedRun(s: State, es: seq<Event>)
    requires (forall id :: CountedAt(s, id)) && Possible(s, es)
    ensures forall id :: CountedAt(After(s, es), id)
    decreases |es|
  {
    hide CountedAt, CanHappen, Step;
    if es != [] {
      forall id ensures CountedAt(Step(s, es[0]), id) { CountedStep(s, es[0], id); }
      CountedRun(Step(s, es[0]), es[1..]);
    }
  }

  /**
   A paste with burn_after N: whatever requests, sweeps and deletes interleave, successful
   increments return 1, 2, ... and never more than N, exactly the Nth reports the burn, and
   after it the row is gone.
   */
  lemma BurnsExactlyOnce(now: int, es: seq<Event>, id: PasteId)
    requires Possible(Initial(now), es) && id in After(Initial(now), es).created
    requires After(Initial(now), es).created[id].burnAfter > 0
    ensures var s := After(Initial(now), es);
            var n, log := s.created[id].burnAfter, CountsOf(s, id);
            && |log| <= n
            && (forall i :: 0 <= i < |log| ==> log[i].Viewed? && log[i].views == i + 1 && (log[i].burned <==> i + 1 == n))
            && (|log| == n ==> id !in s.rows)
  {
    hide Possible, After;
    CountedRun(Initial(now), es);
    assert CountedAt(After(Initial(now), es), id);
  }

  /** No reachable row has spent its views, so the burned-paste sweep never deletes anything. */
  lemma SpentSweepFindsNothing(now: int, es: seq<Event>)
    requires Possible(Initial(now), es)
    ensures var s := After(Initial(now), es); WithoutSpent(s.rows) == s.rows
  {
    hide Possible, After;
    CountedRun(Initial(now), es);
    var s := After(Initial(now), es);
    forall id | id in s.rows ensures !SpentRow(s.rows[id]) {
      assert CountedAt(s, id);
    }
  }

  // --- The cache ---

  /** An entry holds the JSON form of a created paste without a view limit, for at most the TTL. */
  ghost predicate EntryOk(created: map<PasteId, Paste>, id: PasteId, e: Entry<Cached>) {
    && id in created && created[id].burnAfter <= 0
    && e.value.paste == CacheForm(created[id])
    && e.expiresAt.Some? && e.expiresAt.value <= e.value.cachedAt + PASTE_CACHE_TTL
  }

  ghost predicate PasteOk(created: map<PasteId, Paste>, id: PasteId, p: Paste, hit: bool) {
    && id in created
    && (if hit then p == CacheForm(created[id]) && created[id].burnAfter <= 0 else p == created[id])
  }

  ghost predicate RequestOk(created: map<PasteId, Paste>, q: Request) {
    match q.stage
    case Looked(entry) => EntryOk(created, q.id, entry)
    case Fetched(paste, _) => PasteOk(created, q.id, paste, false)
    case Have(paste, hit) => PasteOk(created, q.id, paste, hit)
    case Ready(paste, hit) => PasteOk(created, q.id, paste, hit)
    case _ => true
  }

  ghost predicate HitOk(created: map<PasteId, Paste>, h: Hit) {
    PasteOk(created, h.id, h.paste, true) && h.at <= h.cachedAt + PASTE_CACHE_TTL
  }

  ghost predicate ServingOk(created: map<PasteId, Paste>, v: Serving) {
    PasteOk(created, v.id, v.paste, v.hit) && !ExpiredBefore(v.paste, v.at)
  }

  ghost predicate CacheOk(s: State) {
    && (forall id :: id in s.rows ==> id in s.created && s.rows[id].paste == s.created[id])
    && (forall id :: id in s.cache ==> EntryOk(s.created, id, s.cache[id]))
    && (forall r :: r in s.requests ==> RequestOk(s.created, s.requests[r]))
    && (forall i :: 0 <= i < |s.hits| ==> HitOk(s.created, s.hits[i]))
    && (forall i :: 0 <= i < |s.served| ==> ServingOk(s.created, s.served[i]))
  }

  /** Creating a new id disturbs nothing that is known of the others. */
  lemma CreatedGrows(s: State, id: PasteId, p: Paste)
    requires CacheOk(s) && id !in s.created
    ensures var c := s.created[id := p];
            && (forall k :: k in s.cache ==> EntryOk(c, k, s.cache[k]))
            && (forall r :: r in s.requests ==> RequestOk(c, s.requests[r]))
            && (forall i :: 0 <= i < |s.hits| ==> HitOk(c, s.hits[i]))
            && (forall i :: 0 <= i < |s.served| ==> ServingOk(c, s.served[i]))
  {
    hide CacheForm, ExpiredBefore;
  }

  lemma CreateKeepsCacheOk(s: State, e: Event)
    requires CacheOk(s) && CanHappen(s, e) && e.Create?
    ensures CacheOk(Step(s, e))
  {
    hide EntryOk, RequestOk, HitOk, ServingOk, WithDefaults;
    CreatedGrows(s, e.id, NewRow(e.paste, e.tokenHash, s.now).paste);
  }

  lemma MovedKeepsCacheOk(s: State, r: nat, stage: Stage)
    requires CacheOk(s) && r in s.requests && RequestOk(s.created, s.requests[r].(stage := stage))
    ensures CacheOk(Moved(s, r, stage))
  {
    hide EntryOk, RequestOk, HitOk, ServingOk;
  }

  lemma ShrunkKeepsCacheOk(s: State, id: PasteId)
    requires CacheOk(s)
    ensures CacheOk(s.(cache := s.cache - {id})) && CacheOk(s.(rows := s.rows - {id}))
  {
    hide EntryOk, RequestOk, HitOk, ServingOk;
  }

  lemma HitKeepsCacheOk(s: State, h: Hit)
    requires CacheOk(s) && HitOk(s.created, h)
    ensures CacheOk(s.(hits := s.hits + [h]))
  {
    hide EntryOk, RequestOk, HitOk, ServingOk;
  }

  lemma ServingKeepsCacheOk(s: State, v: Serving)
    requires CacheOk(s) && ServingOk(s.created, v)
    ensures CacheOk(s.(served := s.served + [v]))
  {
    hide EntryOk, RequestOk, HitOk, ServingOk;
  }

  lemma ArriveKeepsCacheOk(s: State, e: Event)
    requires CacheOk(s) && CanHappen(s, e) && e.Arrive?
    ensures CacheOk(Step(s, e))
  {
    hide EntryOk, HitOk, ServingOk;
  }

  lemma LookupKeepsCacheOk(s: State, e: Event)
    requires CacheOk(s) && CanHappen(s, e) && (e.ReadCache? || e.Load?)
    ensures CacheOk(Step(s, e))
  {
    hide CacheOk, CacheForm, EntryOk;
    RequestKnown(s, e.r);
    MovedKeepsCacheOk(s, e.r, Step(s, e).requests[e.r].stage);
  }

  lemma JudgeKeepsCacheOk(s: State, e: Event)
    requires CacheOk(s) && CanHappen(s, e) && e.Judge?
    ensures CacheOk(Step(s, e))
  {
    hide CacheOk, CacheForm;
    RequestKnown(s, e.r);
    var q, stage := s.requests[e.r], Step(s, e).requests[e.r].stage;
    MovedKeepsCacheOk(s, e.r, stage);
    if stage.Have? {
      var c := q.stage.entry.value;
      HitKeepsCacheOk(Moved(s, e.r, stage), Hit(q.id, c.paste, c.cachedAt, s.now));
    }
  }

  lemma CheckKeepsCacheOk(s: State, e: Event)
    requires CacheOk(s) && CanHappen(s, e) && e.CheckExpiry?
    ensures CacheOk(Step(s, e))
  {
    hide CacheOk, CacheForm, ExpiredBefore;
    RequestKnown(s, e.r);
    var q, stage := s.requests[e.r], Step(s, e).requests[e.r].stage;
    MovedKeepsCacheOk(s, e.r, stage);
    if stage.Ready? {
      ServingKeepsCacheOk(Moved(s, e.r, stage), Serving(q.id, q.stage.paste, q.stage.hit, s.now));
    }
  }

  lemma RemovalKeepsCacheOk(s: State, e: Event)
    requires CacheOk(s) && CanHappen(s, e) && (e.Evict? || e.DeleteOutdated? || e.Invalidate?)
    ensures CacheOk(Step(s, e))
  {
    hide CacheOk;
    var stage := Step(s, e).requests[e.r].stage;
    MovedKeepsCacheOk(s, e.r, stage);
    ShrunkKeepsCacheOk(Moved(s, e.r, stage), s.requests[e.r].id);
  }

  /** What the invariant says of one request, of its row and of its cache entry. */
  lemma RequestKnown(s: State, r: nat)
    requires CacheOk(s) && r in s.requests
    ensures RequestOk(s.created, s.requests[r])
    ensures var id := s.requests[r].id;
            && (id in s.rows ==> id in s.created && s.rows[id].paste == s.created[id])
            && (id in s.cache ==> EntryOk(s.created, id, s.cache[id]))
  {
  }

  lemma StoreKeepsCacheOk(s: State, e: Event)
    requires CacheOk(s) && CanHappen(s, e) && e.Store?
    ensures CacheOk(Step(s, e))
  {
    hide CacheForm, ExpiredBefore, HitOk, ServingOk, WithoutExpired, WithoutSpent, Reaped, AfterView, ViewOf, NewRow;
    assert RequestOk(s.created, s.requests[e.r]);
  }

  lemma IncrementKeepsCacheOk(s: State, e: Event)
    requires CacheOk(s) && CanHappen(s, e) && e.Increment?
    ensures CacheOk(Step(s, e))
  {
    hide EntryOk, HitOk, ServingOk, WithoutExpired, WithoutSpent, Reaped, NewRow;
  }

  lemma EnvironmentKeepsCacheOk(s: State, e: Event)
    requires CacheOk(s) && CanHappen(s, e)
    requires e.Delete? || e.Uncache? || e.SweepExpired? || e.SweepSpent? || e.Reap? || e.Advance?
    ensures CacheOk(Step(s, e))
  {
    hide EntryOk, RequestOk, HitOk, ServingOk, Stale, ExpiredBy, SpentRow;
  }

  lemma {:induction false} CacheOkRun(s: State, es: seq<Event>)
    requires CacheOk(s) && Possible(s, es)
    ensures CacheOk(After(s, es))
    decreases |es|
  {
    hide CacheOk, CanHappen, Step;
    if es != [] {
      match es[0] {
        case Create(_, _, _) => CreateKeepsCacheOk(s, es[0]);
        case Arrive(_, _, _) => ArriveKeepsCacheOk(s, es[0]);
        case Store(_, _, _) => StoreKeepsCacheOk(s, es[0]);
        case Increment(_, _) => IncrementKeepsCacheOk(s, es[0]);
        case Delete(_) => EnvironmentKeepsCacheOk(s, es[0]);
        case Uncache(_) => EnvironmentKeepsCacheOk(s, es[0]);
        case SweepExpired(_) => EnvironmentKeepsCacheOk(s, es[0]);
        case SweepSpent => EnvironmentKeepsCacheOk(s, es[0]);
        case Reap(_) => EnvironmentKeepsCacheOk(s, es[0]);
        case Advance(_) => EnvironmentKeepsCacheOk(s, es[0]);
        case ReadCache(_) => LookupKeepsCacheOk(s, es[0]);
        case Load(_) => LookupKeepsCacheOk(s, es[0]);
        case Judge(_) => JudgeKeepsCacheOk(s, es[0]);
        case CheckExpiry(_) => CheckKeepsCacheOk(s, es[0]);
        case _ => RemovalKeepsCacheOk(s, es[0]);
      }
      CacheOkRun(Step(s, es[0]), es[1..]);
    }
  }

  /** Fields that JSON does not touch are those of creation; text fields are their JSON form. */
  ghost predicate CarriesCreation(p: Paste, c: Paste) {
    && p.stored.contentType == c.stored.contentType && p.stored.isLink == c.stored.isLink
    && p.visibility == c.visibility && p.expiresAt == c.expiresAt && p.createdAt == c.createdAt
    && p.burnAfter == c.burnAfter
    && p.stored.content == Sanitize(c.stored.content) && p.language == Sanitize(c.language) && p.title == Sanitize(c.title)
  }

  /**
   Every cache hit of every run carries what creation stored, up to JSON's replacement of
   invalid UTF-8; it is never a burn-limited paste, and it comes at most five minutes after
   the step that cached it, whatever deletes and sweeps interleave.
   */
  lemma HitsCarryCreation(now: int, es: seq<Event>, i: nat)
    requires Possible(Initial(now), es) && i < |After(Initial(now), es).hits|
    ensures var s := After(Initial(now), es);
            var h := s.hits[i];
            && h.id in s.created && CarriesCreation(h.paste, s.created[h.id])
            && s.created[h.id].burnAfter <= 0
            && h.at <= h.cachedAt + 300_000_000_000
  {
    hide Possible, After, Sanitize;
    CacheOkRun(Initial(now), es);
    var s := After(Initial(now), es);
    assert HitOk(s.created, s.hits[i]);
  }

  /** A hit's content is exactly the created one if and only if that is valid UTF-8. */
  lemma HitContentExactIff(now: int, es: seq<Event>, i: nat)
    requires Possible(Initial(now), es) && i < |After(Initial(now), es).hits|
    ensures var s := After(Initial(now), es);
            var h := s.hits[i];
            h.id in s.created && (h.paste.stored == s.created[h.id].stored <==> Valid(s.created[h.id].stored.content))
  {
    hide Possible, After, Sanitize, Valid;
    HitsCarryCreation(now, es, i);
    var s := After(Initial(now), es);
    SurvivesIff(s.created[s.hits[i].id].stored.content);
  }

  /** Whatever is served, from the cache or the database, had not expired when it was checked. */
  lemma NothingExpiredIsServed(now: int, es: seq<Event>, i: nat)
    requires Possible(Initial(now), es) && i < |After(Initial(now), es).served|
    ensures var s := After(Initial(now), es);
            var v := s.served[i];
            && v.id in s.created
            && (s.created[v.id].expiresAt.Some? ==> v.at <= s.created[v.id].expiresAt.value)
            && (!v.hit ==> v.paste == s.created[v.id])
  {
    hide Possible, After, Sanitize;
    CacheOkRun(Initial(now), es);
    var s := After(Initial(now), es);
    assert ServingOk(s.created, s.served[i]);
  }

  // --- What expires, and why rows go ---

  /** What is found outdated has expired. */
  ghost predicate OutdatedAt(s: State, r: nat) {
    r in s.requests && s.requests[r].stage.Outdated? ==>
      var id := s.requests[r].id;
      id in s.created && s.created[id].expiresAt.Some? && s.created[id].expiresAt.value < s.now
  }

  lemma CheckDecides(s: State, r: nat)
    requires CanHappen(s, CheckExpiry(r))
    ensures var p, stage := s.requests[r].stage.paste, Step(s, CheckExpiry(r)).requests[r].stage;
            && (stage.Outdated? <==> p.expiresAt.Some? && p.expiresAt.value < s.now)
            && (stage.Ready? <==> p.expiresAt.None? || s.now <= p.expiresAt.value)
  {
  }

  lemma CheckOutdated(s: State, e: Event, r: nat)
    requires CacheOk(s) && OutdatedAt(s, r) && CanHappen(s, e) && e.CheckExpiry?
    ensures OutdatedAt(Step(s, e), r)
  {
    hide CacheOk;
    CheckDecides(s, e.r);
    RequestKnown(s, e.r);
  }

  lemma LookupOutdated(s: State, e: Event, r: nat)
    requires OutdatedAt(s, r) && CanHappen(s, e) && (e.Arrive? || e.ReadCache? || e.Evict? || e.Load?)
    ensures OutdatedAt(Step(s, e), r)
  {
    hide CacheForm, Stale, ExpiredBefore, ExpiryOf, WithoutExpired, WithoutSpent, Reaped, AfterView, ViewOf, NewRow, CountsOf;
  }

  lemma JudgeOutdated(s: State, e: Event, r: nat)
    requires OutdatedAt(s, r) && CanHappen(s, e) && (e.Judge? || e.Store?)
    ensures OutdatedAt(Step(s, e), r)
  {
    hide CacheForm, Stale, ExpiredBefore, ExpiryOf, WithoutExpired, WithoutSpent, Reaped, AfterView, ViewOf, NewRow, CountsOf;
  }

  lemma FinalOutdated(s: State, e: Event, r: nat)
    requires OutdatedAt(s, r) && CanHappen(s, e) && (e.DeleteOutdated? || e.Increment? || e.Invalidate?)
    ensures OutdatedAt(Step(s, e), r)
  {
    hide CacheForm, Stale, ExpiredBefore, ExpiryOf, WithoutExpired, WithoutSpent, Reaped, AfterView, ViewOf, NewRow, CountsOf;
  }

  lemma EnvironmentOutdated(s: State, e: Event, r: nat)
    requires OutdatedAt(s, r) && CanHappen(s, e)
    requires e.Create? || e.Delete? || e.Uncache? || e.SweepExpired? || e.SweepSpent? || e.Reap? || e.Advance?
    ensures OutdatedAt(Step(s, e), r)
  {
    hide WithoutExpired, WithoutSpent, Reaped, WithDefaults;
  }

  lemma {:induction false} OutdatedRun(s: State, es: seq<Event>, r: nat)
    requires CacheOk(s) && OutdatedAt(s, r) && Possible(s, es)
    ensures OutdatedAt(After(s, es), r)
    decreases |es|
  {
    hide CacheOk, OutdatedAt, CanHappen, Step;
    if es != [] {
      var e := es[0];
      if e.CheckExpiry? { CheckOutdated(s, e, r); }
      else if e.Create? || e.Delete? || e.Uncache? || e.SweepExpired? || e.SweepSpent? || e.Reap? || e.Advance? { EnvironmentOutdated(s, e, r); }
      else if e.Judge? || e.Store? { JudgeOutdated(s, e, r); }
      else if e.DeleteOutdated? || e.Increment? || e.Invalidate? { FinalOutdated(s, e, r); }
      else { LookupOutdated(s, e, r); }
      assert CacheOk(Step(s, e)) by { OneStepKeepsCacheOk(s, e); }
      OutdatedRun(Step(s, e), es[1..], r);
    }
  }

  lemma OneStepKeepsCacheOk(s: State, e: Event)
    requires CacheOk(s) && CanHappen(s, e)
    ensures CacheOk(Step(s, e))
  {
    hide CacheOk, CanHappen, Step;
    assert [e][1..] == [];
    assert Possible(Step(s, e), []) && Possible(s, [e]);
    assert After(Step(s, e), []) == Step(s, e) && After(s, [e]) == After(Step(s, e), []);
    CacheOkRun(s, [e]);
  }

  /** In every run, a request treats as outdated only a paste whose expiry has passed. */
  lemma OnlyExpiredIsOutdated(now: int, es: seq<Event>, r: nat)
    requires Possible(Initial(now), es)
    requires var s := After(Initial(now), es); r in s.requests && s.requests[r].stage.Outdated?
    ensures var s := After(Initial(now), es);
            var id := s.requests[r].id;
            id in s.created && s.created[id].expiresAt.Some? && s.created[id].expiresAt.value < s.now
  {
    hide Possible, After, CacheOk;
    assert CacheOk(Initial(now)) by { InitialCacheOk(now); }
    OutdatedRun(Initial(now), es, r);
  }

  lemma InitialCacheOk(now: int)
    ensures CacheOk(Initial(now))
  {
  }

  /** Why an event may remove this row. */
  predicate Removes(s: State, e: Event, id: PasteId)
    requires id in s.rows
  {
    var row := s.rows[id];
    || (e.Delete? && e.id == id)
    || (e.SweepExpired? && row.paste.expiresAt.Some? && row.paste.expiresAt.value <= e.readAt)
    || (e.DeleteOutdated? && row.paste.expiresAt.Some? && row.paste.expiresAt.value < s.now)
    || (e.Increment? && row.paste.burnAfter > 0 && row.views + 1 == row.paste.burnAfter)
  }

  lemma ViewRemoves(s: State, e: Event, id: PasteId)
    requires CanHappen(s, e) && e.Increment? && id in s.rows && CountedAt(s, id)
    ensures var t := Step(s, e);
            && (id !in t.rows ==> Removes(s, e, id))
            && (id in t.rows ==> t.rows[id].paste == s.rows[id].paste && t.rows[id].views <= s.rows[id].views + 1)
  {
    hide CountsOf;
  }

  lemma SweepRemoves(s: State, e: Event, id: PasteId)
    requires CanHappen(s, e) && (e.SweepExpired? || e.SweepSpent?) && id in s.rows && CountedAt(s, id)
    ensures id !in Step(s, e).rows ==> Removes(s, e, id)
    ensures id in Step(s, e).rows ==> Step(s, e).rows[id] == s.rows[id]
    ensures e.SweepExpired? && s.rows[id].paste.expiresAt.Some? && s.rows[id].paste.expiresAt.value <= e.readAt ==> id !in Step(s, e).rows
  {
    hide CountsOf;
  }

  lemma OtherRemoves(s: State, e: Event, id: PasteId)
    requires CanHappen(s, e) && !e.Create? && !e.Increment? && !e.SweepExpired? && !e.SweepSpent? && !e.DeleteOutdated? && id in s.rows
    ensures id !in Step(s, e).rows ==> e.Delete? && e.id == id
    ensures id in Step(s, e).rows ==> Step(s, e).rows[id] == s.rows[id]
  {
    hide Reaped, WithoutExpired, WithoutSpent, CanHappen;
    if e.Delete? || e.Uncache? || e.Reap? || e.Advance? || e.Arrive? {
    } else {
      hide Step;
      if e.CheckExpiry? || e.Invalidate? { FinalStepsShrinkRows(s, e); }
      else if e.Judge? || e.Store? { JudgeAndStoreKeepRows(s, e); }
      else { CacheStepsKeepRows(s, e); }
    }
  }

  /**
   A row goes for one of four reasons only, in every run: it is deleted by its id, it has
   expired by the time a sweep read or has expired when a request checked it, or its last
   view is counted. A row that stays keeps its paste.
   */
  lemma RowsGoForAReason(now: int, es: seq<Event>, e: Event, id: PasteId)
    requires Possible(Initial(now), es) && CanHappen(After(Initial(now), es), e) && id in After(Initial(now), es).rows
    ensures var s := After(Initial(now), es);
            && (id !in Step(s, e).rows ==> Removes(s, e, id))
            && (id in Step(s, e).rows ==> Step(s, e).rows[id].paste == s.rows[id].paste)
  {
    hide Possible, After, CanHappen, Step, CountedAt, Removes;
    var s := After(Initial(now), es);
    InitialCacheOk(now);
    CacheOkRun(Initial(now), es);
    InitialCounted(now);
    CountedRun(Initial(now), es);
    assert CountedAt(s, id);
    if e.Create? { CreatesAnother(s, e, id); }
    else if e.Increment? { ViewRemoves(s, e, id); }
    else if e.SweepExpired? || e.SweepSpent? { SweepRemoves(s, e, id); }
    else if e.DeleteOutdated? {
      assert e.r in s.requests && s.requests[e.r].stage.Outdated? by { OutdatedIsThere(s, e); }
      OnlyExpiredIsOutdated(now, es, e.r);
      OutdatedRemoves(s, e, id);
    }
    else { OtherRemoves(s, e, id); RemovesByDelete(s, e, id); }
  }

  lemma RemovesByDelete(s: State, e: Event, id: PasteId)
    requires id in s.rows
    ensures e.Delete? && e.id == id ==> Removes(s, e, id)
  {
  }

  lemma OutdatedIsThere(s: State, e: Event)
    requires CanHappen(s, e) && e.DeleteOutdated?
    ensures e.r in s.requests && s.requests[e.r].stage.Outdated?
  {
  }

  lemma InitialCounted(now: int)
    ensures forall id :: CountedAt(Initial(now), id)
  {
  }

  lemma CreatesAnother(s: State, e: Event, id: PasteId)
    requires CacheOk(s) && CanHappen(s, e) && e.Create? && id in s.rows
    ensures id in Step(s, e).rows && Step(s, e).rows[id] == s.rows[id]
  {
    hide WithDefaults;
  }

  lemma OutdatedRemoves(s: State, e: Event, id: PasteId)
    requires CacheOk(s) && CanHappen(s, e) && e.DeleteOutdated? && id in s.rows
    requires OutdatedAt(s, e.r)
    ensures id !in Step(s, e).rows ==> Removes(s, e, id)
    ensures id in Step(s, e).rows ==> Step(s, e).rows[id] == s.rows[id]
  {
    hide EntryOk, RequestOk, HitOk, ServingOk;
  }

  // --- The cache, in times ---

  /** A looked-up entry is a hit exactly when it is not past its expiry and its paste has no view limit. */
  lemma JudgeDecides(s: State, r: nat)
    requires CanHappen(s, Judge(r))
    ensures var entry, stage := s.requests[r].stage.entry, Step(s, Judge(r)).requests[r].stage;
            && (stage.Have? <==> (entry.expiresAt.None? || s.now <= entry.expiresAt.value) && entry.value.paste.burnAfter <= 0)
            && (stage.Evicting? <==> entry.expiresAt.Some? && entry.expiresAt.value < s.now)
            && (stage.Have? ==> stage == Have(entry.value.paste, true))
  {
    hide CacheForm, ExpiredBefore;
  }

  /** What is loaded without a view limit is cached until five minutes after the reading of the clock. */
  lemma StoreCaches(s: State, r: nat, readAt: int)
    requires CanHappen(s, Store(r, readAt, true))
    ensures var q, t := s.requests[r], Step(s, Store(r, readAt, true));
            && t.requests[r].stage == Have(q.stage.paste, false)
            && (q.stage.paste.burnAfter > 0 ==> t.cache == s.cache)
            && (q.stage.paste.burnAfter <= 0 ==>
                  && q.id in t.cache && t.cache[q.id].expiresAt == Some(readAt + 300_000_000_000)
                  && t.cache[q.id].value.cachedAt == s.now && CarriesCreation(t.cache[q.id].value.paste, q.stage.paste))
  {
    hide Sanitize, ExpiredBefore, Stale;
  }
}
