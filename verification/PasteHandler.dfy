/**
 The paste handlers over the table and the cache. Every handler call is proved to be a run
 of the lifecycle machine: each database or cache operation it makes is one step of it.

 A call reads the clock once; between its steps other calls may run, which the machine
 allows and this sequential code does not show.
 */
module PasteHandler {
  import opened Options
  import opened PasteContent
  import opened PasteTable
  import opened MemoryCache
  import opened PasteProtocol

  lemma {:induction false} RunAppend(s: State, es: seq<Event>, e: Event)
    requires Possible(s, es) && CanHappen(After(s, es), e)
    ensures Possible(s, es + [e]) && After(s, es + [e]) == Step(After(s, es), e)
    decreases |es|
  {
    hide CanHappen, Step;
    if es == [] {
      assert (es + [e])[1..] == [];
    } else {
      RunAppend(Step(s, es[0]), es[1..], e);
      assert (es + [e])[0] == es[0] && (es + [e])[1..] == es[1..] + [e];
    }
  }

  datatype Loaded = Absent | Expired | Alive(paste: Paste, views: int, hit: bool)

  datatype Response = NotFound | Gone | Found(paste: Paste, views: int)

  /** The entry that getCachedPaste returns: fresh, and not burn-limited. */
  function Usable(cache: map<PasteId, Entry<Cached>>, id: PasteId, now: int): Option<Cached> {
    if id in cache && !Stale(cache[id], now) && cache[id].value.paste.burnAfter <= 0 then Some(cache[id].value) else None
  }

  /** What loadLivePaste finds: the usable entry wins over the row, and neither may have expired. */
  function LoadOutcome(rows: Rows, cache: map<PasteId, Entry<Cached>>, id: PasteId, now: int): Loaded {
    var entry := Usable(cache, id, now);
    if entry.Some? then
      if ExpiredBefore(entry.value.paste, now) then Expired else Alive(entry.value.paste, entry.value.views, true)
    else if id !in rows then Absent
    else if ExpiredBefore(rows[id].paste, now) then Expired
    else Alive(rows[id].paste, rows[id].views, false)
  }

  /** Neither without an expiry nor up to it has a paste expired. */
  predicate Unexpired(p: Paste, now: int) {
    p.expiresAt.None? || now <= p.expiresAt.value
  }

  /** The entry can be served: not past its own expiry, without a view limit. */
  predicate Servable(e: Entry<Cached>, now: int) {
    (e.expiresAt.None? || now <= e.expiresAt.value) && e.value.paste.burnAfter <= 0
  }

  /** The outcome, in times: an entry that can be served wins over the row; and either must be unexpired. */
  lemma LoadOutcomeIs(rows: Rows, cache: map<PasteId, Entry<Cached>>, id: PasteId, now: int)
    ensures var l := LoadOutcome(rows, cache, id, now);
            && (id in cache && Servable(cache[id], now) ==>
                  var c := cache[id].value;
                  l == if Unexpired(c.paste, now) then Alive(c.paste, c.views, true) else Expired)
            && (!(id in cache && Servable(cache[id], now)) && id in rows ==>
                  l == if Unexpired(rows[id].paste, now) then Alive(rows[id].paste, rows[id].views, false) else Expired)
            && (!(id in cache && Servable(cache[id], now)) && id !in rows ==> l == Absent)
  {
  }

  /** The view count that is reported: the one the table returned, else one more than was loaded. */
  function ReportedViews(rows: Rows, id: PasteId, loaded: int): int {
    if id in rows then rows[id].views + 1 else loaded + 1
  }

  class PasteHandler {
    const table: Table
    const cache: Cache<Cached>

    /** The machine this handler has driven so far. */
    ghost var machine: State
    ghost var start: State
    ghost var trace: seq<Event>

    ghost predicate Valid()
      reads this, table, cache
    {
      && machine.rows == table.rows && machine.cache == cache.data
      && Possible(start, trace) && After(start, trace) == machine
    }

    constructor (table: Table, cache: Cache<Cached>, now: int)
      requires table.rows == map[] && cache.data == map[]
      ensures Valid() && machine == Initial(now)
      ensures this.table == table && this.cache == cache
    {
      this.table := table;
      this.cache := cache;
      machine := Initial(now);
      start := Initial(now);
      trace := [];
    }

    /** Records the machine step that the operation just made corresponds to. */
    ghost method Take(e: Event)
      requires Possible(start, trace) && After(start, trace) == machine && CanHappen(machine, e)
      requires Step(machine, e).rows == table.rows && Step(machine, e).cache == cache.data
      modifies this`machine, this`trace
      ensures Valid() && machine == Step(old(machine), e) && trace == old(trace) + [e]
    {
      hide Step, CanHappen, Possible, After;
      RunAppend(start, trace, e);
      trace := trace + [e];
      machine := Step(machine, e);
    }

    /** A request that has just arrived. */
    ghost method NewRequest(id: PasteId, web: bool) returns (r: nat)
      requires Valid()
      modifies this`machine, this`trace
      ensures Valid() && r in machine.requests && machine.requests[r] == Request(id, web, Begun)
      ensures machine.now == old(machine).now && old(trace) <= trace
    {
      hide Possible, After;
      r := FreeNumber(machine.requests.Keys);
      Take(Arrive(r, id, web));
    }

    static ghost function FreeNumber(used: set<nat>): (r: nat)
      ensures r !in used
    {
      LargerExists(used);
      var r: nat :| r !in used;
      r
    }

    static lemma {:induction false} LargerExists(used: set<nat>)
      ensures exists r: nat :: r !in used
    {
      var m := UpperBound(used);
      assert m !in used;
    }

    static lemma {:induction false} UpperBound(used: set<nat>) returns (m: nat)
      ensures forall x :: x in used ==> x < m
      decreases |used|
    {
      if used == {} {
        m := 0;
      } else {
        var x :| x in used;
        var n := UpperBound(used - {x});
        m := if n > x then n else x + 1;
        assert forall y :: y in used ==> y == x || y in used - {x};
      }
    }

    /** getCachedPaste: entries that are stale or burn-limited count as misses. */
    method GetCachedPaste(id: PasteId, now: int, ghost r: nat) returns (p: Option<Cached>)
      requires Valid() && machine.now == now
      requires r in machine.requests && machine.requests[r] == Request(id, true, Begun)
      modifies this`machine, this`trace, cache
      ensures Valid() && machine.now == now && old(trace) <= trace && r in machine.requests
      ensures machine.requests[r] == Request(id, true, if p.Some? then Have(p.value.paste, true) else Missed)
      ensures p == Usable(old(cache.data), id, now)
      ensures p.Some? <==>
                && id in old(cache.data) && old(cache.data)[id].value.paste.burnAfter <= 0
                && (old(cache.data)[id].expiresAt.None? || now <= old(cache.data)[id].expiresAt.value)
      ensures p.Some? ==> p.value == old(cache.data)[id].value
    {
      hide Possible, After, WithoutExpired, WithoutSpent, Reaped, CacheForm, NewRow, AfterView, ViewOf;
      var e := cache.Lookup(id);
      Take(ReadCache(r));
      if e.None? {
        return None;
      }
      Take(Judge(r));
      if Stale(e.value, now) {
        cache.Evict(id);
        Take(Event.Evict(r));
        return None;
      }
      if e.value.value.paste.burnAfter > 0 {
        return None;
      }
      p := Some(e.value.value);
    }

    /** cachePaste: burn-limited pastes are never cached. */
    method CachePaste(id: PasteId, row: Row, now: int, ghost r: nat)
      requires Valid() && machine.now == now
      requires r in machine.requests && machine.requests[r] == Request(id, true, Fetched(row.paste, row.views))
      modifies this`machine, this`trace, cache
      ensures Valid() && machine.now == now && old(trace) <= trace
      ensures r in machine.requests && machine.requests[r] == Request(id, true, Have(row.paste, false))
      ensures row.paste.burnAfter > 0 ==> cache.data == old(cache.data)
      ensures row.paste.burnAfter <= 0 ==>
                cache.data == old(cache.data)[id := Entry(Cached(CacheForm(row.paste), row.views, now), Some(now + 300_000_000_000))]
    {
      hide Possible, After;
      if row.paste.burnAfter > 0 {
        Take(Store(r, now, true));
        return;
      }
      cache.Set(id, Cached(CacheForm(row.paste), row.views, now), PASTE_CACHE_TTL, now);
      Take(Store(r, now, true));
    }

    /** The database read behind a miss. */
    method FetchPaste(id: PasteId, now: int, ghost r: nat) returns (row: Option<Row>)
      requires Valid() && machine.now == now
      requires r in machine.requests && machine.requests[r] == Request(id, true, Missed)
      modifies this`machine, this`trace, cache
      ensures Valid() && machine.now == now && old(trace) <= trace && r in machine.requests
      ensures machine.requests[r] == Request(id, true, if row.Some? then Have(row.value.paste, false) else Done)
      ensures row == if id in table.rows then Some(table.rows[id]) else None
    {
      hide Possible, After, CacheForm;
      row := table.GetPasteById(id);
      Take(Load(r));
      if row.Some? {
        CachePaste(id, row.value, now, r);
      }
    }

    /** What is found expired is deleted and invalidated. */
    method DropOutdated(id: PasteId, ghost r: nat)
      requires Valid()
      requires r in machine.requests && machine.requests[r] == Request(id, true, Outdated)
      modifies this`machine, this`trace, table, cache
      ensures Valid() && machine.now == old(machine).now && old(trace) <= trace
      ensures r in machine.requests && machine.requests[r] == Request(id, true, Done)
      ensures table.rows == old(table.rows) - {id} && id !in cache.data
    {
      hide Possible, After, CacheForm;
      var ok := table.DeletePaste(id);
      Take(DeleteOutdated(r));
      cache.Delete(id);
      Take(Invalidate(r));
    }

    /** loadLivePaste: the cache, else the database, then the expiry check. */
    method LoadLivePaste(id: PasteId, now: int, ghost r: nat) returns (l: Loaded)
      requires Valid() && machine.now == now
      requires r in machine.requests && machine.requests[r] == Request(id, true, Begun)
      modifies this`machine, this`trace, table, cache
      ensures Valid() && machine.now == now && old(trace) <= trace && r in machine.requests
      ensures l == LoadOutcome(old(table.rows), old(cache.data), id, now)
      ensures id !in old(cache.data) && id in old(table.rows) ==>
                var row := old(table.rows)[id];
                l == if Unexpired(row.paste, now) then Alive(row.paste, row.views, false) else Expired
      ensures table.rows == if l.Expired? then old(table.rows) - {id} else old(table.rows)
      ensures l.Expired? ==> id !in cache.data
      ensures l.Alive? ==> machine.requests[r] == Request(id, true, Ready(l.paste, l.hit))
      ensures l.Alive? ==> Serving(id, l.paste, l.hit, now) in machine.served
      ensures !l.Alive? ==> machine.requests[r] == Request(id, true, Done)
    {
      hide Possible, After, WithoutExpired, WithoutSpent, Reaped, CacheForm, NewRow, AfterView, ViewOf;
      var paste, views, hit;
      var cached := GetCachedPaste(id, now, r);
      if cached.Some? {
        paste, views, hit := cached.value.paste, cached.value.views, true;
      } else {
        var row := FetchPaste(id, now, r);
        if row.None? {
          return Absent;
        }
        paste, views, hit := row.value.paste, row.value.views, false;
      }
      Take(CheckExpiry(r));
      if ExpiredBefore(paste, now) {
        DropOutdated(id, r);
        return Expired;
      }
      l := Alive(paste, views, hit);
    }

    /** The view increment, and the invalidation when it burned the paste. */
    method CountView(id: PasteId, now: int, ghost r: nat) returns (v: Viewed)
      requires Valid() && machine.now == now
      requires r in machine.requests && machine.requests[r].id == id && machine.requests[r].stage.Ready?
      modifies this`machine, this`trace, table, cache
      ensures Valid() && machine.now == now && old(trace) <= trace && machine.served == old(machine).served
      ensures v == ViewOf(old(table.rows), id) && table.rows == AfterView(old(table.rows), id, now)
      ensures cache.data == if v.Viewed? && v.burned then old(cache.data) - {id} else old(cache.data)
    {
      hide Possible, After, WithoutExpired, WithoutSpent, Reaped, CacheForm, NewRow;
      v := table.IncrementViewsAndCheckBurn(id, now);
      Take(Increment(r, true));
      if v.Viewed? && v.burned {
        cache.Delete(id);
        Take(Invalidate(r));
      }
    }

    /** GetPaste: the view is counted, and a burn invalidates the cache; content is served either way. */
    method GetPaste(id: PasteId, now: int) returns (resp: Response)
      requires Valid() && machine.now == now
      modifies this`machine, this`trace, table, cache
      ensures Valid() && machine.now == now && old(trace) <= trace
      ensures match LoadOutcome(old(table.rows), old(cache.data), id, now)
              case Absent => resp == Response.NotFound && table.rows == old(table.rows)
              case Expired => resp == Gone && table.rows == old(table.rows) - {id} && id !in cache.data
              case Alive(paste, views, hit) =>
                && resp == Found(paste, ReportedViews(old(table.rows), id, views))
                && table.rows == AfterView(old(table.rows), id, now)
      ensures id !in old(cache.data) && id !in old(table.rows) ==> resp == Response.NotFound
      ensures id !in old(cache.data) && id in old(table.rows) ==>
                var row := old(table.rows)[id];
                && resp == (if Unexpired(row.paste, now) then Found(row.paste, row.views + 1) else Gone)
                && (id in table.rows <==> Unexpired(row.paste, now) && !(row.paste.burnAfter > 0 && row.paste.burnAfter <= row.views + 1))
                && (id in table.rows ==> table.rows[id] == row.(views := row.views + 1, updatedAt := now))
      ensures id in old(cache.data) && Servable(old(cache.data)[id], now) && Unexpired(old(cache.data)[id].value.paste, now) ==>
                var c := old(cache.data)[id].value;
                resp == Found(c.paste, if id in old(table.rows) then old(table.rows)[id].views + 1 else c.views + 1)
      ensures resp.Found? ==> exists hit :: Serving(id, resp.paste, hit, now) in machine.served
    {
      hide Possible, After, CacheForm, ViewOf, AfterView;
      ViewsAre(table.rows, id);
      if id in table.rows { ViewCounts(table.rows, id, now); }
      LoadOutcomeIs(table.rows, cache.data, id, now);
      ghost var r := NewRequest(id, true);
      var l := LoadLivePaste(id, now, r);
      if l.Absent? {
        return Response.NotFound;
      }
      if l.Expired? {
        return Gone;
      }
      var v := CountView(id, now, r);
      resp := Found(l.paste, if v.Viewed? then v.views else l.views + 1);
    }

    /** The compatibility reads' own lookup: straight to the table, an outdated row is removed but stays cached. */
    method CompatLoad(id: PasteId, now: int, ghost r: nat) returns (l: Loaded)
      requires Valid() && machine.now == now
      requires r in machine.requests && machine.requests[r] == Request(id, false, Begun)
      modifies this`machine, this`trace, table
      ensures Valid() && machine.now == now && old(trace) <= trace
      ensures l == LoadOutcome(old(table.rows), map[], id, now)
      ensures table.rows == if l.Expired? then old(table.rows) - {id} else old(table.rows)
      ensures l.Alive? ==> r in machine.requests && machine.requests[r] == Request(id, false, Ready(l.paste, false))
    {
      hide Possible, After, WithoutExpired, WithoutSpent, Reaped, CacheForm, NewRow, AfterView, ViewOf, ExpiredBefore, Stale, ExpiryOf, CountsOf;
      var row := table.GetPasteById(id);
      Take(Load(r));
      if row.None? {
        return Absent;
      }
      Take(CheckExpiry(r));
      if ExpiredBefore(row.value.paste, now) {
        CompatDrop(id, r);
        return Expired;
      }
      l := Alive(row.value.paste, row.value.views, false);
    }

    method CompatDrop(id: PasteId, ghost r: nat)
      requires Valid() && r in machine.requests && machine.requests[r] == Request(id, false, Outdated)
      modifies this`machine, this`trace, table
      ensures Valid() && machine.now == old(machine).now && old(trace) <= trace && table.rows == old(table.rows) - {id}
    {
      hide Possible, After, WithoutExpired, WithoutSpent, Reaped, CacheForm, NewRow, AfterView, ViewOf;
      var ok := table.DeletePaste(id);
      Take(DeleteOutdated(r));
    }

    /** The compatibility reads. */
    method CompatGet(id: PasteId, now: int) returns (resp: Response)
      requires Valid() && machine.now == now
      modifies this`machine, this`trace, table, cache
      ensures Valid() && machine.now == now && old(trace) <= trace
      ensures id !in old(table.rows) <==> resp == Response.NotFound
      ensures id in old(table.rows) ==>
                var row := old(table.rows)[id];
                && resp == (if Unexpired(row.paste, now) then Found(row.paste, row.views + 1) else Gone)
                && (id in table.rows <==> Unexpired(row.paste, now) && !(row.paste.burnAfter > 0 && row.paste.burnAfter <= row.views + 1))
                && (id in table.rows ==> table.rows[id] == row.(views := row.views + 1, updatedAt := now))
      ensures resp.Gone? ==> cache.data == old(cache.data)
      ensures table.rows == if resp.Found? then AfterView(old(table.rows), id, now) else old(table.rows) - {id}
    {
      hide Possible, After, WithoutExpired, WithoutSpent, Reaped, CacheForm, NewRow, AfterView, ViewOf;
      ViewsAre(table.rows, id);
      if id in table.rows { ViewCounts(table.rows, id, now); }
      LoadOutcomeIs(table.rows, map[], id, now);
      ghost var r := NewRequest(id, false);
      var l := CompatLoad(id, now, r);
      if l.Absent? {
        return Response.NotFound;
      }
      if l.Expired? {
        return Gone;
      }
      var views := l.views + 1;
      var v := CountView(id, now, r);
      if v.Viewed? {
        views := v.views;
      }
      resp := Found(l.paste, views);
    }

    static lemma ViewsAre(rows: Rows, id: PasteId)
      ensures ViewOf(rows, id).Viewed? <==> id in rows
      ensures id in rows ==> ViewOf(rows, id).views == rows[id].views + 1
    {
    }

    /** The first of ten drawn identifiers that the table does not hold. */
    method FreshId(drawn: seq<PasteId>) returns (id: Option<PasteId>)
      ensures id.Some? ==> exists i :: 0 <= i < |drawn| && i < 10 && drawn[i] == id.value
                                       && drawn[i] !in table.rows && forall j :: 0 <= j < i ==> drawn[j] in table.rows
      ensures id.None? ==> forall i :: 0 <= i < |drawn| && i < 10 ==> drawn[i] in table.rows
    {
      var i := 0;
      while i < |drawn| && i < 10
        invariant 0 <= i <= |drawn| && i <= 10
        invariant forall j :: 0 <= j < i ==> drawn[j] in table.rows
      {
        var existing := table.GetPasteById(drawn[i]);
        if existing.None? {
          return Some(drawn[i]);
        }
        i := i + 1;
      }
      id := None;
    }

    /** The storing part of a creation. What is drawn may collide with a row, but not with a deleted paste. */
    method CreatePaste(drawn: seq<PasteId>, p: Paste, tokenHash: string, now: int) returns (id: Option<PasteId>)
      requires Valid() && machine.now == now
      requires forall i :: 0 <= i < |drawn| && drawn[i] in machine.created ==> drawn[i] in table.rows
      modifies this`machine, this`trace, table
      ensures Valid() && machine.now == now && old(trace) <= trace
      ensures id.None? <==> forall i :: 0 <= i < |drawn| && i < 10 ==> drawn[i] in old(table.rows)
      ensures id.Some? ==> id.value in drawn && id.value !in old(table.rows)
      ensures table.rows == if id.Some? then old(table.rows)[id.value := NewRow(p, tokenHash, now)] else old(table.rows)
      ensures id.Some? ==> id.value in machine.created && machine.created[id.value] == WithDefaults(p, now)
    {
      hide Possible, After, WithDefaults;
      id := FreshId(drawn);
      if id.Some? {
        var ok := table.CreatePaste(id.value, p, tokenHash, now);
        Take(Create(id.value, p, tokenHash));
      }
    }

    /** A delete by the owner or the operator invalidates the cache; a compat delete does not. */
    method DeletePaste(id: PasteId) returns (ok: bool)
      requires Valid()
      modifies this`machine, this`trace, table, cache
      ensures Valid() && machine.now == old(machine).now && old(trace) <= trace
      ensures ok == (id in old(table.rows)) && table.rows == old(table.rows) - {id}
      ensures cache.data == if ok then old(cache.data) - {id} else old(cache.data)
    {
      hide Possible, After;
      ok := table.DeletePaste(id);
      Take(Delete(id));
      if !ok {
        return;
      }
      cache.Delete(id);
      Take(Uncache(id));
    }

    method CompatDelete(id: PasteId, tokenHash: string) returns (ok: bool)
      requires Valid()
      modifies this`machine, this`trace, table
      ensures Valid() && machine.now == old(machine).now && old(trace) <= trace
      ensures ok == (id in old(table.rows) && old(table.rows)[id].tokenHash == tokenHash)
      ensures table.rows == if ok then old(table.rows) - {id} else old(table.rows)
    {
      hide Possible, After;
      ok := table.DeletePasteByToken(id, tokenHash);
      if ok {
        Take(Delete(id));
      }
    }

    /** The ten-minute task: expired rows, then rows that have spent their views. */
    method Sweep(now: int) returns (removed: nat)
      requires Valid() && machine.now == now
      modifies this`machine, this`trace, table
      ensures Valid() && machine.now == now && old(trace) <= trace
      ensures table.rows == WithoutSpent(WithoutExpired(old(table.rows), now))
      ensures forall id :: id in table.rows <==>
                && id in old(table.rows)
                && (old(table.rows)[id].paste.expiresAt.None? || now < old(table.rows)[id].paste.expiresAt.value)
                && (old(table.rows)[id].paste.burnAfter <= 0 || old(table.rows)[id].views < old(table.rows)[id].paste.burnAfter)
      ensures forall id :: id in table.rows ==> table.rows[id] == old(table.rows)[id]
      ensures removed == |old(table.rows)| - |table.rows|
    {
      hide Possible, After;
      var n := table.DeleteExpiredPastes(now);
      Take(SweepExpired(now));
      var b := table.DeleteBurnedPastes();
      Take(SweepSpent);
      removed := n + b;
    }
  }
}
