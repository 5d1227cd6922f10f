/** The pastes table: one method per database operation, each a single transaction. */
module PasteTable {
  import opened Options
  import opened Lists
  import opened ByteStrings
  import opened Utf8
  import opened PasteContent

  datatype PasteId = PasteId(text: string)

  /** What creation fixes for the lifetime of a row. */
  datatype Paste = Paste(
    title: Bytes, stored: Stored, language: Bytes, visibility: int,
    expiresAt: Option<int>, burnAfter: int, createdAt: int)

  datatype Row = Row(paste: Paste, tokenHash: string, views: int, updatedAt: int)

  type Rows = map<PasteId, Row>

  /** "Untitled" and "text" */
  const UNTITLED: Bytes := [85, 110, 116, 105, 116, 108, 101, 100]
  const TEXT: Bytes := [116, 101, 120, 116]

  function WithDefaults(p: Paste, now: int): Paste {
    p.(createdAt := now,
       title := if p.title == [] then UNTITLED else p.title,
       language := if p.language == [] && !p.stored.isLink then TEXT else p.language)
  }

  function NewRow(p: Paste, tokenHash: string, now: int): Row {
    Row(WithDefaults(p, now), tokenHash, 0, now)
  }

  /** The count the increment returns, and whether it removes the row. */
  datatype Viewed = NotFound | Viewed(views: int, burned: bool)

  function ViewOf(rows: Rows, id: PasteId): Viewed {
    if id !in rows then NotFound
    else
      var r := rows[id];
      Viewed(r.views + 1, r.paste.burnAfter > 0 && r.views + 1 >= r.paste.burnAfter)
  }

  function AfterView(rows: Rows, id: PasteId, now: int): Rows {
    match ViewOf(rows, id)
    case NotFound => rows
    case Viewed(views, burned) =>
      if burned then rows - {id} else rows[id := rows[id].(views := views, updatedAt := now)]
  }

  /** The sweep's test: expired at the very instant counts. */
  predicate ExpiredBy(p: Paste, at: int) {
    p.expiresAt.Some? && p.expiresAt.value <= at
  }

  /** The handlers' test: expired strictly before now. */
  predicate ExpiredBefore(p: Paste, now: int) {
    p.expiresAt.Some? && p.expiresAt.value < now
  }

  predicate SpentRow(r: Row) {
    r.paste.burnAfter > 0 && r.views >= r.paste.burnAfter
  }

  function WithoutExpired(rows: Rows, at: int): Rows {
    map id | id in rows && !ExpiredBy(rows[id].paste, at) :: rows[id]
  }

  function WithoutSpent(rows: Rows): Rows {
    map id | id in rows && !SpentRow(rows[id]) :: rows[id]
  }

  // --- In the columns of the table ---

  /** Creation keeps what it is given, but for an empty title, an empty language of a paste that is no link, and the time. */
  lemma CreationKeeps(p: Paste, tokenHash: string, now: int)
    ensures var r := NewRow(p, tokenHash, now);
            && r.tokenHash == tokenHash && r.views == 0 && r.updatedAt == now && r.paste.createdAt == now
            && r.paste.stored == p.stored && r.paste.visibility == p.visibility
            && r.paste.expiresAt == p.expiresAt && r.paste.burnAfter == p.burnAfter
            && (p.title != [] ==> r.paste.title == p.title)
            && (p.title == [] ==> Spells(r.paste.title, "Untitled"))
            && (p.language != [] || p.stored.isLink ==> r.paste.language == p.language)
            && (p.language == [] && !p.stored.isLink ==> Spells(r.paste.language, "text"))
  {
  }

  predicate Spells(s: Bytes, text: string) {
    |s| == |text| && forall i :: 0 <= i < |text| ==> s[i] == text[i] as int
  }

  /** A sweep keeps exactly the rows without an expiry or with one still to come, as they are. */
  lemma SweepKeeps(rows: Rows, at: int, id: PasteId)
    ensures id in WithoutExpired(rows, at) <==> id in rows && (rows[id].paste.expiresAt.None? || at < rows[id].paste.expiresAt.value)
    ensures id in WithoutExpired(rows, at) ==> WithoutExpired(rows, at)[id] == rows[id]
  {
  }

  /** The other one keeps the rows without a view limit or with views left. */
  lemma SpentSweepKeeps(rows: Rows, id: PasteId)
    ensures id in WithoutSpent(rows) <==> id in rows && (rows[id].paste.burnAfter <= 0 || rows[id].views < rows[id].paste.burnAfter)
    ensures id in WithoutSpent(rows) ==> WithoutSpent(rows)[id] == rows[id]
  {
  }

  /** A view is counted in the row and reported, or is the last one and removes the row. */
  lemma ViewCounts(rows: Rows, id: PasteId, now: int)
    requires id in rows
    ensures var row, v, after := rows[id], ViewOf(rows, id), AfterView(rows, id, now);
            && v == Viewed(row.views + 1, row.paste.burnAfter > 0 && row.paste.burnAfter <= row.views + 1)
            && (v.burned ==> id !in after)
            && (!v.burned ==> id in after && after[id] == row.(views := row.views + 1, updatedAt := now))
            && forall other :: other != id ==> (other in after <==> other in rows) && (other in rows ==> after[other] == rows[other])
  {
  }

  class Table {
    var rows: Rows

    constructor ()
      ensures rows == map[]
    {
      rows := map[];
    }

    /** The primary key refuses a second row. */
    method CreatePaste(id: PasteId, p: Paste, tokenHash: string, now: int) returns (ok: bool)
      modifies this
      ensures ok == (id !in old(rows))
      ensures rows == if ok then old(rows)[id := NewRow(p, tokenHash, now)] else old(rows)
    {
      var q := p.(createdAt := now);
      if q.title == [] {
        q := q.(title := UNTITLED);
      }
      if q.language == [] && !q.stored.isLink {
        q := q.(language := TEXT);
      }
      if id in rows {
        return false;
      }
      rows := rows[id := Row(q, tokenHash, 0, now)];
      ok := true;
    }

    method GetPasteById(id: PasteId) returns (r: Option<Row>)
      ensures r == if id in rows then Some(rows[id]) else None
    {
      r := if id in rows then Some(rows[id]) else None;
    }

    method IncrementViewsAndCheckBurn(id: PasteId, now: int) returns (r: Viewed)
      modifies this
      ensures r == ViewOf(old(rows), id)
      ensures rows == AfterView(old(rows), id, now)
    {
      if id !in rows {
        return NotFound;
      }
      ghost var before := rows;
      var row := rows[id].(views := rows[id].views + 1, updatedAt := now);
      rows := rows[id := row];
      var burned := false;
      if row.paste.burnAfter > 0 && row.views >= row.paste.burnAfter {
        rows := rows - {id};
        assert rows == before - {id};
        burned := true;
      }
      r := Viewed(row.views, burned);
    }

    method DeletePaste(id: PasteId) returns (ok: bool)
      modifies this
      ensures ok == (id in old(rows)) && rows == old(rows) - {id}
    {
      ok := id in rows;
      rows := rows - {id};
    }

    method DeletePasteByToken(id: PasteId, tokenHash: string) returns (ok: bool)
      modifies this
      ensures ok == (id in old(rows) && old(rows)[id].tokenHash == tokenHash)
      ensures rows == if ok then old(rows) - {id} else old(rows)
    {
      if id !in rows {
        return false;
      }
      var storedHash := rows[id].tokenHash;
      if storedHash != tokenHash {
        return false;
      }
      rows := rows - {id};
      ok := true;
    }

    method DeleteExpiredPastes(now: int) returns (n: nat)
      modifies this
      ensures rows == WithoutExpired(old(rows), now) && n == |old(rows)| - |rows|
      ensures forall id :: id in rows <==>
                id in old(rows) && (old(rows)[id].paste.expiresAt.None? || now < old(rows)[id].paste.expiresAt.value)
    {
      var kept := WithoutExpired(rows, now);
      SubmapCount(kept, rows);
      n := |rows| - |kept|;
      rows := kept;
    }

    method DeleteBurnedPastes() returns (n: nat)
      modifies this
      ensures rows == WithoutSpent(old(rows)) && n == |old(rows)| - |rows|
      ensures forall id :: id in rows <==>
                id in old(rows) && (old(rows)[id].paste.burnAfter <= 0 || old(rows)[id].views < old(rows)[id].paste.burnAfter)
    {
      var kept := WithoutSpent(rows);
      SubmapCount(kept, rows);
      n := |rows| - |kept|;
      rows := kept;
    }
  }

  lemma SubmapCount(a: Rows, b: Rows)
    requires a.Keys <= b.Keys
    ensures |a| <= |b|
  {
    SubsetCount(a.Keys, b.Keys);
  }
}
