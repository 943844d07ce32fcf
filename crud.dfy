/**
 * The ticket store: a table of ticket rows keyed by id, with the insert,
 * lookup, paged listing and single-field update operations built on it.
 */
module Crud {
  import opened Models

  /** The stored category: a falsy category (None or "") is stored as None. */
  function NormalizeCategory(c: Option<string>): (r: Option<string>)
    ensures r.None? <==> !Truthy(c)
    ensures r.Some? ==> r == c && r.value != ""
  {
    if Truthy(c) then c else None
  }

  /**
   * The row an insert stores for request `t` under `id` at time `createdAt`:
   * status "Pengajuan", the request's fields unchanged, a falsy category as None.
   */
  function NewRecord(t: TicketCreate, id: int, createdAt: int): (r: Ticket)
    ensures r.id == id && r.createdAt == createdAt && r.status == Pengajuan
    ensures r.nama == t.nama && r.instansi == t.instansi && r.tanggalPengajuan == t.tanggalPengajuan
    ensures r.masalah == t.masalah && r.deskripsi == t.deskripsi
    ensures Truthy(t.category) ==> r.category == t.category
    ensures !Truthy(t.category) ==> r.category == None
  {
    Ticket(id, t.nama, t.instansi, t.tanggalPengajuan, t.masalah, t.deskripsi,
           NormalizeCategory(t.category), Pengajuan, createdAt)
  }

  /** Every row is stored under its own id. */
  ghost predicate WellKeyed(rows: map<int, Ticket>)
  {
    forall k :: k in rows ==> rows[k].id == k
  }

  /** Rows inserted later (larger id) are never older. */
  ghost predicate MonotoneClock(rows: map<int, Ticket>)
  {
    forall j, k :: j in rows && k in rows && j <= k ==> rows[j].createdAt <= rows[k].createdAt
  }

  ghost predicate NewestFirst(s: seq<Ticket>)
  {
    forall i, j :: 0 <= i < j < |s| ==> s[i].createdAt >= s[j].createdAt
  }

  /** The rows with id below `n`, newest (largest id) first. */
  function Listing(rows: map<int, Ticket>, n: int): (r: seq<Ticket>)
    ensures forall t :: t in r ==> t in rows.Values
    ensures n <= 1 ==> r == []
    decreases n
  {
    if n <= 1 then []
    else if n - 1 in rows then [rows[n - 1]] + Listing(rows, n - 1)
    else Listing(rows, n - 1)
  }

  ghost function KeysBelow(rows: map<int, Ticket>, n: int): set<int>
  {
    set k | k in rows && 1 <= k < n
  }

  /** The listing holds exactly the stored rows with ids in [1, n), in strictly decreasing id order. */
  lemma {:induction false} ListingShape(rows: map<int, Ticket>, n: int)
    requires WellKeyed(rows)
    ensures forall i :: 0 <= i < |Listing(rows, n)| ==>
      1 <= Listing(rows, n)[i].id < n && Listing(rows, n)[i].id in rows
      && rows[Listing(rows, n)[i].id] == Listing(rows, n)[i]
    ensures forall i, j :: 0 <= i < j < |Listing(rows, n)| ==> Listing(rows, n)[i].id > Listing(rows, n)[j].id
    ensures forall k :: k in rows && 1 <= k < n ==> rows[k] in Listing(rows, n)
    decreases n
  {
    if n > 1 {
      ListingShape(rows, n - 1);
      var rest := Listing(rows, n - 1);
      if n - 1 in rows {
        var l := Listing(rows, n);
        assert l == [rows[n - 1]] + rest;
        forall i | 0 <= i < |l| ensures 1 <= l[i].id < n && l[i].id in rows && rows[l[i].id] == l[i] {
          if i > 0 { assert l[i] == rest[i - 1]; }
        }
        forall i, j | 0 <= i < j < |l| ensures l[i].id > l[j].id {
          assert l[j] == rest[j - 1];
          if i > 0 { assert l[i] == rest[i - 1]; }
        }
      }
    }
  }

  /** The listing has one element per stored key in [1, n). */
  lemma {:induction false} ListingSize(rows: map<int, Ticket>, n: int)
    ensures |Listing(rows, n)| == |KeysBelow(rows, n)|
    decreases n
  {
    if n <= 1 {
      assert KeysBelow(rows, n) == {};
    } else {
      ListingSize(rows, n - 1);
      if n - 1 in rows {
        assert KeysBelow(rows, n) == KeysBelow(rows, n - 1) + {n - 1};
      } else {
        assert KeysBelow(rows, n) == KeysBelow(rows, n - 1);
      }
    }
  }

  /** With a monotone clock the listing is ordered by `createdAt`, newest first. */
  lemma ListingNewestFirst(rows: map<int, Ticket>, n: int)
    requires WellKeyed(rows) && MonotoneClock(rows)
    ensures NewestFirst(Listing(rows, n))
  {
    ListingShape(rows, n);
  }

  /** Inserting the row with the next id puts it at the head of the listing. */
  lemma {:induction false} ListingAfterInsert(rows: map<int, Ticket>, n: int, t: Ticket)
    requires n >= 1
    ensures Listing(rows[n := t], n + 1) == [t] + Listing(rows, n)
  {
    ListingUnaffected(rows, n, n, t);
  }

  lemma {:induction false} ListingUnaffected(rows: map<int, Ticket>, m: int, n: int, t: Ticket)
    requires m <= n
    ensures Listing(rows[n := t], m) == Listing(rows, m)
    decreases m
  {
    if m > 1 {
      ListingUnaffected(rows, m - 1, n, t);
    }
  }

  /** Where an SQLite `OFFSET` starts: a negative offset counts as zero. */
  function OffsetStart(offset: int, len: nat): (s: nat)
    ensures offset <= 0 ==> s == 0
    ensures 0 <= offset <= len ==> s == offset
    ensures offset >= len ==> s == len
  {
    if offset <= 0 then 0 else if offset <= len then offset else len
  }

  /**
   * `OFFSET offset LIMIT limit` over an ordered result: drop the first
   * `offset` elements, then keep at most `limit` (a negative limit keeps all).
   */
  function Page<T>(s: seq<T>, offset: int, limit: int): (r: seq<T>)
    ensures limit >= 0 ==> |r| <= limit
    ensures offset >= |s| ==> r == []
    ensures var start := OffsetStart(offset, |s|);
      && |r| == (if 0 <= limit < |s| - start then limit else |s| - start)
      && forall i :: 0 <= i < |r| ==> r[i] == s[start + i]
  {
    var rest := s[OffsetStart(offset, |s|)..];
    if 0 <= limit < |rest| then rest[..limit] else rest
  }

  /** A page of a newest-first listing of stored rows is again one, and the whole of it when nothing is cut off. */
  lemma PageOfListing(rows: map<int, Ticket>, s: seq<Ticket>, offset: int, limit: int)
    requires NewestFirst(s)
    requires forall i :: 0 <= i < |s| ==> s[i].id in rows && rows[s[i].id] == s[i]
    requires forall i, j :: 0 <= i < j < |s| ==> s[i].id != s[j].id
    ensures var r := Page(s, offset, limit);
      && NewestFirst(r)
      && (forall i :: 0 <= i < |r| ==> r[i].id in rows && rows[r[i].id] == r[i])
      && (forall i, j :: 0 <= i < j < |r| ==> r[i].id != r[j].id)
      && (offset <= 0 && (limit < 0 || limit >= |s|) ==> r == s)
  {
    var r := Page(s, offset, limit);
    var start := OffsetStart(offset, |s|);
    forall i, j | 0 <= i < j < |r| ensures r[i].createdAt >= r[j].createdAt && r[i].id != r[j].id {
      assert r[i] == s[start + i] && r[j] == s[start + j];
    }
  }

  /** The rows after overwriting the category of row `id`, if it exists. */
  function WithCategory(rows: map<int, Ticket>, id: int, c: string): (r: map<int, Ticket>)
    ensures r.Keys == rows.Keys
    ensures forall k :: k in rows && k != id ==> r[k] == rows[k]
    ensures id in rows ==> r[id] == rows[id].(category := Some(c))
  {
    if id in rows then rows[id := rows[id].(category := Some(c))] else rows
  }

  /** The rows after overwriting the status of row `id`, if it exists. */
  function WithStatus(rows: map<int, Ticket>, id: int, s: string): (r: map<int, Ticket>)
    ensures r.Keys == rows.Keys
    ensures forall k :: k in rows && k != id ==> r[k] == rows[k]
    ensures id in rows ==> r[id] == rows[id].(status := s)
  {
    if id in rows then rows[id := rows[id].(status := s)] else rows
  }

  /** A category update changes only that row's category; a missing id changes nothing. */
  lemma CategoryUpdateFrame(rows: map<int, Ticket>, id: int, c: string)
    ensures id !in rows ==> WithCategory(rows, id, c) == rows
    ensures id in rows ==> var o, n := rows[id], WithCategory(rows, id, c)[id];
      && n.category == Some(c)
      && n.id == o.id && n.nama == o.nama && n.instansi == o.instansi
      && n.tanggalPengajuan == o.tanggalPengajuan && n.masalah == o.masalah
      && n.deskripsi == o.deskripsi && n.status == o.status && n.createdAt == o.createdAt
  {
  }

  /** A status update changes only that row's status; a missing id changes nothing. */
  lemma StatusUpdateFrame(rows: map<int, Ticket>, id: int, s: string)
    ensures id !in rows ==> WithStatus(rows, id, s) == rows
    ensures id in rows ==> var o, n := rows[id], WithStatus(rows, id, s)[id];
      && n.status == s
      && n.id == o.id && n.nama == o.nama && n.instansi == o.instansi
      && n.tanggalPengajuan == o.tanggalPengajuan && n.masalah == o.masalah
      && n.deskripsi == o.deskripsi && n.category == o.category && n.createdAt == o.createdAt
  {
  }

  lemma CategoryUpdateIdempotent(rows: map<int, Ticket>, id: int, c: string)
    ensures WithCategory(WithCategory(rows, id, c), id, c) == WithCategory(rows, id, c)
  {
  }

  lemma StatusUpdateIdempotent(rows: map<int, Ticket>, id: int, s: string)
    ensures WithStatus(WithStatus(rows, id, s), id, s) == WithStatus(rows, id, s)
  {
  }

  /** The two updates touch different fields, so their order does not matter. */
  lemma UpdatesCommute(rows: map<int, Ticket>, id: int, c: string, s: string)
    ensures WithStatus(WithCategory(rows, id, c), id, s) == WithCategory(WithStatus(rows, id, s), id, c)
  {
  }

  /** The ticket table: rows keyed by id, the next id to assign and the latest timestamp. */
  class TicketTable {
    var rows: map<int, Ticket>
    var nextId: int
    var clock: int

    ghost predicate Valid()
      reads this
    {
      && nextId >= 1
      && (forall k :: k in rows ==> 1 <= k < nextId && rows[k].createdAt <= clock)
      && (forall k :: 1 <= k < nextId ==> k in rows)
      && WellKeyed(rows)
      && MonotoneClock(rows)
    }

    constructor ()
      ensures Valid()
      ensures rows == map[] && nextId == 1
    {
      rows := map[];
      nextId := 1;
      clock := 0;
    }

    /**
     * Inserts a row for `ticket` with status "Pengajuan" under a new id;
     * `elapsed` is how far the clock has moved since the last insert.
     */
    method CreateTicket(ticket: TicketCreate, elapsed: nat) returns (r: Ticket)
      requires Valid()
      modifies this
      ensures Valid()
      ensures r.id !in old(rows) && r.id == old(nextId)
      ensures r == NewRecord(ticket, r.id, old(clock) + elapsed)
      ensures rows == old(rows)[r.id := r]
      ensures nextId == old(nextId) + 1 && clock == old(clock) + elapsed
    {
      clock := clock + elapsed;
      r := NewRecord(ticket, nextId, clock);
      rows := rows[nextId := r];
      nextId := nextId + 1;
    }

    /** Looks up a row by id. */
    function GetTicket(id: int): (r: Option<Ticket>)
      reads this
      requires Valid()
      ensures r.Some? <==> id in rows
      ensures r.Some? ==> r.value == rows[id] && r.value.id == id
    {
      if id in rows then Some(rows[id]) else None
    }

    /** All rows, newest first: each stored row exactly once. */
    function AllNewestFirst(): (r: seq<Ticket>)
      reads this
      requires Valid()
      ensures NewestFirst(r)
      ensures |r| == |rows|
      ensures forall i :: 0 <= i < |r| ==> r[i].id in rows && rows[r[i].id] == r[i]
      ensures forall i, j :: 0 <= i < j < |r| ==> r[i].id != r[j].id
      ensures forall k :: k in rows ==> rows[k] in r
    {
      ListingShape(rows, nextId);
      ListingNewestFirst(rows, nextId);
      ListingSize(rows, nextId);
      assert KeysBelow(rows, nextId) == rows.Keys;
      Listing(rows, nextId)
    }

    /** `ORDER BY created_at DESC OFFSET skip LIMIT limit`. */
    function GetTickets(skip: int, limit: int): (r: seq<Ticket>)
      reads this
      requires Valid()
      ensures limit >= 0 ==> |r| <= limit
      ensures NewestFirst(r)
      ensures forall i :: 0 <= i < |r| ==> r[i].id in rows && rows[r[i].id] == r[i]
      ensures forall i, j :: 0 <= i < j < |r| ==> r[i].id != r[j].id
      ensures r == Page(AllNewestFirst(), skip, limit)
      ensures skip <= 0 && (limit < 0 || limit >= |rows|) ==> forall k :: k in rows ==> rows[k] in r
    {
      var all := AllNewestFirst();
      PageOfListing(rows, all, skip, limit);
      Page(all, skip, limit)
    }

    /** Overwrites the category of row `id`; None, and no change, when there is no such row. */
    method UpdateTicketCategory(id: int, newCategory: string) returns (r: Option<Ticket>)
      requires Valid()
      modifies this
      ensures Valid()
      ensures rows == WithCategory(old(rows), id, newCategory)
      ensures nextId == old(nextId) && clock == old(clock)
      ensures r.None? <==> id !in old(rows)
      ensures r.Some? ==> r.value == rows[id]
    {
      var found := GetTicket(id);
      if found.None? {
        return None;
      }
      rows := rows[id := found.value.(category := Some(newCategory))];
      r := Some(rows[id]);
    }

    /** Overwrites the status of row `id`; None, and no change, when there is no such row. */
    method UpdateTicketStatus(id: int, newStatus: string) returns (r: Option<Ticket>)
      requires Valid()
      modifies this
      ensures Valid()
      ensures rows == WithStatus(old(rows), id, newStatus)
      ensures nextId == old(nextId) && clock == old(clock)
      ensures r.None? <==> id !in old(rows)
      ensures r.Some? ==> r.value == rows[id]
    {
      var found := GetTicket(id);
      if found.None? {
        return None;
      }
      rows := rows[id := found.value.(status := newStatus)];
      r := Some(rows[id]);
    }
  }
}
