/** Repository change events: how a committed write becomes an event, how the cache drains and
    coalesces events, and what a view of the rows may still be missing. */
module ChangeFeed {
  import opened Basics
  import opened KeyIndex

  datatype ChangeKind = Created | Updated | Deleted

  datatype ChangeEvent = ChangeEvent(kind: ChangeKind, id: Id)

  /** Events taken per refresh, and the buffer of a subscription. */
  const BATCH_LIMIT := 512
  const QUEUE_CAPACITY := 256

  // ----- draining -----

  /** Queued events per row: only the last one counts. */
  function Coalesce(events: seq<ChangeEvent>): map<Id, ChangeKind> {
    if events == [] then map[]
    else Coalesce(events[..|events| - 1])[events[|events| - 1].id := events[|events| - 1].kind]
  }

  lemma {:induction false} CoalesceKeepsLast(events: seq<ChangeEvent>, id: Id)
    ensures id in Coalesce(events) <==> exists i :: 0 <= i < |events| && events[i].id == id
    ensures id in Coalesce(events) ==>
              exists i :: 0 <= i < |events| && events[i] == ChangeEvent(Coalesce(events)[id], id)
                          && forall j :: i < j < |events| ==> events[j].id != id
  {
    if events != [] {
      var n := |events| - 1;
      CoalesceKeepsLast(events[..n], id);
      if events[n].id != id && id in Coalesce(events) {
        var i :| 0 <= i < n && events[..n][i] == ChangeEvent(Coalesce(events[..n])[id], id)
                 && forall j :: i < j < n ==> events[..n][j].id != id;
        assert events[i] == ChangeEvent(Coalesce(events)[id], id);
        assert forall j :: i < j < n ==> events[j] == events[..n][j];
      }
      assert forall i :: 0 <= i < n ==> events[i] == events[..n][i];
    }
  }

  /** The bounded, non-blocking drain loop over what is queued. */
  method Drain(queue: seq<ChangeEvent>) returns (batch: map<Id, ChangeKind>, rest: seq<ChangeEvent>)
    ensures var n := if |queue| < 512 then |queue| else 512;
            batch == Coalesce(queue[..n]) && rest == queue[n..]
  {
    batch := map[];
    var taken := 0;
    var i := 0;
    while i < BATCH_LIMIT
      invariant 0 <= taken <= |queue| && i <= BATCH_LIMIT
      invariant i == taken || (i == BATCH_LIMIT && taken == |queue| < BATCH_LIMIT)
      invariant batch == Coalesce(queue[..taken])
    {
      if taken < |queue| {
        batch := batch[queue[taken].id := queue[taken].kind];
        assert queue[..taken + 1][..taken] == queue[..taken];
        taken := taken + 1;
        i := i + 1;
      } else {
        i := BATCH_LIMIT;
      }
    }
    rest := queue[taken..];
  }

  // ----- fetching -----

  /** Rows whose latest event is not a deletion are fetched again. */
  function Wanted(batch: map<Id, ChangeKind>): set<Id> {
    set id | id in batch && batch[id] != Deleted
  }

  /** What applying a batch does to each row. */
  function Actions<R>(batch: map<Id, ChangeKind>, loaded: map<Id, R>): map<Id, Option<R>> {
    map id | id in batch && (batch[id] == Deleted || id in loaded)
      :: if batch[id] == Deleted then None else Some(loaded[id])
  }

  /** One read per row; `unreadable` are the rows whose read fails. */
  method FetchEach<R>(ids: set<Id>, committed: map<Id, R>, unreadable: set<Id>) returns (loaded: Result<map<Id, R>>)
    ensures loaded.Ok? <==> ids !! unreadable && ids <= committed.Keys
    ensures loaded.Ok? ==> loaded.value.Keys == ids && forall id :: id in ids ==> loaded.value[id] == committed[id]
  {
    var rows: map<Id, R> := map[];
    var left := ids;
    while left != {}
      invariant left <= ids && rows.Keys == ids - left
      invariant forall id :: id in rows ==> id in committed && id !in unreadable && rows[id] == committed[id]
      decreases left
    {
      var id :| id in left;
      if id in unreadable || id !in committed { return Err; }
      rows := rows[id := committed[id]];
      left := left - {id};
    }
    assert rows.Keys == ids;
    return Ok(rows);
  }

  /** Re-reads the changed rows of one table, in one batched read when the repository offers it and
      more than one row changed. A row that is gone makes the whole read fail. */
  method FetchChanged<R>(batch: map<Id, ChangeKind>, committed: map<Id, R>, batched: bool, batchFails: bool,
                         unreadable: set<Id>)
    returns (loaded: Result<map<Id, R>>)
    ensures var readFails := if batched && |Wanted(batch)| > 1 then batchFails else !(Wanted(batch) !! unreadable);
            loaded.Ok? <==> !readFails && Wanted(batch) <= committed.Keys
    ensures loaded.Ok? ==> loaded.value.Keys == Wanted(batch)
    ensures loaded.Ok? ==> forall id :: id in Wanted(batch) ==> loaded.value[id] == committed[id]
  {
    var ids := Wanted(batch);
    if |ids| > 1 && batched {
      if batchFails { return Err; }
      var rows := map id | id in ids && id in committed :: committed[id];
      if !(ids <= rows.Keys) { return Err; }
      return Ok(rows);
    }
    loaded := FetchEach(ids, committed, unreadable);
  }

  // ----- the write side -----

  /** One repository: its committed rows, the ids it will never use again, the events of writes
      that are committed but not yet announced, the subscription buffer and the repair flag. */
  datatype Source<R> = Source(
    rows: map<Id, R>, retired: set<Id>, unpublished: multiset<ChangeEvent>, queue: seq<ChangeEvent>, repair: bool)

  datatype Write<R> =
    | Create(row: R)
    | Update(row: R)
    | Remove(id: Id)
    | Publish(event: ChangeEvent)   // the announcement, in any order relative to other commits
    | Drop(event: ChangeEvent)      // the buffer was found full, though it may have room again by now
    | Overflow                      // another subscriber's buffer was full

  ghost predicate CanWrite<R>(src: Source<R>, w: Write<R>, idOf: R -> Id) {
    match w
    case Create(row) => idOf(row) !in src.rows && idOf(row) !in src.retired
    case Update(row) => idOf(row) in src.rows
    case Remove(id) => id in src.rows
    case Publish(e) => e in src.unpublished
    case Drop(e) => e in src.unpublished
    case Overflow => true
  }

  ghost function Commit<R>(src: Source<R>, w: Write<R>, idOf: R -> Id): Source<R>
    requires CanWrite(src, w, idOf)
  {
    match w
    case Create(row) =>
      src.(rows := src.rows[idOf(row) := row],
        unpublished := src.unpublished + multiset{ChangeEvent(Created, idOf(row))})
    case Update(row) =>
      src.(rows := src.rows[idOf(row) := row],
        unpublished := src.unpublished + multiset{ChangeEvent(Updated, idOf(row))})
    case Remove(id) =>
      src.(rows := src.rows - {id}, retired := src.retired + {id},
           unpublished := src.unpublished + multiset{ChangeEvent(Deleted, id)})
    case Publish(e) =>
      var sent := src.(unpublished := src.unpublished - multiset{e});
      if |src.queue| < QUEUE_CAPACITY then sent.(queue := src.queue + [e]) else sent.(repair := true)
    case Drop(e) =>
      src.(unpublished := src.unpublished - multiset{e}, repair := true)
    case Overflow =>
      src.(repair := true)
  }

  /** Committed rows are filed under their own ids, deleted ids stay deleted, and a deletion is
      only announced for a deleted id. */
  ghost predicate Orderly<R>(src: Source<R>, idOf: R -> Id) {
    && WellKeyed(src.rows, idOf)
    && src.retired !! src.rows.Keys
    && (forall e :: e in src.unpublished && e.kind == Deleted ==> e.id in src.retired)
    && (forall e :: e in src.queue && e.kind == Deleted ==> e.id in src.retired)
  }

  /** An event about the row is on its way to the cache. */
  ghost predicate Pending<R>(src: Source<R>, id: Id) {
    exists e :: (e in src.unpublished || e in src.queue) && e.id == id
  }

  /** The view shows the committed row, or the feed still owes an event about it. */
  ghost predicate Agrees<R>(src: Source<R>, view: map<Id, R>, id: Id) {
    Look(view, id) == Look(src.rows, id) || Pending(src, id) || src.repair
  }

  lemma CommitKeepsOrder<R>(src: Source<R>, w: Write<R>, idOf: R -> Id)
    requires Orderly(src, idOf) && CanWrite(src, w, idOf)
    ensures Orderly(Commit(src, w, idOf), idOf)
    ensures src.retired <= Commit(src, w, idOf).retired
  {
    var after := Commit(src, w, idOf);
    if w.Publish? || w.Drop? {
      assert forall e :: e in after.queue ==> e in src.queue || e == w.event;
      assert forall e :: e in after.unpublished ==> e in src.unpublished;
    } else {
      assert after.queue == src.queue;
      assert forall e :: e in after.unpublished
               ==> e in src.unpublished || (w.Remove? && e.id == w.id) || e.kind != Deleted;
    }
  }

  /** No write silently invalidates any view. */
  lemma CommitKeepsAgreement<R>(src: Source<R>, w: Write<R>, idOf: R -> Id, view: map<Id, R>, id: Id)
    requires CanWrite(src, w, idOf) && Agrees(src, view, id)
    ensures Agrees(Commit(src, w, idOf), view, id)
  {
    var after := Commit(src, w, idOf);
    if Pending(src, id) {
      var e :| (e in src.unpublished || e in src.queue) && e.id == id;
      assert after.repair || e in after.unpublished || e in after.queue;
    } else if Look(after.rows, id) != Look(src.rows, id) {
      var kind := if w.Create? then Created else if w.Update? then Updated else Deleted;
      assert ChangeEvent(kind, id) in after.unpublished;
    }
  }

  /** Taking the head event off the queue leaves every other row's agreement alone. */
  lemma TakeKeepsAgreement<R>(src: Source<R>, idOf: R -> Id, view: map<Id, R>)
    requires Orderly(src, idOf) && src.queue != []
    ensures var after := src.(queue := src.queue[1..]);
            Orderly(after, idOf) && forall id :: Agrees(src, view, id) && id != src.queue[0].id
                                      ==> Agrees(after, view, id)
  {
    var after := src.(queue := src.queue[1..]);
    assert forall e :: e in src.queue <==> e == src.queue[0] || e in after.queue;
    forall id | Agrees(src, view, id) && id != src.queue[0].id
      ensures Agrees(after, view, id)
    {
      if Pending(src, id) {
        var e :| (e in src.unpublished || e in src.queue) && e.id == id;
        assert e in after.unpublished || e in after.queue;
      }
    }
  }
}
