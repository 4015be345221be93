/** A table of rows by id with one secondary index from a row's lookup key to an id: the common
    shape of the cache's sysName index and endpoint-pair index.

    A change first drops the index entry under the old row's key, whoever owns that entry, and
    then enters the new row's key. */
module KeyIndex {
  import opened Basics

  datatype Table<R, K> = Table(rows: map<Id, R>, index: map<K, Id>)

  function Enter<K>(index: map<K, Id>, key: Option<K>, id: Id): map<K, Id> {
    match key
    case None => index
    case Some(k) => index[k := id]
  }

  function Drop<K>(index: map<K, Id>, key: Option<K>): map<K, Id> {
    match key
    case None => index
    case Some(k) => index - {k}
  }

  function Upsert<R, K>(t: Table<R, K>, key: R -> Option<K>, id: Id, row: R): Table<R, K> {
    var index := if id in t.rows then Drop(t.index, key(t.rows[id])) else t.index;
    Table(t.rows[id := row], Enter(index, key(row), id))
  }

  function Delete<R, K>(t: Table<R, K>, key: R -> Option<K>, id: Id): Table<R, K> {
    if id in t.rows then Table(t.rows - {id}, Drop(t.index, key(t.rows[id]))) else t
  }

  /** One change of a batch: `None` deletes the row, `Some` replaces or creates it. */
  function Change<R, K>(t: Table<R, K>, key: R -> Option<K>, id: Id, to: Option<R>): Table<R, K> {
    match to
    case None => Delete(t, key, id)
    case Some(row) => Upsert(t, key, id, row)
  }

  /** A coalesced batch applied in the order Go happens to iterate over it. */
  function ChangeAll<R, K>(t: Table<R, K>, key: R -> Option<K>, batch: map<Id, Option<R>>, order: seq<Id>): Table<R, K>
    requires forall id :: id in order ==> id in batch
  {
    if order == [] then t
    else
      var last := order[|order| - 1];
      Change(ChangeAll(t, key, batch, order[..|order| - 1]), key, last, batch[last])
  }

  /** A full reload enters the rows of a snapshot one after the other. */
  function Load<R, K>(list: seq<R>, key: R -> Option<K>, idOf: R -> Id): Table<R, K> {
    if list == [] then Table(map[], map[])
    else
      var t := Load(list[..|list| - 1], key, idOf);
      var row := list[|list| - 1];
      Table(t.rows[idOf(row) := row], Enter(t.index, key(row), idOf(row)))
  }

  /** The rows a batch leaves behind, whatever the order. */
  function After<R>(rows: map<Id, R>, batch: map<Id, Option<R>>): map<Id, R> {
    map id | id in rows.Keys + batch.Keys && (id in batch ==> batch[id].Some?)
      :: if id in batch then batch[id].value else rows[id]
  }

  function KeyAfter<R, K>(to: Option<R>, key: R -> Option<K>): Option<K> {
    match to
    case None => None
    case Some(row) => key(row)
  }

  /** Every index hit is a resident row carrying exactly that key. */
  ghost predicate Sound<R, K(!new)>(t: Table<R, K>, key: R -> Option<K>) {
    forall k :: k in t.index ==> t.index[k] in t.rows && key(t.rows[t.index[k]]) == Some(k)
  }

  /** Every resident row's key can be found. */
  ghost predicate Complete<R, K>(t: Table<R, K>, key: R -> Option<K>) {
    forall id :: id in t.rows && key(t.rows[id]).Some? ==> key(t.rows[id]).value in t.index
  }

  ghost predicate DistinctKeys<R, K>(rows: map<Id, R>, key: R -> Option<K>) {
    forall a, b :: a in rows && b in rows && key(rows[a]).Some? && key(rows[a]) == key(rows[b]) ==> a == b
  }

  /** No row gives up a key that some other row holds after the batch. */
  ghost predicate KeysKeepOwners<R, K>(rows: map<Id, R>, key: R -> Option<K>, batch: map<Id, Option<R>>) {
    forall x, y ::
      (x in batch && x in rows && key(rows[x]).Some? && KeyAfter(batch[x], key) != key(rows[x])
        && y in After(rows, batch))
      ==> key(After(rows, batch)[y]) != key(rows[x])
  }

  lemma ChangeKeepsSound<R, K(!new)>(t: Table<R, K>, key: R -> Option<K>, id: Id, to: Option<R>)
    requires Sound(t, key)
    ensures Sound(Change(t, key, id, to), key)
  {
  }

  lemma {:induction false} ChangeAllKeepsSound<R, K(!new)>(t: Table<R, K>, key: R -> Option<K>,
          batch: map<Id, Option<R>>, order: seq<Id>)
    requires forall id :: id in order ==> id in batch
    requires Sound(t, key)
    ensures Sound(ChangeAll(t, key, batch, order), key)
  {
    if order != [] {
      var n := |order| - 1;
      ChangeAllKeepsSound(t, key, batch, order[..n]);
      ChangeKeepsSound(ChangeAll(t, key, batch, order[..n]), key, order[n], batch[order[n]]);
    }
  }

  lemma {:induction false} RowsOfChangeAll<R, K>(t: Table<R, K>, key: R -> Option<K>, batch: map<Id, Option<R>>,
                                                 order: seq<Id>)
    requires forall id :: id in order ==> id in batch
    ensures forall id :: Look(ChangeAll(t, key, batch, order).rows, id) == if id in order then batch[id]
            else Look(t.rows, id)
  {
    if order != [] {
      var n := |order| - 1;
      var last := order[n];
      RowsOfChangeAll(t, key, batch, order[..n]);
      var before := ChangeAll(t, key, batch, order[..n]);
      var after := ChangeAll(t, key, batch, order);
      assert after == Change(before, key, last, batch[last]);
      assert order == order[..n] + [last];
      forall id
        ensures Look(after.rows, id) == if id in order then batch[id] else Look(t.rows, id)
      {
        assert id in order <==> id in order[..n] || id == last;
        assert id != last ==> Look(after.rows, id) == Look(before.rows, id);
      }
    }
  }

  /** Whatever the order, the rows after a whole batch are `After`. */
  lemma RowsOfBatch<R, K>(t: Table<R, K>, key: R -> Option<K>, batch: map<Id, Option<R>>, order: seq<Id>)
    requires Visits(order, batch.Keys)
    ensures ChangeAll(t, key, batch, order).rows == After(t.rows, batch)
  {
    RowsOfChangeAll(t, key, batch, order);
    var rows := ChangeAll(t, key, batch, order).rows;
    forall id
      ensures Look(rows, id) == Look(After(t.rows, batch), id)
    {
    }
    assert forall id :: id in rows <==> Look(rows, id).Some?;
    assert forall id :: id in After(t.rows, batch) <==> Look(After(t.rows, batch), id).Some?;
    assert rows.Keys == After(t.rows, batch).Keys;
    forall id | id in rows
      ensures rows[id] == After(t.rows, batch)[id]
    {
      assert Look(rows, id) == Look(After(t.rows, batch), id);
    }
  }

  /** Every row is findable, except perhaps those still to be changed. */
  ghost predicate SettledBut<R, K>(t: Table<R, K>, key: R -> Option<K>, pending: set<Id>) {
    forall id :: id in t.rows && id !in pending && key(t.rows[id]).Some? ==> key(t.rows[id]).value in t.index
  }

  /** One change of a batch that keeps owners settles its row, unsettles no other, and leaves a rest
      that keeps owners. */
  lemma ChangeKeepsSettled<R, K>(t: Table<R, K>, key: R -> Option<K>, batch: map<Id, Option<R>>, x: Id)
    requires x in batch && SettledBut(t, key, batch.Keys) && KeysKeepOwners(t.rows, key, batch)
    ensures var now := Change(t, key, x, batch[x]);
            SettledBut(now, key, (batch - {x}).Keys) && KeysKeepOwners(now.rows, key, batch - {x})
  {
    var now, rest := Change(t, key, x, batch[x]), batch - {x};
    assert After(now.rows, rest) == After(t.rows, batch);
    forall y | y in now.rows && y !in rest && key(now.rows[y]).Some?
      ensures key(now.rows[y]).value in now.index
    {
      if y != x { assert now.rows[y] == t.rows[y] == After(t.rows, batch)[y]; }
    }
  }

  function Rest<R>(batch: map<Id, Option<R>>, done: seq<Id>): map<Id, Option<R>> {
    batch - set id | id in done
  }

  lemma {:induction false} PrefixKeepsSettled<R, K>(t: Table<R, K>, key: R -> Option<K>, batch: map<Id, Option<R>>,
          order: seq<Id>)
    requires NoDuplicates(order) && forall id :: id in order ==> id in batch
    requires Complete(t, key) && KeysKeepOwners(t.rows, key, batch)
    ensures var now := ChangeAll(t, key, batch, order);
            SettledBut(now, key, Rest(batch, order).Keys) && KeysKeepOwners(now.rows, key, Rest(batch, order))
  {
    if order == [] {
      assert Rest(batch, order) == batch;
    } else {
      var n := |order| - 1;
      var before, x := order[..n], order[n];
      PrefixKeepsSettled(t, key, batch, before);
      assert order == before + [x] && x !in before;
      ChangeKeepsSettled(ChangeAll(t, key, batch, before), key, Rest(batch, before), x);
      assert Rest(batch, order) == Rest(batch, before) - {x};
    }
  }

  /** The batch leaves every row findable in every iteration order exactly when no key that a
      changed row gives up is held by another row afterwards. */
  lemma CompleteInEveryOrderIff<R, K(!new)>(t: Table<R, K>, key: R -> Option<K>, batch: map<Id, Option<R>>)
    requires Sound(t, key) && Complete(t, key)
    ensures KeysKeepOwners(t.rows, key, batch)
            <==> forall order :: Visits(order, batch.Keys) ==> Complete(ChangeAll(t, key, batch, order), key)
  {
    if KeysKeepOwners(t.rows, key, batch) {
      forall order | Visits(order, batch.Keys)
        ensures Complete(ChangeAll(t, key, batch, order), key)
      {
        PrefixKeepsSettled(t, key, batch, order);
        assert Rest(batch, order).Keys == {};
      }
    } else {
      var x, y :| x in batch && x in t.rows && key(t.rows[x]).Some? && KeyAfter(batch[x], key) != key(t.rows[x])
                  && y in After(t.rows, batch) && key(After(t.rows, batch)[y]) == key(t.rows[x]);
      var order := AnOrderEndingIn(batch.Keys, x);
      LostWhenVisitedLast(t, key, batch, order, x, y);
    }
  }

  /** Visiting last the row that gives a key up loses the key's new owner. */
  lemma LostWhenVisitedLast<R, K(!new)>(t: Table<R, K>, key: R -> Option<K>, batch: map<Id, Option<R>>, order: seq<Id>,
                                        x: Id, y: Id)
    requires Visits(order, batch.Keys) && order != [] && order[|order| - 1] == x
    requires x in batch && x in t.rows && key(t.rows[x]).Some? && KeyAfter(batch[x], key) != key(t.rows[x])
    requires y in After(t.rows, batch) && key(After(t.rows, batch)[y]) == key(t.rows[x])
    ensures !Complete(ChangeAll(t, key, batch, order), key)
  {
    var n := |order| - 1;
    RowsOfChangeAll(t, key, batch, order[..n]);
    RowsOfBatch(t, key, batch, order);
    var before := ChangeAll(t, key, batch, order[..n]);
    var now := ChangeAll(t, key, batch, order);
    assert now == Change(before, key, x, batch[x]);
    assert x !in order[..n];
    assert Look(before.rows, x) == Look(t.rows, x);
    assert key(t.rows[x]).value !in now.index;
    assert y in now.rows && key(now.rows[y]) == key(t.rows[x]);
  }

  /** With distinct keys a sound and complete index is the inverse of the key function. */
  lemma IndexIsDetermined<R, K(!new)>(a: Table<R, K>, b: Table<R, K>, key: R -> Option<K>)
    requires a.rows == b.rows && DistinctKeys(a.rows, key)
    requires Sound(a, key) && Complete(a, key) && Sound(b, key) && Complete(b, key)
    ensures a.index == b.index
  {
    forall k
      ensures k in a.index <==> k in b.index
      ensures k in a.index ==> a.index[k] == b.index[k]
    {
      if k in a.index { assert a.index[k] in a.rows && key(a.rows[a.index[k]]) == Some(k); }
      if k in b.index { assert b.index[k] in b.rows && key(b.rows[b.index[k]]) == Some(k); }
    }
  }

  /** The outcome of a batch does not depend on the iteration order when keys keep their owners
      and are distinct afterwards. */
  lemma BatchOrderDoesNotMatter<R, K(!new)>(t: Table<R, K>, key: R -> Option<K>, batch: map<Id, Option<R>>, p: seq<Id>,
                                            q: seq<Id>)
    requires Sound(t, key) && Complete(t, key)
    requires KeysKeepOwners(t.rows, key, batch) && DistinctKeys(After(t.rows, batch), key)
    requires Visits(p, batch.Keys) && Visits(q, batch.Keys)
    ensures ChangeAll(t, key, batch, p) == ChangeAll(t, key, batch, q)
  {
    RowsOfBatch(t, key, batch, p);
    RowsOfBatch(t, key, batch, q);
    CompleteInEveryOrderIff(t, key, batch);
    ChangeAllKeepsSound(t, key, batch, p);
    ChangeAllKeepsSound(t, key, batch, q);
    IndexIsDetermined(ChangeAll(t, key, batch, p), ChangeAll(t, key, batch, q), key);
  }

  /** A row is replaced by another with the same key within one batch: visiting the new row first
      leaves it resident but not findable, visiting it last does not. */
  lemma HandoverDependsOnOrder<R, K(!new)>(t: Table<R, K>, key: R -> Option<K>, leaver: Id, joiner: Id, row: R)
    requires leaver in t.rows && joiner !in t.rows && key(row).Some? && key(t.rows[leaver]) == key(row)
    ensures var batch := map[leaver := None, joiner := Some(row)];
            && Visits([joiner, leaver], batch.Keys) && Visits([leaver, joiner], batch.Keys)
            && key(row).value !in ChangeAll(t, key, batch, [joiner, leaver]).index
            && Look(ChangeAll(t, key, batch, [leaver, joiner]).index, key(row).value) == Some(joiner)
            && joiner in After(t.rows, batch) && After(t.rows, batch)[joiner] == row
  {
    var batch: map<Id, Option<R>> := map[leaver := None, joiner := Some(row)];
    InTwoSteps(t, key, batch, joiner, leaver);
    InTwoSteps(t, key, batch, leaver, joiner);
  }

  lemma InTwoSteps<R, K>(t: Table<R, K>, key: R -> Option<K>, batch: map<Id, Option<R>>, x: Id, y: Id)
    requires x in batch && y in batch
    ensures ChangeAll(t, key, batch, [x, y]) == Change(Change(t, key, x, batch[x]), key, y, batch[y])
  {
    assert [x, y][..1] == [x] && [x][..0] == [];
    assert ChangeAll(t, key, batch, [x]) == Change(t, key, x, batch[x]);
  }

  ghost predicate DistinctIds<R>(list: seq<R>, idOf: R -> Id) {
    forall i, j :: 0 <= i < j < |list| ==> idOf(list[i]) != idOf(list[j])
  }

  /** `list` holds every row once and nothing else: a permutation of the table's rows. */
  ghost predicate Lists<R(!new)>(list: seq<R>, rows: map<Id, R>, idOf: R -> Id) {
    DistinctIds(list, idOf) && (forall row :: row in list <==> idOf(row) in rows && rows[idOf(row)] == row)
  }

  ghost predicate WellKeyed<R>(rows: map<Id, R>, idOf: R -> Id) {
    forall id :: id in rows ==> idOf(rows[id]) == id
  }

  /** A snapshot whose ids are unique loads into a well-keyed, sound and complete table, and the
      snapshot itself lists it. */
  lemma {:induction false} LoadBuildsTable<R(!new), K(!new)>(list: seq<R>, key: R -> Option<K>, idOf: R -> Id)
    requires DistinctIds(list, idOf)
    ensures var t := Load(list, key, idOf);
            Sound(t, key) && Complete(t, key) && WellKeyed(t.rows, idOf) && Lists(list, t.rows, idOf)
  {
    if list != [] {
      var n := |list| - 1;
      var row := list[n];
      LoadBuildsTable(list[..n], key, idOf);
      var before := Load(list[..n], key, idOf);
      var t := Load(list, key, idOf);
      assert list == list[..n] + [row];
      assert idOf(row) !in before.rows;
    }
  }
}
