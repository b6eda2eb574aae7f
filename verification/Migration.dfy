/** client/app/main.py, `_migrate_attachments_to_id_keys`: records keyed by a reusable port number get an id of their own. */
module Migration {
  import opened Text
  import opened OrderedDict

  /** A record as the migration sees it: `rest` is every other field. */
  datatype Filed = Filed(id: Option<string>, port: Option<string>, rest: string)

  /** Key and record after the migration; an id is generated only when there is none. */
  function Rekeyed(key: string, att: Filed, newId: string): (string, Filed) {
    if att.id.Some? then (key, att) else (newId, Filed(Some(newId), Some(key), att.rest))
  }

  /** The first `n` records moved over, `ids(i)` being what the generator yields for the i-th. */
  function Moved(d: Dict<Filed>, n: nat, ids: nat -> string): Dict<Filed>
    requires d.Valid() && n <= |d.order|
  {
    if n == 0 then Dict([], map[])
    else
      var key := d.order[n - 1];
      var (k, att) := Rekeyed(key, d.entries[key], ids(n - 1));
      Moved(d, n - 1, ids).Put(k, att)
  }

  ghost predicate Outdated(d: Dict<Filed>, n: nat)
    requires d.Valid() && n <= |d.order|
  {
    exists i :: 0 <= i < n && d.entries[d.order[i]].id.None?
  }

  lemma OutdatedGrows(d: Dict<Filed>, n: nat)
    requires d.Valid() && n < |d.order|
    ensures Outdated(d, n + 1) <==> Outdated(d, n) || d.entries[d.order[n]].id.None?
  {
    assert Outdated(d, n + 1) ==> Outdated(d, n) || d.entries[d.order[n]].id.None?;
    if d.entries[d.order[n]].id.None? { assert Outdated(d, n + 1); }
  }

  class Registry {
    var attachments: Dict<Filed>

    constructor (d: Dict<Filed>)
      ensures attachments == d
    {
      attachments := d;
    }

    method Migrate(ids: nat -> string)
      requires attachments.Valid()
      modifies this
      ensures var d := old(attachments);
              attachments == if Outdated(d, |d.order|) then Moved(d, |d.order|, ids) else d
    {
      var d := attachments;
      var migrated, dirty := Dict([], map[]), false;
      for i := 0 to |d.order|
        invariant migrated == Moved(d, i, ids) && (dirty <==> Outdated(d, i)) && attachments == d
      {
        OutdatedGrows(d, i);
        var key := d.order[i];
        var att := d.entries[key];
        if att.id.Some? {
          migrated := migrated.Put(key, att);
        } else {
          migrated := migrated.Put(ids(i), Filed(Some(ids(i)), Some(key), att.rest));
          dirty := true;
        }
      }
      if dirty { attachments := migrated; }
    }
  }

  /** Generated ids differ from each other and from every key in use. */
  ghost predicate FreshIds(d: Dict<Filed>, ids: nat -> string) {
    && (forall i :: 0 <= i < |d.order| ==> ids(i) !in d.entries)
    && (forall i, j :: 0 <= i < j < |d.order| ==> ids(i) != ids(j))
  }

  function NewKey(d: Dict<Filed>, i: nat, ids: nat -> string): string
    requires d.Valid() && i < |d.order|
  {
    Rekeyed(d.order[i], d.entries[d.order[i]], ids(i)).0
  }

  /** Record `i` is still in its place: as it was, or, lacking an id, under the new one with its old key as its port. */
  ghost predicate KeptAt(d: Dict<Filed>, m: Dict<Filed>, i: nat, ids: nat -> string)
    requires d.Valid() && i < |d.order| && i < |m.order|
  {
    var key, att := d.order[i], d.entries[d.order[i]];
    && m.order[i] in m.entries
    && if att.id.Some? then m.order[i] == key && m.entries[key] == att
       else
         && m.order[i] == ids(i) && m.entries[ids(i)].id == Some(ids(i)) && m.entries[ids(i)].port == Some(key)
         && m.entries[ids(i)].rest == att.rest
  }

  lemma NewKeysDiffer(d: Dict<Filed>, i: nat, j: nat, ids: nat -> string)
    requires d.Valid() && FreshIds(d, ids) && i < j < |d.order|
    ensures NewKey(d, i, ids) != NewKey(d, j, ids)
  {
    assert d.order[i] in d.order && d.order[j] in d.order;
  }

  /** No record is lost, merged, reordered or altered: each keeps its place, its id if it has one, and the rest. */
  lemma {:induction false} EveryRecordKeepsItsPlace(d: Dict<Filed>, n: nat, ids: nat -> string)
    requires d.Valid() && n <= |d.order| && FreshIds(d, ids)
    ensures Moved(d, n, ids).Valid() && |Moved(d, n, ids).order| == n
    ensures forall i :: 0 <= i < n ==> KeptAt(d, Moved(d, n, ids), i, ids)
  {
    if n > 0 {
      EveryRecordKeepsItsPlace(d, n - 1, ids);
      var m := Moved(d, n - 1, ids);
      forall i | 0 <= i < n - 1
        ensures m.order[i] != NewKey(d, n - 1, ids)
      {
        assert KeptAt(d, m, i, ids);
        NewKeysDiffer(d, i, n - 1, ids);
      }
      OneMoreKept(d, m, n - 1, ids);
    }
  }

  lemma OneMoreKept(d: Dict<Filed>, m: Dict<Filed>, n: nat, ids: nat -> string)
    requires d.Valid() && m.Valid() && n == |m.order| < |d.order|
    requires forall i :: 0 <= i < n ==> KeptAt(d, m, i, ids) && m.order[i] != NewKey(d, n, ids)
    ensures
      var key := d.order[n];
      var after := m.Put(NewKey(d, n, ids), Rekeyed(key, d.entries[key], ids(n)).1);
      after.Valid() && |after.order| == n + 1 && forall i :: 0 <= i <= n ==> KeptAt(d, after, i, ids)
  {
    var key := d.order[n];
    var after := m.Put(NewKey(d, n, ids), Rekeyed(key, d.entries[key], ids(n)).1);
    assert NewKey(d, n, ids) !in m.order;
    forall i | 0 <= i <= n
      ensures KeptAt(d, after, i, ids)
    {
      if i < n { assert KeptAt(d, m, i, ids) && after.order[i] == m.order[i]; }
    }
  }

  /** Where every record has an id, moving them over yields the same store, whatever ids would be generated. */
  lemma CurrentRecordsStay(d: Dict<Filed>, ids: nat -> string)
    requires d.Valid() && !Outdated(d, |d.order|)
    ensures Moved(d, |d.order|, ids) == d
  {
    FirstAreMoved(d, |d.order|, ids);
    assert d.order[..|d.order|] == d.order;
    assert First(d, |d.order|).entries == d.entries;
  }

  /** The dict of the first `n` records. */
  ghost function First(d: Dict<Filed>, n: nat): Dict<Filed>
    requires n <= |d.order|
  {
    Dict(d.order[..n], map k | k in d.order[..n] && k in d.entries :: d.entries[k])
  }

  lemma FirstGrows(d: Dict<Filed>, n: nat)
    requires d.Valid() && n < |d.order|
    ensures First(d, n + 1) == First(d, n).Put(d.order[n], d.entries[d.order[n]])
  {
    var key := d.order[n];
    assert d.order[..n + 1] == d.order[..n] + [key];
    assert key !in d.order[..n];
    assert First(d, n + 1).entries == First(d, n).entries[key := d.entries[key]];
  }

  lemma {:induction false} FirstAreMoved(d: Dict<Filed>, n: nat, ids: nat -> string)
    requires d.Valid() && n <= |d.order| && !Outdated(d, |d.order|)
    ensures Moved(d, n, ids) == First(d, n)
  {
    if n == 0 {
      NothingMoved(d, ids);
    } else {
      FirstAreMoved(d, n - 1, ids);
      OneMoreMoved(d, n - 1, ids, First(d, n - 1));
    }
  }

  lemma OneMoreMoved(d: Dict<Filed>, n: nat, ids: nat -> string, first: Dict<Filed>)
    requires d.Valid() && n < |d.order| && !Outdated(d, |d.order|)
    requires Moved(d, n, ids) == first == First(d, n)
    ensures Moved(d, n + 1, ids) == First(d, n + 1)
  {
    CurrentRecordMoves(d, n + 1, ids);
    FirstGrows(d, n);
  }

  lemma NothingMoved(d: Dict<Filed>, ids: nat -> string)
    requires d.Valid()
    ensures Moved(d, 0, ids) == First(d, 0)
  {
    assert First(d, 0).entries == map[];
  }

  /** A record that has an id is moved as it is. */
  lemma CurrentRecordMoves(d: Dict<Filed>, n: nat, ids: nat -> string)
    requires d.Valid() && 0 < n <= |d.order| && !Outdated(d, |d.order|)
    ensures Moved(d, n, ids) == Moved(d, n - 1, ids).Put(d.order[n - 1], d.entries[d.order[n - 1]])
  {
    assert d.entries[d.order[n - 1]].id.Some?;
  }

  /** Migrating is idempotent: afterwards every record has an id, and a second migration has nothing to do. */
  lemma MigratingTwiceIsMigratingOnce(d: Dict<Filed>, ids: nat -> string, again: nat -> string)
    requires d.Valid() && FreshIds(d, ids)
    ensures
      var m := Moved(d, |d.order|, ids);
      m.Valid() && !Outdated(m, |m.order|) && Moved(m, |m.order|, again) == m
  {
    var m := Moved(d, |d.order|, ids);
    EveryRecordKeepsItsPlace(d, |d.order|, ids);
    forall i | 0 <= i < |m.order|
      ensures m.entries[m.order[i]].id.Some?
    {
      assert KeptAt(d, m, i, ids);
    }
    CurrentRecordsStay(m, again);
  }
}
