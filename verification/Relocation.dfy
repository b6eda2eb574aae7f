/** What the server's passes keep: the share follows each device's serial from busid to busid. */
module Relocation {
  import opened Text
  import opened Devices
  import opened Shares

  // ------------------------------------------------------ applying renames

  ghost function Gone(rs: seq<Rename>): set<string> {
    set r | r in rs :: r.gone
  }

  ghost function Moved(rs: seq<Rename>): set<string> {
    set r | r in rs :: r.moved
  }

  lemma {:induction false} RemoveFirstMembers(s: seq<string>, x: string)
    requires NoDuplicates(s)
    ensures NoDuplicates(RemoveFirst(s, x))
    ensures forall y :: y in RemoveFirst(s, x) <==> y in s && y != x
    ensures |RemoveFirst(s, x)| == if x in s then |s| - 1 else |s|
  {
    if s != [] {
      if s[0] == x {
        assert s == [x] + s[1..];
      } else {
        RemoveFirstMembers(s[1..], x);
        assert s == [s[0]] + s[1..];
        assert s[0] !in s[1..];
        ConsNoDuplicates(s[0], RemoveFirst(s[1..], x));
      }
    }
  }

  lemma ConsNoDuplicates<T>(x: T, s: seq<T>)
    requires x !in s && NoDuplicates(s)
    ensures NoDuplicates([x] + s)
  {
    var t := [x] + s;
    forall i, j | 0 <= i < j < |t|
      ensures t[i] != t[j]
    {
      assert t[j] == s[j - 1] && s[j - 1] in s;
      if i > 0 { assert t[i] == s[i - 1]; }
    }
  }

  /** The busids looked up and the busids found are disjoint, so the order of the renames does not matter. */
  lemma RenamesAreDisjoint(b: Book, scan: Scan)
    ensures
      var rs := RenamesOf(b, scan, b.shared);
      Gone(rs) !! Moved(rs) && (forall x :: x in Gone(rs) ==> x in b.shared) && (forall x :: x in Moved(rs) ==> x !in b.shared)
  {
  }

  /** Applying renames leaves (shared minus old) plus new, without duplicates. */
  lemma {:induction false} AppliedShares(b: Book, rs: seq<Rename>)
    requires NoDuplicates(b.shared)
    requires (forall x :: x in Gone(rs) ==> x in b.shared) && (forall x :: x in Moved(rs) ==> x !in b.shared)
    ensures NoDuplicates(Applied(b, rs).shared)
    ensures forall x :: x in Applied(b, rs).shared <==> (x in b.shared && x !in Gone(rs)) || x in Moved(rs)
  {
    if rs != [] {
      var init, r := rs[..|rs| - 1], rs[|rs| - 1];
      assert rs == init + [r];
      assert Gone(rs) == Gone(init) + {r.gone};
      assert Moved(rs) == Moved(init) + {r.moved};
      AppliedShares(b, init);
      RemoveFirstMembers(Applied(b, init).shared, r.gone);
    }
  }

  ghost function NotIn(gone: set<string>): string -> bool {
    busid => busid !in gone
  }

  ghost function Targets(rs: seq<Rename>): seq<string> {
    seq(|rs|, i requires 0 <= i < |rs| => rs[i].moved)
  }

  lemma {:induction false} RemoveFirstAt(a: seq<string>, x: string)
    requires x !in a
    ensures RemoveFirst(a + [x], x) == a
  {
    if a != [] {
      assert (a + [x])[1..] == a[1..] + [x];
      RemoveFirstAt(a[1..], x);
    }
  }

  lemma {:induction false} RemoveFirstPrefix(a: seq<string>, t: seq<string>, x: string)
    requires x in a
    ensures RemoveFirst(a + t, x) == RemoveFirst(a, x) + t
  {
    assert (a + t)[1..] == a[1..] + t;
    if a[0] != x {
      RemoveFirstPrefix(a[1..], t, x);
      assert [a[0]] + (RemoveFirst(a[1..], x) + t) == [a[0]] + RemoveFirst(a[1..], x) + t;
    }
  }

  lemma {:induction false} SelectSame(s: seq<string>, p: string -> bool, q: string -> bool)
    requires forall x :: x in s ==> p(x) == q(x)
    ensures Select(s, p) == Select(s, q)
  {
    if s != [] { SelectSame(s[..|s| - 1], p, q); }
  }

  lemma SelectLast(init: seq<string>, last: string, p: string -> bool)
    ensures Select(init + [last], p) == Select(init, p) + if p(last) then [last] else []
  {
    assert (init + [last])[..|init|] == init;
  }

  /** Removing one selected element is selecting without it. */
  lemma {:induction false} RemoveFromSelected(s: seq<string>, p: string -> bool, q: string -> bool, x: string)
    requires NoDuplicates(s) && x in s && p(x) && forall y :: y in s ==> (q(y) <==> p(y) && y != x)
    ensures RemoveFirst(Select(s, p), x) == Select(s, q)
  {
    var init, last := s[..|s| - 1], s[|s| - 1];
    assert s == init + [last];
    SelectLast(init, last, p);
    SelectLast(init, last, q);
    if last == x {
      assert x !in init;
      SelectSame(init, p, q);
      RemoveFirstAt(Select(init, p), x);
    } else {
      RemoveFromSelected(init, p, q, x);
      RemoveFirstPrefix(Select(init, p), if p(last) then [last] else [], x);
    }
  }

  /** The list itself: what stays, in its order, then the new busids in the order of the renames. */
  lemma {:induction false} AppliedInOrder(b: Book, rs: seq<Rename>)
    requires NoDuplicates(b.shared) && NoRenameTwice(rs)
    requires (forall x :: x in Gone(rs) ==> x in b.shared) && (forall x :: x in Moved(rs) ==> x !in b.shared)
    ensures Applied(b, rs).shared == Select(b.shared, NotIn(Gone(rs))) + Targets(rs)
  {
    if rs == [] {
      SelectAll(b.shared, NotIn(Gone(rs)));
      assert b.shared + [] == b.shared;
    } else {
      var init, r := rs[..|rs| - 1], rs[|rs| - 1];
      assert rs == init + [r];
      assert Gone(rs) == Gone(init) + {r.gone};
      assert Moved(rs) == Moved(init) + {r.moved};
      LastRenameIsNew(init, r);
      AppliedInOrder(b, init);
      var p, q := NotIn(Gone(init)), NotIn(Gone(rs));
      RemoveFromSelected(b.shared, p, q, r.gone);
      RemoveFirstPrefix(Select(b.shared, p), Targets(init), r.gone);
      OneMoreInOrder(Applied(b, init).shared, Select(b.shared, q), init, r);
    }
  }

  lemma OneMoreInOrder(shared: seq<string>, kept: seq<string>, init: seq<Rename>, r: Rename)
    requires RemoveFirst(shared, r.gone) == kept + Targets(init) && r.moved !in kept && r.moved !in Moved(init)
    ensures MoveShare(shared, r) == kept + Targets(init + [r])
  {
    assert Targets(init + [r]) == Targets(init) + [r.moved];
    forall x | x in Targets(init)
      ensures x != r.moved
    {
      var i :| 0 <= i < |init| && Targets(init)[i] == x;
      assert init[i] in init && init[i].moved in Moved(init);
    }
    assert r.moved !in kept + Targets(init);
    assert kept + Targets(init) + [r.moved] == kept + (Targets(init) + [r.moved]);
  }

  /** With distinct remembered serials the list keeps its length: nothing is merged away. */
  lemma {:induction false} AppliedLength(b: Book, rs: seq<Rename>)
    requires NoDuplicates(b.shared)
    requires (forall x :: x in Gone(rs) ==> x in b.shared) && (forall x :: x in Moved(rs) ==> x !in b.shared)
    requires NoRenameTwice(rs)
    ensures |Applied(b, rs).shared| == |b.shared|
  {
    if rs != [] {
      var init, r := rs[..|rs| - 1], rs[|rs| - 1];
      assert rs == init + [r];
      assert Gone(rs) == Gone(init) + {r.gone};
      assert Moved(rs) == Moved(init) + {r.moved};
      AppliedLength(b, init);
      AppliedShares(b, init);
      LastRenameIsNew(init, r);
      MoveKeepsLength(Applied(b, init).shared, r);
    }
  }

  lemma LastRenameIsNew(init: seq<Rename>, r: Rename)
    requires NoRenameTwice(init + [r])
    ensures NoRenameTwice(init) && r.gone !in Gone(init) && r.moved !in Moved(init)
  {
    var rs := init + [r];
    forall i | 0 <= i < |init|
      ensures init[i].gone != r.gone && init[i].moved != r.moved
    {
      assert rs[i] == init[i] && rs[|init|] == r;
    }
    forall i, j | 0 <= i < j < |init|
      ensures init[i].gone != init[j].gone && init[i].moved != init[j].moved
    {
      assert rs[i] == init[i] && rs[j] == init[j];
    }
  }

  lemma MoveKeepsLength(shared: seq<string>, r: Rename)
    requires NoDuplicates(shared) && r.gone in shared && r.moved !in shared
    ensures |MoveShare(shared, r)| == |shared|
  {
    RemoveFirstMembers(shared, r.gone);
  }

  ghost predicate NoRenameTwice(rs: seq<Rename>) {
    forall i, j :: 0 <= i < j < |rs| ==> rs[i].gone != rs[j].gone && rs[i].moved != rs[j].moved
  }

  lemma AppendDistinct(rs: seq<Rename>, r: Rename)
    requires NoRenameTwice(rs) && forall q :: q in rs ==> q.gone != r.gone && q.moved != r.moved
    ensures NoRenameTwice(rs + [r])
  {
  }

  /** Old busids never repeat, and new ones only if two tracked busids remembered the same serial. */
  lemma {:induction false} RenamesDistinct(b: Book, scan: Scan, busids: seq<string>)
    requires NoDuplicates(busids) && Distinct(scan)
    requires forall x, y :: x in busids && y in busids && x in b.known && y in b.known && b.known[x] == b.known[y] ==> x == y
    ensures NoRenameTwice(RenamesOf(b, scan, busids))
  {
    if busids != [] {
      var init, last := busids[..|busids| - 1], busids[|busids| - 1];
      RenamesDistinct(b, scan, init);
      var before := RenamesOf(b, scan, init);
      if Target(b, scan, last).Some? {
        var moved := Target(b, scan, last).value;
        forall r | r in before
          ensures r.gone != last && r.moved != moved
        {
          assert r.gone in init;
          var d, e := BySerial(scan, b.known[r.gone]).value, BySerial(scan, b.known[last]).value;
          assert d.busid == e.busid ==> d == e;
        }
        AppendDistinct(before, Rename(last, moved));
      }
    }
  }

  /** The labels as a multiset of values. */
  ghost function Values(m: map<string, string>): multiset<string> {
    if m == map[] then multiset{} else multiset{m[SomeKey(m)]} + Values(m - {SomeKey(m)})
  }

  ghost function SomeKey(m: map<string, string>): (k: string)
    requires m != map[]
    ensures k in m
  {
    assert m.Keys != {};
    var k :| k in m;
    k
  }

  lemma RemovalsCommute(m: map<string, string>, j: string, k: string)
    requires j in m && k in m && j != k
    ensures (m - {j}) - {k} == (m - {k}) - {j}
    ensures k in m - {j} && (m - {j})[k] == m[k] && |m - {j}| < |m|
  {
    assert (m - {j}).Keys == m.Keys - {j};
  }

  lemma ValuesUnfold(m: map<string, string>)
    requires m != map[]
    ensures Values(m) == multiset{m[SomeKey(m)]} + Values(m - {SomeKey(m)})
  {
  }

  lemma {:induction false} ValuesWithout(m: map<string, string>, k: string)
    requires k in m
    ensures Values(m) == multiset{m[k]} + Values(m - {k})
    decreases |m|
  {
    var j := SomeKey(m);
    ValuesUnfold(m);
    if j != k {
      RemovalsCommute(m, j, k);
      RemovalsCommute(m, k, j);
      ValuesWithout(m - {j}, k);
      ValuesWithout(m - {k}, j);
      AddTwice(multiset{m[j]}, multiset{m[k]}, Values((m - {j}) - {k}));
    }
  }

  lemma AddTwice(a: multiset<string>, b: multiset<string>, c: multiset<string>)
    ensures a + (b + c) == b + (a + c)
  {
  }

  lemma MoveKeepsValues(labels: map<string, string>, r: Rename)
    ensures Values(MoveLabel(labels, r)) == Values(labels)
  {
    if r.gone in labels && r.moved !in labels {
      ValuesWithout(labels, r.gone);
      ValuesWith(labels - {r.gone}, r.moved, labels[r.gone]);
    }
  }

  lemma ValuesWith(m: map<string, string>, k: string, v: string)
    requires k !in m
    ensures Values(m[k := v]) == multiset{v} + Values(m)
  {
    ValuesWithout(m[k := v], k);
    assert m[k := v] - {k} == m;
  }

  /** No rename loses, merges or invents a label. */
  lemma {:induction false} AppliedLabels(b: Book, rs: seq<Rename>)
    ensures Values(Applied(b, rs).labels) == Values(b.labels)
  {
    if rs != [] {
      AppliedLabels(b, rs[..|rs| - 1]);
      MoveKeepsValues(Applied(b, rs[..|rs| - 1]).labels, rs[|rs| - 1]);
    }
  }

  ghost function LabelOf(labels: map<string, string>, busid: string): Option<string> {
    if busid in labels then Some(labels[busid]) else None
  }

  /** Where a rename takes the label: the new busid keeps its own if it has one, else it takes that of the old one. */
  ghost predicate LabelFollows(before: map<string, string>, after: map<string, string>, r: Rename) {
    if LabelOf(before, r.moved).Some? then
      LabelOf(after, r.moved) == LabelOf(before, r.moved) && LabelOf(after, r.gone) == LabelOf(before, r.gone)
    else
      LabelOf(after, r.moved) == LabelOf(before, r.gone) && LabelOf(after, r.gone).None?
  }

  ghost predicate Relabelled(before: map<string, string>, after: map<string, string>, rs: seq<Rename>) {
    && (forall r :: r in rs ==> LabelFollows(before, after, r))
    && forall x :: x !in Gone(rs) && x !in Moved(rs) ==> LabelOf(after, x) == LabelOf(before, x)
  }

  lemma OneMoreRelabelled(before: map<string, string>, mid: map<string, string>, after: map<string, string>, init: seq<Rename>, r: Rename)
    requires Relabelled(before, mid, init) && LabelFollows(mid, after, r)
    requires r.gone !in Gone(init) && r.gone !in Moved(init) && r.moved !in Gone(init) && r.moved !in Moved(init)
    requires forall x :: x != r.gone && x != r.moved ==> LabelOf(after, x) == LabelOf(mid, x)
    ensures Relabelled(before, after, init + [r])
  {
    var rs := init + [r];
    assert Gone(rs) == Gone(init) + {r.gone};
    assert Moved(rs) == Moved(init) + {r.moved};
    forall q | q in rs
      ensures LabelFollows(before, after, q)
    {
      if q in init { assert q.gone in Gone(init) && q.moved in Moved(init); }
    }
  }

  lemma {:induction false} AppliedRenamesTakeLabels(b: Book, rs: seq<Rename>)
    requires NoRenameTwice(rs) && Gone(rs) !! Moved(rs)
    ensures Relabelled(b.labels, Applied(b, rs).labels, rs)
  {
    if rs != [] {
      var init, r := rs[..|rs| - 1], rs[|rs| - 1];
      assert rs == init + [r];
      assert Gone(rs) == Gone(init) + {r.gone};
      assert Moved(rs) == Moved(init) + {r.moved};
      LastRenameIsNew(init, r);
      AppliedRenamesTakeLabels(b, init);
      MoveTakesLabel(Applied(b, init).labels, r);
      OneMoreRelabelled(b.labels, Applied(b, init).labels, Applied(b, rs).labels, init, r);
    }
  }

  /** One move concerns the labels of its own two busids only. */
  lemma MoveTakesLabel(labels: map<string, string>, r: Rename)
    requires r.gone != r.moved
    ensures LabelFollows(labels, MoveLabel(labels, r), r)
    ensures forall x :: x != r.gone && x != r.moved ==> LabelOf(MoveLabel(labels, r), x) == LabelOf(labels, x)
  {
  }

  /** After a pass the label of a device that has moved is at its new busid, unless that one had a label of its own. */
  lemma LabelFollowsDevice(b: Book, first: Scan, final: Scan, oldBusid: string)
    requires NoDuplicates(b.shared) && Distinct(first)
    requires forall x, y :: x in b.shared && y in b.shared && x in b.known && y in b.known && b.known[x] == b.known[y] ==> x == y
    requires oldBusid in b.shared && Target(b, first, oldBusid).Some?
    ensures LabelFollows(b.labels, Pass(b, first, final).labels, Rename(oldBusid, Target(b, first, oldBusid).value))
  {
    var rs := RenamesOf(b, first, b.shared);
    RenamesAreDisjoint(b, first);
    RenamesDistinct(b, first, b.shared);
    AppliedRenamesTakeLabels(b, rs);
    assert Rename(oldBusid, Target(b, first, oldBusid).value) in rs;
  }

  // ------------------------------------------------------------ fixpoint

  /** With the devices where they were, a second pass renames nothing and leaves the store as it is. */
  lemma SecondPassChangesNothing(b: Book, first: Scan, final: Scan, again: Scan, againFinal: Scan)
    requires NoDuplicates(b.shared)
    requires SamePlaces(first, final) && SamePlaces(first, again) && SamePlaces(first, againFinal)
    ensures
      var p := Pass(b, first, final);
      RenamesOf(p, again, p.shared) == [] && Pass(p, again, againFinal) == p
  {
    var p := Pass(b, first, final);
    if b.shared != [] {
      forall x | x in p.shared
        ensures Target(p, again, x).None?
      {
        NothingLeftToMove(b, first, final, again, x);
      }
      NothingToRename(p, again, p.shared);
      forall x | x in p.shared
        ensures SerialsIn(againFinal)(x) == SerialsIn(final)(x)
      {
        SamePlacesLookup(first, againFinal, x);
        SamePlacesLookup(first, final, x);
      }
      SnapshotSettles(b.known, p.shared, SerialsIn(final), SerialsIn(againFinal));
    }
  }

  lemma SnapshotSettles(known: map<string, string>, shared: seq<string>, s: string -> string, t: string -> string)
    requires forall x :: x in shared ==> s(x) == t(x)
    ensures Snapshot(Snapshot(known, shared, s), shared, t) == Snapshot(known, shared, s)
  {
  }

  /** Membership after a pass, busid by busid. */
  lemma SharedAfter(b: Book, first: Scan, final: Scan, x: string)
    requires NoDuplicates(b.shared) && b.shared != []
    ensures x in b.shared ==> (x in Pass(b, first, final).shared <==> Target(b, first, x).None?)
    ensures x !in b.shared ==> (x in Pass(b, first, final).shared <==>
      exists gone :: gone in b.shared && Target(b, first, gone) == Some(x))
  {
    var rs := RenamesOf(b, first, b.shared);
    RenamesAreDisjoint(b, first);
    AppliedShares(b, rs);
    if x in b.shared && Target(b, first, x).Some? {
      assert Rename(x, Target(b, first, x).value) in rs;
    }
    if x in Moved(rs) {
      var r :| r in rs && r.moved == x;
      assert r.gone in b.shared && Target(b, first, r.gone) == Some(x);
    }
    forall gone | gone in b.shared && Target(b, first, gone) == Some(x)
      ensures x in Moved(rs)
    {
      assert Rename(gone, x) in rs;
    }
  }

  /** A relocation target is a busid at which a device is plugged in. */
  lemma TargetIsPresent(b: Book, scan: Scan, gone: string)
    requires Target(b, scan, gone).Some?
    ensures ByBusid(scan, Target(b, scan, gone).value).Some?
  {
  }

  lemma NothingLeftToMove(b: Book, first: Scan, final: Scan, again: Scan, x: string)
    requires NoDuplicates(b.shared) && b.shared != []
    requires SamePlaces(first, final) && SamePlaces(first, again)
    requires x in Pass(b, first, final).shared
    ensures Target(Pass(b, first, final), again, x).None?
  {
    var p := Pass(b, first, final);
    SharedAfter(b, first, final, x);
    SamePlacesLookup(first, again, x);
    SamePlacesLookup(first, final, x);
    if x !in b.shared {
      var gone :| gone in b.shared && Target(b, first, gone) == Some(x);
      TargetIsPresent(b, first, gone);
    } else if ByBusid(again, x).None? && x in p.known && p.known[x] != "" {
      KnownWhenAbsent(b, first, final, x);
      var s := p.known[x];
      SamePlacesLookup(first, again, s);
      if BySerial(first, s).Some? {
        var at := BySerial(first, s).value.busid;
        assert at in b.shared;
        assert Target(b, first, at).None?;
        SharedAfter(b, first, final, at);
      }
    }
  }

  lemma KnownWhenAbsent(b: Book, first: Scan, final: Scan, x: string)
    requires b.shared != [] && ByBusid(final, x).None?
    ensures x in Pass(b, first, final).known ==> x in b.known && Pass(b, first, final).known[x] == b.known[x]
  {
    assert SerialsIn(final)(x) == "";
  }

  lemma {:induction false} NothingToRename(b: Book, scan: Scan, busids: seq<string>)
    requires forall x :: x in busids ==> Target(b, scan, x).None?
    ensures RenamesOf(b, scan, busids) == []
  {
    if busids != [] { NothingToRename(b, scan, busids[..|busids| - 1]); }
  }

  // ---------------------------------------------------- serials over runs

  /** The serials the share list is following. */
  ghost function Remembered(b: Book): set<string> {
    set x | x in b.shared && x in b.known :: b.known[x]
  }

  /** Serials a pass reads for the first time, at tracked busids with none remembered. */
  ghost function NewlySeen(b: Book, final: Scan): set<string> {
    set x | x in b.shared && x !in b.known && SerialAt(final, x) != "" :: SerialAt(final, x)
  }

  /** The store's own part of the hypothesis: known serials are unique. */
  ghost predicate Tidy(b: Book) {
    && NoDuplicates(b.shared)
    && (forall x :: x in b.shared && x in b.known ==> b.known[x] != "")
    && (forall x, y :: x in b.shared && y in b.shared && x in b.known && y in b.known && b.known[x] == b.known[y] ==> x == y)
  }

  /** No serial is remembered for a busid that is not tracked: so after every pass, whatever came before. */
  ghost predicate Settled(b: Book) {
    forall x :: x in b.known ==> x in b.shared
  }

  /** What reads `serial` at tracked busid `x` is the device expected there, not a different one. */
  ghost predicate Expected(b: Book, x: string, serial: string) {
    serial == "" || (if x in b.known then serial == b.known[x] else serial !in Remembered(b))
  }

  /**
   * The environment's part: device serials are unique, and no different device appears at a tracked busid.
   * A serial may fail to read, but not while the same serial is read elsewhere.
   */
  ghost predicate Fits(b: Book, scan: Scan) {
    && Distinct(scan)
    && (forall d :: d in scan && d.busid in b.shared ==> Expected(b, d.busid, d.serial))
    && (forall d, e :: d in scan && e in scan && d.busid in b.shared && d.busid in b.known && d.serial == "" ==>
          e.serial != b.known[d.busid])
  }

  /** The last scan of a pass agrees with what the pass tracks: the same rule, after the renames. */
  ghost predicate FinalFits(b: Book, first: Scan, final: Scan) {
    && (forall x :: x in b.shared && Target(b, first, x).None? ==> Expected(b, x, SerialAt(final, x)))
    && (forall x :: x in b.shared && Target(b, first, x).Some? ==>
          var s := SerialAt(final, Target(b, first, x).value);
          s == "" || s == b.known[x])
  }

  /** Every relocated device is still there, its serial readable, when the pass takes its last scan. */
  ghost predicate NoneLost(b: Book, first: Scan, final: Scan) {
    forall x :: x in b.shared && Target(b, first, x).Some? ==> SerialAt(final, Target(b, first, x).value) != ""
  }

  lemma KnownAfter(b: Book, first: Scan, final: Scan, x: string)
    requires b.shared != [] && x in Pass(b, first, final).shared
    ensures
      var s, p := SerialAt(final, x), Pass(b, first, final);
      (x in p.known <==> s != "" || x in b.known) && (x in p.known ==> p.known[x] == if s != "" then s else b.known[x])
  {
    assert SerialsIn(final)(x) == SerialAt(final, x);
  }

  /** Nothing is remembered after a pass that was not remembered before, or read for the first time. */
  lemma NothingInvented(b: Book, first: Scan, final: Scan, x: string)
    requires Tidy(b) && FinalFits(b, first, final) && b.shared != []
    requires Settled(b) || NoneLost(b, first, final)
    requires x in Pass(b, first, final).shared && x in Pass(b, first, final).known
    ensures
      var s := Pass(b, first, final).known[x];
      if x in b.shared then
        Target(b, first, x).None? && (if x in b.known then s == b.known[x] else s == SerialAt(final, x) && s != "" && s !in Remembered(b))
      else exists y :: y in b.shared && Target(b, first, y) == Some(x) && s == b.known[y]
  {
    SharedAfter(b, first, final, x);
    KnownAfter(b, first, final, x);
    if x !in b.shared {
      var y :| y in b.shared && Target(b, first, y) == Some(x);
      assert Pass(b, first, final).known[x] == b.known[y];
    }
  }

  /**
   * A pass forgets a serial exactly when a device it relocates is gone again by its last scan: the old
   * busid has left the list and the new one has nothing remembered.
   */
  lemma ForgetsExactlyTheLost(b: Book, first: Scan, final: Scan)
    requires Tidy(b) && FinalFits(b, first, final)
    requires Settled(b)
    ensures Remembered(b) <= Remembered(Pass(b, first, final)) <==> NoneLost(b, first, final)
  {
    var p := Pass(b, first, final);
    if NoneLost(b, first, final) {
      forall s | s in Remembered(b)
        ensures s in Remembered(p)
      {
        var x :| x in b.shared && x in b.known && b.known[x] == s;
        StillRemembered(b, first, final, x);
      }
    } else {
      var x :| x in b.shared && Target(b, first, x).Some? && SerialAt(final, Target(b, first, x).value) == "";
      LostSerial(b, first, final, x);
      assert b.known[x] in Remembered(b);
    }
  }

  /** Such a loss is possible: the relocated device is unplugged while the pass waits for its notifications. */
  lemma UnplugDuringPassForgets(b: Book, first: Scan)
    requires b == Book(["1-1"], map[], map["1-1" := "S"]) && first == [Device("1-2", "S", SharedIdle, "")]
    ensures Tidy(b) && Settled(b) && Fits(b, first) && FinalFits(b, first, [])
    ensures "S" in Remembered(b) && "S" !in Remembered(Pass(b, first, []))
  {
    assert ByBusid(first, "1-1").None?;
    assert BySerial(first, "S").Some?;
    assert Target(b, first, "1-1") == Some("1-2");
    assert "1-1" in b.shared && "1-1" in b.known && b.known["1-1"] == "S";
    LostSerial(b, first, [], "1-1");
  }

  lemma StillRemembered(b: Book, first: Scan, final: Scan, x: string)
    requires Tidy(b) && FinalFits(b, first, final) && NoneLost(b, first, final)
    requires x in b.shared && x in b.known
    ensures b.known[x] in Remembered(Pass(b, first, final))
  {
    var p := Pass(b, first, final);
    SharedAfter(b, first, final, x);
    if Target(b, first, x).Some? {
      var t := Target(b, first, x).value;
      SharedAfter(b, first, final, t);
      KnownAfter(b, first, final, t);
      assert t in p.shared && t in p.known && p.known[t] == b.known[x];
    } else {
      KnownAfter(b, first, final, x);
      assert x in p.shared && x in p.known && p.known[x] == b.known[x];
    }
  }

  lemma LostSerial(b: Book, first: Scan, final: Scan, x: string)
    requires Tidy(b) && FinalFits(b, first, final)
    requires Settled(b)
    requires x in b.shared && Target(b, first, x).Some? && SerialAt(final, Target(b, first, x).value) == ""
    ensures b.known[x] !in Remembered(Pass(b, first, final))
  {
    var p := Pass(b, first, final);
    forall y | y in p.shared && y in p.known
      ensures p.known[y] != b.known[x]
    {
      NothingInvented(b, first, final, y);
      KnownAfter(b, first, final, y);
      SharedAfter(b, first, final, y);
      if y in b.shared {
        assert b.known[x] in Remembered(b);
      } else {
        var z :| z in b.shared && Target(b, first, z) == Some(y) && p.known[y] == b.known[z];
        assert b.known[z] == b.known[x] ==> z == x;
      }
    }
  }

  /**
   * What a pass needs to keep the serials: known serials are unique, device serials too at its last listing, no
   * different device sits at a tracked busid there, and no device it relocates is gone again by then. Devices may be
   * plugged in, unplugged and moved while it runs.
   */
  ghost predicate Undisturbed(b: Book, first: Scan, final: Scan) {
    Tidy(b) && UniqueSerials(final) && FinalFits(b, first, final) && NoneLost(b, first, final)
  }

  /** Such a pass: the tracked serials grow by those read for the first time and lose none. */
  lemma PassKeepsSerials(b: Book, first: Scan, final: Scan)
    requires Undisturbed(b, first, final)
    ensures Remembered(Pass(b, first, final)) == Remembered(b) + NewlySeen(b, final)
    ensures Tidy(Pass(b, first, final)) && (b.shared != [] ==> Settled(Pass(b, first, final)))
    ensures (forall x :: x in b.shared ==> x in b.known) ==>
      forall x :: x in Pass(b, first, final).shared ==> x in Pass(b, first, final).known
  {
    if b.shared == [] { return; }
    var p := Pass(b, first, final);
    forall s | s in Remembered(b)
      ensures s in Remembered(p)
    {
      var x :| x in b.shared && x in b.known && b.known[x] == s;
      StillRemembered(b, first, final, x);
    }
    forall x | x in p.shared && x in p.known
      ensures p.known[x] in Remembered(b) + NewlySeen(b, final)
    {
      Provenance(b, first, final, x);
    }
    forall s | s in NewlySeen(b, final)
      ensures s in Remembered(p)
    {
      NewSerialKept(b, first, final, s);
    }
    PassIsTidy(b, first, final);
    forall x | x in p.shared && forall y :: y in b.shared ==> y in b.known
      ensures x in p.known
    {
      AllStayKnown(b, first, final, x);
    }
  }

  lemma AllStayKnown(b: Book, first: Scan, final: Scan, x: string)
    requires Undisturbed(b, first, final) && b.shared != [] && x in Pass(b, first, final).shared
    requires forall y :: y in b.shared ==> y in b.known
    ensures x in Pass(b, first, final).known
  {
    SharedAfter(b, first, final, x);
    KnownAfter(b, first, final, x);
  }

  /** Where an entry of the new snapshot comes from. */
  lemma Provenance(b: Book, first: Scan, final: Scan, x: string)
    requires Undisturbed(b, first, final) && b.shared != []
    requires x in Pass(b, first, final).shared && x in Pass(b, first, final).known
    ensures
      var s := Pass(b, first, final).known[x];
      s != "" && (s in Remembered(b) || (s in NewlySeen(b, final) && SerialAt(final, x) == s && x !in b.known && x in b.shared))
  {
    NothingInvented(b, first, final, x);
    KnownAfter(b, first, final, x);
  }

  lemma NewSerialKept(b: Book, first: Scan, final: Scan, s: string)
    requires Undisturbed(b, first, final) && b.shared != [] && s in NewlySeen(b, final)
    ensures s in Remembered(Pass(b, first, final))
  {
    var p := Pass(b, first, final);
    var x :| x in b.shared && x !in b.known && SerialAt(final, x) != "" && SerialAt(final, x) == s;
    SharedAfter(b, first, final, x);
    KnownAfter(b, first, final, x);
    assert x in p.shared && x in p.known && p.known[x] == s;
  }

  lemma PassIsTidy(b: Book, first: Scan, final: Scan)
    requires Undisturbed(b, first, final) && b.shared != []
    ensures Tidy(Pass(b, first, final)) && Settled(Pass(b, first, final))
  {
    var p := Pass(b, first, final);
    RenamesAreDisjoint(b, first);
    AppliedShares(b, RenamesOf(b, first, b.shared));
    forall x | x in p.shared && x in p.known
      ensures p.known[x] != ""
    {
      Provenance(b, first, final, x);
    }
    forall x, y | x in p.shared && y in p.shared && x in p.known && y in p.known && p.known[x] == p.known[y]
      ensures x == y
    {
      KnownSerialsDiffer(b, first, final, x, y);
    }
  }

  lemma KnownSerialsDiffer(b: Book, first: Scan, final: Scan, x: string, y: string)
    requires Undisturbed(b, first, final) && b.shared != []
    requires x in Pass(b, first, final).shared && x in Pass(b, first, final).known
    requires y in Pass(b, first, final).shared && y in Pass(b, first, final).known
    requires Pass(b, first, final).known[x] == Pass(b, first, final).known[y]
    ensures x == y
  {
    NothingInvented(b, first, final, x);
    NothingInvented(b, first, final, y);
    var s := Pass(b, first, final).known[x];
    if x !in b.shared {
      var g :| g in b.shared && Target(b, first, g) == Some(x) && s == b.known[g];
      assert s in Remembered(b);
    }
    if y !in b.shared {
      var h :| h in b.shared && Target(b, first, h) == Some(y) && s == b.known[h];
      assert s in Remembered(b);
    }
    if x in b.shared && x !in b.known && y in b.shared && y !in b.known {
      var d, e := ByBusid(final, x).value, ByBusid(final, y).value;
      assert d.serial == e.serial;
    }
  }

  // A pass during which no device is plugged in, unplugged or moved.

  lemma TargetSerial(b: Book, scan: Scan, x: string)
    requires Distinct(scan) && Target(b, scan, x).Some?
    ensures b.known[x] != "" && SerialAt(scan, Target(b, scan, x).value) == b.known[x]
  {
    var d := BySerial(scan, b.known[x]).value;
    var e := ByBusid(scan, d.busid).value;
    assert d == e;
  }

  /** The last listing fits because the first one does. */
  lemma SteadyPassIsUndisturbed(b: Book, first: Scan, final: Scan)
    requires Tidy(b) && Fits(b, first) && SamePlaces(first, final)
    ensures Undisturbed(b, first, final)
  {
    forall x | x in b.shared
      ensures Target(b, first, x).None? ==> Expected(b, x, SerialAt(final, x))
      ensures Target(b, first, x).Some? ==> SerialAt(final, Target(b, first, x).value) == b.known[x] && b.known[x] != ""
    {
      SamePlacesLookup(first, final, x);
      if Target(b, first, x).Some? {
        TargetSerial(b, first, x);
        SamePlacesLookup(first, final, Target(b, first, x).value);
      }
    }
    SamePlacesUnique(first, final);
  }

  // ------------------------------------------------------ a device comes back

  /**
   * A device whose serial is remembered is tracked after the pass at the busid its first listing shows, whatever
   * happens while it runs; its serial is remembered there if the last listing still reads it.
   */
  lemma ReturningDeviceIsTracked(b: Book, first: Scan, final: Scan, d: Device)
    requires Tidy(b) && Fits(b, first) && d in first && d.serial in Remembered(b)
    ensures d.busid in Pass(b, first, final).shared
    ensures SerialAt(final, d.busid) == d.serial ==>
      d.busid in Pass(b, first, final).known && Pass(b, first, final).known[d.busid] == d.serial
  {
    var x :| x in b.shared && x in b.known && b.known[x] == d.serial;
    assert ByBusid(first, d.busid).value == d;
    if d.busid in b.shared {
      assert Target(b, first, d.busid).None?;
    } else {
      assert ByBusid(first, x).None?;
      assert BySerial(first, d.serial).value == d;
      assert Target(b, first, x) == Some(d.busid);
    }
    SharedAfter(b, first, final, d.busid);
    KnownAfter(b, first, final, d.busid);
  }

  // A run: devices come, go and move between and during passes; each pass is given by its first and last listing.

  datatype Visit = Visit(first: Scan, final: Scan)

  function AfterRun(b: Book, run: seq<Visit>): Book {
    if run == [] then b
    else
      var before := AfterRun(b, run[..|run| - 1]);
      Pass(before, run[|run| - 1].first, run[|run| - 1].final)
  }

  /** The environment's part of `Undisturbed`, pass by pass; the store's own part, `Tidy`, need only hold at the start. */
  ghost predicate RunFits(b: Book, run: seq<Visit>) {
    run == [] ||
    (var init := run[..|run| - 1];
     RunFits(b, init) && VisitFits(AfterRun(b, init), run[|run| - 1]))
  }

  ghost predicate VisitFits(b: Book, v: Visit) {
    UniqueSerials(v.final) && FinalFits(b, v.first, v.final) && NoneLost(b, v.first, v.final)
  }

  /**
   * Over every run of passes and replug events: no tracked serial is ever forgotten, however long its device
   * is away, and when every tracked busid had one remembered the set of tracked serials never changes.
   */
  lemma {:induction false} RunKeepsSerials(b: Book, run: seq<Visit>)
    requires Tidy(b) && RunFits(b, run)
    ensures Remembered(b) <= Remembered(AfterRun(b, run)) && Tidy(AfterRun(b, run))
    ensures (forall x :: x in b.shared ==> x in b.known) ==>
      Remembered(AfterRun(b, run)) == Remembered(b) &&
      forall x :: x in AfterRun(b, run).shared ==> x in AfterRun(b, run).known
  {
    if run != [] {
      var init := run[..|run| - 1];
      RunKeepsSerials(b, init);
      var before, last := AfterRun(b, init), run[|run| - 1];
      PassKeepsSerials(before, last.first, last.final);
      if forall x :: x in b.shared ==> x in b.known {
        assert NewlySeen(before, last.final) == {};
      }
    }
  }

  /** Each pass finds the devices as expected, and they stay put while it runs. */
  ghost predicate SteadyRun(b: Book, run: seq<Visit>) {
    run == [] ||
    (var init, last := run[..|run| - 1], run[|run| - 1];
     SteadyRun(b, init) && Fits(AfterRun(b, init), last.first) && SamePlaces(last.first, last.final))
  }

  /** In particular when devices come, go and move only between passes. */
  lemma {:induction false} SteadyRunFits(b: Book, run: seq<Visit>)
    requires Tidy(b) && SteadyRun(b, run)
    ensures RunFits(b, run)
  {
    if run != [] {
      var init, last := run[..|run| - 1], run[|run| - 1];
      SteadyRunFits(b, init);
      RunKeepsSerials(b, init);
      SteadyPassIsUndisturbed(AfterRun(b, init), last.first, last.final);
    }
  }

  // ------------------------------------------ passes, shares and unshares together

  datatype Handled = Passed(first: Scan, final: Scan) | Sharing(busid: string, serial: string) | Unsharing(busid: string)

  function AfterHandler(b: Book, h: Handled): Book {
    match h
    case Passed(first, final) => Pass(b, first, final)
    case Sharing(busid, serial) => WithShare(b, busid, serial)
    case Unsharing(busid) => WithoutShare(b, busid)
  }

  function AfterHandlers(b: Book, hs: seq<Handled>): Book {
    if hs == [] then b else AfterHandler(AfterHandlers(b, hs[..|hs| - 1]), hs[|hs| - 1])
  }

  /** Over every run of the server's handlers, whatever the listings show, the shared list has no duplicates. */
  lemma {:induction false} HandlersKeepDistinct(b: Book, hs: seq<Handled>)
    requires NoDuplicates(b.shared)
    ensures NoDuplicates(AfterHandlers(b, hs).shared)
  {
    if hs != [] {
      HandlersKeepDistinct(b, hs[..|hs| - 1]);
      HandlerKeepsDistinct(AfterHandlers(b, hs[..|hs| - 1]), hs[|hs| - 1]);
    }
  }

  lemma HandlerKeepsDistinct(b: Book, h: Handled)
    requires NoDuplicates(b.shared)
    ensures NoDuplicates(AfterHandler(b, h).shared)
  {
    match h
    case Passed(first, final) =>
      RenamesAreDisjoint(b, first);
      AppliedShares(b, RenamesOf(b, first, b.shared));
    case Sharing(busid, _) => SortedIsSorted((set x | x in b.shared) + {busid});
    case Unsharing(busid) => SelectKeepsDistinct(b.shared, Except(busid));
  }

  /** The serial a busid will have once it is shared: the one read, or one still remembered from before. */
  ghost function SharedSerial(b: Book, busid: string, serial: string): Option<string> {
    if serial != "" then Some(serial) else if busid in b.known then Some(b.known[busid]) else None
  }

  /** Passes as before; a device that is shared is not one that is already followed at another busid. */
  ghost predicate HandlerFits(b: Book, h: Handled) {
    match h
    case Passed(first, final) => VisitFits(b, Visit(first, final))
    case Sharing(busid, serial) =>
      var s := SharedSerial(b, busid, serial);
      s.Some? ==> s.value != "" && forall x :: x in b.shared && x in b.known && x != busid ==> b.known[x] != s.value
    case Unsharing(_) => true
  }

  /** The serials no longer followed: of the busid unshared, or shared anew with another device. */
  ghost function Dropped(b: Book, h: Handled): set<string> {
    match h
    case Passed(_, _) => {}
    case Sharing(busid, serial) =>
      if busid in b.shared && busid in b.known && serial != "" && serial != b.known[busid] then {b.known[busid]} else {}
    case Unsharing(busid) => if busid in b.shared && busid in b.known then {b.known[busid]} else {}
  }

  ghost function Added(b: Book, h: Handled): set<string> {
    match h
    case Passed(_, final) => NewlySeen(b, final)
    case Sharing(busid, serial) =>
      var s := SharedSerial(b, busid, serial);
      if s.Some? then {s.value} else {}
    case Unsharing(_) => {}
  }

  lemma SharingRemembers(b: Book, busid: string, serial: string)
    requires Tidy(b) && HandlerFits(b, Sharing(busid, serial))
    ensures
      var h := Sharing(busid, serial);
      Remembered(AfterHandler(b, h)) == Remembered(b) - Dropped(b, h) + Added(b, h) && Tidy(AfterHandler(b, h))
  {
    var c := WithShare(b, busid, serial);
    HandlerKeepsDistinct(b, Sharing(busid, serial));
    OneBusidShared(b, c, busid, SharedSerial(b, busid, serial));
  }

  /** `c` is `b` with `busid` shared under `serial`, which is followed at no other busid. */
  lemma OneBusidShared(b: Book, c: Book, busid: string, serial: Option<string>)
    requires Tidy(b) && NoDuplicates(c.shared)
    requires forall x :: x in c.shared <==> x in b.shared || x == busid
    requires forall x :: x != busid ==> (x in c.known <==> x in b.known) && (x in c.known ==> c.known[x] == b.known[x])
    requires if serial.Some? then busid in c.known && c.known[busid] == serial.value else busid !in c.known && busid !in b.known
    requires serial.Some? ==> serial.value != "" && forall x :: x in b.shared && x in b.known && x != busid ==> b.known[x] != serial.value
    ensures Tidy(c)
    ensures
      var replaced := if busid in b.shared && busid in b.known then {b.known[busid]} else {};
      Remembered(c) == Remembered(b) - replaced + (if serial.Some? then {serial.value} else {})
  {
    forall x | x in b.shared && x in b.known && x != busid
      ensures c.known[x] in Remembered(c) && (busid in b.shared && busid in b.known ==> b.known[x] != b.known[busid])
    {
      assert x in c.shared && x in c.known;
    }
    if serial.Some? { assert busid in c.shared && busid in c.known; }
  }

  lemma UnsharingRemembers(b: Book, busid: string)
    requires Tidy(b)
    ensures
      var h := Unsharing(busid);
      Remembered(AfterHandler(b, h)) == Remembered(b) - Dropped(b, h) && Tidy(AfterHandler(b, h))
  {
    var c := WithoutShare(b, busid);
    HandlerKeepsDistinct(b, Unsharing(busid));
    forall x | x in b.shared && x in b.known && x != busid
      ensures x in c.shared && x in c.known && c.known[x] == b.known[x]
    {
    }
  }

  /** Each handler stops following exactly what it drops, and starts following exactly what it reads anew. */
  lemma HandlerRemembers(b: Book, h: Handled)
    requires Tidy(b) && HandlerFits(b, h)
    ensures Remembered(AfterHandler(b, h)) == Remembered(b) - Dropped(b, h) + Added(b, h)
    ensures Tidy(AfterHandler(b, h))
  {
    match h
    case Passed(first, final) => PassKeepsSerials(b, first, final);
    case Sharing(busid, serial) => SharingRemembers(b, busid, serial);
    case Unsharing(busid) => UnsharingRemembers(b, busid);
  }

  ghost predicate HandlersFit(b: Book, hs: seq<Handled>) {
    hs == [] || (HandlersFit(b, hs[..|hs| - 1]) && HandlerFits(AfterHandlers(b, hs[..|hs| - 1]), hs[|hs| - 1]))
  }

  /** Some handler of the run drops the serial. */
  ghost predicate EverDropped(b: Book, hs: seq<Handled>, serial: string) {
    hs != [] &&
    (EverDropped(b, hs[..|hs| - 1], serial) || serial in Dropped(AfterHandlers(b, hs[..|hs| - 1]), hs[|hs| - 1]))
  }

  /**
   * Over every such run of passes, shares and unshares, with replugs throughout, a tracked serial is forgotten only
   * by an unshare of its busid or a share of that busid with another device.
   */
  lemma {:induction false} OnlyDroppedSerialsAreForgotten(b: Book, hs: seq<Handled>, serial: string)
    requires Tidy(b) && HandlersFit(b, hs) && serial in Remembered(b)
    ensures Tidy(AfterHandlers(b, hs))
    ensures serial in Remembered(AfterHandlers(b, hs)) || EverDropped(b, hs, serial)
  {
    if hs != [] {
      var init := hs[..|hs| - 1];
      OnlyDroppedSerialsAreForgotten(b, init, serial);
      HandlerRemembers(AfterHandlers(b, init), hs[|hs| - 1]);
    }
  }
}
