/** common/config_store.py: a JSON file replaced atomically, read and updated under one lock. */
module ConfigStore {

  /** The parsed object: top-level key to (opaque) value. */
  type Data = map<string, string>

  /** What the bytes of a file parse to; a file cut short by a crash does not parse. */
  datatype Content = Unparseable | Whole(data: Data)

  type Disk = map<string, Content>

  /** Where one call of `_write` goes wrong: an exception at a step, or the process dying after it. */
  datatype Fault =
    | NoFault
    | MkstempRaises | DumpRaises | ChmodRaises | ReplaceRaises
    | DiesAfterMkstemp | DiesDuringDump | DiesAfterChmod | DiesAfterReplace

  datatype Ending = Written | Raised | Died

  /** A mutator may raise (a `KeyError` on a record that is gone), in which case nothing is written. */
  type Mutator = Data -> Result
  datatype Result = Mutated(data: Data) | MutatorRaised

  function Parse(disk: Disk, path: string): Content {
    if path in disk then disk[path] else Unparseable
  }

  /** `_load`: stored keys win, missing ones are backfilled. */
  function Load(c: Content, defaults: Data): (d: Data)
    ensures c.Whole? ==> forall k :: k in c.data ==> k in d && d[k] == c.data[k]
    ensures c.Whole? ==> forall k :: k in d && k !in c.data ==> k in defaults && d[k] == defaults[k]
    ensures c.Unparseable? ==> d == defaults
    ensures defaults.Keys <= d.Keys
  {
    if c.Whole? then defaults + c.data else defaults
  }

  /** The class: one lock, so each method runs alone. */
  class Store {
    const path: string
    var disk: Disk

    constructor (path: string, disk: Disk, defaults: Data, tmp: string)
      requires tmp !in disk && tmp != path
      ensures this.path == path
      ensures path in disk ==> this.disk == disk
      ensures path !in disk ==> this.disk == disk[path := Whole(defaults)]
    {
      this.path := path;
      this.disk := disk;
      new;
      if path !in disk {
        var ending := Write(defaults, tmp, NoFault);
      }
    }

    /** Temp file, dump, chmod, rename; the handler removes the temp file and re-raises. */
    method Write(data: Data, tmp: string, fault: Fault) returns (ending: Ending)
      requires tmp !in disk && tmp != path
      modifies this`disk
      ensures ending.Written? ==> disk == old(disk)[path := Whole(data)]
      ensures ending.Raised? ==> disk == old(disk)
      ensures Parse(disk, path) == if fault.NoFault? || fault.DiesAfterReplace? then Whole(data) else Parse(old(disk), path)
      ensures forall p :: p != path && p != tmp ==> (p in disk <==> p in old(disk)) && (p in disk ==> disk[p] == old(disk)[p])
      ensures fault.NoFault? <==> ending.Written?
    {
      if fault.MkstempRaises? { return Raised; }
      disk := disk[tmp := Unparseable];
      if fault.DiesAfterMkstemp? || fault.DiesDuringDump? { return Died; }
      if fault.DumpRaises? {
        disk := disk - {tmp};
        return Raised;
      }
      disk := disk[tmp := Whole(data)];
      if fault.ChmodRaises? || fault.ReplaceRaises? {
        disk := disk - {tmp};
        return Raised;
      }
      if fault.DiesAfterChmod? { return Died; }
      disk := disk[path := disk[tmp]] - {tmp};
      if fault.DiesAfterReplace? { return Died; }
      return Written;
    }

    /** Every key of the file or of the defaults, with the file's value wherever it has one. */
    method Read(defaults: Data) returns (d: Data)
      ensures Parse(disk, path).Unparseable? ==> d == defaults
      ensures Parse(disk, path).Whole? ==>
        var stored := Parse(disk, path).data;
        d.Keys == stored.Keys + defaults.Keys && forall k :: k in d ==> d[k] == if k in stored then stored[k] else defaults[k]
    {
      d := Load(Parse(disk, path), defaults);
    }

    /** Locked read-modify-write; a mutator that raises leaves the disk alone. */
    method Update(mutate: Mutator, defaults: Data, tmp: string, fault: Fault) returns (ending: Ending)
      requires tmp !in disk && tmp != path
      modifies this`disk
      ensures Parse(disk, path) == AfterUpdate(Parse(old(disk), path), Request(mutate, defaults, fault))
      ensures ending.Written? <==> fault.NoFault? && mutate(Load(Parse(old(disk), path), defaults)).Mutated?
      ensures ending.Raised? ==> disk == old(disk)
    {
      var data := Load(Parse(disk, path), defaults);
      match mutate(data)
      case MutatorRaised => return Raised;
      case Mutated(changed) =>
        ending := Write(changed, tmp, fault);
    }
  }

  // ------------------------------------------------- runs of locked updates

  /** One `update` call. `defaults` is what the defaults callable returned for it: a fresh secret each time. */
  datatype Request = Request(mutate: Mutator, defaults: Data, fault: Fault)

  predicate Lands(fault: Fault) {
    fault.NoFault? || fault.DiesAfterReplace?
  }

  function AfterUpdate(c: Content, r: Request): Content {
    match r.mutate(Load(c, r.defaults))
    case MutatorRaised => c
    case Mutated(changed) => if Lands(r.fault) then Whole(changed) else c
  }

  function AfterUpdates(c: Content, rs: seq<Request>): Content
    decreases |rs|
  {
    if rs == [] then c else AfterUpdates(AfterUpdate(c, rs[0]), rs[1..])
  }

  /** The reference: mutators applied one after another to a value in memory. No file, no backfill. */
  function Folded(d: Data, rs: seq<Request>): Data
    decreases |rs|
  {
    if rs == [] then d
    else match rs[0].mutate(d)
      case MutatorRaised => Folded(d, rs[1..])
      case Mutated(changed) => Folded(if Lands(rs[0].fault) then changed else d, rs[1..])
  }

  /** No mutator of the application removes a top-level key of the schema. */
  ghost predicate KeepsSchema(schema: set<string>, rs: seq<Request>) {
    forall i :: 0 <= i < |rs| ==>
      rs[i].defaults.Keys == schema &&
      forall d: Data :: schema <= d.Keys && rs[i].mutate(d).Mutated? ==> schema <= rs[i].mutate(d).data.Keys
  }

  lemma BackfillOnlyMissing(d: Data, defaults: Data)
    requires defaults.Keys <= d.Keys
    ensures Load(Whole(d), defaults) == d
  {
    assert defaults + d == d;
  }

  /** Once the file carries every key of the schema, updates are the fold: later defaults never show through. */
  lemma {:induction false} UpdatesFold(d: Data, rs: seq<Request>, schema: set<string>)
    requires schema <= d.Keys && KeepsSchema(schema, rs)
    ensures AfterUpdates(Whole(d), rs) == Whole(Folded(d, rs))
    ensures schema <= Folded(d, rs).Keys
    decreases |rs|
  {
    if rs != [] {
      BackfillOnlyMissing(d, rs[0].defaults);
      assert KeepsSchema(schema, rs[1..]);
      match rs[0].mutate(d)
      case MutatorRaised => UpdatesFold(d, rs[1..], schema);
      case Mutated(changed) => UpdatesFold(if Lands(rs[0].fault) then changed else d, rs[1..], schema);
    }
  }

  /** The state every request starts from until one lands: the first value with that request's defaults backfilled. */
  function FirstLanding(c: Content, rs: seq<Request>): (i: nat)
    ensures i <= |rs|
    ensures i < |rs| ==> Lands(rs[i].fault) && rs[i].mutate(Load(c, rs[i].defaults)).Mutated?
    ensures forall j :: 0 <= j < i ==> AfterUpdate(c, rs[j]) == c
    decreases |rs|
  {
    if rs == [] then 0
    else if Lands(rs[0].fault) && rs[0].mutate(Load(c, rs[0].defaults)).Mutated? then 0
    else FirstLanding(c, rs[1..]) + 1
  }

  lemma {:induction false} UpdatesSkip(c: Content, rs: seq<Request>, i: nat)
    requires i <= |rs| && forall j :: 0 <= j < i ==> AfterUpdate(c, rs[j]) == c
    ensures AfterUpdates(c, rs) == AfterUpdates(c, rs[i..])
  {
    if i > 0 {
      UpdatesSkip(c, rs[1..], i - 1);
      assert rs[1..][i - 1..] == rs[i..];
    } else {
      assert rs[0..] == rs;
    }
  }

  /**
   * Any sequence of updates, with any faults, from any file: either none landed and the file is as it
   * was, or the file is the fold of the mutators over the first value with defaults backfilled once.
   */
  lemma UpdatesAreAFold(c: Content, rs: seq<Request>, schema: set<string>)
    requires KeepsSchema(schema, rs)
    ensures
      var i := FirstLanding(c, rs);
      AfterUpdates(c, rs) == if i == |rs| then c else Whole(Folded(Load(c, rs[i].defaults), rs[i..]))
  {
    var i := FirstLanding(c, rs);
    UpdatesSkip(c, rs, i);
    if i < |rs| {
      forall j | 0 <= j < |rs[i..]|
        ensures rs[i..][j] == rs[i + j]
      {
      }
      FoldFromLanding(c, rs[i..], schema);
    }
  }

  lemma FoldFromLanding(c: Content, rs: seq<Request>, schema: set<string>)
    requires rs != [] && KeepsSchema(schema, rs)
    requires Lands(rs[0].fault) && rs[0].mutate(Load(c, rs[0].defaults)).Mutated?
    ensures AfterUpdates(c, rs) == Whole(Folded(Load(c, rs[0].defaults), rs))
  {
    UpdatesFold(rs[0].mutate(Load(c, rs[0].defaults)).data, rs[1..], schema);
  }
}
