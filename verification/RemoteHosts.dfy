/**
 The store of remote hosts (desktop/remote_hosts.go).

 A file with one document, read, checked and rewritten by every operation.  The module
 proves that the store is a map by id, that what it saves it loads again, and that no
 run makes ids or connections clash.
 */
module RemoteHosts {
  import opened Wrappers
  import opened StringOrder
  import opened RemoteHostNames
  import opened RemoteHostEntries

  const VERSION := 2
  const VERSION_1 := 1
  const MAX_BYTES := 0x10_0000
  const MAX_HOSTS := 256

  datatype Document = Document(version: int, hosts: seq<Entry>)

  /** The file: missing, not a private regular file, without a readable document, or with
      one. */
  datatype Disk = Missing | Unsafe | Garbled | Stored(document: Document)

  datatype Error = Invalid | UnsafeStore | Corrupt | TooMany | Duplicate | TooLarge | NotWritten | NotSaved

  /** The outside world: net.ParseIP, and the length of an encoded document. */
  datatype World = World(parseIp: ParseIp, size: Document -> nat)

  // ---- Lists of hosts ----

  predicate Clash(e: Entry, f: Entry)
  {
    e.id == f.id || ConnectionKey(e) == ConnectionKey(f)
  }

  ghost predicate NoClash(e: Entry, hosts: seq<Entry>)
  {
    forall f :: f in hosts ==> !Clash(e, f)
  }

  ghost predicate Distinct(hosts: seq<Entry>)
  {
    forall i, j :: 0 <= i < j < |hosts| ==> !Clash(hosts[i], hosts[j])
  }

  ghost predicate Accepted(hosts: seq<Entry>, parseIp: ParseIp)
  {
    |hosts| <= MAX_HOSTS && (forall e :: e in hosts ==> ValidEntry(e, parseIp)) && Distinct(hosts)
  }

  /** The list as a map by id. */
  function ById(hosts: seq<Entry>): map<string, Entry>
  {
    if hosts == [] then map[] else ById(hosts[1..])[hosts[0].id := hosts[0]]
  }

  function Upserted(hosts: seq<Entry>, e: Entry): seq<Entry>
  {
    if hosts == [] then [e]
    else if hosts[0].id == e.id then [e] + hosts[1..]
    else [hosts[0]] + Upserted(hosts[1..], e)
  }

  function Without(hosts: seq<Entry>, id: string): (r: seq<Entry>)
    ensures |r| <= |hosts| && (|r| == |hosts| ==> r == hosts)
  {
    if hosts == [] then []
    else (if hosts[0].id == id then [] else [hosts[0]]) + Without(hosts[1..], id)
  }

  function Mutated(hosts: seq<Entry>, id: string, mutate: Entry -> Entry): seq<Entry>
  {
    if hosts == [] then []
    else if hosts[0].id == id then [mutate(hosts[0])] + hosts[1..]
    else [hosts[0]] + Mutated(hosts[1..], id, mutate)
  }

  lemma {:induction false} UpsertIsMapUpdate(hosts: seq<Entry>, e: Entry)
    ensures ById(Upserted(hosts, e)) == ById(hosts)[e.id := e]
  {
    if hosts != [] {
      var rest := hosts[1..];
      UpsertIsMapUpdate(rest, e);
      if hosts[0].id != e.id {
        assert ([hosts[0]] + Upserted(rest, e))[1..] == Upserted(rest, e);
      } else {
        assert ([e] + rest)[1..] == rest;
      }
    }
  }

  lemma {:induction false} WithoutIsMapRemoval(hosts: seq<Entry>, id: string)
    ensures ById(Without(hosts, id)) == ById(hosts) - {id}
    ensures |Without(hosts, id)| == |hosts| <==> id !in ById(hosts)
  {
    if hosts != [] {
      var rest := hosts[1..];
      WithoutIsMapRemoval(rest, id);
      if hosts[0].id != id {
        assert ([hosts[0]] + Without(rest, id))[1..] == Without(rest, id);
      } else {
        assert [] + Without(rest, id) == Without(rest, id);
      }
    }
  }

  lemma {:induction false} MutatedIsMapUpdate(hosts: seq<Entry>, id: string, mutate: Entry -> Entry)
    requires forall e :: mutate(e).id == e.id
    ensures ById(Mutated(hosts, id, mutate))
         == if id in ById(hosts) then ById(hosts)[id := mutate(ById(hosts)[id])] else ById(hosts)
  {
    if hosts != [] {
      var rest := hosts[1..];
      MutatedIsMapUpdate(rest, id, mutate);
      if hosts[0].id == id {
        assert ([mutate(hosts[0])] + rest)[1..] == rest;
      } else {
        assert ([hosts[0]] + Mutated(rest, id, mutate))[1..] == Mutated(rest, id, mutate);
      }
    }
  }

  // ---- Sorting by id ----

  function Inserted(e: Entry, hosts: seq<Entry>): (r: seq<Entry>)
    ensures multiset(r) == multiset(hosts) + multiset{e}
  {
    if hosts == [] then [e]
    else if Less(hosts[0].id, e.id) then
      var r := [hosts[0]] + Inserted(e, hosts[1..]);
      assert hosts == [hosts[0]] + hosts[1..];
      r
    else [e] + hosts
  }

  function SortedById(hosts: seq<Entry>): (r: seq<Entry>)
    ensures multiset(r) == multiset(hosts) && |r| == |hosts|
  {
    if hosts == [] then []
    else
      var r := Inserted(hosts[0], SortedById(hosts[1..]));
      assert hosts == [hosts[0]] + hosts[1..];
      assert |multiset(r)| == |multiset(hosts)|;
      r
  }

  ghost predicate Ordered(hosts: seq<Entry>)
  {
    forall i, j :: 0 <= i < j < |hosts| ==> Less(hosts[i].id, hosts[j].id)
  }

  lemma SameMembers(a: seq<Entry>, b: seq<Entry>)
    requires multiset(a) == multiset(b)
    ensures forall e :: e in a <==> e in b
  {
    forall e ensures e in a <==> e in b {
      assert e in a <==> e in multiset(a);
      assert e in b <==> e in multiset(b);
    }
  }

  lemma DistinctTail(hosts: seq<Entry>)
    requires hosts != []
    ensures Distinct(hosts) <==> NoClash(hosts[0], hosts[1..]) && Distinct(hosts[1..])
  {
    if Distinct(hosts) {
      forall i, j | 0 <= i < j < |hosts[1..]| ensures !Clash(hosts[1..][i], hosts[1..][j]) {
        assert !Clash(hosts[i + 1], hosts[j + 1]);
      }
    }
    if NoClash(hosts[0], hosts[1..]) && Distinct(hosts[1..]) {
      forall i, j | 0 <= i < j < |hosts| ensures !Clash(hosts[i], hosts[j]) {
        assert hosts[1..][j - 1] == hosts[j];
        assert i > 0 ==> hosts[1..][i - 1] == hosts[i];
      }
    }
  }

  lemma {:induction false} InsertIsMapUpdate(e: Entry, hosts: seq<Entry>)
    requires forall f :: f in hosts ==> f.id != e.id
    ensures ById(Inserted(e, hosts)) == ById(hosts)[e.id := e]
  {
    var r := Inserted(e, hosts);
    if hosts != [] && Less(hosts[0].id, e.id) {
      assert r[1..] == Inserted(e, hosts[1..]);
      InsertIsMapUpdate(e, hosts[1..]);
      UpdatesCommute(ById(hosts[1..]), e, hosts[0]);
    } else {
      assert r[1..] == hosts;
    }
  }

  lemma UpdatesCommute(m: map<string, Entry>, e: Entry, f: Entry)
    requires e.id != f.id
    ensures m[e.id := e][f.id := f] == m[f.id := f][e.id := e]
  {
  }

  lemma {:induction false} InsertKeepsDistinct(e: Entry, hosts: seq<Entry>)
    requires Distinct(hosts) && NoClash(e, hosts)
    ensures Distinct(Inserted(e, hosts))
  {
    var r := Inserted(e, hosts);
    DistinctTail(r);
    if hosts != [] && Less(hosts[0].id, e.id) {
      DistinctTail(hosts);
      InsertKeepsDistinct(e, hosts[1..]);
      InsertMembers(e, hosts[1..]);
      assert !Clash(e, hosts[0]) && !Clash(hosts[0], e);
      assert r[1..] == Inserted(e, hosts[1..]);
    } else {
      assert r[1..] == hosts;
    }
  }

  lemma {:induction false} InsertKeepsOrder(e: Entry, hosts: seq<Entry>)
    requires Ordered(hosts) && NoClash(e, hosts)
    ensures Ordered(Inserted(e, hosts))
  {
    if hosts != [] && Less(hosts[0].id, e.id) {
      InsertKeepsOrder(e, hosts[1..]);
      assert hosts == [hosts[0]] + hosts[1..];
      FirstBefore(hosts[0], e, hosts[1..]);
      OrderedCons(hosts[0], Inserted(e, hosts[1..]));
    } else if hosts != [] {
      assert !Clash(e, hosts[0]);
      Trichotomy(hosts[0].id, e.id);
      forall f | f in hosts ensures Less(e.id, f.id) {
        var k :| 0 <= k < |hosts| && hosts[k] == f;
        if k > 0 {
          Transitive(e.id, hosts[0].id, f.id);
        }
      }
      OrderedCons(e, hosts);
    }
  }

  lemma InsertMembers(e: Entry, hosts: seq<Entry>)
    ensures forall f :: f in Inserted(e, hosts) <==> f in hosts || f == e
  {
    var r := Inserted(e, hosts);
    forall f ensures f in r <==> f in hosts || f == e {
      assert f in r <==> f in multiset(r);
      assert f in hosts <==> f in multiset(hosts);
    }
  }

  lemma FirstBefore(first: Entry, e: Entry, hosts: seq<Entry>)
    requires Ordered([first] + hosts) && Less(first.id, e.id)
    ensures forall f :: f in Inserted(e, hosts) ==> Less(first.id, f.id)
  {
    InsertMembers(e, hosts);
    forall f | f in hosts ensures Less(first.id, f.id) {
      var k :| 0 <= k < |hosts| && hosts[k] == f;
      assert ([first] + hosts)[0] == first && ([first] + hosts)[k + 1] == f;
    }
  }

  lemma OrderedCons(first: Entry, hosts: seq<Entry>)
    requires Ordered(hosts) && forall f :: f in hosts ==> Less(first.id, f.id)
    ensures Ordered([first] + hosts)
  {
  }

  /** Sorting a list without clashes: a sorted list without clashes of the same hosts. */
  lemma {:induction false} SortKeepsHosts(hosts: seq<Entry>)
    requires Distinct(hosts)
    ensures Distinct(SortedById(hosts)) && Ordered(SortedById(hosts)) && ById(SortedById(hosts)) == ById(hosts)
  {
    if hosts != [] {
      DistinctTail(hosts);
      SortKeepsHosts(hosts[1..]);
      SameMembers(hosts[1..], SortedById(hosts[1..]));
      InsertKeepsOrder(hosts[0], SortedById(hosts[1..]));
      InsertKeepsDistinct(hosts[0], SortedById(hosts[1..]));
      assert forall f :: f in SortedById(hosts[1..]) ==> !Clash(hosts[0], f);
      InsertIsMapUpdate(hosts[0], SortedById(hosts[1..]));
    }
  }

  lemma SortKeepsAccepted(hosts: seq<Entry>, parseIp: ParseIp)
    requires Accepted(hosts, parseIp)
    ensures Accepted(SortedById(hosts), parseIp)
  {
    SortKeepsHosts(hosts);
    SameMembers(hosts, SortedById(hosts));
  }

  // ---- The file ----

  /** Version 1 had no modes; all its entries are OpenSSH aliases. */
  function Migrated(document: Document): seq<Entry>
  {
    if document.version == VERSION_1
    then seq(|document.hosts|, i requires 0 <= i < |document.hosts| => document.hosts[i].(mode := CONFIG))
    else document.hosts
  }

  /** loadLocked. */
  ghost function Loaded(disk: Disk, w: World): Result<seq<Entry>, Error>
  {
    match disk
    case Missing => Ok([])
    case Unsafe => Err(UnsafeStore)
    case Garbled => Err(Corrupt)
    case Stored(document) =>
      if w.size(document) > MAX_BYTES || document.version !in {VERSION, VERSION_1}
        || !Accepted(Migrated(document), w.parseIp)
      then Err(Corrupt) else Ok(Migrated(document))
  }

  function Saved(hosts: seq<Entry>): Document
  {
    Document(VERSION, SortedById(hosts))
  }

  /** The store takes this list. */
  ghost predicate Fits(hosts: seq<Entry>, w: World)
  {
    Accepted(hosts, w.parseIp) && w.size(Saved(hosts)) <= MAX_BYTES
  }

  /** What is saved is loaded again: the same hosts, in order of their ids. */
  lemma SavedIsLoaded(hosts: seq<Entry>, w: World)
    requires Fits(hosts, w)
    ensures Loaded(Stored(Saved(hosts)), w) == Ok(SortedById(hosts))
    ensures multiset(SortedById(hosts)) == multiset(hosts) && Ordered(SortedById(hosts))
    ensures ById(SortedById(hosts)) == ById(hosts)
  {
    SortKeepsAccepted(hosts, w.parseIp);
    LoadsAsStored(Saved(hosts), w);
    SortKeepsHosts(hosts);
  }

  lemma LoadsAsStored(document: Document, w: World)
    requires document.version == VERSION && w.size(document) <= MAX_BYTES && Accepted(document.hosts, w.parseIp)
    ensures Loaded(Stored(document), w) == Ok(document.hosts)
  {
  }

  // ---- The operations ----

  datatype Op =
    | Put(entry: Entry)
    | Remove(id: string)
    | SetLease(id: string, lease: string)
    | SetLayout(id: string, layout: string)

  predicate ValidOp(op: Op, w: World)
  {
    match op
    case Put(e) => ValidEntry(e, w.parseIp)
    case Remove(id) => IsId(id)
    case SetLease(id, _) => IsId(id)
    case SetLayout(id, _) => IsId(id)
  }

  function WithLease(lease: string): Entry -> Entry
  {
    (e: Entry) => e.(leaseId := lease)
  }

  function WithLayout(layout: string): Entry -> Entry
  {
    (e: Entry) => e.(layoutRef := layout)
  }

  /** The list an operation wants saved, if any. */
  function Edited(hosts: seq<Entry>, op: Op): Option<seq<Entry>>
  {
    match op
    case Put(e) => Some(Upserted(hosts, e))
    case Remove(id) => if |Without(hosts, id)| == |hosts| then None else Some(Without(hosts, id))
    case SetLease(id, lease) => if id in ById(hosts) then Some(Mutated(hosts, id, WithLease(lease))) else None
    case SetLayout(id, layout) => if id in ById(hosts) then Some(Mutated(hosts, id, WithLayout(layout))) else None
  }

  /** The same on a map. */
  function EditedMap(m: map<string, Entry>, op: Op): map<string, Entry>
  {
    match op
    case Put(e) => m[e.id := e]
    case Remove(id) => m - {id}
    case SetLease(id, lease) => if id in m then m[id := m[id].(leaseId := lease)] else m
    case SetLayout(id, layout) => if id in m then m[id := m[id].(layoutRef := layout)] else m
  }

  /** The file after an operation; `written` says that writing it would succeed. */
  ghost function After(disk: Disk, op: Op, written: bool, w: World): Disk
  {
    if !ValidOp(op, w) || Loaded(disk, w).Err? then disk
    else
      AfterEdit(disk, Edited(Loaded(disk, w).value, op), written, w)
  }

  ghost function AfterEdit(disk: Disk, edited: Option<seq<Entry>>, written: bool, w: World): Disk
  {
    match edited
    case None => disk
    case Some(hosts) => if Fits(hosts, w) && written then Stored(Saved(hosts)) else disk
  }

  /** The store carries the operation out, if writing succeeds: the request is well formed,
      the file loads, and the edited list is taken.  Removing what is not there is carried
      out; changing what is not there is not. */
  ghost predicate Takes(disk: Disk, op: Op, w: World)
  {
    && ValidOp(op, w) && Loaded(disk, w).Ok?
    && match Edited(Loaded(disk, w).value, op)
       case None => op.Remove?
       case Some(hosts) => Fits(hosts, w)
  }

  /** An answer tells whether the operation was carried out. */
  ghost predicate Reports(disk: Disk, op: Op, w: World, error: Option<Error>)
  {
    if error.None? then Takes(disk, op, w) else Takes(disk, op, w) ==> error.value.NotWritten?
  }

  lemma EditedIsEditedMap(hosts: seq<Entry>, op: Op)
    ensures EditedMap(ById(hosts), op)
         == match Edited(hosts, op) case None => ById(hosts) case Some(edited) => ById(edited)
  {
    match op
    case Put(e) => UpsertIsMapUpdate(hosts, e);
    case Remove(id) =>
      WithoutIsMapRemoval(hosts, id);
    case SetLease(id, lease) => MutatedIsMapUpdate(hosts, id, WithLease(lease));
    case SetLayout(id, layout) => MutatedIsMapUpdate(hosts, id, WithLayout(layout));
  }

  /** Every operation is an edit of the map by id, or leaves the file as it was. */
  lemma OperationRefinesMap(disk: Disk, op: Op, written: bool, w: World)
    requires Loaded(disk, w).Ok?
    ensures var disk' := After(disk, op, written, w);
            && Loaded(disk', w).Ok?
            && (disk' == disk || ById(Loaded(disk', w).value) == EditedMap(ById(Loaded(disk, w).value), op))
  {
    var hosts := Loaded(disk, w).value;
    EditedIsEditedMap(hosts, op);
    match Edited(hosts, op)
    case None =>
    case Some(edited) =>
      if Fits(edited, w) {
        SavedIsLoaded(edited, w);
      }
  }

  // ---- Runs ----

  ghost function Run(disk: Disk, ops: seq<(Op, bool)>, w: World): Disk
    decreases |ops|
  {
    if ops == [] then disk else Run(After(disk, ops[0].0, ops[0].1, w), ops[1..], w)
  }

  /** A store that loads goes on loading through any run, so its ids and connections stay
      apart; one that does not is never overwritten. */
  lemma {:induction false} RunKeepsStore(disk: Disk, ops: seq<(Op, bool)>, w: World)
    ensures var disk' := Run(disk, ops, w);
            match Loaded(disk, w)
            case Err(_) => disk' == disk
            case Ok(_) => Loaded(disk', w).Ok? && Accepted(Loaded(disk', w).value, w.parseIp)
    decreases |ops|
  {
    if ops != [] {
      var next := After(disk, ops[0].0, ops[0].1, w);
      if Loaded(disk, w).Ok? {
        OperationRefinesMap(disk, ops[0].0, ops[0].1, w);
      }
      RunKeepsStore(next, ops[1..], w);
    }
  }

  // ---- When an entry is taken ----

  lemma {:induction false} UpsertedMembers(hosts: seq<Entry>, e: Entry)
    requires Distinct(hosts)
    ensures forall f :: f in Upserted(hosts, e) <==> f == e || (f in hosts && f.id != e.id)
    ensures |Upserted(hosts, e)| == |hosts| + if e.id in ById(hosts) then 0 else 1
  {
    if hosts != [] {
      var rest := hosts[1..];
      DistinctTail(hosts);
      UpsertedMembers(rest, e);
      assert forall f :: f in hosts <==> f == hosts[0] || f in rest;
      assert forall f :: f in rest ==> !Clash(hosts[0], f);
    }
  }

  lemma {:induction false} UpsertedDistinct(hosts: seq<Entry>, e: Entry)
    requires Distinct(hosts)
    ensures Distinct(Upserted(hosts, e))
            <==> forall f :: f in hosts && f.id != e.id ==> ConnectionKey(f) != ConnectionKey(e)
  {
    if hosts != [] {
      var rest, r := hosts[1..], Upserted(hosts, e);
      DistinctTail(hosts);
      DistinctTail(r);
      UpsertedDistinct(rest, e);
      UpsertedMembers(rest, e);
      assert forall f :: f in hosts <==> f == hosts[0] || f in rest;
      assert forall f :: f in rest ==> !Clash(hosts[0], f);
      if hosts[0].id == e.id {
        assert r[1..] == rest;
        assert NoClash(e, rest) <==> forall f :: f in rest ==> ConnectionKey(f) != ConnectionKey(e);
      } else {
        assert r[1..] == Upserted(rest, e);
        assert NoClash(hosts[0], Upserted(rest, e)) <==> !Clash(hosts[0], e);
      }
    }
  }

  /** A valid entry is taken, encoding aside, if and only if there is room and no host with
      another id makes the same connection. */
  lemma UpsertTaken(hosts: seq<Entry>, e: Entry, w: World)
    requires WellBehaved(w.parseIp) && Accepted(hosts, w.parseIp) && ValidEntry(e, w.parseIp)
    ensures Accepted(Upserted(hosts, e), w.parseIp)
            <==> (e.id in ById(hosts) || |hosts| < MAX_HOSTS)
                 && forall f :: f in hosts && f.id != e.id ==> !SameConnection(f, e)
  {
    UpsertedMembers(hosts, e);
    UpsertedDistinct(hosts, e);
    forall f | f in hosts ensures ConnectionKey(f) == ConnectionKey(e) <==> SameConnection(f, e) {
      KeyTellsConnections(f, e, w.parseIp);
    }
  }

  // ---- The store ----

  class RemoteHostStore {
    var disk: Disk
    const w: World

    constructor (disk: Disk, w: World)
      ensures this.disk == disk && this.w == w
    {
      this.disk, this.w := disk, w;
    }

    /** The checks of loadLocked and saveLocked. */
    method Check(hosts: seq<Entry>) returns (error: Option<Error>)
      ensures error.None? <==> Accepted(hosts, w.parseIp)
    {
      if |hosts| > MAX_HOSTS {
        return Some(TooMany);
      }
      var seenIds: set<string>, seenConnections: set<string> := {}, {};
      for i := 0 to |hosts|
        invariant AllValid(hosts[..i], w.parseIp) && Distinct(hosts[..i])
        invariant seenIds == Ids(hosts[..i]) && seenConnections == Keys(hosts[..i])
      {
        PrefixStep(hosts, i, w.parseIp);
        PrefixFails(hosts, i + 1, w.parseIp);
        if !ValidEntry(hosts[i], w.parseIp) {
          return Some(Invalid);
        }
        if hosts[i].id in seenIds {
          return Some(Duplicate);
        }
        seenIds := seenIds + {hosts[i].id};
        var connectionKey := ConnectionKey(hosts[i]);
        if connectionKey in seenConnections {
          return Some(Duplicate);
        }
        seenConnections := seenConnections + {connectionKey};
      }
      assert hosts[..|hosts|] == hosts;
      return None;
    }

    /** Load. */
    method Load() returns (r: Result<seq<Entry>, Error>)
      ensures r == Loaded(disk, w)
    {
      match disk
      case Missing => return Ok([]);
      case Unsafe => return Err(UnsafeStore);
      case Garbled => return Err(Corrupt);
      case Stored(document) =>
        if w.size(document) > MAX_BYTES {
          return Err(Corrupt);
        }
        if document.version != VERSION && document.version != VERSION_1 {
          return Err(Corrupt);
        }
        var hosts := Migrated(document);
        var error := Check(hosts);
        return if error.Some? then Err(Corrupt) else Ok(hosts);
    }

    /** saveLocked; writing the file may fail, which leaves the old one. */
    method Save(hosts: seq<Entry>) returns (error: Option<Error>)
      modifies this
      ensures error.None? ==> Fits(hosts, w) && disk == Stored(Saved(hosts))
      ensures error.Some? ==> disk == old(disk) && (Fits(hosts, w) ==> error.value.NotWritten?)
    {
      error := Check(hosts);
      if error.Some? {
        return;
      }
      var document := Saved(hosts);
      if w.size(document) > MAX_BYTES {
        return Some(TooLarge);
      }
      var written: bool := *;
      if !written {
        return Some(NotWritten);
      }
      disk := Stored(document);
    }

    method Upsert(entry: Entry) returns (error: Option<Error>)
      modifies this
      ensures disk == After(old(disk), Put(entry), error != Some(NotWritten), w)
      ensures Reports(old(disk), Put(entry), w, error)
      ensures error.Some? ==> disk == old(disk)
    {
      if !ValidEntry(entry, w.parseIp) {
        return Some(Invalid);
      }
      var loaded := Load();
      if loaded.Err? {
        return Some(loaded.error);
      }
      var hosts := Replaced(loaded.value, entry);
      error := Save(hosts);
    }

    method Delete(id: string) returns (error: Option<Error>)
      modifies this
      ensures disk == After(old(disk), Remove(id), error != Some(NotWritten), w)
      ensures Reports(old(disk), Remove(id), w, error)
      ensures error.Some? ==> disk == old(disk)
    {
      if !IsId(id) {
        return Some(Invalid);
      }
      var loaded := Load();
      if loaded.Err? {
        return Some(loaded.error);
      }
      var filtered := Filtered(loaded.value, id);
      if |filtered| == |loaded.value| {
        return None;
      }
      error := Save(filtered);
    }

    /** update. */
    method Update(id: string, mutate: Entry -> Entry) returns (error: Option<Error>)
      requires forall e :: mutate(e).id == e.id
      modifies this
      ensures if !IsId(id) || Loaded(old(disk), w).Err? then disk == old(disk) && error.Some?
              else disk == AfterEdit(old(disk), EditedBy(Loaded(old(disk), w).value, id, mutate),
                                     error != Some(NotWritten), w)
                   && ReportsEdit(EditedBy(Loaded(old(disk), w).value, id, mutate), w, error)
      ensures error.Some? ==> disk == old(disk)
    {
      if !IsId(id) {
        return Some(Invalid);
      }
      var loaded := Load();
      if loaded.Err? {
        return Some(loaded.error);
      }
      var hosts := loaded.value;
      var i := Find(hosts, id);
      if i == |hosts| {
        return Some(NotSaved);
      }
      MutatedAt(hosts, id, mutate, i);
      hosts := hosts[i := mutate(hosts[i])];
      if !ValidEntry(hosts[i], w.parseIp) {
        NotAccepted(hosts, i, w.parseIp);
        return Some(Invalid);
      }
      error := Save(hosts);
    }

    method UpdateResumeLease(id: string, lease: string) returns (error: Option<Error>)
      modifies this
      ensures disk == After(old(disk), SetLease(id, lease), error != Some(NotWritten), w)
      ensures Reports(old(disk), SetLease(id, lease), w, error)
      ensures error.Some? ==> disk == old(disk)
    {
      error := Update(id, WithLease(lease));
    }

    method UpdateLayoutRef(id: string, layout: string) returns (error: Option<Error>)
      modifies this
      ensures disk == After(old(disk), SetLayout(id, layout), error != Some(NotWritten), w)
      ensures Reports(old(disk), SetLayout(id, layout), w, error)
      ensures error.Some? ==> disk == old(disk)
    {
      error := Update(id, WithLayout(layout));
    }

    method Get(id: string) returns (r: Result<Option<Entry>, Error>)
      ensures r == if !IsId(id) then Err(Invalid)
                   else
                     match Loaded(disk, w)
                     case Err(error) => Err(error)
                     case Ok(hosts) => Ok(if id in ById(hosts) then Some(ById(hosts)[id]) else None)
    {
      if !IsId(id) {
        return Err(Invalid);
      }
      var loaded := Load();
      if loaded.Err? {
        return Err(loaded.error);
      }
      var hosts := loaded.value;
      var i := Find(hosts, id);
      return Ok(if i < |hosts| then Some(hosts[i]) else None);
    }
  }

  // ---- The loops over the list ----

  /** The loop of Upsert: the first entry with the id is replaced in place. */
  method Replaced(was: seq<Entry>, entry: Entry) returns (hosts: seq<Entry>)
    ensures hosts == Upserted(was, entry)
  {
    hosts := was;
    for i := 0 to |hosts|
      invariant hosts == was && Upserted(was, entry) == was[..i] + Upserted(was[i..], entry)
    {
      if hosts[i].id == entry.id {
        UpsertHit(was, entry, i);
        hosts := hosts[i := entry];
        return;
      }
      UpsertMiss(was, entry, i);
    }
    assert was[..|was|] == was;
    hosts := hosts + [entry];
  }

  /** The loop of Delete. */
  method Filtered(hosts: seq<Entry>, id: string) returns (filtered: seq<Entry>)
    ensures filtered == Without(hosts, id)
  {
    filtered := [];
    for i := 0 to |hosts|
      invariant Without(hosts, id) == filtered + Without(hosts[i..], id)
    {
      assert hosts[i..][0] == hosts[i] && hosts[i..][1..] == hosts[i + 1..];
      if hosts[i].id != id {
        filtered := filtered + [hosts[i]];
      }
    }
  }

  /** The loop of update and Get. */
  method Find(hosts: seq<Entry>, id: string) returns (i: nat)
    ensures i <= |hosts| && forall k :: 0 <= k < i ==> hosts[k].id != id
    ensures i < |hosts| ==> hosts[i].id == id
    ensures (i < |hosts| <==> id in ById(hosts)) && (i < |hosts| ==> ById(hosts)[id] == hosts[i])
  {
    i := 0;
    while i < |hosts|
      invariant i <= |hosts| && forall k :: 0 <= k < i ==> hosts[k].id != id
      invariant id in ById(hosts) <==> id in ById(hosts[i..])
      invariant id in ById(hosts) ==> ById(hosts)[id] == ById(hosts[i..])[id]
    {
      assert hosts[i..][0] == hosts[i] && hosts[i..][1..] == hosts[i + 1..];
      if hosts[i].id == id {
        return;
      }
      i := i + 1;
    }
  }

  ghost predicate AllValid(hosts: seq<Entry>, parseIp: ParseIp)
  {
    forall e :: e in hosts ==> ValidEntry(e, parseIp)
  }

  ghost function Ids(hosts: seq<Entry>): set<string>
  {
    set e | e in hosts :: e.id
  }

  ghost function Keys(hosts: seq<Entry>): set<string>
  {
    set e | e in hosts :: ConnectionKey(e)
  }

  /** What one more entry adds to a checked prefix. */
  lemma PrefixStep(hosts: seq<Entry>, i: nat, parseIp: ParseIp)
    requires i < |hosts|
    ensures AllValid(hosts[..i + 1], parseIp) <==> AllValid(hosts[..i], parseIp) && ValidEntry(hosts[i], parseIp)
    ensures Distinct(hosts[..i + 1])
            <==> Distinct(hosts[..i]) && hosts[i].id !in Ids(hosts[..i]) && ConnectionKey(hosts[i]) !in Keys(hosts[..i])
    ensures Ids(hosts[..i + 1]) == Ids(hosts[..i]) + {hosts[i].id}
    ensures Keys(hosts[..i + 1]) == Keys(hosts[..i]) + {ConnectionKey(hosts[i])}
  {
    var front := hosts[..i];
    assert hosts[..i + 1] == front + [hosts[i]];
    DistinctSnoc(front, hosts[i]);
  }

  lemma DistinctSnoc(front: seq<Entry>, e: Entry)
    ensures Distinct(front + [e]) <==> Distinct(front) && e.id !in Ids(front) && ConnectionKey(e) !in Keys(front)
  {
    var all := front + [e];
    if Distinct(all) {
      forall k | 0 <= k < |front| ensures !Clash(front[k], e) {
        assert !Clash(all[k], all[|front|]);
      }
      forall j, k | 0 <= j < k < |front| ensures !Clash(front[j], front[k]) {
        assert !Clash(all[j], all[k]);
      }
    }
    if Distinct(front) && e.id !in Ids(front) && ConnectionKey(e) !in Keys(front) {
      forall j, k | 0 <= j < k < |all| ensures !Clash(all[j], all[k]) {
        assert all[j] == front[j] && front[j] in front;
        assert k < |front| ==> all[k] == front[k];
      }
    }
  }

  lemma PrefixFails(hosts: seq<Entry>, n: nat, parseIp: ParseIp)
    requires n <= |hosts|
    ensures !AllValid(hosts[..n], parseIp) || !Distinct(hosts[..n]) ==> !Accepted(hosts, parseIp)
  {
    if Distinct(hosts) {
      forall i, j | 0 <= i < j < n ensures !Clash(hosts[..n][i], hosts[..n][j]) {
        assert !Clash(hosts[i], hosts[j]);
      }
    }
  }

  lemma NotAccepted(hosts: seq<Entry>, i: nat, parseIp: ParseIp)
    requires i < |hosts| && !ValidEntry(hosts[i], parseIp)
    ensures !Accepted(hosts, parseIp)
  {
    assert hosts[i] in hosts;
  }

  lemma {:induction false} MutatedAt(hosts: seq<Entry>, id: string, mutate: Entry -> Entry, i: nat)
    requires i < |hosts| && hosts[i].id == id && forall k :: 0 <= k < i ==> hosts[k].id != id
    ensures Mutated(hosts, id, mutate) == hosts[i := mutate(hosts[i])]
  {
    if i > 0 {
      assert forall k :: 0 <= k < |hosts| - 1 ==> hosts[1..][k] == hosts[k + 1];
      MutatedAt(hosts[1..], id, mutate, i - 1);
    }
  }

  ghost function EditedBy(hosts: seq<Entry>, id: string, mutate: Entry -> Entry): Option<seq<Entry>>
  {
    if id in ById(hosts) then Some(Mutated(hosts, id, mutate)) else None
  }

  /** The answer of an update: an unknown id and a refused entry are errors. */
  ghost predicate ReportsEdit(edited: Option<seq<Entry>>, w: World, error: Option<Error>)
  {
    var taken := edited.Some? && Fits(edited.value, w);
    if error.None? then taken else taken ==> error.value.NotWritten?
  }

  lemma UpsertHit(hosts: seq<Entry>, e: Entry, i: nat)
    requires i < |hosts| && hosts[i].id == e.id
    ensures hosts[..i] + Upserted(hosts[i..], e) == hosts[i := e]
  {
    assert hosts[i..][0] == hosts[i] && hosts[i..][1..] == hosts[i + 1..];
    assert Upserted(hosts[i..], e) == [e] + hosts[i + 1..];
  }

  lemma UpsertMiss(hosts: seq<Entry>, e: Entry, i: nat)
    requires i < |hosts| && hosts[i].id != e.id
    ensures hosts[..i] + Upserted(hosts[i..], e) == hosts[..i + 1] + Upserted(hosts[i + 1..], e)
  {
    assert hosts[i..][0] == hosts[i] && hosts[i..][1..] == hosts[i + 1..];
    Regroup(hosts[..i], hosts[i], Upserted(hosts[i + 1..], e));
    assert hosts[..i + 1] == hosts[..i] + [hosts[i]];
  }

  lemma Regroup<T>(a: seq<T>, x: T, b: seq<T>)
    ensures a + ([x] + b) == a + [x] + b
  {
  }
}
