/** Coherence of the cache over every sequential run, and what a partial update leaves alone. */
module CacheLaws {
  import opened Sequences
  import opened UUIDs
  import opened Repository
  import opened RepositoryLaws
  import opened CampaignCache

  datatype Op =
    | Create(c: Campaign)
    | List
    | Get(id: string)
    | Update(c: Campaign)
    | Add(cr: Creative)
    | Patch(id: string, status: Option<string>, budgetCents: Option<int>)
    | ExpireActive
    | ExpireByID(id: string)

  function Do(w: World, op: Op): World {
    match op
    case Create(c) => Created(w, c).0
    case List => Listed(w).0
    case Get(id) => Fetched(w, id).0
    case Update(c) => Changed(w, c).0
    case Add(cr) => CreativeAdded(w, cr).0
    case Patch(id, status, budgetCents) => PatchedWorld(w, id, status, budgetCents).0
    case ExpireActive => w.(cache := Forget(w.cache))
    case ExpireByID(id) => w.(cache := w.cache.(byID := w.cache.byID - {id}))
  }

  /** From a cold cache over any well-keyed database. */
  function Run(db: Database, ops: seq<Op>): World {
    if ops == [] then World(db, Cache(None, map[])) else Do(Run(db, ops[..|ops| - 1]), ops[|ops| - 1])
  }

  // ---------------------------------------------------------------------------------------------
  // Aliases
  // ---------------------------------------------------------------------------------------------

  /** An id in a form other than the one in which it is read back. Only a create caches under an alias, and no
      write refreshes that copy. */
  predicate Alias(id: string) {
    IsUUID(id) && !Canonical(id)
  }

  predicate SameFields(a: Campaign, b: Campaign) {
    a.status == b.status && a.budgetCents == b.budgetCents
  }

  /** The cached aliases whose row was last written, since they were cached, with another status or budget than
      theirs: after a write of `c` to its row, and after any operation. */
  function RowWritten(cache: Cache, overtaken: set<string>, c: Campaign): set<string> {
    set id | id in cache.byID
             && if Alias(id) && SameID(id, c.id) then !SameFields(cache.byID[id], c) else id in overtaken
  }

  function OvertakenAfter(w: World, op: Op, overtaken: set<string>): set<string> {
    match op
    case Update(c) => if Changed(w, c).1.Done? then RowWritten(w.cache, overtaken, c) else overtaken
    case Patch(id, status, budgetCents) =>
      (match Fetched(w, id).1
       case None => overtaken
       case Some(read) => RowWritten(w.cache, overtaken, Overlay(read, status, budgetCents)))
    case ExpireByID(id) => overtaken - {id}
    case _ => overtaken
  }

  function Overtaken(db: Database, ops: seq<Op>): set<string> {
    if ops == [] then {}
    else
      var init := ops[..|ops| - 1];
      OvertakenAfter(Run(db, init), ops[|ops| - 1], Overtaken(db, init))
  }

  // ---------------------------------------------------------------------------------------------
  // Coherence, operation by operation
  // ---------------------------------------------------------------------------------------------

  /** A cached copy of the campaign with this id matches the stored status and budget. */
  ghost predicate Agrees(db: Database, id: string, copy: Campaign) {
    Lookup(db, id).Some? && SameFields(copy, Lookup(db, id).value)
  }

  ghost predicate CopyCoherent(db: Database, id: string, copy: Campaign, overtaken: bool) {
    copy.id == id && Lookup(db, id).Some? && (Agrees(db, id, copy) <==> !overtaken)
  }

  /** The cached list is current, and of the cached copies exactly the overtaken differ in status or budget. */
  ghost predicate Coherent(w: World, overtaken: set<string>) {
    && WellFormed(w.db)
    && (w.cache.active.Some? ==> w.cache.active.value == ActiveList(w.db))
    && (forall id :: id in w.cache.byID ==> CopyCoherent(w.db, id, w.cache.byID[id], id in overtaken))
    && (forall id :: id in overtaken ==> id in w.cache.byID && Alias(id))
  }

  lemma CreateCoherent(w: World, c: Campaign, overtaken: set<string>)
    requires Coherent(w, overtaken)
    ensures Coherent(Created(w, c).0, overtaken)
  {
    InsertedKeepsKeys(w.db, c);
    var (w', outcome) := Created(w, c);
    if outcome.Done? {
      forall id | id in w'.cache.byID ensures CopyCoherent(w'.db, id, w'.cache.byID[id], id in overtaken) {
        LookupInserted(w.db, c, id);
        assert id in w.cache.byID ==> CopyCoherent(w.db, id, w.cache.byID[id], id in overtaken);
        assert !HasRow(w.db, c.id);
      }
    }
  }

  /** A copy that its row's own id is cached under, freshly loaded. */
  lemma LoadedCopy(db: Database, id: string)
    requires HasRow(db, id)
    ensures Lookup(db, id).value.id == Canon(id) && Canonical(Canon(id)) && Lookup(db, Canon(id)) == Lookup(db, id)
  {
    SameFound(db, id);
    CanonIsCanonical(id);
  }

  lemma LoadCoherent(w: World, id: string, overtaken: set<string>)
    requires Coherent(w, overtaken) && HasRow(w.db, id)
    ensures Coherent(w.(cache := Remember(w.cache, Lookup(w.db, id).value)), overtaken)
  {
    LoadedCopy(w.db, id);
    var w', copy := w.(cache := Remember(w.cache, Lookup(w.db, id).value)), Lookup(w.db, id).value;
    assert !Alias(copy.id) && copy.id !in overtaken;
    forall k | k in w'.cache.byID ensures CopyCoherent(w'.db, k, w'.cache.byID[k], k in overtaken) {
      assert k != copy.id ==> CopyCoherent(w.db, k, w.cache.byID[k], k in overtaken);
    }
  }

  lemma FetchCoherent(w: World, id: string, overtaken: set<string>)
    requires Coherent(w, overtaken)
    ensures Coherent(Fetched(w, id).0, overtaken) && Fetched(w, id).0.db == w.db
    ensures Fetched(w, id).1.Some? <==> HasRow(w.db, id)
    ensures Fetched(w, id).1.Some? ==> SameID(id, Fetched(w, id).1.value.id)
    ensures Fetched(w, id).1.Some? ==> (Agrees(w.db, id, Fetched(w, id).1.value) <==> id !in overtaken)
  {
    if id in w.cache.byID {
      assert CopyCoherent(w.db, id, w.cache.byID[id], id in overtaken);
    } else if HasRow(w.db, id) {
      LoadedCopy(w.db, id);
      LoadCoherent(w, id, overtaken);
      CanonIsCanonical(id);
    }
  }

  /** The copy that a write to its row refreshes. */
  lemma ChangeCoherentOwn(w: World, c: Campaign, overtaken: set<string>)
    requires Coherent(w, overtaken) && Updated(w.db, c).1.Done?
    ensures Lookup(Updated(w.db, c).0, c.id).Some?
    ensures Changed(w, c).0.db == Updated(w.db, c).0
    ensures Changed(w, c).0.cache == Remember(Forget(w.cache), Lookup(Updated(w.db, c).0, c.id).value)
    ensures Lookup(Updated(w.db, c).0, c.id).value.id == Canon(c.id)
    ensures CopyCoherent(Updated(w.db, c).0, Canon(c.id), Lookup(Updated(w.db, c).0, c.id).value,
                         Canon(c.id) in RowWritten(w.cache, overtaken, c))
  {
    LookupUpdated(w.db, c, c.id);
    LoadedCopy(Updated(w.db, c).0, c.id);
    assert !Alias(Canon(c.id));
  }

  /** Any other copy after a write to some row. */
  lemma ChangeCoherentOther(w: World, c: Campaign, overtaken: set<string>, id: string)
    requires Coherent(w, overtaken) && Updated(w.db, c).1.Done? && id in w.cache.byID && id != Canon(c.id)
    ensures CopyCoherent(Updated(w.db, c).0, id, w.cache.byID[id], id in RowWritten(w.cache, overtaken, c))
  {
    LookupUpdated(w.db, c, id);
    assert CopyCoherent(w.db, id, w.cache.byID[id], id in overtaken);
    if SameID(id, c.id) {
      assert Alias(id);
    }
  }

  lemma ChangeCoherent(w: World, c: Campaign, overtaken: set<string>)
    requires Coherent(w, overtaken) && Changed(w, c).1.Done?
    ensures Coherent(Changed(w, c).0, RowWritten(w.cache, overtaken, c))
  {
    UpdatedKeepsKeys(w.db, c);
    ChangeCoherentOwn(w, c, overtaken);
    var w' := Changed(w, c).0;
    forall id | id in w'.cache.byID
      ensures CopyCoherent(w'.db, id, w'.cache.byID[id], id in RowWritten(w.cache, overtaken, c))
    {
      if id != Canon(c.id) {
        ChangeCoherentOther(w, c, overtaken, id);
      }
    }
  }

  lemma AddCoherent(w: World, cr: Creative, overtaken: set<string>)
    requires Coherent(w, overtaken)
    ensures Coherent(CreativeAdded(w, cr).0, overtaken)
  {
    WithCreativeKeepsKeys(w.db, cr);
    var (w', outcome) := CreativeAdded(w, cr);
    if outcome.Done? {
      CanonIsCanonical(cr.campaignID);
      forall id | id in w'.cache.byID ensures CopyCoherent(w'.db, id, w'.cache.byID[id], id in overtaken) {
        LookupWithCreative(w.db, cr, id);
        assert id != Canon(cr.campaignID) ==> CopyCoherent(w.db, id, w.cache.byID[id], id in overtaken);
      }
    }
  }

  /** Reading through the cache adds no alias. */
  lemma FetchedRowWritten(w: World, id: string, overtaken: set<string>, c: Campaign)
    requires Coherent(w, overtaken)
    ensures RowWritten(Fetched(w, id).0.cache, overtaken, c) == RowWritten(w.cache, overtaken, c)
  {
    if id !in w.cache.byID && HasRow(w.db, id) {
      LoadedCopy(w.db, id);
      assert !Alias(Canon(id)) && Canon(id) !in overtaken;
      var cache := Fetched(w, id).0.cache;
      forall k ensures k in RowWritten(cache, overtaken, c) <==> k in RowWritten(w.cache, overtaken, c) {
        assert k != Canon(id) ==> (k in cache.byID <==> k in w.cache.byID);
      }
    }
  }

  lemma PatchSucceedsIff(w: World, id: string, status: Option<string>, budgetCents: Option<int>, overtaken: set<string>)
    requires Coherent(w, overtaken)
    ensures PatchedWorld(w, id, status, budgetCents).1.Patched? <==> HasRow(w.db, id)
    ensures !HasRow(w.db, id) ==> PatchedWorld(w, id, status, budgetCents).0 == w && Fetched(w, id).1.None?
    ensures HasRow(w.db, id) ==>
      Fetched(w, id).1.Some? &&
      var w1, camp := Fetched(w, id).0, Overlay(Fetched(w, id).1.value, status, budgetCents);
      && w1.db == w.db && SameID(id, camp.id) && Changed(w1, camp).1.Done?
      && PatchedWorld(w, id, status, budgetCents).0 == Changed(w1, camp).0
  {
    FetchCoherent(w, id, overtaken);
  }

  lemma OvertakenByPatch(w: World, id: string, status: Option<string>, budgetCents: Option<int>, overtaken: set<string>,
                         read: Campaign)
    requires Coherent(w, overtaken) && Fetched(w, id).1 == Some(read)
    ensures OvertakenAfter(w, Patch(id, status, budgetCents), overtaken)
         == RowWritten(Fetched(w, id).0.cache, overtaken, Overlay(read, status, budgetCents))
  {
    FetchedRowWritten(w, id, overtaken, Overlay(read, status, budgetCents));
  }

  /** A PATCH of a stored campaign is a read and then the write of some copy of it. */
  lemma PatchIsWrite(w: World, id: string, status: Option<string>, budgetCents: Option<int>, overtaken: set<string>)
    returns (w1: World, camp: Campaign)
    requires Coherent(w, overtaken) && HasRow(w.db, id)
    ensures w1 == Fetched(w, id).0 && SameID(id, camp.id)
    ensures Changed(w1, camp).1.Done? && Changed(w1, camp).0 == PatchedWorld(w, id, status, budgetCents).0
    ensures RowWritten(w1.cache, overtaken, camp) == OvertakenAfter(w, Patch(id, status, budgetCents), overtaken)
  {
    PatchSucceedsIff(w, id, status, budgetCents, overtaken);
    w1, camp := Fetched(w, id).0, Overlay(Fetched(w, id).1.value, status, budgetCents);
    OvertakenByPatch(w, id, status, budgetCents, overtaken, Fetched(w, id).1.value);
  }

  lemma PatchCoherent(w: World, id: string, status: Option<string>, budgetCents: Option<int>, overtaken: set<string>)
    requires Coherent(w, overtaken)
    ensures Coherent(PatchedWorld(w, id, status, budgetCents).0,
                     OvertakenAfter(w, Patch(id, status, budgetCents), overtaken))
  {
    if HasRow(w.db, id) {
      FetchCoherent(w, id, overtaken);
      var w1, camp := PatchIsWrite(w, id, status, budgetCents, overtaken);
      ChangeCoherent(w1, camp, overtaken);
    } else {
      PatchSucceedsIff(w, id, status, budgetCents, overtaken);
    }
  }

  lemma ExpireCoherent(w: World, id: string, overtaken: set<string>)
    requires Coherent(w, overtaken)
    ensures Coherent(w.(cache := Forget(w.cache)), overtaken)
    ensures Coherent(w.(cache := w.cache.(byID := w.cache.byID - {id})), overtaken - {id})
  {}

  lemma DoKeepsCoherent(w: World, op: Op, overtaken: set<string>)
    requires Coherent(w, overtaken)
    ensures Coherent(Do(w, op), OvertakenAfter(w, op, overtaken))
  {
    match op {
      case Create(c) => CreateCoherent(w, c, overtaken);
      case Update(c) => if Changed(w, c).1.Done? { ChangeCoherent(w, c, overtaken); }
      case Add(cr) => AddCoherent(w, cr, overtaken);
      case Get(id) => FetchCoherent(w, id, overtaken);
      case Patch(id, status, budgetCents) => PatchCoherent(w, id, status, budgetCents, overtaken);
      case ExpireActive => ExpireCoherent(w, "", overtaken);
      case ExpireByID(id) => ExpireCoherent(w, id, overtaken);
      case List =>
    }
  }

  lemma {:induction false} RunCoherent(db: Database, ops: seq<Op>)
    requires WellFormed(db)
    ensures Coherent(Run(db, ops), Overtaken(db, ops))
  {
    if ops != [] {
      var init := ops[..|ops| - 1];
      RunCoherent(db, init);
      DoKeepsCoherent(Run(db, init), ops[|ops| - 1], Overtaken(db, init));
    }
  }

  // ---------------------------------------------------------------------------------------------
  // The whole record
  // ---------------------------------------------------------------------------------------------

  /** A request that the repository stores as it is: it has no creatives, its rules carry its own id, and all its
      UUIDs are in the form in which they are read back. */
  predicate Storable(c: Campaign) {
    && Canonical(c.id) && Canonical(c.advertiserID)
    && c.creatives == []
    && forall i :: 0 <= i < |c.targetingRules| ==>
         c.targetingRules[i].campaignID == c.id && Canonical(c.targetingRules[i].id)
  }

  lemma StoredAsGivenIff(db: Database, c: Campaign)
    requires Insertable(db, c)
    ensures c == StoredCampaign(c) <==> Storable(c)
  {
    var stored := StoredRules(c.targetingRules, Canon(c.id));
    if stored == c.targetingRules && Canon(c.id) == c.id {
      forall i | 0 <= i < |stored|
        ensures c.targetingRules[i].campaignID == c.id && Canonical(c.targetingRules[i].id)
      {
        assert stored[i] == c.targetingRules[i];
      }
    }
    if Storable(c) {
      assert stored == c.targetingRules;
    }
  }

  /** A created campaign is read back as the database holds it exactly when the request was storable. */
  lemma CreatedIsStoredIff(w: World, c: Campaign)
    requires WellFormed(w.db) && Created(w, c).1.Done?
    ensures Fetched(Created(w, c).0, c.id).1 == Lookup(Created(w, c).0.db, c.id) <==> Storable(c)
  {
    LookupInserted(w.db, c, c.id);
    StoredAsGivenIff(w.db, c);
  }

  /** It fails for a request with creatives: they are cached but not stored. */
  lemma CreatedSnapshotIsNotStored(db: Database, c: Campaign)
    requires WellFormed(db) && Created(World(db, Cache(None, map[])), c).1 == Done && c.creatives != []
    ensures var w := Run(db, [Create(c)]);
      && Fetched(w, c.id).1 == Some(c)
      && Lookup(w.db, c.id).Some? && Lookup(w.db, c.id).value.creatives == []
  {
    assert [Create(c)][..0] == [];
    LookupInserted(db, c, c.id);
  }

  /** And for a request without creatives, one of whose rules names another campaign: it is stored under this one. */
  lemma ForeignRuleIsNotStored(db: Database, c: Campaign, i: nat)
    requires WellFormed(db) && Created(World(db, Cache(None, map[])), c).1 == Done
    requires c.creatives == [] && i < |c.targetingRules| && c.targetingRules[i].campaignID != Canon(c.id)
    ensures var w := Run(db, [Create(c)]);
      && Fetched(w, c.id).1 == Some(c)
      && Lookup(w.db, c.id).Some? && |Lookup(w.db, c.id).value.targetingRules| == |c.targetingRules|
      && Lookup(w.db, c.id).value.targetingRules[i].campaignID == Canon(c.id)
  {
    assert [Create(c)][..0] == [];
    LookupInserted(db, c, c.id);
  }

  /** The keys whose cached copy is a snapshot that was not stored as it is: from an unstorable create until the
      copy is refreshed or expires. A write, or a read under another spelling, refreshes the canonical key. */
  function SnapshotsAfter(w: World, op: Op, snapshots: set<string>): set<string> {
    match op
    case Create(c) => if Created(w, c).1.Done? && !Storable(c) then snapshots + {c.id} else snapshots
    case Get(id) => if id in w.cache.byID then snapshots else snapshots - {Canon(id)}
    case Update(c) => snapshots - {Canon(c.id)}
    case Add(cr) => if CreativeAdded(w, cr).1.Done? then snapshots - {Canon(cr.campaignID)} else snapshots
    case Patch(id, _, _) => snapshots - {Canon(id)}
    case ExpireByID(id) => snapshots - {id}
    case _ => snapshots
  }

  function Snapshots(db: Database, ops: seq<Op>): set<string> {
    if ops == [] then {}
    else
      var init := ops[..|ops| - 1];
      SnapshotsAfter(Run(db, init), ops[|ops| - 1], Snapshots(db, init))
  }

  ghost predicate CopyExact(db: Database, id: string, copy: Campaign, snapshot: bool) {
    && copy.id == id
    && Lookup(db, id).Some?
    && (Lookup(db, id).value == copy <==> !snapshot)
  }

  /** Of the cached copies exactly the snapshots differ from what the database holds. */
  ghost predicate Exact(w: World, snapshots: set<string>) {
    && WellFormed(w.db)
    && snapshots <= w.cache.byID.Keys
    && (forall id :: id in w.cache.byID ==> CopyExact(w.db, id, w.cache.byID[id], id in snapshots))
  }

  lemma LoadedCopyExact(db: Database, id: string)
    requires HasRow(db, id)
    ensures Lookup(db, id).value.id == Canon(id) && Canonical(Canon(id))
    ensures CopyExact(db, Canon(id), Lookup(db, id).value, false)
  {
    LoadedCopy(db, id);
  }

  lemma CreateExact(w: World, c: Campaign, snapshots: set<string>)
    requires Exact(w, snapshots)
    ensures Exact(Created(w, c).0, SnapshotsAfter(w, Create(c), snapshots))
  {
    InsertedKeepsKeys(w.db, c);
    var (w', outcome) := Created(w, c);
    if outcome.Done? {
      StoredAsGivenIff(w.db, c);
      forall id | id in w'.cache.byID
        ensures CopyExact(w'.db, id, w'.cache.byID[id], id in SnapshotsAfter(w, Create(c), snapshots))
      {
        LookupInserted(w.db, c, id);
        assert id in w.cache.byID ==> CopyExact(w.db, id, w.cache.byID[id], id in snapshots);
        assert !HasRow(w.db, c.id);
      }
    }
  }

  /** What is not found under any spelling is not cached under the canonical one. */
  lemma NoRowNoCopy(w: World, id: string, snapshots: set<string>)
    requires Exact(w, snapshots) && !HasRow(w.db, id)
    ensures Canon(id) !in w.cache.byID && snapshots - {Canon(id)} == snapshots
  {
    if Canon(id) in w.cache.byID {
      assert CopyExact(w.db, Canon(id), w.cache.byID[Canon(id)], Canon(id) in snapshots);
      if IsUUID(id) { SameFound(w.db, id); }
    }
  }

  lemma LoadExact(w: World, id: string, snapshots: set<string>)
    requires Exact(w, snapshots) && HasRow(w.db, id)
    ensures Exact(w.(cache := Remember(w.cache, Lookup(w.db, id).value)), snapshots - {Canon(id)})
  {
    LoadedCopyExact(w.db, id);
    var w' := w.(cache := Remember(w.cache, Lookup(w.db, id).value));
    forall k | k in w'.cache.byID ensures CopyExact(w'.db, k, w'.cache.byID[k], k in snapshots - {Canon(id)}) {
      assert k != Canon(id) ==> CopyExact(w.db, k, w.cache.byID[k], k in snapshots);
    }
  }

  lemma FetchExact(w: World, id: string, snapshots: set<string>)
    requires Exact(w, snapshots)
    ensures Exact(Fetched(w, id).0, SnapshotsAfter(w, Get(id), snapshots))
    ensures Fetched(w, id).1 == Lookup(w.db, id) <==> id !in snapshots
    ensures Fetched(w, id).1.Some? ==> SameID(id, Fetched(w, id).1.value.id)
  {
    if id in w.cache.byID {
      assert CopyExact(w.db, id, w.cache.byID[id], id in snapshots);
    } else if HasRow(w.db, id) {
      LoadedCopyExact(w.db, id);
      LoadExact(w, id, snapshots);
      CanonIsCanonical(id);
    } else {
      NoRowNoCopy(w, id, snapshots);
    }
  }

  lemma ChangeExactAt(w: World, c: Campaign, snapshots: set<string>, id: string)
    requires Exact(w, snapshots) && Updated(w.db, c).1.Done? && id in Changed(w, c).0.cache.byID
    requires forall k :: k in w.cache.byID && Alias(k) ==> k in snapshots
    ensures CopyExact(Changed(w, c).0.db, id, Changed(w, c).0.cache.byID[id], id in snapshots - {Canon(c.id)})
  {
    LookupUpdated(w.db, c, c.id);
    if id == Canon(c.id) {
      LoadedCopyExact(Changed(w, c).0.db, c.id);
    } else {
      LookupUpdated(w.db, c, id);
      assert CopyExact(w.db, id, w.cache.byID[id], id in snapshots);
    }
  }

  /** A copy under an alias carries the alias, the database the canonical form: it is a snapshot. */
  lemma AliasesAreSnapshots(w: World, snapshots: set<string>)
    requires Exact(w, snapshots)
    ensures forall id :: id in w.cache.byID && Alias(id) ==> id in snapshots
  {
    forall id | id in w.cache.byID && Alias(id) ensures id in snapshots {
      assert CopyExact(w.db, id, w.cache.byID[id], id in snapshots);
    }
  }

  lemma ChangeExact(w: World, c: Campaign, snapshots: set<string>)
    requires Exact(w, snapshots)
    ensures Exact(Changed(w, c).0, snapshots - {Canon(c.id)})
  {
    UpdatedKeepsKeys(w.db, c);
    var (w', outcome) := Changed(w, c);
    if outcome.Done? {
      AliasesAreSnapshots(w, snapshots);
      forall id | id in w'.cache.byID
        ensures CopyExact(w'.db, id, w'.cache.byID[id], id in snapshots - {Canon(c.id)})
      {
        ChangeExactAt(w, c, snapshots, id);
      }
    } else {
      NoRowNoCopy(w, c.id, snapshots);
    }
  }

  lemma AddExactAt(w: World, cr: Creative, snapshots: set<string>, id: string)
    requires Exact(w, snapshots) && WithCreative(w.db, cr).1.Done? && id in CreativeAdded(w, cr).0.cache.byID
    requires forall k :: k in w.cache.byID && Alias(k) ==> k in snapshots
    ensures CopyExact(CreativeAdded(w, cr).0.db, id, CreativeAdded(w, cr).0.cache.byID[id],
                      id in snapshots - {Canon(cr.campaignID)})
  {
    LookupWithCreative(w.db, cr, cr.campaignID);
    if id == Canon(cr.campaignID) {
      LoadedCopyExact(CreativeAdded(w, cr).0.db, cr.campaignID);
    } else {
      LookupWithCreative(w.db, cr, id);
      assert CopyExact(w.db, id, w.cache.byID[id], id in snapshots);
    }
  }

  lemma AddExact(w: World, cr: Creative, snapshots: set<string>)
    requires Exact(w, snapshots)
    ensures Exact(CreativeAdded(w, cr).0, SnapshotsAfter(w, Add(cr), snapshots))
  {
    WithCreativeKeepsKeys(w.db, cr);
    var (w', outcome) := CreativeAdded(w, cr);
    if outcome.Done? {
      AliasesAreSnapshots(w, snapshots);
      forall id | id in w'.cache.byID
        ensures CopyExact(w'.db, id, w'.cache.byID[id], id in snapshots - {Canon(cr.campaignID)})
      {
        AddExactAt(w, cr, snapshots, id);
      }
    }
  }

  lemma ExactPatchIsWrite(w: World, id: string, status: Option<string>, budgetCents: Option<int>,
                          snapshots: set<string>)
    returns (w1: World, camp: Campaign, after: set<string>)
    requires Exact(w, snapshots) && HasRow(w.db, id)
    ensures Exact(w1, after)
    ensures Changed(w1, camp).0 == PatchedWorld(w, id, status, budgetCents).0
    ensures after - {Canon(camp.id)} == snapshots - {Canon(id)}
  {
    FetchExact(w, id, snapshots);
    assert id in w.cache.byID ==> CopyExact(w.db, id, w.cache.byID[id], id in snapshots);
    w1, camp := Fetched(w, id).0, Overlay(Fetched(w, id).1.value, status, budgetCents);
    after := SnapshotsAfter(w, Get(id), snapshots);
  }

  lemma PatchMisses(w: World, id: string, status: Option<string>, budgetCents: Option<int>, snapshots: set<string>)
    requires Exact(w, snapshots) && !HasRow(w.db, id)
    ensures PatchedWorld(w, id, status, budgetCents).0 == w && snapshots - {Canon(id)} == snapshots
  {
    NoRowNoCopy(w, id, snapshots);
    assert id in w.cache.byID ==> CopyExact(w.db, id, w.cache.byID[id], id in snapshots);
  }

  lemma PatchExact(w: World, id: string, status: Option<string>, budgetCents: Option<int>, snapshots: set<string>)
    requires Exact(w, snapshots)
    ensures Exact(PatchedWorld(w, id, status, budgetCents).0, snapshots - {Canon(id)})
  {
    if HasRow(w.db, id) {
      var w1, camp, after := ExactPatchIsWrite(w, id, status, budgetCents, snapshots);
      ChangeExact(w1, camp, after);
    } else {
      PatchMisses(w, id, status, budgetCents, snapshots);
    }
  }

  lemma DoKeepsExact(w: World, op: Op, snapshots: set<string>)
    requires Exact(w, snapshots)
    ensures Exact(Do(w, op), SnapshotsAfter(w, op, snapshots))
  {
    match op {
      case Create(c) => CreateExact(w, c, snapshots);
      case Get(id) => FetchExact(w, id, snapshots);
      case Update(c) => ChangeExact(w, c, snapshots);
      case Add(cr) => AddExact(w, cr, snapshots);
      case Patch(id, status, budgetCents) => PatchExact(w, id, status, budgetCents, snapshots);
      case List =>
      case ExpireActive =>
      case ExpireByID(id) =>
    }
  }

  lemma {:induction false} RunExact(db: Database, ops: seq<Op>)
    requires WellFormed(db)
    ensures Exact(Run(db, ops), Snapshots(db, ops))
  {
    if ops != [] {
      var init := ops[..|ops| - 1];
      RunExact(db, init);
      DoKeepsExact(Run(db, init), ops[|ops| - 1], Snapshots(db, init));
    }
  }

  /** What is read is cached: the same read again answers the same without the database. */
  lemma ReadsAreCached(w: World, id: string)
    ensures var (w', list) := Listed(w); w'.db == w.db && w'.cache.active == Some(list) && Listed(w') == (w', list)
    ensures var (w', copy) := Fetched(w, id);
      && w'.db == w.db
      && (copy.Some? && id !in w.cache.byID ==>
            copy.value.id in w'.cache.byID && w'.cache.byID[copy.value.id] == copy.value)
      && (copy.Some? && (id in w.cache.byID || Canonical(id)) ==> Fetched(w', id) == (w', copy))
  {
    if HasRow(w.db, id) {
      LoadedCopy(w.db, id);
    }
  }

  /** After any sequential run a read by id returns the record as the database holds it, associations included,
      exactly when the copy cached under that text is not an unstorable snapshot still waiting to be refreshed. */
  lemma WholeReadFreshIff(db: Database, ops: seq<Op>, id: string)
    requires WellFormed(db)
    ensures Fetched(Run(db, ops), id).1 == Lookup(Run(db, ops).db, id) <==> id !in Snapshots(db, ops)
  {
    RunExact(db, ops);
    FetchExact(Run(db, ops), id, Snapshots(db, ops));
  }

  /** After any sequential run, under any spelling: a list read is the current active list, and a read by id
      finds exactly the stored campaigns. It returns the stored status and budget exactly when no alias cached by
      a create was overtaken by a write, and the whole record exactly when no unstorable snapshot is cached. */
  lemma ReadsAreFresh(db: Database, ops: seq<Op>, id: string)
    requires WellFormed(db)
    ensures var w := Run(db, ops);
      && Listed(w).1 == ActiveList(w.db)
      && (Fetched(w, id).1.Some? <==> HasRow(w.db, id))
      && (Fetched(w, id).1.Some? ==> (Agrees(w.db, id, Fetched(w, id).1.value) <==> id !in Overtaken(db, ops)))
      && (Fetched(w, id).1 == Lookup(w.db, id) <==> id !in Snapshots(db, ops))
  {
    RunCoherent(db, ops);
    FetchCoherent(Run(db, ops), id, Overtaken(db, ops));
    WholeReadFreshIff(db, ops, id);
  }

  lemma {:induction false} StorableRunsLeaveNoSnapshots(db: Database, ops: seq<Op>)
    requires forall i :: 0 <= i < |ops| && ops[i].Create? ==> Storable(ops[i].c)
    ensures Snapshots(db, ops) == {}
  {
    if ops != [] {
      StorableRunsLeaveNoSnapshots(db, ops[..|ops| - 1]);
    }
  }

  /** In particular every read by id is exact in a run that creates storable campaigns only. */
  lemma WholeReadsAreFresh(db: Database, ops: seq<Op>, id: string)
    requires WellFormed(db)
    requires forall i :: 0 <= i < |ops| && ops[i].Create? ==> Storable(ops[i].c)
    ensures Fetched(Run(db, ops), id).1 == Lookup(Run(db, ops).db, id)
  {
    WholeReadFreshIff(db, ops, id);
    StorableRunsLeaveNoSnapshots(db, ops);
  }

  // ---------------------------------------------------------------------------------------------
  // Creates under canonical ids, and under others
  // ---------------------------------------------------------------------------------------------

  predicate CreatesNoAlias(ops: seq<Op>) {
    forall i :: 0 <= i < |ops| && ops[i].Create? ==> !Alias(ops[i].c.id)
  }

  lemma {:induction false} NoAliasSnapshots(db: Database, ops: seq<Op>)
    requires CreatesNoAlias(ops)
    ensures forall id :: id in Snapshots(db, ops) ==> !Alias(id)
  {
    if ops != [] {
      NoAliasSnapshots(db, ops[..|ops| - 1]);
    }
  }

  /** Without creates under aliases no cached copy is ever overtaken. */
  lemma NoneOvertaken(db: Database, ops: seq<Op>)
    requires WellFormed(db) && CreatesNoAlias(ops)
    ensures Overtaken(db, ops) == {}
  {
    RunCoherent(db, ops);
    RunExact(db, ops);
    AliasesAreSnapshots(Run(db, ops), Snapshots(db, ops));
    NoAliasSnapshots(db, ops);
  }

  lemma PatchKeepsRow(w: World, id: string, status: Option<string>, budgetCents: Option<int>)
    requires HasRow(w.db, id)
    ensures HasRow(PatchedWorld(w, id, status, budgetCents).0.db, id)
  {
    var rows, rows' := w.db.campaigns, PatchedWorld(w, id, status, budgetCents).0.db.campaigns;
    var i :| 0 <= i < |rows| && rows[i].id == Canon(id);
    assert rows'[i].id == Canon(id);
  }

  /** A cold cache. */
  function Cold(db: Database): World {
    World(db, Cache(None, map[]))
  }

  lemma RunOfTwo(db: Database, a: Op, b: Op)
    ensures Run(db, [a, b]) == Do(Do(Cold(db), a), b)
    ensures Run(db, [a]) == Do(Cold(db), a)
  {
    assert [a, b][..1] == [a] && [a][..0] == [];
    assert Run(db, [a]) == Do(Cold(db), a);
  }

  lemma RunOfThree(db: Database, a: Op, b: Op, c: Op)
    ensures Run(db, [a, b, c]) == Do(Do(Do(Cold(db), a), b), c)
  {
    assert [a, b, c][..2] == [a, b];
    RunOfTwo(db, a, b);
  }

  /** A campaign just created is cached as given, and found. */
  lemma JustCreated(db: Database, c: Campaign) returns (w: World)
    requires WellFormed(db) && Insertable(db, c)
    ensures w == Do(Cold(db), Create(c)) && Coherent(w, {}) && HasRow(w.db, c.id)
    ensures c.id in w.cache.byID && w.cache.byID[c.id] == c
  {
    w := Do(Cold(db), Create(c));
    CreateCoherent(Cold(db), c, {});
    LookupInserted(db, c, c.id);
  }

  lemma PatchedReadIff(w: World, overtaken: set<string>, id: string, status: Option<string>, budgetCents: Option<int>,
                       w': World)
    requires Coherent(w, overtaken) && HasRow(w.db, id) && w' == Do(w, Patch(id, status, budgetCents))
    ensures Fetched(w', id).1.Some?
    ensures Agrees(w'.db, id, Fetched(w', id).1.value)
       <==> id !in OvertakenAfter(w, Patch(id, status, budgetCents), overtaken)
  {
    PatchCoherent(w, id, status, budgetCents, overtaken);
    PatchKeepsRow(w, id, status, budgetCents);
    FetchCoherent(w', id, OvertakenAfter(w, Patch(id, status, budgetCents), overtaken));
  }

  lemma OvertakenByOwnPatchIff(w: World, c: Campaign, status: Option<string>, budgetCents: Option<int>)
    requires IsUUID(c.id) && c.id in w.cache.byID && w.cache.byID[c.id] == c
    ensures c.id in OvertakenAfter(w, Patch(c.id, status, budgetCents), {})
       <==> Alias(c.id) && !SameFields(Overlay(c, status, budgetCents), c)
  {
    var camp := Overlay(c, status, budgetCents);
    assert OvertakenAfter(w, Patch(c.id, status, budgetCents), {}) == RowWritten(w.cache, {}, camp);
    assert SameID(c.id, camp.id);
  }

  /** After a create and a PATCH of the same id, that id reads the stored status and budget exactly when it is not
      an alias, or the PATCH changed nothing. */
  lemma AliasReadIff(db: Database, c: Campaign, status: Option<string>, budgetCents: Option<int>, w: World)
    requires WellFormed(db) && Insertable(db, c)
    requires w == Run(db, [Create(c), Patch(c.id, status, budgetCents)])
    ensures Fetched(w, c.id).1.Some?
    ensures Agrees(w.db, c.id, Fetched(w, c.id).1.value)
       <==> !Alias(c.id) || SameFields(Overlay(c, status, budgetCents), c)
  {
    RunOfTwo(db, Create(c), Patch(c.id, status, budgetCents));
    var w1 := JustCreated(db, c);
    PatchedReadIff(w1, {}, c.id, status, budgetCents, w);
    OvertakenByOwnPatchIff(w1, c, status, budgetCents);
  }

  /** The write of a copy under an alias changes the row and refreshes another key. */
  lemma AliasWritten(w: World, c: Campaign)
    requires Alias(c.id) && HasRow(w.db, c.id)
    ensures var w' := Changed(w, c).0;
      && w'.db == Updated(w.db, c).0 && Lookup(w'.db, c.id).Some? && SameFields(Lookup(w'.db, c.id).value, c)
      && (c.id in w.cache.byID ==> c.id in w'.cache.byID && w'.cache.byID[c.id] == w.cache.byID[c.id])
  {
    LookupUpdated(w.db, c, c.id);
    LoadedCopy(Updated(w.db, c).0, c.id);
  }

  /** A PATCH of a cached alias writes the overlaid copy to the row and leaves the copy as it was. */
  lemma AliasPatched(w: World, copy: Campaign, status: Option<string>, budgetCents: Option<int>) returns (w': World)
    requires Alias(copy.id) && copy.id in w.cache.byID && w.cache.byID[copy.id] == copy && HasRow(w.db, copy.id)
    ensures w' == Do(w, Patch(copy.id, status, budgetCents))
    ensures Fetched(w', copy.id).1 == Some(copy) && copy.id in w'.cache.byID && w'.cache.byID[copy.id] == copy
    ensures HasRow(w'.db, copy.id) && SameFields(Lookup(w'.db, copy.id).value, Overlay(copy, status, budgetCents))
  {
    w' := Changed(w, Overlay(copy, status, budgetCents)).0;
    AliasWritten(w, Overlay(copy, status, budgetCents));
  }

  /** A create under an alias, a PATCH of its status, a PATCH of its budget, all by the same id: the second PATCH
      writes the first status back. */
  lemma AliasPatchReverts(db: Database, c: Campaign, status: string, budgetCents: int)
    requires WellFormed(db) && Insertable(db, c) && Alias(c.id)
    ensures var w := Run(db, [Create(c), Patch(c.id, Some(status), None)]);
      && Lookup(w.db, c.id).Some? && Lookup(w.db, c.id).value.status == status
      && Fetched(w, c.id).1 == Some(c)
    ensures var w := Run(db, [Create(c), Patch(c.id, Some(status), None), Patch(c.id, None, Some(budgetCents))]);
      Lookup(w.db, c.id).Some? && Lookup(w.db, c.id).value.status == c.status
  {
    var first, second := Patch(c.id, Some(status), None), Patch(c.id, None, Some(budgetCents));
    RunOfTwo(db, Create(c), first);
    RunOfThree(db, Create(c), first, second);
    var w1 := JustCreated(db, c);
    var w2 := AliasPatched(w1, c, Some(status), None);
    var w3 := AliasPatched(w2, c, None, Some(budgetCents));
  }

  /** One client, one campaign with an id in upper case, no failure: paused, then given a budget, it is active. */
  lemma UpperCaseRun() returns (db: Database, c: Campaign)
    ensures WellFormed(db) && Insertable(db, c) && c.status == ACTIVE
    ensures var w := Run(db, [Create(c), Patch(c.id, Some("paused"), None)]);
      && Fetched(w, c.id).1 == Some(c)
      && Lookup(w.db, c.id).Some? && Lookup(w.db, c.id).value.status == "paused"
    ensures var w := Run(db, [Create(c), Patch(c.id, Some("paused"), None), Patch(c.id, None, Some(1))]);
      Lookup(w.db, c.id).Some? && Lookup(w.db, c.id).value.status == ACTIVE
  {
    var id := UpperCaseIsAlias();
    db, c := Database([], [], []), Campaign(id, "", id, ACTIVE, 0, 0, 1.0, 0, 0, 0, [], []);
    AliasPatchReverts(db, c, "paused", 1);
  }

  // ---------------------------------------------------------------------------------------------
  // Partial updates
  // ---------------------------------------------------------------------------------------------

  /** The stored rows with only the given fields of one campaign changed. */
  function RowsPatched(rows: seq<Campaign>, id: string, status: Option<string>, budgetCents: Option<int>)
    : seq<Campaign>
  {
    seq(|rows|, i requires 0 <= i < |rows| =>
      if rows[i].id == id then Overlay(rows[i], status, budgetCents) else rows[i])
  }

  function DatabasePatched(db: Database, id: string, status: Option<string>, budgetCents: Option<int>): Database {
    db.(campaigns := RowsPatched(db.campaigns, Canon(id), status, budgetCents))
  }

  /** The fields that a PATCH does not give are the same in the copy it read and in the record it writes to. */
  predicate UngivenSame(read: Campaign, stored: Campaign, status: Option<string>, budgetCents: Option<int>) {
    && (status.None? ==> read.status == stored.status)
    && (budgetCents.None? ==> read.budgetCents == stored.budgetCents)
  }

  lemma RowWriteIff(rows: seq<Campaign>, id: string, newStatus: string, newBudget: int,
                    status: Option<string>, budgetCents: Option<int>)
    requires UniqueIDs(rows) && HasCampaign(rows, id)
    requires (status.Some? ==> newStatus == status.value) && (budgetCents.Some? ==> newBudget == budgetCents.value)
    ensures var row := FindRow(rows, id).value;
      SetStatusAndBudget(rows, id, newStatus, newBudget) == RowsPatched(rows, id, status, budgetCents)
      <==> (status.None? ==> newStatus == row.status) && (budgetCents.None? ==> newBudget == row.budgetCents)
  {
    var row := FindRow(rows, id).value;
    var i :| 0 <= i < |rows| && rows[i] == row;
    var after, wanted := SetStatusAndBudget(rows, id, newStatus, newBudget), RowsPatched(rows, id, status, budgetCents);
    assert after[i] == row.(status := newStatus, budgetCents := newBudget);
    assert wanted[i] == Overlay(row, status, budgetCents);
    forall k | 0 <= k < |after| ensures after[k] == wanted[k] <==> k != i || after[i] == wanted[i] {
      assert rows[k].id == id ==> k == i;
    }
    assert after == wanted <==> after[i] == wanted[i];
  }

  /** Writing back an overlaid copy, whenever and however it was read, changes exactly the given fields if and
      only if the copy holds the stored value of each field not given. */
  lemma WriteBackFrameIff(db: Database, read: Campaign, status: Option<string>, budgetCents: Option<int>)
    requires WellFormed(db) && HasRow(db, read.id)
    ensures Updated(db, Overlay(read, status, budgetCents)).0 == DatabasePatched(db, read.id, status, budgetCents)
       <==> UngivenSame(read, Lookup(db, read.id).value, status, budgetCents)
  {
    var id, camp := Canon(read.id), Overlay(read, status, budgetCents);
    RowWriteIff(db.campaigns, id, camp.status, camp.budgetCents, status, budgetCents);
  }

  /** In any world whose cached copies carry the id of their key, coherent or not, an uninterrupted PATCH changes
      exactly the fields it gives if and only if the cached copy, if any, holds the stored value of the others. */
  lemma PatchFrameIff(w: World, id: string, status: Option<string>, budgetCents: Option<int>)
    requires WellFormed(w.db) && HasRow(w.db, id)
    requires id in w.cache.byID ==> w.cache.byID[id].id == id
    ensures PatchedWorld(w, id, status, budgetCents).0.db == DatabasePatched(w.db, id, status, budgetCents)
       <==> (id in w.cache.byID ==> UngivenSame(w.cache.byID[id], Lookup(w.db, id).value, status, budgetCents))
  {
    var read := Fetched(w, id).1.value;
    if id !in w.cache.byID {
      LoadedCopyExact(w.db, id);
    }
    assert Canon(read.id) == Canon(id) && HasRow(w.db, read.id);
    WriteBackFrameIff(w.db, read, status, budgetCents);
  }

  /** After any sequential run, a PATCH of a stored campaign, under any spelling of its id, succeeds. It changes the
      given fields of that campaign and nothing else in the database exactly when no alias cached by a create was
      overtaken, or the overtaken copy still holds the stored values of the fields not given. */
  lemma PatchTouchesOnlyGivenFields(db: Database, ops: seq<Op>, id: string, status: Option<string>,
                                    budgetCents: Option<int>)
    requires WellFormed(db) && HasRow(Run(db, ops).db, id)
    ensures var w := Run(db, ops);
      && Fetched(w, id).1.Some?
      && PatchedWorld(w, id, status, budgetCents).1.Patched?
      && (PatchedWorld(w, id, status, budgetCents).0.db == DatabasePatched(w.db, id, status, budgetCents)
          <==> id !in Overtaken(db, ops)
               || UngivenSame(Fetched(w, id).1.value, Lookup(w.db, id).value, status, budgetCents))
  {
    RunCoherent(db, ops);
    var w := Run(db, ops);
    FetchCoherent(w, id, Overtaken(db, ops));
    PatchCoherent(w, id, status, budgetCents, Overtaken(db, ops));
    assert id in w.cache.byID ==> CopyCoherent(w.db, id, w.cache.byID[id], id in Overtaken(db, ops));
    PatchFrameIff(w, id, status, budgetCents);
  }

  /** In a run whose creates carry canonical ids, a read under any spelling returns the stored status and budget,
      and a PATCH under any spelling changes the given fields of its campaign and nothing else. */
  lemma CanonicalRunsAreFresh(db: Database, ops: seq<Op>, id: string, status: Option<string>, budgetCents: Option<int>)
    requires WellFormed(db) && CreatesNoAlias(ops) && HasRow(Run(db, ops).db, id)
    ensures var w := Run(db, ops);
      && Fetched(w, id).1.Some? && Agrees(w.db, id, Fetched(w, id).1.value)
      && PatchedWorld(w, id, status, budgetCents).1.Patched?
      && PatchedWorld(w, id, status, budgetCents).0.db == DatabasePatched(w.db, id, status, budgetCents)
  {
    NoneOvertaken(db, ops);
    RunCoherent(db, ops);
    FetchCoherent(Run(db, ops), id, {});
    PatchTouchesOnlyGivenFields(db, ops, id, status, budgetCents);
  }

  lemma PatchResponse(w: World, overtaken: set<string>, id: string, status: Option<string>, budgetCents: Option<int>,
                      w': World, response: Response)
    requires Coherent(w, overtaken) && (w', response) == PatchedWorld(w, id, status, budgetCents)
    ensures response.Patched? <==> HasRow(w.db, id)
    ensures response.Failed? <==> !IsUUID(id)
    ensures response.Patched? ==>
      && Fetched(w, id).1.Some? && Overlaid(response.camp, Fetched(w, id).1.value, status, budgetCents)
      && Lookup(w'.db, id).Some?
      && response.camp.status == Lookup(w'.db, id).value.status
      && response.camp.budgetCents == Lookup(w'.db, id).value.budgetCents
  {
    PatchSucceedsIff(w, id, status, budgetCents, overtaken);
    assert id in w.cache.byID ==> CopyCoherent(w.db, id, w.cache.byID[id], id in overtaken);
    if response.Patched? {
      LookupUpdated(w.db, response.camp, id);
    }
  }

  /** After any run a PATCH is answered with a campaign exactly when it is stored, and with an error other than "not
      found" exactly when the id is no UUID. The campaign answered is the copy that was read with the given fields
      as given, and its status and budget are those now stored. In a run whose creates carry canonical ids those
      not given are the earlier stored ones, and if the copy was no unstorable snapshot so is all the rest. */
  lemma PatchAnswersWhatIsStored(db: Database, ops: seq<Op>, id: string, status: Option<string>,
                                 budgetCents: Option<int>, w: World, w': World, response: Response)
    requires WellFormed(db) && w == Run(db, ops) && (w', response) == PatchedWorld(w, id, status, budgetCents)
    ensures response.Patched? <==> HasRow(w.db, id)
    ensures response.Failed? <==> !IsUUID(id)
    ensures response.Patched? ==>
      && Fetched(w, id).1.Some? && Overlaid(response.camp, Fetched(w, id).1.value, status, budgetCents)
      && Lookup(w'.db, id).Some?
      && response.camp.status == Lookup(w'.db, id).value.status
      && response.camp.budgetCents == Lookup(w'.db, id).value.budgetCents
    ensures response.Patched? && CreatesNoAlias(ops) ==>
      && (status.None? ==> response.camp.status == Lookup(w.db, id).value.status)
      && (budgetCents.None? ==> response.camp.budgetCents == Lookup(w.db, id).value.budgetCents)
    ensures response.Patched? && id !in Snapshots(db, ops) ==>
      Overlaid(response.camp, Lookup(w.db, id).value, status, budgetCents)
  {
    RunCoherent(db, ops);
    PatchResponse(w, Overtaken(db, ops), id, status, budgetCents, w', response);
    FetchCoherent(w, id, Overtaken(db, ops));
    WholeReadFreshIff(db, ops, id);
    if CreatesNoAlias(ops) {
      NoneOvertaken(db, ops);
    }
  }

  lemma DoKeepsRows(w: World, op: Op, id: string)
    requires HasRow(w.db, id)
    ensures HasRow(Do(w, op).db, id)
  {
    var rows, rows' := w.db.campaigns, Do(w, op).db.campaigns;
    var i :| 0 <= i < |rows| && rows[i].id == Canon(id);
    assert rows'[i].id == Canon(id);
  }

  lemma {:induction false} RunKeepsRows(db: Database, ops: seq<Op>, more: seq<Op>, id: string)
    requires HasRow(Run(db, ops).db, id)
    ensures HasRow(Run(db, ops + more).db, id)
  {
    if more == [] {
      assert ops + more == ops;
    } else {
      var n := |more| - 1;
      assert (ops + more)[..|ops + more| - 1] == ops + more[..n];
      RunKeepsRows(db, ops, more[..n], id);
      DoKeepsRows(Run(db, ops + more[..n]), more[n], id);
    }
  }

  /** The write of an overlaid copy changes exactly the given fields of its campaign. */
  ghost predicate WritesOnlyGiven(w: World, read: Campaign, status: Option<string>, budgetCents: Option<int>) {
    Changed(w, Overlay(read, status, budgetCents)).0.db == DatabasePatched(w.db, read.id, status, budgetCents)
  }

  /** What a by-id read returns, and the record that is stored. */
  ghost predicate Reads(w: World, id: string, read: Campaign, stored: Campaign) {
    Fetched(w, id).1 == Some(read) && Lookup(w.db, id) == Some(stored)
  }

  lemma LateWriteFrameIff(before: World, overtaken: set<string>, later: World, id: string, read: Campaign,
                          stored1: Campaign, stored2: Campaign, status: Option<string>, budgetCents: Option<int>)
    requires Coherent(before, overtaken) && Reads(before, id, read, stored1)
    requires WellFormed(later.db) && Lookup(later.db, id) == Some(stored2)
    ensures WritesOnlyGiven(later, read, status, budgetCents) <==> UngivenSame(read, stored2, status, budgetCents)
    ensures id !in overtaken ==> SameFields(read, stored1)
  {
    FetchCoherent(before, id, overtaken);
    WriteBackFrameIff(later.db, read, status, budgetCents);
  }

  /** A PATCH that reads after any run `ops` and writes after any further operations `more`, other PATCHes' reads
      and writes among them: the campaign is still there, and the write changes exactly the given fields if and only
      if the copy it read holds the others' stored values. Unless that copy was an overtaken alias, this says that
      those values are the same again as when it read. */
  lemma InterruptedPatchFrameIff(db: Database, ops: seq<Op>, more: seq<Op>, id: string, read: Campaign,
                                 stored: Campaign, status: Option<string>, budgetCents: Option<int>)
    requires WellFormed(db) && Reads(Run(db, ops), id, read, stored)
    ensures var later := Run(db, ops + [Get(id)] + more);
      && Lookup(later.db, id).Some?
      && (WritesOnlyGiven(later, read, status, budgetCents)
          <==> UngivenSame(read, Lookup(later.db, id).value, status, budgetCents))
      && (id !in Overtaken(db, ops) ==>
            (WritesOnlyGiven(later, read, status, budgetCents)
             <==> UngivenSame(stored, Lookup(later.db, id).value, status, budgetCents)))
  {
    RunCoherent(db, ops);
    RunCoherent(db, ops + [Get(id)] + more);
    assert ops + [Get(id)] + more == ops + ([Get(id)] + more);
    RunKeepsRows(db, ops, [Get(id)] + more, id);
    var later := Run(db, ops + [Get(id)] + more);
    LateWriteFrameIff(Run(db, ops), Overtaken(db, ops), later, id, read, stored, Lookup(later.db, id).value,
                      status, budgetCents);
  }

  lemma OverwrittenRows(rows: seq<Campaign>, id: string, status1: string, budget1: int, status2: string, budget2: int)
    ensures SetStatusAndBudget(SetStatusAndBudget(rows, id, status1, budget1), id, status2, budget2)
         == SetStatusAndBudget(rows, id, status2, budget2)
  {}

  /** Two PATCHes that read the same copy before either writes: the first leaves no trace, whatever fields each
      gives. The outcome is that of running them one after the other exactly when no field given by the first
      alone changes by it. */
  lemma InterleavedPatchesLoseTheFirst(db: Database, read: Campaign, status1: Option<string>, budget1: Option<int>,
                                       status2: Option<string>, budget2: Option<int>)
    requires WellFormed(db) && Lookup(db, read.id) == Some(read)
    ensures var first, second := Overlay(read, status1, budget1), Overlay(read, status2, budget2);
      var interleaved := Updated(Updated(db, first).0, second).0;
      && interleaved == Updated(db, second).0
      && (Lookup(interleaved, read.id) == Some(Overlay(first, status2, budget2))
          <==> && (status1.Some? && status2.None? ==> status1.value == read.status)
               && (budget1.Some? && budget2.None? ==> budget1.value == read.budgetCents))
  {
    var first, second := Overlay(read, status1, budget1), Overlay(read, status2, budget2);
    UpdatedKeepsKeys(db, first);
    OverwrittenRows(db.campaigns, Canon(read.id), first.status, first.budgetCents, second.status, second.budgetCents);
    LookupUpdated(db, second, read.id);
  }
}
