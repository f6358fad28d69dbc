/** The batched load agrees with the simple one, and writes keep the schema's keys. */
module RepositoryLaws {
  import opened Sequences
  import opened UUIDs
  import opened Repository

  // ---------------------------------------------------------------------------------------------
  // Writes keep the keys
  // ---------------------------------------------------------------------------------------------

  lemma HasCampaignGrows(rows: seq<Campaign>, more: seq<Campaign>, id: string)
    requires HasCampaign(rows, id)
    ensures HasCampaign(rows + more, id)
  {
    var i :| 0 <= i < |rows| && rows[i].id == id;
    assert (rows + more)[i].id == id;
  }

  lemma RulesStayUnique(existing: seq<TargetingRule>, rows: seq<TargetingRule>)
    requires forall i, j :: 0 <= i < j < |existing| ==> existing[i].id != existing[j].id
    requires FreshRules(existing, rows)
    ensures var all := existing + rows; forall i, j :: 0 <= i < j < |all| ==> all[i].id != all[j].id
  {
    var all := existing + rows;
    forall i, j | 0 <= i < j < |all| ensures all[i].id != all[j].id {
      if i < |existing| <= j {
        assert !HasRule(existing, rows[j - |existing|].id);
      }
    }
  }

  lemma InsertedKeepsKeys(db: Database, c: Campaign)
    requires WellFormed(db)
    ensures WellFormed(Inserted(db, c).0)
  {
    var (db', outcome) := Inserted(db, c);
    if outcome.Done? {
      var id := Canon(c.id);
      CanonIsCanonical(c.id);
      forall other | HasCampaign(db.campaigns, other) ensures HasCampaign(db'.campaigns, other) {
        HasCampaignGrows(db.campaigns, [StoredRow(c)], other);
      }
      assert db'.campaigns[|db.campaigns|].id == id;
      assert forall i :: 0 <= i < |db.campaigns| ==> db.campaigns[i].id != id;
      RulesStayUnique(db.rules, StoredRules(c.targetingRules, id));
    }
  }

  lemma SameIDsSameCampaigns(rows: seq<Campaign>, rows': seq<Campaign>)
    requires |rows| == |rows'| && forall i :: 0 <= i < |rows| ==> rows[i].id == rows'[i].id
    ensures forall id :: HasCampaign(rows, id) <==> HasCampaign(rows', id)
    ensures CanonicalIDs(rows) ==> CanonicalIDs(rows')
  {}

  lemma UpdatedKeepsKeys(db: Database, c: Campaign)
    requires WellFormed(db)
    ensures WellFormed(Updated(db, c).0)
    ensures forall id :: HasCampaign(db.campaigns, id) <==> HasCampaign(Updated(db, c).0.campaigns, id)
  {
    SameIDsSameCampaigns(db.campaigns, Updated(db, c).0.campaigns);
  }

  lemma WithCreativeKeepsKeys(db: Database, cr: Creative)
    requires WellFormed(db)
    ensures WellFormed(WithCreative(db, cr).0)
  {}

  // ---------------------------------------------------------------------------------------------
  // What each write does to a lookup
  // ---------------------------------------------------------------------------------------------

  lemma {:induction false} FindRowAppended(rows: seq<Campaign>, row: Campaign, id: string)
    ensures FindRow(rows + [row], id)
         == if HasCampaign(rows, id) then FindRow(rows, id) else if row.id == id then Some(row) else None
  {
    if rows == [] {
      assert rows + [row] == [row];
    } else {
      assert (rows + [row])[1..] == rows[1..] + [row];
      FindRowAppended(rows[1..], row, id);
      assert rows == [rows[0]] + rows[1..];
      assert HasCampaign(rows[1..], id) ==> HasCampaign(rows, id) by {
        if HasCampaign(rows[1..], id) {
          var i :| 0 <= i < |rows[1..]| && rows[1..][i].id == id;
          assert rows[i + 1].id == id;
        }
      }
    }
  }

  lemma {:induction false} FindRowUpdated(rows: seq<Campaign>, changed: string, status: string, budgetCents: int,
                                          id: string)
    ensures FindRow(SetStatusAndBudget(rows, changed, status, budgetCents), id)
         == match FindRow(rows, id)
            case None => None
            case Some(row) => Some(if id == changed then row.(status := status, budgetCents := budgetCents) else row)
  {
    if rows != [] {
      FindRowUpdated(rows[1..], changed, status, budgetCents, id);
      assert SetStatusAndBudget(rows, changed, status, budgetCents)[1..]
          == SetStatusAndBudget(rows[1..], changed, status, budgetCents);
    }
  }

  lemma {:induction false} RulesAllOf(rows: seq<TargetingRule>, id: string, other: string)
    requires forall i :: 0 <= i < |rows| ==> rows[i].campaignID == id
    ensures RulesOf(rows, other) == if other == id then rows else []
  {
    if rows != [] {
      RulesAllOf(rows[..|rows| - 1], id, other);
      SplitLast(rows);
    }
  }

  lemma NoAssociations(db: Database, id: string)
    requires WellFormed(db) && !HasCampaign(db.campaigns, id)
    ensures CreativesOf(db.creatives, id) == [] && RulesOf(db.rules, id) == []
  {
    FilterNone((c: Creative) => c.campaignID == id, db.creatives);
    FilterNone((r: TargetingRule) => r.campaignID == id, db.rules);
  }

  lemma RulesAfterInsert(rules: seq<TargetingRule>, more: seq<TargetingRule>, changed: string, id: string)
    ensures RulesOf(rules + StoredRules(more, changed), id)
         == RulesOf(rules, id) + if id == changed then StoredRules(more, changed) else []
  {
    FilterAppend((r: TargetingRule) => r.campaignID == id, rules, StoredRules(more, changed));
    RulesAllOf(StoredRules(more, changed), changed, id);
  }

  /** What a created campaign is read back as. */
  function StoredCampaign(c: Campaign): Campaign {
    StoredRow(c).(targetingRules := StoredRules(c.targetingRules, Canon(c.id)))
  }

  lemma LookupOfInserted(db: Database, c: Campaign, id: string)
    requires WellFormed(db) && Inserted(db, c).1.Done? && SameID(id, c.id)
    ensures Lookup(Inserted(db, c).0, id) == Some(StoredCampaign(c))
  {
    var rowID := Canon(c.id);
    FindRowAppended(db.campaigns, StoredRow(c), rowID);
    RulesAfterInsert(db.rules, c.targetingRules, rowID, rowID);
    NoAssociations(db, rowID);
    assert [] + StoredRules(c.targetingRules, rowID) == StoredRules(c.targetingRules, rowID);
  }

  lemma LookupBesideInserted(db: Database, c: Campaign, id: string)
    requires WellFormed(db) && Inserted(db, c).1.Done? && !SameID(id, c.id)
    ensures Lookup(Inserted(db, c).0, id) == Lookup(db, id)
  {
    if IsUUID(id) {
      FindRowAppended(db.campaigns, StoredRow(c), Canon(id));
      RulesAfterInsert(db.rules, c.targetingRules, Canon(c.id), Canon(id));
      assert RulesOf(db.rules, Canon(id)) + [] == RulesOf(db.rules, Canon(id));
    }
  }

  /** A created campaign is found, under every spelling of its id, without creatives and with its rules under its
      own id, all UUIDs in the form in which they are read back; no other lookup changes. */
  lemma LookupInserted(db: Database, c: Campaign, id: string)
    requires WellFormed(db) && Inserted(db, c).1.Done?
    ensures Lookup(Inserted(db, c).0, id) == if SameID(id, c.id) then Some(StoredCampaign(c)) else Lookup(db, id)
  {
    if SameID(id, c.id) {
      LookupOfInserted(db, c, id);
    } else {
      LookupBesideInserted(db, c, id);
    }
  }

  /** An update changes status and budget of what is found under any spelling of its id, and no other lookup. */
  lemma LookupUpdated(db: Database, c: Campaign, id: string)
    requires Updated(db, c).1.Done?
    ensures Lookup(db, c.id).Some? && (SameID(id, c.id) ==> Lookup(db, id).Some?)
    ensures Lookup(Updated(db, c).0, id)
         == if SameID(id, c.id) then Some(Lookup(db, id).value.(status := c.status, budgetCents := c.budgetCents))
            else Lookup(db, id)
  {
    FindRowUpdated(db.campaigns, Canon(c.id), c.status, c.budgetCents, Canon(id));
  }

  /** A creative is added to what is found under any spelling of its campaign's id, and to no other lookup. */
  lemma LookupWithCreative(db: Database, cr: Creative, id: string)
    requires WithCreative(db, cr).1.Done?
    ensures Lookup(db, cr.campaignID).Some? && (SameID(id, cr.campaignID) ==> Lookup(db, id).Some?)
    ensures var found := Lookup(db, id);
      Lookup(WithCreative(db, cr).0, id)
      == if SameID(id, cr.campaignID)
         then Some(found.value.(creatives := found.value.creatives + [StoredCreative(cr)])) else found
  {
    var rows := db.creatives;
    assert (rows + [StoredCreative(cr)])[..|rows|] == rows;
    assert CreativesOf(rows, Canon(id)) + [] == CreativesOf(rows, Canon(id));
  }

  // ---------------------------------------------------------------------------------------------
  // What is kept of what is given, and when a write succeeds
  // ---------------------------------------------------------------------------------------------

  /** Adding a creative appends one to its campaign's, under every spelling, and it is the given one; a creative
      with canonical ids comes back as it was given. */
  lemma AddedCreativeKept(db: Database, cr: Creative, id: string) returns (x: Creative)
    requires WithCreative(db, cr).1.Done? && SameID(id, cr.campaignID)
    ensures Lookup(db, id).Some? && Lookup(WithCreative(db, cr).0, id).Some?
    ensures Lookup(WithCreative(db, cr).0, id).value.creatives == Lookup(db, id).value.creatives + [x]
    ensures KeepsCreative(x, cr)
    ensures Canonical(cr.id) && Canonical(cr.campaignID) ==> x == cr
  {
    LookupWithCreative(db, cr, id);
    CanonIsCanonical(cr.id);
    CanonIsCanonical(cr.campaignID);
    x := StoredCreative(cr);
  }

  ghost predicate KeepsRule(stored: TargetingRule, given: TargetingRule, campaignID: string) {
    && SameID(stored.id, given.id) && stored.campaignID == campaignID
    && stored.ruleType == given.ruleType && stored.ruleValue == given.ruleValue && stored.createdAt == given.createdAt
  }

  /** A created campaign is found with the given values, the given rules and no creatives. */
  lemma CreatedCampaignKept(db: Database, c: Campaign, id: string)
    requires WellFormed(db) && Inserted(db, c).1.Done? && SameID(id, c.id)
    ensures Lookup(Inserted(db, c).0, id).Some?
    ensures var r := Lookup(Inserted(db, c).0, id).value;
      && SameID(r.id, c.id) && SameID(r.advertiserID, c.advertiserID)
      && r.name == c.name && r.status == c.status
      && r.budgetCents == c.budgetCents && r.spentCents == c.spentCents && r.bidPriceCPM == c.bidPriceCPM
      && r.startDate == c.startDate && r.endDate == c.endDate && r.createdAt == c.createdAt
      && r.creatives == []
      && |r.targetingRules| == |c.targetingRules|
      && forall i :: 0 <= i < |c.targetingRules| ==> KeepsRule(r.targetingRules[i], c.targetingRules[i], r.id)
  {
    LookupInserted(db, c, id);
    CanonIsCanonical(c.id);
    CanonIsCanonical(c.advertiserID);
    forall i | 0 <= i < |c.targetingRules|
      ensures KeepsRule(StoredRules(c.targetingRules, Canon(c.id))[i], c.targetingRules[i], Canon(c.id))
    {
      CanonIsCanonical(c.targetingRules[i].id);
    }
  }

  /** A create succeeds exactly when its ids are UUIDs and none of them is taken or given twice. */
  lemma CreateSucceedsIff(db: Database, c: Campaign)
    ensures var rules, outcome := c.targetingRules, Inserted(db, c).1;
      && (outcome.Done? || outcome.DBError?)
      && (outcome.Done? <==>
            && IsUUID(c.id) && IsUUID(c.advertiserID)
            && (forall k :: 0 <= k < |db.campaigns| ==> db.campaigns[k].id != Canon(c.id))
            && (forall i :: 0 <= i < |rules| ==> IsUUID(rules[i].id))
            && (forall i, k :: 0 <= i < |rules| && 0 <= k < |db.rules| ==> db.rules[k].id != Canon(rules[i].id))
            && (forall i, j :: 0 <= i < j < |rules| ==> Canon(rules[i].id) != Canon(rules[j].id)))
  {
    var rows := StoredRules(c.targetingRules, Canon(c.id));
    assert forall i :: 0 <= i < |rows| ==> rows[i].id == Canon(c.targetingRules[i].id);
  }

  /** An update succeeds exactly when its campaign is stored; else it is an error of the id, or not found. */
  lemma UpdateSucceedsIff(db: Database, c: Campaign)
    ensures Updated(db, c).1.Done?
       <==> IsUUID(c.id) && exists k :: 0 <= k < |db.campaigns| && db.campaigns[k].id == Canon(c.id)
    ensures Updated(db, c).1.DBError? <==> !IsUUID(c.id)
  {}

  /** A creative is added exactly when its ids are UUIDs, its own is free and its campaign is stored. */
  lemma AddSucceedsIff(db: Database, cr: Creative)
    ensures WithCreative(db, cr).1.Done? || WithCreative(db, cr).1.DBError?
    ensures WithCreative(db, cr).1.Done?
       <==> && IsUUID(cr.id) && IsUUID(cr.campaignID)
            && (forall k :: 0 <= k < |db.creatives| ==> db.creatives[k].id != Canon(cr.id))
            && (exists k :: 0 <= k < |db.campaigns| && db.campaigns[k].id == Canon(cr.campaignID))
  {}

  // ---------------------------------------------------------------------------------------------
  // Batched against simple
  // ---------------------------------------------------------------------------------------------

  lemma RowIsFound(db: Database, row: Campaign)
    requires WellFormed(db) && row in db.campaigns
    ensures Lookup(db, row.id) == Some(Loaded(row, db.creatives, db.rules))
  {
    FindRowIs(db.campaigns, row);
    var i :| 0 <= i < |db.campaigns| && db.campaigns[i] == row;
    assert Canonical(db.campaigns[i].id);
  }

  /** Each element of the batched load is what the simple load returns for its id. */
  lemma BatchedElementIsLookup(db: Database, k: nat)
    requires WellFormed(db) && k < |ActiveList(db)|
    ensures ActiveList(db)[k].status == "active"
    ensures Lookup(db, ActiveList(db)[k].id) == Some(ActiveList(db)[k])
  {
    ActiveRowsKept(db.campaigns);
    var row := ActiveRows(db.campaigns)[k];
    assert row in ActiveRows(db.campaigns);
    RowIsFound(db, row);
  }

  /** Every spelling finds what the canonical one finds. */
  lemma SameFound(db: Database, id: string)
    requires IsUUID(id)
    ensures Lookup(db, id) == Lookup(db, Canon(id))
  {
    CanonIsCanonical(id);
  }

  lemma ListedIsFound(db: Database, id: string, k: nat)
    requires WellFormed(db) && IsUUID(id) && k < |ActiveList(db)| && ActiveList(db)[k].id == Canon(id)
    ensures Lookup(db, id).Some? && Lookup(db, id).value.status == ACTIVE
  {
    BatchedElementIsLookup(db, k);
    SameFound(db, id);
  }

  lemma FoundIsListed(db: Database, id: string)
    requires WellFormed(db) && Lookup(db, id).Some? && Lookup(db, id).value.status == ACTIVE
    ensures exists k :: 0 <= k < |ActiveList(db)| && ActiveList(db)[k].id == Canon(id)
  {
    ActiveRowsKept(db.campaigns);
    var rows, row := ActiveRows(db.campaigns), FindRow(db.campaigns, Canon(id)).value;
    assert row in rows;
    var k :| 0 <= k < |rows| && rows[k] == row;
    assert ActiveList(db)[k].id == Canon(id);
  }

  /** A campaign is in the batched load, under the canonical form of its id, exactly when the simple load finds it
      active, and then once. */
  lemma BatchedHoldsActiveOnce(db: Database, id: string)
    requires WellFormed(db)
    ensures (Lookup(db, id).Some? && Lookup(db, id).value.status == ACTIVE)
       <==> IsUUID(id) && exists k :: 0 <= k < |ActiveList(db)| && ActiveList(db)[k].id == Canon(id)
    ensures forall j, k :: 0 <= j < k < |ActiveList(db)| ==> ActiveList(db)[j].id != ActiveList(db)[k].id
  {
    ActiveRowsKept(db.campaigns);
    if Lookup(db, id).Some? && Lookup(db, id).value.status == ACTIVE {
      FoundIsListed(db, id);
    }
    if IsUUID(id) && exists k :: 0 <= k < |ActiveList(db)| && ActiveList(db)[k].id == Canon(id) {
      var k :| 0 <= k < |ActiveList(db)| && ActiveList(db)[k].id == Canon(id);
      ListedIsFound(db, id, k);
    }
  }

  function CreativeLists(campaigns: seq<Campaign>): seq<seq<Creative>> {
    seq(|campaigns|, i requires 0 <= i < |campaigns| => campaigns[i].creatives)
  }

  function RuleLists(campaigns: seq<Campaign>): seq<seq<TargetingRule>> {
    seq(|campaigns|, i requires 0 <= i < |campaigns| => campaigns[i].targetingRules)
  }

  lemma {:induction false} CreativesInPlusOne(creatives: seq<Creative>, ids: set<string>, id: string)
    requires id !in ids
    ensures multiset(CreativesIn(creatives, ids + {id}))
         == multiset(CreativesIn(creatives, ids)) + multiset(CreativesOf(creatives, id))
  {
    if creatives != [] {
      var init, last := creatives[..|creatives| - 1], creatives[|creatives| - 1];
      CreativesInPlusOne(init, ids, id);
      assert last.campaignID in ids + {id} <==> last.campaignID in ids || last.campaignID == id;
    }
  }

  lemma {:induction false} RulesInPlusOne(rules: seq<TargetingRule>, ids: set<string>, id: string)
    requires id !in ids
    ensures multiset(RulesIn(rules, ids + {id})) == multiset(RulesIn(rules, ids)) + multiset(RulesOf(rules, id))
  {
    if rules != [] {
      var init, last := rules[..|rules| - 1], rules[|rules| - 1];
      RulesInPlusOne(init, ids, id);
      assert last.campaignID in ids + {id} <==> last.campaignID in ids || last.campaignID == id;
    }
  }

  lemma {:induction false} CreativesInNone(creatives: seq<Creative>)
    ensures CreativesIn(creatives, {}) == []
  {
    if creatives != [] { CreativesInNone(creatives[..|creatives| - 1]); }
  }

  lemma {:induction false} RulesInNone(rules: seq<TargetingRule>)
    ensures RulesIn(rules, {}) == []
  {
    if rules != [] { RulesInNone(rules[..|rules| - 1]); }
  }

  lemma IDsSplit(rows: seq<Campaign>)
    requires rows != [] && UniqueIDs(rows)
    ensures IDs(rows) == IDs(rows[..|rows| - 1]) + {rows[|rows| - 1].id}
    ensures rows[|rows| - 1].id !in IDs(rows[..|rows| - 1])
  {
    SplitLast(rows);
  }

  /** Over any unique rows: the creatives attached to all of them, with multiplicities, are exactly the
      creatives whose campaign is among them. */
  lemma {:induction false} CreativesAttachedOnce(rows: seq<Campaign>, creatives: seq<Creative>,
                                                 rules: seq<TargetingRule>)
    requires UniqueIDs(rows)
    ensures Permutation(Flatten(CreativeLists(LoadAll(rows, creatives, rules))), CreativesIn(creatives, IDs(rows)))
  {
    if rows == [] {
      CreativesInNone(creatives);
      assert IDs(rows) == {};
    } else {
      var n := |rows| - 1;
      IDsSplit(rows);
      CreativesAttachedOnce(rows[..n], creatives, rules);
      CreativesInPlusOne(creatives, IDs(rows[..n]), rows[n].id);
      assert CreativeLists(LoadAll(rows, creatives, rules))[..n] == CreativeLists(LoadAll(rows[..n], creatives, rules));
    }
  }

  lemma {:induction false} RulesAttachedOnce(rows: seq<Campaign>, creatives: seq<Creative>, rules: seq<TargetingRule>)
    requires UniqueIDs(rows)
    ensures Permutation(Flatten(RuleLists(LoadAll(rows, creatives, rules))), RulesIn(rules, IDs(rows)))
  {
    if rows == [] {
      RulesInNone(rules);
      assert IDs(rows) == {};
    } else {
      var n := |rows| - 1;
      IDsSplit(rows);
      RulesAttachedOnce(rows[..n], creatives, rules);
      RulesInPlusOne(rules, IDs(rows[..n]), rows[n].id);
      assert RuleLists(LoadAll(rows, creatives, rules))[..n] == RuleLists(LoadAll(rows[..n], creatives, rules));
    }
  }

  lemma OwnAssociations(db: Database, id: string)
    ensures forall cr :: cr in CreativesOf(db.creatives, id) ==> cr.campaignID == id
    ensures forall tr :: tr in RulesOf(db.rules, id) ==> tr.campaignID == id
  {
    forall cr | cr in CreativesOf(db.creatives, id) ensures cr.campaignID == id {
      FilterMultiplicity((c: Creative) => c.campaignID == id, db.creatives, cr);
    }
    forall tr | tr in RulesOf(db.rules, id) ensures tr.campaignID == id {
      FilterMultiplicity((r: TargetingRule) => r.campaignID == id, db.rules, tr);
    }
  }

  /** Every creative and every rule of an active campaign is attached exactly once, to its own campaign. */
  lemma AssociationsConserved(db: Database)
    requires WellFormed(db)
    ensures var ids := IDs(ActiveRows(db.campaigns));
      && Permutation(Flatten(CreativeLists(ActiveList(db))), CreativesIn(db.creatives, ids))
      && Permutation(Flatten(RuleLists(ActiveList(db))), RulesIn(db.rules, ids))
    ensures forall k :: 0 <= k < |ActiveList(db)| ==>
      && (forall cr :: cr in ActiveList(db)[k].creatives ==> cr.campaignID == ActiveList(db)[k].id)
      && (forall tr :: tr in ActiveList(db)[k].targetingRules ==> tr.campaignID == ActiveList(db)[k].id)
  {
    ActiveRowsKept(db.campaigns);
    var rows := ActiveRows(db.campaigns);
    CreativesAttachedOnce(rows, db.creatives, db.rules);
    RulesAttachedOnce(rows, db.creatives, db.rules);
    forall k | 0 <= k < |rows|
      ensures forall cr :: cr in ActiveList(db)[k].creatives ==> cr.campaignID == ActiveList(db)[k].id
      ensures forall tr :: tr in ActiveList(db)[k].targetingRules ==> tr.campaignID == ActiveList(db)[k].id
    {
      OwnAssociations(db, rows[k].id);
    }
  }

  /** The queries name no order: result sets that arrive in another order give the same campaigns with their
      associations rearranged. */
  lemma AnyRowOrder(rows: seq<Campaign>, creatives1: seq<Creative>, creatives2: seq<Creative>,
                    rules1: seq<TargetingRule>, rules2: seq<TargetingRule>, k: nat)
    requires Permutation(creatives1, creatives2) && Permutation(rules1, rules2) && k < |rows|
    ensures var a, b := LoadAll(rows, creatives1, rules1)[k], LoadAll(rows, creatives2, rules2)[k];
      && a == b.(creatives := a.creatives, targetingRules := a.targetingRules)
      && Permutation(a.creatives, b.creatives) && Permutation(a.targetingRules, b.targetingRules)
  {
    var id := rows[k].id;
    FilterPermutation((c: Creative) => c.campaignID == id, creatives1, creatives2);
    FilterPermutation((r: TargetingRule) => r.campaignID == id, rules1, rules2);
  }

  /** Nor do the tables have an order: after a move of rows the active list holds the same campaigns, rearranged,
      each with its associations rearranged. */
  lemma AnyTableOrder(db1: Database, db2: Database, k: nat) returns (j: nat)
    requires Permutation(db1.campaigns, db2.campaigns)
    requires Permutation(db1.creatives, db2.creatives) && Permutation(db1.rules, db2.rules)
    requires k < |ActiveList(db1)|
    ensures |ActiveList(db2)| == |ActiveList(db1)| && j < |ActiveList(db2)|
    ensures var a, b := ActiveList(db1)[k], ActiveList(db2)[j];
      && a == b.(creatives := a.creatives, targetingRules := a.targetingRules)
      && Permutation(a.creatives, b.creatives) && Permutation(a.targetingRules, b.targetingRules)
  {
    var rows1, rows2 := ActiveRows(db1.campaigns), ActiveRows(db2.campaigns);
    FilterPermutation((c: Campaign) => c.status == ACTIVE, db1.campaigns, db2.campaigns);
    assert Permutation(rows1, rows2);
    PermutationMembers(rows1, rows2);
    assert rows1[k] in rows2;
    j :| j < |rows2| && rows2[j] == rows1[k];
    AnyRowOrder(rows1, db1.creatives, db2.creatives, db1.rules, db2.rules, k);
  }
}
