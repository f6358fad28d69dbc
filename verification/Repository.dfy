/** Campaigns, their tables, and the repository over them. Rows are kept in insertion order. */
module Repository {
  import opened Sequences
  import opened UUIDs

  datatype Creative = Creative(id: string, campaignID: string, format: string, width: int, height: int,
                               adMarkup: string, clickURL: string, status: string, createdAt: int)

  datatype TargetingRule = TargetingRule(id: string, campaignID: string, ruleType: string,
                                         ruleValue: string, createdAt: int)

  datatype Campaign = Campaign(id: string, name: string, advertiserID: string, status: string,
                               budgetCents: int, spentCents: int, bidPriceCPM: real,
                               startDate: int, endDate: int, createdAt: int,
                               creatives: seq<Creative>, targetingRules: seq<TargetingRule>)

  /** A campaign row carries no associations; those are rows of the other two tables. */
  datatype Database = Database(campaigns: seq<Campaign>, creatives: seq<Creative>, rules: seq<TargetingRule>)

  datatype Outcome = Done | NotFound | DBError

  const ACTIVE := "active"

  // ---------------------------------------------------------------------------------------------
  // The tables
  // ---------------------------------------------------------------------------------------------

  predicate HasCampaign(rows: seq<Campaign>, id: string) {
    exists i :: 0 <= i < |rows| && rows[i].id == id
  }

  predicate HasCreative(rows: seq<Creative>, id: string) {
    exists i :: 0 <= i < |rows| && rows[i].id == id
  }

  predicate HasRule(rows: seq<TargetingRule>, id: string) {
    exists i :: 0 <= i < |rows| && rows[i].id == id
  }

  ghost predicate UniqueIDs(rows: seq<Campaign>) {
    forall i, j :: 0 <= i < j < |rows| ==> rows[i].id != rows[j].id
  }

  predicate Bare(c: Campaign) {
    c.creatives == [] && c.targetingRules == []
  }

  ghost predicate CanonicalIDs(rows: seq<Campaign>) {
    forall i {:trigger Canonical(rows[i].id)} :: 0 <= i < |rows| ==> Canonical(rows[i].id)
  }

  /** Primary keys and foreign keys of the schema; the keys are UUIDs in the form in which they are read back. */
  ghost predicate WellFormed(db: Database) {
    && UniqueIDs(db.campaigns)
    && (forall i :: 0 <= i < |db.campaigns| ==> Bare(db.campaigns[i]))
    && CanonicalIDs(db.campaigns)
    && (forall i, j :: 0 <= i < j < |db.creatives| ==> db.creatives[i].id != db.creatives[j].id)
    && (forall i, j :: 0 <= i < j < |db.rules| ==> db.rules[i].id != db.rules[j].id)
    && (forall i :: 0 <= i < |db.creatives| ==> HasCampaign(db.campaigns, db.creatives[i].campaignID))
    && (forall i :: 0 <= i < |db.rules| ==> HasCampaign(db.campaigns, db.rules[i].campaignID))
  }

  function CreativesOf(rows: seq<Creative>, id: string): seq<Creative> {
    Filter((c: Creative) => c.campaignID == id, rows)
  }

  function RulesOf(rows: seq<TargetingRule>, id: string): seq<TargetingRule> {
    Filter((r: TargetingRule) => r.campaignID == id, rows)
  }

  function ActiveRows(rows: seq<Campaign>): seq<Campaign> {
    Filter((c: Campaign) => c.status == ACTIVE, rows)
  }

  /** A row with its associations. */
  function Loaded(row: Campaign, creatives: seq<Creative>, rules: seq<TargetingRule>): Campaign {
    row.(creatives := CreativesOf(creatives, row.id), targetingRules := RulesOf(rules, row.id))
  }

  function LoadAll(rows: seq<Campaign>, creatives: seq<Creative>, rules: seq<TargetingRule>): seq<Campaign> {
    seq(|rows|, i requires 0 <= i < |rows| => Loaded(rows[i], creatives, rules))
  }

  /** The active campaigns with their associations. */
  function ActiveList(db: Database): seq<Campaign> {
    LoadAll(ActiveRows(db.campaigns), db.creatives, db.rules)
  }

  function FindRow(rows: seq<Campaign>, id: string): (r: Option<Campaign>)
    ensures r.Some? <==> HasCampaign(rows, id)
    ensures r.Some? ==> r.value in rows && r.value.id == id
  {
    if rows == [] then None
    else if rows[0].id == id then Some(rows[0])
    else
      var r := FindRow(rows[1..], id);
      assert HasCampaign(rows, id) ==> HasCampaign(rows[1..], id) by {
        if HasCampaign(rows, id) {
          var i :| 0 <= i < |rows| && rows[i].id == id;
          assert rows[1..][i - 1].id == id;
        }
      }
      r
  }

  /** `WHERE id = $1`: the row with this value, however the id is spelled. */
  predicate HasRow(db: Database, id: string) {
    IsUUID(id) && HasCampaign(db.campaigns, Canon(id))
  }

  function Lookup(db: Database, id: string): Option<Campaign> {
    if !HasRow(db, id) then None else Some(Loaded(FindRow(db.campaigns, Canon(id)).value, db.creatives, db.rules))
  }

  /** A text that is no UUID is an error of the query, not a missing row. */
  function LookupOutcome(db: Database, id: string): Outcome {
    if HasRow(db, id) then Done else if IsUUID(id) then NotFound else DBError
  }

  // ---------------------------------------------------------------------------------------------
  // What each write does to the tables
  // ---------------------------------------------------------------------------------------------

  /** The rules as they are stored: under the campaign's id, whatever id the request gave them. */
  function StoredRules(rules: seq<TargetingRule>, id: string): seq<TargetingRule> {
    seq(|rules|, i requires 0 <= i < |rules| => rules[i].(id := Canon(rules[i].id), campaignID := id))
  }

  /** The campaign row: no associations, and the UUID columns as they are read back. */
  function StoredRow(c: Campaign): Campaign {
    c.(id := Canon(c.id), advertiserID := Canon(c.advertiserID), creatives := [], targetingRules := [])
  }

  function StoredCreative(cr: Creative): Creative {
    cr.(id := Canon(cr.id), campaignID := Canon(cr.campaignID))
  }

  predicate ValidRules(rules: seq<TargetingRule>) {
    forall i :: 0 <= i < |rules| ==> IsUUID(rules[i].id)
  }

  predicate FreshRules(existing: seq<TargetingRule>, rules: seq<TargetingRule>) {
    && (forall i :: 0 <= i < |rules| ==> !HasRule(existing, rules[i].id))
    && (forall i, j :: 0 <= i < j < |rules| ==> rules[i].id != rules[j].id)
  }

  predicate Insertable(db: Database, c: Campaign) {
    && IsUUID(c.id) && IsUUID(c.advertiserID) && ValidRules(c.targetingRules)
    && !HasCampaign(db.campaigns, Canon(c.id))
    && FreshRules(db.rules, StoredRules(c.targetingRules, Canon(c.id)))
  }

  /** All or nothing; the request's creatives are not stored. */
  function Inserted(db: Database, c: Campaign): (Database, Outcome) {
    if !Insertable(db, c) then (db, DBError)
    else (db.(campaigns := db.campaigns + [StoredRow(c)],
              rules := db.rules + StoredRules(c.targetingRules, Canon(c.id))), Done)
  }

  function SetStatusAndBudget(rows: seq<Campaign>, id: string, status: string, budgetCents: int): seq<Campaign> {
    seq(|rows|, i requires 0 <= i < |rows| =>
      if rows[i].id == id then rows[i].(status := status, budgetCents := budgetCents) else rows[i])
  }

  /** Only status and budget are written, to the row with the campaign's id. */
  function Updated(db: Database, c: Campaign): (Database, Outcome) {
    if !HasRow(db, c.id) then (db, LookupOutcome(db, c.id))
    else (db.(campaigns := SetStatusAndBudget(db.campaigns, Canon(c.id), c.status, c.budgetCents)), Done)
  }

  /** The foreign key and the primary key are checked. */
  function WithCreative(db: Database, cr: Creative): (Database, Outcome) {
    if !IsUUID(cr.id) || HasCreative(db.creatives, Canon(cr.id)) || !HasRow(db, cr.campaignID) then (db, DBError)
    else (db.(creatives := db.creatives + [StoredCreative(cr)]), Done)
  }

  // ---------------------------------------------------------------------------------------------
  // The repository
  // ---------------------------------------------------------------------------------------------

  ghost predicate Indexes(index: map<string, nat>, rows: seq<Campaign>) {
    && (forall i :: 0 <= i < |rows| ==> rows[i].id in index)
    && (forall id :: id in index ==> index[id] < |rows| && rows[index[id]].id == id)
  }

  /** The ordered slice of campaigns and the index from id to position. */
  method IndexRows(rows: seq<Campaign>) returns (campaignIndex: map<string, nat>)
    ensures Indexes(campaignIndex, rows)
  {
    campaignIndex := map[];
    for n := 0 to |rows|
      invariant Indexes(campaignIndex, rows[..n])
    {
      campaignIndex := campaignIndex[rows[n].id := n];
    }
    assert rows[..|rows|] == rows;
  }

  lemma AttachCreative(rows: seq<Campaign>, creatives: seq<Creative>, n: nat, index: map<string, nat>)
    requires UniqueIDs(rows) && Indexes(index, rows) && n < |creatives|
    ensures var cr, campaigns := creatives[n], LoadAll(rows, creatives[..n], []);
      LoadAll(rows, creatives[..n + 1], [])
      == if cr.campaignID in index
         then var c := campaigns[index[cr.campaignID]];
              campaigns[index[cr.campaignID] := c.(creatives := c.creatives + [cr])]
         else campaigns
  {
    assert creatives[..n + 1][..n] == creatives[..n];
    var cr, after := creatives[n], LoadAll(rows, creatives[..n + 1], []);
    var campaigns := LoadAll(rows, creatives[..n], []);
    forall i | 0 <= i < |rows|
      ensures after[i] == if cr.campaignID == rows[i].id then campaigns[i].(creatives := campaigns[i].creatives + [cr])
                          else campaigns[i]
    {}
    assert forall i :: 0 <= i < |rows| && cr.campaignID == rows[i].id ==> index[rows[i].id] == i;
  }

  lemma AttachRule(rows: seq<Campaign>, creatives: seq<Creative>, rules: seq<TargetingRule>, n: nat,
                   index: map<string, nat>)
    requires UniqueIDs(rows) && Indexes(index, rows) && n < |rules|
    ensures var tr, campaigns := rules[n], LoadAll(rows, creatives, rules[..n]);
      LoadAll(rows, creatives, rules[..n + 1])
      == if tr.campaignID in index
         then var c := campaigns[index[tr.campaignID]];
              campaigns[index[tr.campaignID] := c.(targetingRules := c.targetingRules + [tr])]
         else campaigns
  {
    assert rules[..n + 1][..n] == rules[..n];
    var tr, after := rules[n], LoadAll(rows, creatives, rules[..n + 1]);
    var campaigns := LoadAll(rows, creatives, rules[..n]);
    forall i | 0 <= i < |rows|
      ensures after[i] == if tr.campaignID == rows[i].id
                          then campaigns[i].(targetingRules := campaigns[i].targetingRules + [tr])
                          else campaigns[i]
    {}
    assert forall i :: 0 <= i < |rows| && tr.campaignID == rows[i].id ==> index[rows[i].id] == i;
  }

  /** Attaches association rows to campaigns through the index, in one pass over each result set. The rows
      of each result set may come in any order, and rows of other campaigns are skipped. */
  method Assemble(rows: seq<Campaign>, creatives: seq<Creative>, rules: seq<TargetingRule>)
    returns (campaigns: seq<Campaign>)
    requires UniqueIDs(rows) && forall i :: 0 <= i < |rows| ==> Bare(rows[i])
    ensures campaigns == LoadAll(rows, creatives, rules)
  {
    campaigns := rows;
    var campaignIndex := IndexRows(rows);
    for n := 0 to |creatives|
      invariant campaigns == LoadAll(rows, creatives[..n], [])
    {
      var cr := creatives[n];
      AttachCreative(rows, creatives, n, campaignIndex);
      if cr.campaignID in campaignIndex {
        var idx := campaignIndex[cr.campaignID];
        campaigns := campaigns[idx := campaigns[idx].(creatives := campaigns[idx].creatives + [cr])];
      }
    }
    assert creatives[..|creatives|] == creatives;
    for n := 0 to |rules|
      invariant campaigns == LoadAll(rows, creatives, rules[..n])
    {
      var tr := rules[n];
      AttachRule(rows, creatives, rules, n, campaignIndex);
      if tr.campaignID in campaignIndex {
        var idx := campaignIndex[tr.campaignID];
        campaigns := campaigns[idx := campaigns[idx].(targetingRules := campaigns[idx].targetingRules + [tr])];
      }
    }
    assert rules[..|rules|] == rules;
  }

  /** `WHERE campaign_id = ANY(ids)`. */
  function CreativesIn(rows: seq<Creative>, ids: set<string>): seq<Creative> {
    Filter((c: Creative) => c.campaignID in ids, rows)
  }

  function RulesIn(rows: seq<TargetingRule>, ids: set<string>): seq<TargetingRule> {
    Filter((r: TargetingRule) => r.campaignID in ids, rows)
  }

  function IDs(rows: seq<Campaign>): set<string> {
    set i | 0 <= i < |rows| :: rows[i].id
  }

  /** Selecting the rows of a set of ids first does not change the rows of an id in the set. */
  lemma {:induction false} CreativesInOf(rows: seq<Creative>, ids: set<string>, id: string)
    requires id in ids
    ensures CreativesOf(CreativesIn(rows, ids), id) == CreativesOf(rows, id)
  {
    if rows != [] {
      var init, last := rows[..|rows| - 1], rows[|rows| - 1];
      CreativesInOf(init, ids, id);
      var c := CreativesIn(init, ids);
      assert CreativesIn(rows, ids) == c + if last.campaignID in ids then [last] else [];
      assert CreativesOf(rows, id) == CreativesOf(init, id) + if last.campaignID == id then [last] else [];
      assert (c + [last])[..|c|] == c && c + [] == c;
      assert CreativesOf(c + [last], id) == CreativesOf(c, id) + if last.campaignID == id then [last] else [];
    }
  }

  lemma {:induction false} RulesInOf(rows: seq<TargetingRule>, ids: set<string>, id: string)
    requires id in ids
    ensures RulesOf(RulesIn(rows, ids), id) == RulesOf(rows, id)
  {
    if rows != [] {
      var init, last := rows[..|rows| - 1], rows[|rows| - 1];
      RulesInOf(init, ids, id);
      var r := RulesIn(init, ids);
      assert RulesIn(rows, ids) == r + if last.campaignID in ids then [last] else [];
      assert RulesOf(rows, id) == RulesOf(init, id) + if last.campaignID == id then [last] else [];
      assert (r + [last])[..|r|] == r && r + [] == r;
      assert RulesOf(r + [last], id) == RulesOf(r, id) + if last.campaignID == id then [last] else [];
    }
  }

  lemma LoadAllIn(rows: seq<Campaign>, creatives: seq<Creative>, rules: seq<TargetingRule>)
    ensures LoadAll(rows, CreativesIn(creatives, IDs(rows)), RulesIn(rules, IDs(rows)))
         == LoadAll(rows, creatives, rules)
  {
    forall i | 0 <= i < |rows|
      ensures Loaded(rows[i], CreativesIn(creatives, IDs(rows)), RulesIn(rules, IDs(rows)))
           == Loaded(rows[i], creatives, rules)
    {
      CreativesInOf(creatives, IDs(rows), rows[i].id);
      RulesInOf(rules, IDs(rows), rows[i].id);
    }
  }

  /** Filtering keeps primary keys unique and rows bare. */
  lemma {:induction false} ActiveRowsKept(rows: seq<Campaign>)
    requires UniqueIDs(rows) && forall i :: 0 <= i < |rows| ==> Bare(rows[i])
    ensures UniqueIDs(ActiveRows(rows)) && forall i :: 0 <= i < |ActiveRows(rows)| ==> Bare(ActiveRows(rows)[i])
    ensures forall c :: c in ActiveRows(rows) <==> c in rows && c.status == ACTIVE
  {
    if rows != [] {
      var init := rows[..|rows| - 1];
      SplitLast(rows);
      ActiveRowsKept(init);
      assert forall c :: c in init ==> c.id != rows[|rows| - 1].id;
    }
  }

  lemma {:induction false} FindRowIs(rows: seq<Campaign>, c: Campaign)
    requires UniqueIDs(rows) && c in rows
    ensures FindRow(rows, c.id) == Some(c)
  {
    if rows[0].id != c.id {
      assert rows == [rows[0]] + rows[1..];
      FindRowIs(rows[1..], c);
    } else {
      var i :| 0 <= i < |rows| && rows[i] == c;
    }
  }

  /** Inserting row n conflicts exactly when the rows up to it are not fresh. */
  lemma RuleConflict(existing: seq<TargetingRule>, rows: seq<TargetingRule>, n: nat)
    requires n < |rows| && FreshRules(existing, rows[..n])
    ensures HasRule(existing + rows[..n], rows[n].id) <==> !FreshRules(existing, rows[..n + 1])
    ensures HasRule(existing + rows[..n], rows[n].id) ==> !FreshRules(existing, rows)
  {
    var all := existing + rows[..n];
    if HasRule(all, rows[n].id) {
      var i :| 0 <= i < |all| && all[i].id == rows[n].id;
      if i < |existing| {
        assert existing[i].id == rows[n].id;
        assert rows[..n + 1][n] == rows[n];
      } else {
        assert rows[..n + 1][i - |existing|].id == rows[..n + 1][n].id;
        assert rows[i - |existing|].id == rows[n].id;
      }
    } else {
      assert forall i :: 0 <= i < |existing| ==> all[i] == existing[i];
      forall i | 0 <= i < n ensures rows[i].id != rows[n].id {
        assert all[|existing| + i].id == rows[..n][i].id;
      }
      assert forall i :: 0 <= i < n ==> rows[..n + 1][i] == rows[..n][i];
    }
  }

  /** A stored creative is the given one: the same ids, however they were spelled, and all else as it was given. */
  ghost predicate KeepsCreative(stored: Creative, given: Creative) {
    && SameID(stored.id, given.id) && SameID(stored.campaignID, given.campaignID)
    && Canonical(stored.id) && Canonical(stored.campaignID)
    && stored.format == given.format && stored.width == given.width && stored.height == given.height
    && stored.adMarkup == given.adMarkup && stored.clickURL == given.clickURL
    && stored.status == given.status && stored.createdAt == given.createdAt
  }

  class PgRepository {
    var db: Database

    constructor (db: Database)
      ensures this.db == db
    {
      this.db := db;
    }

    method GetActiveCampaigns() returns (campaigns: seq<Campaign>)
      requires WellFormed(db)
      ensures campaigns == ActiveList(db)
      ensures forall k :: 0 <= k < |campaigns| ==> campaigns[k].status == "active"
    {
      var rows := ActiveRows(db.campaigns);
      ActiveRowsKept(db.campaigns);
      var ids := IDs(rows);
      assert forall k :: 0 <= k < |rows| ==> rows[k] in rows && ActiveList(db)[k].status == rows[k].status;
      if |rows| == 0 {
        return [];
      }
      LoadAllIn(rows, db.creatives, db.rules);
      campaigns := Assemble(rows, CreativesIn(db.creatives, ids), RulesIn(db.rules, ids));
    }

    method GetCreativesByCampaignID(id: string) returns (creatives: seq<Creative>)
      ensures creatives == CreativesOf(db.creatives, id)
    {
      creatives := [];
      for n := 0 to |db.creatives|
        invariant creatives == CreativesOf(db.creatives[..n], id)
      {
        assert db.creatives[..n + 1][..n] == db.creatives[..n];
        if db.creatives[n].campaignID == id {
          creatives := creatives + [db.creatives[n]];
        }
      }
      assert db.creatives[..|db.creatives|] == db.creatives;
    }

    method GetTargetingRulesByCampaignID(id: string) returns (rules: seq<TargetingRule>)
      ensures rules == RulesOf(db.rules, id)
    {
      rules := [];
      for n := 0 to |db.rules|
        invariant rules == RulesOf(db.rules[..n], id)
      {
        assert db.rules[..n + 1][..n] == db.rules[..n];
        if db.rules[n].campaignID == id {
          rules := rules + [db.rules[n]];
        }
      }
      assert db.rules[..|db.rules|] == db.rules;
    }

    method GetCampaignByID(id: string) returns (camp: Option<Campaign>, outcome: Outcome)
      ensures camp == Lookup(db, id) && outcome == LookupOutcome(db, id)
      ensures outcome == if !IsUUID(id) then DBError
                         else if exists i :: 0 <= i < |db.campaigns| && db.campaigns[i].id == Canon(id) then Done
                         else NotFound
      ensures camp.Some? <==> outcome == Done
    {
      if !IsUUID(id) {
        return None, DBError;
      }
      var row := FindRow(db.campaigns, Canon(id));
      if row.None? {
        return None, NotFound;
      }
      var creatives := GetCreativesByCampaignID(row.value.id);
      var rules := GetTargetingRulesByCampaignID(row.value.id);
      return Some(row.value.(creatives := creatives, targetingRules := rules)), Done;
    }

    /** The rules of one transaction, one by one; None when one is refused. */
    method InsertRules(rules: seq<TargetingRule>, id: string) returns (rows: Option<seq<TargetingRule>>)
      ensures rows == if ValidRules(rules) && FreshRules(db.rules, StoredRules(rules, id))
                      then Some(db.rules + StoredRules(rules, id)) else None
    {
      ghost var stored := StoredRules(rules, id);
      var tx := db.rules;
      for n := 0 to |rules|
        invariant tx == db.rules + stored[..n]
        invariant FreshRules(db.rules, stored[..n]) && forall i :: 0 <= i < n ==> IsUUID(rules[i].id)
      {
        var row := rules[n].(id := Canon(rules[n].id), campaignID := id);
        RuleConflict(db.rules, stored, n);
        if !IsUUID(rules[n].id) || HasRule(tx, row.id) {
          return None;
        }
        tx := tx + [row];
      }
      assert stored[..|rules|] == stored;
      rows := Some(tx);
    }

    /** One transaction: the campaign row, then its rules; a conflict, or an id that is no UUID, rolls all of it
        back. */
    method CreateCampaign(c: Campaign) returns (outcome: Outcome)
      modifies this
      ensures (db, outcome) == Inserted(old(db), c)
    {
      if !IsUUID(c.id) || !IsUUID(c.advertiserID) || HasCampaign(db.campaigns, Canon(c.id)) {
        return DBError;
      }
      var rules := InsertRules(c.targetingRules, Canon(c.id));
      if rules.None? {
        return DBError;
      }
      db := db.(campaigns := db.campaigns + [StoredRow(c)], rules := rules.value);
      outcome := Done;
    }

    method UpdateCampaign(c: Campaign) returns (outcome: Outcome)
      modifies this
      ensures (db, outcome) == Updated(old(db), c)
    {
      if !IsUUID(c.id) {
        return DBError;
      }
      if !HasCampaign(db.campaigns, Canon(c.id)) {
        return NotFound;
      }
      db := db.(campaigns := SetStatusAndBudget(db.campaigns, Canon(c.id), c.status, c.budgetCents));
      outcome := Done;
    }

    method AddCreative(cr: Creative) returns (outcome: Outcome)
      modifies this
      ensures (db, outcome) == WithCreative(old(db), cr)
      ensures outcome == Done ==>
        |db.creatives| > 0 && db.creatives[..|db.creatives| - 1] == old(db.creatives)
        && KeepsCreative(db.creatives[|db.creatives| - 1], cr)
    {
      if !IsUUID(cr.id) || !IsUUID(cr.campaignID) {
        return DBError;
      }
      var row := cr.(id := Canon(cr.id), campaignID := Canon(cr.campaignID));
      if HasCreative(db.creatives, row.id) || !HasCampaign(db.campaigns, row.campaignID) {
        return DBError;
      }
      CanonIsCanonical(cr.id);
      CanonIsCanonical(cr.campaignID);
      db := db.(creatives := db.creatives + [row]);
      outcome := Done;
    }
  }
}
