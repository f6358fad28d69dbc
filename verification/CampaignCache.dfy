/** The Redis read-through cache over the repository, and the handler that patches campaigns through it.
    Here operations run one at a time and neither Redis nor the database fails; entries may expire between
    any two operations. The concurrent, lossy case is in module Staleness. */
module CampaignCache {
  import opened Sequences
  import opened UUIDs
  import opened Repository

  /** `campaigns:active` and the `campaign:<id>` keys. A key holds the id as a text: two spellings of one UUID
      are one row, but two keys. */
  datatype Cache = Cache(active: Option<seq<Campaign>>, byID: map<string, Campaign>)

  datatype World = World(db: Database, cache: Cache)

  datatype Response = Patched(camp: Campaign) | Missing | Failed

  // ---------------------------------------------------------------------------------------------
  // What each operation does to the world
  // ---------------------------------------------------------------------------------------------

  function Remember(cache: Cache, c: Campaign): Cache {
    cache.(byID := cache.byID[c.id := c])
  }

  function Forget(cache: Cache): Cache {
    cache.(active := None)
  }

  /** The request's own snapshot is cached, creatives included. */
  function Created(w: World, c: Campaign): (World, Outcome) {
    var (db, outcome) := Inserted(w.db, c);
    (if outcome.Done? then World(db, Remember(Forget(w.cache), c)) else w, outcome)
  }

  function Listed(w: World): (World, seq<Campaign>) {
    match w.cache.active
    case Some(campaigns) => (w, campaigns)
    case None => (w.(cache := w.cache.(active := Some(ActiveList(w.db)))), ActiveList(w.db))
  }

  /** What is loaded is cached under the row's own id, which need not be the text that was asked for. */
  function Fetched(w: World, id: string): (World, Option<Campaign>) {
    if id in w.cache.byID then (w, Some(w.cache.byID[id]))
    else
      match Lookup(w.db, id)
      case None => (w, None)
      case Some(c) => (w.(cache := Remember(w.cache, c)), Some(c))
  }

  function FetchOutcome(w: World, id: string): Outcome {
    if id in w.cache.byID then Done else LookupOutcome(w.db, id)
  }

  /** After the write the campaign is read back from the database into the cache, under the row's own id. */
  function Refreshed(db: Database, cache: Cache, id: string): Cache {
    match Lookup(db, id)
    case None => cache
    case Some(c) => Remember(cache, c)
  }

  function Changed(w: World, c: Campaign): (World, Outcome) {
    var (db, outcome) := Updated(w.db, c);
    (if outcome.Done? then World(db, Refreshed(db, Forget(w.cache), c.id)) else w, outcome)
  }

  /** The list is invalidated only when the campaign is found again. */
  function CreativeAdded(w: World, cr: Creative): (World, Outcome) {
    var (db, outcome) := WithCreative(w.db, cr);
    (if outcome.Done?
     then World(db, if Lookup(db, cr.campaignID).Some?
                    then Forget(Refreshed(db, w.cache, cr.campaignID)) else w.cache)
     else w, outcome)
  }

  function Overlay(c: Campaign, status: Option<string>, budgetCents: Option<int>): Campaign {
    c.(status := if status.Some? then status.value else c.status,
       budgetCents := if budgetCents.Some? then budgetCents.value else c.budgetCents)
  }

  /** Read through the cache, overlay the given fields, write back. */
  function PatchedWorld(w: World, id: string, status: Option<string>, budgetCents: Option<int>): (World, Response) {
    match Fetched(w, id)
    case (w1, None) => (w1, if FetchOutcome(w, id).NotFound? then Missing else Failed)
    case (w1, Some(c)) =>
      var camp := Overlay(c, status, budgetCents);
      var (w2, outcome) := Changed(w1, camp);
      (w2, if outcome.Done? then Patched(camp) else Failed)
  }

  // ---------------------------------------------------------------------------------------------
  // The code
  // ---------------------------------------------------------------------------------------------

  class RedisCache {
    const repo: PgRepository
    var active: Option<seq<Campaign>>
    var byID: map<string, Campaign>

    ghost function State(): World
      reads this, repo
    {
      World(repo.db, Cache(active, byID))
    }

    constructor (repo: PgRepository)
      ensures this.repo == repo && State() == World(repo.db, Cache(None, map[]))
    {
      this.repo := repo;
      active := None;
      byID := map[];
    }

    method SetCampaignCache(camp: Campaign)
      modifies this
      ensures State().cache == Remember(old(State().cache), camp)
    {
      byID := byID[camp.id := camp];
    }

    method CreateCampaign(camp: Campaign) returns (outcome: Outcome)
      modifies this, repo
      ensures (State(), outcome) == Created(old(State()), camp)
    {
      outcome := repo.CreateCampaign(camp);
      if outcome != Done {
        return;
      }
      active := None;
      SetCampaignCache(camp);
    }

    method GetActiveCampaigns() returns (campaigns: seq<Campaign>)
      requires WellFormed(repo.db)
      modifies this
      ensures (State(), campaigns) == Listed(old(State()))
    {
      if active.Some? {
        return active.value;
      }
      campaigns := repo.GetActiveCampaigns();
      active := Some(campaigns);
    }

    method GetCampaignByID(id: string) returns (camp: Option<Campaign>, outcome: Outcome)
      modifies this
      ensures (State(), camp) == Fetched(old(State()), id) && outcome == FetchOutcome(old(State()), id)
    {
      if id in byID {
        return Some(byID[id]), Done;
      }
      camp, outcome := repo.GetCampaignByID(id);
      if camp.None? {
        return;
      }
      SetCampaignCache(camp.value);
    }

    method UpdateCampaign(camp: Campaign) returns (outcome: Outcome)
      modifies this, repo
      ensures (State(), outcome) == Changed(old(State()), camp)
    {
      outcome := repo.UpdateCampaign(camp);
      if outcome != Done {
        return;
      }
      active := None;
      var updatedCamp, _ := repo.GetCampaignByID(camp.id);
      if updatedCamp.Some? {
        SetCampaignCache(updatedCamp.value);
      }
    }

    method AddCreative(cr: Creative) returns (outcome: Outcome)
      modifies this, repo
      ensures (State(), outcome) == CreativeAdded(old(State()), cr)
    {
      outcome := repo.AddCreative(cr);
      if outcome != Done {
        return;
      }
      var updatedCamp, _ := repo.GetCampaignByID(cr.campaignID);
      if updatedCamp.Some? {
        SetCampaignCache(updatedCamp.value);
        active := None;
      }
    }
  }

  /** The copy that was read, with each given field as given and every other field as it was. */
  ghost predicate Overlaid(camp: Campaign, read: Campaign, status: Option<string>, budgetCents: Option<int>) {
    && (status.Some? ==> camp.status == status.value) && (status.None? ==> camp.status == read.status)
    && (budgetCents.Some? ==> camp.budgetCents == budgetCents.value)
    && (budgetCents.None? ==> camp.budgetCents == read.budgetCents)
    && camp.(status := read.status, budgetCents := read.budgetCents) == read
  }

  class CampaignHandler {
    const repo: RedisCache

    constructor (repo: RedisCache)
      ensures this.repo == repo
    {
      this.repo := repo;
    }

    method HandleUpdateCampaign(id: string, status: Option<string>, budgetCents: Option<int>)
      returns (response: Response)
      modifies repo, repo.repo
      ensures (repo.State(), response) == PatchedWorld(old(repo.State()), id, status, budgetCents)
      ensures response.Patched? ==>
        Fetched(old(repo.State()), id).1.Some?
        && Overlaid(response.camp, Fetched(old(repo.State()), id).1.value, status, budgetCents)
      ensures response.Missing? <==>
        id !in old(repo.byID) && IsUUID(id)
        && forall i :: 0 <= i < |old(repo.repo.db).campaigns| ==> old(repo.repo.db).campaigns[i].id != Canon(id)
    {
      var fetched, err := repo.GetCampaignByID(id);
      if fetched.None? {
        return if err.NotFound? then Missing else Failed;
      }
      var camp := fetched.value;
      if status.Some? {
        camp := camp.(status := status.value);
      }
      if budgetCents.Some? {
        camp := camp.(budgetCents := budgetCents.value);
      }
      var outcome := repo.UpdateCampaign(camp);
      response := if outcome == Done then Patched(camp) else Failed;
    }
  }
}
