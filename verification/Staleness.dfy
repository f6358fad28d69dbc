/** One cached key under concurrency, the active list or one campaign: readers in flight, Redis deletes and
    stores that are late or lost, entries that expire early. Times are milliseconds of one clock. */
module Staleness {
  import opened Sequences
  import opened UUIDs
  import opened Repository
  import opened RepositoryLaws

  const LIST_TTL := 30000
  const CAMPAIGN_TTL := 60000

  /** `campaigns:active`, or `campaign:<id>` with the id as a text. */
  datatype Key = ActiveKey | CampaignKey(id: string)

  /** What is claimed of a cached value: of the list all of it, of a campaign its status and budget (a created
      campaign's snapshot may hold associations that were not stored), or that there is none. */
  datatype View = ListView(campaigns: seq<Campaign>) | RowView(status: string, budgetCents: int) | NoRow

  function RowOf(c: Option<Campaign>): View {
    match c case None => NoRow case Some(row) => RowView(row.status, row.budgetCents)
  }

  function ViewOf(key: Key, db: Database): View {
    match key
    case ActiveKey => ListView(ActiveList(db))
    case CampaignKey(id) => RowOf(Lookup(db, id))
  }

  /** Whether what is loaded for the key is cached under it: a campaign is cached under its row's own id. */
  predicate LoadsCache(key: Key) {
    key.CampaignKey? ==> Canonical(key.id)
  }

  function TTL(key: Key): nat {
    match key case ActiveKey => LIST_TTL case CampaignKey(_) => CAMPAIGN_TTL
  }

  /** A committed database state. */
  datatype Version = Version(at: nat, db: Database)

  /** A call past its database fetch, or past the commit whose value it holds. `at` and `version` record when
      that was and what was in force; `stored` and `returned` say which of its two remaining actions are done, or
      not due. */
  datatype Reader = Reader(view: View, at: nat, version: nat, stored: bool, returned: bool)

  /** The cached key. `fetchedAt` and `version` are histories; no step reads them. */
  datatype Entry = Entry(view: View, expires: nat, fetchedAt: nat, version: nat)

  /** A value handed to a caller; `fetchedAt` and `version` are histories. */
  datatype Answer = Answer(at: nat, view: View, fetchedAt: nat, version: nat)

  datatype State = State(now: nat, history: seq<Version>, entry: Option<Entry>,
                         readers: map<nat, Reader>, answers: seq<Answer>)

  datatype Write = Insert(c: Campaign) | Change(c: Campaign) | AddCreative(cr: Creative)

  /** `Invalidate` is a delete that reached Redis, at whatever moment, or an early eviction; a lost delete is
      one that never happens. `Hit` reads the key; `Fetch` follows a miss or a failed read, or is a writer's
      read-back. `Create` is a commit whose request snapshot is still to be stored. */
  datatype Event =
    | Tick(d: nat)
    | Commit(write: Write)
    | Create(reader: nat, c: Campaign)
    | Invalidate
    | Hit
    | Fetch(reader: nat)
    | Store(reader: nat)
    | Return(reader: nat)

  function Init(db: Database): State {
    State(0, [Version(0, db)], None, map[], [])
  }

  function Apply(db: Database, write: Write): Database {
    match write
    case Insert(c) => Inserted(db, c).0
    case Change(c) => Updated(db, c).0
    case AddCreative(cr) => WithCreative(db, cr).0
  }

  /** `delay` bounds the time from a reader's fetch, or a creator's commit, to its store and its return. */
  predicate Enabled(delay: nat, s: State, e: Event)
    requires s.history != []
  {
    match e
    case Tick(_) => true
    case Commit(_) => true
    case Create(r, _) => r !in s.readers
    case Invalidate => true
    case Hit => s.entry.Some? && s.now <= s.entry.value.expires
    case Fetch(r) => r !in s.readers
    case Store(r) => r in s.readers && !s.readers[r].stored && s.now <= s.readers[r].at + delay
    case Return(r) => r in s.readers && !s.readers[r].returned && s.now <= s.readers[r].at + delay
  }

  function Next(key: Key, s: State, e: Event): (s': State)
    requires s.history != []
    requires e.Hit? ==> s.entry.Some?
    requires e.Store? || e.Return? ==> e.reader in s.readers
    ensures s'.history != []
  {
    var last := |s.history| - 1;
    match e
    case Tick(d) => s.(now := s.now + d)
    case Commit(write) => s.(history := s.history + [Version(s.now, Apply(s.history[last].db, write))])
    case Create(r, c) =>
      var (db, outcome) := Inserted(s.history[last].db, c);
      var held := Reader(RowView(c.status, c.budgetCents), s.now, last + 1, false, true);
      s.(history := s.history + [Version(s.now, db)],
         readers := if outcome.Done? && key == CampaignKey(c.id) then s.readers[r := held] else s.readers)
    case Invalidate => s.(entry := None)
    case Hit =>
      var entry := s.entry.value;
      s.(answers := s.answers + [Answer(s.now, entry.view, entry.fetchedAt, entry.version)])
    case Fetch(r) =>
      var view := ViewOf(key, s.history[last].db);
      s.(readers := s.readers[r := Reader(view, s.now, last, view == NoRow || !LoadsCache(key), false)])
    case Store(r) =>
      var reader := s.readers[r];
      s.(entry := Some(Entry(reader.view, s.now + TTL(key), reader.at, reader.version)),
         readers := s.readers[r := reader.(stored := true)])
    case Return(r) =>
      var reader := s.readers[r];
      s.(answers := s.answers + [Answer(s.now, reader.view, reader.at, reader.version)],
         readers := s.readers[r := reader.(returned := true)])
  }

  function Exec(key: Key, delay: nat, db: Database, events: seq<Event>): (r: Option<State>)
    ensures r.Some? ==> r.value.history != []
  {
    if events == [] then Some(Init(db))
    else
      match Exec(key, delay, db, events[..|events| - 1])
      case None => None
      case Some(s) =>
        if Enabled(delay, s, events[|events| - 1]) then Some(Next(key, s, events[|events| - 1])) else None
  }

  // ---------------------------------------------------------------------------------------------
  // The invariant
  // ---------------------------------------------------------------------------------------------

  /** Version k was the database at time u. */
  ghost predicate InForce(history: seq<Version>, k: nat, u: nat) {
    && k < |history|
    && history[k].at <= u
    && (k + 1 < |history| ==> u <= history[k + 1].at)
  }

  ghost predicate Witnessed(key: Key, s: State, view: View, fetchedAt: nat, version: nat) {
    && fetchedAt <= s.now
    && InForce(s.history, version, fetchedAt)
    && view == ViewOf(key, s.history[version].db)
  }

  ghost predicate HistoryInv(s: State) {
    && s.history != []
    && s.history[|s.history| - 1].at <= s.now
    && (forall j, k :: 0 <= j <= k < |s.history| ==> s.history[j].at <= s.history[k].at)
  }

  ghost predicate ReadersInv(key: Key, s: State) {
    forall r :: r in s.readers ==> Witnessed(key, s, s.readers[r].view, s.readers[r].at, s.readers[r].version)
  }

  ghost predicate EntryInv(key: Key, delay: nat, s: State) {
    s.entry.Some? ==>
      && Witnessed(key, s, s.entry.value.view, s.entry.value.fetchedAt, s.entry.value.version)
      && s.entry.value.expires <= s.entry.value.fetchedAt + delay + TTL(key)
  }

  ghost predicate AnswerInv(key: Key, delay: nat, s: State, a: Answer) {
    && Witnessed(key, s, a.view, a.fetchedAt, a.version)
    && a.fetchedAt <= a.at <= a.fetchedAt + delay + TTL(key)
  }

  ghost predicate AnswersInv(key: Key, delay: nat, s: State) {
    forall i :: 0 <= i < |s.answers| ==> AnswerInv(key, delay, s, s.answers[i])
  }

  ghost predicate Inv(key: Key, delay: nat, s: State) {
    HistoryInv(s) && ReadersInv(key, s) && EntryInv(key, delay, s) && AnswersInv(key, delay, s)
  }

  /** Later time and later commits do not unmake a witness. */
  lemma WitnessLasts(key: Key, s: State, s': State, view: View, fetchedAt: nat, version: nat)
    requires Witnessed(key, s, view, fetchedAt, version)
    requires s.now <= s'.now && s.history <= s'.history
    requires |s'.history| > |s.history| ==> s'.history[|s.history|].at == s.now
    ensures Witnessed(key, s', view, fetchedAt, version)
  {}

  /** A tick or a commit. */
  lemma TimePasses(key: Key, delay: nat, s: State, s': State)
    requires Inv(key, delay, s) && HistoryInv(s')
    requires s' == s.(now := s'.now, history := s'.history)
    requires s.now <= s'.now && s.history <= s'.history
    requires |s'.history| > |s.history| ==> s'.history[|s.history|].at == s.now
    ensures Inv(key, delay, s')
  {
    forall view, at, version | Witnessed(key, s, view, at, version) ensures Witnessed(key, s', view, at, version) {
      WitnessLasts(key, s, s', view, at, version);
    }
    forall i | 0 <= i < |s'.answers| ensures AnswerInv(key, delay, s', s'.answers[i]) {
      assert AnswerInv(key, delay, s, s.answers[i]);
    }
  }

  lemma CommitInOrder(s: State, db: Database)
    requires HistoryInv(s)
    ensures HistoryInv(s.(history := s.history + [Version(s.now, db)]))
  {
    assert forall j :: 0 <= j < |s.history| ==> s.history[j].at <= s.history[|s.history| - 1].at;
  }

  /** One reader is added or marked; the entry and the answers are witnessed as before. */
  lemma ReaderActs(key: Key, s: State, s': State, r: nat)
    requires ReadersInv(key, s)
    requires s'.now == s.now && s'.history == s.history
    requires forall q :: q in s'.readers && q != r ==> q in s.readers && s'.readers[q] == s.readers[q]
    requires r in s'.readers
    requires Witnessed(key, s, s'.readers[r].view, s'.readers[r].at, s'.readers[r].version)
    ensures ReadersInv(key, s')
  {
    forall q | q in s'.readers
      ensures Witnessed(key, s', s'.readers[q].view, s'.readers[q].at, s'.readers[q].version)
    {
      WitnessLasts(key, s, s', s'.readers[q].view, s'.readers[q].at, s'.readers[q].version);
    }
  }

  lemma AnswerRecorded(key: Key, delay: nat, s: State, answer: Answer, s': State)
    requires AnswersInv(key, delay, s)
    requires s'.now == s.now && s'.history == s.history && s'.answers == s.answers + [answer]
    requires AnswerInv(key, delay, s, answer)
    ensures AnswersInv(key, delay, s')
  {
    forall i | 0 <= i < |s'.answers| ensures AnswerInv(key, delay, s', s'.answers[i]) {
      assert AnswerInv(key, delay, s, s'.answers[i]);
      WitnessLasts(key, s, s', s'.answers[i].view, s'.answers[i].fetchedAt, s'.answers[i].version);
    }
  }

  lemma AnswersKept(key: Key, delay: nat, s: State, s': State)
    requires AnswersInv(key, delay, s)
    requires s'.now == s.now && s'.history == s.history && s'.answers == s.answers
    ensures AnswersInv(key, delay, s')
  {
    forall i | 0 <= i < |s'.answers| ensures AnswerInv(key, delay, s', s'.answers[i]) {
      assert AnswerInv(key, delay, s, s.answers[i]);
    }
  }

  /** A new reader that holds a witnessed value. */
  lemma HeldKeepsInv(key: Key, delay: nat, s: State, r: nat, reader: Reader)
    requires Inv(key, delay, s) && Witnessed(key, s, reader.view, reader.at, reader.version)
    ensures Inv(key, delay, s.(readers := s.readers[r := reader]))
  {
    var s' := s.(readers := s.readers[r := reader]);
    ReaderActs(key, s, s', r);
    AnswersKept(key, delay, s, s');
  }

  lemma FetchKeepsInv(key: Key, delay: nat, s: State, r: nat)
    requires Inv(key, delay, s) && r !in s.readers
    ensures Inv(key, delay, Next(key, s, Fetch(r)))
  {
    HeldKeepsInv(key, delay, s, r, Next(key, s, Fetch(r)).readers[r]);
  }

  lemma EntryKeepsInv(key: Key, delay: nat, s: State, entry: Entry)
    requires Inv(key, delay, s) && Witnessed(key, s, entry.view, entry.fetchedAt, entry.version)
    requires entry.expires <= entry.fetchedAt + delay + TTL(key)
    ensures Inv(key, delay, s.(entry := Some(entry)))
  {
    AnswersKept(key, delay, s, s.(entry := Some(entry)));
  }

  lemma AnswerKeepsInv(key: Key, delay: nat, s: State, answer: Answer)
    requires Inv(key, delay, s) && AnswerInv(key, delay, s, answer)
    ensures Inv(key, delay, s.(answers := s.answers + [answer]))
  {
    AnswerRecorded(key, delay, s, answer, s.(answers := s.answers + [answer]));
  }

  lemma StoreKeepsInv(key: Key, delay: nat, s: State, r: nat)
    requires Inv(key, delay, s) && Enabled(delay, s, Store(r))
    ensures Inv(key, delay, Next(key, s, Store(r)))
  {
    var reader := s.readers[r];
    assert Witnessed(key, s, reader.view, reader.at, reader.version);
    HeldKeepsInv(key, delay, s, r, reader.(stored := true));
    EntryKeepsInv(key, delay, s.(readers := s.readers[r := reader.(stored := true)]),
                  Entry(reader.view, s.now + TTL(key), reader.at, reader.version));
  }

  lemma ReturnKeepsInv(key: Key, delay: nat, s: State, r: nat)
    requires Inv(key, delay, s) && Enabled(delay, s, Return(r))
    ensures Inv(key, delay, Next(key, s, Return(r)))
  {
    var reader := s.readers[r];
    assert Witnessed(key, s, reader.view, reader.at, reader.version);
    HeldKeepsInv(key, delay, s, r, reader.(returned := true));
    AnswerKeepsInv(key, delay, s.(readers := s.readers[r := reader.(returned := true)]),
                   Answer(s.now, reader.view, reader.at, reader.version));
  }

  lemma HitKeepsInv(key: Key, delay: nat, s: State)
    requires Inv(key, delay, s) && Enabled(delay, s, Hit)
    ensures Inv(key, delay, Next(key, s, Hit))
  {
    var entry := s.entry.value;
    AnswerKeepsInv(key, delay, s, Answer(s.now, entry.view, entry.fetchedAt, entry.version));
  }

  /** The snapshot that a creator caches has the status and budget that its commit stored. */
  lemma SnapshotIsCurrent(db: Database, c: Campaign)
    requires Inserted(db, c).1.Done?
    ensures RowView(c.status, c.budgetCents) == ViewOf(CampaignKey(c.id), Inserted(db, c).0)
  {
    FindRowAppended(db.campaigns, StoredRow(c), Canon(c.id));
  }

  lemma CommitKeepsInv(key: Key, delay: nat, s: State, db: Database)
    requires Inv(key, delay, s)
    ensures Inv(key, delay, s.(history := s.history + [Version(s.now, db)]))
  {
    CommitInOrder(s, db);
    TimePasses(key, delay, s, s.(history := s.history + [Version(s.now, db)]));
  }

  lemma CreateKeepsInv(key: Key, delay: nat, s: State, r: nat, c: Campaign)
    requires Inv(key, delay, s) && r !in s.readers
    ensures Inv(key, delay, Next(key, s, Create(r, c)))
  {
    var (db, outcome) := Inserted(s.history[|s.history| - 1].db, c);
    var s1 := s.(history := s.history + [Version(s.now, db)]);
    CommitKeepsInv(key, delay, s, db);
    if outcome.Done? && key == CampaignKey(c.id) {
      SnapshotIsCurrent(s.history[|s.history| - 1].db, c);
      HeldKeepsInv(key, delay, s1, r, Next(key, s, Create(r, c)).readers[r]);
    }
  }

  lemma StepKeepsInv(key: Key, delay: nat, s: State, e: Event)
    requires Inv(key, delay, s) && Enabled(delay, s, e)
    ensures Inv(key, delay, Next(key, s, e))
  {
    match e {
      case Tick(_) => TimePasses(key, delay, s, Next(key, s, e));
      case Commit(write) => CommitKeepsInv(key, delay, s, Apply(s.history[|s.history| - 1].db, write));
      case Create(r, c) => CreateKeepsInv(key, delay, s, r, c);
      case Invalidate => AnswersKept(key, delay, s, Next(key, s, e));
      case Hit => HitKeepsInv(key, delay, s);
      case Fetch(r) => FetchKeepsInv(key, delay, s, r);
      case Store(r) => StoreKeepsInv(key, delay, s, r);
      case Return(r) => ReturnKeepsInv(key, delay, s, r);
    }
  }

  lemma {:induction false} RunKeepsInv(key: Key, delay: nat, db: Database, events: seq<Event>)
    requires Exec(key, delay, db, events).Some?
    ensures Inv(key, delay, Exec(key, delay, db, events).value)
  {
    if events != [] {
      RunKeepsInv(key, delay, db, events[..|events| - 1]);
      StepKeepsInv(key, delay, Exec(key, delay, db, events[..|events| - 1]).value, events[|events| - 1]);
    }
  }

  // ---------------------------------------------------------------------------------------------
  // Main results
  // ---------------------------------------------------------------------------------------------

  /** `view` was current at some time in [since, until]. */
  ghost predicate CurrentWithin(key: Key, history: seq<Version>, view: View, since: int, until: nat) {
    exists k: nat, u: nat :: InForce(history, k, u) && since <= u <= until && view == ViewOf(key, history[k].db)
  }

  /** In every run, every value handed out at time t was the database's at some time from t - TTL - delay to t,
      the TTL being 30 s for the list and 60 s for a campaign. */
  lemma BoundedStaleness(key: Key, delay: nat, db: Database, events: seq<Event>, i: nat)
    requires Exec(key, delay, db, events).Some? && i < |Exec(key, delay, db, events).value.answers|
    ensures var s := Exec(key, delay, db, events).value;
      CurrentWithin(key, s.history, s.answers[i].view, s.answers[i].at - TTL(key) - delay, s.answers[i].at)
  {
    RunKeepsInv(key, delay, db, events);
    var s := Exec(key, delay, db, events).value;
    assert AnswerInv(key, delay, s, s.answers[i]);
    assert InForce(s.history, s.answers[i].version, s.answers[i].fetchedAt);
  }

  lemma QuietIsCurrent(key: Key, delay: nat, s: State, a: Answer)
    requires HistoryInv(s) && AnswerInv(key, delay, s, a)
    requires s.history[|s.history| - 1].at + TTL(key) + delay < a.at
    ensures a.view == ViewOf(key, s.history[|s.history| - 1].db)
  {
    assert forall k :: 0 <= k < |s.history| ==> s.history[k].at <= s.history[|s.history| - 1].at;
  }

  /** Once the database has been quiet for longer than that, every value handed out is the current one. */
  lemma QuietReadsAreCurrent(key: Key, delay: nat, db: Database, events: seq<Event>, s: State, i: nat)
    requires Exec(key, delay, db, events) == Some(s) && i < |s.answers|
    requires s.history[|s.history| - 1].at + TTL(key) + delay < s.answers[i].at
    ensures s.answers[i].view == ViewOf(key, s.history[|s.history| - 1].db)
  {
    RunKeepsInv(key, delay, db, events);
    QuietIsCurrent(key, delay, s, s.answers[i]);
  }

  /** Every value handed out in any run is at most `bound` old. */
  ghost predicate BoundHolds(key: Key, delay: nat, bound: nat) {
    forall db, events, i: nat
      | Exec(key, delay, db, events).Some? && i < |Exec(key, delay, db, events).value.answers| ::
      var s := Exec(key, delay, db, events).value;
      CurrentWithin(key, s.history, s.answers[i].view, s.answers[i].at - bound, s.answers[i].at)
  }

  lemma Extend(key: Key, delay: nat, db: Database, events: seq<Event>, s: State, e: Event)
    requires Exec(key, delay, db, events) == Some(s) && Enabled(delay, s, e)
    ensures Exec(key, delay, db, events + [e]) == Some(Next(key, s, e))
  {
    assert (events + [e])[..|events|] == events;
  }

  lemma FetchedNow(key: Key, delay: nat, db: Database, before: seq<Event>, s: State, r: nat, view: View)
    returns (s': State)
    requires Exec(key, delay, db, before) == Some(s) && s.history != [] && r !in s.readers
    requires LoadsCache(key) && view == ViewOf(key, s.history[|s.history| - 1].db) != NoRow
    ensures Exec(key, delay, db, before + [Fetch(r)]) == Some(s')
    ensures s' == s.(readers := s.readers[r := Reader(view, s.now, |s.history| - 1, false, false)])
  {
    Extend(key, delay, db, before, s, Fetch(r));
    s' := Next(key, s, Fetch(r));
  }

  lemma StoredAtOnce(key: Key, delay: nat, db: Database, before: seq<Event>, s: State, r: nat)
    returns (events: seq<Event>, s': State)
    requires Exec(key, delay, db, before) == Some(s) && s.history != [] && r in s.readers
    requires !s.readers[r].stored && s.readers[r].at == s.now
    ensures Exec(key, delay, db, events) == Some(s')
    ensures s' == s.(entry := s'.entry, readers := s.readers[r := s.readers[r].(stored := true)])
  {
    Extend(key, delay, db, before, s, Store(r));
    events, s' := before + [Store(r)], Next(key, s, Store(r));
  }

  /** The new value is read back and stored. */
  lemma ReadBack(key: Key, delay: nat, db: Database, before: seq<Event>, s: State, view: View)
    returns (events: seq<Event>, s': State)
    requires Exec(key, delay, db, before) == Some(s) && s.history != [] && 1 !in s.readers
    requires LoadsCache(key) && view == ViewOf(key, s.history[|s.history| - 1].db) != NoRow
    ensures Exec(key, delay, db, events) == Some(s')
    ensures s' == s.(entry := s'.entry, readers := s'.readers)
    ensures forall r :: r in s.readers ==> r in s'.readers && s'.readers[r] == s.readers[r]
  {
    var s1 := FetchedNow(key, delay, db, before, s, 1, view);
    events, s' := StoredAtOnce(key, delay, db, before + [Fetch(1)], s1, 1);
  }

  /** A reader stores at the last moment, and its value is read at the last moment. */
  lemma StoredAndReadLate(key: Key, delay: nat, db: Database, before: seq<Event>, s: State, r: nat)
    returns (events: seq<Event>, s': State)
    requires Exec(key, delay, db, before) == Some(s) && s.history != [] && r in s.readers
    requires !s.readers[r].stored && s.readers[r].at == s.now
    ensures Exec(key, delay, db, events) == Some(s') && s'.history == s.history
    ensures s'.answers
         == s.answers + [Answer(s.now + delay + TTL(key), s.readers[r].view, s.now, s.readers[r].version)]
  {
    var s1 := Next(key, s, Tick(delay));
    var s2 := Next(key, s1, Store(r));
    var s3 := Next(key, s2, Tick(TTL(key)));
    Extend(key, delay, db, before, s, Tick(delay));
    Extend(key, delay, db, before + [Tick(delay)], s1, Store(r));
    events := before + [Tick(delay)] + [Store(r)];
    Extend(key, delay, db, events, s2, Tick(TTL(key)));
    Extend(key, delay, db, events + [Tick(TTL(key))], s3, Hit);
    events, s' := events + [Tick(TTL(key))] + [Hit], Next(key, s3, Hit);
  }

  /** A database of one campaign. */
  function Only(row: Campaign): Database {
    Database([row], [], [])
  }

  lemma OnlyViews(row: Campaign, id: string)
    requires Bare(row) && row.status == ACTIVE && IsUUID(id) && row.id == Canon(id)
    ensures ViewOf(ActiveKey, Only(row)) == ListView([row])
    ensures ViewOf(CampaignKey(id), Only(row)) == RowView(row.status, row.budgetCents)
  {
    var p := (c: Campaign) => c.status == ACTIVE;
    assert [row][..0] == [];
    assert Filter(p, [row]) == [row];
    assert ActiveList(Only(row)) == [row];
    assert Only(row).campaigns[0].id == Canon(id);
  }

  /** The campaign of the stalest run, as it is given and as it is stored. */
  function Sample(id: string, budgetCents: int): Campaign {
    Campaign(id, "", id, ACTIVE, budgetCents, 0, 1.0, 0, 0, 0, [], [])
  }

  lemma SampleCreated(id: string)
    requires IsUUID(id)
    ensures Inserted(Database([], [], []), Sample(id, 0)) == (Only(StoredRow(Sample(id, 0))), Done)
  {
    var db, c := Database([], [], []), Sample(id, 0);
    var none: seq<TargetingRule> := [];
    assert StoredRules(c.targetingRules, Canon(id)) == none;
    assert Insertable(db, c);
    assert db.campaigns + [StoredRow(c)] == [StoredRow(c)] && db.rules + none == none;
  }

  lemma SampleChanged(id: string)
    requires IsUUID(id)
    ensures Apply(Only(StoredRow(Sample(id, 0))), Change(Sample(id, 1))) == Only(StoredRow(Sample(id, 1)))
  {
    var row := StoredRow(Sample(id, 0));
    assert Only(row).campaigns[0].id == Canon(id);
    assert SetStatusAndBudget([row], Canon(id), ACTIVE, 1) == [StoredRow(Sample(id, 1))];
  }

  /** Reader 0 holds the only campaign's current value and is yet to store it. */
  ghost predicate Holding(key: Key, s: State, row: Campaign) {
    && s.now == 0 && s.entry == None && s.answers == []
    && s.history != [] && s.history[|s.history| - 1] == Version(0, Only(row))
    && s.readers.Keys == {0} && !s.readers[0].stored && s.readers[0].at == 0
    && s.readers[0].view == ViewOf(key, Only(row))
  }

  lemma JustLoaded(key: Key, delay: nat, row: Campaign)
    requires LoadsCache(key) && ViewOf(key, Only(row)) != NoRow
    ensures Exec(key, delay, Only(row), [Fetch(0)]).Some?
    ensures Holding(key, Exec(key, delay, Only(row), [Fetch(0)]).value, row)
  {
    var s := FetchedNow(key, delay, Only(row), [], Init(Only(row)), 0, ViewOf(key, Only(row)));
    assert [] + [Fetch(0)] == [Fetch(0)];
  }

  lemma JustCreated(delay: nat, c: Campaign, row: Campaign)
    requires var (db, outcome) := Inserted(Database([], [], []), c); outcome.Done? && db == Only(row)
    requires ViewOf(CampaignKey(c.id), Only(row)) == RowView(c.status, c.budgetCents)
    ensures Exec(CampaignKey(c.id), delay, Database([], [], []), [Create(0, c)]).Some?
    ensures Holding(CampaignKey(c.id), Exec(CampaignKey(c.id), delay, Database([], [], []), [Create(0, c)]).value, row)
  {
    var none := Database([], [], []);
    Extend(CampaignKey(c.id), delay, none, [], Init(none), Create(0, c));
    assert [] + [Create(0, c)] == [Create(0, c)];
  }

  /** The sample is held: loaded or, under an id in another form than the row's, just created. */
  lemma SampleHeld(key: Key, delay: nat, id: string) returns (db: Database, events: seq<Event>, s: State)
    requires IsUUID(id) && (key.CampaignKey? ==> key.id == id)
    ensures Exec(key, delay, db, events) == Some(s) && Holding(key, s, StoredRow(Sample(id, 0)))
  {
    var row := StoredRow(Sample(id, 0));
    OnlyViews(row, id);
    if LoadsCache(key) {
      db, events := Only(row), [Fetch(0)];
      JustLoaded(key, delay, row);
    } else {
      db, events := Database([], [], []), [Create(0, Sample(id, 0))];
      SampleCreated(id);
      JustCreated(delay, Sample(id, 0), row);
    }
    s := Exec(key, delay, db, events).value;
  }

  /** The sample is overtaken: a write commits and its delete is delivered. */
  lemma SampleWritten(key: Key, delay: nat, id: string, db: Database, before: seq<Event>, s: State)
    returns (events: seq<Event>, s': State)
    requires IsUUID(id) && Exec(key, delay, db, before) == Some(s) && Holding(key, s, StoredRow(Sample(id, 0)))
    ensures Exec(key, delay, db, events) == Some(s')
    ensures s' == s.(history := s.history + [Version(0, Only(StoredRow(Sample(id, 1))))])
  {
    SampleChanged(id);
    var write := Commit(Change(Sample(id, 1)));
    Extend(key, delay, db, before, s, write);
    Extend(key, delay, db, before + [write], Next(key, s, write), Invalidate);
    events, s' := before + [write] + [Invalidate], Next(key, Next(key, s, write), Invalidate);
  }

  /** A value is held, loaded or just created; a write commits, its delete is delivered, and where the new value is
      cached under this key, it is read back and stored; only then, after the full delay, is the held value stored:
      it is served until its expiry. No delete and no store was lost. */
  lemma StalestRun(key: Key, delay: nat, id: string) returns (db: Database, events: seq<Event>, s: State)
    requires IsUUID(id) && (key.CampaignKey? ==> key.id == id)
    ensures Exec(key, delay, db, events) == Some(s)
    ensures s.history != [] && s.history[|s.history| - 1].at == 0
    ensures |s.answers| == 1 && s.answers[0].at == delay + TTL(key)
    ensures s.answers[0].view != ViewOf(key, s.history[|s.history| - 1].db)
  {
    var was, now := StoredRow(Sample(id, 0)), StoredRow(Sample(id, 1));
    OnlyViews(was, id);
    OnlyViews(now, id);
    assert [was][0] != [now][0];
    db, events, s := SampleHeld(key, delay, id);
    events, s := SampleWritten(key, delay, id, db, events, s);
    if LoadsCache(key) {
      events, s := ReadBack(key, delay, db, events, s, ViewOf(key, Only(now)));
    }
    events, s := StoredAndReadLate(key, delay, db, events, s, 0);
  }

  /** The keys under which something can be cached. */
  predicate Cacheable(key: Key) {
    key.CampaignKey? ==> IsUUID(key.id)
  }

  lemma NotCurrent(key: Key, history: seq<Version>, view: View, since: int, until: nat)
    requires history != [] && (forall k :: 0 <= k < |history| ==> history[k].at == 0) && since > 0
    requires view != ViewOf(key, history[|history| - 1].db)
    ensures !CurrentWithin(key, history, view, since, until)
  {
    assert forall k: nat, u: nat :: InForce(history, k, u) && since <= u ==> k + 1 == |history|;
  }

  lemma AllAtZero(key: Key, delay: nat, db: Database, events: seq<Event>, s: State)
    requires Exec(key, delay, db, events) == Some(s) && s.history[|s.history| - 1].at == 0
    ensures forall k :: 0 <= k < |s.history| ==> s.history[k].at == 0
  {
    RunKeepsInv(key, delay, db, events);
    assert forall k :: 0 <= k < |s.history| ==> s.history[k].at <= s.history[|s.history| - 1].at;
  }

  lemma StalestRead(key: Key, delay: nat, bound: nat)
    requires bound < TTL(key) + delay && Cacheable(key)
    ensures !BoundHolds(key, delay, bound)
  {
    var id := UpperCaseIsAlias();
    var db, events, s := StalestRun(key, delay, if key.CampaignKey? then key.id else id);
    AllAtZero(key, delay, db, events, s);
    NotCurrent(key, s.history, s.answers[0].view, s.answers[0].at - bound, s.answers[0].at);
  }

  /** At every time some version is in force. */
  lemma {:induction false} SomeInForce(history: seq<Version>, at: nat) returns (k: nat)
    requires history != [] && history[0].at <= at
    ensures InForce(history, k, at)
  {
    k := |history| - 1;
    if history[k].at > at {
      k := SomeInForce(history[..k], at);
    }
  }

  lemma {:induction false} StartsAtZero(key: Key, delay: nat, db: Database, events: seq<Event>)
    requires Exec(key, delay, db, events).Some?
    ensures Exec(key, delay, db, events).value.history[0].at == 0
  {
    if events != [] {
      StartsAtZero(key, delay, db, events[..|events| - 1]);
    }
  }

  /** Under a text that is no UUID nothing is ever found, so no answer is stale. */
  lemma NothingStale(key: Key, delay: nat, bound: nat)
    requires !Cacheable(key)
    ensures BoundHolds(key, delay, bound)
  {
    forall db, events, i: nat | Exec(key, delay, db, events).Some? && i < |Exec(key, delay, db, events).value.answers|
      ensures var s := Exec(key, delay, db, events).value;
        CurrentWithin(key, s.history, s.answers[i].view, s.answers[i].at - bound, s.answers[i].at)
    {
      RunKeepsInv(key, delay, db, events);
      StartsAtZero(key, delay, db, events);
      var s := Exec(key, delay, db, events).value;
      assert AnswerInv(key, delay, s, s.answers[i]);
      var k := SomeInForce(s.history, s.answers[i].at);
      assert InForce(s.history, k, s.answers[i].at);
    }
  }

  /** TTL + delay is the exact bound, for the list and for every spelling of every campaign's id. */
  lemma StalenessBoundIff(key: Key, delay: nat, bound: nat)
    ensures BoundHolds(key, delay, bound) <==> bound >= TTL(key) + delay || !Cacheable(key)
  {
    if !Cacheable(key) {
      NothingStale(key, delay, bound);
    } else if bound < TTL(key) + delay {
      StalestRead(key, delay, bound);
    } else {
      forall db, events, i: nat
        | Exec(key, delay, db, events).Some? && i < |Exec(key, delay, db, events).value.answers|
        ensures var s := Exec(key, delay, db, events).value;
          CurrentWithin(key, s.history, s.answers[i].view, s.answers[i].at - bound, s.answers[i].at)
      {
        BoundedStaleness(key, delay, db, events, i);
        var s := Exec(key, delay, db, events).value;
        var k: nat, u: nat :| InForce(s.history, k, u) && s.answers[i].at - TTL(key) - delay <= u <= s.answers[i].at
          && s.answers[i].view == ViewOf(key, s.history[k].db);
      }
    }
  }

  /** In milliseconds: 30 seconds and the delay for the list, 60 seconds and the delay for a campaign. */
  lemma StalenessInMilliseconds(delay: nat, bound: nat, id: string)
    requires IsUUID(id)
    ensures BoundHolds(ActiveKey, delay, bound) <==> bound >= 30000 + delay
    ensures BoundHolds(CampaignKey(id), delay, bound) <==> bound >= 60000 + delay
  {
    StalenessBoundIff(ActiveKey, delay, bound);
    StalenessBoundIff(CampaignKey(id), delay, bound);
  }
}
