/** The DSP fan-out: one goroutine per client, a wait group, a buffered channel, a closer goroutine and a
    collecting loop, as interleaved steps. */
module Fanout {
  import opened Sequences
  import opened Auction

  /** What a client's fetch returns. */
  datatype Answer = Failed | Fetched(bids: seq<Bid>)

  /** A worker's next action: fetch, send its bids, `wg.Done`, none. `Unstarted` waits for its `go`. */
  datatype Worker = Unstarted | Fetching | Sending(bids: seq<Bid>) | Finishing | Finished

  /** The caller's next action: `wg.Add` for client i (or, past the last client, `go` the closer),
      `go` worker i, receive, none. */
  datatype Caller = Spawning(i: nat) | Added(i: nat) | Collecting | Returned

  datatype Closer = Unborn | Waiting | Closing | Done

  /** `sent` is a history of which worker sent when; no step reads it. `panicked` records a send on a closed
      channel, a second close, or a negative wait counter. */
  datatype State = State(workers: seq<Worker>, caller: Caller, closer: Closer, wg: int,
                         channel: seq<seq<Bid>>, closed: bool, allBids: seq<Bid>,
                         sent: seq<nat>, panicked: bool)

  datatype Thread = CallerThread | CloserThread | WorkerThread(i: nat)

  // ---------------------------------------------------------------------------------------------
  // The steps
  // ---------------------------------------------------------------------------------------------

  function Init(n: nat): State {
    State(seq(n, _ => Unstarted), Spawning(0), Unborn, 0, [], false, [], [], false)
  }

  /** A thread can move unless it has nothing left to do or is blocked: on a full channel (capacity: one slot
      a client), on an empty open channel, or on a wait counter above zero. */
  predicate Enabled(s: State, t: Thread) {
    match t
    case CallerThread =>
      (match s.caller
       case Spawning(i) => i <= |s.workers|
       case Added(i) => i < |s.workers|
       case Collecting => s.channel != [] || s.closed
       case Returned => false)
    case CloserThread => (s.closer.Waiting? && s.wg == 0) || s.closer.Closing?
    case WorkerThread(i) =>
      i < |s.workers| &&
      match s.workers[i]
      case Unstarted => false
      case Fetching => true
      case Sending(_) => s.closed || |s.channel| < |s.workers|
      case Finishing => true
      case Finished => false
  }

  function CallerStep(s: State): State
    requires Enabled(s, CallerThread)
  {
    match s.caller
    case Spawning(i) =>
      if i < |s.workers| then s.(wg := s.wg + 1, caller := Added(i))
      else s.(closer := Waiting, caller := Collecting)
    case Added(i) => s.(workers := s.workers[i := Fetching], caller := Spawning(i + 1))
    case Collecting =>
      if s.channel != [] then s.(allBids := s.allBids + s.channel[0], channel := s.channel[1..])
      else s.(caller := Returned)
  }

  function CloserStep(s: State): State
    requires Enabled(s, CloserThread)
  {
    if s.closer.Waiting? then s.(closer := Closing)
    else s.(closer := Done, closed := true, panicked := s.panicked || s.closed)
  }

  function WorkerStep(answer: Answer, s: State, i: nat): State
    requires Enabled(s, WorkerThread(i))
  {
    match s.workers[i]
    case Fetching =>
      var next := if answer.Fetched? && |answer.bids| > 0 then Sending(answer.bids) else Finishing;
      s.(workers := s.workers[i := next])
    case Sending(bids) =>
      if s.closed then s.(panicked := true, workers := s.workers[i := Finishing])
      else s.(channel := s.channel + [bids], sent := s.sent + [i], workers := s.workers[i := Finishing])
    case Finishing => s.(workers := s.workers[i := Finished], wg := s.wg - 1, panicked := s.panicked || s.wg == 0)
  }

  function Next(answers: seq<Answer>, s: State, t: Thread): State
    requires |answers| == |s.workers| && Enabled(s, t)
  {
    match t
    case CallerThread => CallerStep(s)
    case CloserThread => CloserStep(s)
    case WorkerThread(i) => WorkerStep(answers[i], s, i)
  }

  /** The state after a schedule; None when the schedule picks a thread that cannot move. */
  function Exec(answers: seq<Answer>, schedule: seq<Thread>): (r: Option<State>)
    ensures r.Some? ==> |r.value.workers| == |answers|
  {
    if schedule == [] then Some(Init(|answers|))
    else
      var t := schedule[|schedule| - 1];
      match Exec(answers, schedule[..|schedule| - 1])
      case None => None
      case Some(s) => if Enabled(s, t) then Some(Next(answers, s, t)) else None
  }

  // ---------------------------------------------------------------------------------------------
  // The invariant
  // ---------------------------------------------------------------------------------------------

  /** Workers between their `wg.Add` and their `wg.Done`, apart from one that is added but not started. */
  function Running(workers: seq<Worker>): nat {
    if workers == [] then 0
    else Running(workers[..|workers| - 1])
         + if workers[|workers| - 1].Unstarted? || workers[|workers| - 1].Finished? then 0 else 1
  }

  function Started(s: State): nat {
    match s.caller
    case Spawning(i) => i
    case Added(i) => i
    case _ => |s.workers|
  }

  predicate Succeeded(answer: Answer) {
    answer.Fetched? && answer.bids != []
  }

  /** The lists of the clients in `order`, one after the other. */
  function Gather(answers: seq<Answer>, order: seq<nat>): seq<Bid> {
    if order == [] then []
    else
      var i := order[|order| - 1];
      Gather(answers, order[..|order| - 1])
      + if i < |answers| && answers[i].Fetched? then answers[i].bids else []
  }

  ghost predicate SpawnInv(s: State) {
    && Started(s) <= |s.workers|
    && (s.caller.Added? ==> s.caller.i < |s.workers|)
    && (forall i :: 0 <= i < |s.workers| ==> (s.workers[i].Unstarted? <==> i >= Started(s)))
    && s.wg == Running(s.workers) + (if s.caller.Added? then 1 else 0)
    && (s.closer.Unborn? <==> s.caller.Spawning? || s.caller.Added?)
  }

  ghost predicate CloseInv(s: State) {
    && !s.panicked
    && (s.closed <==> s.closer.Done?)
    && (s.closer.Closing? || s.closer.Done? ==> forall i :: 0 <= i < |s.workers| ==> s.workers[i].Finished?)
    && (s.caller.Returned? ==> s.closed && s.channel == [])
  }

  ghost predicate SentInv(answers: seq<Answer>, s: State)
    requires |answers| == |s.workers|
  {
    && Distinct(s.sent)
    && (forall k :: 0 <= k < |s.sent| ==> s.sent[k] < |answers|)
    && (forall i :: 0 <= i < |answers| ==>
          (i in s.sent <==> Succeeded(answers[i]) && (s.workers[i].Finishing? || s.workers[i].Finished?)))
    && (forall i :: 0 <= i < |answers| && s.workers[i].Sending? ==>
          Succeeded(answers[i]) && s.workers[i].bids == answers[i].bids)
  }

  /** The channel holds the lists of the workers in `senders`. */
  ghost predicate Holds(answers: seq<Answer>, senders: seq<nat>, channel: seq<seq<Bid>>) {
    && |senders| == |channel|
    && forall k :: 0 <= k < |channel| ==> senders[k] < |answers| && answers[senders[k]] == Fetched(channel[k])
  }

  ghost predicate DeliveryInv(answers: seq<Answer>, s: State)
    requires |answers| == |s.workers|
  {
    && |s.channel| <= |s.sent|
    && s.allBids == Gather(answers, s.sent[..|s.sent| - |s.channel|])
    && Holds(answers, s.sent[|s.sent| - |s.channel|..], s.channel)
  }

  ghost predicate Inv(answers: seq<Answer>, s: State) {
    && |answers| == |s.workers|
    && SpawnInv(s)
    && CloseInv(s)
    && SentInv(answers, s)
    && DeliveryInv(answers, s)
  }

  lemma {:induction false} RunningUpdate(workers: seq<Worker>, i: nat, w: Worker)
    requires i < |workers|
    ensures Running(workers[i := w])
         == Running(workers) - (if workers[i].Unstarted? || workers[i].Finished? then 0 else 1)
            + (if w.Unstarted? || w.Finished? then 0 else 1)
  {
    var n := |workers| - 1;
    if i == n {
      assert workers[i := w][..n] == workers[..n];
    } else {
      assert workers[i := w][..n] == workers[..n][i := w];
      RunningUpdate(workers[..n], i, w);
    }
  }

  lemma {:induction false} RunningZero(workers: seq<Worker>)
    ensures Running(workers) == 0 <==> forall i :: 0 <= i < |workers| ==> workers[i].Unstarted? || workers[i].Finished?
  {
    if workers != [] {
      RunningZero(workers[..|workers| - 1]);
      assert forall i :: 0 <= i < |workers| - 1 ==> workers[i] == workers[..|workers| - 1][i];
    }
  }

  function Below(n: nat): (r: set<nat>)
    ensures |r| == n && forall i: nat :: i in r <==> i < n
  {
    if n == 0 then {} else Below(n - 1) + {n - 1}
  }

  function Elements(s: seq<nat>): (r: set<nat>)
    requires Distinct(s)
    ensures |r| == |s| && forall i :: i in r <==> i in s
  {
    if s == [] then {}
    else
      SplitLast(s);
      Elements(s[..|s| - 1]) + {s[|s| - 1]}
  }

  lemma SmallerSubset(a: set<nat>, b: set<nat>, x: nat)
    requires a <= b && x in b && x !in a
    ensures |a| < |b|
  {
    assert b == a + (b - a);
    assert |b| == |a| + |b - a|;
  }

  /** Distinct indices below n with one index missing are fewer than n. */
  lemma RoomLeft(s: seq<nat>, n: nat, missing: nat)
    requires Distinct(s) && missing < n && missing !in s
    requires forall k :: 0 <= k < |s| ==> s[k] < n
    ensures |s| < n
  {
    SmallerSubset(Elements(s), Below(n), missing);
  }

  // ---------------------------------------------------------------------------------------------
  // Preservation, thread by thread
  // ---------------------------------------------------------------------------------------------

  lemma InitInv(answers: seq<Answer>)
    ensures Inv(answers, Init(|answers|))
  {
    RunningZero(Init(|answers|).workers);
  }

  lemma ReceiveKeepsDelivery(answers: seq<Answer>, s: State)
    requires |answers| == |s.workers| && DeliveryInv(answers, s) && s.channel != []
    ensures DeliveryInv(answers, s.(allBids := s.allBids + s.channel[0], channel := s.channel[1..]))
  {
    var received := |s.sent| - |s.channel|;
    var senders := s.sent[received..];
    assert senders[0] == s.sent[received] && s.sent[received + 1..] == senders[1..];
    assert s.sent[..received + 1][..received] == s.sent[..received];
  }

  lemma CallerKeepsCounts(s: State)
    requires SpawnInv(s) && CloseInv(s) && Enabled(s, CallerThread)
    ensures SpawnInv(CallerStep(s)) && CloseInv(CallerStep(s))
  {
    if s.caller.Added? {
      RunningUpdate(s.workers, s.caller.i, Fetching);
    }
  }

  lemma CallerKeepsInv(answers: seq<Answer>, s: State)
    requires Inv(answers, s) && Enabled(s, CallerThread)
    ensures Inv(answers, CallerStep(s))
  {
    CallerKeepsCounts(s);
    if s.caller.Collecting? && s.channel != [] {
      ReceiveKeepsDelivery(answers, s);
    }
  }

  lemma CloserKeepsInv(answers: seq<Answer>, s: State)
    requires Inv(answers, s) && Enabled(s, CloserThread)
    ensures Inv(answers, CloserStep(s))
  {
    RunningZero(s.workers);
  }

  lemma WorkerKeepsCounts(answers: seq<Answer>, s: State, i: nat)
    requires |answers| == |s.workers| && SpawnInv(s) && CloseInv(s) && Enabled(s, WorkerThread(i))
    ensures SpawnInv(WorkerStep(answers[i], s, i)) && CloseInv(WorkerStep(answers[i], s, i))
  {
    assert !s.workers[i].Finished? && !s.closed;
    RunningUpdate(s.workers, i, WorkerStep(answers[i], s, i).workers[i]);
    RunningZero(s.workers);
  }

  lemma WorkerKeepsSent(answers: seq<Answer>, s: State, i: nat)
    requires |answers| == |s.workers| && SentInv(answers, s) && !s.closed && Enabled(s, WorkerThread(i))
    ensures SentInv(answers, WorkerStep(answers[i], s, i))
  {
    var s' := WorkerStep(answers[i], s, i);
    if s.workers[i].Sending? {
      assert i !in s.sent;
      assert forall j :: j in s'.sent <==> j in s.sent || j == i;
    } else {
      assert s'.sent == s.sent;
    }
  }

  lemma WorkerKeepsDelivery(answers: seq<Answer>, s: State, i: nat)
    requires |answers| == |s.workers| && DeliveryInv(answers, s) && !s.closed && Enabled(s, WorkerThread(i))
    requires s.workers[i].Sending? ==> answers[i] == Fetched(s.workers[i].bids)
    ensures DeliveryInv(answers, WorkerStep(answers[i], s, i))
  {
    if s.workers[i].Sending? {
      var received := |s.sent| - |s.channel|;
      assert (s.sent + [i])[..received] == s.sent[..received];
      assert (s.sent + [i])[received..] == s.sent[received..] + [i];
    }
  }

  lemma WorkerKeepsInv(answers: seq<Answer>, s: State, i: nat)
    requires Inv(answers, s) && Enabled(s, WorkerThread(i))
    ensures Inv(answers, WorkerStep(answers[i], s, i))
  {
    assert !s.workers[i].Finished? && !s.closed;
    WorkerKeepsCounts(answers, s, i);
    WorkerKeepsSent(answers, s, i);
    WorkerKeepsDelivery(answers, s, i);
  }

  lemma {:induction false} RunKeepsInv(answers: seq<Answer>, schedule: seq<Thread>)
    requires Exec(answers, schedule).Some?
    ensures Inv(answers, Exec(answers, schedule).value)
  {
    if schedule == [] {
      InitInv(answers);
    } else {
      var init, t := schedule[..|schedule| - 1], schedule[|schedule| - 1];
      RunKeepsInv(answers, init);
      var s := Exec(answers, init).value;
      match t {
        case CallerThread => CallerKeepsInv(answers, s);
        case CloserThread => CloserKeepsInv(answers, s);
        case WorkerThread(i) => WorkerKeepsInv(answers, s, i);
      }
    }
  }
}
