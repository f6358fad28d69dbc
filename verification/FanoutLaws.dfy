/** What the fan-out guarantees in every interleaving of its goroutines. */
module FanoutLaws {
  import opened Sequences
  import opened Auction
  import opened Fanout

  // ---------------------------------------------------------------------------------------------
  // Safety
  // ---------------------------------------------------------------------------------------------

  /** In every reachable state: nothing panicked, a worker that wants to send finds the channel open with
      room, and the channel is closed only once every worker has finished. */
  lemma ChannelSafety(answers: seq<Answer>, schedule: seq<Thread>)
    requires Exec(answers, schedule).Some?
    ensures var s := Exec(answers, schedule).value;
      && !s.panicked
      && (s.closed ==> forall i :: 0 <= i < |answers| ==> s.workers[i].Finished?)
      && (forall i :: 0 <= i < |answers| && s.workers[i].Sending? ==> !s.closed && |s.channel| < |answers|)
  {
    RunKeepsInv(answers, schedule);
    var s := Exec(answers, schedule).value;
    forall i | 0 <= i < |answers| && s.workers[i].Sending? ensures |s.channel| < |answers| {
      RoomLeft(s.sent, |answers|, i);
    }
  }

  /** No deadlock: until the caller returns some thread can move; when it has returned, every worker has
      finished, the closer is done and no thread is left that could move. */
  lemma Progress(answers: seq<Answer>, s: State)
    requires Inv(answers, s)
    ensures !s.caller.Returned? <==> exists t :: Enabled(s, t)
    ensures s.caller.Returned? ==> s.closer.Done? && forall i :: 0 <= i < |answers| ==> s.workers[i].Finished?
  {
    if s.caller.Returned? {
      forall t ensures !Enabled(s, t) {}
    } else if s.caller.Spawning? || s.caller.Added? || s.closed || s.channel != [] {
      assert Enabled(s, CallerThread);
    } else if exists i :: 0 <= i < |answers| && !s.workers[i].Finished? {
      var i :| 0 <= i < |answers| && !s.workers[i].Finished?;
      assert Enabled(s, WorkerThread(i));
    } else {
      RunningZero(s.workers);
      assert Enabled(s, CloserThread);
    }
  }

  // ---------------------------------------------------------------------------------------------
  // Termination
  // ---------------------------------------------------------------------------------------------

  function WorkerMeasure(workers: seq<Worker>): nat {
    if workers == [] then 0
    else WorkerMeasure(workers[..|workers| - 1])
         + match workers[|workers| - 1]
           case Unstarted => 4
           case Fetching => 4
           case Sending(_) => 3
           case Finishing => 1
           case Finished => 0
  }

  function Measure(s: State): int {
    WorkerMeasure(s.workers) + |s.channel|
    + (match s.caller
       case Spawning(i) => 2 * (|s.workers| - i) + 2
       case Added(i) => 2 * (|s.workers| - i) + 1
       case Collecting => 1
       case Returned => 0)
    + (match s.closer case Unborn => 2 case Waiting => 2 case Closing => 1 case Done => 0)
  }

  lemma {:induction false} WorkerMeasureUpdate(workers: seq<Worker>, i: nat, w: Worker)
    requires i < |workers|
    ensures WorkerMeasure(workers[i := w])
         == WorkerMeasure(workers) - WorkerMeasure([workers[i]]) + WorkerMeasure([w])
  {
    var n := |workers| - 1;
    if i == n {
      assert workers[i := w][..n] == workers[..n];
    } else {
      assert workers[i := w][..n] == workers[..n][i := w];
      WorkerMeasureUpdate(workers[..n], i, w);
    }
  }

  lemma StepDecreases(answers: seq<Answer>, s: State, t: Thread)
    requires Inv(answers, s) && Enabled(s, t)
    ensures 0 <= Measure(Next(answers, s, t)) < Measure(s)
  {
    match t {
      case WorkerThread(i) => WorkerMeasureUpdate(s.workers, i, Next(answers, s, t).workers[i]);
      case CallerThread => if s.caller.Added? { WorkerMeasureUpdate(s.workers, s.caller.i, Fetching); }
      case CloserThread =>
    }
  }

  lemma {:induction false} InitMeasure(n: nat)
    ensures Measure(Init(n)) == 6 * n + 4
  {
    if n > 0 {
      InitMeasure(n - 1);
      assert Init(n).workers[..n - 1] == Init(n - 1).workers;
    }
  }

  /** Every interleaving of n clients stops within 6n + 4 steps, n = 0 included. */
  lemma {:induction false} RunsAreFinite(answers: seq<Answer>, schedule: seq<Thread>)
    requires Exec(answers, schedule).Some?
    ensures |schedule| + Measure(Exec(answers, schedule).value) <= 6 * |answers| + 4
    ensures |schedule| <= 6 * |answers| + 4
  {
    if schedule == [] {
      InitMeasure(|answers|);
    } else {
      var init := schedule[..|schedule| - 1];
      RunsAreFinite(answers, init);
      RunKeepsInv(answers, init);
      StepDecreases(answers, Exec(answers, init).value, schedule[|schedule| - 1]);
    }
  }

  // ---------------------------------------------------------------------------------------------
  // The result
  // ---------------------------------------------------------------------------------------------

  /** `order` lists the successful clients, each once. */
  ghost predicate Arrangement(answers: seq<Answer>, order: seq<nat>) {
    && Distinct(order)
    && (forall k :: 0 <= k < |order| ==> order[k] < |answers|)
    && (forall i :: 0 <= i < |answers| ==> (i in order <==> Succeeded(answers[i])))
  }

  /** When the caller returns, its bids are the successful clients' lists, each whole and in its own order,
      in the order in which the workers sent them. */
  lemma ResultIsArrangement(answers: seq<Answer>, schedule: seq<Thread>)
    requires Exec(answers, schedule).Some? && Exec(answers, schedule).value.caller.Returned?
    ensures var s := Exec(answers, schedule).value;
      Arrangement(answers, s.sent) && s.allBids == Gather(answers, s.sent)
  {
    RunKeepsInv(answers, schedule);
    var s := Exec(answers, schedule).value;
    Progress(answers, s);
    assert s.sent[..|s.sent|] == s.sent;
  }

  lemma {:induction false} GatherAppend(answers: seq<Answer>, a: seq<nat>, b: seq<nat>)
    ensures Gather(answers, a + b) == Gather(answers, a) + Gather(answers, b)
  {
    if b == [] {
      assert a + b == a;
    } else {
      assert (a + b)[..|a + b| - 1] == a + b[..|b| - 1];
      GatherAppend(answers, a, b[..|b| - 1]);
    }
  }

  lemma GatherAround(answers: seq<Answer>, l: seq<nat>, i: nat, r: seq<nat>)
    ensures multiset(Gather(answers, l + [i] + r)) == multiset(Gather(answers, l + r)) + multiset(Gather(answers, [i]))
  {
    var left, mid, right := Gather(answers, l), Gather(answers, [i]), Gather(answers, r);
    GatherAppend(answers, l + [i], r);
    GatherAppend(answers, l, [i]);
    GatherAppend(answers, l, r);
    assert multiset(left + mid + right) == multiset(left + right) + multiset(mid);
  }

  lemma {:induction false} GatherPermutation(answers: seq<Answer>, a: seq<nat>, b: seq<nat>)
    requires Permutation(a, b)
    ensures Permutation(Gather(answers, a), Gather(answers, b))
  {
    PermutationMembers(a, b);
    if |a| > 0 {
      var n := |a| - 1;
      assert a[n] in a;
      var i: nat :| i < |b| && b[i] == a[n];
      assert b == b[..i] + [a[n]] + b[i + 1..];
      SplitLast(a);
      RemoveAt(b, i);
      GatherPermutation(answers, a[..n], b[..i] + b[i + 1..]);
      GatherAround(answers, b[..i], a[n], b[i + 1..]);
      GatherAppend(answers, a[..n], [a[n]]);
    }
  }

  lemma {:induction false} DistinctSameElements(a: seq<nat>, b: seq<nat>)
    requires Distinct(a) && Distinct(b) && forall i :: i in a <==> i in b
    ensures Permutation(a, b)
  {
    forall x ensures multiset(a)[x] == multiset(b)[x] {
      DistinctMultiplicity(a, x);
      DistinctMultiplicity(b, x);
    }
  }

  /** Two complete runs over the same answers return the same bids, with the same multiplicities. */
  lemma RunsReturnSameBids(answers: seq<Answer>, schedule1: seq<Thread>, schedule2: seq<Thread>)
    requires Exec(answers, schedule1).Some? && Exec(answers, schedule1).value.caller.Returned?
    requires Exec(answers, schedule2).Some? && Exec(answers, schedule2).value.caller.Returned?
    ensures Permutation(Exec(answers, schedule1).value.allBids, Exec(answers, schedule2).value.allBids)
  {
    ResultIsArrangement(answers, schedule1);
    ResultIsArrangement(answers, schedule2);
    var a, b := Exec(answers, schedule1).value.sent, Exec(answers, schedule2).value.sent;
    forall i ensures i in a <==> i in b {
      if i in a { var k :| 0 <= k < |a| && a[k] == i; }
      if i in b { var k :| 0 <= k < |b| && b[k] == i; }
    }
    DistinctSameElements(a, b);
    GatherPermutation(answers, a, b);
  }

  // ---------------------------------------------------------------------------------------------
  // The result, said of the answers alone
  // ---------------------------------------------------------------------------------------------

  /** All bids of the first n clients that were fetched. */
  function Answered(answers: seq<Answer>, n: nat): multiset<Bid>
    requires n <= |answers|
  {
    if n == 0 then multiset{}
    else Answered(answers, n - 1) + if answers[n - 1].Fetched? then multiset(answers[n - 1].bids) else multiset{}
  }

  /** Somewhere in `whole` `part` stands, unbroken. */
  ghost predicate StandsIn(part: seq<Bid>, whole: seq<Bid>) {
    exists k :: 0 <= k <= |whole| && part <= whole[k..]
  }

  lemma StandsBetween(l: seq<Bid>, part: seq<Bid>, r: seq<Bid>)
    ensures StandsIn(part, l + part + r)
  {
    assert (l + part + r)[|l|..] == part + r;
  }

  function Senders(answers: seq<Answer>, n: nat): seq<nat>
    requires n <= |answers|
  {
    if n == 0 then [] else Senders(answers, n - 1) + if Succeeded(answers[n - 1]) then [n - 1] else []
  }

  lemma {:induction false} SendersInOrder(answers: seq<Answer>, n: nat)
    requires n <= |answers|
    ensures Distinct(Senders(answers, n))
    ensures forall i: nat :: i in Senders(answers, n) <==> i < n && Succeeded(answers[i])
  {
    if n > 0 {
      SendersInOrder(answers, n - 1);
    }
  }

  lemma GatherSnoc(answers: seq<Answer>, order: seq<nat>, i: nat)
    requires i < |answers|
    ensures Gather(answers, order + [i])
         == Gather(answers, order) + if answers[i].Fetched? then answers[i].bids else []
  {
    assert (order + [i])[..|order|] == order;
  }

  lemma MultisetAppend(a: seq<Bid>, b: seq<Bid>)
    ensures multiset(a + b) == multiset(a) + multiset(b)
  {}

  /** What a worker sends. */
  function Sent(answer: Answer): multiset<Bid> {
    if Succeeded(answer) then multiset(answer.bids) else multiset{}
  }

  lemma AnsweredStep(answers: seq<Answer>, n: nat)
    requires 0 < n <= |answers|
    ensures Answered(answers, n)
         == Answered(answers, n - 1) + Sent(answers[n - 1])
  {}

  lemma SendersGrow(answers: seq<Answer>, n: nat)
    requires 0 < n <= |answers|
    ensures Succeeded(answers[n - 1]) ==> Senders(answers, n) == Senders(answers, n - 1) + [n - 1]
    ensures !Succeeded(answers[n - 1]) ==> Senders(answers, n) == Senders(answers, n - 1)
  {}

  lemma OneMoreGathered(answers: seq<Answer>, order: seq<nat>, i: nat)
    requires i < |answers| && Succeeded(answers[i])
    ensures multiset(Gather(answers, order + [i])) == multiset(Gather(answers, order)) + Sent(answers[i])
  {
    GatherSnoc(answers, order, i);
    MultisetAppend(Gather(answers, order), answers[i].bids);
  }

  lemma SenderGathered(answers: seq<Answer>, n: nat)
    requires 0 < n <= |answers|
    ensures multiset(Gather(answers, Senders(answers, n)))
         == multiset(Gather(answers, Senders(answers, n - 1))) + Sent(answers[n - 1])
  {
    SendersGrow(answers, n);
    if Succeeded(answers[n - 1]) {
      OneMoreGathered(answers, Senders(answers, n - 1), n - 1);
    }
  }

  lemma SumsAgree(a: multiset<Bid>, b: multiset<Bid>, more: multiset<Bid>, x: multiset<Bid>, y: multiset<Bid>)
    requires a == b && x == a + more && y == b + more
    ensures x == y
  {}

  lemma {:induction false} GatheredIsAnswered(answers: seq<Answer>, n: nat, gathered: multiset<Bid>)
    requires n <= |answers| && gathered == multiset(Gather(answers, Senders(answers, n)))
    ensures gathered == Answered(answers, n)
  {
    if n > 0 {
      var earlier := multiset(Gather(answers, Senders(answers, n - 1)));
      GatheredIsAnswered(answers, n - 1, earlier);
      SenderGathered(answers, n);
      AnsweredStep(answers, n);
      SumsAgree(earlier, Answered(answers, n - 1), Sent(answers[n - 1]), gathered, Answered(answers, n));
    }
  }

  lemma GatheredWhole(answers: seq<Answer>, order: seq<nat>, i: nat)
    requires i in order && i < |answers| && answers[i].Fetched?
    ensures StandsIn(answers[i].bids, Gather(answers, order))
  {
    var k :| 0 <= k < |order| && order[k] == i;
    var l, r := order[..k], order[k + 1..];
    assert order == l + [i] + r;
    GatherAppend(answers, l + [i], r);
    GatherSnoc(answers, l, i);
    assert Gather(answers, order) == Gather(answers, l) + answers[i].bids + Gather(answers, r);
    StandsBetween(Gather(answers, l), answers[i].bids, Gather(answers, r));
  }

  lemma ArrangementIsAnswered(answers: seq<Answer>, order: seq<nat>)
    requires Arrangement(answers, order)
    ensures multiset(Gather(answers, order)) == Answered(answers, |answers|)
    ensures forall i :: 0 <= i < |answers| && answers[i].Fetched? ==> StandsIn(answers[i].bids, Gather(answers, order))
  {
    var senders := Senders(answers, |answers|);
    SendersInOrder(answers, |answers|);
    forall i: nat ensures i in order <==> i in senders {
      if i in order { var k :| 0 <= k < |order| && order[k] == i; }
    }
    DistinctSameElements(order, senders);
    GatherPermutation(answers, order, senders);
    GatheredIsAnswered(answers, |answers|, multiset(Gather(answers, senders)));
    forall i | 0 <= i < |answers| && answers[i].Fetched? ensures StandsIn(answers[i].bids, Gather(answers, order)) {
      if answers[i].bids == [] {
        assert [] + answers[i].bids + Gather(answers, order) == Gather(answers, order);
        StandsBetween([], answers[i].bids, Gather(answers, order));
      } else {
        GatheredWhole(answers, order, i);
      }
    }
  }

  /** Every complete run returns exactly the bids of all clients that were fetched, with their multiplicities, and
      each such client's bids in one unbroken stretch. */
  lemma EveryAnswerReturned(answers: seq<Answer>, schedule: seq<Thread>)
    requires Exec(answers, schedule).Some? && Exec(answers, schedule).value.caller.Returned?
    ensures var allBids := Exec(answers, schedule).value.allBids;
      && multiset(allBids) == Answered(answers, |answers|)
      && forall i :: 0 <= i < |answers| && answers[i].Fetched? ==> StandsIn(answers[i].bids, allBids)
  {
    ResultIsArrangement(answers, schedule);
    ArrangementIsAnswered(answers, Exec(answers, schedule).value.sent);
  }

  // ---------------------------------------------------------------------------------------------
  // Every order is possible
  // ---------------------------------------------------------------------------------------------

  lemma ExecStep(answers: seq<Answer>, schedule: seq<Thread>, t: Thread)
    requires Exec(answers, schedule).Some? && Enabled(Exec(answers, schedule).value, t)
    ensures Exec(answers, schedule + [t]) == Some(Next(answers, Exec(answers, schedule).value, t))
  {
    assert (schedule + [t])[..|schedule|] == schedule;
  }

  /** Every partial run can be completed, and completing it keeps what was already sent, in order. */
  lemma Completion(answers: seq<Answer>, schedule: seq<Thread>) returns (full: seq<Thread>)
    requires Exec(answers, schedule).Some?
    ensures schedule <= full && Exec(answers, full).Some? && Exec(answers, full).value.caller.Returned?
    ensures Exec(answers, schedule).value.sent <= Exec(answers, full).value.sent
    decreases Measure(Exec(answers, schedule).value)
  {
    var s := Exec(answers, schedule).value;
    RunKeepsInv(answers, schedule);
    Progress(answers, s);
    if s.caller.Returned? {
      full := schedule;
    } else {
      var t :| Enabled(s, t);
      ExecStep(answers, schedule, t);
      StepDecreases(answers, s, t);
      full := Completion(answers, schedule + [t]);
    }
  }

  /** All workers started, none has fetched yet. */
  lemma AllStarted(answers: seq<Answer>) returns (schedule: seq<Thread>)
    ensures Exec(answers, schedule).Some?
    ensures Exec(answers, schedule).value.sent == []
    ensures forall i :: 0 <= i < |answers| ==> Exec(answers, schedule).value.workers[i] == Fetching
  {
    schedule := [];
    for i := 0 to |answers|
      invariant Exec(answers, schedule).Some?
      invariant var s := Exec(answers, schedule).value; s.sent == [] && s.caller == Spawning(i)
      invariant forall j :: 0 <= j < i ==> Exec(answers, schedule).value.workers[j] == Fetching
    {
      ExecStep(answers, schedule, CallerThread);
      ExecStep(answers, schedule + [CallerThread], CallerThread);
      schedule := schedule + [CallerThread] + [CallerThread];
    }
  }

  /** The fan-out decides nothing about the order: any arrangement of the successful clients is the result
      of some complete run. With `ResultIsArrangement`, the possible results are exactly these. */
  lemma EveryArrangementHappens(answers: seq<Answer>, order: seq<nat>) returns (schedule: seq<Thread>)
    requires Arrangement(answers, order)
    ensures Exec(answers, schedule).Some? && Exec(answers, schedule).value.caller.Returned?
    ensures Exec(answers, schedule).value.allBids == Gather(answers, order)
  {
    schedule := AllStarted(answers);
    for k := 0 to |order|
      invariant Exec(answers, schedule).Some?
      invariant Exec(answers, schedule).value.sent == order[..k]
      invariant forall i :: 0 <= i < |answers| && i !in order[..k] ==>
        Exec(answers, schedule).value.workers[i] == Fetching
    {
      var i := order[k];
      assert i in order && i !in order[..k];
      ExecStep(answers, schedule, WorkerThread(i));
      schedule := schedule + [WorkerThread(i)];
      ChannelSafety(answers, schedule);
      ExecStep(answers, schedule, WorkerThread(i));
      schedule := schedule + [WorkerThread(i)];
      assert order[..k + 1] == order[..k] + [i];
    }
    assert order[..|order|] == order;
    schedule := Completion(answers, schedule);
    ResultIsArrangement(answers, schedule);
    var sent := Exec(answers, schedule).value.sent;
    assert sent == order;
  }

  // ---------------------------------------------------------------------------------------------
  // The operation
  // ---------------------------------------------------------------------------------------------

  function ThreadAt(k: nat): Thread {
    if k == 0 then CallerThread else if k == 1 then CloserThread else WorkerThread(k - 2)
  }

  lemma SomeThreadMoves(answers: seq<Answer>, s: State)
    requires Inv(answers, s) && !s.caller.Returned?
    ensures exists k: nat :: k < |answers| + 2 && Enabled(s, ThreadAt(k))
  {
    Progress(answers, s);
    var t :| Enabled(s, t);
    var k := match t case CallerThread => 0 case CloserThread => 1 case WorkerThread(i) => i + 2;
    assert ThreadAt(k) == t;
  }

  /** Runs the goroutines under an arbitrary scheduler until the caller returns. */
  method FetchBids(answers: seq<Answer>) returns (allBids: seq<Bid>, ghost schedule: seq<Thread>)
    ensures Exec(answers, schedule).Some? && Exec(answers, schedule).value.caller.Returned?
    ensures allBids == Exec(answers, schedule).value.allBids
    ensures exists order :: Arrangement(answers, order) && allBids == Gather(answers, order)
    ensures multiset(allBids) == Answered(answers, |answers|)
    ensures forall i :: 0 <= i < |answers| && answers[i].Fetched? ==> StandsIn(answers[i].bids, allBids)
  {
    var s := Init(|answers|);
    schedule := [];
    while !s.caller.Returned?
      invariant Exec(answers, schedule) == Some(s)
      decreases Measure(s)
    {
      RunKeepsInv(answers, schedule);
      SomeThreadMoves(answers, s);
      var k: nat :| k < |answers| + 2 && Enabled(s, ThreadAt(k));
      ExecStep(answers, schedule, ThreadAt(k));
      StepDecreases(answers, s, ThreadAt(k));
      s := Next(answers, s, ThreadAt(k));
      schedule := schedule + [ThreadAt(k)];
    }
    ResultIsArrangement(answers, schedule);
    EveryAnswerReturned(answers, schedule);
    allBids := s.allBids;
  }
}
