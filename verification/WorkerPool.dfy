/** The handler's bounded queues (impression events, win notices) and the worker pools that drain them. */
module WorkerPool {
  import opened Sequences

  const EVENT_CAPACITY := 10000
  const NOTICE_CAPACITY := 1000
  const EVENT_WORKERS := 16
  const NOTICE_WORKERS := 4

  /** A send with a `default` branch: refused, not blocked, when the queue is full. */
  function Push<E>(capacity: nat, items: seq<E>, e: E): seq<E> {
    if |items| < capacity then items + [e] else items
  }

  /** The channel a handler holds. The ghost fields are histories. */
  class BoundedQueue<E> {
    const capacity: nat
    var items: seq<E>
    ghost var offered: seq<E>
    ghost var dropped: seq<E>

    ghost predicate Valid()
      reads this
    {
      |items| <= capacity
    }

    constructor (capacity: nat)
      ensures Valid() && this.capacity == capacity && items == [] && offered == [] && dropped == []
    {
      this.capacity := capacity;
      items, offered, dropped := [], [], [];
    }

    method Offer(e: E) returns (accepted: bool)
      requires Valid()
      modifies this
      ensures Valid() && items == Push(capacity, old(items), e)
      ensures items == if old(|items|) < capacity then old(items) + [e] else old(items)
      ensures accepted <==> old(|items|) < capacity
      ensures offered == old(offered) + [e]
      ensures dropped == old(dropped) + if accepted then [] else [e]
    {
      accepted := |items| < capacity;
      if accepted {
        items := items + [e];
      } else {
        dropped := dropped + [e];
      }
      offered := offered + [e];
    }
  }

  // ---------------------------------------------------------------------------------------------
  // Producers and workers, interleaved
  // ---------------------------------------------------------------------------------------------

  datatype Action<E> = Offer(e: E) | Take(worker: nat) | Finish(worker: nat)

  /** A queue, what each worker is publishing, and the histories of offers, acceptances, refusals,
      takes (who took what) and completions. */
  datatype Pool<E> = Pool(queue: seq<E>, inFlight: seq<Option<E>>, offered: seq<E>, accepted: seq<E>,
                          dropped: seq<E>, taken: seq<(nat, E)>, finished: seq<E>)

  function Start<E>(workers: nat): Pool<E> {
    Pool([], seq(workers, _ => None), [], [], [], [], [])
  }

  predicate Enabled<E>(p: Pool<E>, a: Action<E>) {
    match a
    case Offer(_) => true
    case Take(w) => w < |p.inFlight| && p.inFlight[w].None? && p.queue != []
    case Finish(w) => w < |p.inFlight| && p.inFlight[w].Some?
  }

  function Step<E>(capacity: nat, p: Pool<E>, a: Action<E>): Pool<E>
    requires Enabled(p, a)
  {
    match a
    case Offer(e) =>
      var queue := Push(capacity, p.queue, e);
      if |queue| > |p.queue| then p.(queue := queue, offered := p.offered + [e], accepted := p.accepted + [e])
      else p.(offered := p.offered + [e], dropped := p.dropped + [e])
    case Take(w) =>
      p.(queue := p.queue[1..], inFlight := p.inFlight[w := Some(p.queue[0])], taken := p.taken + [(w, p.queue[0])])
    case Finish(w) =>
      p.(inFlight := p.inFlight[w := None], finished := p.finished + [p.inFlight[w].value])
  }

  function Exec<E>(capacity: nat, workers: nat, actions: seq<Action<E>>): Option<Pool<E>> {
    if actions == [] then Some(Start(workers))
    else
      match Exec(capacity, workers, actions[..|actions| - 1])
      case None => None
      case Some(p) =>
        var a := actions[|actions| - 1];
        if Enabled(p, a) then Some(Step(capacity, p, a)) else None
  }

  /** What one worker holds. */
  function InHand<E>(slot: Option<E>): multiset<E> {
    match slot case None => multiset{} case Some(e) => multiset{e}
  }

  /** What the workers hold. */
  function Held<E>(inFlight: seq<Option<E>>): multiset<E> {
    if inFlight == [] then multiset{} else Held(inFlight[..|inFlight| - 1]) + InHand(inFlight[|inFlight| - 1])
  }

  /** The events of a take history, in order. */
  function Events<E>(taken: seq<(nat, E)>): seq<E> {
    if taken == [] then [] else Events(taken[..|taken| - 1]) + [taken[|taken| - 1].1]
  }

  ghost predicate Split<E>(whole: seq<E>, a: seq<E>, b: seq<E>) {
    multiset(whole) == multiset(a) + multiset(b)
  }

  ghost predicate Accounted<E>(taken: seq<E>, finished: seq<E>, inFlight: seq<Option<E>>) {
    multiset(taken) == multiset(finished) + Held(inFlight)
  }

  /** Offers are accepted or dropped; accepted events are taken in acceptance order or still queued; a take
      removes the event from the queue, so nothing is handed out twice; what is taken is held or finished. */
  ghost predicate Conserved<E>(capacity: nat, p: Pool<E>) {
    && |p.queue| <= capacity
    && Split(p.offered, p.accepted, p.dropped)
    && p.accepted == Events(p.taken) + p.queue
    && Accounted(Events(p.taken), p.finished, p.inFlight)
  }

  lemma {:induction false} HeldAppend<E>(a: seq<Option<E>>, b: seq<Option<E>>)
    ensures Held(a + b) == Held(a) + Held(b)
  {
    if b == [] {
      assert a + b == a;
    } else {
      assert (a + b)[..|a + b| - 1] == a + b[..|b| - 1];
      HeldAppend(a, b[..|b| - 1]);
    }
  }

  lemma HeldOne<E>(slot: Option<E>)
    ensures Held([slot]) == InHand(slot)
  {
    assert [slot][..0] == [];
  }

  lemma HeldAround<E>(l: seq<Option<E>>, slot: Option<E>, r: seq<Option<E>>)
    ensures Held(l + [slot] + r) == Held(l) + InHand(slot) + Held(r)
  {
    HeldAppend(l + [slot], r);
    HeldAppend(l, [slot]);
    HeldOne(slot);
  }

  lemma HeldUpdate<E>(inFlight: seq<Option<E>>, w: nat, e: E)
    requires w < |inFlight| && inFlight[w].None?
    ensures Held(inFlight[w := Some(e)]) == Held(inFlight) + multiset{e}
  {
    var l, r := inFlight[..w], inFlight[w + 1..];
    assert inFlight == l + [inFlight[w]] + r;
    assert inFlight[w := Some(e)] == l + [Some(e)] + r;
    HeldAround(l, inFlight[w], r);
    HeldAround(l, Some(e), r);
  }

  lemma {:induction false} HeldNone<E>(workers: nat)
    ensures Held<E>(seq(workers, _ => None)) == multiset{}
  {
    if workers > 0 {
      assert seq<Option<E>>(workers, _ => None)[..workers - 1] == seq<Option<E>>(workers - 1, _ => None);
      HeldNone<E>(workers - 1);
    }
  }

  lemma EventsSnoc<E>(taken: seq<(nat, E)>, w: nat, e: E)
    ensures Events(taken + [(w, e)]) == Events(taken) + [e]
  {
    assert (taken + [(w, e)])[..|taken|] == taken;
  }

  lemma SplitSnoc<E>(whole: seq<E>, a: seq<E>, b: seq<E>, e: E)
    requires Split(whole, a, b)
    ensures Split(whole + [e], a + [e], b) && Split(whole + [e], a, b + [e])
  {}

  lemma TakeAccounted<E>(taken: seq<E>, finished: seq<E>, inFlight: seq<Option<E>>, w: nat, e: E)
    requires Accounted(taken, finished, inFlight) && w < |inFlight| && inFlight[w].None?
    ensures Accounted(taken + [e], finished, inFlight[w := Some(e)])
  {
    HeldUpdate(inFlight, w, e);
  }

  lemma FinishAccounted<E>(taken: seq<E>, finished: seq<E>, inFlight: seq<Option<E>>, w: nat)
    requires Accounted(taken, finished, inFlight) && w < |inFlight| && inFlight[w].Some?
    ensures Accounted(taken, finished + [inFlight[w].value], inFlight[w := None])
  {
    HeldUpdate(inFlight[w := None], w, inFlight[w].value);
    assert inFlight[w := None][w := inFlight[w]] == inFlight;
  }

  lemma TakeInOrder<E>(accepted: seq<E>, taken: seq<(nat, E)>, queue: seq<E>, w: nat)
    requires accepted == Events(taken) + queue && queue != []
    ensures Events(taken + [(w, queue[0])]) == Events(taken) + [queue[0]]
    ensures accepted == Events(taken + [(w, queue[0])]) + queue[1..]
  {
    EventsSnoc(taken, w, queue[0]);
    assert queue == [queue[0]] + queue[1..];
  }

  lemma OfferConserves<E>(capacity: nat, p: Pool<E>, e: E)
    requires Conserved(capacity, p)
    ensures Conserved(capacity, Step(capacity, p, Offer(e)))
  {
    SplitSnoc(p.offered, p.accepted, p.dropped, e);
    var taken := Events(p.taken);
    assert taken + p.queue + [e] == taken + (p.queue + [e]);
  }

  lemma StepConserves<E>(capacity: nat, p: Pool<E>, a: Action<E>)
    requires Conserved(capacity, p) && Enabled(p, a)
    ensures Conserved(capacity, Step(capacity, p, a))
  {
    match a
    case Offer(e) => OfferConserves(capacity, p, e);
    case Take(w) =>
      TakeInOrder(p.accepted, p.taken, p.queue, w);
      TakeAccounted(Events(p.taken), p.finished, p.inFlight, w, p.queue[0]);
    case Finish(w) =>
      FinishAccounted(Events(p.taken), p.finished, p.inFlight, w);
  }

  /** In every interleaving: produced = dropped + finished + in flight + queued, the queue stays within its
      capacity, and events are handed out once each, in the order in which they were accepted. */
  lemma {:induction false} PoolConserves<E>(capacity: nat, workers: nat, actions: seq<Action<E>>)
    requires Exec(capacity, workers, actions).Some?
    ensures var p := Exec(capacity, workers, actions).value;
      && Conserved(capacity, p)
      && multiset(p.offered) == multiset(p.dropped) + multiset(p.finished) + Held(p.inFlight) + multiset(p.queue)
  {
    if actions == [] {
      HeldNone<E>(workers);
    } else {
      PoolConserves(capacity, workers, actions[..|actions| - 1]);
      StepConserves(capacity, Exec(capacity, workers, actions[..|actions| - 1]).value, actions[|actions| - 1]);
    }
  }

  lemma QueueBounded<E>(capacity: nat, workers: nat, actions: seq<Action<E>>)
    requires Exec(capacity, workers, actions).Some?
    ensures |Exec(capacity, workers, actions).value.queue| <= capacity
  {
    PoolConserves(capacity, workers, actions);
  }

  /** Offers not yet matched by a take. */
  function Backlog<E>(actions: seq<Action<E>>): int {
    if actions == [] then 0
    else Backlog(actions[..|actions| - 1])
         + match actions[|actions| - 1] case Offer(_) => 1 case Take(_) => -1 case Finish(_) => 0
  }

  /** The largest backlog at any moment of the run. */
  function PeakBacklog<E>(actions: seq<Action<E>>): int {
    if actions == [] then 0
    else
      var earlier, now := PeakBacklog(actions[..|actions| - 1]), Backlog(actions);
      if now > earlier then now else earlier
  }

  /** A run loses nothing exactly when at no moment the offers outnumber the takes by more than the capacity;
      until then the backlog is the queue's length. */
  lemma {:induction false} NothingDroppedIff<E>(capacity: nat, workers: nat, actions: seq<Action<E>>)
    requires Exec(capacity, workers, actions).Some?
    ensures var p := Exec(capacity, workers, actions).value;
      && (p.dropped == [] <==> PeakBacklog(actions) <= capacity)
      && (p.dropped == [] ==> |p.queue| == Backlog(actions))
  {
    if actions != [] {
      var init := actions[..|actions| - 1];
      NothingDroppedIff(capacity, workers, init);
      QueueBounded(capacity, workers, init);
    }
  }

  // ---------------------------------------------------------------------------------------------
  // Draining
  // ---------------------------------------------------------------------------------------------

  /** Takes and finishes still to come. */
  ghost function Work<E>(p: Pool<E>): nat {
    2 * |p.queue| + |Held(p.inFlight)|
  }

  lemma {:induction false} SomeHeld<E>(inFlight: seq<Option<E>>) returns (w: nat)
    requires Held(inFlight) != multiset{}
    ensures w < |inFlight| && inFlight[w].Some?
  {
    w := |inFlight| - 1;
    if inFlight[w].None? {
      w := SomeHeld(inFlight[..w]);
    }
  }

  /** While anything is queued or in flight, some worker can act (given at least one worker). */
  lemma {:induction false} PoolProgresses<E>(p: Pool<E>)
    requires p.inFlight != [] && Work(p) > 0
    ensures exists w :: Enabled(p, Take(w)) || Enabled(p, Finish(w))
  {
    if p.inFlight[0].Some? {
      assert Enabled(p, Finish(0));
    } else if p.queue != [] {
      assert Enabled(p, Take(0));
    } else {
      var w := SomeHeld(p.inFlight);
      assert Enabled(p, Finish(w));
    }
  }

  /** Every take and every finish is one piece of the work. */
  lemma WorkDone<E>(capacity: nat, p: Pool<E>, a: Action<E>)
    requires Enabled(p, a) && !a.Offer?
    ensures Work(p) == Work(Step(capacity, p, a)) + 1
  {
    match a
    case Take(w) => HeldUpdate(p.inFlight, w, p.queue[0]);
    case Finish(w) =>
      HeldUpdate(p.inFlight[w := None], w, p.inFlight[w].value);
      assert p.inFlight[w := None][w := p.inFlight[w]] == p.inFlight;
  }

  lemma StepKeepsWorkers<E>(capacity: nat, p: Pool<E>, a: Action<E>)
    requires Enabled(p, a)
    ensures |Step(capacity, p, a).inFlight| == |p.inFlight|
  {}

  lemma {:induction false} WorkersStay<E>(capacity: nat, workers: nat, actions: seq<Action<E>>)
    requires Exec(capacity, workers, actions).Some?
    ensures |Exec(capacity, workers, actions).value.inFlight| == workers
  {
    if actions != [] {
      var init := actions[..|actions| - 1];
      WorkersStay(capacity, workers, init);
      StepKeepsWorkers(capacity, Exec(capacity, workers, init).value, actions[|actions| - 1]);
    }
  }

  /** Once offers stop, the steps taken are the work done, and what was dropped stays as it was. */
  lemma {:induction false} WorkLeft<E>(capacity: nat, workers: nat, actions: seq<Action<E>>, drain: seq<Action<E>>)
    requires Exec(capacity, workers, actions + drain).Some?
    requires forall i :: 0 <= i < |drain| ==> !drain[i].Offer?
    ensures Exec(capacity, workers, actions).Some?
    ensures var p, q := Exec(capacity, workers, actions).value, Exec(capacity, workers, actions + drain).value;
      Work(p) == Work(q) + |drain| && q.offered == p.offered && q.dropped == p.dropped
  {
    if drain == [] {
      assert actions + drain == actions;
    } else {
      var n := |drain| - 1;
      assert (actions + drain)[..|actions + drain| - 1] == actions + drain[..n];
      WorkLeft(capacity, workers, actions, drain[..n]);
      WorkDone(capacity, Exec(capacity, workers, actions + drain[..n]).value, drain[n]);
    }
  }

  lemma {:induction false} HeldNothing<E>(inFlight: seq<Option<E>>)
    requires Held(inFlight) == multiset{}
    ensures forall w :: 0 <= w < |inFlight| ==> inFlight[w].None?
  {
    if inFlight != [] {
      HeldNothing(inFlight[..|inFlight| - 1]);
    }
  }

  /** No worker can act. */
  ghost predicate Quiet<E>(p: Pool<E>) {
    forall w :: !Enabled(p, Take(w)) && !Enabled(p, Finish(w))
  }

  /** Nothing is left, and every offered event was dropped or finished, once. */
  ghost predicate Drained<E>(p: Pool<E>) {
    p.queue == [] && Held(p.inFlight) == multiset{} && Split(p.offered, p.dropped, p.finished)
  }

  lemma QuietIff<E>(capacity: nat, p: Pool<E>)
    requires p.inFlight != [] && Conserved(capacity, p)
    ensures Quiet(p) <==> Work(p) == 0
    ensures Quiet(p) ==> Drained(p)
  {
    assert p.queue == [] ==> p.accepted == Events(p.taken);
    if Work(p) > 0 {
      PoolProgresses(p);
    } else {
      HeldNothing(p.inFlight);
    }
  }

  /** Once offers stop, every continuation by at least one worker takes at most the remaining work in steps, and
      it can go no further exactly when it has taken that many; then everything offered was dropped or finished,
      and events were finished or dropped once each. */
  lemma PoolDrains<E>(capacity: nat, workers: nat, actions: seq<Action<E>>, drain: seq<Action<E>>)
    requires workers > 0 && Exec(capacity, workers, actions + drain).Some?
    requires forall i :: 0 <= i < |drain| ==> !drain[i].Offer?
    ensures Exec(capacity, workers, actions).Some?
    ensures var p, q := Exec(capacity, workers, actions).value, Exec(capacity, workers, actions + drain).value;
      && |drain| <= Work(p)
      && (Quiet(q) <==> |drain| == Work(p))
      && (Quiet(q) ==> Drained(q))
  {
    WorkLeft(capacity, workers, actions, drain);
    var all := actions + drain;
    WorkersStay(capacity, workers, all);
    PoolConserves(capacity, workers, all);
    QuietIff(capacity, Exec(capacity, workers, all).value);
  }

  // ---------------------------------------------------------------------------------------------
  // The handler's two pools
  // ---------------------------------------------------------------------------------------------

  /** An offer to the class's queue is the pool's offer: it leaves the same queue, and is refused by both or by
      neither. */
  lemma OfferIsStep<E>(capacity: nat, p: Pool<E>, e: E)
    ensures Step(capacity, p, Offer(e)).queue == Push(capacity, p.queue, e)
    ensures |p.queue| < capacity <==> Step(capacity, p, Offer(e)).accepted == p.accepted + [e]
    ensures Step(capacity, p, Offer(e)).dropped == p.dropped + if |p.queue| < capacity then [] else [e]
  {
    assert |p.accepted + [e]| == |p.accepted| + 1;
  }

  lemma {:induction false} HeldAtMostOneEach<E>(inFlight: seq<Option<E>>)
    ensures |Held(inFlight)| <= |inFlight|
  {
    if inFlight != [] {
      HeldAtMostOneEach(inFlight[..|inFlight| - 1]);
    }
  }

  ghost predicate NoOffers<E>(drain: seq<Action<E>>) {
    forall i :: 0 <= i < |drain| ==> !drain[i].Offer?
  }

  ghost predicate Delivered<E>(capacity: nat, workers: nat, actions: seq<Action<E>>, drain: seq<Action<E>>) {
    && Exec(capacity, workers, actions).Some? && Exec(capacity, workers, actions + drain).Some?
    && var p, q := Exec(capacity, workers, actions).value, Exec(capacity, workers, actions + drain).value;
       && Conserved(capacity, p) && |p.queue| <= capacity && |Held(p.inFlight)| <= workers
       && |drain| <= Work(p) <= 2 * capacity + workers
       && (Quiet(q) <==> |drain| == Work(p))
       && (Quiet(q) ==> Drained(q))
  }

  /** What a queue of this capacity with these workers guarantees: in every run events are conserved and bounded
      in number, and once offers stop the remaining work is done, in a known number of steps. */
  ghost predicate Delivers<E(!new)>(capacity: nat, workers: nat) {
    forall actions: seq<Action<E>>, drain: seq<Action<E>>
      | Exec(capacity, workers, actions + drain).Some? && NoOffers(drain) ::
      Delivered(capacity, workers, actions, drain)
  }

  lemma PoolDelivers<E(!new)>(capacity: nat, workers: nat)
    requires workers > 0
    ensures Delivers<E>(capacity, workers)
  {
    forall actions: seq<Action<E>>, drain: seq<Action<E>>
      | Exec(capacity, workers, actions + drain).Some? && NoOffers(drain)
      ensures Delivered(capacity, workers, actions, drain)
    {
      PoolDrains(capacity, workers, actions, drain);
      PoolConserves(capacity, workers, actions);
      WorkersStay(capacity, workers, actions);
      HeldAtMostOneEach(Exec(capacity, workers, actions).value.inFlight);
    }
  }
}
