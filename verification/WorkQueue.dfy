/** The rate-limited work queue and the workers that consume it. Any number of workers run
    Get / process / Forget-or-AddRateLimited / deferred Done, with every call one atomic step;
    informer events and delayed re-adds arrive in between. */
module WorkQueue {

  type Key = string

  const MAX_REQUEUES := 5

  /** Keys that wait for a worker (FIFO), keys added since they were last taken, keys being
      processed, delayed re-adds, and the rate limiter's failure counts. */
  datatype Queue = Queue(
    queue: seq<Key>,
    dirty: set<Key>,
    processing: set<Key>,
    waiting: multiset<Key>,
    failures: map<Key, nat>,
    shuttingDown: bool)

  const EMPTY := Queue([], {}, {}, multiset{}, map[], false)

  function NumRequeues(q: Queue, k: Key): nat {
    if k in q.failures then q.failures[k] else 0
  }

  function Add(q: Queue, k: Key): Queue {
    if q.shuttingDown || k in q.dirty then q
    else if k in q.processing then q.(dirty := q.dirty + {k})
    else q.(dirty := q.dirty + {k}, queue := q.queue + [k])
  }

  function Take(q: Queue): Queue
    requires q.queue != []
  {
    var k := q.queue[0];
    q.(queue := q.queue[1..], processing := q.processing + {k}, dirty := q.dirty - {k})
  }

  function Done(q: Queue, k: Key): Queue {
    q.(processing := q.processing - {k},
       queue := if k in q.dirty then q.queue + [k] else q.queue)
  }

  function Forget(q: Queue, k: Key): Queue {
    q.(failures := q.failures - {k})
  }

  /** The failure is counted at once; the key comes back later through Fire. A re-add that meets
      an earlier one still waiting may be merged with it. */
  function AddRateLimited(q: Queue, k: Key, merge: bool): Queue {
    q.(failures := q.failures[k := NumRequeues(q, k) + 1],
       waiting := if q.shuttingDown || (merge && k in q.waiting) then q.waiting
                  else q.waiting + multiset{k})
  }

  function Fire(q: Queue, k: Key): Queue {
    if k in q.waiting then Add(q.(waiting := q.waiting - multiset{k}), k) else q
  }

  // ---------------------------------------------------------------------------
  // Workers
  // ---------------------------------------------------------------------------

  datatype Worker =
    | Idle
    | Syncing(key: Key)      // running the business logic
    | Checking(key: Key)     // it failed; about to read NumRequeues
    | Requeueing(key: Key)   // the count was below the limit; about to call AddRateLimited
    | Forgetting(key: Key)   // succeeded or gave up; about to call Forget
    | Finishing(key: Key)    // about to run the deferred Done
    | Stopped

  datatype State = State(q: Queue, workers: map<int, Worker>)

  datatype Event =
    | Enqueue(k: Key)
    | Delayed(k: Key)
    | Get(w: int)
    | Sync(w: int, ok: bool)
    | Check(w: int)
    | Requeue(w: int, merge: bool)
    | ForgetKey(w: int)
    | Finish(w: int)
    | Cancel(w: int)
    | ShutDown

  function Set(s: State, w: int, st: Worker): map<int, Worker> {
    s.workers[w := st]
  }

  /** Get blocks on an empty queue and reports quit on an empty queue that is shutting down. */
  function Step(s: State, e: Event): State {
    match e
    case Enqueue(k) => s.(q := Add(s.q, k))
    case Delayed(k) => s.(q := Fire(s.q, k))
    case ShutDown => s.(q := s.q.(shuttingDown := true))
    case Cancel(w) => if w in s.workers && s.workers[w].Idle? then s.(workers := Set(s, w, Stopped)) else s
    case Get(w) =>
      if !(w in s.workers && s.workers[w].Idle?) then s
      else if s.q.queue != [] then State(Take(s.q), Set(s, w, Syncing(s.q.queue[0])))
      else if s.q.shuttingDown then s.(workers := Set(s, w, Stopped))
      else s
    case Sync(w, ok) =>
      if w in s.workers && s.workers[w].Syncing?
      then s.(workers := Set(s, w, if ok then Forgetting(s.workers[w].key) else Checking(s.workers[w].key)))
      else s
    case Check(w) =>
      if w in s.workers && s.workers[w].Checking?
      then var k := s.workers[w].key;
           s.(workers := Set(s, w, if NumRequeues(s.q, k) >= MAX_REQUEUES then Forgetting(k) else Requeueing(k)))
      else s
    case Requeue(w, merge) =>
      if w in s.workers && s.workers[w].Requeueing?
      then var k := s.workers[w].key; State(AddRateLimited(s.q, k, merge), Set(s, w, Finishing(k)))
      else s
    case ForgetKey(w) =>
      if w in s.workers && s.workers[w].Forgetting?
      then var k := s.workers[w].key; State(Forget(s.q, k), Set(s, w, Finishing(k)))
      else s
    case Finish(w) =>
      if w in s.workers && s.workers[w].Finishing?
      then State(Done(s.q, s.workers[w].key), Set(s, w, Idle))
      else s
  }

  function Run(s: State, es: seq<Event>): State
    decreases es
  {
    if es == [] then s else Run(Step(s, es[0]), es[1..])
  }

  predicate Holds(s: State, w: int, k: Key) {
    w in s.workers && !s.workers[w].Idle? && !s.workers[w].Stopped? && s.workers[w].key == k
  }

  // ---------------------------------------------------------------------------
  // The invariant
  // ---------------------------------------------------------------------------

  ghost predicate QueueInv(q: Queue) {
    && (forall i, j :: 0 <= i < j < |q.queue| ==> q.queue[i] != q.queue[j])
    && (forall k :: k in q.queue <==> k in q.dirty && k !in q.processing)
    && (forall k :: NumRequeues(q, k) <= MAX_REQUEUES)
  }

  ghost predicate WorkerInv(s: State) {
    && (forall w, k :: Holds(s, w, k) ==> k in s.q.processing)
    && (forall k :: k in s.q.processing ==> exists w :: Holds(s, w, k))
    && (forall v, w, k :: Holds(s, v, k) && Holds(s, w, k) ==> v == w)
    && (forall w :: w in s.workers && s.workers[w].Requeueing? ==>
          NumRequeues(s.q, s.workers[w].key) < MAX_REQUEUES)
  }

  ghost predicate Inv(s: State) {
    QueueInv(s.q) && WorkerInv(s)
  }

  ghost predicate Initial(s: State) {
    s.q == EMPTY && forall w <- s.workers :: s.workers[w] == Idle
  }

  /** The key a busy worker holds. */
  lemma HoldsOwn(s: State, w: int)
    requires w in s.workers && !s.workers[w].Idle? && !s.workers[w].Stopped?
    ensures Holds(s, w, s.workers[w].key)
  {
  }

  lemma AddInv(q: Queue, k: Key)
    requires QueueInv(q)
    ensures QueueInv(Add(q, k))
  {
    assert forall j :: NumRequeues(Add(q, k), j) == NumRequeues(q, j);
  }

  lemma TakeInv(q: Queue)
    requires QueueInv(q) && q.queue != []
    ensures QueueInv(Take(q))
  {
    assert q.queue == [q.queue[0]] + q.queue[1..];
    assert q.queue[0] in q.queue;
    assert forall j :: NumRequeues(Take(q), j) == NumRequeues(q, j);
  }

  lemma DoneInv(q: Queue, k: Key)
    requires QueueInv(q) && k in q.processing
    ensures QueueInv(Done(q, k))
  {
    assert k !in q.queue;
    assert forall j :: NumRequeues(Done(q, k), j) == NumRequeues(q, j);
  }

  lemma CountInv(q: Queue, k: Key, merge: bool)
    requires QueueInv(q)
    ensures QueueInv(Forget(q, k))
    ensures NumRequeues(q, k) < MAX_REQUEUES ==> QueueInv(AddRateLimited(q, k, merge))
  {
    assert forall j :: NumRequeues(Forget(q, k), j) <= NumRequeues(q, j);
    assert forall j :: j != k ==> NumRequeues(AddRateLimited(q, k, merge), j) == NumRequeues(q, j);
  }

  lemma StepQueueInv(s: State, e: Event)
    requires Inv(s)
    ensures QueueInv(Step(s, e).q)
  {
    match e
    case Enqueue(k) => AddInv(s.q, k);
    case Delayed(k) =>
      if k in s.q.waiting {
        var q := s.q.(waiting := s.q.waiting - multiset{k});
        assert forall j :: NumRequeues(q, j) == NumRequeues(s.q, j);
        AddInv(q, k);
      }
    case ShutDown =>
      assert forall j :: NumRequeues(Step(s, e).q, j) == NumRequeues(s.q, j);
    case Get(w) => if s.q.queue != [] { TakeInv(s.q); }
    case Finish(w) =>
      if w in s.workers && s.workers[w].Finishing? {
        HoldsOwn(s, w);
        DoneInv(s.q, s.workers[w].key);
      }
    case Requeue(w, merge) =>
      if w in s.workers && s.workers[w].Requeueing? { CountInv(s.q, s.workers[w].key, merge); }
    case ForgetKey(w) =>
      if w in s.workers && s.workers[w].Forgetting? { CountInv(s.q, s.workers[w].key, false); }
    case Sync(w, ok) =>
    case Check(w) =>
    case Cancel(w) =>
  }

  lemma StepWorkerInv(s: State, e: Event)
    requires Inv(s)
    ensures WorkerInv(Step(s, e))
  {
    match e
    case Get(w) => GetWorkerInv(s, w);
    case Finish(w) => FinishWorkerInv(s, w);
    case _ => KeepWorkerInv(s, e);
  }

  lemma GetWorkerInv(s: State, w: int)
    requires Inv(s)
    ensures WorkerInv(Step(s, Get(w)))
  {
    var s' := Step(s, Get(w));
    if w in s.workers && s.workers[w].Idle? && s.q.queue != [] {
      var k := s.q.queue[0];
      assert k in s.q.queue && k !in s.q.processing;
      assert Holds(s', w, k);
      assert forall v, j :: v != w ==> (Holds(s', v, j) <==> Holds(s, v, j));
    } else {
      assert forall v, j :: Holds(s', v, j) <==> Holds(s, v, j);
    }
  }

  lemma FinishWorkerInv(s: State, w: int)
    requires Inv(s)
    ensures WorkerInv(Step(s, Finish(w)))
  {
    var s' := Step(s, Finish(w));
    if s' != s {
      HoldsOwn(s, w);
      assert forall v, j :: v != w ==> (Holds(s', v, j) <==> Holds(s, v, j));
    }
  }

  /** The other steps leave every key with its holder. */
  lemma KeepWorkerInv(s: State, e: Event)
    requires Inv(s) && !e.Get? && !e.Finish?
    ensures WorkerInv(Step(s, e))
  {
    var s' := Step(s, e);
    assert forall v, j :: Holds(s', v, j) <==> Holds(s, v, j);
    if e.Requeue? {
      assert forall v :: v in s.workers && s.workers[v].Requeueing? ==> Holds(s, v, s.workers[v].key);
    }
  }

  lemma {:induction false} RunInv(s: State, es: seq<Event>)
    requires Inv(s)
    ensures Inv(Run(s, es))
    decreases es
  {
    if es != [] {
      StepQueueInv(s, es[0]);
      StepWorkerInv(s, es[0]);
      RunInv(Step(s, es[0]), es[1..]);
    }
  }

  /** In every run no key is held by two workers, the retry count never exceeds the limit, and a
      key is queued exactly once when it is pending and nobody holds it. */
  lemma QueueSafety(s: State, es: seq<Event>)
    requires Initial(s)
    ensures var t := Run(s, es);
            && (forall v, w, k :: Holds(t, v, k) && Holds(t, w, k) ==> v == w)
            && (forall k :: NumRequeues(t.q, k) <= 5)
            && (forall i, j :: 0 <= i < j < |t.q.queue| ==> t.q.queue[i] != t.q.queue[j])
            && (forall k :: k in t.q.queue <==> k in t.q.dirty && forall w :: !Holds(t, w, k))
  {
    RunInv(s, es);
  }

  /** The check before AddRateLimited is safe only because a key has one holder: whenever two workers
      hold it and its count is one below the limit, both can pass the check and count past it. */
  lemma CheckNeedsExclusivity(s: State, v: int, w: int, k: Key)
    requires v != w && v in s.workers && w in s.workers
    requires s.workers[v] == Checking(k) && s.workers[w] == Checking(k)
    requires NumRequeues(s.q, k) == 4
    ensures var t := Step(Step(Step(Step(s, Check(v)), Check(w)), Requeue(v, false)), Requeue(w, false));
            NumRequeues(t.q, k) == 6
  {
    var a := Step(Step(s, Check(v)), Check(w));
    assert a.workers[v] == Requeueing(k) && a.workers[w] == Requeueing(k);
  }

  // ---------------------------------------------------------------------------
  // First in, first out
  // ---------------------------------------------------------------------------

  /** The key with which the event sends a worker off. */
  function HandedOut(s: State, e: Event): seq<Key> {
    var t := Step(s, e);
    if e.Get? && e.w in s.workers && s.workers[e.w].Idle? && e.w in t.workers && t.workers[e.w].Syncing?
    then [t.workers[e.w].key] else []
  }

  /** The keys the run gives to workers, in this order. */
  function Handed(s: State, es: seq<Event>): seq<Key>
    decreases es
  {
    if es == [] then [] else HandedOut(s, es[0]) + Handed(Step(s, es[0]), es[1..])
  }

  lemma StepKeepsOrder(s: State, e: Event)
    ensures s.q.queue <= HandedOut(s, e) + Step(s, e).q.queue
  {
    if e.Get? && HandedOut(s, e) != [] {
      assert s.q.queue == [s.q.queue[0]] + s.q.queue[1..];
    }
  }

  /** In every run the keys that are queued are handed out first and in queue order, before every key
      that is added or comes back later: the queue is in order of arrival. */
  lemma {:induction false} FirstInFirstOut(s: State, es: seq<Event>)
    ensures s.q.queue <= Handed(s, es) + Run(s, es).q.queue
    decreases es
  {
    if es != [] {
      var t := Step(s, es[0]);
      var rest := Handed(t, es[1..]) + Run(t, es[1..]).q.queue;
      StepKeepsOrder(s, es[0]);
      FirstInFirstOut(t, es[1..]);
      PrefixOfSum(s.q.queue, HandedOut(s, es[0]), t.q.queue, rest);
      assert HandedOut(s, es[0]) + rest == Handed(s, es) + Run(s, es).q.queue;
    }
  }

  lemma PrefixOfSum(a: seq<Key>, h: seq<Key>, b: seq<Key>, c: seq<Key>)
    requires a <= h + b && b <= c
    ensures a <= h + c
  {
    assert h + c == h + b + c[|b|..];
  }

  /** Once the queue is shutting down nothing is added any more: only keys that were pending are
      handed out, no delayed re-add is accepted, and a worker that finds the queue empty stops. */
  lemma {:induction false} ShutDownForGood(s: State, es: seq<Event>)
    requires Inv(s) && s.q.shuttingDown
    ensures var t := Run(s, es);
            && t.q.shuttingDown && t.q.dirty <= s.q.dirty && t.q.waiting <= s.q.waiting
            && (forall k :: k in Handed(s, es) ==> k in s.q.dirty)
            && (forall w :: w in t.workers && t.workers[w].Idle? && t.q.queue == [] ==>
                  Step(t, Get(w)).workers[w] == Stopped)
    decreases es
  {
    if es != [] {
      var t := Step(s, es[0]);
      StepQueueInv(s, es[0]);
      StepWorkerInv(s, es[0]);
      ShutDownStep(s, es[0]);
      ShutDownForGood(t, es[1..]);
    }
  }

  /** A worker that is cancelled between two keys takes no further key, in any run. */
  lemma {:induction false} CancelledForGood(s: State, w: int, es: seq<Event>)
    requires w in s.workers && (s.workers[w].Idle? || s.workers[w].Stopped?)
    ensures var t := Run(Step(s, Cancel(w)), es);
            w in t.workers && t.workers[w] == Stopped && forall k :: !Takes(t, Get(w), k) && !Holds(t, w, k)
    decreases |es|
  {
    if es != [] {
      var last := |es| - 1;
      CancelledForGood(s, w, es[..last]);
      RunAppend(Step(s, Cancel(w)), es[..last], [es[last]]);
      assert es[..last] + [es[last]] == es && [es[last]][1..] == [];
    }
  }

  lemma ShutDownStep(s: State, e: Event)
    requires QueueInv(s.q) && s.q.shuttingDown
    ensures var t := Step(s, e);
            && t.q.shuttingDown && t.q.dirty <= s.q.dirty && t.q.waiting <= s.q.waiting
            && (forall k :: k in HandedOut(s, e) ==> k in s.q.dirty)
  {
    if s.q.queue != [] {
      assert s.q.queue[0] in s.q.queue;
    }
  }

  // ---------------------------------------------------------------------------
  // No lost update
  // ---------------------------------------------------------------------------

  /** Whether the event, in state s, hands key k to a worker. */
  predicate Takes(s: State, e: Event, k: Key) {
    && e.Get? && e.w in s.workers && s.workers[e.w].Idle?
    && s.q.queue != [] && s.q.queue[0] == k
  }

  predicate NeverTaken(s: State, es: seq<Event>, k: Key)
    decreases es
  {
    es == [] || (!Takes(s, es[0], k) && NeverTaken(Step(s, es[0]), es[1..], k))
  }

  lemma {:induction false} DirtyStays(s: State, es: seq<Event>, k: Key)
    requires k in s.q.dirty && NeverTaken(s, es, k)
    ensures k in Run(s, es).q.dirty
    decreases es
  {
    if es != [] {
      DirtyStays(Step(s, es[0]), es[1..], k);
    }
  }

  /** An event that arrives before shutdown leaves its key pending until a worker takes the key
      again, whatever happens in between: it waits in the queue, or the worker that still holds
      it puts it there when it is done. */
  lemma NoLostUpdate(s: State, before: seq<Event>, k: Key, after: seq<Event>)
    requires Initial(s) && !Run(s, before).q.shuttingDown
    requires NeverTaken(Step(Run(s, before), Enqueue(k)), after, k)
    ensures var t := Run(Step(Run(s, before), Enqueue(k)), after);
            && k in t.q.dirty
            && (k in t.q.queue || exists w :: Holds(t, w, k))
            && (forall w :: w in t.workers && t.workers[w] == Finishing(k) ==> k in Step(t, Finish(w)).q.queue)
  {
    var m := Step(Run(s, before), Enqueue(k));
    RunInv(s, before);
    StepQueueInv(Run(s, before), Enqueue(k));
    StepWorkerInv(Run(s, before), Enqueue(k));
    RunInv(m, after);
    DirtyStays(m, after, k);
  }

  // ---------------------------------------------------------------------------
  // Bounded retry and drain
  // ---------------------------------------------------------------------------

  /** How many keys the run takes from the queue. */
  function Gets(s: State, es: seq<Event>): nat
    decreases es
  {
    if es == [] then 0
    else (if s.q.queue != [] && Takes(s, es[0], s.q.queue[0]) then 1 else 0) + Gets(Step(s, es[0]), es[1..])
  }

  ghost predicate Unresolved(s: State, k: Key) {
    exists w :: Holds(s, w, k) && !s.workers[w].Finishing?
  }

  function B(b: bool): nat {
    if b then 1 else 0
  }

  /** The tokens of a key that can still lead to a Get. */
  ghost function Tokens(s: State, k: Key): nat {
    s.q.waiting[k] + B(k in s.q.dirty) + B(Unresolved(s, k))
  }

  /** The Gets of a key that may still come: six for every token (one try and five retries),
      less the tries already spent. */
  ghost function Potential(s: State, k: Key): nat
    requires QueueInv(s.q)
  {
    if Tokens(s, k) == 0 then 0
    else 6 * Tokens(s, k) - B(Unresolved(s, k)) - NumRequeues(s.q, k)
  }

  ghost function Total(s: State, keys: seq<Key>): nat
    requires QueueInv(s.q)
  {
    if keys == [] then 0 else Potential(s, keys[0]) + Total(s, keys[1..])
  }

  /** Nothing about k's tokens or count gets worse. */
  lemma PotentialMonotone(s: State, s': State, k: Key)
    requires QueueInv(s.q) && QueueInv(s'.q)
    requires Unresolved(s', k) <==> Unresolved(s, k)
    requires Tokens(s', k) <= Tokens(s, k)
    requires NumRequeues(s'.q, k) == NumRequeues(s.q, k)
    ensures Potential(s', k) <= Potential(s, k)
  {
  }

  lemma KeyPotential(s: State, e: Event, k: Key)
    requires Inv(s) && !e.Enqueue? && QueueInv(Step(s, e).q)
    ensures Potential(Step(s, e), k) + B(Takes(s, e, k)) <= Potential(s, k)
  {
    if e.Get? {
      GetPotential(s, e.w, k);
    } else if e.Requeue? || e.ForgetKey? {
      ResolvePotential(s, e, e.w, k);
    } else if e.Delayed? {
      FirePotential(s, e.k, k);
    } else {
      QuietPotential(s, e, k);
    }
  }

  /** A delayed copy that arrives turns a waiting token into a dirty one, or into none. */
  lemma FirePotential(s: State, fired: Key, k: Key)
    requires Inv(s) && QueueInv(Step(s, Delayed(fired)).q)
    ensures Potential(Step(s, Delayed(fired)), k) <= Potential(s, k)
  {
    var s' := Step(s, Delayed(fired));
    assert forall w :: Holds(s', w, k) <==> Holds(s, w, k);
    PotentialMonotone(s, s', k);
  }

  /** The steps that move no token. */
  lemma QuietPotential(s: State, e: Event, k: Key)
    requires Inv(s) && QueueInv(Step(s, e).q)
    requires e.Sync? || e.Check? || e.Finish? || e.Cancel? || e.ShutDown?
    ensures Potential(Step(s, e), k) <= Potential(s, k)
  {
    var s' := Step(s, e);
    assert forall w :: (Holds(s', w, k) && !s'.workers[w].Finishing?) <==>
                       (Holds(s, w, k) && !s.workers[w].Finishing?);
    assert Tokens(s', k) == Tokens(s, k);
    PotentialMonotone(s, s', k);
  }

  lemma GetPotential(s: State, w: int, k: Key)
    requires Inv(s) && QueueInv(Step(s, Get(w)).q)
    ensures Potential(Step(s, Get(w)), k) + B(Takes(s, Get(w), k)) <= Potential(s, k)
  {
    var s' := Step(s, Get(w));
    if Takes(s, Get(w), k) {
      assert k in s.q.queue;
      assert Holds(s', w, k);
      assert !Unresolved(s, k);
    } else {
      assert forall v :: (Holds(s', v, k) && !s'.workers[v].Finishing?) <==>
                         (Holds(s, v, k) && !s.workers[v].Finishing?);
      assert Unresolved(s', k) <==> Unresolved(s, k);
      PotentialMonotone(s, s', k);
    }
  }

  lemma ResolvePotential(s: State, e: Event, w: int, k: Key)
    requires Inv(s) && QueueInv(Step(s, e).q)
    requires (e.Requeue? || e.ForgetKey?) && e.w == w
    ensures Potential(Step(s, e), k) <= Potential(s, k)
  {
    var s' := Step(s, e);
    if w in s.workers && (s.workers[w].Requeueing? || s.workers[w].Forgetting?) && s' != s {
      HoldsOwn(s, w);
      if s.workers[w].key == k {
        assert Unresolved(s, k);
        assert !Unresolved(s', k) by {
          assert forall v :: Holds(s', v, k) ==> Holds(s, v, k);
        }
      } else {
        assert forall v :: (Holds(s', v, k) && !s'.workers[v].Finishing?) <==>
                           (Holds(s, v, k) && !s.workers[v].Finishing?);
        assert Unresolved(s', k) <==> Unresolved(s, k);
        PotentialMonotone(s, s', k);
      }
    }
  }

  lemma {:induction false} TotalStep(s: State, e: Event, keys: seq<Key>)
    requires Inv(s) && !e.Enqueue? && QueueInv(Step(s, e).q)
    requires forall i, j :: 0 <= i < j < |keys| ==> keys[i] != keys[j]
    ensures Total(Step(s, e), keys) + B(exists k :: k in keys && Takes(s, e, k)) <= Total(s, keys)
  {
    if keys != [] {
      TotalStep(s, e, keys[1..]);
      KeyPotential(s, e, keys[0]);
      if k :| k in keys && Takes(s, e, k) {
        assert k == keys[0] || k in keys[1..];
        assert k == keys[0] ==> !exists j :: j in keys[1..] && Takes(s, e, j);
      }
    }
  }

  /** The keys that still have a token. */
  ghost predicate Covered(s: State, keys: seq<Key>) {
    forall k :: k in s.q.dirty || k in s.q.waiting || k in s.q.processing ==> k in keys
  }

  ghost predicate NoNewEvents(es: seq<Event>) {
    forall i :: 0 <= i < |es| ==> !es[i].Enqueue?
  }

  /** Once informer events stop, every schedule of workers, outcomes and delayed re-adds takes at
      most Total keys from the queue, and what it takes is paid for in Total. */
  lemma {:induction false} DrainBound(s: State, es: seq<Event>, keys: seq<Key>)
    requires Inv(s) && NoNewEvents(es) && Covered(s, keys)
    requires forall i, j :: 0 <= i < j < |keys| ==> keys[i] != keys[j]
    ensures Inv(Run(s, es))
    ensures Gets(s, es) + Total(Run(s, es), keys) <= Total(s, keys)
    decreases es
  {
    if es != [] {
      var s' := Step(s, es[0]);
      StepQueueInv(s, es[0]);
      StepWorkerInv(s, es[0]);
      CoveredStays(s, es[0], keys);
      TotalStep(s, es[0], keys);
      DrainBound(s', es[1..], keys);
      if s.q.queue != [] && Takes(s, es[0], s.q.queue[0]) {
        assert s.q.queue[0] in s.q.queue;
        assert s.q.queue[0] in keys;
      }
    }
  }

  lemma CoveredStays(s: State, e: Event, keys: seq<Key>)
    requires Inv(s) && !e.Enqueue? && Covered(s, keys)
    ensures Covered(Step(s, e), keys)
  {
    if e.Requeue? && e.w in s.workers && s.workers[e.w].Requeueing? {
      HoldsOwn(s, e.w);
    }
    if s.q.queue != [] {
      assert s.q.queue[0] in s.q.queue;
    }
  }

  /** When nothing can move any more, nothing is pending. */
  lemma DrainedMeansDone(s: State)
    requires Inv(s) && s.q.queue == [] && s.q.waiting == multiset{}
    requires forall w <- s.workers :: s.workers[w].Idle? || s.workers[w].Stopped?
    ensures s.q.dirty == {} && s.q.processing == {}
  {
    assert forall w, k :: !Holds(s, w, k);
  }

  // The bound is attained: a key that always fails is tried until its count reaches the limit.

  function FailedTry(w: int): seq<Event> {
    [Get(w), Sync(w, false), Check(w)]
  }

  function FailAndRetry(w: int, k: Key): seq<Event> {
    FailedTry(w) + [Requeue(w, false), Finish(w), Delayed(k)]
  }

  function FailAndDrop(w: int): seq<Event> {
    FailedTry(w) + [ForgetKey(w), Finish(w)]
  }

  function ChronicFailure(w: int, k: Key, tries: nat): seq<Event>
  {
    if tries == 0 then FailAndDrop(w) else FailAndRetry(w, k) + ChronicFailure(w, k, tries - 1)
  }

  function Took(s: State, e: Event): nat {
    B(s.q.queue != [] && Takes(s, e, s.q.queue[0]))
  }

  lemma {:induction false} RunAppend(s: State, es: seq<Event>, fs: seq<Event>)
    ensures Run(s, es + fs) == Run(Run(s, es), fs)
    ensures Gets(s, es + fs) == Gets(s, es) + Gets(Run(s, es), fs)
    decreases es
  {
    if es == [] {
      assert es + fs == fs;
    } else {
      assert (es + fs)[1..] == es[1..] + fs;
      RunAppend(Step(s, es[0]), es[1..], fs);
    }
  }

  lemma RunOfTwo(s: State, e: Event, f: Event)
    ensures Run(s, [e, f]) == Step(Step(s, e), f)
    ensures Gets(s, [e, f]) == Took(s, e) + Took(Step(s, e), f)
  {
    assert [e, f][1..] == [f] && [f][1..] == [];
    assert Run(Step(s, e), [f]) == Step(Step(s, e), f);
    assert Gets(Step(s, e), [f]) == Took(Step(s, e), f);
  }

  lemma RunOfThree(s: State, e: Event, f: Event, g: Event)
    ensures Run(s, [e, f, g]) == Step(Step(Step(s, e), f), g)
    ensures Gets(s, [e, f, g]) == Took(s, e) + Took(Step(s, e), f) + Took(Step(Step(s, e), f), g)
  {
    assert [e, f, g][1..] == [f, g];
    RunOfTwo(Step(s, e), f, g);
  }

  /** Only k is pending, an idle worker w is there, and k has failed n times. */
  ghost predicate OnePending(s: State, w: int, k: Key, n: nat) {
    && w in s.workers && s.workers[w] == Idle
    && s.q == Queue([k], {k}, {}, multiset{}, s.q.failures, false)
    && NumRequeues(s.q, k) == n
  }

  /** One failed try, up to the point where the two outcomes part. */
  lemma FailOnce(s: State, w: int, k: Key, n: nat) returns (c: State)
    requires OnePending(s, w, k, n)
    ensures c == State(s.q.(queue := [], dirty := {}, processing := {k}),
                       s.workers[w := if n >= MAX_REQUEUES then Forgetting(k) else Requeueing(k)])
    ensures Run(s, FailedTry(w)) == c && Gets(s, FailedTry(w)) == 1
  {
    RunOfThree(s, Get(w), Sync(w, false), Check(w));
    c := Run(s, FailedTry(w));
    var b := Step(Step(s, Get(w)), Sync(w, false));
    assert b == State(s.q.(queue := [], dirty := {}, processing := {k}), s.workers[w := Checking(k)]);
  }

  lemma RetryOnce(s: State, w: int, k: Key, n: nat) returns (t: State)
    requires OnePending(s, w, k, n) && n < MAX_REQUEUES
    ensures Run(s, FailAndRetry(w, k)) == t && Gets(s, FailAndRetry(w, k)) == 1
    ensures OnePending(t, w, k, n + 1) && t.q.failures - {k} == s.q.failures - {k}
  {
    var c := FailOnce(s, w, k, n);
    RunOfThree(c, Requeue(w, false), Finish(w), Delayed(k));
    RunAppend(s, FailedTry(w), [Requeue(w, false), Finish(w), Delayed(k)]);
    t := Run(s, FailAndRetry(w, k));
    var e := Step(Step(c, Requeue(w, false)), Finish(w));
    assert e.q.waiting == multiset{k} && e.q.processing == {} && e.q.dirty == {};
    assert t.q.waiting == multiset{};
  }

  lemma DropOnce(s: State, w: int, k: Key)
    requires OnePending(s, w, k, MAX_REQUEUES)
    ensures Gets(s, FailAndDrop(w)) == 1
    ensures Run(s, FailAndDrop(w)).q == EMPTY.(failures := s.q.failures - {k})
  {
    var c := FailOnce(s, w, k, MAX_REQUEUES);
    RunOfTwo(c, ForgetKey(w), Finish(w));
    RunAppend(s, FailedTry(w), [ForgetKey(w), Finish(w)]);
  }

  /** The bound of DrainBound is exact: a key that keeps failing and has failed n times is taken
      exactly 6 - n more times, its whole potential, and is then forgotten. */
  lemma {:induction false} ChronicFailureIsDropped(s: State, w: int, k: Key, n: nat)
    requires OnePending(s, w, k, n) && n <= MAX_REQUEUES
    ensures Gets(s, ChronicFailure(w, k, MAX_REQUEUES - n)) == 6 - n
    ensures QueueInv(s.q) && (forall v :: !Holds(s, v, k)) ==> Potential(s, k) == 6 - n
    ensures var t := Run(s, ChronicFailure(w, k, MAX_REQUEUES - n));
            t.q == EMPTY.(failures := s.q.failures - {k})
    decreases MAX_REQUEUES - n
  {
    if n == MAX_REQUEUES {
      DropOnce(s, w, k);
    } else {
      var t := RetryOnce(s, w, k, n);
      RunAppend(s, FailAndRetry(w, k), ChronicFailure(w, k, MAX_REQUEUES - n - 1));
      ChronicFailureIsDropped(t, w, k, n + 1);
    }
  }
}
