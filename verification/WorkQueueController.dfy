/** The queue as the mutable object the workers share, and the two worker loops written against
    it: the one of the ConfigMap example and the one of the official example. */
module WorkQueueController {
  import opened WorkQueue

  /** What Get comes back with; Blocked stands for a call that still waits. */
  datatype Answer = Got(key: Key) | Quit | Blocked

  class RateLimitingQueue {
    var queue: seq<Key>
    var dirty: set<Key>
    var processing: set<Key>
    var waiting: multiset<Key>
    var failures: map<Key, nat>
    var shuttingDown: bool

    function View(): Queue
      reads this
    {
      Queue(queue, dirty, processing, waiting, failures, shuttingDown)
    }

    constructor ()
      ensures View() == EMPTY
    {
      queue, dirty, processing, waiting, failures, shuttingDown := [], {}, {}, multiset{}, map[], false;
    }

    method AddKey(k: Key)
      modifies this
      ensures View() == Add(old(View()), k)
    {
      if shuttingDown { return; }
      if k in dirty { return; }
      dirty := dirty + {k};
      if k in processing { return; }
      queue := queue + [k];
    }

    /** Hands out the oldest key; an empty queue blocks the caller, or sends it away when the queue
        is shutting down. */
    method GetKey() returns (r: Answer)
      modifies this
      ensures r == if old(queue) != [] then Got(old(queue)[0]) else if shuttingDown then Quit else Blocked
      ensures View() == if r.Got? then Take(old(View())) else old(View())
    {
      if queue == [] {
        return if shuttingDown then Quit else Blocked;
      }
      var k := queue[0];
      queue := queue[1..];
      processing := processing + {k};
      dirty := dirty - {k};
      r := Got(k);
    }

    method DoneKey(k: Key)
      modifies this
      ensures View() == Done(old(View()), k)
    {
      processing := processing - {k};
      if k in dirty {
        queue := queue + [k];
      }
    }

    method ForgetCount(k: Key)
      modifies this
      ensures View() == Forget(old(View()), k)
    {
      failures := failures - {k};
    }

    method AddLimited(k: Key)
      modifies this
      ensures View() == AddRateLimited(old(View()), k, false)
    {
      failures := failures[k := NumRequeues(View(), k) + 1];
      if !shuttingDown {
        waiting := waiting + multiset{k};
      }
    }

    /** A delayed re-add comes due. */
    method FireDelayed(k: Key)
      requires k in waiting
      modifies this
      ensures View() == Fire(old(View()), k)
    {
      waiting := waiting - multiset{k};
      AddKey(k);
    }
  }

  /** What one worker does with one key, as events of the protocol. */
  function Pass(w: int, ok: bool, requeues: nat): seq<Event> {
    if ok then [Get(w), Sync(w, true)] + [ForgetKey(w), Finish(w)]
    else FailedTry(w) + [if requeues >= MAX_REQUEUES then ForgetKey(w) else Requeue(w, false), Finish(w)]
  }

  function AfterSync(q: Queue, k: Key, ok: bool): Queue {
    if ok || NumRequeues(q, k) >= MAX_REQUEUES then Forget(q, k) else AddRateLimited(q, k, false)
  }

  /** The queue after one worker's undisturbed pass over the first key. */
  function PassResult(q: Queue, ok: bool): Queue
    requires q.queue != []
  {
    Done(AfterSync(Take(q), q.queue[0], ok), q.queue[0])
  }

  lemma FailedSteps(q: Queue)
    requires q.queue != []
    ensures var k := q.queue[0];
            var last := if NumRequeues(q, k) >= MAX_REQUEUES then ForgetKey(0) else Requeue(0, false);
            Step(Step(Step(Step(Step(State(q, map[0 := Idle]), Get(0)), Sync(0, false)), Check(0)), last), Finish(0))
            == State(PassResult(q, false), map[0 := Idle])
  {
    var k := q.queue[0];
    var b := Step(Step(State(q, map[0 := Idle]), Get(0)), Sync(0, false));
    assert b == State(Take(q), map[0 := Checking(k)]);
    assert NumRequeues(b.q, k) == NumRequeues(q, k);
    var c := Step(b, Check(0));
    assert c == State(Take(q), map[0 := if NumRequeues(q, k) >= MAX_REQUEUES then Forgetting(k) else Requeueing(k)]);
    var last := if NumRequeues(q, k) >= MAX_REQUEUES then ForgetKey(0) else Requeue(0, false);
    assert Step(c, last) == State(AfterSync(Take(q), k, false), map[0 := Finishing(k)]);
  }

  /** The pass of the code is a run of the protocol: the queue it leaves is the queue after its
      Get, Sync, Check, Requeue or Forget, and Finish. */
  lemma PassIsRun(q: Queue, ok: bool)
    requires q.queue != []
    ensures Run(State(q, map[0 := Idle]), Pass(0, ok, NumRequeues(q, q.queue[0]))) ==
            State(PassResult(q, ok), map[0 := Idle])
  {
    var s := State(q, map[0 := Idle]);
    if ok {
      RunOfTwo(s, Get(0), Sync(0, true));
      RunOfTwo(Run(s, [Get(0), Sync(0, true)]), ForgetKey(0), Finish(0));
      RunAppend(s, [Get(0), Sync(0, true)], [ForgetKey(0), Finish(0)]);
    } else {
      var last := if NumRequeues(q, q.queue[0]) >= MAX_REQUEUES then ForgetKey(0) else Requeue(0, false);
      FailedSteps(q);
      RunOfThree(s, Get(0), Sync(0, false), Check(0));
      RunOfTwo(Run(s, FailedTry(0)), last, Finish(0));
      RunAppend(s, FailedTry(0), [last, Finish(0)]);
    }
  }

  /** Nobody else adds keys during the pass, so its key does not come back at once. */
  lemma PassTakesOne(q: Queue, ok: bool)
    requires QueueInv(q) && q.queue != []
    ensures var r := PassResult(q, ok);
            && QueueInv(r) && r.queue == q.queue[1..]
            && r.processing == q.processing && r.shuttingDown == q.shuttingDown
  {
    var k := q.queue[0];
    assert k in q.queue;
    TakeInv(q);
    CountInv(Take(q), k, false);
    DoneInv(AfterSync(Take(q), k, ok), k);
  }

  predicate Retried(q: Queue, k: Key, failed: Key -> bool) {
    failed(k) && NumRequeues(q, k) < MAX_REQUEUES
  }

  /** Of the keys processed, those that failed below the limit have one failure more and one delayed
      re-add, the others no failure; of the rest nothing has changed. */
  ghost predicate Settled(q0: Queue, q: Queue, processed: seq<Key>, failed: Key -> bool) {
    forall k ::
      && NumRequeues(q, k) == (if k !in processed then NumRequeues(q0, k)
                               else if Retried(q0, k, failed) then NumRequeues(q0, k) + 1 else 0)
      && q.waiting[k] == q0.waiting[k] +
           (if k in processed && Retried(q0, k, failed) && !q0.shuttingDown then 1 else 0)
  }

  lemma PassSettles(q0: Queue, q: Queue, processed: seq<Key>, failed: Key -> bool)
    requires Settled(q0, q, processed, failed) && q.shuttingDown == q0.shuttingDown
    requires q.queue != [] && q.queue[0] !in processed
    ensures Settled(q0, PassResult(q, !failed(q.queue[0])), processed + [q.queue[0]], failed)
  {
    var k := q.queue[0];
    var r := PassResult(q, !failed(k));
    assert NumRequeues(Take(q), k) == NumRequeues(q, k);
    assert forall j :: j != k ==> NumRequeues(r, j) == NumRequeues(q, j) && r.waiting[j] == q.waiting[j];
  }

  class Controller {
    const queue: RateLimitingQueue

    constructor (queue: RateLimitingQueue)
      ensures this.queue == queue
    {
      this.queue := queue;
    }

    /** The official example: requeue below the limit, otherwise forget. */
    method HandleErr(k: Key, failed: bool)
      modifies queue
      ensures queue.View() == AfterSync(old(queue.View()), k, !failed)
    {
      if !failed {
        queue.ForgetCount(k);
        return;
      }
      if NumRequeues(queue.View(), k) < MAX_REQUEUES {
        queue.AddLimited(k);
        return;
      }
      queue.ForgetCount(k);
    }

    /** The ConfigMap example: give up at the limit, otherwise requeue. */
    method HandleErrGiveUpFirst(k: Key, failed: bool)
      modifies queue
      ensures queue.View() == AfterSync(old(queue.View()), k, !failed)
    {
      if !failed {
        queue.ForgetCount(k);
        return;
      }
      if NumRequeues(queue.View(), k) >= MAX_REQUEUES {
        queue.ForgetCount(k);
        return;
      }
      queue.AddLimited(k);
    }

    /** One worker pass with its deferred Done. */
    method ProcessNextItem(failed: Key -> bool) returns (r: Answer)
      modifies queue
      ensures r == if old(queue.queue) != [] then Got(old(queue.queue)[0])
                   else if queue.shuttingDown then Quit else Blocked
      ensures queue.View() == if r.Got? then PassResult(old(queue.View()), !failed(r.key)) else old(queue.View())
    {
      r := queue.GetKey();
      if r.Got? {
        HandleErr(r.key, failed(r.key));
        queue.DoneKey(r.key);
      }
    }

    /** A worker that nobody disturbs processes exactly the keys that were queued, in the order they
        were added, each once. It returns if the queue is shutting down and blocks otherwise, with
        nothing pending except what other workers hold. */
    method RunWorker(failed: Key -> bool) returns (processed: seq<Key>, last: Answer)
      requires QueueInv(queue.View())
      modifies queue
      ensures processed == old(queue.queue) && last == if queue.shuttingDown then Quit else Blocked
      ensures QueueInv(queue.View()) && queue.queue == [] && queue.dirty <= queue.processing
      ensures queue.processing == old(queue.processing) && queue.shuttingDown == old(queue.shuttingDown)
      ensures Settled(old(queue.View()), queue.View(), processed, failed)
    {
      processed, last := [], Blocked;
      ghost var q0, q := queue.View(), queue.View();
      var more := true;
      while more
        invariant queue.View() == q && Progress(q0, q, processed, failed)
        invariant !more ==> q.queue == [] && last == if q.shuttingDown then Quit else Blocked
        decreases |q.queue|, more
      {
        last := ProcessNextItem(failed);
        more := last.Got?;
        if more {
          Advance(q0, q, processed, failed);
          processed := processed + [last.key];
          q := PassResult(q, !failed(last.key));
        }
      }
    }
  }

  /** How far a worker is that nobody disturbs. */
  ghost predicate Progress(q0: Queue, q: Queue, processed: seq<Key>, failed: Key -> bool) {
    && QueueInv(q0) && QueueInv(q) && processed + q.queue == q0.queue
    && q.processing == q0.processing && q.shuttingDown == q0.shuttingDown
    && Settled(q0, q, processed, failed)
  }

  lemma Advance(q0: Queue, q: Queue, processed: seq<Key>, failed: Key -> bool)
    requires Progress(q0, q, processed, failed) && q.queue != []
    ensures var k := q.queue[0]; Progress(q0, PassResult(q, !failed(k)), processed + [k], failed)
    ensures |PassResult(q, !failed(q.queue[0])).queue| < |q.queue|
  {
    PassTakesOne(q, !failed(q.queue[0]));
    FirstIsNew(q0, q, processed);
    PassSettles(q0, q, processed, failed);
    OneMore(q0, q, PassResult(q, !failed(q.queue[0])), processed, failed);
  }

  lemma OneMore(q0: Queue, q: Queue, r: Queue, processed: seq<Key>, failed: Key -> bool)
    requires q.queue != [] && processed + q.queue == q0.queue && r.queue == q.queue[1..]
    requires q.processing == q0.processing && q.shuttingDown == q0.shuttingDown
    requires QueueInv(q0) && QueueInv(r) && r.processing == q.processing && r.shuttingDown == q.shuttingDown
    requires Settled(q0, r, processed + [q.queue[0]], failed)
    ensures Progress(q0, r, processed + [q.queue[0]], failed)
  {
    assert processed + [q.queue[0]] + r.queue == q0.queue;
  }

  lemma FirstIsNew(q0: Queue, q: Queue, processed: seq<Key>)
    requires QueueInv(q0) && processed + q.queue == q0.queue && q.queue != []
    ensures q.queue[0] !in processed
  {
    assert q0.queue[|processed|] == q.queue[0];
    assert forall i :: 0 <= i < |processed| ==> q0.queue[i] == processed[i];
  }
}
