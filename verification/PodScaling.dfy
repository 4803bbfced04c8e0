/** How one PodManager scales: pods are created by index counted from the length of the list, and
    deleted by position in the list. */
module PodScaling {
  import opened Options
  import opened PodNames
  import opened Pods

  /** Creation from index i up to the desired count; it stops at the first taken name. */
  function CreateFrom(pods: PodMap, m: Owner, i: nat, desired: nat): PodMap
    decreases desired - i
  {
    if i >= desired || Taken(pods, m, i) then pods
    else CreateFrom(pods[PodName(m.name, i) := NewPod(m)], m, i + 1, desired)
  }

  /** The names a pass deletes when the list came in this order. */
  function Tail(order: seq<string>, desired: nat): set<string> {
    if desired <= |order| then set n | n in order[desired..] else {}
  }

  /** The pods after one pass over the list `order`. */
  function Pass(pods: PodMap, m: Owner, order: seq<string>, desired: nat): PodMap {
    if |order| < desired then CreateFrom(pods, m, |order|, desired)
    else Mark(pods, Tail(order, desired))
  }

  /** The first position from i on whose pod is gone, or the length of the list. */
  function FirstMissing(items: seq<string>, pods: PodMap, i: nat): (k: nat)
    requires i <= |items|
    ensures i <= k <= |items| && forall j :: i <= j < k ==> items[j] in pods
    ensures k < |items| ==> items[k] !in pods
    decreases |items| - i
  {
    if i == |items| || items[i] !in pods then i else FirstMissing(items, pods, i + 1)
  }

  class Namespace {
    var pods: PodMap

    constructor (pods: PodMap)
      ensures this.pods == pods
    {
      this.pods := pods;
    }

    method Create(name: string, pod: Pod) returns (ok: bool)
      modifies this
      ensures ok == (name !in old(pods))
      ensures pods == if ok then old(pods)[name := pod] else old(pods)
    {
      ok := name !in pods;
      if ok {
        pods := pods[name := pod];
      }
    }

    /** The answer for a pod that is gone is the NotFound error. */
    method Delete(name: string) returns (found: bool)
      modifies this
      ensures found == (name in old(pods)) && pods == Mark(old(pods), {name})
    {
      found := name in pods;
      pods := map n <- pods :: if n == name then pods[n].(terminating := true) else pods[n];
    }

    /** The cleanup loop of the finalizer: a pod that is already gone is skipped. */
    method DeleteOwned(items: seq<string>)
      modifies this
      ensures pods == Mark(old(pods), set n | n in items)
    {
      assert Mark(pods, {}) == pods;
      for i := 0 to |items|
        invariant pods == Mark(old(pods), set n | n in items[..i])
      {
        assert items[..i + 1] == items[..i] + [items[i]];
        var _ := Delete(items[i]);
      }
      assert items[..|items|] == items;
    }

    /** The creating loop: it stops at the first name that is taken. */
    method CreateMissing(m: Owner, currentReplicas: nat, desiredReplicas: nat) returns (ok: bool)
      requires currentReplicas <= desiredReplicas
      modifies this
      ensures pods == CreateFrom(old(pods), m, currentReplicas, desiredReplicas)
      ensures ok <==> Clear(old(pods), m, currentReplicas, desiredReplicas)
    {
      var i := currentReplicas;
      while i < desiredReplicas
        invariant currentReplicas <= i <= desiredReplicas
        invariant CreateFrom(pods, m, i, desiredReplicas) == CreateFrom(old(pods), m, currentReplicas, desiredReplicas)
        invariant Clear(old(pods), m, currentReplicas, i)
        invariant forall j: nat :: i <= j ==> (Taken(pods, m, j) <==> Taken(old(pods), m, j))
      {
        ghost var before := pods;
        ok := Create(PodName(m.name, i), NewPod(m));
        if !ok {
          assert Taken(before, m, i);
          return false;
        }
        CreateOne(before, m, i);
        i := i + 1;
      }
      return true;
    }

    /** The deleting loop: everything in the list from the desired length on, up to the first pod
        that is gone, which is an error here. */
    method DeleteSurplus(items: seq<string>, desiredReplicas: nat) returns (ok: bool)
      requires desiredReplicas <= |items|
      modifies this
      ensures var k := FirstMissing(items, old(pods), desiredReplicas);
              && pods == Mark(old(pods), set n | n in items[desiredReplicas..k])
              && (ok <==> k == |items|)
    {
      assert Mark(pods, {}) == pods;
      ghost var k := FirstMissing(items, pods, desiredReplicas);
      var i := desiredReplicas;
      while i < |items|
        invariant desiredReplicas <= i <= k
        invariant pods == Mark(old(pods), set n | n in items[desiredReplicas..i])
      {
        assert items[desiredReplicas..i + 1] == items[desiredReplicas..i] + [items[i]];
        ghost var before := pods;
        var found := Delete(items[i]);
        if !found {
          assert pods == before;
          return false;
        }
        i := i + 1;
      }
      return true;
    }

    /** The scaling part of a pass. */
    method AdjustPods(m: Owner, items: seq<string>, desiredReplicas: nat) returns (ok: bool)
      requires Lists(items, Own(pods, m))
      modifies this
      ensures pods == Pass(old(pods), m, items, desiredReplicas)
      ensures ok <==> |items| >= desiredReplicas || Clear(old(pods), m, |items|, desiredReplicas)
    {
      ok := true;
      if |items| < desiredReplicas {
        ok := CreateMissing(m, |items|, desiredReplicas);
      } else if |items| > desiredReplicas {
        ok := DeleteSurplus(items, desiredReplicas);
        assert forall j :: 0 <= j < |items| ==> items[j] in items;
        assert items[desiredReplicas..|items|] == items[desiredReplicas..];
      } else {
        assert items[desiredReplicas..] == [];
        assert Mark(pods, {}) == pods;
      }
    }
  }

  // ---------------------------------------------------------------------------
  // Scaling up
  // ---------------------------------------------------------------------------

  function Count(pods: PodMap, m: Owner): nat {
    |Own(pods, m)|
  }

  /** n passes with nobody else acting. A pass that has to create does not look at the order of
      the list, only at its length. */
  function ScaleUp(pods: PodMap, m: Owner, desired: nat, n: nat): PodMap {
    if n == 0 then pods
    else var p := ScaleUp(pods, m, desired, n - 1);
         CreateFrom(p, m, Count(p, m), desired)
  }

  predicate Clear(pods: PodMap, m: Owner, from: nat, to: nat) {
    forall i :: from <= i < to ==> !Taken(pods, m, i)
  }

  lemma CreateOne(pods: PodMap, m: Owner, i: nat)
    requires !Taken(pods, m, i)
    ensures var p := pods[PodName(m.name, i) := NewPod(m)];
            && Own(p, m) == Own(pods, m) + {PodName(m.name, i)}
            && Count(p, m) == Count(pods, m) + 1
            && forall j: nat :: j != i ==> (Taken(p, m, j) <==> Taken(pods, m, j))
  {
    var p := pods[PodName(m.name, i) := NewPod(m)];
    assert Own(p, m) == Own(pods, m) + {PodName(m.name, i)};
    forall j: nat | j != i ensures Taken(p, m, j) <==> Taken(pods, m, j) {
      if PodName(m.name, j) == PodName(m.name, i) { PodNameInjective(m.name, j, m.name, i); }
    }
  }

  /** The first taken index from i on, or desired. */
  function Limit(pods: PodMap, m: Owner, i: nat, desired: nat): (k: nat)
    requires i <= desired
    ensures i <= k <= desired && Clear(pods, m, i, k)
    ensures k < desired ==> Taken(pods, m, k)
    decreases desired - i
  {
    if i == desired || Taken(pods, m, i) then i else Limit(pods, m, i + 1, desired)
  }

  /** The pods that were there are as they were, and every new one is the manager's and live. */
  ghost predicate Grown(pods: PodMap, p: PodMap, m: Owner) {
    && (forall n <- pods :: n in p && p[n] == pods[n])
    && (forall n <- p :: n !in pods ==> p[n].owner == Some(m) && !p[n].terminating)
  }

  /** Creation fills the names up to the first taken one, and nothing else. */
  lemma {:induction false} CreateFromReaches(pods: PodMap, m: Owner, i: nat, desired: nat)
    requires i <= desired
    ensures var p := CreateFrom(pods, m, i, desired);
            var k := Limit(pods, m, i, desired);
            && Count(p, m) == Count(pods, m) + k - i
            && (forall j: nat :: Taken(p, m, j) <==> Taken(pods, m, j) || i <= j < k)
            && Grown(pods, p, m)
    decreases desired - i
  {
    if i < desired && !Taken(pods, m, i) {
      var p := pods[PodName(m.name, i) := NewPod(m)];
      CreateOne(pods, m, i);
      CreateFromReaches(p, m, i + 1, desired);
      LimitSame(pods, p, m, i + 1, desired);
    }
  }

  lemma {:induction false} LimitSame(pods: PodMap, p: PodMap, m: Owner, i: nat, desired: nat)
    requires i <= desired
    requires forall j :: i <= j < desired ==> (Taken(p, m, j) <==> Taken(pods, m, j))
    ensures Limit(p, m, i, desired) == Limit(pods, m, i, desired)
    decreases desired - i
  {
    if i < desired && !Taken(pods, m, i) {
      LimitSame(pods, p, m, i + 1, desired);
    }
  }

  /** From the first pass on, the count is the first taken index at or above the count at the
      start (or the desired count), and further passes change nothing. */
  lemma {:induction false} ScaleUpSettles(pods: PodMap, m: Owner, desired: nat, n: nat)
    requires Count(pods, m) <= desired
    ensures var k := Limit(pods, m, Count(pods, m), desired);
            n >= 1 ==>
              && Count(ScaleUp(pods, m, desired, n), m) == k
              && ScaleUp(pods, m, desired, n) == ScaleUp(pods, m, desired, 1)
              && Grown(pods, ScaleUp(pods, m, desired, n), m)
  {
    var c := Count(pods, m);
    var k := Limit(pods, m, c, desired);
    if n == 1 {
      assert ScaleUp(pods, m, desired, 0) == pods;
      CreateFromReaches(pods, m, c, desired);
    } else if n > 1 {
      ScaleUpSettles(pods, m, desired, n - 1);
      CreateFromReaches(pods, m, c, desired);
      var p := ScaleUp(pods, m, desired, 1);
      assert p == CreateFrom(ScaleUp(pods, m, desired, 0), m, c, desired);
      assert k < desired ==> Taken(p, m, k);
      assert CreateFrom(p, m, k, desired) == p;
    }
  }

  ghost predicate Reaches(pods: PodMap, m: Owner, desired: nat, count: nat) {
    exists n: nat :: Count(ScaleUp(pods, m, desired, n), m) == count
  }

  function LiveOwn(pods: PodMap, m: Owner): set<string> {
    set n <- pods | pods[n].owner == Some(m) && !pods[n].terminating
  }

  ghost predicate ReachesLive(pods: PodMap, m: Owner, desired: nat, count: nat) {
    exists n: nat :: |LiveOwn(ScaleUp(pods, m, desired, n), m)| == count
  }

  /** Repeated passes reach the desired count exactly when no name with an index from the current
      count up to the desired one is taken at the start, and they never exceed it. What they add are
      live pods of the manager, so from live pods it is live pods they reach or miss. */
  lemma ScaleUpExactly(pods: PodMap, m: Owner, desired: nat)
    requires Count(pods, m) <= desired
    ensures Reaches(pods, m, desired, desired) <==> Clear(pods, m, Count(pods, m), desired)
    ensures forall n: nat :: Count(ScaleUp(pods, m, desired, n), m) <= desired
    ensures forall n: nat :: Grown(pods, ScaleUp(pods, m, desired, n), m)
    ensures Live(pods, Own(pods, m)) ==>
              (ReachesLive(pods, m, desired, desired) <==> Clear(pods, m, Count(pods, m), desired))
  {
    var c := Count(pods, m);
    var limit := Limit(pods, m, c, desired);
    forall n: nat ensures Count(ScaleUp(pods, m, desired, n), m) == if n == 0 then c else limit {
      ScaleUpSettles(pods, m, desired, n);
    }
    if limit == desired {
      ScaleUpSettles(pods, m, desired, 1);
      assert Reaches(pods, m, desired, desired);
    } else {
      assert Taken(pods, m, limit);
    }
    forall n: nat ensures Grown(pods, ScaleUp(pods, m, desired, n), m) {
      ScaleUpSettles(pods, m, desired, n);
    }
    if Live(pods, Own(pods, m)) {
      forall n: nat ensures LiveOwn(ScaleUp(pods, m, desired, n), m) == Own(ScaleUp(pods, m, desired, n), m) {
        GrownLive(pods, ScaleUp(pods, m, desired, n), m);
      }
      if limit == desired {
        assert |LiveOwn(ScaleUp(pods, m, desired, 1), m)| == desired;
      }
    }
  }

  lemma GrownLive(pods: PodMap, p: PodMap, m: Owner)
    requires Grown(pods, p, m) && Live(pods, Own(pods, m))
    ensures LiveOwn(p, m) == Own(p, m)
  {
    forall n | n in Own(p, m) ensures n in LiveOwn(p, m) {
      if n in pods {
        assert n in Own(pods, m);
      }
    }
  }

  /** Otherwise they stop for good at the smallest taken index: one pass gets there, and no later
      pass changes anything. */
  lemma ScaleUpStops(pods: PodMap, m: Owner, desired: nat, k: nat, n: nat)
    requires Count(pods, m) <= k < desired && Taken(pods, m, k) && Clear(pods, m, Count(pods, m), k)
    requires n >= 1
    ensures Count(ScaleUp(pods, m, desired, n), m) == k
    ensures ScaleUp(pods, m, desired, n) == ScaleUp(pods, m, desired, 1)
  {
    ScaleUpSettles(pods, m, desired, n);
    assert k == Limit(pods, m, Count(pods, m), desired);
  }

  // ---------------------------------------------------------------------------
  // Scaling down
  // ---------------------------------------------------------------------------

  datatype Event = Reconcile(order: seq<string>) | Gone(name: string)

  /** A pass over the pods as listed in any order, or the end of a termination. */
  ghost function Step(pods: PodMap, m: Owner, desired: nat, e: Event): PodMap {
    match e
    case Reconcile(order) => if Lists(order, Own(pods, m)) then Pass(pods, m, order, desired) else pods
    case Gone(n) => if n in pods && pods[n].terminating then pods - {n} else pods
  }

  ghost function Run(pods: PodMap, m: Owner, desired: nat, es: seq<Event>): PodMap {
    if es == [] then pods else Step(Run(pods, m, desired, es[..|es| - 1]), m, desired, es[|es| - 1])
  }

  ghost predicate IsPass(pods: PodMap, m: Owner, e: Event) {
    e.Reconcile? && Lists(e.order, Own(pods, m))
  }

  /** The run has made a pass. */
  ghost predicate Passed(pods: PodMap, m: Owner, desired: nat, es: seq<Event>) {
    es != [] &&
    (Passed(pods, m, desired, es[..|es| - 1]) || IsPass(Run(pods, m, desired, es[..|es| - 1]), m, es[|es| - 1]))
  }

  /** No list of the run has one of these pods behind the desired position. */
  ghost predicate Spares(pods: PodMap, m: Owner, desired: nat, keep: set<string>, es: seq<Event>) {
    es != [] ==>
      && Spares(pods, m, desired, keep, es[..|es| - 1])
      && (IsPass(Run(pods, m, desired, es[..|es| - 1]), m, es[|es| - 1]) ==>
            Tail(es[|es| - 1].order, desired) !! keep)
  }

  ghost predicate Live(pods: PodMap, names: set<string>) {
    forall n <- names :: n in pods && !pods[n].terminating
  }

  ghost predicate AlwaysLive(pods: PodMap, m: Owner, desired: nat, keep: set<string>, es: seq<Event>) {
    && Live(Run(pods, m, desired, es), keep)
    && (es != [] ==> AlwaysLive(pods, m, desired, keep, es[..|es| - 1]))
  }

  /** Nothing is created, and only the manager's other pods may be terminating or gone. */
  ghost predicate Shrunk(p: PodMap, pods: PodMap, m: Owner, keep: set<string>) {
    && keep <= Own(p, m)
    && (forall n <- p :: n in pods && p[n].owner == pods[n].owner)
    && (forall n <- p :: p[n] != pods[n] ==> n in Own(pods, m) && n !in keep && p[n].terminating)
    && (forall n <- pods :: n !in p ==> n !in keep && (n in Own(pods, m) || pods[n].terminating))
  }

  lemma SubsetSize(a: set<string>, b: set<string>)
    requires a <= b
    ensures |a| <= |b|
    ensures |a| == |b| ==> a == b
  {
    assert b == a + (b - a);
  }

  lemma {:induction false} DistinctSize(order: seq<string>, names: set<string>)
    requires Lists(order, names)
    ensures |order| == |names|
  {
    if order == [] {
      assert names == {};
    } else {
      var last := order[|order| - 1];
      assert order == order[..|order| - 1] + [last];
      DistinctSize(order[..|order| - 1], names - {last});
    }
  }

  lemma TailSize(order: seq<string>, names: set<string>, desired: nat)
    requires Lists(order, names) && desired <= |order|
    ensures |Tail(order, desired)| == |names| - desired && Tail(order, desired) <= names
  {
    DistinctSize(order, names);
    var rest := order[desired..];
    assert forall n :: n in rest ==> n in order;
    DistinctSize(rest, Tail(order, desired));
  }

  /** A pass that finds the pods to keep deletes its tail and creates nothing. */
  lemma PassDeletes(p: PodMap, m: Owner, desired: nat, keep: set<string>, order: seq<string>)
    requires Lists(order, Own(p, m)) && keep <= Own(p, m) && |keep| == desired
    ensures Pass(p, m, order, desired) == Mark(p, Tail(order, desired))
    ensures Tail(order, desired) <= Own(p, m)
    ensures Tail(order, desired) !! keep ==> Tail(order, desired) == Own(p, m) - keep
  {
    DistinctSize(order, Own(p, m));
    SubsetSize(keep, Own(p, m));
    TailSize(order, Own(p, m), desired);
    if Tail(order, desired) !! keep {
      assert |Own(p, m) - keep| == |Own(p, m)| - desired;
      SubsetSize(Tail(order, desired), Own(p, m) - keep);
    }
  }

  lemma StepShrinks(p: PodMap, pods: PodMap, m: Owner, desired: nat, keep: set<string>, e: Event)
    requires Shrunk(p, pods, m, keep) && Live(p, keep) && |keep| == desired
    ensures Live(Step(p, m, desired, e), keep) <==> (IsPass(p, m, e) ==> Tail(e.order, desired) !! keep)
    ensures Live(Step(p, m, desired, e), keep) ==> Shrunk(Step(p, m, desired, e), pods, m, keep)
  {
    if IsPass(p, m, e) {
      PassDeletes(p, m, desired, keep, e.order);
      assert forall n :: n in Own(p, m) ==> n in Own(pods, m);
    }
  }

  lemma {:induction false} SparesShrinks(pods: PodMap, m: Owner, desired: nat, keep: set<string>, es: seq<Event>)
    requires keep <= Own(pods, m) && |keep| == desired && Live(pods, keep)
    ensures AlwaysLive(pods, m, desired, keep, es) <==> Spares(pods, m, desired, keep, es)
    ensures AlwaysLive(pods, m, desired, keep, es) ==> Shrunk(Run(pods, m, desired, es), pods, m, keep)
  {
    if es != [] {
      var front := es[..|es| - 1];
      SparesShrinks(pods, m, desired, keep, front);
      if AlwaysLive(pods, m, desired, keep, front) {
        StepShrinks(Run(pods, m, desired, front), pods, m, desired, keep, es[|es| - 1]);
      }
    }
  }

  /** After a pass that spares the pods to keep, all the others are terminating. */
  lemma {:induction false} OthersTerminate(pods: PodMap, m: Owner, desired: nat, keep: set<string>, es: seq<Event>)
    requires keep <= Own(pods, m) && |keep| == desired && Live(pods, keep)
    requires Spares(pods, m, desired, keep, es) && Passed(pods, m, desired, es)
    ensures var p := Run(pods, m, desired, es); forall n <- Own(p, m) :: n in keep || p[n].terminating
  {
    var front := es[..|es| - 1];
    var p := Run(pods, m, desired, front);
    SparesShrinks(pods, m, desired, keep, front);
    if IsPass(p, m, es[|es| - 1]) {
      PassDeletes(p, m, desired, keep, es[|es| - 1].order);
    } else {
      OthersTerminate(pods, m, desired, keep, front);
      var p' := Run(pods, m, desired, es);
      assert forall n :: n in Own(p', m) ==> n in Own(p, m) && p'[n] == p[n];
    }
  }

  /** Over every interleaving of passes, each with its own list order, and terminations: a choice of
      pods to keep, as many as desired, stays live throughout if and only if no list has one of them
      behind the desired position. Then nothing is ever created, no other manager's pod is touched,
      and after the first pass all the others are terminating: once those are gone exactly the
      desired pods are left. */
  lemma ScaleDownExactly(pods: PodMap, m: Owner, desired: nat, keep: set<string>, es: seq<Event>)
    requires keep <= Own(pods, m) && |keep| == desired && Live(pods, keep)
    ensures AlwaysLive(pods, m, desired, keep, es) <==> Spares(pods, m, desired, keep, es)
    ensures var p := Run(pods, m, desired, es);
            Spares(pods, m, desired, keep, es) ==>
              && Shrunk(p, pods, m, keep)
              && (Passed(pods, m, desired, es) ==> forall n <- Own(p, m) :: n in keep || p[n].terminating)
              && (Passed(pods, m, desired, es) && Live(p, Own(p, m)) ==>
                    Own(p, m) == keep && Count(p, m) == desired)
  {
    SparesShrinks(pods, m, desired, keep, es);
    if Spares(pods, m, desired, keep, es) && Passed(pods, m, desired, es) {
      OthersTerminate(pods, m, desired, keep, es);
      var p := Run(pods, m, desired, es);
      if Live(p, Own(p, m)) {
        assert Own(p, m) <= keep;
      }
    }
  }

  // A list in a fixed order, such as the API server's by name, spares its first pods even while
  // deleted pods disappear one by one.

  /** The names in the set, in the fixed order. */
  function Listed(order: seq<string>, names: set<string>): seq<string> {
    if order == [] then []
    else Listed(order[..|order| - 1], names) +
         (if order[|order| - 1] in names then [order[|order| - 1]] else [])
  }

  ghost predicate FixedOrder(pods: PodMap, m: Owner, desired: nat, order: seq<string>, es: seq<Event>) {
    es != [] ==>
      && FixedOrder(pods, m, desired, order, es[..|es| - 1])
      && (es[|es| - 1].Reconcile? ==>
            es[|es| - 1].order == Listed(order, Own(Run(pods, m, desired, es[..|es| - 1]), m)))
  }

  function First(order: seq<string>, desired: nat): set<string>
    requires desired <= |order|
  {
    set n | n in order[..desired]
  }

  lemma {:induction false} ListedPrefix(order: seq<string>, names: set<string>, desired: nat)
    requires desired <= |order| && First(order, desired) <= names
    ensures |Listed(order, names)| >= desired && Listed(order, names)[..desired] == order[..desired]
    ensures forall n :: n in Listed(order, names)[desired..] ==> n in order[desired..]
  {
    if |order| == desired {
      assert order[..desired] == order;
      ListedAll(order, names);
    } else {
      var rest, last := order[..|order| - 1], order[|order| - 1];
      assert rest[..desired] == order[..desired];
      ListedPrefix(rest, names, desired);
      assert order[desired..] == rest[desired..] + [last];
      var l := Listed(order, names);
      assert l[..desired] == Listed(rest, names)[..desired];
      assert l[desired..] == Listed(rest, names)[desired..] + (if last in names then [last] else []);
    }
  }

  lemma {:induction false} ListedAll(order: seq<string>, names: set<string>)
    requires forall n :: n in order ==> n in names
    ensures Listed(order, names) == order
  {
    if order != [] {
      assert order[|order| - 1] in order;
      ListedAll(order[..|order| - 1], names);
    }
  }

  lemma FirstSize(order: seq<string>, names: set<string>, desired: nat)
    requires Lists(order, names) && desired <= |order|
    ensures First(order, desired) <= names && |First(order, desired)| == desired
    ensures forall n :: n in order[desired..] ==> n !in First(order, desired)
  {
    var front := order[..desired];
    assert forall n :: n in front ==> n in order;
    DistinctSize(front, First(order, desired));
  }

  lemma {:induction false} FixedOrderSpares(pods: PodMap, m: Owner, desired: nat, order: seq<string>, es: seq<Event>)
    requires Lists(order, Own(pods, m)) && desired <= |order| && Live(pods, First(order, desired))
    requires FixedOrder(pods, m, desired, order, es)
    ensures Spares(pods, m, desired, First(order, desired), es)
  {
    if es != [] {
      var front := es[..|es| - 1];
      FixedOrderSpares(pods, m, desired, order, front);
      FirstSize(order, Own(pods, m), desired);
      SparesShrinks(pods, m, desired, First(order, desired), front);
      ListedPrefix(order, Own(Run(pods, m, desired, front), m), desired);
    }
  }

  /** With such a list, in every interleaving of passes and terminations, the first `desired` pods
      stay, no pod is created, and after a pass and the terminations exactly those are left. */
  lemma StableScaleDown(pods: PodMap, m: Owner, desired: nat, order: seq<string>, es: seq<Event>)
    requires Lists(order, Own(pods, m)) && desired <= |order| && Live(pods, First(order, desired))
    requires FixedOrder(pods, m, desired, order, es)
    ensures var p := Run(pods, m, desired, es);
            && Shrunk(p, pods, m, First(order, desired)) && Live(p, First(order, desired))
            && (Passed(pods, m, desired, es) && Live(p, Own(p, m)) ==>
                  Own(p, m) == First(order, desired) && Count(p, m) == desired)
  {
    FirstSize(order, Own(pods, m), desired);
    FixedOrderSpares(pods, m, desired, order, es);
    ScaleDownExactly(pods, m, desired, First(order, desired), es);
  }

  // ---------------------------------------------------------------------------
  // Down, then up again
  // ---------------------------------------------------------------------------

  /** The name belongs to a pod of somebody else. */
  predicate Squatted(pods: PodMap, m: Owner, i: int) {
    Taken(pods, m, i) && pods[PodName(m.name, i)].owner != Some(m)
  }

  /** After a scale-down to d that is complete, scaling up to `up` converges if and only if no pod
      that was kept, and no pod of somebody else, has an index from d on below `up`; otherwise it
      stops for good at the smallest such index. A by-name list keeps m-10 before m-2. */
  lemma ScaleDownThenUp(pods: PodMap, m: Owner, d: nat, keep: set<string>, es: seq<Event>, up: nat)
    requires keep <= Own(pods, m) && |keep| == d <= up && Live(pods, keep)
    requires Spares(pods, m, d, keep, es) && Passed(pods, m, d, es)
    requires var p := Run(pods, m, d, es); Live(p, Own(p, m))
    ensures var p := Run(pods, m, d, es);
            && (Reaches(p, m, up, up) <==>
                  forall i :: d <= i < up ==> PodName(m.name, i) !in keep && !Squatted(p, m, i))
            && (forall k, n: nat :: d <= k < up && n >= 1 && Taken(p, m, k) && Clear(p, m, d, k) ==>
                  Count(ScaleUp(p, m, up, n), m) == k)
  {
    var p := Run(pods, m, d, es);
    ScaleDownExactly(pods, m, d, keep, es);
    ScaleUpExactly(p, m, up);
    assert forall i :: Taken(p, m, i) <==> PodName(m.name, i) in keep || Squatted(p, m, i);
    forall k, n: nat | d <= k < up && n >= 1 && Taken(p, m, k) && Clear(p, m, d, k)
      ensures Count(ScaleUp(p, m, up, n), m) == k
    {
      ScaleUpStops(p, m, up, k, n);
    }
  }

  /** Two passes with different lists, before a termination ends, delete too much: scaling any
      manager from three to two can leave it stuck at one for good. */
  lemma ChangingOrderSticks(m: Owner, n: nat)
    requires n >= 1
    ensures
      var zero, one, two := PodName(m.name, 0), PodName(m.name, 1), PodName(m.name, 2);
      var pods := map[zero := NewPod(m), one := NewPod(m), two := NewPod(m)];
      var es := [Reconcile([zero, one, two]), Reconcile([one, two, zero]), Gone(two), Gone(zero)];
      var p := Run(pods, m, 2, es);
      p == map[one := NewPod(m)] && Count(ScaleUp(p, m, 2, n), m) == 1
  {
    var zero, one, two := PodName(m.name, 0), PodName(m.name, 1), PodName(m.name, 2);
    ThreeNames(m);
    var pods := map[zero := NewPod(m), one := NewPod(m), two := NewPod(m)];
    assert Own(pods, m) == {zero, one, two};
    TwoLists(pods, m, zero, one, two,
             [Reconcile([zero, one, two]), Reconcile([one, two, zero]), Gone(two), Gone(zero)]);
    var p := map[one := NewPod(m)];
    assert Own(p, m) == {one};
    assert Taken(p, m, 1);
    ScaleUpStops(p, m, 2, 1, n);
  }

  lemma TwoLists(pods: PodMap, m: Owner, a: string, b: string, c: string, es: seq<Event>)
    requires a != b && b != c && c != a
    requires pods.Keys == {a, b, c} == Own(pods, m)
    requires |es| == 4 && es[0] == Reconcile([a, b, c]) && es[1] == Reconcile([b, c, a])
    requires es[2] == Gone(c) && es[3] == Gone(a)
    ensures Run(pods, m, 2, es) == map[b := pods[b]]
  {
    RunOfFour(pods, m, 2, es);
    LastDeleted(pods, m, a, b, c);
    LastDeleted(Mark(pods, {c}), m, b, c, a);
    MarkedGone(pods, m, a, b, c);
  }

  lemma MarkedGone(pods: PodMap, m: Owner, a: string, b: string, c: string)
    requires pods.Keys == {a, b, c} && a != b && b != c && c != a
    ensures var p := Mark(Mark(pods, {c}), {a});
            Step(Step(p, m, 2, Gone(c)), m, 2, Gone(a)) == map[b := pods[b]]
  {
    var p := Mark(Mark(pods, {c}), {a});
    assert Step(p, m, 2, Gone(c)) == p - {c};
    assert Step(p - {c}, m, 2, Gone(a)) == p - {c} - {a};
  }

  lemma LastDeleted(pods: PodMap, m: Owner, a: string, b: string, c: string)
    requires a != b && b != c && c != a && Own(pods, m) == {a, b, c}
    ensures Step(pods, m, 2, Reconcile([a, b, c])) == Mark(pods, {c})
    ensures Own(Mark(pods, {c}), m) == {a, b, c}
  {
    var order := [a, b, c];
    assert order[2..] == [c];
    assert Tail(order, 2) == {c};
    assert Own(Mark(pods, {c}), m) == Own(pods, m);
  }

  lemma ThreeNames(m: Owner)
    ensures PodName(m.name, 0) != PodName(m.name, 1) && PodName(m.name, 1) != PodName(m.name, 2)
    ensures PodName(m.name, 2) != PodName(m.name, 0)
  {
    if PodName(m.name, 0) == PodName(m.name, 1) { PodNameInjective(m.name, 0, m.name, 1); }
    if PodName(m.name, 1) == PodName(m.name, 2) { PodNameInjective(m.name, 1, m.name, 2); }
    if PodName(m.name, 2) == PodName(m.name, 0) { PodNameInjective(m.name, 2, m.name, 0); }
  }

  lemma RunOfFour(pods: PodMap, m: Owner, desired: nat, es: seq<Event>)
    requires |es| == 4
    ensures Run(pods, m, desired, es) ==
            Step(Step(Step(Step(pods, m, desired, es[0]), m, desired, es[1]), m, desired, es[2]), m, desired, es[3])
  {
    assert es[..3][..2] == es[..2] && es[..2][..1] == es[..1] && es[..1][..0] == [];
    assert Run(pods, m, desired, es[..1]) == Step(pods, m, desired, es[0]);
    assert Run(pods, m, desired, es[..2]) == Step(Run(pods, m, desired, es[..1]), m, desired, es[1]);
    assert Run(pods, m, desired, es[..3]) == Step(Run(pods, m, desired, es[..2]), m, desired, es[2]);
  }
}
