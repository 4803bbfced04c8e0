/** The passes of the code as runs of the protocol: with nobody else acting, the calls of a scaling
    pass have the effect PodScaling gives the whole pass, and those of a cleanup pass mark every pod
    of the manager and release it. */
module PodPasses {
  import opened Options
  import opened PodNames
  import opened Pods
  import opened PodOperator
  import PodScaling

  /** Calls for one manager that all ended normally. */
  ghost predicate CleanCalls(es: seq<Event>, name: string) {
    forall i :: 0 <= i < |es| ==> es[i].Call? && es[i].name == name && es[i].fault == Clean
  }

  lemma RunFirst(s: State, e: Event, es: seq<Event>)
    ensures Run(s, [e] + es) == Run(Step(s, e), es)
  {
    assert ([e] + es)[1..] == es;
  }

  /** The manager as written back: a new version of it. */
  function Written(s: State, m: Manager): Manager {
    m.(resourceVersion := s.nextVersion)
  }

  /** The pass has left these pods behind; one without an error has written the status. */
  ghost function Finished(s: State, name: string, read: Manager, pods: PodMap, ok: bool): State {
    var t := s.(pods := pods, control := s.control[name := Idle]);
    if ok then t.(managers := s.managers[name := Written(s, read)], nextVersion := s.nextVersion + 1) else t
  }

  /** A pass of `name` leads from s to t: only its own control and the pods have changed. */
  ghost predicate Within(s: State, t: State, name: string) {
    t == s.(pods := t.pods, control := s.control[name := At(t, name)])
  }

  lemma FinishedWithin(s: State, t: State, name: string, read: Manager, pods: PodMap, ok: bool)
    requires Within(s, t, name)
    ensures Finished(t, name, read, pods, ok) == Finished(s, name, read, pods, ok)
  {
    assert t.control[name := Idle] == s.control[name := Idle];
  }

  /** The status update that ends a pass. */
  lemma StatusRun(s: State, name: string, read: Manager)
    requires At(s, name) == UpdateStatus(read) && UpToDate(s, read) && read.name == name && !read.deleting
    ensures Run(s, [Call(name, Clean, [])]) == Finished(s, name, read, s.pods, true)
  {
    RunFirst(s, Call(name, Clean, []), []);
  }

  lemma CreateStep(s: State, name: string, read: Manager, next: nat)
    requires At(s, name) == CreatePods(read, next) && next < read.replicas && !Taken(s.pods, Labels(read), next)
    ensures var t := Step(s, Call(name, Clean, []));
            && Within(s, t, name) && At(t, name) == CreatePods(read, next + 1)
            && t.pods == s.pods[PodName(read.name, next) := NewPod(Labels(read))]
  {
  }

  /** The creating loop. */
  lemma {:induction false} CreatesRun(s: State, name: string, read: Manager, next: nat) returns (es: seq<Event>)
    requires At(s, name) == CreatePods(read, next) && UpToDate(s, read) && read.name == name && !read.deleting
    ensures CleanCalls(es, name)
    ensures var m := Labels(read);
            Run(s, es) == Finished(s, name, read, PodScaling.CreateFrom(s.pods, m, next, read.replicas),
                                   PodScaling.Clear(s.pods, m, next, read.replicas))
    decreases read.replicas - next
  {
    var m, call := Labels(read), Call(name, Clean, []);
    var t := Step(s, call);
    if next >= read.replicas {
      StatusRun(t, name, read);
      es := [call] + [call];
      RunFirst(s, call, [call]);
      FinishedWithin(s, t, name, read, s.pods, true);
    } else if Taken(s.pods, m, next) {
      es := [call] + [];
      RunFirst(s, call, []);
    } else {
      CreateStep(s, name, read, next);
      PodScaling.CreateOne(s.pods, m, next);
      var rest := CreatesRun(t, name, read, next + 1);
      es := [call] + rest;
      RunFirst(s, call, rest);
      ClearFrom(s.pods, t.pods, m, next, read.replicas);
      FinishedWithin(s, t, name, read, PodScaling.CreateFrom(t.pods, m, next + 1, read.replicas),
                     PodScaling.Clear(t.pods, m, next + 1, read.replicas));
    }
  }

  lemma ClearFrom(pods: PodMap, p: PodMap, m: Owner, next: nat, desired: nat)
    requires next < desired && !Taken(pods, m, next)
    requires forall j: nat :: j != next ==> (Taken(p, m, j) <==> Taken(pods, m, j))
    ensures PodScaling.Clear(p, m, next + 1, desired) <==> PodScaling.Clear(pods, m, next, desired)
  {
  }

  lemma MarkMore(pods: PodMap, items: seq<string>)
    requires items != []
    ensures Mark(Mark(pods, {items[0]}), set n | n in items[1..]) == Mark(pods, set n | n in items)
  {
    assert forall n :: n in items <==> n == items[0] || n in items[1..];
  }

  lemma MarkNone(pods: PodMap)
    ensures Mark(pods, set n | n in []) == pods
  {
  }

  /** The deleting loop: up to the first pod on the list that is gone, which ends the pass. */
  lemma {:induction false} DeletesRun(s: State, name: string, read: Manager, items: seq<string>)
    returns (es: seq<Event>)
    requires At(s, name) == DeletePods(read, items) && UpToDate(s, read) && read.name == name && !read.deleting
    ensures CleanCalls(es, name)
    ensures var k := PodScaling.FirstMissing(items, s.pods, 0);
            Run(s, es) == Finished(s, name, read, Mark(s.pods, set n | n in items[..k]), k == |items|)
    decreases |items|
  {
    var call := Call(name, Clean, []);
    var t := Step(s, call);
    var k := PodScaling.FirstMissing(items, s.pods, 0);
    if items == [] {
      StatusRun(t, name, read);
      es := [call] + [call];
      RunFirst(s, call, [call]);
      MarkNone(s.pods);
      FinishedWithin(s, t, name, read, s.pods, true);
    } else if items[0] !in s.pods {
      es := [call] + [];
      RunFirst(s, call, []);
      assert items[..0] == [];
      MarkNone(s.pods);
    } else {
      DeleteStep(s, name, read, items);
      var rest := DeletesRun(t, name, read, items[1..]);
      es := [call] + rest;
      RunFirst(s, call, rest);
      MissingLater(items, s.pods, t.pods);
      assert items[..k][1..] == items[1..][..k - 1] && items[..k][0] == items[0];
      MarkMore(s.pods, items[..k]);
      FinishedWithin(s, t, name, read, Mark(s.pods, set n | n in items[..k]), k == |items|);
    }
  }

  lemma DeleteStep(s: State, name: string, read: Manager, items: seq<string>)
    requires At(s, name) == DeletePods(read, items) && items != [] && items[0] in s.pods
    ensures var t := Step(s, Call(name, Clean, []));
            && Within(s, t, name) && At(t, name) == DeletePods(read, items[1..])
            && t.pods == Mark(s.pods, {items[0]}) && t.pods.Keys == s.pods.Keys
  {
  }

  lemma MissingLater(items: seq<string>, pods: PodMap, p: PodMap)
    requires items != [] && items[0] in pods && p.Keys == pods.Keys
    ensures PodScaling.FirstMissing(items, pods, 0) == 1 + PodScaling.FirstMissing(items[1..], p, 0)
  {
    var k, j := PodScaling.FirstMissing(items, pods, 0), PodScaling.FirstMissing(items[1..], p, 0);
    assert forall i :: 0 <= i < |items| - 1 ==> items[1..][i] == items[i + 1];
    assert k >= 1 && (k < |items| ==> items[1..][k - 1] !in p);
    assert j < |items[1..]| ==> items[1 + j] !in pods;
  }

  /** An undisturbed scaling pass of the protocol is the pass of PodScaling on the same list, and it
      ends without an error exactly when that pass does. */
  lemma ScalingPassIsRun(s: State, name: string, order: seq<string>) returns (es: seq<Event>)
    requires name in s.managers && s.managers[name].name == name && At(s, name).Idle?
    requires !s.managers[name].deleting && FINALIZER in s.managers[name].finalizers
    requires Lists(order, Own(s.pods, Labels(s.managers[name])))
    ensures CleanCalls(es, name)
    ensures var read := s.managers[name];
            var m := Labels(read);
            Run(s, es) == Finished(s, name, read, PodScaling.Pass(s.pods, m, order, read.replicas),
              |order| >= read.replicas || PodScaling.Clear(s.pods, m, |order|, read.replicas))
  {
    var read := s.managers[name];
    var t, first := ListRun(s, name, order);
    var rest;
    if |order| < read.replicas {
      rest := CreatesRun(t, name, read, |order|);
      FinishedWithin(s, t, name, read, PodScaling.Pass(s.pods, Labels(read), order, read.replicas),
                     PodScaling.Clear(s.pods, Labels(read), |order|, read.replicas));
    } else {
      var tail := order[read.replicas..];
      assert forall n :: n in tail ==> n in order;
      assert forall i :: 0 <= i < |tail| ==> tail[i] in tail;
      rest := DeletesRun(t, name, read, tail);
      assert tail[..|tail|] == tail;
      FinishedWithin(s, t, name, read, PodScaling.Pass(s.pods, Labels(read), order, read.replicas), true);
    }
    es := first + rest;
    RunAppend(s, first, rest);
  }

  /** The calls that begin a pass: Get and List. */
  lemma ListRun(s: State, name: string, order: seq<string>) returns (t: State, es: seq<Event>)
    requires name in s.managers && s.managers[name].name == name && At(s, name).Idle?
    requires FINALIZER in s.managers[name].finalizers
    requires Lists(order, Own(s.pods, Labels(s.managers[name])))
    ensures CleanCalls(es, name) && Run(s, es) == t && Within(s, t, name) && t.pods == s.pods
    ensures var m := s.managers[name];
            At(t, name) == if m.deleting then DeleteOwned(m, order)
                           else if |order| < m.replicas then CreatePods(m, |order|)
                           else DeletePods(m, order[m.replicas..])
  {
    var get, list := Call(name, Clean, []), Call(name, Clean, order);
    var g := Step(s, get);
    assert Within(s, g, name) && g.pods == s.pods;
    t := Step(g, list);
    es := [get] + [list];
    RunFirst(s, get, [list]);
    RunFirst(g, list, []);
    assert [list] + [] == [list];
  }

  /** An undisturbed pass that finds no finalizer of its own adds it, next to those there are, and
      does nothing else. */
  lemma FinalizerPassIsRun(s: State, name: string) returns (es: seq<Event>)
    requires name in s.managers && s.managers[name].name == name && At(s, name).Idle?
    requires !s.managers[name].deleting && FINALIZER !in s.managers[name].finalizers
    ensures CleanCalls(es, name)
    ensures var read := s.managers[name];
            Run(s, es) == Finished(s, name, read.(finalizers := read.finalizers + {FINALIZER}), s.pods, true)
  {
    var read, call := s.managers[name], Call(name, Clean, []);
    var t := Step(s, call);
    assert At(t, name) == AddFinalizer(read) && t.control[name := Idle] == s.control[name := Idle];
    es := [call] + [call];
    RunFirst(s, call, [call]);
    RunFirst(t, call, []);
    assert [call] + [] == [call];
  }

  /** The manager has been released: it is gone, unless others have a finalizer on it. */
  ghost function Released(s: State, name: string, read: Manager, pods: PodMap): State {
    s.(pods := pods, control := s.control[name := Idle],
       managers := if read.finalizers <= {FINALIZER} then s.managers - {name}
                   else s.managers[name := Written(s, read.(finalizers := read.finalizers - {FINALIZER}))],
       nextVersion := s.nextVersion + 1,
       released := s.released + {read.uid})
  }

  lemma ReleasedWithin(s: State, t: State, name: string, read: Manager, pods: PodMap)
    requires Within(s, t, name)
    ensures Released(t, name, read, pods) == Released(s, name, read, pods)
  {
    assert t.control[name := Idle] == s.control[name := Idle];
  }

  /** The cleanup loop; a pod that is gone is skipped. */
  lemma {:induction false} CleanupRun(s: State, name: string, read: Manager, items: seq<string>)
    returns (es: seq<Event>)
    requires At(s, name) == DeleteOwned(read, items) && UpToDate(s, read) && read.name == name && read.deleting
    ensures CleanCalls(es, name)
    ensures Run(s, es) == Released(s, name, read, Mark(s.pods, set n | n in items))
    decreases |items|
  {
    var call := Call(name, Clean, []);
    var t := Step(s, call);
    if items == [] {
      RunFirst(t, call, []);
      es := [call] + [call];
      RunFirst(s, call, [call]);
      MarkNone(s.pods);
      assert Step(t, call) == Released(s, name, read, s.pods);
    } else {
      var rest := CleanupRun(t, name, read, items[1..]);
      es := [call] + rest;
      RunFirst(s, call, rest);
      MarkMore(s.pods, items);
      ReleasedWithin(s, t, name, read, Mark(s.pods, set n | n in items));
    }
  }

  /** An undisturbed cleanup pass marks exactly the manager's own pods and releases it. */
  lemma CleanupPassIsRun(s: State, name: string, order: seq<string>) returns (es: seq<Event>)
    requires name in s.managers && s.managers[name].name == name && At(s, name).Idle?
    requires s.managers[name].deleting && FINALIZER in s.managers[name].finalizers
    requires Lists(order, Own(s.pods, Labels(s.managers[name])))
    ensures CleanCalls(es, name)
    ensures var read := s.managers[name];
            Run(s, es) == Released(s, name, read, Mark(s.pods, Own(s.pods, Labels(read))))
  {
    var read := s.managers[name];
    var t, first := ListRun(s, name, order);
    var rest := CleanupRun(t, name, read, order);
    es := first + rest;
    RunAppend(s, first, rest);
    assert (set n | n in order) == Own(s.pods, Labels(read));
    ReleasedWithin(s, t, name, read, Mark(s.pods, Own(s.pods, Labels(read))));
  }
}
