/** The reconciler's code over the API server's mutable state. Every call may fail, before or after
    its effect; nobody else acts during the pass. Each method is proved to make exactly the calls of
    the protocol in SimpleAppFinalizer. */
module SimpleAppReconciler {
  import opened Options
  import opened SimpleAppFinalizer

  /** The API server, and how each of the calls made to it will end. */
  class Cluster {
    const name: string
    const faults: nat -> Fault
    var app: Option<App>
    var pods: map<string, Pod>
    var nextUid: nat
    var nextVersion: nat
    var calls: nat

    constructor (name: string, faults: nat -> Fault)
      ensures View(Idle(false)) == Init(name) && this.faults == faults && calls == 0
    {
      this.name, this.faults := name, faults;
      app, pods, nextUid, nextVersion, calls := None, map[], 0, 0, 0;
    }

    function View(control: Control): State
      reads this
    {
      State(name, app, pods, control, nextUid, nextVersion)
    }

    method GetApp() returns (ok: bool, found: Option<App>)
      modifies this`calls
      ensures calls == old(calls) + 1 && found == app
      ensures ok <==> faults(old(calls)) == Clean
    {
      ok, found := faults(calls) == Clean, app;
      calls := calls + 1;
    }

    /** Writes an object back, unless a newer one is stored. */
    method Update(read: App, changed: App) returns (ok: bool)
      modifies this
      ensures calls == old(calls) + 1
      ensures forall c :: ok <==> faults(old(calls)) == Clean && UpToDate(old(View(c)), read)
      ensures forall c :: View(c) == if faults(old(calls)) != Lost && UpToDate(old(View(c)), read)
                                     then Store(old(View(c)), changed) else old(View(c))
    {
      var fault := faults(calls);
      calls := calls + 1;
      var current := app.Some? && app.value.uid == read.uid && app.value.resourceVersion == read.resourceVersion;
      if fault != Lost && current {
        if changed.deleting && changed.finalizers == {} {
          app := None;
        } else {
          app := Some(changed.(resourceVersion := nextVersion));
        }
        nextVersion := nextVersion + 1;
      }
      ok := fault == Clean && current;
    }

    method ListPodNames() returns (ok: bool, order: seq<string>)
      modifies this`calls
      ensures calls == old(calls) + 1 && Enumerates(order, pods.Keys)
      ensures ok <==> faults(old(calls)) == Clean
    {
      ok := faults(calls) == Clean;
      calls := calls + 1;
      order := [];
      var rest := pods.Keys;
      while rest != {}
        invariant rest <= pods.Keys
        invariant Enumerates(order, pods.Keys - rest)
        decreases rest
      {
        var n :| n in rest;
        order := order + [n];
        rest := rest - {n};
      }
      assert pods.Keys - {} == pods.Keys;
    }

    method CreatePod(n: string, owner: nat) returns (ok: bool)
      modifies this`pods, this`calls
      ensures calls == old(calls) + 1
      ensures ok <==> faults(old(calls)) == Clean && n !in old(pods)
      ensures pods == if faults(old(calls)) != Lost && n !in old(pods)
                      then old(pods)[n := Pod(owner, false)] else old(pods)
    {
      var fault := faults(calls);
      calls := calls + 1;
      ok := fault == Clean && n !in pods;
      if fault != Lost && n !in pods {
        pods := pods[n := Pod(owner, false)];
      }
    }

    /** The NotFound error counts as success. */
    method DeletePod(n: string) returns (ok: bool)
      modifies this`pods, this`calls
      ensures calls == old(calls) + 1
      ensures ok <==> faults(old(calls)) == Clean
      ensures pods == if faults(old(calls)) != Lost then Marked(old(pods), n) else old(pods)
    {
      var fault := faults(calls);
      calls := calls + 1;
      ok := fault == Clean;
      if fault != Lost && n in pods {
        pods := pods[n := pods[n].(terminating := true)];
      }
    }
  }

  lemma RunSnoc(s: State, es: seq<Event>, e: Event)
    ensures Run(s, es + [e]) == Step(Run(s, es), e)
  {
    RunAppend(s, es, [e]);
    assert [e][1..] == [];
  }

  /** The calls of a pass so far, from the given number on, each ending as the server decides. */
  ghost predicate Made(es: seq<Event>, faults: nat -> Fault, from: nat) {
    forall i :: 0 <= i < |es| ==> es[i].Call? && es[i].fault == faults(from + i)
  }

  ghost predicate AllClean(es: seq<Event>) {
    forall i :: 0 <= i < |es| ==> es[i].Call? && es[i].fault == Clean
  }

  /** One more call of the pass, and the state it leads to. */
  lemma Extend(start: State, es: seq<Event>, order: seq<string>, faults: nat -> Fault, from: nat)
    returns (es': seq<Event>)
    requires Made(es, faults, from)
    ensures Made(es', faults, from) && |es'| == |es| + 1 && es <= es'
    ensures AllClean(es') <==> AllClean(es) && faults(from + |es|) == Clean
    ensures Run(start, es') == ControllerStep(Run(start, es), faults(from + |es|), order)
  {
    var call := Call(faults(from + |es|), order);
    es' := es + [call];
    RunSnoc(start, es, call);
    assert forall i :: 0 <= i < |es| ==> es'[i] == es[i];
    assert es'[|es|] == call;
  }

  /** An object under deletion without the controller's finalizer: gone, unless others have one. */
  function WithoutFinalizer(app: App, version: nat): Option<App> {
    if app.finalizers <= {FINALIZER} then None
    else Some(app.(finalizers := app.finalizers - {FINALIZER}, resourceVersion := version))
  }

  function MarkedAll(pods: map<string, Pod>, items: seq<string>): map<string, Pod> {
    if items == [] then pods else Marked(MarkedAll(pods, items[..|items| - 1]), items[|items| - 1])
  }

  lemma {:induction false} MarkedAllTerminates(pods: map<string, Pod>, items: seq<string>)
    ensures MarkedAll(pods, items).Keys == pods.Keys
    ensures forall n <- pods :: n in items ==> MarkedAll(pods, items)[n].terminating
  {
    if items != [] {
      MarkedAllTerminates(pods, items[..|items| - 1]);
    }
  }

  class Reconciler {
    const api: Cluster

    constructor (api: Cluster)
      ensures this.api == api
    {
      this.api := api;
    }

    /** The pass that began with call number `from` in state `start` has made the calls es. */
    ghost predicate Reached(start: State, es: seq<Event>, from: nat, control: Control)
      reads api
    {
      && Run(start, es) == api.View(control)
      && Made(es, api.faults, from) && api.calls == from + |es|
    }

    /** One pass. The events are the calls it made: running them is what it did. An error of any
        call ends it and is reported. A pass without one does this: on an app under deletion it leaves
        every pod terminating, or, when there is none, drops the finalizer and no other; on a live
        app it adds the finalizer, or, when it is there, sees to the pod and the status. */
    method Reconcile() returns (failed: bool, ghost es: seq<Event>)
      modifies api
      ensures Reached(old(api.View(Idle(false))), es, old(api.calls), Idle(failed)) && es != []
      ensures !failed ==> AllClean(es)
      ensures old(api.app.Some? && api.app.value.deleting && FINALIZER in api.app.value.finalizers) ==>
                && (failed <==> !AllClean(es))
                && (!failed && old(api.pods) != map[] ==>
                      && api.app == old(api.app) && api.pods.Keys == old(api.pods.Keys)
                      && forall n <- api.pods :: api.pods[n].terminating)
                && (!failed && old(api.pods) == map[] ==>
                      api.pods == map[] && api.app == WithoutFinalizer(old(api.app.value), old(api.nextVersion)))
      ensures old(api.app.Some? && !api.app.value.deleting) && !failed ==>
                var a := old(api.app.value);
                if FINALIZER !in a.finalizers then
                  && api.pods == old(api.pods)
                  && api.app == Some(a.(finalizers := a.finalizers + {FINALIZER},
                                        resourceVersion := old(api.nextVersion)))
                else
                  && api.pods == (if old(api.pods) == map[] then map[api.name + "-pod" := Pod(a.uid, false)]
                                  else old(api.pods))
                  && api.app == Some(a.(ready := true, observedGeneration := a.generation,
                                        resourceVersion := old(api.nextVersion)))
      ensures old(api.app.None? || (api.app.value.deleting && FINALIZER !in api.app.value.finalizers)) ==>
                api.app == old(api.app) && api.pods == old(api.pods)
    {
      ghost var start, from := api.View(Idle(false)), api.calls;
      es := Extend(start, [], [], api.faults, from);
      var ok, found := api.GetApp();
      if !ok {
        return true, es;
      }
      match found
      case None => failed := false;
      case Some(app) =>
        if app.deleting {
          if FINALIZER !in app.finalizers {
            return false, es;
          }
          failed, es := HandleDeletion(app, start, es, from);
        } else if FINALIZER !in app.finalizers {
          es := Extend(start, es, [], api.faults, from);
          ok := api.Update(app, app.(finalizers := app.finalizers + {FINALIZER}));
          failed := !ok;
        } else {
          failed, es := ReconcilePods(app, start, es, from);
          if !failed {
            failed, es := WriteStatus(app, start, es, from);
          }
        }
    }

    method HandleDeletion(app: App, ghost start: State, ghost before: seq<Event>, ghost from: nat)
      returns (failed: bool, ghost es: seq<Event>)
      requires Reached(start, before, from, ListForDeletion(app)) && AllClean(before)
      requires api.app == Some(app) && app.deleting
      modifies api
      ensures Reached(start, es, from, Idle(failed)) && before <= es
      ensures failed <==> !AllClean(es)
      ensures !failed && old(api.pods) != map[] ==>
                && api.app == old(api.app) && api.pods.Keys == old(api.pods.Keys)
                && forall n <- api.pods :: api.pods[n].terminating
      ensures !failed && old(api.pods) == map[] ==>
                api.pods == map[] && api.app == WithoutFinalizer(app, old(api.nextVersion))
    {
      var ok, items := api.ListPodNames();
      es := Extend(start, before, items, api.faults, from);
      if !ok {
        return true, es;
      }
      if |items| > 0 {
        assert items[0] in api.pods;
        failed, es := DeleteAll(app, items, start, es, from);
        MarkedAllTerminates(old(api.pods), items);
        return failed, es;
      }
      assert forall n <- api.pods :: n in items;
      failed, es := DropFinalizer(app, start, es, from);
    }

    method DropFinalizer(app: App, ghost start: State, ghost before: seq<Event>, ghost from: nat)
      returns (failed: bool, ghost es: seq<Event>)
      requires Reached(start, before, from, RemoveFinalizer(app)) && AllClean(before)
      requires api.app == Some(app) && app.deleting
      modifies api
      ensures Reached(start, es, from, Idle(failed)) && before <= es
      ensures failed <==> !AllClean(es)
      ensures api.pods == old(api.pods)
      ensures !failed ==> api.app == WithoutFinalizer(app, old(api.nextVersion))
    {
      es := Extend(start, before, [], api.faults, from);
      var ok := api.Update(app, app.(finalizers := app.finalizers - {FINALIZER}));
      failed := !ok;
    }

    /** The deletion loop. */
    method DeleteAll(app: App, items: seq<string>, ghost start: State, ghost before: seq<Event>, ghost from: nat)
      returns (failed: bool, ghost es: seq<Event>)
      requires Reached(start, before, from, DeletePods(app, items)) && AllClean(before) && items != []
      modifies api`pods, api`calls
      ensures Reached(start, es, from, Idle(failed)) && before <= es
      ensures failed <==> !AllClean(es)
      ensures !failed ==> api.pods == MarkedAll(old(api.pods), items)
    {
      es := before;
      for i := 0 to |items|
        invariant Reached(start, es, from, AfterDelete(app, items[i..])) && AllClean(es) && before <= es
        invariant api.pods == MarkedAll(old(api.pods), items[..i])
      {
        assert items[..i + 1][..i] == items[..i];
        assert items[i..][1..] == items[i + 1..];
        failed, es := DeleteNext(app, items[i..], start, es, from);
        if failed {
          return;
        }
      }
      assert items[..|items|] == items;
      failed := false;
    }

    /** One round of it. */
    method DeleteNext(app: App, items: seq<string>, ghost start: State, ghost before: seq<Event>, ghost from: nat)
      returns (failed: bool, ghost es: seq<Event>)
      requires Reached(start, before, from, DeletePods(app, items)) && AllClean(before) && items != []
      modifies api`pods, api`calls
      ensures Reached(start, es, from, if failed then Idle(true) else AfterDelete(app, items[1..]))
      ensures before <= es && (failed <==> !AllClean(es))
      ensures !failed ==> api.pods == Marked(old(api.pods), items[0])
    {
      es := Extend(start, before, [], api.faults, from);
      var ok := api.DeletePod(items[0]);
      failed := !ok;
    }

    /** Lists the pods and creates the one that is missing. */
    method ReconcilePods(app: App, ghost start: State, ghost before: seq<Event>, ghost from: nat)
      returns (failed: bool, ghost es: seq<Event>)
      requires Reached(start, before, from, ListPods(app)) && AllClean(before)
      modifies api`pods, api`calls
      ensures Reached(start, es, from, if failed then Idle(true) else UpdateStatus(app)) && before <= es
      ensures !failed ==> AllClean(es)
      ensures !failed ==> api.pods == if old(api.pods) == map[] then map[api.name + "-pod" := Pod(app.uid, false)]
                                      else old(api.pods)
      ensures old(api.pods) != map[] ==> api.pods == old(api.pods) && (failed <==> !AllClean(es))
    {
      var ok, items := api.ListPodNames();
      es := Extend(start, before, [], api.faults, from);
      if !ok {
        return true, es;
      }
      EnumeratedSize(items, api.pods.Keys);
      var desiredReplicas := 1;
      if |items| < desiredReplicas {
        failed, es := CreateMissing(app, start, es, from);
        return;
      }
      failed := false;
    }

    method CreateMissing(app: App, ghost start: State, ghost before: seq<Event>, ghost from: nat)
      returns (failed: bool, ghost es: seq<Event>)
      requires Reached(start, before, from, CreatePod(app)) && AllClean(before)
      modifies api`pods, api`calls
      ensures Reached(start, es, from, if failed then Idle(true) else UpdateStatus(app)) && before <= es
      ensures !failed ==> AllClean(es) && api.pods == old(api.pods)[api.name + "-pod" := Pod(app.uid, false)]
    {
      es := Extend(start, before, [], api.faults, from);
      var ok := api.CreatePod(PodName(api.name), app.uid);
      failed := !ok;
    }

    method WriteStatus(app: App, ghost start: State, ghost before: seq<Event>, ghost from: nat)
      returns (failed: bool, ghost es: seq<Event>)
      requires Reached(start, before, from, UpdateStatus(app)) && AllClean(before)
      requires api.app == Some(app) && !app.deleting
      modifies api
      ensures Reached(start, es, from, Idle(failed)) && before <= es
      ensures api.pods == old(api.pods)
      ensures !failed ==> AllClean(es)
      ensures !failed ==> api.app == Some(app.(ready := true, observedGeneration := app.generation,
                                               resourceVersion := old(api.nextVersion)))
    {
      es := Extend(start, before, [], api.faults, from);
      var ok := api.Update(app, app.(ready := true, observedGeneration := app.generation));
      failed := !ok;
    }
  }

  lemma {:induction false} EnumeratedSize(order: seq<string>, names: set<string>)
    requires Enumerates(order, names)
    ensures |order| == |names|
  {
    if order == [] {
      assert names == {};
    } else {
      var last := order[|order| - 1];
      assert order == order[..|order| - 1] + [last];
      EnumeratedSize(order[..|order| - 1], names - {last});
    }
  }
}
