/** The SimpleApp reconciler and its finalizer. Every API call of the controller is one atomic
    step; users, other controllers and pod terminations act between any two of them. Updates
    carry the resourceVersion of the object that was read and conflict when it is stale. */
module SimpleAppFinalizer {
  import opened Options

  const FINALIZER := "simpleapp.example.com/finalizer"

  /** The object, with the generation of its spec and its status. */
  datatype App = App(
    uid: nat, resourceVersion: nat, deleting: bool, finalizers: set<string>,
    generation: nat, ready: bool, observedGeneration: nat)

  /** A pod with the labels of this app, created for the app object with uid `owner`. */
  datatype Pod = Pod(owner: nat, terminating: bool)

  /** Where the controller is: about to make the named call, with the object it read at the
      start of the pass. Idle records whether the last pass ended in an error. */
  datatype Control =
    | Idle(failed: bool)
    | AddFinalizer(read: App)
    | ListPods(read: App)
    | CreatePod(read: App)
    | UpdateStatus(read: App)
    | ListForDeletion(read: App)
    | DeletePods(read: App, items: seq<string>)
    | RemoveFinalizer(read: App)

  datatype State = State(
    name: string,
    app: Option<App>,
    pods: map<string, Pod>,
    control: Control,
    nextUid: nat,
    nextVersion: nat)

  /** How a controller call ends: normally, without reaching the server, or with its effect but
      an error in place of the answer. */
  datatype Fault = Clean | Lost | AnswerLost

  datatype Event =
    | UserCreate(finalizers: set<string>)
    | UserDelete
    | UserEdit
    | ForeignFinalizers(finalizers: set<string>)
    | PodDelete(pod: string)
    | PodGone(pod: string)
    | Call(fault: Fault, order: seq<string>)
    | Crash

  function Init(name: string): State {
    State(name, None, map[], Idle(false), 0, 0)
  }

  function PodName(app: string): string {
    app + "-pod"
  }

  /** Writing an object that is being deleted and has no finalizer left removes it. */
  function Store(s: State, app: App): State {
    var app' := app.(resourceVersion := s.nextVersion);
    s.(app := if app'.deleting && app'.finalizers == {} then None else Some(app'),
       nextVersion := s.nextVersion + 1)
  }

  predicate Enumerates(order: seq<string>, names: set<string>) {
    && (forall i, j :: 0 <= i < j < |order| ==> order[i] != order[j])
    && (forall n :: n in order ==> n in names)
    && (forall n :: n in names ==> n in order)
  }

  /** An Update of the object that was read: refused when the stored one has moved on. */
  predicate UpToDate(s: State, read: App) {
    s.app.Some? && s.app.value.uid == read.uid && s.app.value.resourceVersion == read.resourceVersion
  }

  function Goto(s: State, c: Control, fault: Fault): State {
    s.(control := if fault == Clean then c else Idle(true))
  }

  /** One controller step. `order` is the order in which a List call returns the pods. */
  function ControllerStep(s: State, fault: Fault, order: seq<string>): State {
    if fault == Lost then s.(control := Idle(true)) else
    match s.control
    case Idle(_) =>
      (match s.app
       case None => Goto(s, Idle(false), fault)
       case Some(app) =>
         if app.deleting then
           if FINALIZER !in app.finalizers then Goto(s, Idle(false), fault)
           else Goto(s, ListForDeletion(app), fault)
         else if FINALIZER !in app.finalizers then Goto(s, AddFinalizer(app), fault)
         else Goto(s, ListPods(app), fault))
    case AddFinalizer(read) =>
      if !UpToDate(s, read) then Goto(s, Idle(true), fault)
      else Goto(Store(s, read.(finalizers := read.finalizers + {FINALIZER})), Idle(false), fault)
    case ListPods(read) =>
      Goto(s, if |s.pods| < 1 then CreatePod(read) else UpdateStatus(read), fault)
    case CreatePod(read) =>
      if PodName(s.name) in s.pods then Goto(s, Idle(true), fault)
      else Goto(s.(pods := s.pods[PodName(s.name) := Pod(read.uid, false)]), UpdateStatus(read), fault)
    case UpdateStatus(read) =>
      if !UpToDate(s, read) then Goto(s, Idle(true), fault)
      else Goto(Store(s, read.(ready := true, observedGeneration := read.generation)), Idle(false), fault)
    case ListForDeletion(read) =>
      if !Enumerates(order, s.pods.Keys) then s
      else Goto(s, if order == [] then RemoveFinalizer(read) else DeletePods(read, order), fault)
    case DeletePods(read, items) =>
      if items == [] then Goto(s, Idle(false), fault)
      else Goto(MarkTerminating(s, items[0]), AfterDelete(read, items[1..]), fault)
    case RemoveFinalizer(read) =>
      if !UpToDate(s, read) then Goto(s, Idle(true), fault)
      else Goto(Store(s, read.(finalizers := read.finalizers - {FINALIZER})), Idle(false), fault)
  }

  /** The pass ends with the last pod on the list, to wait for the terminations. */
  function AfterDelete(read: App, items: seq<string>): Control {
    if items == [] then Idle(false) else DeletePods(read, items)
  }

  function MarkTerminating(s: State, pod: string): State {
    s.(pods := Marked(s.pods, pod))
  }

  /** Deleting a pod starts its termination; deleting one that is gone does nothing. */
  function Marked(pods: map<string, Pod>, pod: string): map<string, Pod> {
    if pod in pods then pods[pod := pods[pod].(terminating := true)] else pods
  }

  /** Nobody but this controller touches its finalizer or creates pods with the app's labels;
      an object that is being deleted gets no new finalizers. */
  function Step(s: State, e: Event): State {
    match e
    case UserCreate(fs) =>
      if s.app.Some? then s
      else s.(app := Some(App(s.nextUid, s.nextVersion, false, fs, 1, false, 0)),
              nextUid := s.nextUid + 1, nextVersion := s.nextVersion + 1)
    case UserDelete =>
      if s.app.None? || s.app.value.deleting then s
      else Store(s, s.app.value.(deleting := true))
    case UserEdit => if s.app.None? then s else Store(s, s.app.value.(generation := s.app.value.generation + 1))
    case ForeignFinalizers(fs) =>
      if s.app.None? then s else
      var app := s.app.value;
      var keep := app.finalizers * {FINALIZER};
      if app.deleting then Store(s, app.(finalizers := (fs - {FINALIZER}) * app.finalizers + keep))
      else Store(s, app.(finalizers := fs - {FINALIZER} + keep))
    case PodDelete(pod) => MarkTerminating(s, pod)
    case PodGone(pod) => s.(pods := s.pods - {pod})
    case Call(fault, order) => ControllerStep(s, fault, order)
    case Crash => s.(control := Idle(true))
  }

  function Run(s: State, es: seq<Event>): State
    decreases es
  {
    if es == [] then s else Run(Step(s, es[0]), es[1..])
  }

  // ---------------------------------------------------------------------------
  // No orphans
  // ---------------------------------------------------------------------------

  /** The object with this uid is still there and protected by the finalizer. */
  ghost predicate Protected(s: State, uid: nat) {
    s.app.Some? && s.app.value.uid == uid && FINALIZER in s.app.value.finalizers
  }

  ghost predicate ControlInv(s: State) {
    match s.control
    case Idle(_) => true
    case AddFinalizer(read) => !read.deleting
    case ListPods(read) => Protected(s, read.uid)
    case CreatePod(read) => Protected(s, read.uid)
    case UpdateStatus(read) => Protected(s, read.uid)
    case ListForDeletion(read) => Protected(s, read.uid) && s.app.value.deleting
    case DeletePods(read, _) => Protected(s, read.uid) && s.app.value.deleting
    case RemoveFinalizer(read) => Protected(s, read.uid) && s.app.value.deleting && s.pods == map[]
  }

  ghost predicate Inv(s: State) {
    && (s.app.Some? ==> s.app.value.uid < s.nextUid && s.app.value.resourceVersion < s.nextVersion)
    && (s.app.Some? && s.app.value.deleting ==> s.app.value.finalizers != {})
    && (forall n <- s.pods :: Protected(s, s.pods[n].owner))
    && ControlInv(s)
    && (!s.control.Idle? ==>
          && s.control.read.resourceVersion < s.nextVersion
          && (UpToDate(s, s.control.read) ==> s.app.value == s.control.read))
  }

  /** A write that keeps the finalizer, or of a live object, keeps the object. */
  lemma StoreKeeps(s: State, app: App)
    requires FINALIZER in app.finalizers || !app.deleting
    ensures Store(s, app).app == Some(app.(resourceVersion := s.nextVersion))
  {
  }

  lemma EnvironmentInv(s: State, e: Event)
    requires Inv(s) && !e.Call?
    ensures Inv(Step(s, e))
  {
    if s.app.Some? {
      var app := s.app.value;
      if FINALIZER in app.finalizers {
        StoreKeeps(s, app.(deleting := true));
        StoreKeeps(s, app.(generation := app.generation + 1));
        if e.ForeignFinalizers? {
          var keep := app.finalizers * {FINALIZER};
          assert FINALIZER in keep;
          StoreKeeps(s, app.(finalizers := (e.finalizers - {FINALIZER}) * app.finalizers + keep));
          StoreKeeps(s, app.(finalizers := e.finalizers - {FINALIZER} + keep));
        }
      }
    }
  }

  lemma ControllerInv(s: State, fault: Fault, order: seq<string>)
    requires Inv(s)
    ensures Inv(ControllerStep(s, fault, order))
  {
    if s.control.ListForDeletion? {
      if order == [] && Enumerates(order, s.pods.Keys) {
        assert forall n :: n !in s.pods;
      }
    } else if s.control.AddFinalizer? || s.control.UpdateStatus? || s.control.RemoveFinalizer? {
      UpdateInv(s, fault, order);
    }
  }

  lemma UpdateInv(s: State, fault: Fault, order: seq<string>)
    requires Inv(s) && (s.control.AddFinalizer? || s.control.UpdateStatus? || s.control.RemoveFinalizer?)
    ensures Inv(ControllerStep(s, fault, order))
  {
    var read := s.control.read;
    if UpToDate(s, read) && !s.control.RemoveFinalizer? {
      StoreKeeps(s, read.(finalizers := read.finalizers + {FINALIZER}));
      if FINALIZER in read.finalizers {
        StoreKeeps(s, read.(ready := true, observedGeneration := read.generation));
      }
    }
  }

  lemma StepInv(s: State, e: Event)
    requires Inv(s)
    ensures Inv(Step(s, e))
  {
    if e.Call? {
      ControllerInv(s, e.fault, e.order);
    } else {
      EnvironmentInv(s, e);
    }
  }

  lemma {:induction false} RunInv(s: State, es: seq<Event>)
    requires Inv(s)
    ensures Inv(Run(s, es))
    decreases es
  {
    if es != [] {
      StepInv(s, es[0]);
      RunInv(Step(s, es[0]), es[1..]);
    }
  }

  /** In every interleaving: once the app is gone no pod with its labels is left, and every pod
      belongs to the app object of that name that exists now, never to an earlier one. */
  lemma NoOrphans(name: string, es: seq<Event>)
    ensures var s := Run(Init(name), es);
            && (s.app.None? ==> s.pods == map[])
            && (forall n <- s.pods :: s.app.Some? && s.pods[n].owner == s.app.value.uid)
  {
    RunInv(Init(name), es);
  }

  // ---------------------------------------------------------------------------
  // Deletion terminates
  // ---------------------------------------------------------------------------

  ghost predicate Deleting(s: State, uid: nat) {
    s.app.Some? && s.app.value.uid == uid && s.app.value.deleting
  }

  /** The app object with this uid is gone, and will not come back. */
  ghost predicate Gone(s: State, uid: nat) {
    uid < s.nextUid && (s.app.None? || s.app.value.uid != uid)
  }

  function Live(s: State): set<string> {
    set n <- s.pods | !s.pods[n].terminating
  }

  predicate HasFinalizer(s: State) {
    s.app.Some? && FINALIZER in s.app.value.finalizers
  }

  function B(b: bool): nat {
    if b then 1 else 0
  }

  /** What is left to do: two units for a live pod, one for a terminating one, one for the
      finalizer, and two for a pod that the pass under way may still create. */
  function Measure(s: State): nat {
    |s.pods.Keys| + |Live(s)| + B(HasFinalizer(s)) + 2 * B(s.control.ListPods? || s.control.CreatePod?)
  }

  lemma MarkMeasure(s: State, pod: string)
    ensures var t := MarkTerminating(s, pod);
            && t.pods.Keys == s.pods.Keys
            && Live(t) == Live(s) - {pod}
            && |Live(t)| == |Live(s)| - B(pod in Live(s))
  {
  }

  lemma GoneMeasure(s: State, pod: string)
    ensures var t := s.(pods := s.pods - {pod});
            && t.pods.Keys == s.pods.Keys - {pod} && Live(t) == Live(s) - {pod}
            && |t.pods.Keys| == |s.pods.Keys| - B(pod in s.pods)
            && |Live(t)| == |Live(s)| - B(pod in Live(s))
  {
    var t := s.(pods := s.pods - {pod});
    assert Live(t) == Live(s) - {pod};
  }

  lemma SubsetSize(a: set<string>, b: set<string>)
    requires a <= b
    ensures |a| <= |b|
  {
    assert b == a + (b - a);
  }

  lemma CreateMeasure(s: State, pod: string, p: Pod)
    requires pod !in s.pods
    ensures var t := s.(pods := s.pods[pod := p]);
            |t.pods.Keys| == |s.pods.Keys| + 1 && |Live(t)| <= |Live(s)| + 1
  {
    var t := s.(pods := s.pods[pod := p]);
    assert t.pods.Keys == s.pods.Keys + {pod};
    assert Live(t) <= Live(s) + {pod};
    SubsetSize(Live(t), Live(s) + {pod});
  }

  /** The measure never grows, whatever happens; a pod that terminates or goes away, and the
      removal of the finalizer, lower it. */
  lemma StepMeasure(s: State, e: Event, uid: nat)
    requires Inv(s) && Deleting(s, uid)
    ensures var t := Step(s, e);
            Gone(t, uid) ||
            (Deleting(t, uid) &&
             Measure(t) + B(e.PodGone? && e.pod in s.pods) + B(e.PodDelete? && e.pod in Live(s))
                        + B(HasFinalizer(s) && !HasFinalizer(t)) <= Measure(s))
  {
    match e
    case PodDelete(pod) => PodDeleteMeasure(s, pod, uid);
    case PodGone(pod) => PodGoneMeasure(s, pod, uid);
    case Call(fault, order) => ControllerMeasure(s, fault, order, uid);
    case _ => ObjectEventMeasure(s, e, uid);
  }

  lemma PodDeleteMeasure(s: State, pod: string, uid: nat)
    requires Deleting(s, uid)
    ensures var t := Step(s, PodDelete(pod));
            && Deleting(t, uid) && (HasFinalizer(t) <==> HasFinalizer(s))
            && Measure(t) + B(pod in Live(s)) <= Measure(s)
  {
    MarkMeasure(s, pod);
  }

  lemma PodGoneMeasure(s: State, pod: string, uid: nat)
    requires Deleting(s, uid)
    ensures var t := Step(s, PodGone(pod));
            && Deleting(t, uid) && (HasFinalizer(t) <==> HasFinalizer(s))
            && Measure(t) + B(pod in s.pods) <= Measure(s)
  {
    GoneMeasure(s, pod);
  }

  lemma ObjectEventMeasure(s: State, e: Event, uid: nat)
    requires Inv(s) && Deleting(s, uid) && !e.PodDelete? && !e.PodGone? && !e.Call?
    ensures var t := Step(s, e);
            Gone(t, uid) ||
            (Deleting(t, uid) && Measure(t) + B(HasFinalizer(s) && !HasFinalizer(t)) <= Measure(s))
  {
    var t := Step(s, e);
    assert t.pods == s.pods && Live(t) == Live(s);
  }

  lemma ControllerMeasure(s: State, fault: Fault, order: seq<string>, uid: nat)
    requires Inv(s) && Deleting(s, uid)
    ensures var t := ControllerStep(s, fault, order);
            Gone(t, uid) ||
            (Deleting(t, uid) && Measure(t) + B(HasFinalizer(s) && !HasFinalizer(t)) <= Measure(s))
  {
    if s.control.CreatePod? || s.control.DeletePods? {
      PodStepMeasure(s, fault, order, uid);
    } else {
      var t := ControllerStep(s, fault, order);
      assert Live(t) == Live(s);
      if s.control.UpdateStatus? && UpToDate(s, s.control.read) {
        var read := s.control.read;
        StoreKeeps(s, read.(ready := true, observedGeneration := read.generation));
      }
    }
  }

  lemma PodStepMeasure(s: State, fault: Fault, order: seq<string>, uid: nat)
    requires Inv(s) && Deleting(s, uid) && (s.control.CreatePod? || s.control.DeletePods?)
    ensures var t := ControllerStep(s, fault, order);
            Deleting(t, uid) && HasFinalizer(t) && Measure(t) <= Measure(s)
  {
    var t := ControllerStep(s, fault, order);
    if t.pods == s.pods {
      assert Live(t) == Live(s);
    } else if s.control.CreatePod? {
      CreateMeasure(s, PodName(s.name), Pod(s.control.read.uid, false));
      assert Live(t) == Live(s.(pods := t.pods));
    } else {
      MarkMeasure(s, s.control.items[0]);
      assert Live(t) == Live(MarkTerminating(s, s.control.items[0]));
    }
  }

  lemma GoneStays(s: State, e: Event, uid: nat)
    requires Inv(s) && Gone(s, uid)
    ensures Gone(Step(s, e), uid)
  {
  }

  /** The events finish the pass that is under way, and without an error. */
  predicate FinishesPass(s: State, es: seq<Event>)
    decreases es
  {
    if es == [] then s.control == Idle(false)
    else !s.control.Idle? && FinishesPass(Step(s, es[0]), es[1..])
  }

  /** The events start with the pass's Get and end with its end; anything may happen between. */
  predicate IsPass(s: State, es: seq<Event>) {
    && s.control.Idle? && es != [] && es[0].Call? && es[0].fault == Clean
    && FinishesPass(Step(s, es[0]), es[1..])
  }

  /** There is something for the pass to do: a live pod it will still delete, or no pod at all. */
  ghost predicate Useful(s: State) {
    match s.control
    case ListForDeletion(_) => Live(s) != {} || s.pods == map[]
    case DeletePods(_, items) => exists n :: n in items && n in Live(s)
    case RemoveFinalizer(_) => true
    case _ => false
  }

  /** What is left to do for this app object. */
  ghost function Left(s: State, uid: nat): nat {
    if Deleting(s, uid) then Measure(s) else 0
  }

  /** Whether the event ends the termination of a pod. */
  ghost function Ended(s: State, e: Event, uid: nat): nat {
    B(Deleting(s, uid) && e.PodGone? && e.pod in s.pods)
  }

  ghost function Ends(s: State, es: seq<Event>, uid: nat): nat
    decreases es
  {
    if es == [] then 0 else Ended(s, es[0], uid) + Ends(Step(s, es[0]), es[1..], uid)
  }

  lemma StepLeft(s: State, e: Event, uid: nat)
    requires Inv(s) && (Gone(s, uid) || Deleting(s, uid))
    ensures var t := Step(s, e);
            && Inv(t) && (Gone(t, uid) || Deleting(t, uid))
            && Left(t, uid) + Ended(s, e, uid) <= Left(s, uid)
  {
    StepInv(s, e);
    if Deleting(s, uid) {
      StepMeasure(s, e, uid);
      if e.PodGone? { PodGoneMeasure(s, e.pod, uid); }
    } else {
      GoneStays(s, e, uid);
    }
  }

  lemma {:induction false} RunLeft(s: State, es: seq<Event>, uid: nat)
    requires Inv(s) && (Gone(s, uid) || Deleting(s, uid))
    ensures var t := Run(s, es);
            && Inv(t) && (Gone(t, uid) || Deleting(t, uid))
            && Left(t, uid) + Ends(s, es, uid) <= Left(s, uid)
    decreases es
  {
    if es != [] {
      StepLeft(s, es[0], uid);
      RunLeft(Step(s, es[0]), es[1..], uid);
    }
  }

  /** A useful pass stays useful until it has done something that is not the end of a termination. */
  lemma UsefulStep(s: State, e: Event, uid: nat)
    requires Inv(s) && Deleting(s, uid) && HasFinalizer(s) && Useful(s)
    requires Step(s, e).control != Idle(true)
    ensures var t := Step(s, e);
            || Left(t, uid) + Ended(s, e, uid) < Left(s, uid)
            || (Deleting(t, uid) && HasFinalizer(t) && Useful(t) &&
                Left(t, uid) + Ended(s, e, uid) == Left(s, uid))
  {
    var t := Step(s, e);
    match e
    case Call(fault, order) => UsefulControllerStep(s, fault, order, uid);
    case PodDelete(pod) => PodDeleteMeasure(s, pod, uid); MarkMeasure(s, pod);
    case PodGone(pod) => UsefulGone(s, pod, uid);
    case Crash =>
    case _ =>
      ObjectEventMeasure(s, e, uid);
      assert t.control == s.control && Live(t) == Live(s) && t.pods == s.pods;
  }

  lemma UsefulGone(s: State, pod: string, uid: nat)
    requires Inv(s) && Deleting(s, uid) && HasFinalizer(s) && Useful(s)
    ensures var t := Step(s, PodGone(pod));
            || Left(t, uid) + Ended(s, PodGone(pod), uid) < Left(s, uid)
            || (Deleting(t, uid) && HasFinalizer(t) && Useful(t) &&
                Left(t, uid) + Ended(s, PodGone(pod), uid) == Left(s, uid))
  {
    var t := Step(s, PodGone(pod));
    PodGoneMeasure(s, pod, uid);
    GoneMeasure(s, pod);
    if pod !in Live(s) {
      assert Live(t) == Live(s);
    }
  }

  lemma UsefulControllerStep(s: State, fault: Fault, order: seq<string>, uid: nat)
    requires Inv(s) && Deleting(s, uid) && HasFinalizer(s) && Useful(s)
    requires ControllerStep(s, fault, order).control != Idle(true)
    ensures var t := ControllerStep(s, fault, order);
            || Left(t, uid) < Left(s, uid)
            || (Deleting(t, uid) && HasFinalizer(t) && Useful(t) && Left(t, uid) == Left(s, uid))
  {
    ControllerMeasure(s, fault, order, uid);
    if s.control.ListForDeletion? {
      UsefulList(s, fault, order);
    } else if s.control.DeletePods? {
      UsefulDelete(s, fault, order);
    }
  }

  lemma UsefulList(s: State, fault: Fault, order: seq<string>)
    requires Useful(s) && s.control.ListForDeletion?
    requires ControllerStep(s, fault, order).control != Idle(true)
    ensures var t := ControllerStep(s, fault, order);
            t.app == s.app && t.pods == s.pods && Measure(t) == Measure(s) && Useful(t)
  {
    var t := ControllerStep(s, fault, order);
    assert Live(t) == Live(s);
    if t != s && order == [] {
      assert forall n :: n !in s.pods;
    } else if t != s {
      assert order[0] in s.pods;
      var n :| n in Live(s);
      assert n in t.control.items && n in Live(t);
    }
  }

  lemma UsefulDelete(s: State, fault: Fault, order: seq<string>)
    requires Useful(s) && s.control.DeletePods?
    requires ControllerStep(s, fault, order).control != Idle(true)
    ensures var t := ControllerStep(s, fault, order);
            t.app == s.app && (Measure(t) < Measure(s) || (Measure(t) == Measure(s) && Useful(t)))
  {
    var items := s.control.items;
    var t := ControllerStep(s, fault, order);
    MarkMeasure(s, items[0]);
    var n :| n in items && n in Live(s);
    assert n == items[0] || n in items[1..];
    assert Live(t) == Live(MarkTerminating(s, items[0]));
  }

  lemma {:induction false} UsefulPass(s: State, es: seq<Event>, uid: nat)
    requires Inv(s) && Deleting(s, uid) && HasFinalizer(s) && Useful(s) && FinishesPass(s, es)
    ensures Left(Run(s, es), uid) + Ends(s, es, uid) < Left(s, uid)
    decreases es
  {
    if es != [] {
      var m := Step(s, es[0]);
      FinishesClean(m, es[1..]);
      UsefulStep(s, es[0], uid);
      StepLeft(s, es[0], uid);
      if Deleting(m, uid) && HasFinalizer(m) && Useful(m) {
        UsefulPass(m, es[1..], uid);
      } else {
        RunLeft(m, es[1..], uid);
      }
    }
  }

  lemma FinishesClean(s: State, es: seq<Event>)
    requires FinishesPass(s, es)
    ensures s.control != Idle(true)
  {
  }

  /** An error-free pass that starts on an app under deletion and finds a live pod, or no pod. */
  ghost predicate UsefulRun(s: State, es: seq<Event>, uid: nat) {
    && Deleting(s, uid) && HasFinalizer(s) && IsPass(s, es)
    && (Live(s) != {} || s.pods == map[])
  }

  /** Every such pass lowers the measure, whatever happens during it, and by one more than the
      terminations that end meanwhile. */
  lemma PassMakesProgress(s: State, es: seq<Event>, uid: nat)
    requires Inv(s) && UsefulRun(s, es, uid)
    ensures var t := Run(s, es);
            && (Gone(t, uid) || Deleting(t, uid))
            && Left(t, uid) + Ends(s, es, uid) < Left(s, uid)
  {
    var m := Step(s, es[0]);
    assert Live(m) == Live(s) && m.pods == s.pods;
    RunLeft(s, es, uid);
    StepInv(s, es[0]);
    UsefulPass(m, es[1..], uid);
  }

  /** The run in pieces, cut anywhere. */
  function Joined(runs: seq<seq<Event>>): seq<Event> {
    if runs == [] then [] else runs[0] + Joined(runs[1..])
  }

  /** The useful passes among the pieces, and the terminations that end in all of them. */
  ghost function Work(s: State, runs: seq<seq<Event>>, uid: nat): nat
    decreases runs
  {
    if runs == [] then 0
    else B(UsefulRun(s, runs[0], uid)) + Ends(s, runs[0], uid) + Work(Run(s, runs[0]), runs[1..], uid)
  }

  /** Over every run under deletion, with users, other controllers, faults and crashes anywhere:
      useful passes and terminations are paid for by the measure, so there are at most Measure(s) of
      them before the finalizer is gone. */
  lemma {:induction false} DeletionBound(s: State, runs: seq<seq<Event>>, uid: nat)
    requires Inv(s) && (Gone(s, uid) || Deleting(s, uid))
    ensures var t := Run(s, Joined(runs));
            && (Gone(t, uid) || Deleting(t, uid))
            && Work(s, runs, uid) + Left(t, uid) <= Left(s, uid)
    decreases runs
  {
    if runs != [] {
      var m := Run(s, runs[0]);
      RunLeft(s, runs[0], uid);
      if UsefulRun(s, runs[0], uid) {
        PassMakesProgress(s, runs[0], uid);
      }
      DeletionBound(m, runs[1..], uid);
      RunAppend(s, runs[0], Joined(runs[1..]));
    }
  }

  // Progress is always possible, so deletion completes.

  lemma {:induction false} SomeOrder(names: set<string>) returns (order: seq<string>)
    ensures Enumerates(order, names)
  {
    if names == {} {
      order := [];
    } else {
      var n :| n in names;
      var rest := SomeOrder(names - {n});
      order := [n] + rest;
    }
  }

  function Deletes(n: nat): (es: seq<Event>)
    ensures forall i :: 0 <= i < |es| ==> es[i] == Call(Clean, [])
  {
    if n <= 1 then [Call(Clean, [])] else [Call(Clean, [])] + Deletes(n - 1)
  }

  lemma {:induction false} DeletesFinish(s: State)
    requires s.control.DeletePods?
    ensures FinishesPass(s, Deletes(|s.control.items|))
    decreases |s.control.items|
  {
    var n := |s.control.items|;
    var t := Step(s, Call(Clean, []));
    if n > 1 {
      assert Deletes(n)[1..] == Deletes(n - 1);
      DeletesFinish(t);
    } else {
      assert Deletes(n)[1..] == [];
    }
  }

  /** From every state with an app under deletion an error-free pass can be made. */
  lemma PassExists(s: State, uid: nat) returns (es: seq<Event>)
    requires Inv(s) && Deleting(s, uid) && HasFinalizer(s) && s.control.Idle?
    ensures IsPass(s, es)
    ensures forall i :: 0 <= i < |es| ==> es[i].Call? && es[i].fault == Clean
  {
    var order := SomeOrder(s.pods.Keys);
    var get, list := Call(Clean, []), Call(Clean, order);
    var m := Step(Step(s, get), list);
    if order == [] {
      es := [get, list, Call(Clean, [])];
      assert es[1..][1..] == [Call(Clean, [])] && es[1..][1..][1..] == [];
      assert m.control.RemoveFinalizer?;
    } else {
      es := [get, list] + Deletes(|order|);
      DeletesFinish(m);
      assert es[1..][1..] == Deletes(|order|);
    }
    assert es[1..][0] == list;
  }

  lemma {:induction false} RunAppend(s: State, es: seq<Event>, fs: seq<Event>)
    ensures Run(s, es + fs) == Run(Run(s, es), fs)
    decreases es
  {
    if es == [] {
      assert es + fs == fs;
    } else {
      assert (es + fs)[1..] == es[1..] + fs;
      RunAppend(Step(s, es[0]), es[1..], fs);
    }
  }

  lemma {:induction false} PassEndsIdle(s: State, es: seq<Event>)
    requires FinishesPass(s, es)
    ensures Run(s, es).control == Idle(false)
    decreases es
  {
    if es != [] {
      PassEndsIdle(Step(s, es[0]), es[1..]);
    }
  }

  // Other controllers' finalizers are theirs.

  function Others(app: App): set<string> {
    app.finalizers - {FINALIZER}
  }

  /** What a controller call may do to the object: it never touches its identity, its spec or the
      finalizers of others, and the object disappears only under deletion and when nobody else has a
      finalizer on it. */
  ghost predicate KeepsObject(s: State, t: State) {
    if s.app.None? then t.app.None?
    else if t.app.None? then s.app.value.deleting && Others(s.app.value) == {}
    else
      var a, b := s.app.value, t.app.value;
      && b.uid == a.uid && b.deleting == a.deleting && b.generation == a.generation
      && Others(b) == Others(a)
  }

  lemma CallKeepsObject(s: State, fault: Fault, order: seq<string>)
    requires Inv(s)
    ensures KeepsObject(s, ControllerStep(s, fault, order))
  {
    var c := s.control;
    if c.AddFinalizer? && UpToDate(s, c.read) {
      StoreKeeps(s, c.read.(finalizers := c.read.finalizers + {FINALIZER}));
    }
  }

  ghost predicate CallsAndTerminations(es: seq<Event>) {
    forall i :: 0 <= i < |es| ==> es[i].PodGone? || (es[i].Call? && es[i].fault == Clean)
  }

  lemma {:induction false} RunKeepsObject(s: State, es: seq<Event>)
    requires Inv(s) && CallsAndTerminations(es)
    ensures Inv(Run(s, es)) && KeepsObject(s, Run(s, es))
    decreases es
  {
    if es != [] {
      StepInv(s, es[0]);
      if es[0].Call? {
        CallKeepsObject(s, es[0].fault, es[0].order);
      }
      RunKeepsObject(Step(s, es[0]), es[1..]);
    }
  }

  /** From every state between passes with an app under deletion, passes and pod terminations lead to a
      state where the finalizer has been removed: the object is gone, or has exactly the finalizers of
      others left. */
  lemma DeletionCompletes(s: State, uid: nat) returns (es: seq<Event>)
    requires Inv(s) && Deleting(s, uid) && s.control.Idle?
    ensures CallsAndTerminations(es)
    ensures var t := Run(s, es);
            if Others(s.app.value) == {} then t.app.None?
            else Deleting(t, uid) && t.app.value.finalizers == Others(s.app.value)
  {
    es := FinalizerRemoved(s, uid);
    RunKeepsObject(s, es);
  }

  lemma {:induction false} FinalizerRemoved(s: State, uid: nat) returns (es: seq<Event>)
    requires Inv(s) && Deleting(s, uid) && s.control.Idle?
    ensures CallsAndTerminations(es)
    ensures var t := Run(s, es); Gone(t, uid) || (Deleting(t, uid) && !HasFinalizer(t))
    decreases Measure(s)
  {
    if !HasFinalizer(s) {
      return [];
    }
    if Live(s) != {} || s.pods == map[] {
      es := PassExists(s, uid);
      PassMakesProgress(s, es, uid);
      PassEndsIdle(Step(s, es[0]), es[1..]);
    } else {
      var n :| n in s.pods;
      es := [PodGone(n)];
      StepMeasure(s, PodGone(n), uid);
      assert Run(s, es) == Step(s, PodGone(n));
    }
    var t := Run(s, es);
    RunInv(s, es);
    if !Gone(t, uid) {
      var more := FinalizerRemoved(t, uid);
      RunAppend(s, es, more);
      es := es + more;
    }
  }

  // ---------------------------------------------------------------------------
  // An app that is not under deletion
  // ---------------------------------------------------------------------------

  lemma RunFirst(s: State, e: Event, es: seq<Event>)
    ensures Run(s, [e] + es) == Run(Step(s, e), es)
  {
    assert ([e] + es)[1..] == es;
  }

  /** The pass that finds no finalizer of its own adds it, and does nothing else. */
  lemma FinalizerPass(s: State)
    requires Inv(s) && s.control.Idle? && s.app.Some? && !s.app.value.deleting
    requires FINALIZER !in s.app.value.finalizers
    ensures var a := s.app.value;
            var t := Run(s, [Call(Clean, [])] + [Call(Clean, [])]);
            && t.control == Idle(false) && t.pods == s.pods
            && t.app == Some(a.(finalizers := a.finalizers + {FINALIZER}, resourceVersion := s.nextVersion))
  {
    var call := Call(Clean, []);
    RunFirst(s, call, [call]);
    RunFirst(Step(s, call), call, []);
    assert [call] + [] == [call];
  }

  /** The pass that finds it sees to the pod and reports the app ready. */
  lemma PodPass(s: State) returns (es: seq<Event>)
    requires Inv(s) && s.control.Idle? && s.app.Some? && !s.app.value.deleting
    requires FINALIZER in s.app.value.finalizers
    ensures forall i :: 0 <= i < |es| ==> es[i] == Call(Clean, [])
    ensures var a := s.app.value;
            var t := Run(s, es);
            && t.control == Idle(false)
            && t.pods == (if s.pods == map[] then map[s.name + "-pod" := Pod(a.uid, false)] else s.pods)
            && t.app == Some(a.(ready := true, observedGeneration := a.generation, resourceVersion := s.nextVersion))
  {
    var call := Call(Clean, []);
    var listed := Step(Step(s, call), call);
    var rest;
    assert |s.pods| < 1 <==> s.pods == map[];
    if s.pods == map[] {
      rest := [call] + [call];
      RunFirst(listed, call, [call]);
      RunFirst(Step(listed, call), call, []);
    } else {
      rest := [call];
      RunFirst(listed, call, []);
    }
    assert [call] + [] == [call];
    es := [call] + ([call] + rest);
    RunFirst(s, call, [call] + rest);
    RunFirst(Step(s, call), call, rest);
  }

  /** From every state between passes with an app that is not under deletion, error-free passes lead
      to the finalizer, next to all those it had, to a pod, and to a status that is up to date. */
  lemma ReadinessCompletes(s: State) returns (es: seq<Event>)
    requires Inv(s) && s.control.Idle? && s.app.Some? && !s.app.value.deleting
    ensures forall i :: 0 <= i < |es| ==> es[i] == Call(Clean, [])
    ensures var a := s.app.value;
            var t := Run(s, es);
            && t.control == Idle(false) && t.pods != map[] && t.app.Some?
            && t.app.value.uid == a.uid && !t.app.value.deleting
            && t.app.value.finalizers == a.finalizers + {FINALIZER}
            && t.app.value.ready && t.app.value.observedGeneration == a.generation == t.app.value.generation
            && (forall n <- s.pods :: n in t.pods && t.pods[n] == s.pods[n])
  {
    if FINALIZER in s.app.value.finalizers {
      assert s.app.value.finalizers + {FINALIZER} == s.app.value.finalizers;
      es := PodPass(s);
    } else {
      var first := [Call(Clean, [])] + [Call(Clean, [])];
      FinalizerPass(s);
      RunInv(s, first);
      var rest := PodPass(Run(s, first));
      RunAppend(s, first, rest);
      es := first + rest;
    }
  }
}
