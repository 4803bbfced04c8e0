/** The PodManager controller with any number of managers in one namespace. Every API call is one
    atomic step of the manager it is made for; users, the other managers' passes and pod
    terminations come between any two of them. One pass at a time runs per manager name. */
module PodOperator {
  import opened Options
  import opened PodNames
  import opened Pods

  const FINALIZER := "podmanager.mycompany.com/finalizer"

  datatype Manager = Manager(
    name: string, uid: nat, resourceVersion: nat, deleting: bool, finalizers: set<string>, replicas: nat)

  /** The labels a manager's pods carry. */
  function Labels(m: Manager): Owner {
    Owner(m.name, m.uid)
  }

  datatype Control =
    | Idle
    | AddFinalizer(read: Manager)
    | ListPods(read: Manager)
    | CreatePods(read: Manager, next: nat)
    | DeletePods(read: Manager, items: seq<string>)
    | UpdateStatus(read: Manager)
    | ListForDeletion(read: Manager)
    | DeleteOwned(read: Manager, items: seq<string>)
    | RemoveFinalizer(read: Manager)

  /** `released` remembers the uids whose finalizer the controller has removed. */
  datatype State = State(
    managers: map<string, Manager>,
    pods: PodMap,
    control: map<string, Control>,
    nextUid: nat,
    nextVersion: nat,
    released: set<nat>)

  datatype Fault = Clean | Lost | AnswerLost

  datatype Event =
    | UserCreate(name: string, finalizers: set<string>, replicas: nat)
    | UserDelete(name: string)
    | UserScale(name: string, replicas: nat)
    | ForeignFinalizers(name: string, finalizers: set<string>)
    | ForeignCreate(pod: string)
    | PodDelete(pod: string)
    | PodGone(pod: string)
    | Call(name: string, fault: Fault, order: seq<string>)
    | Crash(name: string)

  /** Only pods of others exist at the start. */
  ghost predicate Initial(s: State) {
    && s.managers == map[] && s.control == map[] && s.released == {}
    && forall n <- s.pods :: s.pods[n].owner == None
  }

  function At(s: State, name: string): Control {
    if name in s.control then s.control[name] else Idle
  }

  function Store(s: State, m: Manager): State {
    var m' := m.(resourceVersion := s.nextVersion);
    s.(managers := if m'.deleting && m'.finalizers == {} then s.managers - {m.name} else s.managers[m.name := m'],
       nextVersion := s.nextVersion + 1)
  }

  predicate UpToDate(s: State, read: Manager) {
    && read.name in s.managers
    && s.managers[read.name].uid == read.uid
    && s.managers[read.name].resourceVersion == read.resourceVersion
  }

  function Goto(s: State, name: string, c: Control, fault: Fault): State {
    s.(control := s.control[name := if fault == Clean then c else Idle])
  }

  /** A Delete call names the pod, and so deletes whichever pod has that name now. */
  function Delete(s: State, pod: string): State {
    s.(pods := Mark(s.pods, {pod}))
  }

  /** One call of the pass for `name`. */
  ghost function CallStep(s: State, name: string, fault: Fault, order: seq<string>): State {
    if fault == Lost then s.(control := s.control[name := Idle]) else
    match At(s, name)
    case Idle =>
      if name !in s.managers then Goto(s, name, Idle, fault) else
      var m := s.managers[name];
      if m.deleting then
        if FINALIZER in m.finalizers then Goto(s, name, ListForDeletion(m), fault) else Goto(s, name, Idle, fault)
      else if FINALIZER !in m.finalizers then Goto(s, name, AddFinalizer(m), fault)
      else Goto(s, name, ListPods(m), fault)
    case AddFinalizer(read) =>
      if !UpToDate(s, read) then Goto(s, name, Idle, fault)
      else Goto(Store(s, read.(finalizers := read.finalizers + {FINALIZER})), name, Idle, fault)
    case ListPods(read) =>
      if !Lists(order, Own(s.pods, Labels(read))) then s
      else if |order| < read.replicas then Goto(s, name, CreatePods(read, |order|), fault)
      else Goto(s, name, DeletePods(read, order[read.replicas..]), fault)
    case CreatePods(read, next) =>
      if next >= read.replicas then Goto(s, name, UpdateStatus(read), fault)
      else if PodName(read.name, next) in s.pods then Goto(s, name, Idle, fault)
      else Goto(s.(pods := s.pods[PodName(read.name, next) := NewPod(Labels(read))]),
                name, CreatePods(read, next + 1), fault)
    case DeletePods(read, items) =>
      // here a pod that is already gone is an error
      if items == [] then Goto(s, name, UpdateStatus(read), fault)
      else if items[0] !in s.pods then Goto(s, name, Idle, fault)
      else Goto(Delete(s, items[0]), name, DeletePods(read, items[1..]), fault)
    case UpdateStatus(read) =>
      if !UpToDate(s, read) then Goto(s, name, Idle, fault)
      else Goto(Store(s, read), name, Idle, fault)
    case ListForDeletion(read) =>
      if !Lists(order, Own(s.pods, Labels(read))) then s
      else Goto(s, name, DeleteOwned(read, order), fault)
    case DeleteOwned(read, items) =>
      if items == [] then Goto(s, name, RemoveFinalizer(read), fault)
      else Goto(Delete(s, items[0]), name, DeleteOwned(read, items[1..]), fault)
    case RemoveFinalizer(read) =>
      if !UpToDate(s, read) then Goto(s, name, Idle, fault)
      else Goto(Store(s, read.(finalizers := read.finalizers - {FINALIZER})).(released := s.released + {read.uid}),
                name, Idle, fault)
  }

  /** Nobody else removes this controller's finalizer or creates pods with a manager's labels; an
      object under deletion gets no new finalizers; the schema admits one replica or more. */
  ghost function Step(s: State, e: Event): State {
    match e
    case UserCreate(name, fs, replicas) =>
      if name in s.managers || replicas < 1 then s
      else s.(managers := s.managers[name := Manager(name, s.nextUid, s.nextVersion, false, fs, replicas)],
              nextUid := s.nextUid + 1, nextVersion := s.nextVersion + 1)
    case UserDelete(name) =>
      if name !in s.managers || s.managers[name].deleting then s
      else Store(s, s.managers[name].(deleting := true))
    case UserScale(name, replicas) =>
      if name !in s.managers || replicas < 1 then s
      else Store(s, s.managers[name].(replicas := replicas))
    case ForeignFinalizers(name, fs) =>
      if name !in s.managers then s else
      var m := s.managers[name];
      var keep := m.finalizers * {FINALIZER};
      if m.deleting then Store(s, m.(finalizers := (fs - {FINALIZER}) * m.finalizers + keep))
      else Store(s, m.(finalizers := fs - {FINALIZER} + keep))
    case ForeignCreate(pod) => if pod in s.pods then s else s.(pods := s.pods[pod := Pod(None, false)])
    case PodDelete(pod) => Delete(s, pod)
    case PodGone(pod) => s.(pods := s.pods - {pod})
    case Call(name, fault, order) => CallStep(s, name, fault, order)
    case Crash(name) => s.(control := s.control[name := Idle])
  }

  ghost function Run(s: State, es: seq<Event>): State
    decreases es
  {
    if es == [] then s else Run(Step(s, es[0]), es[1..])
  }

  lemma {:induction false} RunAppend(s: State, es: seq<Event>, fs: seq<Event>)
    ensures Run(s, es + fs) == Run(Run(s, es), fs)
    decreases es
  {
    if es == [] {
      assert es + fs == fs;
    } else {
      assert (es + fs)[1..] == es[1..] + fs;
      RunAppend(Step(s, es[0]), es[1..], fs);
    }
  }

  lemma RunThen(s: State, es: seq<Event>, e: Event)
    ensures Run(s, es + [e]) == Step(Run(s, es), e)
  {
    RunAppend(s, es, [e]);
    assert [e][1..] == [];
  }

  // ---------------------------------------------------------------------------
  // The invariant
  // ---------------------------------------------------------------------------

  ghost predicate Protected(s: State, read: Manager) {
    && read.name in s.managers
    && s.managers[read.name].uid == read.uid
    && FINALIZER in s.managers[read.name].finalizers
  }

  ghost predicate Managed(name: string, n: string) {
    exists i: nat :: n == PodName(name, i)
  }

  /** A name on a pass's list belongs to the manager the list was made for, unless that pod is gone
      and somebody else has taken the name. */
  ghost predicate ItemsInv(s: State, read: Manager, items: seq<string>) {
    forall n :: n in items ==>
      Managed(read.name, n) && (n in s.pods && s.pods[n].owner.Some? ==> n in Own(s.pods, Labels(read)))
  }

  /** Every pod of the manager that is not terminating is among the items. */
  ghost predicate LiveWithin(s: State, read: Manager, items: seq<string>) {
    forall n :: n in Own(s.pods, Labels(read)) && !s.pods[n].terminating ==> n in items
  }

  ghost predicate ControlInv(s: State, name: string) {
    match At(s, name)
    case Idle => true
    case AddFinalizer(read) => !read.deleting
    case ListPods(read) => Protected(s, read)
    case CreatePods(read, _) => Protected(s, read)
    case DeletePods(read, items) => Protected(s, read) && ItemsInv(s, read, items)
    case UpdateStatus(read) => Protected(s, read)
    case ListForDeletion(read) => Protected(s, read) && s.managers[read.name].deleting
    case DeleteOwned(read, items) =>
      && Protected(s, read) && s.managers[read.name].deleting
      && ItemsInv(s, read, items) && LiveWithin(s, read, items)
    case RemoveFinalizer(read) =>
      && Protected(s, read) && s.managers[read.name].deleting
      && LiveWithin(s, read, [])
  }

  ghost predicate ReadInv(s: State, name: string) {
    !At(s, name).Idle? ==>
      var read := At(s, name).read;
      && read.name == name && read.resourceVersion < s.nextVersion
      && (UpToDate(s, read) ==> s.managers[name] == read)
  }

  ghost predicate ManagerInv(s: State) {
    && (forall a <- s.managers ::
          && s.managers[a].name == a
          && s.managers[a].uid < s.nextUid && s.managers[a].resourceVersion < s.nextVersion)
    && (forall a, b :: a in s.managers && b in s.managers && s.managers[a].uid == s.managers[b].uid ==> a == b)
  }

  ghost predicate PodInv(s: State) {
    forall n <- s.pods :: s.pods[n].owner.Some? ==>
      && s.pods[n].owner.value.uid < s.nextUid
      && Managed(s.pods[n].owner.value.name, n)
      && (forall a <- s.managers :: s.managers[a].uid == s.pods[n].owner.value.uid ==> s.pods[n].owner.value.name == a)
  }

  /** A released uid has lost its finalizer for good, and its pods are terminating. */
  ghost predicate ReleasedInv(s: State) {
    forall u <- s.released ::
      && u < s.nextUid
      && (forall a <- s.managers :: s.managers[a].uid == u ==>
            s.managers[a].deleting && FINALIZER !in s.managers[a].finalizers)
      && (forall n <- s.pods :: s.pods[n].owner.Some? && s.pods[n].owner.value.uid == u ==> s.pods[n].terminating)
  }

  ghost predicate Inv(s: State) {
    && ManagerInv(s) && PodInv(s) && ReleasedInv(s)
    && forall name :: ControlInv(s, name) && ReadInv(s, name)
  }

  // What a step may do to another manager's pass without disturbing it.

  ghost predicate KeepsManager(s: State, s': State, name: string) {
    && s.nextVersion <= s'.nextVersion
    && (name in s'.managers ==>
          || (name in s.managers && s'.managers[name] == s.managers[name])
          || s'.managers[name].resourceVersion >= s.nextVersion)
    && (name in s.managers && FINALIZER in s.managers[name].finalizers ==>
          && name in s'.managers && s'.managers[name].uid == s.managers[name].uid
          && FINALIZER in s'.managers[name].finalizers
          && (s.managers[name].deleting ==> s'.managers[name].deleting))
  }

  ghost predicate SamePod(s: State, s': State, n: string) {
    && n in s.pods && n in s'.pods
    && s'.pods[n].owner == s.pods[n].owner
    && (s.pods[n].terminating ==> s'.pods[n].terminating)
  }

  ghost predicate KeepsPods(s: State, s': State, name: string) {
    forall n <- s'.pods ::
      || SamePod(s, s', n)
      || s'.pods[n].owner == None
      || (s'.pods[n].owner.value.name != name && Managed(s'.pods[n].owner.value.name, n))
  }

  lemma ManagedOnce(a: string, b: string, n: string)
    requires Managed(a, n) && Managed(b, n)
    ensures a == b
  {
    var i: nat :| n == PodName(a, i);
    var j: nat :| n == PodName(b, j);
    PodNameInjective(a, i, b, j);
  }

  lemma Frame(s: State, s': State, name: string)
    requires ControlInv(s, name) && ReadInv(s, name) && At(s', name) == At(s, name)
    requires KeepsManager(s, s', name) && KeepsPods(s, s', name)
    ensures ControlInv(s', name) && ReadInv(s', name)
  {
    if At(s, name).DeletePods? || At(s, name).DeleteOwned? {
      var read, items := At(s, name).read, At(s, name).items;
      forall n | n in items && n in s'.pods && s'.pods[n].owner.Some? ensures n in Own(s'.pods, Labels(read)) {
        assert Managed(read.name, n);
        if !SamePod(s, s', n) {
          ManagedOnce(read.name, s'.pods[n].owner.value.name, n);
        }
      }
    }
  }

  /** The invariant apart from the passes. */
  ghost predicate ObjectsInv(s: State) {
    ManagerInv(s) && PodInv(s) && ReleasedInv(s)
  }

  lemma StoreKeeps(s: State, m: Manager)
    requires ObjectsInv(s) && m.name in s.managers && m.uid == s.managers[m.name].uid
    requires m.uid in s.released ==> m.deleting && FINALIZER !in m.finalizers
    ensures ObjectsInv(Store(s, m)) && Store(s, m).pods == s.pods
    ensures FINALIZER in m.finalizers && (s.managers[m.name].deleting ==> m.deleting) ==>
              KeepsManager(s, Store(s, m), m.name)
    ensures FINALIZER !in s.managers[m.name].finalizers ==> KeepsManager(s, Store(s, m), m.name)
    ensures forall a :: a != m.name ==> KeepsManager(s, Store(s, m), a)
  {
  }

  lemma KeptPods(s: State, s': State, name: string)
    requires s'.pods == s.pods
    ensures KeepsPods(s, s', name)
  {
  }

  /** A user's write that keeps the controller's finalizer. */
  lemma UserWriteInv(s: State, m: Manager)
    requires Inv(s) && m.name in s.managers && m.uid == s.managers[m.name].uid
    requires FINALIZER in m.finalizers <==> FINALIZER in s.managers[m.name].finalizers
    requires s.managers[m.name].deleting ==> m.deleting
    ensures Inv(Store(s, m))
  {
    var s' := Store(s, m);
    StoreKeeps(s, m);
    forall name ensures ControlInv(s', name) && ReadInv(s', name) {
      KeptPods(s, s', name);
      assert ControlInv(s, name) && ReadInv(s, name);
      Frame(s, s', name);
    }
  }

  lemma UserCreateInv(s: State, e: Event)
    requires Inv(s) && e.UserCreate?
    ensures Inv(Step(s, e))
  {
    var s' := Step(s, e);
    if s' != s {
      assert ObjectsInv(s');
      forall name ensures ControlInv(s', name) && ReadInv(s', name) {
        KeptPods(s, s', name);
        assert ControlInv(s, name) && ReadInv(s, name);
        Frame(s, s', name);
      }
    }
  }

  lemma UserInv(s: State, e: Event)
    requires Inv(s) && (e.UserDelete? || e.UserScale? || e.ForeignFinalizers?)
    ensures Inv(Step(s, e))
  {
    if e.name in s.managers {
      var m := s.managers[e.name];
      assert m.name == e.name;
      match e
      case UserDelete(_) => UserWriteInv(s, m.(deleting := true));
      case UserScale(_, r) => UserWriteInv(s, m.(replicas := r));
      case ForeignFinalizers(_, fs) =>
        var keep := m.finalizers * {FINALIZER};
        UserWriteInv(s, m.(finalizers := (fs - {FINALIZER}) * m.finalizers + keep));
        UserWriteInv(s, m.(finalizers := fs - {FINALIZER} + keep));
    }
  }

  /** Somebody else's pod appears, or a pod is deleted or goes away. */
  lemma PodEventKeeps(s: State, e: Event)
    requires ObjectsInv(s) && (e.ForeignCreate? || e.PodDelete? || e.PodGone?)
    ensures ObjectsInv(Step(s, e)) && Step(s, e) == s.(pods := Step(s, e).pods)
    ensures forall n <- Step(s, e).pods :: Step(s, e).pods[n].owner.Some? ==> SamePod(s, Step(s, e), n)
  {
    var s' := Step(s, e);
    assert forall n <- s'.pods :: s'.pods[n].owner.Some? ==> SamePod(s, s', n);
  }

  lemma PodEventInv(s: State, e: Event)
    requires Inv(s) && (e.ForeignCreate? || e.PodDelete? || e.PodGone?)
    ensures Inv(Step(s, e))
  {
    var s' := Step(s, e);
    PodEventKeeps(s, e);
    forall name ensures ControlInv(s', name) && ReadInv(s', name) {
      assert ControlInv(s, name) && ReadInv(s, name);
      Frame(s, s', name);
    }
  }

  /** A call changes the pass of its own manager and leaves the other passes intact. */
  lemma CallInvFrom(s: State, t: State, name: string, c: Control)
    requires Inv(s) && ObjectsInv(t) && t.control == s.control
    requires forall a :: a != name ==> KeepsManager(s, t, a) && KeepsPods(s, t, a)
    requires ControlInv(t.(control := t.control[name := c]), name)
    requires ReadInv(t.(control := t.control[name := c]), name)
    ensures Inv(t.(control := t.control[name := c]))
  {
    var s' := t.(control := t.control[name := c]);
    assert ObjectsInv(s') by {
      assert s'.managers == t.managers && s'.pods == t.pods;
    }
    forall a ensures ControlInv(s', a) && ReadInv(s', a) {
      if a != name {
        assert ControlInv(s, a) && ReadInv(s, a);
        assert KeepsManager(s, t, a) && KeepsPods(s, t, a);
        assert forall n :: SamePod(s, t, n) ==> SamePod(s, s', n);
        Frame(s, s', a);
      }
    }
  }

  /** A call that writes nothing. */
  lemma QuietCallInv(s: State, name: string, c: Control)
    requires Inv(s)
    requires ControlInv(s.(control := s.control[name := c]), name)
    requires ReadInv(s.(control := s.control[name := c]), name)
    ensures Inv(s.(control := s.control[name := c]))
  {
    forall a | a != name ensures KeepsManager(s, s, a) && KeepsPods(s, s, a) {
      KeptPods(s, s, a);
    }
    CallInvFrom(s, s, name, c);
  }

  lemma IdleInv(s: State, name: string)
    requires Inv(s)
    ensures Inv(s.(control := s.control[name := Idle]))
  {
    QuietCallInv(s, name, Idle);
  }

  /** A call that writes the manager back and ends the pass. */
  lemma WriteCallInv(s: State, name: string, m: Manager)
    requires Inv(s) && m.name == name && name in s.managers && m.uid == s.managers[name].uid
    requires m.uid in s.released ==> m.deleting && FINALIZER !in m.finalizers
    ensures Inv(Store(s, m).(control := s.control[name := Idle]))
  {
    var t := Store(s, m);
    StoreKeeps(s, m);
    forall a | a != name ensures KeepsManager(s, t, a) && KeepsPods(s, t, a) {
      KeptPods(s, t, a);
    }
    CallInvFrom(s, t, name, Idle);
  }

  lemma ReleaseCallInv(s: State, name: string)
    requires Inv(s) && At(s, name).RemoveFinalizer? && UpToDate(s, At(s, name).read)
    ensures var read := At(s, name).read;
            Inv(Store(s, read.(finalizers := read.finalizers - {FINALIZER}))
                .(released := s.released + {read.uid}, control := s.control[name := Idle]))
  {
    var read := At(s, name).read;
    assert ControlInv(s, name) && ReadInv(s, name);
    assert read.uid !in s.released;
    var m := read.(finalizers := read.finalizers - {FINALIZER});
    WriteCallInv(s, name, m);
    var t := Store(s, m).(control := s.control[name := Idle]);
    var t' := t.(released := s.released + {read.uid});
    forall n <- s.pods | s.pods[n].owner.Some? && s.pods[n].owner.value.uid == read.uid ensures s.pods[n].terminating {
      assert s.pods[n].owner.value.name == name;
      assert n in Own(s.pods, Labels(read));
    }
    assert ReleasedInv(t');
    forall a ensures ControlInv(t', a) && ReadInv(t', a) {
      assert ControlInv(t, a) && ReadInv(t, a);
      KeptPods(t, t', a);
      Frame(t, t', a);
    }
  }

  lemma NewPodObjects(s: State, name: string, n: string)
    requires ObjectsInv(s) && name in s.managers && Managed(name, n) && n !in s.pods
    requires s.managers[name].uid !in s.released
    ensures ObjectsInv(s.(pods := s.pods[n := NewPod(Labels(s.managers[name]))]))
  {
  }

  lemma CreateCallInv(s: State, name: string, fault: Fault)
    requires Inv(s) && At(s, name).CreatePods? && fault != Lost
    requires var c := At(s, name); c.next < c.read.replicas && PodName(c.read.name, c.next) !in s.pods
    ensures Inv(CallStep(s, name, fault, []))
  {
    var c := At(s, name);
    var read := c.read;
    assert ControlInv(s, name) && ReadInv(s, name);
    var n := PodName(name, c.next);
    assert Managed(name, n);
    var t := s.(pods := s.pods[n := NewPod(Labels(read))]);
    assert read.uid !in s.released;
    NewPodObjects(s, name, n);
    forall a | a != name ensures KeepsManager(s, t, a) && KeepsPods(s, t, a) {
      assert forall k :: k in s.pods ==> SamePod(s, t, k);
    }
    CallInvFrom(s, t, name, if fault == Clean then CreatePods(read, c.next + 1) else Idle);
  }

  lemma DeleteKeeps(s: State, pod: string)
    requires ObjectsInv(s)
    ensures ObjectsInv(Delete(s, pod)) && Delete(s, pod).managers == s.managers
    ensures forall a :: KeepsManager(s, Delete(s, pod), a) && KeepsPods(s, Delete(s, pod), a)
  {
    var t := Delete(s, pod);
    assert forall k :: k in t.pods ==> SamePod(s, t, k);
  }

  lemma DeleteCallInv(s: State, name: string, fault: Fault)
    requires Inv(s) && fault != Lost
    requires var c := At(s, name); (c.DeletePods? || c.DeleteOwned?) && c.items != []
    ensures var c := At(s, name);
            Inv(Delete(s, c.items[0]).(control := s.control[name :=
              if fault != Clean then Idle
              else if c.DeletePods? then DeletePods(c.read, c.items[1..])
              else DeleteOwned(c.read, c.items[1..])]))
  {
    var c := At(s, name);
    assert ControlInv(s, name) && ReadInv(s, name);
    var pod := c.items[0];
    var t := Delete(s, pod);
    DeleteKeeps(s, pod);
    assert pod in c.items;
    assert forall n :: n in c.items ==> n == pod || n in c.items[1..];
    assert Own(t.pods, Labels(c.read)) == Own(s.pods, Labels(c.read));
    CallInvFrom(s, t, name,
      if fault != Clean then Idle
      else if c.DeletePods? then DeletePods(c.read, c.items[1..])
      else DeleteOwned(c.read, c.items[1..]));
  }

  lemma ListCallInv(s: State, name: string, order: seq<string>)
    requires Inv(s) && (At(s, name).ListPods? || At(s, name).ListForDeletion?)
    requires Lists(order, Own(s.pods, Labels(At(s, name).read)))
    ensures At(s, name).ListPods? ==>
              (forall k: nat :: k <= |order| ==>
                Inv(s.(control := s.control[name := DeletePods(At(s, name).read, order[k..])])))
    ensures At(s, name).ListPods? ==>
              Inv(s.(control := s.control[name := CreatePods(At(s, name).read, |order|)]))
    ensures At(s, name).ListForDeletion? ==>
              Inv(s.(control := s.control[name := DeleteOwned(At(s, name).read, order)]))
  {
    var read := At(s, name).read;
    assert ControlInv(s, name) && ReadInv(s, name);
    assert ItemsInv(s, read, order) && LiveWithin(s, read, order);
    if At(s, name).ListPods? {
      forall k: nat | k <= |order|
        ensures Inv(s.(control := s.control[name := DeletePods(read, order[k..])]))
      {
        assert forall n :: n in order[k..] ==> n in order;
        QuietCallInv(s, name, DeletePods(read, order[k..]));
      }
      QuietCallInv(s, name, CreatePods(read, |order|));
    } else {
      QuietCallInv(s, name, DeleteOwned(read, order));
    }
  }

  lemma ScalingCallInv(s: State, name: string, fault: Fault, order: seq<string>)
    requires Inv(s) && fault != Lost
    requires var c := At(s, name); c.ListPods? || c.CreatePods? || c.DeletePods?
    ensures Inv(CallStep(s, name, fault, order))
  {
    assert ControlInv(s, name) && ReadInv(s, name);
    IdleInv(s, name);
    match At(s, name)
    case ListPods(read) =>
      if Lists(order, Own(s.pods, Labels(read))) { ListCallInv(s, name, order); }
    case CreatePods(read, next) =>
      if next >= read.replicas {
        if fault == Clean { QuietCallInv(s, name, UpdateStatus(read)); }
      } else if PodName(read.name, next) !in s.pods {
        CreateCallInv(s, name, fault);
      }
    case DeletePods(read, items) =>
      if items == [] {
        if fault == Clean { QuietCallInv(s, name, UpdateStatus(read)); }
      } else if items[0] in s.pods {
        DeleteCallInv(s, name, fault);
      }
  }

  lemma DeletionCallInv(s: State, name: string, fault: Fault, order: seq<string>)
    requires Inv(s) && fault != Lost
    requires var c := At(s, name); c.ListForDeletion? || c.DeleteOwned? || c.RemoveFinalizer?
    ensures Inv(CallStep(s, name, fault, order))
  {
    assert ControlInv(s, name) && ReadInv(s, name);
    IdleInv(s, name);
    match At(s, name)
    case ListForDeletion(read) =>
      if Lists(order, Own(s.pods, Labels(read))) { ListCallInv(s, name, order); }
    case DeleteOwned(read, items) =>
      if items == [] {
        if fault == Clean { QuietCallInv(s, name, RemoveFinalizer(read)); }
      } else {
        DeleteCallInv(s, name, fault);
      }
    case RemoveFinalizer(read) =>
      if UpToDate(s, read) { ReleaseCallInv(s, name); }
  }

  lemma CallInv(s: State, name: string, fault: Fault, order: seq<string>)
    requires Inv(s)
    ensures Inv(CallStep(s, name, fault, order))
  {
    var c := At(s, name);
    IdleInv(s, name);
    if fault != Lost {
      if c.ListPods? || c.CreatePods? || c.DeletePods? {
        ScalingCallInv(s, name, fault, order);
      } else if c.ListForDeletion? || c.DeleteOwned? || c.RemoveFinalizer? {
        DeletionCallInv(s, name, fault, order);
      } else {
        ObjectCallInv(s, name, fault, order);
      }
    }
  }

  lemma GetCallInv(s: State, name: string, order: seq<string>)
    requires Inv(s) && At(s, name).Idle? && name in s.managers
    ensures Inv(CallStep(s, name, Clean, order))
  {
    var m := s.managers[name];
    assert Protected(s, m) <==> FINALIZER in m.finalizers;
    QuietCallInv(s, name, CallStep(s, name, Clean, order).control[name]);
  }

  lemma ObjectCallInv(s: State, name: string, fault: Fault, order: seq<string>)
    requires Inv(s) && fault != Lost
    requires var c := At(s, name); c.Idle? || c.AddFinalizer? || c.UpdateStatus?
    ensures Inv(CallStep(s, name, fault, order))
  {
    var c := At(s, name);
    assert ControlInv(s, name) && ReadInv(s, name);
    IdleInv(s, name);
    if c.Idle? {
      if name in s.managers && fault == Clean {
        GetCallInv(s, name, order);
      }
    } else if UpToDate(s, c.read) {
      WriteCallInv(s, name, if c.AddFinalizer? then c.read.(finalizers := c.read.finalizers + {FINALIZER}) else c.read);
    }
  }

  lemma StepInv(s: State, e: Event)
    requires Inv(s)
    ensures Inv(Step(s, e))
  {
    match e
    case UserCreate(_, _, _) => UserCreateInv(s, e);
    case UserDelete(_) => UserInv(s, e);
    case UserScale(_, _) => UserInv(s, e);
    case ForeignFinalizers(_, _) => UserInv(s, e);
    case ForeignCreate(_) => PodEventInv(s, e);
    case PodDelete(_) => PodEventInv(s, e);
    case PodGone(_) => PodEventInv(s, e);
    case Call(name, fault, order) => CallInv(s, name, fault, order);
    case Crash(name) => IdleInv(s, name);
  }

  lemma {:induction false} RunInv(s: State, es: seq<Event>)
    requires Inv(s)
    ensures Inv(Run(s, es))
    decreases es
  {
    if es != [] {
      StepInv(s, es[0]);
      RunInv(Step(s, es[0]), es[1..]);
    }
  }

  // ---------------------------------------------------------------------------
  // Deletion, isolation, contention: over every run
  // ---------------------------------------------------------------------------

  function Labelled(s: State, u: nat): set<string> {
    set n <- s.pods | s.pods[n].owner.Some? && s.pods[n].owner.value.uid == u
  }

  lemma StepCreatesNone(s: State, e: Event, u: nat)
    requires Inv(s) && u in s.released
    ensures u in Step(s, e).released && Labelled(Step(s, e), u) <= Labelled(s, u)
  {
    if e.Call? {
      CallCreatesNone(s, e.name, e.fault, e.order, u);
    }
  }

  lemma CallCreatesNone(s: State, name: string, fault: Fault, order: seq<string>, u: nat)
    requires Inv(s) && u in s.released
    ensures var t := CallStep(s, name, fault, order); u in t.released && Labelled(t, u) <= Labelled(s, u)
  {
    assert ControlInv(s, name) && ReadInv(s, name);
    if At(s, name).CreatePods? {
      CreateAddsOwn(s, name, fault, order, u);
    } else {
      CallKeepsOwners(s, name, fault, order);
    }
  }

  lemma CreateAddsOwn(s: State, name: string, fault: Fault, order: seq<string>, u: nat)
    requires At(s, name).CreatePods? && At(s, name).read.uid != u
    ensures var t := CallStep(s, name, fault, order);
            t.released == s.released && Labelled(t, u) <= Labelled(s, u)
  {
  }

  /** Only a Create adds a pod, and no call changes an owner. */
  lemma CallKeepsOwners(s: State, name: string, fault: Fault, order: seq<string>)
    requires !At(s, name).CreatePods?
    ensures var t := CallStep(s, name, fault, order);
            && s.released <= t.released
            && forall n <- t.pods :: n in s.pods && t.pods[n].owner == s.pods[n].owner
  {
    var c := At(s, name);
    if !c.DeletePods? && !c.DeleteOwned? {
      assert CallStep(s, name, fault, order).pods == s.pods;
    }
  }

  lemma {:induction false} NoneCreated(s: State, es: seq<Event>, u: nat)
    requires Inv(s) && u in s.released
    ensures Labelled(Run(s, es), u) <= Labelled(s, u)
    decreases es
  {
    if es != [] {
      StepCreatesNone(s, es[0], u);
      StepInv(s, es[0]);
      NoneCreated(Step(s, es[0]), es[1..], u);
    }
  }

  /** Once the controller has removed a manager's finalizer, every pod with that uid label is
      terminating or gone, and no pod with that label is created in any continuation. */
  lemma ReleasedForGood(s: State, es: seq<Event>, more: seq<Event>, u: nat)
    requires Initial(s) && u in Run(s, es).released
    ensures var t := Run(s, es);
            && (forall n <- Labelled(t, u) :: t.pods[n].terminating)
            && Labelled(Run(t, more), u) <= Labelled(t, u)
  {
    InitialInv(s);
    RunInv(s, es);
    NoneCreated(Run(s, es), more, u);
  }

  lemma InitialInv(s: State)
    requires Initial(s)
    ensures Inv(s)
  {
  }

  /** The call made next for `name` is a Delete of n that reaches the server. */
  predicate Deletes(s: State, name: string, fault: Fault, n: string) {
    var c := At(s, name);
    fault != Lost && (c.DeletePods? || c.DeleteOwned?) && c.items != [] && c.items[0] == n
  }

  /** In every run a call made for one manager leaves every pod labelled with the uid of another
      exactly as it was, although it deletes by name only. */
  lemma CallIsolation(s: State, es: seq<Event>, name: string, fault: Fault, order: seq<string>, n: string)
    requires Initial(s)
    requires var t := Run(s, es); n in t.pods && t.pods[n].owner.Some?
    requires var t := Run(s, es);
             !At(t, name).Idle? ==> t.pods[n].owner.value.uid != At(t, name).read.uid
    ensures var t := Run(s, es);
            var t' := Step(t, Call(name, fault, order));
            n in t'.pods && t'.pods[n] == t.pods[n]
  {
    var t := Run(s, es);
    InitialInv(s);
    RunInv(s, es);
    assert ControlInv(t, name) && ReadInv(t, name);
    CallTouches(t, name, fault, order, n);
    if Deletes(t, name, fault, n) {
      DeletesOwn(t, name, fault, n);
    }
  }

  lemma DeletesOwn(s: State, name: string, fault: Fault, n: string)
    requires ControlInv(s, name) && Deletes(s, name, fault, n)
    requires n in s.pods && s.pods[n].owner.Some?
    ensures s.pods[n].owner.value.uid == At(s, name).read.uid
  {
    assert n in At(s, name).items;
  }

  /** The one thing a call can do to a pod that is there. */
  lemma CallTouches(s: State, name: string, fault: Fault, order: seq<string>, n: string)
    requires n in s.pods
    ensures var t := CallStep(s, name, fault, order);
            n in t.pods &&
            t.pods[n] == if Deletes(s, name, fault, n) then s.pods[n].(terminating := true) else s.pods[n]
  {
  }

  /** A pod of somebody else survives a call if and only if the call is not a Delete of its name. */
  lemma ForeignSurvivesExactly(s: State, name: string, fault: Fault, order: seq<string>, n: string)
    requires n in s.pods && s.pods[n] == Pod(None, false)
    ensures var t := Step(s, Call(name, fault, order));
            n in t.pods && (t.pods[n] == s.pods[n] <==> !Deletes(s, name, fault, n))
  {
    CallTouches(s, name, fault, order, n);
  }

  /** Whenever a pass is about to delete n, and n goes away and somebody else creates a pod of that
      name first, the pass deletes the stranger's pod. */
  lemma StrangerDeleted(s: State, es: seq<Event>, name: string, n: string) returns (es': seq<Event>)
    requires Deletes(Run(s, es), name, Clean, n)
    ensures es' == es + [PodGone(n), ForeignCreate(n)]
    ensures var t := Run(s, es');
            var t' := Step(t, Call(name, Clean, []));
            && n in t.pods && t.pods[n] == Pod(None, false)
            && n in t'.pods && t'.pods[n] == Pod(None, true)
  {
    es' := es + [PodGone(n), ForeignCreate(n)];
    assert es' == es + [PodGone(n)] + [ForeignCreate(n)];
    RunThen(s, es, PodGone(n));
    RunThen(s, es + [PodGone(n)], ForeignCreate(n));
    CallTouches(Run(s, es'), name, Clean, [], n);
  }

  /** Such a run exists for every manager: it is created, makes its pod, and is deleted. */
  lemma StrangerRun(s: State, name: string) returns (es: seq<Event>)
    requires Initial(s) && PodName(name, 0) !in s.pods
    ensures var n := PodName(name, 0);
            var t := Run(s, es);
            var t' := Step(t, Call(name, Clean, []));
            && n in t.pods && t.pods[n] == Pod(None, false)
            && n in t'.pods && t'.pods[n] == Pod(None, true)
  {
    var n := PodName(name, 0);
    var start := CreatesItsPod(s, name);
    var t := Run(s, start);
    es := start;
    RunThen(s, es, Crash(name));
    es := es + [Crash(name)];
    RunThen(s, es, UserDelete(name));
    es := es + [UserDelete(name)];
    RunThen(s, es, Call(name, Clean, []));
    es := es + [Call(name, Clean, [])];
    assert At(Run(s, es), name).ListForDeletion?;
    RunThen(s, es, Call(name, Clean, [n]));
    es := es + [Call(name, Clean, [n])];
    assert Deletes(Run(s, es), name, Clean, n);
    es := StrangerDeleted(s, es, name, n);
  }

  lemma CreatesItsPod(s: State, name: string) returns (es: seq<Event>)
    requires Initial(s) && PodName(name, 0) !in s.pods
    ensures var t := Run(s, es);
            && name in t.managers && !t.managers[name].deleting && t.managers[name].name == name
            && FINALIZER in t.managers[name].finalizers
            && Own(t.pods, Labels(t.managers[name])) == {PodName(name, 0)}
  {
    var get := Call(name, Clean, []);
    es := [UserCreate(name, {FINALIZER}, 1)];
    RunThen(s, [], es[0]);
    assert es == [] + [es[0]];
    RunThen(s, es, get);
    es := es + [get];
    assert Own(Run(s, es).pods, Labels(At(Run(s, es), name).read)) == {};
    RunThen(s, es, get);
    es := es + [get];
    RunThen(s, es, get);
    es := es + [get];
  }

  /** The other managers are as they were; this one keeps its identity, its spec and the finalizers of
      others, and has disappeared only under deletion and with no finalizer of others on it. */
  ghost predicate KeepsManagers(ms: map<string, Manager>, ms': map<string, Manager>, name: string) {
    && ms' - {name} == ms - {name}
    && (name in ms' ==> name in ms)
    && (name in ms ==>
          if name in ms' then
            && ms'[name].name == ms[name].name && ms'[name].uid == ms[name].uid
            && ms'[name].deleting == ms[name].deleting && ms'[name].replicas == ms[name].replicas
            && ms'[name].finalizers - {FINALIZER} == ms[name].finalizers - {FINALIZER}
          else ms[name].deleting && ms[name].finalizers <= {FINALIZER})
  }

  lemma StoreKeepsManagers(s: State, m: Manager, fs: set<string>)
    requires m.name in s.managers && s.managers[m.name] == m && fs - {FINALIZER} == m.finalizers - {FINALIZER}
    ensures KeepsManagers(s.managers, Store(s, m.(finalizers := fs)).managers, m.name)
  {
    forall f | f in m.finalizers && f != FINALIZER ensures f in fs {
      assert f in m.finalizers - {FINALIZER};
    }
  }

  /** In every run a call keeps the managers in this sense. */
  lemma CallKeepsManagers(s: State, es: seq<Event>, name: string, fault: Fault, order: seq<string>)
    requires Initial(s)
    ensures KeepsManagers(Run(s, es).managers, Run(s, es + [Call(name, fault, order)]).managers, name)
  {
    InitialInv(s);
    RunInv(s, es);
    RunThen(s, es, Call(name, fault, order));
    assert ReadInv(Run(s, es), name);
    CallWrites(Run(s, es), name, fault, order);
  }

  lemma CallWrites(s: State, name: string, fault: Fault, order: seq<string>)
    requires ReadInv(s, name)
    ensures KeepsManagers(s.managers, CallStep(s, name, fault, order).managers, name)
  {
    var c := At(s, name);
    if c.AddFinalizer? || c.UpdateStatus? || c.RemoveFinalizer? {
      if fault != Lost && UpToDate(s, c.read) {
        StoreKeepsManagers(s, c.read, c.read.finalizers);
        StoreKeepsManagers(s, c.read, c.read.finalizers + {FINALIZER});
        StoreKeepsManagers(s, c.read, c.read.finalizers - {FINALIZER});
        assert c.read.(finalizers := c.read.finalizers) == c.read;
      }
    } else {
      assert CallStep(s, name, fault, order).managers == s.managers;
    }
  }

  /** A name a pass finds taken belongs to a foreign pod or to a pod of a manager of that same
      name: two managers never contend for a pod name. */
  lemma NoContention(s: State, es: seq<Event>, name: string)
    requires Initial(s)
    requires var t := Run(s, es);
             var c := At(t, name);
             c.CreatePods? && PodName(c.read.name, c.next) in t.pods
    ensures var t := Run(s, es);
            var c := At(t, name);
            var p := t.pods[PodName(c.read.name, c.next)];
            p.owner == None || p.owner.value.name == name
  {
    var t := Run(s, es);
    InitialInv(s);
    RunInv(s, es);
    var c := At(t, name);
    assert ReadInv(t, name);
    var n := PodName(c.read.name, c.next);
    if t.pods[n].owner.Some? {
      assert Managed(name, n);
      ManagedOnce(name, t.pods[n].owner.value.name, n);
    }
  }
}
