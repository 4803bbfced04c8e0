/** The status of a PodManager: a list of conditions kept in a Go slice, its deep copy, and the
    status part of a reconcile pass. */
module PodStatus {
  import opened Decimal
  import opened Options

  datatype Condition = Condition(kind: string, status: string, lastTransitionTime: int, message: string)

  // ---------------------------------------------------------------------------
  // The condition list as a value
  // ---------------------------------------------------------------------------

  function Find(conds: seq<Condition>, kind: string): (i: nat)
    ensures i <= |conds|
    ensures i < |conds| ==> conds[i].kind == kind
    ensures forall j :: 0 <= j < i ==> conds[j].kind != kind
  {
    if conds == [] || conds[0].kind == kind then 0 else 1 + Find(conds[1..], kind)
  }

  function Set(conds: seq<Condition>, cond: Condition): seq<Condition> {
    var i := Find(conds, cond.kind);
    if i == |conds| then conds + [cond]
    else if conds[i].status != cond.status then conds[i := cond]
    else conds
  }

  function Remove(conds: seq<Condition>, kind: string): seq<Condition> {
    var i := Find(conds, kind);
    if i == |conds| then conds else conds[..i] + conds[i + 1..]
  }

  ghost predicate UniqueKinds(conds: seq<Condition>) {
    forall i, j :: 0 <= i < j < |conds| ==> conds[i].kind != conds[j].kind
  }

  /** The list as a map from kind to condition. */
  function ToMap(conds: seq<Condition>): map<string, Condition> {
    if conds == [] then map[]
    else ToMap(conds[..|conds| - 1])[conds[|conds| - 1].kind := conds[|conds| - 1]]
  }

  datatype Op = SetOp(cond: Condition) | RemoveOp(kind: string)

  function Apply(conds: seq<Condition>, op: Op): seq<Condition> {
    match op
    case SetOp(cond) => Set(conds, cond)
    case RemoveOp(kind) => Remove(conds, kind)
  }

  function ApplyAll(conds: seq<Condition>, ops: seq<Op>): seq<Condition> {
    if ops == [] then conds else Apply(ApplyAll(conds, ops[..|ops| - 1]), ops[|ops| - 1])
  }

  /** The operations on the map: an entry changes only when its status changes. */
  function ApplyMap(m: map<string, Condition>, op: Op): map<string, Condition> {
    match op
    case SetOp(cond) =>
      if cond.kind in m && m[cond.kind].status == cond.status then m else m[cond.kind := cond]
    case RemoveOp(kind) => m - {kind}
  }

  function ApplyAllMap(m: map<string, Condition>, ops: seq<Op>): map<string, Condition> {
    if ops == [] then m else ApplyMap(ApplyAllMap(m, ops[..|ops| - 1]), ops[|ops| - 1])
  }

  /** Where the operations change the list: a known kind is replaced in its place, and only when its
      status differs, and a removal closes the gap; a new kind goes to the end. */
  lemma KnownKind(conds: seq<Condition>, cond: Condition, i: nat)
    requires i < |conds| && conds[i].kind == cond.kind
    requires forall j :: 0 <= j < i ==> conds[j].kind != cond.kind
    ensures Set(conds, cond) ==
            conds[..i] + [if conds[i].status == cond.status then conds[i] else cond] + conds[i + 1..]
    ensures Remove(conds, cond.kind) == conds[..i] + conds[i + 1..]
  {
    assert Find(conds, cond.kind) == i;
  }

  lemma NewKind(conds: seq<Condition>, cond: Condition)
    requires forall c :: c in conds ==> c.kind != cond.kind
    ensures Set(conds, cond) == conds + [cond] && Remove(conds, cond.kind) == conds
  {
    assert forall i :: 0 <= i < |conds| ==> conds[i] in conds;
  }

  lemma {:induction false} ToMapEntries(conds: seq<Condition>)
    requires UniqueKinds(conds)
    ensures forall k :: k in ToMap(conds) <==> Find(conds, k) < |conds|
    ensures forall k <- ToMap(conds) :: Find(conds, k) < |conds| && ToMap(conds)[k] == conds[Find(conds, k)]
  {
    if conds != [] {
      var front, last := conds[..|conds| - 1], conds[|conds| - 1];
      ToMapEntries(front);
      forall k ensures Find(conds, k) == if Find(front, k) < |front| then Find(front, k)
                                         else if last.kind == k then |front| else |conds|
      {
        var i, j := Find(conds, k), Find(front, k);
        assert j < |front| ==> front[j] == conds[j];
        assert i < |front| ==> front[i] == conds[i];
      }
    }
  }

  /** Two lists with unique kinds that hold the same conditions are the same map. */
  lemma SameEntries(a: seq<Condition>, m: map<string, Condition>)
    requires UniqueKinds(a)
    requires forall c :: c in a ==> c.kind in m && m[c.kind] == c
    requires forall k <- m :: m[k] in a && m[k].kind == k
    ensures ToMap(a) == m
  {
    ToMapEntries(a);
    forall k ensures k in ToMap(a) <==> k in m {
      var i := Find(a, k);
      if i < |a| { assert a[i] in a; }
      if k in m { var j :| 0 <= j < |a| && a[j] == m[k]; assert i <= j; }
    }
    forall k <- m ensures ToMap(a)[k] == m[k] {
      var i := Find(a, k);
      assert a[i] in a;
    }
  }

  lemma EntriesOf(a: seq<Condition>)
    requires UniqueKinds(a)
    ensures forall c :: c in a ==> c.kind in ToMap(a) && ToMap(a)[c.kind] == c
    ensures forall k <- ToMap(a) :: ToMap(a)[k] in a && ToMap(a)[k].kind == k
  {
    ToMapEntries(a);
    forall c | c in a ensures c.kind in ToMap(a) && ToMap(a)[c.kind] == c {
      var j :| 0 <= j < |a| && a[j] == c;
      var i := Find(a, c.kind);
      assert i <= j;
      assert i == j;
    }
  }

  lemma ReplaceAt(conds: seq<Condition>, i: nat, cond: Condition)
    requires UniqueKinds(conds) && i < |conds| && conds[i].kind == cond.kind
    ensures var a := conds[i := cond];
            UniqueKinds(a) && forall c :: c in a <==> c == cond || (c in conds && c != conds[i])
  {
    var a := conds[i := cond];
    assert a[i] == cond;
    forall c | c in conds && c != conds[i] ensures c in a {
      var j :| 0 <= j < |conds| && conds[j] == c;
      assert a[j] == c;
    }
  }

  lemma SetRefines(conds: seq<Condition>, cond: Condition)
    requires UniqueKinds(conds)
    ensures UniqueKinds(Set(conds, cond))
    ensures ToMap(Set(conds, cond)) == ApplyMap(ToMap(conds), SetOp(cond))
  {
    EntriesOf(conds);
    var i := Find(conds, cond.kind);
    var m := ApplyMap(ToMap(conds), SetOp(cond));
    if i < |conds| {
      assert conds[i] in conds;
      ReplaceAt(conds, i, cond);
      if conds[i].status != cond.status {
        SameEntries(conds[i := cond], m);
      }
    } else {
      ToMapEntries(conds);
      assert ToMap(conds + [cond]) == ToMap(conds)[cond.kind := cond] by {
        assert (conds + [cond])[..|conds|] == conds;
      }
    }
  }

  lemma DropAt(conds: seq<Condition>, i: nat)
    requires UniqueKinds(conds) && i < |conds|
    ensures var a := conds[..i] + conds[i + 1..];
            UniqueKinds(a) && forall c :: c in a <==> c in conds && c != conds[i]
  {
    var a := conds[..i] + conds[i + 1..];
    forall c | c in conds && c != conds[i] ensures c in a {
      var j :| 0 <= j < |conds| && conds[j] == c;
      assert a[if j < i then j else j - 1] == c;
    }
  }

  lemma DropEntry(conds: seq<Condition>, a: seq<Condition>, gone: Condition)
    requires UniqueKinds(conds) && UniqueKinds(a) && gone in conds
    requires forall c :: c in a <==> c in conds && c != gone
    ensures ToMap(a) == ToMap(conds) - {gone.kind}
  {
    EntriesOf(conds);
    SameEntries(a, ToMap(conds) - {gone.kind});
  }

  lemma RemoveRefines(conds: seq<Condition>, kind: string)
    requires UniqueKinds(conds)
    ensures UniqueKinds(Remove(conds, kind))
    ensures ToMap(Remove(conds, kind)) == ApplyMap(ToMap(conds), RemoveOp(kind))
  {
    var i := Find(conds, kind);
    if i < |conds| {
      DropAt(conds, i);
      DropEntry(conds, conds[..i] + conds[i + 1..], conds[i]);
    } else {
      ToMapEntries(conds);
      assert kind !in ToMap(conds);
    }
  }

  /** Every sequence of operations keeps the kinds unique and acts on the list as on a map. */
  lemma {:induction false} ConditionsRefineMap(conds: seq<Condition>, ops: seq<Op>)
    requires UniqueKinds(conds)
    ensures UniqueKinds(ApplyAll(conds, ops))
    ensures ToMap(ApplyAll(conds, ops)) == ApplyAllMap(ToMap(conds), ops)
  {
    if ops != [] {
      ConditionsRefineMap(conds, ops[..|ops| - 1]);
      var c := ApplyAll(conds, ops[..|ops| - 1]);
      match ops[|ops| - 1]
      case SetOp(cond) => SetRefines(c, cond);
      case RemoveOp(kind) => RemoveRefines(c, kind);
    }
  }

  // ---------------------------------------------------------------------------
  // The slice
  // ---------------------------------------------------------------------------

  /** Conditions is a slice: a backing array, which other slices may share, and a length; or nil. */
  class PodManagerStatus {
    var readyReplicas: int
    var currentReplicas: int
    var data: array<Condition>
    var len: nat
    var isNil: bool

    ghost predicate Valid()
      reads this
    {
      len <= data.Length && (isNil ==> len == 0)
    }

    function Conditions(): seq<Condition>
      requires Valid()
      reads this, data
    {
      data[..len]
    }

    constructor ()
      ensures Valid() && fresh(data) && Conditions() == []
      ensures readyReplicas == 0 && currentReplicas == 0 && isNil
    {
      readyReplicas, currentReplicas := 0, 0;
      data := new Condition[0](_ => Condition("", "", 0, ""));
      len, isNil := 0, true;
    }

    /** append: in place when the array has room, otherwise into a new array. */
    method Append(cond: Condition)
      requires Valid()
      modifies this`data, this`len, this`isNil, data
      ensures Valid() && Conditions() == old(Conditions()) + [cond] && !isNil
      ensures data == old(data) || fresh(data)
    {
      if len == data.Length {
        var bigger := new Condition[2 * len + 1](_ => cond);
        forall i | 0 <= i < len {
          bigger[i] := data[i];
        }
        assert bigger[..len] == data[..len];
        data := bigger;
      }
      data[len] := cond;
      len, isNil := len + 1, false;
    }

    method SetCondition(cond: Condition)
      requires Valid()
      modifies this`data, this`len, this`isNil, data
      ensures Valid() && Conditions() == Set(old(Conditions()), cond)
      ensures data == old(data) || fresh(data)
    {
      for i := 0 to len
        invariant len == old(len) && data == old(data) && Conditions() == old(Conditions())
        invariant forall j :: 0 <= j < i ==> data[j].kind != cond.kind
      {
        if data[i].kind == cond.kind {
          assert Find(Conditions(), cond.kind) == i;
          if data[i].status != cond.status {
            data[i] := cond;
          }
          return;
        }
      }
      assert Find(Conditions(), cond.kind) == len;
      Append(cond);
    }

    /** append(c[:i], c[i+1:]...): the tail is copied down in the same array, and the slot it
        leaves keeps its value. */
    method DropAt(i: nat)
      requires Valid() && i < len
      modifies this`len, data
      ensures Valid() && Conditions() == old(Conditions()[..i] + Conditions()[i + 1..])
      ensures forall k :: len <= k < data.Length ==> data[k] == old(data[k])
    {
      ghost var was := Conditions();
      ghost var now := was[..i] + was[i + 1..];
      for j := i + 1 to len
        invariant len == |was|
        invariant forall k :: 0 <= k < j - 1 ==> data[k] == now[k]
        invariant forall k :: j <= k < len ==> data[k] == was[k]
        invariant forall k :: len - 1 <= k < data.Length ==> data[k] == old(data[k])
      {
        data[j - 1] := data[j];
      }
      len := len - 1;
      assert Conditions() == now;
    }

    method RemoveCondition(kind: string)
      requires Valid()
      modifies this`len, data
      ensures Valid() && Conditions() == Remove(old(Conditions()), kind)
      ensures forall k :: len <= k < data.Length ==> data[k] == old(data[k])
    {
      for i := 0 to len
        invariant len == old(len) && data[..] == old(data[..])
        invariant forall j :: 0 <= j < i ==> data[j].kind != kind
      {
        if data[i].kind == kind {
          assert Find(Conditions(), kind) == i;
          DropAt(i);
          return;
        }
      }
      assert Find(Conditions(), kind) == len;
    }

    /** A copy with a backing array of its own; a nil slice stays nil. */
    method DeepCopy() returns (out: PodManagerStatus)
      requires Valid()
      ensures fresh(out) && fresh(out.data) && out.Valid()
      ensures out.readyReplicas == readyReplicas && out.currentReplicas == currentReplicas
      ensures out.Conditions() == Conditions() && out.isNil == isNil
    {
      out := new PodManagerStatus();
      out.readyReplicas, out.currentReplicas := readyReplicas, currentReplicas;
      if isNil {
        return;
      }
      var copy := new Condition[len](_ => Condition("", "", 0, ""));
      for i := 0 to len
        invariant copy[..i] == data[..i]
        invariant out != this && fresh(out) && fresh(copy)
        invariant out.readyReplicas == readyReplicas && out.currentReplicas == currentReplicas
      {
        copy[i] := data[i];
      }
      out.data, out.len, out.isNil := copy, len, false;
    }

    method RunOps(ops: seq<Op>)
      requires Valid()
      modifies this`data, this`len, this`isNil, data
      ensures Valid() && Conditions() == ApplyAll(old(Conditions()), ops)
      ensures data == old(data) || fresh(data)
    {
      for i := 0 to |ops|
        invariant Valid() && Conditions() == ApplyAll(old(Conditions()), ops[..i])
        invariant data == old(data) || fresh(data)
      {
        assert ops[..i + 1][..i] == ops[..i];
        match ops[i] {
          case SetOp(cond) => SetCondition(cond);
          case RemoveOp(kind) => RemoveCondition(kind);
        }
      }
      assert ops[..|ops|] == ops;
    }
  }

  /** Whatever is done to a deep copy, the original keeps its conditions. */
  method ChangeCopy(original: PodManagerStatus, ops: seq<Op>) returns (out: PodManagerStatus)
    requires original.Valid()
    ensures fresh(out) && out.Valid()
    ensures out.Conditions() == ApplyAll(old(original.Conditions()), ops)
    ensures original.Valid() && original.Conditions() == old(original.Conditions())
  {
    out := original.DeepCopy();
    out.RunOps(ops);
  }

  lemma RemoveFirst(a: Condition, b: Condition)
    ensures Remove([a, b], a.kind) == [b]
  {
    assert Find([a, b], a.kind) == 0;
  }

  /** A plain struct copy shares the array: removing the first of two conditions from the copy
      turns the original's list into the second condition twice. */
  method ChangeSharedCopy(a: Condition, b: Condition) returns (original: PodManagerStatus, out: PodManagerStatus)
    requires a.kind != b.kind
    ensures original.Valid() && original.Conditions() == [b, b]
    ensures out.Valid() && out.Conditions() == [b]
  {
    original := new PodManagerStatus();
    original.SetCondition(a);
    assert Find([], a.kind) == 0;
    assert original.Conditions() == [a];
    original.SetCondition(b);
    assert Find([a], b.kind) == 1;
    assert original.Conditions() == [a, b];
    out := Share(original);
    RemoveFirst(a, b);
    assert original.len == 2 && original.data[1] == original.Conditions()[1] == b;
    assert out.Conditions() == [a, b];
    out.RemoveCondition(a.kind);
    assert out.Conditions() == [b];
    assert original.data[0] == out.Conditions()[0] == b;
    assert original.data[1] == b;
  }

  /** `*out = *in`: the fields are copied, the array is not. */
  method Share(original: PodManagerStatus) returns (out: PodManagerStatus)
    requires original.Valid()
    ensures fresh(out) && out.data == original.data && out.len == original.len && out.isNil == original.isNil
    ensures out.readyReplicas == original.readyReplicas && out.currentReplicas == original.currentReplicas
  {
    out := new PodManagerStatus();
    out.readyReplicas, out.currentReplicas := original.readyReplicas, original.currentReplicas;
    out.data, out.len, out.isNil := original.data, original.len, original.isNil;
  }

  // ---------------------------------------------------------------------------
  // The status part of a pass
  // ---------------------------------------------------------------------------

  /** What the pass looks at in a listed pod: its phase and its (type, status) conditions. */
  datatype PodInfo = PodInfo(phase: string, conditions: seq<(string, string)>)

  function ReadyPods(pods: seq<PodInfo>): set<int> {
    set i | 0 <= i < |pods| && pods[i].phase == "Running" && ("Ready", "True") in pods[i].conditions
  }

  const READY := "Ready"

  /** The condition a pass reports; its time is copied from the first condition of the list. */
  function Report(conds: seq<Condition>, ready: int, desired: int): Condition
    requires conds != []
  {
    if ready == desired && desired > 0
    then Condition(READY, "True", conds[0].lastTransitionTime, "All Pods are ready")
    else Condition(READY, "False", conds[0].lastTransitionTime,
                   Format(ready) + "/" + Format(desired) + " Pods are ready")
  }

  datatype Outcome = Updated | Panicked

  /** Counts the ready pods and sets the Ready condition. Reading the first condition of an empty
      list panics, before anything is written to the server. */
  method UpdateStatus(status: PodManagerStatus, pods: seq<PodInfo>, desiredReplicas: int) returns (o: Outcome)
    requires status.Valid()
    modifies status, status.data
    ensures status.Valid()
    ensures o == Panicked <==> old(status.Conditions()) == []
    ensures o == Panicked ==> status.Conditions() == []
    ensures status.readyReplicas == |ReadyPods(pods)| && status.currentReplicas == |pods|
    ensures status.Conditions() == AfterPass(old(status.Conditions()), |ReadyPods(pods)|, desiredReplicas)
  {
    var readyCount := CountReady(pods);
    status.readyReplicas := readyCount;
    status.currentReplicas := |pods|;
    if status.len == 0 {
      return Panicked;
    }
    assert status.data[0] == status.Conditions()[0];
    status.SetCondition(Report(status.Conditions(), readyCount, desiredReplicas));
    o := Updated;
  }

  method CountReady(pods: seq<PodInfo>) returns (readyCount: nat)
    ensures readyCount == |ReadyPods(pods)|
    ensures ReadyPods(pods) ==
            set i | 0 <= i < |pods| && pods[i].phase == "Running" && ("Ready", "True") in pods[i].conditions
  {
    readyCount := 0;
    assert ReadyPods(pods[..0]) == {};
    for i := 0 to |pods|
      invariant readyCount == |ReadyPods(pods[..i])|
    {
      var conds := pods[i].conditions;
      var found := false;
      if pods[i].phase == "Running" {
        for j := 0 to |conds|
          invariant !found && ("Ready", "True") !in conds[..j]
        {
          if conds[j].0 == "Ready" && conds[j].1 == "True" {
            found := true;
            readyCount := readyCount + 1;
            break;
          }
        }
        assert conds[..|conds|] == conds;
      }
      assert found <==> pods[i].phase == "Running" && ("Ready", "True") in conds;
      assert ReadyPods(pods[..i + 1]) == ReadyPods(pods[..i]) + (if found then {i} else {});
    }
    assert pods[..|pods|] == pods;
  }

  /** The stored conditions after a pass: a pass that panics stores nothing. */
  function AfterPass(conds: seq<Condition>, ready: int, desired: int): seq<Condition> {
    if conds == [] then conds else Set(conds, Report(conds, ready, desired))
  }

  function AfterPasses(conds: seq<Condition>, readings: seq<(int, int)>): seq<Condition> {
    if readings == [] then conds
    else AfterPass(AfterPasses(conds, readings[..|readings| - 1]),
                   readings[|readings| - 1].0, readings[|readings| - 1].1)
  }

  /** After every run of at least one pass there is a Ready entry if and only if the list was not
      empty at the start, and it then says True exactly when the last pass found as many ready pods
      as desired, and at least one was desired. From an empty list every pass panics. */
  lemma {:induction false} ReadyExactly(conds: seq<Condition>, readings: seq<(int, int)>)
    requires UniqueKinds(conds) && readings != []
    ensures var last := readings[|readings| - 1];
            var m := ToMap(AfterPasses(conds, readings));
            && UniqueKinds(AfterPasses(conds, readings))
            && (READY in m <==> conds != [])
            && (AfterPasses(conds, readings) == [] <==> conds == [])
            && (conds != [] ==> (m[READY].status == "True" <==> last.0 == last.1 && last.1 > 0))
  {
    var front := readings[..|readings| - 1];
    var before := AfterPasses(conds, front);
    var last := readings[|readings| - 1];
    if front != [] {
      ReadyExactly(conds, front);
    }
    if before != [] {
      SetRefines(before, Report(before, last.0, last.1));
      assert READY in ToMap(AfterPasses(conds, readings));
    }
  }

  predicate AllReady(reading: (int, int)) {
    reading.0 == reading.1 && reading.1 > 0
  }

  function StatusText(reading: (int, int)): string {
    if AllReady(reading) then "True" else "False"
  }

  function MessageText(reading: (int, int)): string {
    if AllReady(reading) then "All Pods are ready"
    else Format(reading.0) + "/" + Format(reading.1) + " Pods are ready"
  }

  lemma {:induction false} FirstTimeStays(conds: seq<Condition>, readings: seq<(int, int)>)
    requires conds != []
    ensures var a := AfterPasses(conds, readings);
            a != [] && a[0].lastTransitionTime == conds[0].lastTransitionTime
  {
    if readings != [] {
      FirstTimeStays(conds, readings[..|readings| - 1]);
    }
  }

  /** The report of a reading. */
  function Reported(time: int, reading: (int, int)): Condition {
    Condition("Ready", StatusText(reading), time, MessageText(reading))
  }

  /** The entry that stands after a report, given the one before. */
  function Standing(before: Option<Condition>, report: Condition): Condition {
    if before.Some? && before.value.status == report.status then before.value else report
  }

  function StandingAfter(before: Option<Condition>, reports: seq<Condition>): Condition
    requires reports != []
  {
    var n := |reports| - 1;
    if n == 0 then Standing(before, reports[0])
    else Standing(Some(StandingAfter(before, reports[..n])), reports[n])
  }

  /** It is the report in which the status last changed. */
  lemma {:induction false} LastChange(before: Option<Condition>, reports: seq<Condition>) returns (k: nat)
    requires reports != []
    ensures k < |reports|
    ensures forall j :: k <= j < |reports| ==> reports[j].status == reports[k].status
    ensures k > 0 ==> reports[k - 1].status != reports[k].status
    ensures StandingAfter(before, reports) == if k == 0 then Standing(before, reports[0]) else reports[k]
  {
    var n := |reports| - 1;
    k := 0;
    if n > 0 {
      var front := reports[..n];
      k := LastChange(before, front);
      assert front[n - 1].status == front[k].status;
      if reports[n - 1].status != reports[n].status {
        k := n;
      }
    }
  }

  function EntryOf(m: map<string, Condition>): Option<Condition> {
    if "Ready" in m then Some(m["Ready"]) else None
  }

  lemma ReportIs(conds: seq<Condition>, reading: (int, int))
    requires conds != []
    ensures Report(conds, reading.0, reading.1) == Reported(conds[0].lastTransitionTime, reading)
  {
  }

  function Reports(time: int, readings: seq<(int, int)>): (r: seq<Condition>)
    ensures |r| == |readings|
  {
    if readings == [] then []
    else Reports(time, readings[..|readings| - 1]) + [Reported(time, readings[|readings| - 1])]
  }

  lemma {:induction false} ReportsAt(time: int, readings: seq<(int, int)>, i: nat)
    requires i < |readings|
    ensures Reports(time, readings)[i] == Reported(time, readings[i])
  {
    if i < |readings| - 1 {
      ReportsAt(time, readings[..|readings| - 1], i);
    }
  }

  function SetOps(reports: seq<Condition>): seq<Op> {
    if reports == [] then [] else SetOps(reports[..|reports| - 1]) + [SetOp(reports[|reports| - 1])]
  }

  lemma {:induction false} StandingEntry(m: map<string, Condition>, reports: seq<Condition>)
    requires reports != [] && forall i :: 0 <= i < |reports| ==> reports[i].kind == "Ready"
    ensures ApplyAllMap(m, SetOps(reports)) == m["Ready" := StandingAfter(EntryOf(m), reports)]
  {
    var n := |reports| - 1;
    var ops := SetOps(reports);
    assert ops[..|ops| - 1] == SetOps(reports[..n]);
    if n > 0 {
      StandingEntry(m, reports[..n]);
    } else {
      assert ApplyAllMap(m, SetOps(reports[..n])) == m;
    }
  }

  lemma {:induction false} PassesAreOps(conds: seq<Condition>, readings: seq<(int, int)>)
    requires conds != []
    ensures AfterPasses(conds, readings) == ApplyAll(conds, SetOps(Reports(conds[0].lastTransitionTime, readings)))
  {
    if readings != [] {
      var n := |readings| - 1;
      PassesAreOps(conds, readings[..n]);
      FirstTimeStays(conds, readings[..n]);
      ReportIs(AfterPasses(conds, readings[..n]), readings[n]);
      var reports := Reports(conds[0].lastTransitionTime, readings);
      assert reports[..n] == Reports(conds[0].lastTransitionTime, readings[..n]);
      var ops := SetOps(reports);
      assert ops[..|ops| - 1] == SetOps(reports[..n]);
    }
  }

  /** The Ready entry after every run of passes, to the letter: it is the report of the pass in which
      the status last changed, so the numbers in its message are those of that pass, and its
      transition time is always the one the first condition of the list had at the start. No other
      entry changes. */
  lemma ReadyEntry(conds: seq<Condition>, readings: seq<(int, int)>) returns (k: nat)
    requires UniqueKinds(conds) && conds != [] && readings != []
    ensures k < |readings|
    ensures forall j :: k <= j < |readings| ==> StatusText(readings[j]) == StatusText(readings[k])
    ensures k > 0 ==> StatusText(readings[k - 1]) != StatusText(readings[k])
    ensures var m := ToMap(conds);
            var report := Reported(conds[0].lastTransitionTime, readings[k]);
            ToMap(AfterPasses(conds, readings)) ==
            m["Ready" := if k == 0 then Standing(EntryOf(m), report) else report]
  {
    var time := conds[0].lastTransitionTime;
    var reports := Reports(time, readings);
    forall i | 0 <= i < |readings| ensures reports[i] == Reported(time, readings[i]) {
      ReportsAt(time, readings, i);
    }
    PassesAreOps(conds, readings);
    ConditionsRefineMap(conds, SetOps(reports));
    StandingEntry(ToMap(conds), reports);
    k := LastChange(EntryOf(ToMap(conds)), reports);
  }
}
