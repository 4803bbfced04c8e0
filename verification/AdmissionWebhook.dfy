/** The admission webhook: the JSON Patch its mutating half builds, the effect of applying that
    patch (section 4.1 of RFC 6902), and its validating half. */
module AdmissionWebhook {
  import opened Options

  type Table = map<string, string>

  /** The metadata both handlers look at; an absent table is a nil map. */
  datatype Metadata = Metadata(namespace: string, name: string, annotations: Option<Table>, labels: Option<Table>)

  const VALIDATE_KEY := "admission-webhook-example.qikqiak.com/validate"
  const MUTATE_KEY := "admission-webhook-example.qikqiak.com/mutate"
  const STATUS_KEY := "admission-webhook-example.qikqiak.com/status"
  const NA := "not_available"

  const IGNORED_NAMESPACES: seq<string> := ["kube-system", "kube-public"]

  const REQUIRED_LABELS: seq<string> := [
    "app.kubernetes.io/name",
    "app.kubernetes.io/instance",
    "app.kubernetes.io/version",
    "app.kubernetes.io/component",
    "app.kubernetes.io/part-of",
    "app.kubernetes.io/managed-by"]

  const ADD_LABELS: Table := map l | l in REQUIRED_LABELS :: NA

  /** Indexing a Go map: a missing key, or a nil map, reads as the empty string. */
  function Get(t: Option<Table>, key: string): string {
    if t.Some? && key in t.value then t.value[key] else ""
  }

  // ---------------------------------------------------------------------------
  // Policy
  // ---------------------------------------------------------------------------

  function LowerChar(c: char): char {
    if 'A' <= c <= 'Z' then (c as int + 32) as char else c
  }

  function ToLower(s: string): string {
    seq(|s|, i requires 0 <= i < |s| => LowerChar(s[i]))
  }

  predicate SaysNo(value: string) {
    ToLower(value) in ["n", "no", "false", "off"]
  }

  predicate AdmissionRequired(ignored: seq<string>, key: string, m: Metadata) {
    m.namespace !in ignored && !SaysNo(Get(m.annotations, key))
  }

  predicate MutationRequired(ignored: seq<string>, m: Metadata) {
    AdmissionRequired(ignored, MUTATE_KEY, m) && ToLower(Get(m.annotations, STATUS_KEY)) != "mutated"
  }

  predicate ValidationRequired(ignored: seq<string>, m: Metadata) {
    AdmissionRequired(ignored, VALIDATE_KEY, m)
  }

  // What the policy comes to, in words.

  /** The word in any letter case; `word` is in lower case. */
  predicate Spells(value: string, word: string) {
    && |value| == |word|
    && forall i :: 0 <= i < |word| ==> value[i] == word[i] || value[i] as int + 32 == word[i] as int
  }

  predicate Annotated(m: Metadata, key: string, word: string) {
    m.annotations.Some? && key in m.annotations.value && Spells(m.annotations.value[key], word)
  }

  predicate OptedOut(m: Metadata, key: string) {
    Annotated(m, key, "n") || Annotated(m, key, "no") || Annotated(m, key, "false") || Annotated(m, key, "off")
  }

  predicate InSystemNamespace(m: Metadata) {
    m.namespace == "kube-system" || m.namespace == "kube-public"
  }

  predicate MustMutate(m: Metadata) {
    && !InSystemNamespace(m)
    && !OptedOut(m, "admission-webhook-example.qikqiak.com/mutate")
    && !Annotated(m, "admission-webhook-example.qikqiak.com/status", "mutated")
  }

  predicate MustValidate(m: Metadata) {
    !InSystemNamespace(m) && !OptedOut(m, "admission-webhook-example.qikqiak.com/validate")
  }

  lemma LowerSpells(value: string, word: string)
    requires forall i :: 0 <= i < |word| ==> 'a' <= word[i] <= 'z'
    ensures ToLower(value) == word <==> Spells(value, word)
  {
    var l := ToLower(value);
    assert |l| == |value| && forall i :: 0 <= i < |value| ==> l[i] == LowerChar(value[i]);
    if Spells(value, word) {
      forall i | 0 <= i < |word| ensures l[i] == word[i] {
        assert value[i] == word[i] || value[i] as int + 32 == word[i] as int;
      }
    }
  }

  lemma AnnotationSpells(m: Metadata, key: string, word: string)
    requires word != "" && forall i :: 0 <= i < |word| ==> 'a' <= word[i] <= 'z'
    ensures ToLower(Get(m.annotations, key)) == word <==> Annotated(m, key, word)
  {
    LowerSpells(Get(m.annotations, key), word);
  }

  lemma SaysNoSpells(m: Metadata, key: string)
    ensures SaysNo(Get(m.annotations, key)) <==> OptedOut(m, key)
  {
    AnnotationSpells(m, key, "n");
    AnnotationSpells(m, key, "no");
    AnnotationSpells(m, key, "false");
    AnnotationSpells(m, key, "off");
  }

  /** Objects in the two system namespaces are exempt. Every other object is mutated unless its mutate
      annotation says no or its status says mutated, and validated unless its validate annotation
      says no, in any letter case. */
  lemma PolicyExactly(m: Metadata)
    ensures MutationRequired(IGNORED_NAMESPACES, m) <==> MustMutate(m)
    ensures ValidationRequired(IGNORED_NAMESPACES, m) <==> MustValidate(m)
  {
    SaysNoSpells(m, MUTATE_KEY);
    SaysNoSpells(m, VALIDATE_KEY);
    AnnotationSpells(m, STATUS_KEY, "mutated");
  }

  predicate Six(l: string) {
    || l == "app.kubernetes.io/name" || l == "app.kubernetes.io/instance" || l == "app.kubernetes.io/version"
    || l == "app.kubernetes.io/component" || l == "app.kubernetes.io/part-of" || l == "app.kubernetes.io/managed-by"
  }

  /** The required labels, and the labels that are added, are these six. */
  lemma SixLabels(l: string)
    ensures l in REQUIRED_LABELS <==> Six(l)
    ensures l in ADD_LABELS <==> Six(l)
    ensures l in ADD_LABELS ==> ADD_LABELS[l] == "not_available"
  {
  }

  // ---------------------------------------------------------------------------
  // Patches and their application
  // ---------------------------------------------------------------------------

  datatype Value = Text(text: string) | Object(members: Table)
  datatype PatchOperation = PatchOperation(op: string, path: string, value: Value)
  type Patch = seq<PatchOperation>

  const ANNOTATIONS := "/metadata/annotations"
  const LABELS := "/metadata/labels"

  function Unescape(token: string): string {
    if |token| < 2 then token
    else if token[..2] == "~1" then "/" + Unescape(token[2..])
    else if token[..2] == "~0" then "~" + Unescape(token[2..])
    else [token[0]] + Unescape(token[1..])
  }

  /** The reference token of a key (section 3 of RFC 6901). */
  function Escape(key: string): string {
    if key == "" then ""
    else (if key[0] == '~' then "~0" else if key[0] == '/' then "~1" else [key[0]]) + Escape(key[1..])
  }

  lemma {:induction false} EscapeRoundTrip(key: string)
    ensures Unescape(Escape(key)) == key && '/' !in Escape(key)
  {
    if key != "" {
      EscapeRoundTrip(key[1..]);
      var head := if key[0] == '~' then "~0" else if key[0] == '/' then "~1" else [key[0]];
      var e := Escape(key);
      assert e == head + Escape(key[1..]);
      if |head| == 2 {
        assert e[..2] == head && e[2..] == Escape(key[1..]);
      } else {
        assert e[0] == key[0] && e[1..] == Escape(key[1..]);
        if |e| >= 2 {
          assert e[..2][0] == key[0];
        }
      }
    }
  }

  /** `add` and `replace` on a table of the metadata, addressed whole or by member. A pointer with
      a further slash points into a string member, where there is nothing. */
  function PatchTable(t: Option<Table>, base: string, o: PatchOperation): Option<Option<Table>>
    requires base <= o.path
  {
    var rest := o.path[|base|..];
    if rest == "" then
      if o.value.Object? && (o.op == "add" || (o.op == "replace" && t.Some?))
      then Some(Some(o.value.members)) else None
    else if rest[0] != '/' || '/' in rest[1..] || t.None? || !o.value.Text? then None
    else
      var key := Unescape(rest[1..]);
      if o.op == "add" || (o.op == "replace" && key in t.value)
      then Some(Some(t.value[key := o.value.text])) else None
  }

  /** None when the operation cannot be applied; the whole patch then fails. */
  function ApplyOp(m: Metadata, o: PatchOperation): Option<Metadata> {
    if ANNOTATIONS <= o.path then
      match PatchTable(m.annotations, ANNOTATIONS, o)
      case None => None
      case Some(t) => Some(m.(annotations := t))
    else if LABELS <= o.path then
      match PatchTable(m.labels, LABELS, o)
      case None => None
      case Some(t) => Some(m.(labels := t))
    else None
  }

  function ApplyPatch(m: Metadata, p: Patch): Option<Metadata>
  {
    if p == [] then Some(m) else
    match ApplyPatch(m, p[..|p| - 1])
    case None => None
    case Some(m') => ApplyOp(m', p[|p| - 1])
  }

  // ---------------------------------------------------------------------------
  // Building the patch
  // ---------------------------------------------------------------------------

  /** An order in which a Go map may be iterated. */
  ghost predicate IterationOrder(order: seq<string>, t: Table) {
    && (forall i, j :: 0 <= i < j < |order| ==> order[i] != order[j])
    && (forall k :: k in order <==> k in t)
  }

  predicate AnyUnset(target: Option<Table>, keys: seq<string>) {
    exists k :: k in keys && Get(target, k) == ""
  }

  /** The annotation operations, key by key: the first unset key empties the table the later keys
      are looked up in, so from there on every key replaces the whole table. */
  function AnnotationOps(target: Option<Table>, added: Table, order: seq<string>): Patch
    requires forall k :: k in order ==> k in added
  {
    if order == [] then [] else
    var front, k := order[..|order| - 1], order[|order| - 1];
    AnnotationOps(target, added, front) +
    [if AnyUnset(target, order) then PatchOperation("add", ANNOTATIONS, Object(map[k := added[k]]))
     else PatchOperation("replace", ANNOTATIONS + "/" + k, Text(added[k]))]
  }

  method UpdateAnnotation(target: Option<Table>, added: Table, order: seq<string>) returns (patch: Patch)
    requires IterationOrder(order, added)
    ensures patch == AnnotationOps(target, added, order)
  {
    var t := target;
    patch := [];
    for i := 0 to |order|
      invariant patch == AnnotationOps(target, added, order[..i])
      invariant t == if AnyUnset(target, order[..i]) then Some(map[]) else target
    {
      var key := order[i];
      assert order[..i + 1][..i] == order[..i];
      assert key in order;
      assert AnyUnset(target, order[..i + 1]) <==> AnyUnset(target, order[..i]) || Get(target, key) == "" by {
        assert order[..i + 1] == order[..i] + [key];
        assert key in order[..i + 1];
      }
      if Get(t, key) == "" {
        t := Some(map[]);
        patch := patch + [PatchOperation("add", ANNOTATIONS, Object(map[key := added[key]]))];
      } else {
        patch := patch + [PatchOperation("replace", ANNOTATIONS + "/" + key, Text(added[key]))];
      }
    }
    assert order[..|order|] == order;
  }

  /** The labels the patch carries: those that are missing or empty. */
  function MissingLabels(target: Option<Table>, added: Table): Table {
    map k | k in added && Get(target, k) == "" :: added[k]
  }

  method UpdateLabels(target: Option<Table>, added: Table, order: seq<string>) returns (patch: Patch)
    requires IterationOrder(order, added)
    ensures patch == [PatchOperation("add", LABELS, Object(MissingLabels(target, added)))]
  {
    var values: Table := map[];
    for i := 0 to |order|
      invariant forall k :: k in values <==> k in order[..i] && Get(target, k) == ""
      invariant forall k <- values :: k in added && values[k] == added[k]
    {
      var key := order[i];
      assert key in order;
      assert order[..i + 1] == order[..i] + [key];
      if Get(target, key) == "" {
        values := values[key := added[key]];
      }
    }
    assert order[..|order|] == order;
    assert values == MissingLabels(target, added);
    patch := [PatchOperation("add", LABELS, Object(values))];
  }

  method CreatePatch(availableAnnotations: Option<Table>, annotations: Table, availableLabels: Option<Table>,
                     labels: Table, annotationOrder: seq<string>, labelOrder: seq<string>) returns (patch: Patch)
    requires IterationOrder(annotationOrder, annotations) && IterationOrder(labelOrder, labels)
    ensures patch == AnnotationOps(availableAnnotations, annotations, annotationOrder) +
                     [PatchOperation("add", LABELS, Object(MissingLabels(availableLabels, labels)))]
  {
    var a := UpdateAnnotation(availableAnnotations, annotations, annotationOrder);
    var l := UpdateLabels(availableLabels, labels, labelOrder);
    patch := a + l;
  }

  // ---------------------------------------------------------------------------
  // The handlers
  // ---------------------------------------------------------------------------

  /** A request: the kind, and the object's metadata unless the raw object does not decode. */
  datatype Review = Review(kind: string, meta: Option<Metadata>)

  /** Panicked stands for the nil dereference on a kind the handlers do not know. */
  datatype Response = Response(allowed: bool, patch: Option<Patch>, reason: string) | Panicked

  const STATUS: Table := map[STATUS_KEY := "mutated"]

  /** The patch `mutate` sends: it never looks at the annotations the object has. */
  function MutationPatch(m: Metadata): Patch {
    [PatchOperation("add", ANNOTATIONS, Object(STATUS)),
     PatchOperation("add", LABELS, Object(MissingLabels(m.labels, ADD_LABELS)))]
  }

  predicate Known(kind: string) {
    kind == "Deployment" || kind == "Service"
  }

  method Mutate(review: Review, annotationOrder: seq<string>, labelOrder: seq<string>) returns (r: Response)
    requires IterationOrder(annotationOrder, STATUS) && IterationOrder(labelOrder, ADD_LABELS)
    ensures r.Panicked? <==> review.kind != "Deployment" && review.kind != "Service"
    ensures r.Response? ==> (r.allowed <==> review.meta.Some?) && (r.allowed <==> r.reason == "")
    ensures r.Response? ==>
              r.patch == if review.meta.Some? && MustMutate(review.meta.value)
                         then Some(MutationPatch(review.meta.value)) else None
  {
    if !Known(review.kind) {
      return Panicked;
    }
    if review.meta.None? {
      return Response(false, None, "could not unmarshal raw object");
    }
    var m := review.meta.value;
    PolicyExactly(m);
    if !MutationRequired(IGNORED_NAMESPACES, m) {
      return Response(true, None, "");
    }
    SingleOrder(annotationOrder);
    var patch := CreatePatch(None, STATUS, m.labels, ADD_LABELS, annotationOrder, labelOrder);
    assert AnyUnset(None, [STATUS_KEY]) by { assert STATUS_KEY in [STATUS_KEY]; }
    assert AnnotationOps(None, STATUS, [STATUS_KEY]) == [PatchOperation("add", ANNOTATIONS, Object(STATUS))] by {
      assert [STATUS_KEY][..0] == [];
    }
    assert patch == MutationPatch(m);
    r := Response(true, Some(patch), "");
  }

  lemma SingleOrder(order: seq<string>)
    requires IterationOrder(order, STATUS)
    ensures order == [STATUS_KEY]
  {
    AtMostOneKey(order, STATUS);
    assert STATUS_KEY in order;
  }

  lemma AtMostOneKey(order: seq<string>, t: Table)
    requires IterationOrder(order, t)
    requires forall a, b :: a in t && b in t ==> a == b
    ensures |order| <= 1
  {
    if |order| > 1 {
      SameKey(order, t, 0, 1);
    }
  }

  lemma SameKey(order: seq<string>, t: Table, i: nat, j: nat)
    requires forall k :: k in order ==> k in t
    requires forall a, b :: a in t && b in t ==> a == b
    requires i < |order| && j < |order|
    ensures order[i] == order[j]
  {
    assert order[i] in order && order[j] in order;
  }

  ghost predicate HasRequiredLabels(m: Metadata) {
    forall l :: Six(l) ==> m.labels.Some? && l in m.labels.value
  }

  method Validate(review: Review) returns (r: Response)
    ensures r.Panicked? <==> review.kind != "Deployment" && review.kind != "Service"
    ensures r.Response? ==> r.patch == None
    ensures r.Response? ==>
              (r.allowed <==>
                && review.meta.Some?
                && (MustValidate(review.meta.value) ==> HasRequiredLabels(review.meta.value)))
    ensures r.Response? && review.meta.Some? ==> r.reason == if r.allowed then "" else "required labels are not set"
  {
    if !Known(review.kind) {
      return Panicked;
    }
    if review.meta.None? {
      return Response(false, None, "could not unmarshal raw object");
    }
    var m := review.meta.value;
    PolicyExactly(m);
    if !ValidationRequired(IGNORED_NAMESPACES, m) {
      return Response(true, None, "");
    }
    var allowed, reason := true, "";
    for i := 0 to |REQUIRED_LABELS|
      invariant allowed
      invariant forall j :: 0 <= j < i ==> m.labels.Some? && REQUIRED_LABELS[j] in m.labels.value
    {
      if !(m.labels.Some? && REQUIRED_LABELS[i] in m.labels.value) {
        allowed, reason := false, "required labels are not set";
        SixLabels(REQUIRED_LABELS[i]);
        break;
      }
    }
    if allowed {
      forall l | Six(l) ensures m.labels.Some? && l in m.labels.value { SixLabels(l); }
    }
    r := Response(allowed, None, reason);
  }

  // ---------------------------------------------------------------------------
  // The two halves together
  // ---------------------------------------------------------------------------

  /** What the API server holds after the mutating webhook. */
  function AfterMutation(m: Metadata): Option<Metadata> {
    if MutationRequired(IGNORED_NAMESPACES, m) then ApplyPatch(m, MutationPatch(m)) else Some(m)
  }

  lemma PatchApplies(m: Metadata)
    ensures ApplyPatch(m, MutationPatch(m)) ==
            Some(m.(annotations := Some(STATUS), labels := Some(MissingLabels(m.labels, ADD_LABELS))))
  {
    var p := MutationPatch(m);
    assert p[..1][..0] == [] && p[..1] == [p[0]];
    assert ApplyPatch(m, p[..0]) == Some(m);
    assert ANNOTATIONS[|ANNOTATIONS|..] == "" && LABELS[|LABELS|..] == "";
    assert ApplyPatch(m, p[..1]) == ApplyOp(m, p[0]);
    assert !(ANNOTATIONS <= LABELS) by { assert |LABELS| < |ANNOTATIONS|; }
  }

  predicate HasValue(t: Option<Table>, key: string) {
    t.Some? && key in t.value && t.value[key] != ""
  }

  /** The patch always applies, and it does not merge: of the annotations only the status one is left,
      and of the labels only those of the six that had no value, as not available. */
  lemma PatchedObject(m: Metadata)
    ensures var r := ApplyPatch(m, MutationPatch(m));
            && r.Some? && r.value.namespace == m.namespace && r.value.name == m.name
            && r.value.annotations == Some(map["admission-webhook-example.qikqiak.com/status" := "mutated"])
            && r.value.labels.Some?
            && (forall l :: l in r.value.labels.value <==> Six(l) && !HasValue(m.labels, l))
            && (forall l <- r.value.labels.value :: r.value.labels.value[l] == "not_available")
  {
    PatchApplies(m);
    forall l ensures l in MissingLabels(m.labels, ADD_LABELS) <==> Six(l) && !HasValue(m.labels, l) {
      SixLabels(l);
    }
    forall l <- MissingLabels(m.labels, ADD_LABELS)
      ensures MissingLabels(m.labels, ADD_LABELS)[l] == "not_available"
    {
      SixLabels(l);
    }
  }

  lemma MutatedIsLower()
    ensures ToLower("mutated") == "mutated" && ToLower("") == ""
  {
  }

  /** For every object that is mutated: what comes out is always subject to validation, and it is
      admitted if and only if none of the six required labels had a value before. */
  lemma MutateThenValidate(m: Metadata)
    requires MustMutate(m)
    ensures AfterMutation(m).Some? && MustValidate(AfterMutation(m).value)
    ensures HasRequiredLabels(AfterMutation(m).value) <==> forall l :: Six(l) ==> !HasValue(m.labels, l)
  {
    PolicyExactly(m);
    PatchedObject(m);
    assert |VALIDATE_KEY| != |STATUS_KEY|;
  }

  /** Mutating twice is mutating once, for every object. */
  lemma MutationIdempotent(m: Metadata)
    ensures AfterMutation(m).Some? && AfterMutation(AfterMutation(m).value) == AfterMutation(m)
  {
    PatchedObject(m);
    MutatedIsLower();
    if MutationRequired(IGNORED_NAMESPACES, m) {
      assert Get(AfterMutation(m).value.annotations, STATUS_KEY) == "mutated";
    }
  }

  /** A label that had a value never survives mutation. */
  lemma LabelsAreNotMerged(m: Metadata, l: string)
    requires MustMutate(m) && HasValue(m.labels, l)
    ensures AfterMutation(m).Some? && AfterMutation(m).value.labels.Some?
    ensures l !in AfterMutation(m).value.labels.value
  {
    PolicyExactly(m);
    PatchedObject(m);
  }

  /** With an empty target only the last key of the iteration survives. */
  lemma {:induction false} LastAnnotationWins(m: Metadata, added: Table, order: seq<string>)
    requires order != [] && forall k :: k in order ==> k in added
    ensures var k := order[|order| - 1];
            ApplyPatch(m, AnnotationOps(None, added, order)) ==
            Some(m.(annotations := Some(map[k := added[k]])))
  {
    var front, k := order[..|order| - 1], order[|order| - 1];
    var p := AnnotationOps(None, added, order);
    assert k in order;
    assert AnyUnset(None, order);
    assert p[..|p| - 1] == AnnotationOps(None, added, front);
    if front != [] {
      LastAnnotationWins(m, added, front);
    } else {
      assert ApplyPatch(m, []) == Some(m);
    }
    assert ANNOTATIONS[|ANNOTATIONS|..] == "";
  }

  // `updateAnnotation` on any target: is the result the same for every iteration order?

  function Built(m: Metadata, target: Option<Table>, added: Table, order: seq<string>): Option<Metadata>
    requires forall k :: k in order ==> k in added
  {
    ApplyPatch(m, AnnotationOps(target, added, order))
  }

  lemma BuiltSnoc(m: Metadata, target: Option<Table>, added: Table, front: seq<string>, k: string)
    requires k in added && forall j :: j in front ==> j in added
    ensures var o := if AnyUnset(target, front + [k])
                     then PatchOperation("add", ANNOTATIONS, Object(map[k := added[k]]))
                     else PatchOperation("replace", ANNOTATIONS + "/" + k, Text(added[k]));
            var before := Built(m, target, added, front);
            Built(m, target, added, front + [k]) == if before.None? then None else ApplyOp(before.value, o)
  {
    var order := front + [k];
    assert order[..|order| - 1] == front;
    var p := AnnotationOps(target, added, order);
    assert p[..|p| - 1] == AnnotationOps(target, added, front);
  }

  lemma ApplyAdd(m: Metadata, t: Table)
    ensures ApplyOp(m, PatchOperation("add", ANNOTATIONS, Object(t))) == Some(m.(annotations := Some(t)))
  {
    assert ANNOTATIONS[|ANNOTATIONS|..] == "";
  }

  /** A replace works for a member that is there and whose key needs no escape. */
  predicate Replaceable(m: Metadata, k: string) {
    m.annotations.Some? && '/' !in k && Unescape(k) in m.annotations.value
  }

  lemma ApplyReplace(m: Metadata, k: string, v: string)
    ensures ApplyOp(m, PatchOperation("replace", ANNOTATIONS + "/" + k, Text(v))) ==
            if Replaceable(m, k) then Some(m.(annotations := Some(m.annotations.value[Unescape(k) := v]))) else None
  {
    var path := ANNOTATIONS + "/" + k;
    assert path[|ANNOTATIONS|..] == "/" + k;
    assert ("/" + k)[1..] == k;
  }

  /** Once an unset key has come up, every result holds the last key alone. */
  lemma {:induction false} BuiltUnset(m: Metadata, target: Option<Table>, added: Table, order: seq<string>)
    requires forall k :: k in order ==> k in added
    ensures Built(m, target, added, order).Some? ==>
              m.(annotations := Built(m, target, added, order).value.annotations) == Built(m, target, added, order).value
    ensures AnyUnset(target, order) && Built(m, target, added, order).Some? ==>
              Built(m, target, added, order).value.annotations == Some(map[order[|order| - 1] := added[order[|order| - 1]]])
    ensures order != [] && Get(target, order[0]) == "" ==> Built(m, target, added, order).Some?
  {
    if order != [] {
      var front, k := order[..|order| - 1], order[|order| - 1];
      assert order == front + [k] && k in order;
      BuiltUnset(m, target, added, front);
      BuiltSnoc(m, target, added, front, k);
      var before := Built(m, target, added, front);
      if before.Some? {
        ApplyAdd(before.value, map[k := added[k]]);
        ApplyReplace(before.value, k, added[k]);
      }
      assert order[0] in order;
    }
  }

  function Replaced(t: Table, added: Table, order: seq<string>): Table
    requires forall k :: k in order ==> k in added
  {
    if order == [] then t
    else Replaced(t, added, order[..|order| - 1])[Unescape(order[|order| - 1]) := added[order[|order| - 1]]]
  }

  lemma {:induction false} ReplacedAt(t: Table, added: Table, order: seq<string>, x: string)
    requires forall k :: k in order ==> k in added
    ensures var r := Replaced(t, added, order);
            if exists k :: k in order && Unescape(k) == x
            then x in r && exists k :: k in order && Unescape(k) == x && r[x] == added[k]
            else (x in r <==> x in t) && (x in r ==> r[x] == t[x])
  {
    if order != [] {
      var front, last := order[..|order| - 1], order[|order| - 1];
      assert order == front + [last] && last in order;
      ReplacedAt(t, added, front, x);
    }
  }

  ghost predicate AllReplaceable(m: Metadata, order: seq<string>) {
    m.annotations.Some? && forall k :: k in order ==> Replaceable(m, k)
  }

  /** What the replaces make of the object. */
  ghost function Replaces(m: Metadata, added: Table, order: seq<string>): Option<Metadata>
    requires forall k :: k in order ==> k in added
  {
    if order == [] then Some(m)
    else if AllReplaceable(m, order)
    then Some(m.(annotations := Some(Replaced(m.annotations.value, added, order)))) else None
  }

  lemma ReplacesSnoc(m: Metadata, added: Table, front: seq<string>, k: string)
    requires k in added && forall j :: j in front ==> j in added
    ensures var before := Replaces(m, added, front);
            Replaces(m, added, front + [k]) ==
            if before.None? || !Replaceable(before.value, k) then None
            else Some(before.value.(annotations := Some(before.value.annotations.value[Unescape(k) := added[k]])))
  {
    var order := front + [k];
    assert order[..|order| - 1] == front && order[|order| - 1] == k;
    assert forall j :: j in order <==> j in front || j == k;
    if AllReplaceable(m, front) {
      assert Replaced(m.annotations.value, added, []) == m.annotations.value;
      ReplacedKeys(m, added, front, Unescape(k));
    } else if front == [] {
      assert !AllReplaceable(m, order);
    }
  }

  /** When every key is set in the target, the result is that of the replaces. */
  lemma {:induction false} BuiltSet(m: Metadata, target: Option<Table>, added: Table, order: seq<string>)
    requires forall k :: k in order ==> k in added
    requires !AnyUnset(target, order)
    ensures Built(m, target, added, order) == Replaces(m, added, order)
  {
    if order == [] {
      assert ApplyPatch(m, []) == Some(m);
    } else {
      var front, k := order[..|order| - 1], order[|order| - 1];
      assert order == front + [k] && k in order;
      BuiltSet(m, target, added, front);
      BuiltSnoc(m, target, added, front, k);
      ReplacesSnoc(m, added, front, k);
      var before := Built(m, target, added, front);
      if before.Some? {
        ApplyReplace(before.value, k, added[k]);
      }
    }
  }

  lemma ReplacedKeys(m: Metadata, added: Table, order: seq<string>, x: string)
    requires m.annotations.Some? && forall k :: k in order ==> k in added && Replaceable(m, k)
    ensures x in Replaced(m.annotations.value, added, order) <==> x in m.annotations.value
  {
    ReplacedAt(m.annotations.value, added, order, x);
  }

  ghost predicate OrderFree(m: Metadata, target: Option<Table>, added: Table) {
    forall o1, o2 :: IterationOrder(o1, added) && IterationOrder(o2, added) ==>
      Built(m, target, added, o1) == Built(m, target, added, o2)
  }

  ghost predicate AtMostOne(added: Table) {
    forall a, b :: a in added && b in added ==> a == b
  }

  /** Two keys address one annotation and give it different values, and all replaces apply. */
  ghost predicate Clash(m: Metadata, added: Table, a: string, b: string) {
    && a in added && b in added && Unescape(a) == Unescape(b) && added[a] != added[b]
    && forall k :: k in added ==> Replaceable(m, k)
  }

  /** For every object and every target: the iteration order does not matter if and only if at most
      one annotation is added, or all of them have a value in the target already and no two of them
      clash. */
  lemma AnnotationOrderMatters(m: Metadata, target: Option<Table>, added: Table)
    ensures OrderFree(m, target, added) <==>
            AtMostOne(added) ||
            ((forall k :: k in added ==> Get(target, k) != "") && forall a, b :: !Clash(m, added, a, b))
  {
    if AtMostOne(added) {
      forall o1, o2 | IterationOrder(o1, added) && IterationOrder(o2, added) ensures o1 == o2 {
        SameSmallOrder(o1, o2, added);
      }
    } else if u :| u in added && Get(target, u) == "" {
      UnsetDepends(m, target, added, u);
    } else if a, b :| Clash(m, added, a, b) {
      ClashDepends(m, target, added, a, b);
    } else {
      forall o1, o2 | IterationOrder(o1, added) && IterationOrder(o2, added)
        ensures Built(m, target, added, o1) == Built(m, target, added, o2)
      {
        SetAgree(m, target, added, o1, o2);
      }
    }
  }

  lemma UnsetDepends(m: Metadata, target: Option<Table>, added: Table, u: string)
    requires u in added && Get(target, u) == "" && !AtMostOne(added)
    ensures !OrderFree(m, target, added)
  {
    var x :| x in added && x != u;
    var o1 := FromTo(added, u, x);
    var o2 := EndingIn(added, u);
    assert u in o1 && u in o2;
    BuiltUnset(m, target, added, o1);
    BuiltUnset(m, target, added, o2);
    assert x in map[x := added[x]] && x !in map[u := added[u]];
  }

  lemma ClashDepends(m: Metadata, target: Option<Table>, added: Table, a: string, b: string)
    requires Clash(m, added, a, b) && forall k :: k in added ==> Get(target, k) != ""
    ensures !OrderFree(m, target, added)
  {
    var o1 := EndingIn(added, a);
    var o2 := EndingIn(added, b);
    BuiltSet(m, target, added, o1);
    BuiltSet(m, target, added, o2);
    var t := m.annotations.value;
    assert Replaced(t, added, o1)[Unescape(a)] == added[a];
    assert Replaced(t, added, o2)[Unescape(a)] == added[b];
  }

  lemma SetAgree(m: Metadata, target: Option<Table>, added: Table, o1: seq<string>, o2: seq<string>)
    requires IterationOrder(o1, added) && IterationOrder(o2, added)
    requires (forall k :: k in added ==> Get(target, k) != "") && forall a, b :: !Clash(m, added, a, b)
    ensures Built(m, target, added, o1) == Built(m, target, added, o2)
  {
    BuiltSet(m, target, added, o1);
    BuiltSet(m, target, added, o2);
    assert o1 == [] <==> o2 == [] by {
      if o1 != [] { assert o1[0] in o1; }
      if o2 != [] { assert o2[0] in o2; }
    }
    if o1 != [] && forall k :: k in added ==> Replaceable(m, k) {
      assert o1[0] in o1;
      SameReplaced(m, added, o1, o2);
    }
  }

  lemma SameReplaced(m: Metadata, added: Table, o1: seq<string>, o2: seq<string>)
    requires m.annotations.Some? && IterationOrder(o1, added) && IterationOrder(o2, added)
    requires (forall k :: k in added ==> Replaceable(m, k)) && forall a, b :: !Clash(m, added, a, b)
    ensures Replaced(m.annotations.value, added, o1) == Replaced(m.annotations.value, added, o2)
  {
    var t := m.annotations.value;
    var r1, r2 := Replaced(t, added, o1), Replaced(t, added, o2);
    forall x ensures x in r1 <==> x in r2 {
      ReplacedAt(t, added, o1, x);
      ReplacedAt(t, added, o2, x);
    }
    forall x | x in r1 && x in r2 ensures r1[x] == r2[x] {
      ReplacedAt(t, added, o1, x);
      ReplacedAt(t, added, o2, x);
      if k :| k in o1 && Unescape(k) == x {
        assert k in o2;
        var a :| a in o1 && Unescape(a) == x && r1[x] == added[a];
        var b :| b in o2 && Unescape(b) == x && r2[x] == added[b];
        assert !Clash(m, added, a, b);
      }
    }
  }

  lemma FromTo(t: Table, a: string, b: string) returns (order: seq<string>)
    requires a in t && b in t && a != b
    ensures IterationOrder(order, t) && order != [] && order[0] == a && order[|order| - 1] == b
  {
    var rest := SomeOrder(t.Keys - {a, b});
    order := [a] + (rest + [b]);
    assert forall i :: 0 <= i < |rest| ==> rest[i] in rest;
    assert forall k :: k in rest + [b] <==> k in rest || k == b;
  }

  lemma EndingIn(t: Table, a: string) returns (order: seq<string>)
    requires a in t
    ensures IterationOrder(order, t) && order != [] && order[|order| - 1] == a
  {
    var rest := SomeOrder(t.Keys - {a});
    order := rest + [a];
    assert forall i :: 0 <= i < |rest| ==> rest[i] in rest;
  }

  lemma {:induction false} SomeOrder(keys: set<string>) returns (order: seq<string>)
    ensures forall i, j :: 0 <= i < j < |order| ==> order[i] != order[j]
    ensures forall k :: k in order <==> k in keys
  {
    if keys == {} {
      order := [];
    } else {
      var k :| k in keys;
      var rest := SomeOrder(keys - {k});
      order := [k] + rest;
    }
  }

  lemma SameSmallOrder(o1: seq<string>, o2: seq<string>, t: Table)
    requires IterationOrder(o1, t) && IterationOrder(o2, t)
    requires forall a, b :: a in t && b in t ==> a == b
    ensures o1 == o2
  {
    AtMostOneKey(o1, t);
    AtMostOneKey(o2, t);
    if |o1| == 1 { assert o1[0] in o2; }
    if |o2| == 1 { assert o2[0] in o1; }
  }

  /** With an escaped key the `replace` branch would work on every object that has the annotation. */
  lemma EscapedReplaceWorks(m: Metadata, key: string, v: string)
    requires m.annotations.Some? && key in m.annotations.value
    ensures ApplyOp(m, PatchOperation("replace", ANNOTATIONS + "/" + Escape(key), Text(v))) ==
            Some(m.(annotations := Some(m.annotations.value[key := v])))
  {
    EscapeRoundTrip(key);
    ApplyReplace(m, Escape(key), v);
  }

  /** The `replace` branch cannot work for the status annotation: its key has a slash that is not
      escaped, so the operation fails on every object. */
  lemma ReplaceStatusFails(m: Metadata, v: Value)
    ensures ApplyOp(m, PatchOperation("replace", ANNOTATIONS + "/" + STATUS_KEY, v)) == None
  {
    var path := ANNOTATIONS + "/" + STATUS_KEY;
    var rest := path[|ANNOTATIONS|..];
    assert rest == "/" + STATUS_KEY;
    assert rest[1..] == STATUS_KEY;
    assert STATUS_KEY[37] == '/';
  }
}
