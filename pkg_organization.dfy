/** pkg/resources/organization: the resource whose EnsureCreated annotates the
    record with the subscription id, creates the namespace (patching its labels
    one key at a time when it already exists) and writes status.namespace, and
    whose EnsureDeleted deletes the namespace unless it is already terminating. */
module PkgOrganization {
  import opened Meta
  import opened Api
  import Cluster

  // ----- resource.go

  const NamePrefix := "org-"

  const ForbiddenPrefixes: seq<string> := ["default", "kube-", "monitoring", "gatekeeper", "draughtsman"]

  datatype Config = Config(client: Handle, logger: Handle)

  datatype Resource = Resource(client: Handle, logger: Handle)

  /** New: a nil client or a zero logger is an invalid configuration;
      otherwise the resource keeps both. */
  function New(config: Config): (r: Result<Resource>)
    ensures r.Ok? <==> !config.client.Nil? && !config.logger.Nil?
    ensures r.Err? ==> r.error == InvalidConfig
    ensures r.Ok? ==> r.value.client == config.client && r.value.logger == config.logger
  {
    if config.client.Nil? then Err(InvalidConfig)
    else if config.logger.Nil? then Err(InvalidConfig)
    else Ok(Resource(config.client, config.logger))
  }

  /** newOrganizationNamespace: "org-<name>" with exactly the organization and
      managed-by labels. */
  function NewOrganizationNamespace(organizationName: string): (ns: Namespace)
    ensures ns.name == NamePrefix + organizationName
    ensures ns.labels.Keys == {OrganizationLabel, ManagedByLabel}
    ensures ns.labels[OrganizationLabel] == organizationName && ns.labels[ManagedByLabel] == ProjectName
    ensures ns.finalizers == [] && !ns.deleting && ns.owner.None?
  {
    Namespace(NamePrefix + organizationName,
      map[OrganizationLabel := organizationName, ManagedByLabel := ProjectName], [], false, None)
  }

  /** The prefix is a fixed concatenation, so distinct records get distinct namespaces. */
  lemma NamespaceNameInjective(a: string, b: string)
    ensures NewOrganizationNamespace(a).name == NewOrganizationNamespace(b).name ==> a == b
  {
    assert NewOrganizationNamespace(a).name[|NamePrefix|..] == a;
    assert NewOrganizationNamespace(b).name[|NamePrefix|..] == b;
  }

  /** The check is prefix matching: "defaultx" is forbidden, "giantswarm" is not. */
  lemma ForbiddenByPrefix()
    ensures HasAnyPrefix("defaultx", ForbiddenPrefixes)
    ensures !HasAnyPrefix("giantswarm", ForbiddenPrefixes)
  {
    assert HasPrefix("defaultx", ForbiddenPrefixes[0]);
    assert "giantswarm"[..7] != "default" by { assert "giantswarm"[0] != "default"[0]; }
    assert "giantswarm"[..5] != "kube-" by { assert "giantswarm"[0] != "kube-"[0]; }
    assert "giantswarm"[..10] != "monitoring" by { assert "giantswarm"[0] != "monitoring"[0]; }
    assert "giantswarm"[..10] != "gatekeeper" by { assert "giantswarm"[1] != "gatekeeper"[1]; }
  }

  // ----- create.go: findSecret

  const SubscriptionKey := "azure.azureoperator.subscriptionid"

  const SubscriptionAnnotation := "subscription"

  /** The labels of the organization's credentiald secret. */
  function CredentialSelector(orgName: string): map<string, string> {
    map["app" := "credentiald", OrganizationLabel := orgName]
  }

  /** No secret giantswarm/credential-default exists. */
  predicate NoDefaultSecret(secrets: seq<Secret>) {
    forall x :: x in secrets ==> x.namespace != "giantswarm" || x.name != "credential-default"
  }

  /** findSecret, lines 118-141: the first secret the selector picks, else the
      default secret, else secretNotFound. */
  function FindSecretSpec(s: State, orgName: string): (r: Effect<Result<Secret>>)
    ensures Unwritten(s, r.after)
    ensures r.out.Ok? ==> r.out.value in s.secrets
    ensures Failing(s) ==> r.out == Err(Other)
    ensures !Failing(s) && Matching(s.secrets, CredentialSelector(orgName)) != [] ==>
      r.out == Ok(Matching(s.secrets, CredentialSelector(orgName))[0])
    ensures !Failing(s) && Matching(s.secrets, CredentialSelector(orgName)) == [] ==>
      (FaultAt(s, 1) ==> r.out == Err(Other))
      && (!FaultAt(s, 1) ==>
            (r.out == Err(SecretNotFound) <==> NoDefaultSecret(s.secrets))
            && (r.out.Ok? || r.out == Err(SecretNotFound))
            && (r.out.Ok? ==> r.out.value.namespace == "giantswarm" && r.out.value.name == "credential-default"))
  {
    var listed := ListSecrets(s, CredentialSelector(orgName));
    if listed.out.Err? then Effect(listed.after, Err(listed.out.error))
    else if |listed.out.value| > 0 then Effect(listed.after, Ok(listed.out.value[0]))
    else
      var got := GetSecret(listed.after, "giantswarm", "credential-default");
      if got.out.Err? && IsNotFound(got.out.error) then Effect(got.after, Err(SecretNotFound))
      else if got.out.Err? then Effect(got.after, Err(got.out.error))
      else Effect(got.after, Ok(got.out.value))
  }

  /** findSecret prefers the first organization-labelled credentiald secret in list order. */
  lemma FindSecretPrefersFirstLabelled(s: State, orgName: string, i: nat)
    requires !Failing(s) && i < |s.secrets| && Selects(CredentialSelector(orgName), s.secrets[i])
    requires forall j :: 0 <= j < i ==> !Selects(CredentialSelector(orgName), s.secrets[j])
    ensures FindSecretSpec(s, orgName).out == Ok(s.secrets[i])
  {
    MatchingFirst(s.secrets, CredentialSelector(orgName), i);
  }

  // ----- create.go: ensureOrganizationHasSubscriptionIdAnnotation

  /** The secret carries a non-empty subscription id. */
  predicate HasSubscription(secret: Secret) {
    SubscriptionKey in secret.data && |secret.data[SubscriptionKey]| > 0
  }

  /** The annotations of a record, Go's nil map read as empty. */
  function AnnotationsOf(o: Organization): map<string, string> {
    if o.annotations.Some? then o.annotations.value else map[]
  }

  /** ensureOrganizationHasSubscriptionIdAnnotation, lines 62-90. */
  function AnnotationSpec(s: State, org: Organization): (r: Effect<Option<Error>>)
    ensures Extends(s, r.after) && RecordOnly(s, r.after, org.name)
    ensures r.after.log == s.log || r.after.log == s.log + [OrgMetadata(org.name)]
    // a missing secret is not an error and writes nothing; other lookup errors are returned
    ensures FindSecretSpec(s, org.name).out == Err(SecretNotFound) ==> r.out.None? && Unwritten(s, r.after)
    ensures FindSecretSpec(s, org.name).out.Err? && FindSecretSpec(s, org.name).out.error != SecretNotFound ==>
      r.out == Some(FindSecretSpec(s, org.name).out.error) && Unwritten(s, r.after)
    // the annotation is written if and only if the secret found has a non-empty subscription id
    ensures FindSecretSpec(s, org.name).out.Ok? ==>
      (r.after.log == s.log + [OrgMetadata(org.name)] <==> HasSubscription(FindSecretSpec(s, org.name).out.value))
    ensures FindSecretSpec(s, org.name).out.Ok? && !HasSubscription(FindSecretSpec(s, org.name).out.value) ==>
      r.out.None?
    // when written, it holds the secret's value and the other annotations stay
    ensures r.out.None? && r.after.log != s.log && org.name in s.orgs ==>
      var value := FindSecretSpec(s, org.name).out.value.data[SubscriptionKey];
      org.name in r.after.orgs
      && r.after.orgs[org.name]
         == s.orgs[org.name].(annotations := Some(AnnotationsOf(s.orgs[org.name])[SubscriptionAnnotation := value]))
  {
    var found := FindSecretSpec(s, org.name);
    if found.out.Err? then
      if found.out.error == SecretNotFound then Effect(found.after, None) else Effect(found.after, Some(found.out.error))
    else if HasSubscription(found.out.value) then
      PatchOrganizationAnnotation(found.after, org.name, SubscriptionAnnotation, found.out.value.data[SubscriptionKey])
    else Effect(found.after, None)
  }

  // ----- create.go: ensureOrganizationNamespaceHasOrganizationLabels

  /** The label patches the loop issues when it visits the keys in `order`:
      one for each key whose current value differs from the desired one. */
  function Patches(name: string, current: map<string, string>, desired: map<string, string>, order: seq<string>)
    : (r: seq<Write>)
    ensures forall w :: w in r ==>
      w.NsLabelPatch? && w.ns == name && w.key in order
      && w.value == LabelValue(desired, w.key) && LabelValue(current, w.key) != w.value
    ensures forall k :: k in order && LabelValue(current, k) != LabelValue(desired, k) ==>
      NsLabelPatch(name, k, LabelValue(desired, k)) in r
    decreases |order|
  {
    if order == [] then []
    else
      var k := order[|order| - 1];
      Patches(name, current, desired, order[..|order| - 1])
      + (if LabelValue(current, k) != LabelValue(desired, k) then [NsLabelPatch(name, k, LabelValue(desired, k))] else [])
  }

  /** The loop of lines 101-111 over the keys in `order`, comparing the
      labels `current` read before the loop with the desired values; the first
      failed patch ends it. This is the corrected loop: each value is the
      desired one, not the server's value decoded into the local object by an
      earlier patch (see PatchLoopAsWritten). */
  function PatchLoop(s: State, name: string, current: map<string, string>, desired: map<string, string>, order: seq<string>)
    : (r: Effect<Option<Error>>)
    ensures Extends(s, r.after) && NamespaceOnly(s, r.after, name)
    decreases |order|
  {
    if order == [] then Effect(s, None)
    else
      var e := PatchLoop(s, name, current, desired, order[..|order| - 1]);
      var k := order[|order| - 1];
      if e.out.Some? then e
      else if LabelValue(current, k) != LabelValue(desired, k) then
        PatchNamespaceLabel(e.after, name, k, LabelValue(desired, k))
      else e
  }

  /** A loop that ends without error has issued exactly the patches of the keys that differ. */
  lemma {:induction false} PatchLoopLog(s: State, name: string, current: map<string, string>,
                                        desired: map<string, string>, order: seq<string>)
    ensures var r := PatchLoop(s, name, current, desired, order);
      r.out.None? ==> r.after.log == s.log + Patches(name, current, desired, order)
    decreases |order|
  {
    if order != [] {
      PatchLoopLog(s, name, current, desired, order[..|order| - 1]);
    }
  }

  /** Whatever happens, the loop only issues label patches of the namespace. */
  lemma {:induction false} PatchLoopOnlyPatches(s: State, name: string, current: map<string, string>,
                                                desired: map<string, string>, order: seq<string>)
    ensures forall i :: |s.log| <= i < |PatchLoop(s, name, current, desired, order).after.log| ==>
      PatchLoop(s, name, current, desired, order).after.log[i].NsLabelPatch?
      && PatchLoop(s, name, current, desired, order).after.log[i].ns == name
    decreases |order|
  {
    if order != [] {
      var prefix := order[..|order| - 1];
      var k := order[|order| - 1];
      PatchLoopOnlyPatches(s, name, current, desired, prefix);
      var e := PatchLoop(s, name, current, desired, prefix);
      if e.out.None? && LabelValue(current, k) != LabelValue(desired, k) {
        var r := PatchNamespaceLabel(e.after, name, k, LabelValue(desired, k));
        assert PatchLoop(s, name, current, desired, order) == r;
        assert forall i :: |s.log| <= i < |e.after.log| ==> r.after.log[i] == e.after.log[i];
      } else {
        assert PatchLoop(s, name, current, desired, order) == e;
        assert forall i :: |s.log| <= i < |e.after.log| ==> e.after.log[i].NsLabelPatch? && e.after.log[i].ns == name;
      }
    }
  }

  /** `after` is `before` with each key of `order` set to its desired value
      and every other label, and every other field, left as it was. */
  ghost predicate PatchedFrom(before: Namespace, after: Namespace, desired: map<string, string>, order: seq<string>) {
    after.(labels := before.labels) == before
    && (forall k :: k in order ==> LabelValue(after.labels, k) == LabelValue(desired, k))
    && (forall k :: k !in order ==> (k in after.labels <==> k in before.labels))
    && (forall k :: k !in order && k in before.labels ==> after.labels[k] == before.labels[k])
  }

  /** A loop that ends without error leaves each visited key with its desired
      value and every other label, and every other field, as it was. */
  lemma {:induction false} PatchLoopLabels(s: State, name: string, current: map<string, string>,
                                           desired: map<string, string>, order: seq<string>)
    requires name in s.namespaces && s.namespaces[name].labels == current
    ensures PatchLoop(s, name, current, desired, order).out.None? ==>
      name in PatchLoop(s, name, current, desired, order).after.namespaces
      && PatchedFrom(s.namespaces[name], PatchLoop(s, name, current, desired, order).after.namespaces[name], desired, order)
    decreases |order|
  {
    if order != [] {
      var prefix := order[..|order| - 1];
      var k := order[|order| - 1];
      assert order == prefix + [k];
      PatchLoopLabels(s, name, current, desired, prefix);
      var e := PatchLoop(s, name, current, desired, prefix);
      if e.out.None? && LabelValue(current, k) != LabelValue(desired, k) {
        var before := e.after.namespaces[name];
        var r := PatchNamespaceLabel(e.after, name, k, LabelValue(desired, k));
        assert PatchLoop(s, name, current, desired, order) == r;
        if r.out.None? {
          PatchedFromStep(s.namespaces[name], before, r.after.namespaces[name], desired, prefix, k);
        }
      } else {
        assert PatchLoop(s, name, current, desired, order) == e;
      }
    }
  }

  /** Setting one more key to its desired value extends PatchedFrom by that key. */
  lemma PatchedFromStep(start: Namespace, before: Namespace, after: Namespace,
                        desired: map<string, string>, prefix: seq<string>, k: string)
    requires PatchedFrom(start, before, desired, prefix)
    requires after == before.(labels := before.labels[k := LabelValue(desired, k)])
    ensures PatchedFrom(start, after, desired, prefix + [k])
  {
    forall j | j in prefix + [k]
      ensures LabelValue(after.labels, j) == LabelValue(desired, j)
    {
      if j != k {
        assert j in prefix;
      }
    }
  }

  /** Without failures the loop over an existing namespace succeeds. */
  lemma {:induction false} PatchLoopProgress(s: State, name: string, current: map<string, string>,
                                             desired: map<string, string>, order: seq<string>)
    requires s.faults == [] && name in s.namespaces
    ensures var r := PatchLoop(s, name, current, desired, order);
      r.out.None? && r.after.faults == [] && name in r.after.namespaces
    decreases |order|
  {
    if order != [] {
      PatchLoopProgress(s, name, current, desired, order[..|order| - 1]);
    }
  }

  /** Once a patch has failed, visiting more keys changes nothing. */
  lemma {:induction false} PatchLoopStops(s: State, name: string, current: map<string, string>,
                                          desired: map<string, string>, done: seq<string>, rest: seq<string>)
    requires PatchLoop(s, name, current, desired, done).out.Some?
    ensures PatchLoop(s, name, current, desired, done + rest) == PatchLoop(s, name, current, desired, done)
    decreases |rest|
  {
    if rest == [] {
      assert done + rest == done;
    } else {
      var shorter := rest[..|rest| - 1];
      assert (done + rest)[..|done + rest| - 1] == done + shorter;
      PatchLoopStops(s, name, current, desired, done, shorter);
    }
  }

  /** ensureOrganizationNamespaceHasOrganizationLabels, lines 92-116. */
  function LabelsSpec(s: State, ns: Namespace, order: seq<string>): (r: Effect<Option<Error>>)
    ensures Extends(s, r.after) && NamespaceOnly(s, r.after, ns.name)
    ensures Failing(s) ==> r.out == Some(Other) && Unwritten(s, r.after)
    ensures !Failing(s) && ns.name !in s.namespaces ==> r.out == Some(NotFound) && Unwritten(s, r.after)
  {
    var got := GetNamespace(s, ns.name);
    if got.out.Err? then Effect(got.after, Some(got.out.error))
    else PatchLoop(got.after, ns.name, got.out.value.labels, ns.labels, order)
  }

  /** `after` is `before` with every key of `desired` carrying its desired
      value, no other label changed and no other field changed. */
  ghost predicate Reconciled(before: Namespace, after: Namespace, desired: map<string, string>) {
    after.(labels := before.labels) == before
    && (forall k :: k in desired ==> LabelValue(after.labels, k) == desired[k])
    && (forall k :: k !in desired ==> (k in after.labels <==> k in before.labels))
    && (forall k :: k !in desired && k in before.labels ==> after.labels[k] == before.labels[k])
  }

  /** After a successful label step only keys whose value differed were patched,
      every desired key has its desired value, and labels outside the desired
      set are untouched. */
  lemma LabelsConverged(s: State, ns: Namespace, order: seq<string>)
    requires KeyOrder(order, ns.labels)
    ensures LabelsSpec(s, ns, order).out.None? ==>
      ns.name in s.namespaces && ns.name in LabelsSpec(s, ns, order).after.namespaces
      && LabelsSpec(s, ns, order).after.log == s.log + Patches(ns.name, s.namespaces[ns.name].labels, ns.labels, order)
      && Reconciled(s.namespaces[ns.name], LabelsSpec(s, ns, order).after.namespaces[ns.name], ns.labels)
  {
    var got := GetNamespace(s, ns.name);
    if got.out.Ok? {
      var current := got.out.value.labels;
      PatchLoopLog(got.after, ns.name, current, ns.labels, order);
      PatchLoopLabels(got.after, ns.name, current, ns.labels, order);
      var r := PatchLoop(got.after, ns.name, current, ns.labels, order);
      if r.out.None? {
        assert PatchedFrom(s.namespaces[ns.name], r.after.namespaces[ns.name], ns.labels, order);
      }
    }
  }

  /** Without failures the label step on an existing namespace succeeds. */
  lemma LabelsProgress(s: State, ns: Namespace, order: seq<string>)
    requires s.faults == [] && ns.name in s.namespaces
    ensures var r := LabelsSpec(s, ns, order); r.out.None? && r.after.faults == [] && ns.name in r.after.namespaces
  {
    PatchLoopProgress(s, ns.name, s.namespaces[ns.name].labels, ns.labels, order);
  }

  // ----- create.go: the label loop as written

  /** The labels of the local object after a patch response is decoded into
      it: the decoder reuses the map, sets every key the response carries to
      the server's value and keeps the other entries. */
  function Decoded(values: map<string, string>, response: map<string, string>): (r: map<string, string>)
    ensures r.Keys == values.Keys + response.Keys
    ensures forall k :: k in response ==> r[k] == response[k]
    ensures forall k :: k in values && k !in response ==> r[k] == values[k]
  {
    map k | k in values.Keys + response.Keys :: if k in response then response[k] else values[k]
  }

  /** Where the loop as written stands: its error, and the labels of the
      local object the range reads its values from. */
  datatype Pass = Pass(err: Option<Error>, values: map<string, string>)

  /** Lines 100-110 as written: the value of a key is read from the local
      object's labels when the range reaches it, and every successful patch
      decodes the server's labels into those same labels. */
  function PatchLoopAsWritten(s: State, name: string, current: map<string, string>,
                              desired: map<string, string>, order: seq<string>): (r: Effect<Pass>)
    ensures Extends(s, r.after) && NamespaceOnly(s, r.after, name)
    ensures forall i :: |s.log| <= i < |r.after.log| ==> r.after.log[i].NsLabelPatch? && r.after.log[i].ns == name
    decreases |order|
  {
    if order == [] then Effect(s, Pass(None, desired))
    else
      var e := PatchLoopAsWritten(s, name, current, desired, order[..|order| - 1]);
      var k := order[|order| - 1];
      if e.out.err.Some? || LabelValue(current, k) == LabelValue(e.out.values, k) then e
      else
        var p := PatchNamespaceLabel(e.after, name, k, LabelValue(e.out.values, k));
        if p.out.Some? then Effect(p.after, Pass(p.out, e.out.values))
        else Effect(p.after, Pass(None, Decoded(e.out.values, p.after.namespaces[name].labels)))
  }

  /** ensureOrganizationNamespaceHasOrganizationLabels as written, lines 92-116. */
  function LabelsAsWrittenSpec(s: State, ns: Namespace, order: seq<string>): (r: Effect<Option<Error>>)
    ensures Extends(s, r.after) && NamespaceOnly(s, r.after, ns.name)
    ensures Failing(s) ==> r.out == Some(Other) && Unwritten(s, r.after)
    ensures !Failing(s) && ns.name !in s.namespaces ==> r.out == Some(NotFound) && Unwritten(s, r.after)
  {
    var got := GetNamespace(s, ns.name);
    if got.out.Err? then Effect(got.after, Some(got.out.error))
    else
      var loop := PatchLoopAsWritten(got.after, ns.name, got.out.value.labels, ns.labels, order);
      Effect(loop.after, loop.out.err)
  }

  /** Until its first patch the loop as written reads the desired values and
      so does what the corrected loop does. */
  lemma {:induction false} AsWrittenAgreesBeforeFirstPatch(s: State, name: string, current: map<string, string>,
                                                           desired: map<string, string>, order: seq<string>)
    requires Patches(name, current, desired, order) == []
    ensures PatchLoopAsWritten(s, name, current, desired, order) == Effect(s, Pass(None, desired))
    ensures PatchLoop(s, name, current, desired, order) == Effect(s, None)
    decreases |order|
  {
    if order != [] {
      var prefix := order[..|order| - 1];
      var k := order[|order| - 1];
      assert Patches(name, current, desired, prefix) == [];
      AsWrittenAgreesBeforeFirstPatch(s, name, current, desired, prefix);
    }
  }

  /** The namespace of the counterexample: both labels differ from the desired ones. */
  function DriftedNamespace(): (ns: Namespace)
    ensures ns.name == NewOrganizationNamespace("acme").name
    ensures ns.labels.Keys == NewOrganizationNamespace("acme").labels.Keys
    ensures forall k :: k in ns.labels ==> ns.labels[k] != NewOrganizationNamespace("acme").labels[k]
  {
    Namespace("org-acme", map[OrganizationLabel := "x", ManagedByLabel := "y"], [], false, None)
  }

  /** A store holding only that namespace, with no failure scheduled. */
  function DriftedState(): (s: State)
    ensures s.faults == [] && s.log == [] && s.namespaces == map["org-acme" := DriftedNamespace()]
  {
    State(map[], map["org-acme" := DriftedNamespace()], [], {}, [], [])
  }

  /** The first key the loop as written visits is patched, and the server's
      labels are decoded into the local object. */
  lemma AsWrittenFirstVisit(k0: string)
    requires k0 in NewOrganizationNamespace("acme").labels
    ensures var desired := NewOrganizationNamespace("acme").labels;
      var patched := DriftedNamespace().labels[k0 := desired[k0]];
      var r := PatchLoopAsWritten(DriftedState(), "org-acme", DriftedNamespace().labels, desired, [k0]);
      r.out == Pass(None, Decoded(desired, patched)) && |r.after.log| == 1
      && "org-acme" in r.after.namespaces && r.after.namespaces["org-acme"].labels == patched
  {
    var s := DriftedState();
    var desired := NewOrganizationNamespace("acme").labels;
    var stored := DriftedNamespace();
    assert Next(s) == s;
    assert [k0][..0] == [];
    assert PatchLoopAsWritten(s, "org-acme", stored.labels, desired, []) == Effect(s, Pass(None, desired));
    assert LabelValue(stored.labels, k0) != LabelValue(desired, k0);
  }

  /** The loop as written over both drifted labels: the first key it visits is
      patched, and the value it then compares for the second is the server's
      own, decoded from the first response, so the second label stays. */
  lemma AsWrittenLoopPatchesOnce(k0: string, k1: string)
    requires k0 in NewOrganizationNamespace("acme").labels && k1 in NewOrganizationNamespace("acme").labels && k0 != k1
    ensures var s := DriftedState();
      var r := PatchLoopAsWritten(s, "org-acme", DriftedNamespace().labels, NewOrganizationNamespace("acme").labels, [k0, k1]);
      r.out.err.None? && |r.after.log| == 1 && "org-acme" in r.after.namespaces
      && LabelValue(r.after.namespaces["org-acme"].labels, k1) == LabelValue(DriftedNamespace().labels, k1)
  {
    var desired := NewOrganizationNamespace("acme").labels;
    var stored := DriftedNamespace();
    AsWrittenFirstVisit(k0);
    var one := PatchLoopAsWritten(DriftedState(), "org-acme", stored.labels, desired, [k0]);
    var patched := stored.labels[k0 := desired[k0]];
    assert k1 in patched && patched[k1] == stored.labels[k1];
    assert LabelValue(one.out.values, k1) == LabelValue(stored.labels, k1);
    assert [k0, k1][..1] == [k0];
    AsWrittenSkips(DriftedState(), "org-acme", stored.labels, desired, [k0, k1]);
  }

  /** A key whose value in the local object equals the one read before the
      loop issues nothing. */
  lemma AsWrittenSkips(s: State, name: string, current: map<string, string>,
                       desired: map<string, string>, order: seq<string>)
    requires order != []
    requires var e := PatchLoopAsWritten(s, name, current, desired, order[..|order| - 1]);
      e.out.err.None? && LabelValue(current, order[|order| - 1]) == LabelValue(e.out.values, order[|order| - 1])
    ensures PatchLoopAsWritten(s, name, current, desired, order)
         == PatchLoopAsWritten(s, name, current, desired, order[..|order| - 1])
  {
  }

  /** When every visited key differs, the loop patches every one of them. */
  lemma {:induction false} PatchesWhenAllDiffer(name: string, current: map<string, string>,
                                                desired: map<string, string>, order: seq<string>)
    requires forall k :: k in order ==> LabelValue(current, k) != LabelValue(desired, k)
    ensures |Patches(name, current, desired, order)| == |order|
    decreases |order|
  {
    if order != [] {
      var prefix := order[..|order| - 1];
      assert forall k :: k in prefix ==> k in order;
      assert order[|order| - 1] in order;
      PatchesWhenAllDiffer(name, current, desired, prefix);
    }
  }

  /** Reconciling a namespace that has exactly the desired keys, to values
      that are not empty, leaves exactly the desired labels. */
  lemma ReconciledExactly(before: Namespace, after: Namespace, desired: map<string, string>)
    requires Reconciled(before, after, desired) && before.labels.Keys == desired.Keys
    requires forall k :: k in desired ==> desired[k] != ""
    ensures after.labels == desired
  {
  }

  /** The corrected loop over the same namespace, in any order of the range,
      patches both labels. */
  lemma CorrectedLoopPatchesBoth(order: seq<string>)
    requires KeyOrder(order, NewOrganizationNamespace("acme").labels)
    ensures var ns := NewOrganizationNamespace("acme");
      var r := LabelsSpec(DriftedState(), ns, order);
      r.out.None? && |r.after.log| == |order| && ns.name in r.after.namespaces && r.after.namespaces[ns.name].labels == ns.labels
  {
    var ns := NewOrganizationNamespace("acme");
    var s := DriftedState();
    var stored := DriftedNamespace();
    assert ns.name in s.namespaces && s.namespaces[ns.name] == stored;
    LabelsConverged(s, ns, order);
    LabelsProgress(s, ns, order);
    PatchesWhenAllDiffer(ns.name, stored.labels, ns.labels, order);
    var r := LabelsSpec(s, ns, order);
    assert r.after.log == s.log + Patches(ns.name, stored.labels, ns.labels, order);
    ReconciledExactly(stored, r.after.namespaces[ns.name], ns.labels);
  }

  /** With both labels drifted, and in either order of the range, the label
      step as written issues one patch and leaves the second label as it was;
      the corrected step patches both. */
  lemma AsWrittenLeavesSecondLabel(order: seq<string>)
    requires order == [OrganizationLabel, ManagedByLabel] || order == [ManagedByLabel, OrganizationLabel]
    ensures var ns := NewOrganizationNamespace("acme");
      var asWritten := LabelsAsWrittenSpec(DriftedState(), ns, order);
      var corrected := LabelsSpec(DriftedState(), ns, order);
      asWritten.out.None? && |asWritten.after.log| == 1 && ns.name in asWritten.after.namespaces
      && LabelValue(asWritten.after.namespaces[ns.name].labels, order[1]) == LabelValue(DriftedNamespace().labels, order[1])
      && corrected.out.None? && |corrected.after.log| == 2
      && ns.name in corrected.after.namespaces && corrected.after.namespaces[ns.name].labels == ns.labels
  {
    var s := DriftedState();
    var ns := NewOrganizationNamespace("acme");
    assert Next(s) == s && order == [order[0], order[1]];
    assert GetNamespace(s, ns.name) == Effect(s, Ok(DriftedNamespace()));
    var loop := PatchLoopAsWritten(s, ns.name, DriftedNamespace().labels, ns.labels, order);
    assert LabelsAsWrittenSpec(s, ns, order) == Effect(loop.after, loop.out.err);
    AsWrittenLoopPatchesOnce(order[0], order[1]);
    assert KeyOrder(order, NewOrganizationNamespace("acme").labels);
    CorrectedLoopPatchesBoth(order);
  }

  // ----- create.go: EnsureCreated

  /** Lines 37-45: the namespace Create, with label reconciliation when it already exists. */
  function CreateAndLabelSpec(s: State, ns: Namespace, order: seq<string>): (r: Effect<Option<Error>>)
    ensures Extends(s, r.after) && NamespaceOnly(s, r.after, ns.name)
  {
    var created := CreateNamespace(s, ns);
    if created.out.Some? && IsAlreadyExists(created.out.value) then LabelsSpec(created.after, ns, order) else created
  }

  /** The namespace and status steps that follow a successful annotation. */
  function AnnotatedStepsSpec(s: State, org: Organization, order: seq<string>): (r: Effect<Option<Error>>)
    ensures Extends(s, r.after) && OnlyTouches(s, r.after, org.name, NewOrganizationNamespace(org.name).name)
  {
    var ns := NewOrganizationNamespace(org.name);
    var labelled := CreateAndLabelSpec(s, ns, order);
    if labelled.out.Some? then labelled
    else SetOrganizationStatus(labelled.after, org.name, ns.name)
  }

  /** The part of EnsureCreated after the prefix check: annotation, namespace, status patch. */
  function CreateStepsSpec(s: State, org: Organization, order: seq<string>): (r: Effect<Option<Error>>)
    ensures Extends(s, r.after) && OnlyTouches(s, r.after, org.name, NewOrganizationNamespace(org.name).name)
  {
    var annotated := AnnotationSpec(s, org);
    if annotated.out.Some? then annotated else AnnotatedStepsSpec(annotated.after, org, order)
  }

  /** EnsureCreated, lines 19-60, for a run whose label loop visits the keys in `order`. */
  function EnsureCreatedSpec(s: State, org: Organization, order: seq<string>): (r: Effect<Option<Error>>)
    // a forbidden name is accepted without any call
    ensures HasAnyPrefix(org.name, ForbiddenPrefixes) ==> r == Effect(s, None)
    ensures Extends(s, r.after) && OnlyTouches(s, r.after, org.name, NewOrganizationNamespace(org.name).name)
  {
    if HasAnyPrefix(org.name, ForbiddenPrefixes) then Effect(s, None) else CreateStepsSpec(s, org, order)
  }

  /** An error in one step of EnsureCreated ends it: a failed annotation step
      stops before the namespace, a create error other than AlreadyExists is
      returned before the status, AlreadyExists leads to label reconciliation
      and a failure there is returned before the status. */
  lemma EnsureCreatedStopsAtFirstError(s: State, org: Organization, order: seq<string>)
    requires !HasAnyPrefix(org.name, ForbiddenPrefixes)
    ensures var r := EnsureCreatedSpec(s, org, order);
      var annotated := AnnotationSpec(s, org);
      var ns := NewOrganizationNamespace(org.name);
      var created := CreateNamespace(annotated.after, ns);
      (annotated.out.Some? ==> r == annotated)
      && (annotated.out.None? && created.out.Some? && !IsAlreadyExists(created.out.value) ==> r == created)
      && (annotated.out.None? && created.out == Some(AlreadyExists) ==>
            var labelled := LabelsSpec(created.after, ns, order);
            (labelled.out.Some? ==> r == labelled)
            && (labelled.out.None? ==> r == SetOrganizationStatus(labelled.after, org.name, ns.name)))
      && (annotated.out.None? && created.out.None? ==> r == SetOrganizationStatus(created.after, org.name, ns.name))
  {
  }

  /** The namespace step only issues writes to the namespace. */
  lemma CreateAndLabelWrites(s: State, ns: Namespace, order: seq<string>)
    ensures var t := CreateAndLabelSpec(s, ns, order).after;
      forall i :: |s.log| <= i < |t.log| ==> IsNamespaceWrite(t.log[i]) && t.log[i].ns == ns.name
  {
    var created := CreateNamespace(s, ns);
    assert created.after.log == s.log + [NsCreate(ns.name)];
    if created.out.Some? && IsAlreadyExists(created.out.value) {
      var got := GetNamespace(created.after, ns.name);
      if got.out.Ok? {
        PatchLoopOnlyPatches(got.after, ns.name, got.out.value.labels, ns.labels, order);
      }
    }
  }

  /** The writes of EnsureCreated come in the order annotation patch, then
      namespace writes, then the status patch. */
  lemma EnsureCreatedWritesInOrder(s: State, org: Organization, order: seq<string>) returns (k1: nat, k2: nat)
    ensures var t := EnsureCreatedSpec(s, org, order).after;
      |s.log| <= k1 <= k2 <= |t.log|
      && (forall i :: |s.log| <= i < k1 ==> t.log[i] == OrgMetadata(org.name))
      && (forall i :: k1 <= i < k2 ==> IsNamespaceWrite(t.log[i]) && t.log[i].ns == NewOrganizationNamespace(org.name).name)
      && (forall i :: k2 <= i < |t.log| ==> t.log[i] == OrgStatus(org.name))
  {
    if HasAnyPrefix(org.name, ForbiddenPrefixes) {
      k1, k2 := |s.log|, |s.log|;
    } else {
      k1, k2 := CreateStepsWritesInOrder(s, org, order);
    }
  }

  /** The ordering of the writes of the steps after the prefix check. */
  lemma CreateStepsWritesInOrder(s: State, org: Organization, order: seq<string>) returns (k1: nat, k2: nat)
    ensures var t := CreateStepsSpec(s, org, order).after;
      |s.log| <= k1 <= k2 <= |t.log|
      && (forall i :: |s.log| <= i < k1 ==> t.log[i] == OrgMetadata(org.name))
      && (forall i :: k1 <= i < k2 ==> IsNamespaceWrite(t.log[i]) && t.log[i].ns == NewOrganizationNamespace(org.name).name)
      && (forall i :: k2 <= i < |t.log| ==> t.log[i] == OrgStatus(org.name))
  {
    AnnotationWrites(s, org);
    k1 := |AnnotationSpec(s, org).after.log|;
    if AnnotationSpec(s, org).out.Some? {
      k2 := k1;
      assert CreateStepsSpec(s, org, order) == AnnotationSpec(s, org);
    } else {
      k2 := AnnotatedStepsWritesInOrder(s, org, order);
    }
  }

  /** The same ordering once the annotation step has succeeded. */
  lemma AnnotatedStepsWritesInOrder(s: State, org: Organization, order: seq<string>) returns (k2: nat)
    requires AnnotationSpec(s, org).out.None?
    ensures var t := CreateStepsSpec(s, org, order).after;
      var k1 := |AnnotationSpec(s, org).after.log|;
      k1 <= k2 <= |t.log|
      && (forall i :: |s.log| <= i < k1 ==> t.log[i] == AnnotationSpec(s, org).after.log[i])
      && (forall i :: k1 <= i < k2 ==> IsNamespaceWrite(t.log[i]) && t.log[i].ns == NewOrganizationNamespace(org.name).name)
      && (forall i :: k2 <= i < |t.log| ==> t.log[i] == OrgStatus(org.name))
  {
    var annotated := AnnotationSpec(s, org).after;
    var ns := NewOrganizationNamespace(org.name);
    var labelled := CreateAndLabelSpec(annotated, ns, order);
    CreateAndLabelWrites(annotated, ns, order);
    k2 := |labelled.after.log|;
    LogPrefix(annotated.log, labelled.after.log);
    var t := CreateStepsSpec(s, org, order).after;
    if labelled.out.None? {
      assert t.log == labelled.after.log + [OrgStatus(org.name)];
      LogPrefix(labelled.after.log, t.log);
    } else {
      assert t == labelled.after;
    }
  }

  /** The annotation step writes at most the record's metadata. */
  lemma AnnotationWrites(s: State, org: Organization)
    ensures var t := AnnotationSpec(s, org).after;
      |s.log| <= |t.log| && forall i :: |s.log| <= i < |t.log| ==> t.log[i] == OrgMetadata(org.name)
  {
  }

  /** A log that extends another agrees with it on its entries. */
  lemma LogPrefix(a: seq<Write>, b: seq<Write>)
    requires a <= b
    ensures forall i :: 0 <= i < |a| ==> b[i] == a[i]
  {
  }

  /** After a successful namespace step the namespace exists and carries every desired label. */
  lemma CreateAndLabelConverged(s: State, ns: Namespace, order: seq<string>)
    requires KeyOrder(order, ns.labels)
    ensures CreateAndLabelSpec(s, ns, order).out.None? ==>
      ns.name in CreateAndLabelSpec(s, ns, order).after.namespaces
      && forall k :: k in ns.labels ==>
           LabelValue(CreateAndLabelSpec(s, ns, order).after.namespaces[ns.name].labels, k) == ns.labels[k]
  {
    var created := CreateNamespace(s, ns);
    if created.out.Some? && IsAlreadyExists(created.out.value) {
      LabelsConverged(created.after, ns, order);
    }
  }

  /** After a successful EnsureCreated of an allowed name, status.namespace is
      the derived name and the namespace carries both labels. */
  lemma EnsureCreatedConverged(s: State, org: Organization, order: seq<string>)
    requires !HasAnyPrefix(org.name, ForbiddenPrefixes) && KeyOrder(order, NewOrganizationNamespace(org.name).labels)
    ensures var r := EnsureCreatedSpec(s, org, order);
      var ns := NewOrganizationNamespace(org.name);
      r.out.None? ==>
        org.name in r.after.orgs && r.after.orgs[org.name].statusNamespace == ns.name
        && ns.name in r.after.namespaces
        && LabelValue(r.after.namespaces[ns.name].labels, OrganizationLabel) == org.name
        && LabelValue(r.after.namespaces[ns.name].labels, ManagedByLabel) == ProjectName
  {
    assert EnsureCreatedSpec(s, org, order) == CreateStepsSpec(s, org, order);
    var annotated := AnnotationSpec(s, org);
    if annotated.out.None? {
      AnnotatedStepsConverged(annotated.after, org, order);
      assert CreateStepsSpec(s, org, order) == AnnotatedStepsSpec(annotated.after, org, order);
    }
  }

  /** After the namespace and status steps succeed, the status names the
      namespace and the namespace carries both labels. */
  lemma AnnotatedStepsConverged(s: State, org: Organization, order: seq<string>)
    requires KeyOrder(order, NewOrganizationNamespace(org.name).labels)
    ensures var r := AnnotatedStepsSpec(s, org, order);
      var ns := NewOrganizationNamespace(org.name);
      r.out.None? ==>
        org.name in r.after.orgs && r.after.orgs[org.name].statusNamespace == ns.name
        && ns.name in r.after.namespaces
        && LabelValue(r.after.namespaces[ns.name].labels, OrganizationLabel) == org.name
        && LabelValue(r.after.namespaces[ns.name].labels, ManagedByLabel) == ProjectName
  {
    var ns := NewOrganizationNamespace(org.name);
    CreateAndLabelConverged(s, ns, order);
    var labelled := CreateAndLabelSpec(s, ns, order);
    if labelled.out.None? {
      assert OrganizationLabel in ns.labels && ManagedByLabel in ns.labels;
      var r := SetOrganizationStatus(labelled.after, org.name, ns.name);
      assert r.after.namespaces == labelled.after.namespaces;
    }
  }

  /** Without failures EnsureCreated of an allowed name that is in the store succeeds. */
  lemma EnsureCreatedProgress(s: State, org: Organization, order: seq<string>)
    requires s.faults == [] && org.name in s.orgs && !HasAnyPrefix(org.name, ForbiddenPrefixes)
    ensures EnsureCreatedSpec(s, org, order).out.None?
  {
    var found := FindSecretSpec(s, org.name);
    assert found.out.Ok? || found.out == Err(SecretNotFound);
    var annotated := AnnotationSpec(s, org);
    assert annotated.out.None? && annotated.after.faults == [] && org.name in annotated.after.orgs;
    var ns := NewOrganizationNamespace(org.name);
    var created := CreateNamespace(annotated.after, ns);
    if created.out.Some? {
      LabelsProgress(created.after, ns, order);
    }
  }

  // ----- delete.go

  /** EnsureDeleted, lines 14-41. */
  function EnsureDeletedSpec(s: State, org: Organization): (r: Effect<Option<Error>>)
    ensures var name := NewOrganizationNamespace(org.name).name;
      Extends(s, r.after) && NamespaceOnly(s, r.after, name)
    // NotFound is success; other errors are returned
    ensures r.out.Some? ==> !IsNotFound(r.out.value)
    ensures Failing(s) ==> r.out == Some(Other) && Unwritten(s, r.after)
    // absent: nil and no delete
    ensures !Failing(s) && NewOrganizationNamespace(org.name).name !in s.namespaces ==> r == Effect(Next(s), None)
    // already terminating: nil and no delete
    ensures var name := NewOrganizationNamespace(org.name).name;
      !Failing(s) && name in s.namespaces && s.namespaces[name].deleting ==> r == Effect(Next(s), None)
    // present and live: exactly one delete
    ensures var name := NewOrganizationNamespace(org.name).name;
      !Failing(s) && name in s.namespaces && !s.namespaces[name].deleting ==>
        r.after.log == s.log + [NsDelete(name)] && (r.out.None? <==> !FaultAt(s, 1))
        && (r.out.None? ==> name !in r.after.namespaces || r.after.namespaces[name].deleting)
  {
    var orgNamespace := NewOrganizationNamespace(org.name);
    var got := GetNamespace(s, orgNamespace.name);
    var result := if got.out.Err? then Effect(got.after, Some(got.out.error))
                  else if got.out.value.deleting then Effect(got.after, None)
                  else DeleteNamespace(got.after, orgNamespace.name);
    if result.out.Some? && IsNotFound(result.out.value) then Effect(result.after, None) else result
  }

  /** Once EnsureDeleted has succeeded, another run is a write-free success. */
  lemma EnsureDeletedIdempotent(s: State, org: Organization)
    requires s.faults == []
    ensures var first := EnsureDeletedSpec(s, org);
      first.out.None? && EnsureDeletedSpec(first.after, org) == Effect(first.after, None)
  {
    var name := NewOrganizationNamespace(org.name).name;
    var first := EnsureDeletedSpec(s, org);
    assert first.after.faults == [];
    if name in s.namespaces && !s.namespaces[name].deleting {
      assert name !in first.after.namespaces || first.after.namespaces[name].deleting;
    }
  }

  // ----- The resource's methods

  method FindSecret(store: Cluster.Store, orgName: string) returns (r: Result<Secret>)
    modifies store
    ensures Effect(store.Contents(), r) == FindSecretSpec(old(store.Contents()), orgName)
  {
    var secrets := store.ListSecrets(CredentialSelector(orgName));
    if secrets.Err? {
      return Err(secrets.error);
    }
    if |secrets.value| > 0 {
      return Ok(secrets.value[0]);
    }
    var secret := store.GetSecret("giantswarm", "credential-default");
    if secret.Err? && IsNotFound(secret.error) {
      return Err(SecretNotFound);
    } else if secret.Err? {
      return Err(secret.error);
    }
    return secret;
  }

  method EnsureOrganizationHasSubscriptionIdAnnotation(store: Cluster.Store, organization: Organization)
    returns (err: Option<Error>)
    modifies store
    ensures Effect(store.Contents(), err) == AnnotationSpec(old(store.Contents()), organization)
  {
    var secret := FindSecret(store, organization.name);
    if secret.Err? && secret.error == SecretNotFound {
      return None;
    } else if secret.Err? {
      return Some(secret.error);
    }
    if SubscriptionKey in secret.value.data && |secret.value.data[SubscriptionKey]| > 0 {
      var subscription := secret.value.data[SubscriptionKey];
      err := store.PatchOrganizationAnnotation(organization.name, SubscriptionAnnotation, subscription);
      if err.Some? {
        return err;
      }
    }
    return None;
  }

  /** One more key visited by the loop. */
  lemma PatchLoopStep(s: State, name: string, current: map<string, string>, desired: map<string, string>,
                      order: seq<string>, key: string)
    ensures PatchLoop(s, name, current, desired, order + [key])
      == if PatchLoop(s, name, current, desired, order).out.Some? then PatchLoop(s, name, current, desired, order)
         else if LabelValue(current, key) != LabelValue(desired, key) then
           PatchNamespaceLabel(PatchLoop(s, name, current, desired, order).after, name, key, LabelValue(desired, key))
         else PatchLoop(s, name, current, desired, order)
  {
    assert (order + [key])[..|order + [key]| - 1] == order;
  }

  /** After a failed patch, the keys not yet visited complete the visit order
      without changing the loop's outcome. */
  lemma CompleteOrder(s: State, name: string, current: map<string, string>, desired: map<string, string>,
                      visited: seq<string>, remaining: set<string>) returns (order: seq<string>)
    requires PatchLoop(s, name, current, desired, visited).out.Some?
    requires Distinct(visited) && forall k :: k in visited ==> k in desired && k !in remaining
    requires forall k :: k in desired ==> k in remaining || k in visited
    requires remaining <= desired.Keys
    ensures KeyOrder(order, desired)
    ensures PatchLoop(s, name, current, desired, order) == PatchLoop(s, name, current, desired, visited)
  {
    var rest := Enumerate(remaining);
    PatchLoopStops(s, name, current, desired, visited, rest);
    DistinctAppend(visited, rest);
    order := visited + rest;
  }

  /** Two duplicate-free sequences with no common element concatenate to a duplicate-free one. */
  lemma DistinctAppend(a: seq<string>, b: seq<string>)
    requires Distinct(a) && Distinct(b) && forall x :: x in a ==> x !in b
    ensures Distinct(a + b)
  {
    forall i, j | 0 <= i < j < |a + b|
      ensures (a + b)[i] != (a + b)[j]
    {
      if j < |a| {
      } else if i < |a| {
        assert (a + b)[i] in a && (a + b)[j] == b[j - |a|];
      } else {
        assert (a + b)[i] == b[i - |a|] && (a + b)[j] == b[j - |a|];
      }
    }
  }

  /** The label loop, comparing against the desired values as PatchLoop does;
      `order` is the order in which this run's `range` visited the keys. */
  method EnsureOrganizationNamespaceHasOrganizationLabels(store: Cluster.Store, namespace: Namespace)
    returns (err: Option<Error>, ghost order: seq<string>)
    modifies store
    ensures KeyOrder(order, namespace.labels)
    ensures Effect(store.Contents(), err) == LabelsSpec(old(store.Contents()), namespace, order)
  {
    var currentNamespace := store.GetNamespace(namespace.name);
    if currentNamespace.Err? {
      order := Enumerate(namespace.labels.Keys);
      return Some(currentNamespace.error), order;
    }
    ghost var fetched := store.Contents();
    var current := currentNamespace.value.labels;
    var remaining := namespace.labels.Keys;
    order := [];
    while remaining != {}
      invariant Distinct(order)
      invariant forall k :: k in namespace.labels ==> k in remaining || k in order
      invariant forall k :: k in order ==> k in namespace.labels && k !in remaining
      invariant remaining <= namespace.labels.Keys
      invariant Effect(store.Contents(), None) == PatchLoop(fetched, namespace.name, current, namespace.labels, order)
      decreases remaining
    {
      var key :| key in remaining;
      var value := namespace.labels[key];
      ghost var visited := order + [key];
      PatchLoopStep(fetched, namespace.name, current, namespace.labels, order, key);
      DistinctAppend(order, [key]);
      if LabelValue(current, key) != value {
        err := store.PatchNamespaceLabel(namespace.name, key, value);
        if err.Some? {
          order := CompleteOrder(fetched, namespace.name, current, namespace.labels, visited, remaining - {key});
          return err, order;
        }
      }
      order := visited;
      remaining := remaining - {key};
    }
    return None, order;
  }

  method EnsureCreated(store: Cluster.Store, org: Organization) returns (err: Option<Error>, ghost order: seq<string>)
    modifies store
    ensures KeyOrder(order, NewOrganizationNamespace(org.name).labels)
    ensures Effect(store.Contents(), err) == EnsureCreatedSpec(old(store.Contents()), org, order)
  {
    order := Enumerate(NewOrganizationNamespace(org.name).labels.Keys);
    var forbidden := StartsWithAny(org.name, ForbiddenPrefixes);
    if forbidden {
      return None, order;
    }
    err := EnsureOrganizationHasSubscriptionIdAnnotation(store, org);
    if err.Some? {
      return err, order;
    }
    var orgNamespace := NewOrganizationNamespace(org.name);
    err := store.CreateNamespace(orgNamespace);
    if err.Some? && IsAlreadyExists(err.value) {
      err, order := EnsureOrganizationNamespaceHasOrganizationLabels(store, orgNamespace);
      if err.Some? {
        return err, order;
      }
    } else if err.Some? {
      return err, order;
    }
    err := store.SetOrganizationStatus(org.name, orgNamespace.name);
  }

  method EnsureDeleted(store: Cluster.Store, org: Organization) returns (err: Option<Error>)
    modifies store
    ensures Effect(store.Contents(), err) == EnsureDeletedSpec(old(store.Contents()), org)
  {
    var orgNamespace := NewOrganizationNamespace(org.name);
    var got := store.GetNamespace(orgNamespace.name);
    if got.Err? {
      err := Some(got.error);
    } else if got.value.deleting {
      err := None;
    } else {
      err := store.DeleteNamespace(orgNamespace.name);
    }
    if err.Some? && IsNotFound(err.value) {
      return None;
    } else if err.Some? {
      return err;
    }
    return None;
  }
}
