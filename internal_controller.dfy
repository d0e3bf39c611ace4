/** The controller-runtime reconciler of internal/controller/organization_controller.go:
    it puts its finalizer on a live record, creates or updates the derived
    namespace with exactly two labels, records the namespace in the status,
    and on deletion deletes the namespace and removes the finalizer once the
    namespace is gone. This revision has no forbidden-prefix check. */
module InternalController {
  import opened Meta
  import opened Api
  import Cluster

  const Finalizer := "organization.giantswarm.io/finalizer"

  /** fmt.Sprintf("org-%s", name) */
  function NamespaceName(name: string): (n: string)
    ensures |n| == |name| + 4 && n[..4] == "org-" && n[4..] == name
  {
    "org-" + name
  }

  /** The label map the namespace is created with and reset to. */
  function DesiredLabels(name: string): (l: map<string, string>)
    ensures l.Keys == {OrganizationLabel, ManagedByLabel}
    ensures l[OrganizationLabel] == name && l[ManagedByLabel] == ProjectName
  {
    map[OrganizationLabel := name, ManagedByLabel := "organization-operator"]
  }

  /** The fetched record is the one in the store. */
  predicate Stored(s: State, org: Organization) {
    org.name in s.orgs && s.orgs[org.name] == org
  }

  // ----- Specification of each step

  /** updateOrganizationCount: a List of the records; the gauge it sets is not modelled. */
  function CountSpec(s: State): (r: Effect<Option<Error>>)
    ensures Unwritten(s, r.after)
    ensures r.out.Some? <==> Failing(s)
    ensures r.out.Some? ==> r.out.value == Wrapped("failed to list organizations", Other)
  {
    var l := ListOrganizations(s);
    if l.out.Err? then Effect(l.after, Some(Wrapped("failed to list organizations", l.out.error)))
    else Effect(l.after, None)
  }

  /** Lines 72-78: patch the finalizer in when it is missing. */
  function FinalizerSpec(s: State, org: Organization): (r: Effect<Option<Error>>)
    ensures Extends(s, r.after) && RecordOnly(s, r.after, org.name)
    ensures Finalizer in org.finalizers ==> r == Effect(s, None)
    ensures Finalizer !in org.finalizers ==> r.after.log == s.log + [OrgMetadata(org.name)]
    ensures Finalizer !in org.finalizers && Failing(s) ==> r.out == Some(Other) && SameObjects(s, r.after)
    ensures r.out.None? && Stored(s, org) && !org.deleting ==>
      Stored(r.after, org.(finalizers := AddFinalizer(org.finalizers, Finalizer)))
    ensures s.faults == [] && Stored(s, org) ==> r.out.None?
  {
    if Finalizer in org.finalizers then Effect(s, None)
    else PatchOrganizationFinalizers(s, org.name, AddFinalizer(org.finalizers, Finalizer))
  }

  /** Lines 81-106: CreateOrUpdate of "org-<name>" whose mutate function resets the labels. */
  function NamespaceSpec(s: State, name: string): (r: Effect<Option<Error>>)
    ensures Extends(s, r.after) && NamespaceWritesOnly(s, r.after, NamespaceName(name))
    ensures NamespaceOnly(s, r.after, NamespaceName(name))
    ensures Failing(s) ==> r.out == Some(Other) && Unwritten(s, r.after)
    ensures r.out.None? ==>
      NamespaceName(name) in r.after.namespaces && r.after.namespaces[NamespaceName(name)].labels == DesiredLabels(name)
    ensures r.out.None? && NamespaceName(name) in s.namespaces ==>
      r.after.namespaces[NamespaceName(name)] == s.namespaces[NamespaceName(name)].(labels := DesiredLabels(name))
    ensures !Failing(s) ==> r.out.None?
    ensures (!Failing(s) && NamespaceName(name) in s.namespaces
             && s.namespaces[NamespaceName(name)].labels == DesiredLabels(name))
            ==> r == Effect(Next(s), None)
  {
    var nsName := NamespaceName(name);
    CreateOrUpdateNamespace(s, Namespace(nsName, DesiredLabels(name), [], false, Some(name)))
  }

  /** Lines 111-117: patch status.namespace only when it differs. */
  function StatusSpec(s: State, org: Organization): (r: Effect<Option<Error>>)
    ensures Extends(s, r.after) && RecordOnly(s, r.after, org.name)
    ensures org.statusNamespace == NamespaceName(org.name) ==> r == Effect(s, None)
    ensures org.statusNamespace != NamespaceName(org.name) ==> r.after.log == s.log + [OrgStatus(org.name)]
    ensures r.out.None? && org.name in s.orgs ==>
      org.name in r.after.orgs
      && (org.statusNamespace != NamespaceName(org.name) ==>
            r.after.orgs[org.name] == s.orgs[org.name].(statusNamespace := NamespaceName(org.name)))
    ensures s.faults == [] && org.name in s.orgs ==> r.out.None?
  {
    if org.statusNamespace != NamespaceName(org.name) then SetOrganizationStatus(s, org.name, NamespaceName(org.name))
    else Effect(s, None)
  }

  /** Lines 110-124: the status patch, then the count. */
  function StatusStepSpec(s: State, org: Organization): (r: Effect<ReconcileResult>)
    ensures Extends(s, r.after) && RecordOnly(s, r.after, org.name)
  {
    var st := StatusSpec(s, org);
    if st.out.Some? then
      Effect(st.after, ReconcileResult(false, Some(Wrapped("failed to update Organization status", st.out.value))))
    else
      var c := CountSpec(st.after);
      if c.out.Some? then Effect(c.after, ReconcileResult(true, c.out)) else Effect(c.after, Done)
  }

  /** Lines 80-124: the namespace, then the status step. */
  function NamespaceStepSpec(s: State, org: Organization): (r: Effect<ReconcileResult>)
    ensures Extends(s, r.after) && OnlyTouches(s, r.after, org.name, NamespaceName(org.name))
  {
    var ns := NamespaceSpec(s, org.name);
    if ns.out.Some? then
      Effect(ns.after, ReconcileResult(false, Some(Wrapped("failed to create or update Namespace", ns.out.value))))
    else StatusStepSpec(ns.after, org)
  }

  /** Lines 57-125 for a record that is not being deleted. */
  function ReconcileLiveSpec(s: State, org: Organization): (r: Effect<ReconcileResult>)
    ensures Extends(s, r.after) && OnlyTouches(s, r.after, org.name, NamespaceName(org.name))
  {
    var fin := FinalizerSpec(s, org);
    if fin.out.Some? then Effect(fin.after, ReconcileResult(false, Some(Wrapped("failed to add finalizer", fin.out.value))))
    else NamespaceStepSpec(fin.after, org)
  }

  /** The finalizer patch is the first write of a live pass, and when it fails
      nothing else is written: no namespace is created before the finalizer is on. */
  lemma LiveFinalizerFirst(s: State, org: Organization)
    requires Finalizer !in org.finalizers
    ensures var r := ReconcileLiveSpec(s, org);
      |r.after.log| > |s.log| && r.after.log[|s.log|] == OrgMetadata(org.name)
      && (Failing(s) ==>
            r.out == ReconcileResult(false, Some(Wrapped("failed to add finalizer", Other)))
            && SameObjects(s, r.after) && r.after.log == s.log + [OrgMetadata(org.name)])
  {
    var fin := FinalizerSpec(s, org);
    var t := ReconcileLiveSpec(s, org).after;
    if fin.out.None? {
      assert t == NamespaceStepSpec(fin.after, org).after;
    }
    assert fin.after.log == s.log + [OrgMetadata(org.name)];
    assert t.log[..|fin.after.log|] == fin.after.log;
    assert t.log[|s.log|] == t.log[..|fin.after.log|][|s.log|];
  }

  /** The status step writes nothing but the record's status. */
  lemma StatusStepWrites(s: State, org: Organization)
    ensures var t := StatusStepSpec(s, org).after;
      forall i :: |s.log| <= i < |t.log| ==> t.log[i] == OrgStatus(org.name)
  {
    var st := StatusSpec(s, org);
    assert st.after.log == s.log || st.after.log == s.log + [OrgStatus(org.name)];
  }

  /** The only namespace the namespace step writes is the derived one. */
  lemma NamespaceStepWritesOnly(s: State, org: Organization)
    ensures NamespaceWritesOnly(s, NamespaceStepSpec(s, org).after, NamespaceName(org.name))
  {
    var ns := NamespaceSpec(s, org.name);
    if ns.out.None? {
      StatusStepWrites(ns.after, org);
      NamespaceWritesOnlyTransitive(s, ns.after, StatusStepSpec(ns.after, org).after, NamespaceName(org.name));
    }
  }

  /** The only namespace a live pass writes is the derived one. */
  lemma LiveWritesOnlyDerivedNamespace(s: State, org: Organization)
    ensures NamespaceWritesOnly(s, ReconcileLiveSpec(s, org).after, NamespaceName(org.name))
  {
    var fin := FinalizerSpec(s, org);
    if fin.out.None? {
      assert fin.after.log == s.log || fin.after.log == s.log + [OrgMetadata(org.name)];
      NamespaceStepWritesOnly(fin.after, org);
      NamespaceWritesOnlyTransitive(s, fin.after, NamespaceStepSpec(fin.after, org).after, NamespaceName(org.name));
    }
  }

  /** A successful status step leaves the stored record with the derived status. */
  lemma StatusStepConverged(s: State, org: Organization)
    requires org.name in s.orgs && s.orgs[org.name].statusNamespace == org.statusNamespace
    ensures var r := StatusStepSpec(s, org);
      r.out == Done ==>
        org.name in r.after.orgs && r.after.namespaces == s.namespaces
        && r.after.orgs[org.name] == s.orgs[org.name].(statusNamespace := NamespaceName(org.name))
  {
    var st := StatusSpec(s, org);
    if org.statusNamespace == NamespaceName(org.name) {
      assert s.orgs[org.name].(statusNamespace := NamespaceName(org.name)) == s.orgs[org.name];
    }
  }

  /** A successful namespace step leaves the namespace with exactly the two
      labels and the stored record with the derived status. */
  lemma NamespaceStepConverged(s: State, org: Organization)
    requires org.name in s.orgs && s.orgs[org.name].statusNamespace == org.statusNamespace
    ensures var r := NamespaceStepSpec(s, org);
      r.out == Done ==>
        org.name in r.after.orgs
        && r.after.orgs[org.name] == s.orgs[org.name].(statusNamespace := NamespaceName(org.name))
        && NamespaceName(org.name) in r.after.namespaces
        && r.after.namespaces[NamespaceName(org.name)].labels == DesiredLabels(org.name)
  {
    var ns := NamespaceSpec(s, org.name);
    if ns.out.None? {
      StatusStepConverged(ns.after, org);
    }
  }

  /** After a successful pass over a live record, the record carries the
      finalizer and status.namespace is the derived name, and the namespace
      carries exactly the two labels. */
  lemma LiveConverged(s: State, org: Organization)
    requires Stored(s, org) && !org.deleting
    ensures var r := ReconcileLiveSpec(s, org);
      r.out == Done ==>
        org.name in r.after.orgs
        && Finalizer in r.after.orgs[org.name].finalizers && !r.after.orgs[org.name].deleting
        && r.after.orgs[org.name].statusNamespace == NamespaceName(org.name)
        && NamespaceName(org.name) in r.after.namespaces
        && r.after.namespaces[NamespaceName(org.name)].labels == DesiredLabels(org.name)
  {
    var fin := FinalizerSpec(s, org);
    if fin.out.None? {
      var withFinalizer := org.(finalizers := AddFinalizer(org.finalizers, Finalizer));
      assert Stored(fin.after, withFinalizer);
      NamespaceStepConverged(fin.after, org);
    }
  }

  /** Without failures the status step succeeds. */
  lemma StatusStepProgress(s: State, org: Organization)
    requires s.faults == [] && org.name in s.orgs
    ensures StatusStepSpec(s, org).out == Done && StatusStepSpec(s, org).after.faults == []
  {
  }

  /** Without failures the namespace step succeeds. */
  lemma NamespaceStepProgress(s: State, org: Organization)
    requires s.faults == [] && org.name in s.orgs
    ensures NamespaceStepSpec(s, org).out == Done && NamespaceStepSpec(s, org).after.faults == []
  {
    var ns := NamespaceSpec(s, org.name);
    assert ns.out.None? && ns.after.faults == [] && org.name in ns.after.orgs;
    StatusStepProgress(ns.after, org);
  }

  /** Without failures a live pass succeeds, whatever the record's name. */
  lemma LiveProgress(s: State, org: Organization)
    requires Stored(s, org) && !org.deleting && s.faults == []
    ensures ReconcileLiveSpec(s, org).out == Done && ReconcileLiveSpec(s, org).after.faults == []
  {
    var fin := FinalizerSpec(s, org);
    assert fin.out.None? && fin.after.faults == [] && org.name in fin.after.orgs;
    NamespaceStepProgress(fin.after, org);
  }

  /** LiveProgress, stated for any fault list. */
  lemma LiveProgressIfNoFaults(s: State, org: Organization)
    requires Stored(s, org) && !org.deleting
    ensures s.faults == [] ==> ReconcileLiveSpec(s, org).out == Done
  {
    if s.faults == [] {
      LiveProgress(s, org);
    }
  }

  /** A failed step of a live pass is returned wrapped with the step's context. */
  lemma LiveErrorsWrapped(s: State, org: Organization)
    ensures var r := ReconcileLiveSpec(s, org);
      r.out.err.Some? && !r.out.requeue ==>
        r.out.err.value.Wrapped? && r.out.err.value.context in
          {"failed to add finalizer", "failed to create or update Namespace", "failed to update Organization status"}
  {
  }

  /** reconcileDelete, lines 127-161. */
  function ReconcileDeleteSpec(s: State, org: Organization): (r: Effect<ReconcileResult>)
    ensures Extends(s, r.after) && OnlyTouches(s, r.after, org.name, NamespaceName(org.name))
    // a lookup that fails for another reason than NotFound: requeue with the error, nothing written
    ensures Failing(s) ==> r.out == ReconcileResult(true, Some(Other)) && Unwritten(s, r.after)
    // the namespace is there: one delete, requeue, the record untouched
    ensures !Failing(s) && NamespaceName(org.name) in s.namespaces ==>
      r.after.log == s.log + [NsDelete(NamespaceName(org.name))] && r.after.orgs == s.orgs
      && r.out.requeue && (r.out.err.None? <==> !FaultAt(s, 1))
  {
    var nsName := NamespaceName(org.name);
    var g := GetNamespace(s, nsName);
    if g.out.Ok? then
      var d := DeleteNamespace(g.after, nsName);
      Effect(d.after, ReconcileResult(true, d.out))
    else if !IsNotFound(g.out.error) then Effect(g.after, ReconcileResult(true, Some(g.out.error)))
    else
      var u := if Finalizer in org.finalizers
        then UpdateOrganization(g.after, org.(finalizers := RemoveFinalizer(org.finalizers, Finalizer)))
        else Effect(g.after, None);
      if u.out.Some? then Effect(u.after, ReconcileResult(true, u.out))
      else
        var c := CountSpec(u.after);
        if c.out.Some? then Effect(c.after, ReconcileResult(true, c.out)) else Effect(c.after, Done)
  }

  /** With the namespace gone, only this controller's finalizer is removed from
      the record (the others stay, in order), and nothing else is written. */
  lemma DeleteRemovesOnlyOwnFinalizer(s: State, org: Organization)
    requires !Failing(s) && NamespaceName(org.name) !in s.namespaces
    ensures var r := ReconcileDeleteSpec(s, org);
      r.after.namespaces == s.namespaces
      && (Finalizer !in org.finalizers ==> r.after.orgs == s.orgs && r.after.log == s.log)
      && (Finalizer in org.finalizers ==> r.after.log == s.log + [OrgMetadata(org.name)])
      && (Stored(s, org) && org.deleting && Finalizer in org.finalizers && !FaultAt(s, 1) ==>
            var left := RemoveFinalizer(org.finalizers, Finalizer);
            (org.name in r.after.orgs ==> r.after.orgs[org.name] == org.(finalizers := left))
            && (org.name !in r.after.orgs <==> left == []))
  {
  }

  /** A delete pass only succeeds once the namespace is gone, and then it does
      succeed unless a call fails. */
  lemma DeleteSucceedsOnceNamespaceGone(s: State, org: Organization)
    ensures var r := ReconcileDeleteSpec(s, org);
      (r.out == Done ==> NamespaceName(org.name) !in r.after.namespaces)
      && (s.faults == [] && Stored(s, org) && NamespaceName(org.name) !in s.namespaces ==> r.out == Done)
  {
  }

  /** Reconcile, lines 57-125. */
  function ReconcileSpec(s: State, name: string): (r: Effect<ReconcileResult>)
    ensures Extends(s, r.after) && OnlyTouches(s, r.after, name, NamespaceName(name))
    // the record could not be read: the error (NotFound dropped) without requeue, nothing written
    ensures Failing(s) ==> r.out == ReconcileResult(false, Some(Other)) && Unwritten(s, r.after)
    ensures !Failing(s) && name !in s.orgs ==> r.out == Done && Unwritten(s, r.after)
    // no forbidden-prefix check: every live record gets its namespace
    ensures s.faults == [] && name in s.orgs && !s.orgs[name].deleting ==>
      r.out == Done && NamespaceName(name) in r.after.namespaces
      && r.after.namespaces[NamespaceName(name)].labels == DesiredLabels(name)
      && name in r.after.orgs && r.after.orgs[name].statusNamespace == NamespaceName(name)
      && Finalizer in r.after.orgs[name].finalizers
  {
    var g := GetOrganization(s, name);
    if g.out.Err? then Effect(g.after, ReconcileResult(false, IgnoreNotFound(g.out.error)))
    else if g.out.value.deleting then ReconcileDeleteSpec(g.after, g.out.value)
    else
      LiveConverged(g.after, g.out.value);
      LiveProgressIfNoFaults(g.after, g.out.value);
      ReconcileLiveSpec(g.after, g.out.value)
  }

  // ----- Properties over several passes

  /** A live pass over a record that already has the finalizer, the status
      and the labelled namespace makes no write and succeeds. */
  lemma LiveQuiescent(s: State, org: Organization)
    requires s.faults == [] && Stored(s, org) && !org.deleting
    requires Finalizer in org.finalizers && org.statusNamespace == NamespaceName(org.name)
    requires NamespaceName(org.name) in s.namespaces && s.namespaces[NamespaceName(org.name)].labels == DesiredLabels(org.name)
    ensures ReconcileLiveSpec(s, org) == Effect(s, Done)
  {
    assert Next(s) == s;
    assert FinalizerSpec(s, org) == Effect(s, None);
    assert NamespaceSpec(s, org.name) == Effect(s, None);
    assert StatusSpec(s, org) == Effect(s, None);
  }

  /** A second pass over a record the first pass converged writes nothing. */
  lemma ReconcileIdempotent(s: State, name: string)
    requires s.faults == [] && name in s.orgs && !s.orgs[name].deleting
    ensures ReconcileSpec(ReconcileSpec(s, name).after, name) == Effect(ReconcileSpec(s, name).after, Done)
  {
    var org := s.orgs[name];
    assert Next(s) == s;
    LiveProgress(s, org);
    LiveConverged(s, org);
    var t := ReconcileLiveSpec(s, org).after;
    assert ReconcileSpec(s, name).after == t;
    assert Next(t) == t;
    LiveQuiescent(t, t.orgs[name]);
  }

  /** Deleting a record whose namespace has no finalizer of its own takes two
      passes without failures: the first deletes the namespace and requeues,
      the second removes the finalizer. */
  lemma DeleteTakesTwoPasses(s: State, name: string)
    requires s.faults == [] && name in s.orgs && s.orgs[name].deleting
    requires NamespaceName(name) in s.namespaces && s.namespaces[NamespaceName(name)].finalizers == []
    ensures var first := ReconcileSpec(s, name);
      first.out == ReconcileResult(true, None)
      && NamespaceName(name) !in first.after.namespaces
      && ReconcileSpec(first.after, name).out == Done
      && (name in ReconcileSpec(first.after, name).after.orgs ==>
            Finalizer !in ReconcileSpec(first.after, name).after.orgs[name].finalizers)
  {
    var first := ReconcileSpec(s, name);
    assert first.after.orgs == s.orgs;
    var org := s.orgs[name];
    var second := ReconcileDeleteSpec(first.after, org);
    assert ReconcileSpec(first.after, name) == second;
  }

  // ----- The reconciler

  /** updateOrganizationCount */
  method UpdateOrganizationCount(store: Cluster.Store) returns (err: Option<Error>)
    modifies store
    ensures Effect(store.Contents(), err) == CountSpec(old(store.Contents()))
  {
    var listed := store.ListOrganizations();
    if listed.Err? {
      return Some(Wrapped("failed to list organizations", listed.error));
    }
    return None;
  }

  method Reconcile(store: Cluster.Store, name: string) returns (res: ReconcileResult)
    modifies store
    ensures Effect(store.Contents(), res) == ReconcileSpec(old(store.Contents()), name)
  {
    var got := store.GetOrganization(name);
    if got.Err? {
      return ReconcileResult(false, IgnoreNotFound(got.error));
    }
    var organization := got.value;
    if organization.deleting {
      res := ReconcileDelete(store, organization);
      return;
    }
    ghost var fetched := organization;
    if Finalizer !in organization.finalizers {
      organization := organization.(finalizers := AddFinalizer(organization.finalizers, Finalizer));
      var err := store.PatchOrganizationFinalizers(organization.name, organization.finalizers);
      if err.Some? {
        return ReconcileResult(false, Some(Wrapped("failed to add finalizer", err.value)));
      }
    }
    var namespaceName := NamespaceName(organization.name);
    var namespace := Namespace(namespaceName, DesiredLabels(organization.name), [], false, Some(organization.name));
    var err := store.CreateOrUpdateNamespace(namespace);
    if err.Some? {
      return ReconcileResult(false, Some(Wrapped("failed to create or update Namespace", err.value)));
    }
    if organization.statusNamespace != namespaceName {
      organization := organization.(statusNamespace := namespaceName);
      err := store.SetOrganizationStatus(organization.name, namespaceName);
      if err.Some? {
        return ReconcileResult(false, Some(Wrapped("failed to update Organization status", err.value)));
      }
    }
    err := UpdateOrganizationCount(store);
    if err.Some? {
      return ReconcileResult(true, err);
    }
    assert organization.name == fetched.name;
    return Done;
  }

  method ReconcileDelete(store: Cluster.Store, organization: Organization) returns (res: ReconcileResult)
    modifies store
    ensures Effect(store.Contents(), res) == ReconcileDeleteSpec(old(store.Contents()), organization)
  {
    var namespaceName := NamespaceName(organization.name);
    var got := store.GetNamespace(namespaceName);
    if got.Ok? {
      var err := store.DeleteNamespace(got.value.name);
      if err.Some? {
        return ReconcileResult(true, err);
      }
      return ReconcileResult(true, None);
    } else if !IsNotFound(got.error) {
      return ReconcileResult(true, Some(got.error));
    }
    if Finalizer in organization.finalizers {
      var removed := organization.(finalizers := RemoveFinalizer(organization.finalizers, Finalizer));
      var err := store.UpdateOrganization(removed);
      if err.Some? {
        return ReconcileResult(true, err);
      }
    }
    var err := UpdateOrganizationCount(store);
    if err.Some? {
      return ReconcileResult(true, err);
    }
    return Done;
  }
}
