/** The reconciler of controllers/organization_controller.go. It drives the
    resource of pkg/namespace, whose EnsureCreated and EnsureDeleted are not part
    of this model: they are parameters, any function from a store state and a
    record to the state after and an error. */
module Controllers {
  import opened Meta
  import opened Api
  import Cluster
  import PkgNamespace

  const Finalizer := "security.giantswarm.io/organization-finalizer"

  /** An EnsureCreated or EnsureDeleted of the resource. */
  type Step = (State, Organization) -> Effect<Option<Error>>

  /** updateOrganizationCount: a List whose error is only logged. */
  function CountSpec(s: State): (t: State)
    ensures Unwritten(s, t)
  {
    ListOrganizations(s).after
  }

  /** Lines 95-103: an Update that adds the finalizer when it is missing. */
  function AddFinalizerSpec(s: State, org: Organization): (r: Effect<Option<Error>>)
    ensures Extends(s, r.after) && RecordOnly(s, r.after, org.name)
    ensures Finalizer in org.finalizers ==> r == Effect(s, None)
    ensures Finalizer !in org.finalizers ==> r.after.log == s.log + [OrgMetadata(org.name)]
    ensures Finalizer !in org.finalizers && Failing(s) ==> r.out == Some(Other) && SameObjects(s, r.after)
    ensures r.out.None? && Stored(s, org) && !org.deleting ==>
      Stored(r.after, org.(finalizers := AddFinalizer(org.finalizers, Finalizer)))
  {
    if Finalizer in org.finalizers then Effect(s, None)
    else UpdateOrganization(s, org.(finalizers := AddFinalizer(org.finalizers, Finalizer)))
  }

  predicate Stored(s: State, org: Organization) {
    org.name in s.orgs && s.orgs[org.name] == org
  }

  /** Lines 71-93: the record is being deleted. */
  function ReconcileDeletingSpec(s: State, org: Organization, ensureDeleted: Step): (r: Effect<ReconcileResult>)
    // without this controller's finalizer: success, nothing done
    ensures Finalizer !in org.finalizers ==> r == Effect(s, Done)
    // a failed EnsureDeleted is returned and the finalizer stays
    ensures Finalizer in org.finalizers && ensureDeleted(s, org).out.Some? ==>
      r == Effect(ensureDeleted(s, org).after, ReconcileResult(false, ensureDeleted(s, org).out))
    // after a successful one the finalizer is removed by an Update, whose error is returned
    ensures Finalizer in org.finalizers && ensureDeleted(s, org).out.None? ==>
      var t := ensureDeleted(s, org).after;
      var u := UpdateOrganization(t, org.(finalizers := RemoveFinalizer(org.finalizers, Finalizer)));
      r.out == ReconcileResult(false, u.out) && r.after.log == t.log + [OrgMetadata(org.name)]
      && SameObjects(u.after, r.after)
    ensures !r.out.requeue
  {
    if Finalizer in org.finalizers then
      var d := ensureDeleted(s, org);
      if d.out.Some? then Effect(d.after, ReconcileResult(false, d.out))
      else
        var u := UpdateOrganization(d.after, org.(finalizers := RemoveFinalizer(org.finalizers, Finalizer)));
        if u.out.Some? then Effect(u.after, ReconcileResult(false, u.out))
        else Effect(CountSpec(u.after), Done)
    else Effect(s, Done)
  }

  /** Lines 95-129: the record is live. */
  function ReconcileLiveSpec(s: State, org: Organization, ensureCreated: Step): (r: Effect<ReconcileResult>)
    ensures !r.out.requeue
    // a failed finalizer Update stops the pass before EnsureCreated runs
    ensures Finalizer !in org.finalizers && Failing(s) ==>
      r.out == ReconcileResult(false, Some(Other)) && r.after.log == s.log + [OrgMetadata(org.name)]
      && SameObjects(s, r.after)
    // otherwise the outcome is that of EnsureCreated, run on the record with the finalizer
    ensures var u := AddFinalizerSpec(s, org);
      var withFinalizer := org.(finalizers := AddFinalizer(org.finalizers, Finalizer));
      u.out.None? ==>
        var c := ensureCreated(u.after, withFinalizer);
        (c.out.Some? ==> r.out.err == Some(Wrapped("failed to ensure organization creation", c.out.value)))
        && (c.out.None? ==> r.out == Done && SameObjects(c.after, r.after) && r.after.log == c.after.log)
  {
    var withFinalizer := org.(finalizers := AddFinalizer(org.finalizers, Finalizer));
    var u := AddFinalizerSpec(s, org);
    if u.out.Some? then Effect(u.after, ReconcileResult(false, u.out))
    else
      var c := ensureCreated(u.after, withFinalizer);
      if c.out.Some? then
        Effect(c.after, ReconcileResult(false, Some(Wrapped("failed to ensure organization creation", c.out.value))))
      else
        // the namespace lookup only feeds a gauge: its outcome never changes the result
        var lookup := GetNamespace(CountSpec(c.after), withFinalizer.statusNamespace);
        Effect(lookup.after, Done)
  }

  /** Reconcile, lines 30-130. */
  function ReconcileSpec(s: State, config: PkgNamespace.Config, name: string, ensureCreated: Step, ensureDeleted: Step)
    : (r: Effect<ReconcileResult>)
    ensures !r.out.requeue
    // the resource cannot be built: the error, wrapped, and no call at all
    ensures PkgNamespace.New(config).Err? ==>
      r == Effect(s, ReconcileResult(false, Some(Wrapped("failed to create organization resource", InvalidConfig))))
    // the record is gone: EnsureDeleted runs on a stub carrying only the name, and its error is returned
    ensures PkgNamespace.New(config).Ok? && !Failing(s) && name !in s.orgs ==>
      r.out.err == ensureDeleted(Next(s), EmptyOrganization(name)).out
      && SameObjects(ensureDeleted(Next(s), EmptyOrganization(name)).after, r.after)
    // any other read error is returned and nothing is written
    ensures PkgNamespace.New(config).Ok? && Failing(s) ==>
      r.out == ReconcileResult(false, Some(Other)) && Unwritten(s, r.after)
  {
    var resource := PkgNamespace.New(config);
    if resource.Err? then
      Effect(s, ReconcileResult(false, Some(Wrapped("failed to create organization resource", resource.error))))
    else
      var g := GetOrganization(s, name);
      if g.out.Err? then
        if IsNotFound(g.out.error) then
          var d := ensureDeleted(g.after, EmptyOrganization(name));
          if d.out.None? then Effect(CountSpec(d.after), ReconcileResult(false, None))
          else Effect(d.after, ReconcileResult(false, d.out))
        else Effect(g.after, ReconcileResult(false, Some(g.out.error)))
      else if g.out.value.deleting then ReconcileDeletingSpec(g.after, g.out.value, ensureDeleted)
      else ReconcileLiveSpec(g.after, g.out.value, ensureCreated)
  }

  /** EnsureCreated is handed a store in which the record already carries the
      finalizer: the finalizer is in place before any side effect of creation. */
  lemma FinalizerBeforeEnsureCreated(s: State, org: Organization)
    requires Stored(s, org) && !org.deleting
    ensures var u := AddFinalizerSpec(s, org);
      u.out.None? ==>
        org.name in u.after.orgs && Finalizer in u.after.orgs[org.name].finalizers
        && (forall f :: f in org.finalizers ==> f in u.after.orgs[org.name].finalizers)
  {
  }

  // ----- The reconciler

  method Reconcile(store: Cluster.Store, config: PkgNamespace.Config, name: string, ensureCreated: Step, ensureDeleted: Step)
    returns (res: ReconcileResult)
    modifies store
    ensures Effect(store.Contents(), res) == ReconcileSpec(old(store.Contents()), config, name, ensureCreated, ensureDeleted)
  {
    var orgResource := PkgNamespace.New(config);
    if orgResource.Err? {
      return ReconcileResult(false, Some(Wrapped("failed to create organization resource", orgResource.error)));
    }
    var got := store.GetOrganization(name);
    if got.Err? {
      if IsNotFound(got.error) {
        var err := store.Run(ensureDeleted, EmptyOrganization(name));
        if err.None? {
          UpdateOrganizationCount(store);
        }
        return ReconcileResult(false, err);
      }
      return ReconcileResult(false, Some(got.error));
    }
    var org := got.value;
    if org.deleting {
      if Finalizer in org.finalizers {
        var err := store.Run(ensureDeleted, org);
        if err.Some? {
          return ReconcileResult(false, err);
        }
        org := org.(finalizers := RemoveFinalizer(org.finalizers, Finalizer));
        err := store.UpdateOrganization(org);
        if err.Some? {
          return ReconcileResult(false, err);
        }
        UpdateOrganizationCount(store);
      }
      return Done;
    }
    if Finalizer !in org.finalizers {
      org := org.(finalizers := AddFinalizer(org.finalizers, Finalizer));
      var err := store.UpdateOrganization(org);
      if err.Some? {
        return ReconcileResult(false, err);
      }
    }
    var err := store.Run(ensureCreated, org);
    if err.Some? {
      return ReconcileResult(false, Some(Wrapped("failed to ensure organization creation", err.value)));
    }
    UpdateOrganizationCount(store);
    var namespace := store.GetNamespace(org.statusNamespace);
    return Done;
  }

  /** updateOrganizationCount */
  method UpdateOrganizationCount(store: Cluster.Store)
    modifies store
    ensures store.Contents() == CountSpec(old(store.Contents()))
  {
    var listed := store.ListOrganizations();
  }
}
