/** pkg/resources/namespace/resource.go: a resource that creates the
    organization namespace with only the organization label, and deletes it
    after stripping its finalizers. */
module PkgResourcesNamespace {
  import opened Meta
  import opened Api
  import Cluster

  datatype Resource = Resource(client: Handle)

  /** New: the resource keeps the client it is given, without any check. */
  function New(client: Handle): (r: Resource)
    ensures r.client == client
  {
    Resource(client)
  }

  /** The namespace EnsureCreated asks for: "org-<name>" carrying only the organization label. */
  function DesiredNamespace(org: Organization): (ns: Namespace)
    ensures ns.name == "org-" + org.name && ns.name[4..] == org.name
    ensures ns.labels.Keys == {OrganizationLabel} && ns.labels[OrganizationLabel] == org.name
    ensures ns.finalizers == [] && !ns.deleting && ns.owner.None?
  {
    Namespace("org-" + org.name, map[OrganizationLabel := org.name], [], false, None)
  }

  /** EnsureCreated, lines 26-52. */
  function EnsureCreatedSpec(s: State, org: Organization): (r: Effect<Option<Error>>)
    ensures r.after.log == s.log + [NsCreate("org-" + org.name)] && NamespaceOnly(s, r.after, "org-" + org.name)
    // an absent namespace is created as asked
    ensures !Failing(s) && "org-" + org.name !in s.namespaces ==>
      r.out.None? && "org-" + org.name in r.after.namespaces
      && r.after.namespaces["org-" + org.name] == DesiredNamespace(org)
    // AlreadyExists is success and leaves the existing namespace as it is, labels included
    ensures !Failing(s) && "org-" + org.name in s.namespaces ==> r.out.None? && SameObjects(s, r.after)
    // any other create error is returned
    ensures Failing(s) ==> r.out == Some(Other) && SameObjects(s, r.after)
  {
    var created := CreateNamespace(s, DesiredNamespace(org));
    if created.out.Some? && IsAlreadyExists(created.out.value) then Effect(created.after, None) else created
  }

  /** Lines 66-73: strip the finalizers when there are any, then delete. */
  function StripAndDeleteSpec(s: State, current: Namespace): (r: Effect<Option<Error>>)
    ensures Extends(s, r.after) && NamespaceOnly(s, r.after, current.name)
    // no finalizers: no Update, and the delete's own result is returned
    ensures current.finalizers == [] ==> r == DeleteNamespace(s, current.name)
    // finalizers: they are cleared by an Update first, and a failed Update stops before the delete
    ensures current.finalizers != [] ==>
      var u := UpdateNamespace(s, current.(finalizers := []));
      (u.out.Some? ==> r == u) && (u.out.None? ==> r == DeleteNamespace(u.after, current.name))
  {
    if |current.finalizers| > 0 then
      var updated := UpdateNamespace(s, current.(finalizers := []));
      if updated.out.Some? then updated else DeleteNamespace(updated.after, current.name)
    else DeleteNamespace(s, current.name)
  }

  /** EnsureDeleted, lines 54-74. */
  function EnsureDeletedSpec(s: State, org: Organization): (r: Effect<Option<Error>>)
    ensures Extends(s, r.after) && NamespaceOnly(s, r.after, "org-" + org.name)
    // absent: nil, and no write at all
    ensures !Failing(s) && "org-" + org.name !in s.namespaces ==> r == Effect(Next(s), None)
    // any other lookup error is returned, again without a write
    ensures Failing(s) ==> r.out == Some(Other) && Unwritten(s, r.after)
    // present: the finalizer strip and the delete of the stored namespace
    ensures !Failing(s) && "org-" + org.name in s.namespaces ==>
      r == StripAndDeleteSpec(Next(s), s.namespaces["org-" + org.name])
  {
    var name := "org-" + org.name;
    var got := GetNamespace(s, name);
    if got.out.Err? then
      if IsNotFound(got.out.error) then Effect(got.after, None) else Effect(got.after, Some(got.out.error))
    else StripAndDeleteSpec(got.after, got.out.value)
  }

  /** Without failures, a namespace that is present and not yet terminating is
      gone after EnsureDeleted: the finalizers are stripped, then one delete
      removes it. */
  lemma EnsureDeletedRemovesLiveNamespace(s: State, org: Organization)
    requires s.faults == [] && "org-" + org.name in s.namespaces && !s.namespaces["org-" + org.name].deleting
    ensures var r := EnsureDeletedSpec(s, org);
      r.out.None? && "org-" + org.name !in r.after.namespaces
      && r.after.log == s.log + (if s.namespaces["org-" + org.name].finalizers != [] then [NsUpdate("org-" + org.name)] else [])
                              + [NsDelete("org-" + org.name)]
  {
    var current := s.namespaces["org-" + org.name];
    if current.finalizers != [] {
      var u := UpdateNamespace(s, current.(finalizers := []));
      assert u.out.None? && u.after.namespaces["org-" + org.name].finalizers == [];
    }
  }

  /** Once EnsureDeleted has removed the namespace, another run is a write-free success. */
  lemma EnsureDeletedIdempotent(s: State, org: Organization)
    requires s.faults == [] && "org-" + org.name in s.namespaces && !s.namespaces["org-" + org.name].deleting
    ensures var first := EnsureDeletedSpec(s, org);
      EnsureDeletedSpec(first.after, org) == Effect(first.after, None)
  {
    EnsureDeletedRemovesLiveNamespace(s, org);
    var first := EnsureDeletedSpec(s, org);
    assert first.after.faults == [] by {
      var current := s.namespaces["org-" + org.name];
      if current.finalizers != [] {
        assert UpdateNamespace(s, current.(finalizers := [])).after.faults == [];
      }
    }
  }

  method EnsureCreated(store: Cluster.Store, org: Organization) returns (err: Option<Error>)
    modifies store
    ensures Effect(store.Contents(), err) == EnsureCreatedSpec(old(store.Contents()), org)
  {
    var namespace := DesiredNamespace(org);
    err := store.CreateNamespace(namespace);
    if err.Some? {
      if IsAlreadyExists(err.value) {
        return None;
      }
      return err;
    }
    return None;
  }

  method EnsureDeleted(store: Cluster.Store, org: Organization) returns (err: Option<Error>)
    modifies store
    ensures Effect(store.Contents(), err) == EnsureDeletedSpec(old(store.Contents()), org)
  {
    var namespaceName := "org-" + org.name;
    var got := store.GetNamespace(namespaceName);
    if got.Err? {
      if IsNotFound(got.error) {
        return None;
      }
      return Some(got.error);
    }
    var namespace := got.value;
    if |namespace.finalizers| > 0 {
      namespace := namespace.(finalizers := []);
      err := store.UpdateNamespace(namespace);
      if err.Some? {
        return err;
      }
    }
    err := store.DeleteNamespace(namespace.name);
  }
}
