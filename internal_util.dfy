/** internal/util/namespace.go: helpers that build the organization namespace,
    create it or reset its labels, and delete it. */
module InternalUtil {
  import opened Meta
  import opened Api
  import Cluster

  /** CreateNamespace: the namespace "org-<orgName>" carrying exactly the
      organization and managed-by labels. */
  function CreateNamespace(orgName: string): (ns: Namespace)
    ensures ns.name == "org-" + orgName && ns.name[4..] == orgName
    ensures ns.labels.Keys == {OrganizationLabel, ManagedByLabel}
    ensures ns.labels[OrganizationLabel] == orgName && ns.labels[ManagedByLabel] == ProjectName
    ensures ns.finalizers == [] && !ns.deleting && ns.owner.None?
  {
    Namespace("org-" + orgName, map[OrganizationLabel := orgName, ManagedByLabel := "organization-operator"],
      [], false, None)
  }

  /** EnsureNamespace, lines 42-59. */
  function EnsureNamespaceSpec(s: State, ns: Namespace): (r: Effect<Option<Error>>)
    ensures Extends(s, r.after) && NamespaceOnly(s, r.after, ns.name)
    // a Get error other than NotFound is returned and nothing is written
    ensures Failing(s) ==> r.out == Some(Other) && Unwritten(s, r.after)
    // an absent namespace is created
    ensures !Failing(s) && ns.name !in s.namespaces ==>
      r.after.log == s.log + [NsCreate(ns.name)]
      && (!FaultAt(s, 1) ==> r.out.None? && ns.name in r.after.namespaces
                              && r.after.namespaces[ns.name] == ns.(deleting := false))
    // a present one whose labels differ (extra labels count) gets the whole label map replaced
    ensures !Failing(s) && ns.name in s.namespaces && s.namespaces[ns.name].labels != ns.labels ==>
      r.after.log == s.log + [NsUpdate(ns.name)]
      && (!FaultAt(s, 1) ==>
            r.out.None? && ns.name in r.after.namespaces
            && r.after.namespaces[ns.name] == s.namespaces[ns.name].(labels := ns.labels))
    // equal labels: no write, nil
    ensures (!Failing(s) && ns.name in s.namespaces && s.namespaces[ns.name].labels == ns.labels)
            ==> r == Effect(Next(s), None)
  {
    var g := GetNamespace(s, ns.name);
    if g.out.Err? then
      if IsNotFound(g.out.error) then Api.CreateNamespace(g.after, ns) else Effect(g.after, Some(g.out.error))
    else if g.out.value.labels != ns.labels then UpdateNamespace(g.after, g.out.value.(labels := ns.labels))
    else Effect(g.after, None)
  }

  /** Once EnsureNamespace has succeeded, running it again writes nothing. */
  lemma EnsureNamespaceIdempotent(s: State, ns: Namespace)
    requires s.faults == []
    ensures var first := EnsureNamespaceSpec(s, ns);
      first.out.None? && EnsureNamespaceSpec(first.after, ns) == Effect(first.after, None)
  {
    var first := EnsureNamespaceSpec(s, ns);
    assert ns.name in first.after.namespaces && first.after.namespaces[ns.name].labels == ns.labels;
  }

  /** DeleteNamespace, lines 62-78. */
  function DeleteNamespaceSpec(s: State, orgName: string): (r: Effect<Option<Error>>)
    ensures r.after.log == s.log + [NsDelete("org-" + orgName)] && NamespaceOnly(s, r.after, "org-" + orgName)
    // NotFound is success; any other error is wrapped with the namespace name
    ensures r.out.None? <==> !Failing(s)
    ensures r.out.Some? ==> r.out.value == Wrapped("failed to delete namespace " + ("org-" + orgName), Other)
    ensures !Failing(s) ==>
      var name := "org-" + orgName;
      name !in r.after.namespaces || (r.after.namespaces[name].deleting && name in s.namespaces)
  {
    var namespace := CreateNamespace(orgName);
    var d := Api.DeleteNamespace(s, namespace.name);
    if d.out.None? then d
    else if IsNotFound(d.out.value) then Effect(d.after, None)
    else Effect(d.after, Some(Wrapped("failed to delete namespace " + namespace.name, d.out.value)))
  }

  method EnsureNamespace(store: Cluster.Store, namespace: Namespace) returns (err: Option<Error>)
    modifies store
    ensures Effect(store.Contents(), err) == EnsureNamespaceSpec(old(store.Contents()), namespace)
  {
    var existing := store.GetNamespace(namespace.name);
    if existing.Err? {
      if IsNotFound(existing.error) {
        err := store.CreateNamespace(namespace);
        return;
      }
      return Some(existing.error);
    }
    var existingNamespace := existing.value;
    if existingNamespace.labels != namespace.labels {
      existingNamespace := existingNamespace.(labels := namespace.labels);
      err := store.UpdateNamespace(existingNamespace);
      return;
    }
    return None;
  }

  method DeleteNamespace(store: Cluster.Store, orgName: string) returns (err: Option<Error>)
    modifies store
    ensures Effect(store.Contents(), err) == DeleteNamespaceSpec(old(store.Contents()), orgName)
  {
    var namespace := CreateNamespace(orgName);
    err := store.DeleteNamespace(namespace.name);
    if err.Some? {
      if IsNotFound(err.value) {
        return None;
      }
      return Some(Wrapped("failed to delete namespace " + namespace.name, err.value));
    }
  }
}
