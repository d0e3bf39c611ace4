/** The client the reconcilers hold: a mutable handle on the store. Each
    method performs one call of module Api and leaves the store in the state
    that call describes, so a reconciler written against this class can be
    proved equal to a composition of Api functions. */
module Cluster {
  import opened Meta
  import opened Api

  class Store {
    var orgs: Organizations
    var namespaces: Namespaces
    var secrets: seq<Secret>
    var companies: set<string>
    var faults: seq<bool>
    var log: seq<Write>

    function Contents(): State
      reads this
    {
      State(orgs, namespaces, secrets, companies, faults, log)
    }

    constructor (s: State)
      ensures Contents() == s
    {
      orgs, namespaces, secrets := s.orgs, s.namespaces, s.secrets;
      companies, faults, log := s.companies, s.faults, s.log;
    }

    /** Moves the store to the state after a call. */
    method Become(t: State)
      modifies this
      ensures Contents() == t
    {
      orgs, namespaces, secrets := t.orgs, t.namespaces, t.secrets;
      companies, faults, log := t.companies, t.faults, t.log;
    }

    method GetOrganization(name: string) returns (r: Result<Organization>)
      modifies this
      ensures Effect(Contents(), r) == Api.GetOrganization(old(Contents()), name)
    {
      var e := Api.GetOrganization(Contents(), name);
      Become(e.after);
      r := e.out;
    }

    method ListOrganizations() returns (r: Result<nat>)
      modifies this
      ensures Effect(Contents(), r) == Api.ListOrganizations(old(Contents()))
    {
      var e := Api.ListOrganizations(Contents());
      Become(e.after);
      r := e.out;
    }

    method PatchOrganizationFinalizers(name: string, finalizers: seq<string>) returns (r: Option<Error>)
      modifies this
      ensures Effect(Contents(), r) == Api.PatchOrganizationFinalizers(old(Contents()), name, finalizers)
    {
      var e := Api.PatchOrganizationFinalizers(Contents(), name, finalizers);
      Become(e.after);
      r := e.out;
    }

    method PatchOrganizationAnnotation(name: string, key: string, value: string) returns (r: Option<Error>)
      modifies this
      ensures Effect(Contents(), r) == Api.PatchOrganizationAnnotation(old(Contents()), name, key, value)
    {
      var e := Api.PatchOrganizationAnnotation(Contents(), name, key, value);
      Become(e.after);
      r := e.out;
    }

    method UpdateOrganization(o: Organization) returns (r: Option<Error>)
      modifies this
      ensures Effect(Contents(), r) == Api.UpdateOrganization(old(Contents()), o)
    {
      var e := Api.UpdateOrganization(Contents(), o);
      Become(e.after);
      r := e.out;
    }

    method SetOrganizationStatus(name: string, namespace: string) returns (r: Option<Error>)
      modifies this
      ensures Effect(Contents(), r) == Api.SetOrganizationStatus(old(Contents()), name, namespace)
    {
      var e := Api.SetOrganizationStatus(Contents(), name, namespace);
      Become(e.after);
      r := e.out;
    }

    method GetNamespace(name: string) returns (r: Result<Namespace>)
      modifies this
      ensures Effect(Contents(), r) == Api.GetNamespace(old(Contents()), name)
    {
      var e := Api.GetNamespace(Contents(), name);
      Become(e.after);
      r := e.out;
    }

    method CreateNamespace(ns: Namespace) returns (r: Option<Error>)
      modifies this
      ensures Effect(Contents(), r) == Api.CreateNamespace(old(Contents()), ns)
    {
      var e := Api.CreateNamespace(Contents(), ns);
      Become(e.after);
      r := e.out;
    }

    method CreateOrUpdateNamespace(ns: Namespace) returns (r: Option<Error>)
      modifies this
      ensures Effect(Contents(), r) == Api.CreateOrUpdateNamespace(old(Contents()), ns)
    {
      var e := Api.CreateOrUpdateNamespace(Contents(), ns);
      Become(e.after);
      r := e.out;
    }

    method UpdateNamespace(ns: Namespace) returns (r: Option<Error>)
      modifies this
      ensures Effect(Contents(), r) == Api.UpdateNamespace(old(Contents()), ns)
    {
      var e := Api.UpdateNamespace(Contents(), ns);
      Become(e.after);
      r := e.out;
    }

    method PatchNamespaceLabel(name: string, key: string, value: string) returns (r: Option<Error>)
      modifies this
      ensures Effect(Contents(), r) == Api.PatchNamespaceLabel(old(Contents()), name, key, value)
    {
      var e := Api.PatchNamespaceLabel(Contents(), name, key, value);
      Become(e.after);
      r := e.out;
    }

    method DeleteNamespace(name: string) returns (r: Option<Error>)
      modifies this
      ensures Effect(Contents(), r) == Api.DeleteNamespace(old(Contents()), name)
    {
      var e := Api.DeleteNamespace(Contents(), name);
      Become(e.after);
      r := e.out;
    }

    method ListSecrets(selector: map<string, string>) returns (r: Result<seq<Secret>>)
      modifies this
      ensures Effect(Contents(), r) == Api.ListSecrets(old(Contents()), selector)
    {
      var e := Api.ListSecrets(Contents(), selector);
      Become(e.after);
      r := e.out;
    }

    method GetSecret(namespace: string, name: string) returns (r: Result<Secret>)
      modifies this
      ensures Effect(Contents(), r) == Api.GetSecret(old(Contents()), namespace, name)
    {
      var e := Api.GetSecret(Contents(), namespace, name);
      Become(e.after);
      r := e.out;
    }

    method CreateCompany(id: string) returns (r: Option<Error>)
      modifies this
      ensures Effect(Contents(), r) == Api.CreateCompany(old(Contents()), id)
    {
      var e := Api.CreateCompany(Contents(), id);
      Become(e.after);
      r := e.out;
    }

    /** Runs an abstract reconcile step (one whose code is not part of this
        model) against the store. */
    method Run(step: (State, Organization) -> Effect<Option<Error>>, o: Organization) returns (r: Option<Error>)
      modifies this
      ensures Effect(Contents(), r) == step(old(Contents()), o)
    {
      var e := step(Contents(), o);
      Become(e.after);
      r := e.out;
    }
  }
}
