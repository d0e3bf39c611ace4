/** service/controller/resource/organization: the legacy operatorkit resource.
    EnsureCreated annotates the record, creates the namespace (an existing one
    is left as it is), writes status.namespace with an Update and then creates
    the organization in the legacy company directory; EnsureDeleted deletes the
    namespace blindly. */
module ServiceOrganization {
  import opened Meta
  import opened Api
  import Cluster
  import ServiceKey
  import PkgOrganization

  // ----- resource.go

  const Name := "organization"

  const NamePrefix := "org-"

  const ForbiddenPrefixes: seq<string> := ["default", "kube-", "monitoring", "gatekeeper", "draughtsman"]

  datatype Config = Config(k8sClient: Handle, logger: Handle, legacyOrgClient: Handle)

  datatype Resource = Resource(k8sClient: Handle, logger: Handle, legacyOrgClient: Handle)

  /** New: each of the three collaborators must be set; the resource copies them. */
  function New(config: Config): (r: Result<Resource>)
    ensures r.Ok? <==> !config.k8sClient.Nil? && !config.logger.Nil? && !config.legacyOrgClient.Nil?
    ensures r.Err? ==> r.error == InvalidConfig
    ensures r.Ok? ==> r.value == Resource(config.k8sClient, config.logger, config.legacyOrgClient)
  {
    if config.k8sClient.Nil? then Err(InvalidConfig)
    else if config.logger.Nil? then Err(InvalidConfig)
    else if config.legacyOrgClient.Nil? then Err(InvalidConfig)
    else Ok(Resource(config.k8sClient, config.logger, config.legacyOrgClient))
  }

  /** newOrganizationNamespace: "org-<name>" with exactly the organization and managed-by labels. */
  function NewOrganizationNamespace(organizationName: string): (ns: Namespace)
    ensures ns.name == NamePrefix + organizationName && ns.name[|NamePrefix|..] == organizationName
    ensures ns.labels.Keys == {OrganizationLabel, ManagedByLabel}
    ensures ns.labels[OrganizationLabel] == organizationName && ns.labels[ManagedByLabel] == ProjectName
    ensures ns.finalizers == [] && !ns.deleting && ns.owner.None?
  {
    Namespace(NamePrefix + organizationName,
      map[OrganizationLabel := organizationName, ManagedByLabel := ProjectName], [], false, None)
  }

  /** The legacy revision's list of forbidden prefixes is the newer one's. */
  lemma SameForbiddenNames()
    ensures ForbiddenPrefixes == PkgOrganization.ForbiddenPrefixes
  {
  }

  // ----- create.go: findSecret

  /** findSecret, lines 97-120. The legacy source file carries its own copy of
      the lookup, the same code as pkg/resources/organization/create.go:118-141;
      this function mirrors that copy, and its contract is that it behaves
      exactly as the newer revision's: the first labelled credentiald secret,
      else giantswarm/credential-default, else secretNotFound. */
  function FindSecretSpec(s: State, orgName: string): (r: Effect<Result<Secret>>)
    ensures r == PkgOrganization.FindSecretSpec(s, orgName)
  {
    var listed := ListSecrets(s, map["app" := "credentiald", OrganizationLabel := orgName]);
    if listed.out.Err? then Effect(listed.after, Err(listed.out.error))
    else if |listed.out.value| > 0 then Effect(listed.after, Ok(listed.out.value[0]))
    else
      var got := GetSecret(listed.after, "giantswarm", "credential-default");
      if got.out.Err? && IsNotFound(got.out.error) then Effect(got.after, Err(SecretNotFound))
      else if got.out.Err? then Effect(got.after, Err(got.out.error))
      else Effect(got.after, Ok(got.out.value))
  }

  // ----- create.go: ensureOrganizationHasSubscriptionIdAnnotation

  const SubscriptionKey := "azure.azureoperator.subscriptionid"

  const SubscriptionAnnotation := "subscription"

  /** Line 87 as written: Go's assignment into a map panics when the map is nil. */
  function SetAnnotationAsWritten(annotations: Option<map<string, string>>, key: string, value: string)
    : (r: Outcome<map<string, string>>)
    ensures r.Panicked? <==> annotations.None?
    ensures r.Completed? ==> r.value == annotations.value[key := value]
  {
    if annotations.None? then Panicked else Completed(annotations.value[key := value])
  }

  /** The assignment as evidently intended: a nil map is first replaced by an empty one. */
  function SetAnnotation(annotations: Option<map<string, string>>, key: string, value: string)
    : (r: map<string, string>)
    ensures key in r && r[key] == value
    ensures forall k :: k != key ==> (k in r <==> annotations.Some? && k in annotations.value)
    ensures forall k :: k != key && k in r ==> r[k] == annotations.value[k]
  {
    var current := if annotations.Some? then annotations.value else map[];
    current[key := value]
  }

  /** Lines 74-95 as written: when the secret has a subscription id and the
      record has no annotations at all, the step panics. */
  function AnnotationAsWrittenSpec(s: State, organization: Organization): (r: Effect<Outcome<Option<Error>>>)
    ensures r.out.Panicked? <==>
      FindSecretSpec(s, organization.name).out.Ok?
      && SubscriptionKey in FindSecretSpec(s, organization.name).out.value.data
      && organization.annotations.None?
  {
    var found := FindSecretSpec(s, organization.name);
    if found.out.Err? then
      if found.out.error == SecretNotFound then Effect(found.after, Completed(None))
      else Effect(found.after, Completed(Some(found.out.error)))
    else if SubscriptionKey in found.out.value.data then
      var written := SetAnnotationAsWritten(organization.annotations, SubscriptionAnnotation,
                                             found.out.value.data[SubscriptionKey]);
      if written.Panicked? then Effect(found.after, Panicked)
      else
        var updated := UpdateOrganization(found.after, organization.(annotations := Some(written.value)));
        Effect(updated.after, Completed(updated.out))
    else Effect(found.after, Completed(None))
  }

  /** ensureOrganizationHasSubscriptionIdAnnotation, lines 74-95, with the
      annotation set through SetAnnotation. */
  function AnnotationSpec(s: State, organization: Organization): (r: Effect<Option<Error>>)
    ensures Extends(s, r.after) && RecordOnly(s, r.after, organization.name)
    ensures var found := FindSecretSpec(s, organization.name);
      // a missing secret is not an error; other lookup errors are returned
      (found.out == Err(SecretNotFound) ==> r.out.None? && Unwritten(s, r.after))
      && (found.out.Err? && found.out.error != SecretNotFound ==> r.out == Some(found.out.error) && Unwritten(s, r.after))
      // the record is updated if and only if the secret has the key, whatever its value
      && (found.out.Ok? && SubscriptionKey !in found.out.value.data ==> r.out.None? && Unwritten(s, r.after))
      && (found.out.Ok? && SubscriptionKey in found.out.value.data ==>
            r.after.log == s.log + [OrgMetadata(organization.name)])
    // after the update the record carries the id and the other annotations of `organization`
    ensures var found := FindSecretSpec(s, organization.name);
      found.out.Ok? && SubscriptionKey in found.out.value.data && r.out.None? && organization.name in r.after.orgs ==>
        r.after.orgs[organization.name].annotations
        == Some(SetAnnotation(organization.annotations, SubscriptionAnnotation, found.out.value.data[SubscriptionKey]))
  {
    var found := FindSecretSpec(s, organization.name);
    if found.out.Err? then
      if found.out.error == SecretNotFound then Effect(found.after, None) else Effect(found.after, Some(found.out.error))
    else if SubscriptionKey in found.out.value.data then
      var annotations := SetAnnotation(organization.annotations, SubscriptionAnnotation, found.out.value.data[SubscriptionKey]);
      UpdateOrganization(found.after, organization.(annotations := Some(annotations)))
    else Effect(found.after, None)
  }

  /** A record without annotations whose credentiald secret has a subscription
      id (here an empty one) makes the step as written panic, while the
      corrected step updates the record. */
  lemma AnnotationPanicsOnNilAnnotations(s: State, organization: Organization, secret: Secret)
    requires !Failing(s) && organization.annotations.None?
    requires organization.name in s.orgs && !s.orgs[organization.name].deleting
    requires s.secrets == [secret] && SubscriptionKey in secret.data
    requires secret.labels == map["app" := "credentiald", OrganizationLabel := organization.name]
    ensures AnnotationAsWrittenSpec(s, organization).out.Panicked?
    ensures var r := AnnotationSpec(s, organization);
      !FaultAt(s, 1) ==>
        r.out.None? && organization.name in r.after.orgs
        && r.after.orgs[organization.name].annotations == Some(map[SubscriptionAnnotation := secret.data[SubscriptionKey]])
  {
    var selector := map["app" := "credentiald", OrganizationLabel := organization.name];
    assert Selects(selector, secret);
    MatchingFirst(s.secrets, selector, 0);
    var annotations := SetAnnotation(None, SubscriptionAnnotation, secret.data[SubscriptionKey]);
    assert annotations == map[SubscriptionAnnotation := secret.data[SubscriptionKey]];
  }

  /** Where the code as written does not panic, the corrected step does the same. */
  lemma AnnotationAgrees(s: State, organization: Organization)
    ensures var written := AnnotationAsWrittenSpec(s, organization);
      written.out.Completed? ==> AnnotationSpec(s, organization) == Effect(written.after, written.out.value)
  {
  }

  // ----- create.go: EnsureCreated

  /** Lines 49-71: the status update naming `namespace`, then the legacy directory entry. */
  function StatusAndLegacySpec(s: State, org: Organization, namespace: string): (r: Effect<Option<Error>>)
    ensures var legacy := ServiceKey.LegacyOrganizationName(org);
      r.after.log <= s.log + [OrgStatus(org.name), CompanyCreate(legacy)]
      && (r.out.None? ==> r.after.log == s.log + [OrgStatus(org.name), CompanyCreate(legacy)])
      && r.after.namespaces == s.namespaces
      && (legacy !in s.companies && legacy in r.after.companies ==>
            org.name in r.after.orgs && r.after.orgs[org.name].statusNamespace == namespace)
      && (r.out.None? ==> org.name in r.after.orgs && r.after.orgs[org.name].statusNamespace == namespace
                          && legacy in r.after.companies)
    // an existing company (AlreadyExists) counts as success; any other directory error is returned
    ensures !Failing(s) && org.name in s.orgs ==>
      (r.out.None? <==> !FaultAt(s, 1)) && (r.out.Some? ==> r.out.value == Other)
    ensures s.faults == [] && org.name in s.orgs ==> r.out.None?
  {
    var status := SetOrganizationStatus(s, org.name, namespace);
    if status.out.Some? then status
    else
      var legacy := CreateCompany(status.after, ServiceKey.LegacyOrganizationName(org));
      if legacy.out.Some? && IsAlreadyExists(legacy.out.value) then Effect(legacy.after, None) else legacy
  }

  /** Lines 32-71, the steps after the prefix check. */
  function CreateStepsSpec(s: State, org: Organization): (r: Effect<Option<Error>>)
    ensures Extends(s, r.after)
  {
    var annotated := AnnotationSpec(s, org);
    if annotated.out.Some? then annotated
    else
      var created := CreateNamespace(annotated.after, NewOrganizationNamespace(org.name));
      if created.out.Some? && !IsAlreadyExists(created.out.value) then created
      else StatusAndLegacySpec(created.after, org, NamePrefix + org.name)
  }

  /** EnsureCreated, lines 19-72. */
  function EnsureCreatedSpec(s: State, obj: ServiceKey.Object): (r: Effect<Option<Error>>)
    // a conversion error is returned before any call
    ensures ServiceKey.ToOrganization(obj).Err? ==> r == Effect(s, Some(WrongType))
    // a forbidden name is accepted without any call
    ensures ServiceKey.ToOrganization(obj).Ok? && HasAnyPrefix(ServiceKey.ToOrganization(obj).value.name, ForbiddenPrefixes)
            ==> r == Effect(s, None)
    ensures Extends(s, r.after)
  {
    var converted := ServiceKey.ToOrganization(obj);
    if converted.Err? then Effect(s, Some(converted.error))
    else if HasAnyPrefix(converted.value.name, ForbiddenPrefixes) then Effect(s, None)
    else CreateStepsSpec(s, converted.value)
  }

  /** The writes of one pass, in order: the optional annotation update, the
      namespace create, the status update, the legacy create. A pass that ends
      in an error stops somewhere along this sequence; a successful one issues
      all of it. */
  lemma CreateStepsInOrder(s: State, org: Organization)
    ensures var r := CreateStepsSpec(s, org);
      var full := AnnotationSpec(s, org).after.log
                  + [NsCreate(NamePrefix + org.name), OrgStatus(org.name), CompanyCreate(ServiceKey.LegacyOrganizationName(org))];
      r.after.log <= full && (r.out.None? ==> r.after.log == full)
  {
    var annotated := AnnotationSpec(s, org);
    var tail := [OrgStatus(org.name), CompanyCreate(ServiceKey.LegacyOrganizationName(org))];
    var full := annotated.after.log + [NsCreate(NamePrefix + org.name)] + tail;
    assert annotated.after.log + [NsCreate(NamePrefix + org.name), OrgStatus(org.name), CompanyCreate(ServiceKey.LegacyOrganizationName(org))] == full;
    if annotated.out.None? {
      var created := CreateNamespace(annotated.after, NewOrganizationNamespace(org.name));
      assert created.after.log == annotated.after.log + [NsCreate(NamePrefix + org.name)];
    }
  }

  /** The legacy entry is created only once the namespace exists and the
      status names it; an existing namespace is never modified. */
  lemma LegacyCreateFollowsStatus(s: State, org: Organization)
    ensures var r := CreateStepsSpec(s, org);
      var ns := NewOrganizationNamespace(org.name);
      var legacy := ServiceKey.LegacyOrganizationName(org);
      (legacy !in s.companies && legacy in r.after.companies ==>
         org.name in r.after.orgs && r.after.orgs[org.name].statusNamespace == ns.name && ns.name in r.after.namespaces)
      && (ns.name in s.namespaces ==> r.after.namespaces == s.namespaces)
  {
    var annotated := AnnotationSpec(s, org);
    if annotated.out.None? {
      var ns := NewOrganizationNamespace(org.name);
      var created := CreateNamespace(annotated.after, ns);
      if !(created.out.Some? && !IsAlreadyExists(created.out.value)) {
        assert ns.name in created.after.namespaces;
      }
    }
  }

  /** After a successful pass of an allowed name, status.namespace is the
      derived name, the namespace exists and the directory knows the legacy name. */
  lemma EnsureCreatedConverged(s: State, org: Organization)
    requires !HasAnyPrefix(org.name, ForbiddenPrefixes)
    ensures var r := EnsureCreatedSpec(s, ServiceKey.OrgPointer(Some(org)));
      var ns := NewOrganizationNamespace(org.name);
      r.out.None? ==>
        org.name in r.after.orgs && r.after.orgs[org.name].statusNamespace == ns.name
        && ns.name in r.after.namespaces && ServiceKey.LegacyOrganizationName(org) in r.after.companies
  {
    var annotated := AnnotationSpec(s, org);
    if annotated.out.None? {
      var ns := NewOrganizationNamespace(org.name);
      var created := CreateNamespace(annotated.after, ns);
      if !(created.out.Some? && !IsAlreadyExists(created.out.value)) {
        assert ns.name in created.after.namespaces;
      }
    }
  }

  /** Without failures the annotation step succeeds and keeps a live record in place. */
  lemma AnnotationProgress(s: State, org: Organization)
    requires s.faults == [] && org.name in s.orgs && !s.orgs[org.name].deleting
    ensures var r := AnnotationSpec(s, org);
      r.out.None? && r.after.faults == [] && org.name in r.after.orgs
  {
    var found := FindSecretSpec(s, org.name);
    assert found.out.Ok? || found.out == Err(SecretNotFound);
  }

  /** Without failures, a pass for an allowed, live record that is in the store succeeds. */
  lemma EnsureCreatedProgress(s: State, org: Organization)
    requires s.faults == [] && org.name in s.orgs && !s.orgs[org.name].deleting
    requires !HasAnyPrefix(org.name, ForbiddenPrefixes)
    ensures EnsureCreatedSpec(s, ServiceKey.OrgPointer(Some(org))).out.None?
  {
    AnnotationProgress(s, org);
    var annotated := AnnotationSpec(s, org);
    var created := CreateNamespace(annotated.after, NewOrganizationNamespace(org.name));
    assert created.after.faults == [] && org.name in created.after.orgs;
  }

  // ----- delete.go

  /** EnsureDeleted, lines 14-33: one delete of "org-<name>", NotFound counting as success. */
  function EnsureDeletedSpec(s: State, obj: ServiceKey.Object): (r: Effect<Option<Error>>)
    ensures ServiceKey.ToOrganization(obj).Err? ==> r == Effect(s, Some(WrongType))
    ensures ServiceKey.ToOrganization(obj).Ok? ==>
      var name := NamePrefix + ServiceKey.ToOrganization(obj).value.name;
      r.after.log == s.log + [NsDelete(name)] && NamespaceOnly(s, r.after, name)
      && (r.out.None? <==> !Failing(s)) && (r.out.Some? ==> r.out.value == Other)
      && (!Failing(s) ==> name !in r.after.namespaces || r.after.namespaces[name].deleting)
  {
    var converted := ServiceKey.ToOrganization(obj);
    if converted.Err? then Effect(s, Some(converted.error))
    else
      var deleted := DeleteNamespace(s, NamePrefix + converted.value.name);
      if deleted.out.Some? && IsNotFound(deleted.out.value) then Effect(deleted.after, None) else deleted
  }

  /** A repeated delete succeeds and changes nothing more. */
  lemma EnsureDeletedIdempotent(s: State, obj: ServiceKey.Object)
    requires s.faults == [] && ServiceKey.ToOrganization(obj).Ok?
    ensures var first := EnsureDeletedSpec(s, obj);
      var second := EnsureDeletedSpec(first.after, obj);
      first.out.None? && second.out.None? && SameObjects(first.after, second.after)
  {
    var name := NamePrefix + ServiceKey.ToOrganization(obj).value.name;
    var first := EnsureDeletedSpec(s, obj);
    assert first.after.faults == [];
    if name in first.after.namespaces {
      var ns := first.after.namespaces[name];
      assert ns.deleting && ns.finalizers != [];
      assert first.after.namespaces[name := ns.(deleting := true)] == first.after.namespaces;
    }
  }

  // ----- The resource's methods

  method FindSecret(store: Cluster.Store, orgName: string) returns (r: Result<Secret>)
    modifies store
    ensures Effect(store.Contents(), r) == FindSecretSpec(old(store.Contents()), orgName)
  {
    var secrets := store.ListSecrets(map["app" := "credentiald", OrganizationLabel := orgName]);
    if secrets.Err? {
      return Err(secrets.error);
    }
    if |secrets.value| > 0 {
      return Ok(secrets.value[0]);
    }
    var secret := store.GetSecret("giantswarm", "credential-default");
    if secret.Err? && IsNotFound(secret.error) {
      return Err(SecretNotFound);
    } else if secret.Err? {
      return Err(secret.error);
    }
    return secret;
  }

  method EnsureOrganizationHasSubscriptionIdAnnotation(store: Cluster.Store, organization: Organization)
    returns (err: Option<Error>)
    modifies store
    ensures Effect(store.Contents(), err) == AnnotationSpec(old(store.Contents()), organization)
  {
    var secret := FindSecret(store, organization.name);
    if secret.Err? && secret.error == SecretNotFound {
      return None;
    } else if secret.Err? {
      return Some(secret.error);
    }
    if SubscriptionKey in secret.value.data {
      var subscription := secret.value.data[SubscriptionKey];
      var annotated := organization.(annotations := Some(SetAnnotation(organization.annotations, SubscriptionAnnotation, subscription)));
      err := store.UpdateOrganization(annotated);
      if err.Some? {
        return err;
      }
    }
    return None;
  }

  method EnsureCreated(store: Cluster.Store, obj: ServiceKey.Object) returns (err: Option<Error>)
    modifies store
    ensures Effect(store.Contents(), err) == EnsureCreatedSpec(old(store.Contents()), obj)
  {
    var converted := ServiceKey.ToOrganization(obj);
    if converted.Err? {
      return Some(converted.error);
    }
    var org := converted.value;
    var forbidden := StartsWithAny(org.name, ForbiddenPrefixes);
    if forbidden {
      return None;
    }
    err := EnsureOrganizationHasSubscriptionIdAnnotation(store, org);
    if err.Some? {
      return err;
    }
    var orgNamespace := NewOrganizationNamespace(org.name);
    err := store.CreateNamespace(orgNamespace);
    if err.Some? && !IsAlreadyExists(err.value) {
      return err;
    }
    err := UpdateStatusAndCreateLegacy(store, org, orgNamespace.name);
  }

  /** Lines 49-71 of EnsureCreated: status.namespace set to `namespace`, then the legacy entry. */
  method UpdateStatusAndCreateLegacy(store: Cluster.Store, org: Organization, namespace: string)
    returns (err: Option<Error>)
    modifies store
    ensures Effect(store.Contents(), err) == StatusAndLegacySpec(old(store.Contents()), org, namespace)
  {
    var updated := org.(statusNamespace := namespace);
    err := store.SetOrganizationStatus(updated.name, updated.statusNamespace);
    if err.Some? {
      return err;
    }
    var legacyOrgName := ServiceKey.LegacyOrganizationName(updated);
    err := store.CreateCompany(legacyOrgName);
    if err.Some? && IsAlreadyExists(err.value) {
      return None;
    } else if err.Some? {
      return err;
    }
    return None;
  }

  method EnsureDeleted(store: Cluster.Store, obj: ServiceKey.Object) returns (err: Option<Error>)
    modifies store
    ensures Effect(store.Contents(), err) == EnsureDeletedSpec(old(store.Contents()), obj)
  {
    var converted := ServiceKey.ToOrganization(obj);
    if converted.Err? {
      return Some(converted.error);
    }
    err := store.DeleteNamespace(NamePrefix + converted.value.name);
    if err.Some? && IsNotFound(err.value) {
      return None;
    } else if err.Some? {
      return err;
    }
    return None;
  }
}
