/** pkg/namespace/resource.go: the constants and constructors of the resource
    the controllers revision drives. Its EnsureCreated and EnsureDeleted live in
    files that are not part of this model; the controllers revision takes them
    as abstract steps. */
module PkgNamespace {
  import opened Meta

  const NamePrefix := "org-"

  const ForbiddenPrefixes: seq<string> := ["default", "kube-", "monitoring", "gatekeeper", "draughtsman"]

  datatype Config = Config(client: Handle, logger: Handle)

  datatype Resource = Resource(client: Handle, logger: Handle)

  /** New: a nil client or a zero logger is an invalid configuration;
      otherwise the resource keeps both. */
  function New(config: Config): (r: Result<Resource>)
    ensures r.Ok? <==> !config.client.Nil? && !config.logger.Nil?
    ensures r.Err? ==> r.error == InvalidConfig
    ensures r.Ok? ==> r.value.client == config.client && r.value.logger == config.logger
  {
    if config.client.Nil? then Err(InvalidConfig)
    else if config.logger.Nil? then Err(InvalidConfig)
    else Ok(Resource(config.client, config.logger))
  }

  /** newOrganizationNamespace: "org-<name>" with exactly the organization and
      managed-by labels. */
  function NewOrganizationNamespace(organizationName: string): (ns: Namespace)
    ensures ns.name == NamePrefix + organizationName
    ensures ns.labels.Keys == {OrganizationLabel, ManagedByLabel}
    ensures ns.labels[OrganizationLabel] == organizationName && ns.labels[ManagedByLabel] == ProjectName
    ensures ns.finalizers == [] && !ns.deleting && ns.owner.None?
  {
    Namespace(NamePrefix + organizationName,
      map[OrganizationLabel := organizationName, ManagedByLabel := ProjectName], [], false, None)
  }

  /** newOrg: a record with the given name, no metadata besides it, and an empty status. */
  function NewOrg(name: string): (o: Organization)
    ensures o.name == name && o.statusNamespace == "" && o.finalizers == [] && o.annotations.None?
    ensures !o.deleting && o.metaNamespace == ""
  {
    EmptyOrganization(name)
  }

  /** "kube-test" starts with "kube-", so it is a forbidden name. */
  lemma KubeTestIsForbidden()
    ensures HasAnyPrefix("kube-test", ForbiddenPrefixes)
  {
    assert HasPrefix("kube-test", ForbiddenPrefixes[1]);
  }
}
