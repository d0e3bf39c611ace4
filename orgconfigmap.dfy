/** service/controller/resource/orgconfigmap: the legacy resource that computes
    the config maps an organization should have, one "organization-values" map
    holding the installation's base domain. The YAML encoder is a parameter. */
module OrgConfigMap {
  import opened Meta
  import ServiceKey

  // ----- resource.go

  const Name := "orgconfigmap"

  datatype Config = Config(k8sClient: Handle, logger: Handle, baseDomain: string)

  datatype Resource = Resource(k8sClient: Handle, logger: Handle, baseDomain: string)

  /** New, lines 36-56: client, logger and base domain must all be set. */
  function New(config: Config): (r: Result<Resource>)
    ensures r.Ok? <==> !config.k8sClient.Nil? && !config.logger.Nil? && config.baseDomain != ""
    ensures r.Err? ==> r.error == InvalidConfig
    ensures r.Ok? ==> r.value == Resource(config.k8sClient, config.logger, config.baseDomain)
  {
    if config.k8sClient.Nil? then Err(InvalidConfig)
    else if config.logger.Nil? then Err(InvalidConfig)
    else if config.baseDomain == "" then Err(InvalidConfig)
    else Ok(Resource(config.k8sClient, config.logger, config.baseDomain))
  }

  // ----- desired.go

  /** annotation.Notes of package k8smetadata. */
  const NotesAnnotation := "giantswarm.io/notes"

  const ValuesConfigMapName := "organization-values"

  const ValuesKey := "values"

  const BaseDomainKey := "baseDomain"

  /** yaml.Marshal of one values map: a document, or an encoding error. */
  type Encoder = map<string, string> -> Result<string>

  datatype ConfigMapSpec = ConfigMapSpec(name: string, namespace: string, values: map<string, string>)

  datatype ConfigMap = ConfigMap(
    name: string,
    namespace: string,
    annotations: map<string, string>,
    labels: map<string, string>,
    data: map<string, string>)

  /** newConfigMap, lines 54-77. */
  function NewConfigMap(cr: Organization, spec: ConfigMapSpec, encode: Encoder): (r: Result<ConfigMap>)
    // an encoding error is returned
    ensures encode(spec.values).Err? ==> r == Err(encode(spec.values).error)
    // otherwise the map has the spec's name and namespace, the notes annotation,
    // the managed-by label, and one data key holding the encoded values
    ensures encode(spec.values).Ok? ==>
      r.Ok? && r.value.name == spec.name && r.value.namespace == spec.namespace
      && r.value.annotations == map[NotesAnnotation := "DO NOT EDIT. Values managed by " + ProjectName + "."]
      && r.value.labels == map[ManagedByLabel := ProjectName]
      && r.value.data.Keys == {ValuesKey} && r.value.data[ValuesKey] == encode(spec.values).value
  {
    var yamlValues := encode(spec.values);
    if yamlValues.Err? then Err(yamlValues.error)
    else
      Ok(ConfigMap(spec.name, spec.namespace,
        map[NotesAnnotation := "DO NOT EDIT. Values managed by " + ProjectName + "."],
        map[ManagedByLabel := ProjectName],
        map[ValuesKey := yamlValues.value]))
  }

  /** Lines 42-49: the maps of all specs in order, or the first error. */
  function ConfigMaps(cr: Organization, specs: seq<ConfigMapSpec>, encode: Encoder): (r: Result<seq<ConfigMap>>)
    ensures r.Ok? ==>
      |r.value| == |specs| && forall i :: 0 <= i < |specs| ==> NewConfigMap(cr, specs[i], encode) == Ok(r.value[i])
    ensures r.Err? ==>
      exists i :: 0 <= i < |specs| && NewConfigMap(cr, specs[i], encode) == Err(r.error)
                  && forall j :: 0 <= j < i ==> NewConfigMap(cr, specs[j], encode).Ok?
    decreases |specs|
  {
    if specs == [] then Ok([])
    else
      var done := ConfigMaps(cr, specs[..|specs| - 1], encode);
      if done.Err? then done
      else
        var configMap := NewConfigMap(cr, specs[|specs| - 1], encode);
        if configMap.Err? then Err(configMap.error) else Ok(done.value + [configMap.value])
  }

  /** Lines 32-40: the one spec of an organization. */
  function DesiredSpecs(cr: Organization, baseDomain: string): seq<ConfigMapSpec> {
    [ConfigMapSpec(ValuesConfigMapName, cr.metaNamespace, map[BaseDomainKey := baseDomain])]
  }

  /** GetDesiredState, lines 19-52. */
  function DesiredStateSpec(r: Resource, obj: ServiceKey.Object, encode: Encoder): (d: Result<seq<ConfigMap>>)
    // a conversion error is returned
    ensures ServiceKey.ToOrganization(obj).Err? ==> d == Err(WrongType)
    // a record being deleted wants no config map
    ensures ServiceKey.ToOrganization(obj).Ok? && ServiceKey.ToOrganization(obj).value.deleting ==> d == Ok([])
    // a live record wants exactly one map named organization-values in its namespace, holding only the base domain
    ensures var cr := ServiceKey.ToOrganization(obj);
      cr.Ok? && !cr.value.deleting ==>
        var values := map[BaseDomainKey := r.baseDomain];
        (encode(values).Err? ==> d == Err(encode(values).error))
        && (encode(values).Ok? ==>
              d.Ok? && |d.value| == 1 && d.value[0].name == ValuesConfigMapName
              && d.value[0].namespace == cr.value.metaNamespace
              && d.value[0].data == map[ValuesKey := encode(values).value])
  {
    var cr := ServiceKey.ToOrganization(obj);
    if cr.Err? then Err(cr.error)
    else if cr.value.deleting then Ok([])
    else ConfigMaps(cr.value, DesiredSpecs(cr.value, r.baseDomain), encode)
  }

  method GetDesiredState(r: Resource, obj: ServiceKey.Object, encode: Encoder) returns (d: Result<seq<ConfigMap>>)
    ensures d == DesiredStateSpec(r, obj, encode)
  {
    var cr := ServiceKey.ToOrganization(obj);
    if cr.Err? {
      return Err(cr.error);
    }
    var configMaps: seq<ConfigMap> := [];
    if cr.value.deleting {
      return Ok(configMaps);
    }
    var configMapSpecs := DesiredSpecs(cr.value, r.baseDomain);
    for i := 0 to |configMapSpecs|
      invariant ConfigMaps(cr.value, configMapSpecs[..i], encode) == Ok(configMaps)
    {
      assert configMapSpecs[..i + 1][..i] == configMapSpecs[..i];
      var configMap := NewConfigMap(cr.value, configMapSpecs[i], encode);
      if configMap.Err? {
        return Err(configMap.error);
      }
      configMaps := configMaps + [configMap.value];
    }
    assert configMapSpecs[..|configMapSpecs|] == configMapSpecs;
    return Ok(configMaps);
  }
}
