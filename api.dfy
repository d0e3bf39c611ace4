/** What the cluster store and the legacy company directory do with each call
    the operator makes. A call is a pure function from the store's state to the
    state after it and the call's answer.

    Every call consumes one entry of a fault schedule: when the entry is true the
    call fails with `Other` and changes no object, which is how transient
    failures of the API server and of the directory are modelled. The log
    records every write request the operator issues, in order, whether or not
    it succeeds. */
module Api {
  import opened Meta

  /** Records keyed by their own name. An object being deleted stays in the
      store only while it still carries a finalizer. */
  type Organizations = m: map<string, Organization>
    | forall n :: n in m ==> m[n].name == n && (m[n].deleting ==> m[n].finalizers != [])
    witness map[]

  /** Namespaces keyed by their own name, under the same deletion rule. */
  type Namespaces = m: map<string, Namespace>
    | forall n :: n in m ==> m[n].name == n && (m[n].deleting ==> m[n].finalizers != [])
    witness map[]

  /** A write request issued to the store or to the legacy directory. */
  datatype Write =
    | OrgMetadata(org: string)                                // Patch or Update of a record's metadata
    | OrgStatus(org: string)                                  // Patch or Update of its status
    | NsCreate(ns: string)
    | NsUpdate(ns: string)
    | NsLabelPatch(ns: string, key: string, value: string)    // merge patch of one label
    | NsDelete(ns: string)
    | CompanyCreate(company: string)                          // legacy directory entry

  predicate IsNamespaceWrite(w: Write) {
    w.NsCreate? || w.NsUpdate? || w.NsLabelPatch? || w.NsDelete?
  }

  datatype State = State(
    orgs: Organizations,
    namespaces: Namespaces,
    secrets: seq<Secret>,      // in the order the store lists them
    companies: set<string>,    // ids of the legacy directory's companies
    faults: seq<bool>,
    log: seq<Write>)

  /** The state after a call, and the call's answer. */
  datatype Effect<T> = Effect(after: State, out: T)

  /** Whether the k-th call from now fails. */
  predicate FaultAt(s: State, k: nat) {
    k < |s.faults| && s.faults[k]
  }

  predicate Failing(s: State) { FaultAt(s, 0) }

  /** The state with one entry of the fault schedule consumed. */
  function Next(s: State): (t: State)
    ensures t.orgs == s.orgs && t.namespaces == s.namespaces && t.secrets == s.secrets
    ensures t.companies == s.companies && t.log == s.log
    ensures forall k: nat :: FaultAt(t, k) == FaultAt(s, k + 1)
    ensures s.faults == [] ==> t == s
  {
    s.(faults := if s.faults == [] then [] else s.faults[1..])
  }

  /** A write `w` is issued: one schedule entry consumed, `w` logged. */
  function Issue(s: State, w: Write): (t: State)
    ensures t.log == s.log + [w]
  {
    Next(s).(log := s.log + [w])
  }

  /** No object changed and nothing was written; only the fault schedule may have moved. */
  predicate Unwritten(s: State, t: State) {
    t.orgs == s.orgs && t.namespaces == s.namespaces && t.secrets == s.secrets
    && t.companies == s.companies && t.log == s.log
  }

  /** The objects of the two states agree, whatever was logged. */
  predicate SameObjects(s: State, t: State) {
    t.orgs == s.orgs && t.namespaces == s.namespaces && t.secrets == s.secrets
    && t.companies == s.companies
  }

  /** The log of `t` continues the log of `s`: writes are only ever appended. */
  predicate Extends(s: State, t: State) {
    s.log <= t.log
  }

  /** Every write issued between `s` and `t` that concerns a namespace names `ns`. */
  predicate NamespaceWritesOnly(s: State, t: State, ns: string) {
    forall i :: |s.log| <= i < |t.log| && IsNamespaceWrite(t.log[i]) ==> t.log[i].ns == ns
  }

  /** Only the record `org` and the namespace `ns` may differ between `s` and `t`. */
  predicate OnlyTouches(s: State, t: State, org: string, ns: string) {
    t.orgs - {org} == s.orgs - {org} && t.namespaces - {ns} == s.namespaces - {ns}
    && t.secrets == s.secrets && t.companies == s.companies
  }

  /** Only the record `org` may differ between `s` and `t`. */
  predicate RecordOnly(s: State, t: State, org: string) {
    t.orgs - {org} == s.orgs - {org} && t.namespaces == s.namespaces
    && t.secrets == s.secrets && t.companies == s.companies
  }

  /** Only the namespace `ns` may differ between `s` and `t`. */
  predicate NamespaceOnly(s: State, t: State, ns: string) {
    t.orgs == s.orgs && t.namespaces - {ns} == s.namespaces - {ns}
    && t.secrets == s.secrets && t.companies == s.companies
  }

  lemma NamespaceWritesOnlyTransitive(s: State, t: State, u: State, ns: string)
    requires Extends(s, t) && Extends(t, u)
    requires NamespaceWritesOnly(s, t, ns) && NamespaceWritesOnly(t, u, ns)
    ensures NamespaceWritesOnly(s, u, ns)
  {
    forall i | |s.log| <= i < |t.log|
      ensures u.log[i] == t.log[i]
    {
      assert u.log[i] == u.log[..|t.log|][i];
    }
  }

  /** Stores a record, or purges it once it is being deleted and no finalizer is left. */
  function StoreOrganization(m: Organizations, o: Organization): Organizations {
    if o.deleting && o.finalizers == [] then m - {o.name} else m[o.name := o]
  }

  /** Stores a namespace, or purges it once it is being deleted and no finalizer is left. */
  function StoreNamespace(m: Namespaces, ns: Namespace): Namespaces {
    if ns.deleting && ns.finalizers == [] then m - {ns.name} else m[ns.name := ns]
  }

  // ----- Organization records

  function GetOrganization(s: State, name: string): (r: Effect<Result<Organization>>)
    ensures r.after == Next(s)
  {
    if Failing(s) then Effect(Next(s), Err(Other))
    else if name in s.orgs then Effect(Next(s), Ok(s.orgs[name]))
    else Effect(Next(s), Err(NotFound))
  }

  /** List of all records; only its length is used. */
  function ListOrganizations(s: State): Effect<Result<nat>> {
    if Failing(s) then Effect(Next(s), Err(Other)) else Effect(Next(s), Ok(|s.orgs|))
  }

  /** A merge patch that sets the record's finalizer list. */
  function PatchOrganizationFinalizers(s: State, name: string, finalizers: seq<string>): Effect<Option<Error>> {
    var t := Issue(s, OrgMetadata(name));
    if Failing(s) then Effect(t, Some(Other))
    else if name !in s.orgs then Effect(t, Some(NotFound))
    else Effect(t.(orgs := StoreOrganization(s.orgs, s.orgs[name].(finalizers := finalizers))), None)
  }

  /** A merge patch `{"metadata":{"annotations":{key: value}}}`. */
  function PatchOrganizationAnnotation(s: State, name: string, key: string, value: string): Effect<Option<Error>> {
    var t := Issue(s, OrgMetadata(name));
    if Failing(s) then Effect(t, Some(Other))
    else if name !in s.orgs then Effect(t, Some(NotFound))
    else
      var record := s.orgs[name];
      var annotations := if record.annotations.Some? then record.annotations.value else map[];
      Effect(t.(orgs := s.orgs[name := record.(annotations := Some(annotations[key := value]))]), None)
  }

  /** Update of the record: its metadata (finalizers, annotations) becomes that of `o`;
      the deletion marker and the status stay the store's. */
  function UpdateOrganization(s: State, o: Organization): (r: Effect<Option<Error>>)
    ensures r.after.log == s.log + [OrgMetadata(o.name)] && RecordOnly(s, r.after, o.name)
  {
    var t := Issue(s, OrgMetadata(o.name));
    if Failing(s) then Effect(t, Some(Other))
    else if o.name !in s.orgs then Effect(t, Some(NotFound))
    else
      var stored := s.orgs[o.name].(finalizers := o.finalizers, annotations := o.annotations);
      Effect(t.(orgs := StoreOrganization(s.orgs, stored)), None)
  }

  /** A patch or update of the status subresource that sets status.namespace. */
  function SetOrganizationStatus(s: State, name: string, namespace: string): (r: Effect<Option<Error>>)
    ensures r.after.log == s.log + [OrgStatus(name)] && RecordOnly(s, r.after, name)
  {
    var t := Issue(s, OrgStatus(name));
    if Failing(s) then Effect(t, Some(Other))
    else if name !in s.orgs then Effect(t, Some(NotFound))
    else Effect(t.(orgs := s.orgs[name := s.orgs[name].(statusNamespace := namespace)]), None)
  }

  // ----- Namespaces

  function GetNamespace(s: State, name: string): (r: Effect<Result<Namespace>>)
    ensures r.after == Next(s)
  {
    if Failing(s) then Effect(Next(s), Err(Other))
    else if name in s.namespaces then Effect(Next(s), Ok(s.namespaces[name]))
    else Effect(Next(s), Err(NotFound))
  }

  function CreateNamespace(s: State, ns: Namespace): (r: Effect<Option<Error>>)
    ensures r.after.log == s.log + [NsCreate(ns.name)] && NamespaceOnly(s, r.after, ns.name)
  {
    var t := Issue(s, NsCreate(ns.name));
    if Failing(s) then Effect(t, Some(Other))
    else if ns.name in s.namespaces then Effect(t, Some(AlreadyExists))
    else Effect(t.(namespaces := s.namespaces[ns.name := ns.(deleting := false)]), None)
  }

  /** Update of a namespace: labels, finalizers and owner become those of `ns`;
      the deletion marker stays the store's. */
  function UpdateNamespace(s: State, ns: Namespace): Effect<Option<Error>> {
    var t := Issue(s, NsUpdate(ns.name));
    if Failing(s) then Effect(t, Some(Other))
    else if ns.name !in s.namespaces then Effect(t, Some(NotFound))
    else
      var stored := ns.(deleting := s.namespaces[ns.name].deleting);
      Effect(t.(namespaces := StoreNamespace(s.namespaces, stored)), None)
  }

  /** controller-runtime's CreateOrUpdate with a mutate function that sets the
      labels to those of `ns`, as one atomic call: creates `ns` when it is
      absent, updates the stored namespace when its labels differ, and writes
      nothing when they are already equal. */
  function CreateOrUpdateNamespace(s: State, ns: Namespace): Effect<Option<Error>> {
    if Failing(s) then Effect(Next(s), Some(Other))
    else if ns.name !in s.namespaces then
      Effect(Issue(s, NsCreate(ns.name)).(namespaces := s.namespaces[ns.name := ns.(deleting := false)]), None)
    else if s.namespaces[ns.name].labels == ns.labels then Effect(Next(s), None)
    else
      var stored := s.namespaces[ns.name].(labels := ns.labels);
      Effect(Issue(s, NsUpdate(ns.name)).(namespaces := s.namespaces[ns.name := stored]), None)
  }

  /** A merge patch `{"metadata":{"labels":{key: value}}}`. */
  function PatchNamespaceLabel(s: State, name: string, key: string, value: string): (r: Effect<Option<Error>>)
    ensures r.after.log == s.log + [NsLabelPatch(name, key, value)] && NamespaceOnly(s, r.after, name)
  {
    var t := Issue(s, NsLabelPatch(name, key, value));
    if Failing(s) then Effect(t, Some(Other))
    else if name !in s.namespaces then Effect(t, Some(NotFound))
    else
      var ns := s.namespaces[name];
      Effect(t.(namespaces := s.namespaces[name := ns.(labels := ns.labels[key := value])]), None)
  }

  /** Delete: a namespace that still has finalizers is only marked as being
      deleted; one without is removed. */
  function DeleteNamespace(s: State, name: string): (r: Effect<Option<Error>>)
    ensures r.after.log == s.log + [NsDelete(name)] && NamespaceOnly(s, r.after, name)
  {
    var t := Issue(s, NsDelete(name));
    if Failing(s) then Effect(t, Some(Other))
    else if name !in s.namespaces then Effect(t, Some(NotFound))
    else
      var ns := s.namespaces[name];
      if ns.finalizers != [] then Effect(t.(namespaces := s.namespaces[name := ns.(deleting := true)]), None)
      else Effect(t.(namespaces := s.namespaces - {name}), None)
  }

  // ----- Secrets

  /** True when every label of the selector is on the secret. */
  predicate Selects(selector: map<string, string>, secret: Secret) {
    forall k :: k in selector ==> k in secret.labels && secret.labels[k] == selector[k]
  }

  function Matching(secrets: seq<Secret>, selector: map<string, string>): (r: seq<Secret>)
    ensures forall x :: x in r <==> x in secrets && Selects(selector, x)
  {
    if secrets == [] then []
    else if Selects(selector, secrets[0]) then [secrets[0]] + Matching(secrets[1..], selector)
    else Matching(secrets[1..], selector)
  }

  /** The first secret of a selection is the first secret in list order the selector picks. */
  lemma {:induction false} MatchingFirst(secrets: seq<Secret>, selector: map<string, string>, i: nat)
    requires i < |secrets| && Selects(selector, secrets[i])
    requires forall j :: 0 <= j < i ==> !Selects(selector, secrets[j])
    ensures Matching(secrets, selector) != [] && Matching(secrets, selector)[0] == secrets[i]
  {
    if i > 0 {
      MatchingFirst(secrets[1..], selector, i - 1);
    }
  }

  /** List with a label selector (client.MatchingLabels), in list order. */
  function ListSecrets(s: State, selector: map<string, string>): (r: Effect<Result<seq<Secret>>>)
    ensures r.after == Next(s)
  {
    if Failing(s) then Effect(Next(s), Err(Other)) else Effect(Next(s), Ok(Matching(s.secrets, selector)))
  }

  function FindByKey(secrets: seq<Secret>, namespace: string, name: string): (r: Option<Secret>)
    ensures r.Some? ==> r.value in secrets && r.value.namespace == namespace && r.value.name == name
    ensures r.None? ==> forall x :: x in secrets ==> x.namespace != namespace || x.name != name
  {
    if secrets == [] then None
    else if secrets[0].namespace == namespace && secrets[0].name == name then Some(secrets[0])
    else FindByKey(secrets[1..], namespace, name)
  }

  function GetSecret(s: State, namespace: string, name: string): (r: Effect<Result<Secret>>)
    ensures r.after == Next(s)
  {
    if Failing(s) then Effect(Next(s), Err(Other))
    else
      var found := FindByKey(s.secrets, namespace, name);
      if found.Some? then Effect(Next(s), Ok(found.value)) else Effect(Next(s), Err(NotFound))
  }

  // ----- Legacy company directory

  function CreateCompany(s: State, id: string): (r: Effect<Option<Error>>)
    ensures r.after.log == s.log + [CompanyCreate(id)]
    ensures r.after.orgs == s.orgs && r.after.namespaces == s.namespaces && r.after.secrets == s.secrets
  {
    var t := Issue(s, CompanyCreate(id));
    if Failing(s) then Effect(t, Some(Other))
    else if id in s.companies then Effect(t, Some(AlreadyExists))
    else Effect(t.(companies := s.companies + {id}), None)
  }
}
