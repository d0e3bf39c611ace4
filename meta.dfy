/** Object metadata, error kinds and the small helpers every revision of the
    operator shares: the label keys, the project name, strings.HasPrefix and
    the finalizer helpers of controller-runtime's controllerutil package. */
module Meta {

  datatype Option<T> = None | Some(value: T)

  datatype Result<T> = Ok(value: T) | Err(error: Error)

  /** The error kinds the reconcilers tell apart. `Other` stands for every
      failure of the store or of a client that is neither NotFound nor
      AlreadyExists (a conflict, a timeout, a refused request). */
  datatype Error =
    | NotFound
    | AlreadyExists
    | Other
    | SecretNotFound
    | InvalidConfig
    | WrongType
    | EncodingFailed
    | Wrapped(context: string, cause: Error)  // fmt.Errorf("<context>: %w", cause)

  /** The error at the bottom of a chain of wrappings; errors.Is, apierrors.IsNotFound
      and microerror.Cause all look through the wrapping. */
  function Cause(e: Error): (c: Error)
    ensures !c.Wrapped?
    ensures !e.Wrapped? ==> c == e
  {
    if e.Wrapped? then Cause(e.cause) else e
  }

  predicate IsNotFound(e: Error) { Cause(e) == NotFound }

  predicate IsAlreadyExists(e: Error) { Cause(e) == AlreadyExists }

  /** client.IgnoreNotFound: nil for a NotFound error, the error itself otherwise. */
  function IgnoreNotFound(e: Error): (r: Option<Error>)
    ensures r.None? <==> IsNotFound(e)
    ensures r.Some? ==> r.value == e
  {
    if IsNotFound(e) then None else Some(e)
  }

  /** How a Go call ends: it returns its value, or it panics. */
  datatype Outcome<T> = Completed(value: T) | Panicked

  /** The reconcile outcome: ctrl.Result{Requeue} together with the returned error. */
  datatype ReconcileResult = ReconcileResult(requeue: bool, err: Option<Error>)

  const Done := ReconcileResult(false, None)

  /** An opaque client or logger handle; Nil is Go's nil (or a zero logr.Logger). */
  datatype Handle = Nil | Handle(id: nat)

  /** pkg/project: the operator's name. */
  const ProjectName := "organization-operator"

  /** The label keys of package label (giantswarm.io/...). */
  const OrganizationLabel := "giantswarm.io/organization"
  const ManagedByLabel := "giantswarm.io/managed-by"

  /** The Organization record (api/v1alpha1/organization_types.go): its
      metadata, an empty spec, and a status holding the derived namespace. */
  datatype Organization = Organization(
    name: string,
    metaNamespace: string,                        // metadata.namespace, "" for a cluster-scoped record
    annotations: Option<map<string, string>>,     // None is Go's nil map
    finalizers: seq<string>,
    deleting: bool,                               // metadata.deletionTimestamp != nil
    statusNamespace: string)

  /** A record that carries only its name, as `&Organization{ObjectMeta: {Name: n}}` builds it. */
  function EmptyOrganization(name: string): (o: Organization)
    ensures o.name == name && o.annotations.None? && o.finalizers == []
    ensures !o.deleting && o.statusNamespace == "" && o.metaNamespace == ""
  {
    Organization(name, "", None, [], false, "")
  }

  /** A namespace: its labels, its own finalizers, its deletion marker and the
      name of the record that controls it, when an owner reference is set. */
  datatype Namespace = Namespace(
    name: string,
    labels: map<string, string>,
    finalizers: seq<string>,
    deleting: bool,
    owner: Option<string>)

  /** A secret; the byte values of its data are modelled as strings. */
  datatype Secret = Secret(
    namespace: string,
    name: string,
    labels: map<string, string>,
    data: map<string, string>)

  /** Go's `m[k]` on a map of strings: the empty string for a missing key. */
  function LabelValue(m: map<string, string>, k: string): (v: string)
    ensures k in m ==> v == m[k]
    ensures k !in m ==> v == ""
  {
    if k in m then m[k] else ""
  }

  /** strings.HasPrefix */
  predicate HasPrefix(s: string, prefix: string) {
    |prefix| <= |s| && s[..|prefix|] == prefix
  }

  /** True when `s` starts with one of `prefixes`. */
  predicate HasAnyPrefix(s: string, prefixes: seq<string>) {
    exists i :: 0 <= i < |prefixes| && HasPrefix(s, prefixes[i])
  }

  /** The loop `for _, prefix := range prefixes { if strings.HasPrefix(s, prefix) { ... return } }`
      of the EnsureCreated functions: stops at the first prefix that matches. */
  method StartsWithAny(s: string, prefixes: seq<string>) returns (found: bool)
    ensures found == HasAnyPrefix(s, prefixes)
  {
    for i := 0 to |prefixes|
      invariant forall j :: 0 <= j < i ==> !HasPrefix(s, prefixes[j])
    {
      if HasPrefix(s, prefixes[i]) {
        return true;
      }
    }
    return false;
  }

  /** A string that starts with a prefix still starts with it when extended:
      forbidding by prefix forbids every extension of a forbidden name. */
  lemma HasPrefixExtends(s: string, prefix: string, t: string)
    requires HasPrefix(s, prefix)
    ensures HasPrefix(s + t, prefix)
  {
    assert (s + t)[..|prefix|] == s[..|prefix|];
  }

  /** controllerutil.AddFinalizer: appends the finalizer unless it is present. */
  function AddFinalizer(finalizers: seq<string>, f: string): (r: seq<string>)
    ensures f in r
    ensures forall x :: x in r <==> x in finalizers || x == f
    ensures f in finalizers ==> r == finalizers
    ensures f !in finalizers ==> |r| == |finalizers| + 1 && r[..|finalizers|] == finalizers
  {
    if f in finalizers then finalizers else finalizers + [f]
  }

  /** controllerutil.RemoveFinalizer: drops every occurrence of the finalizer
      and keeps the others in their order. */
  function RemoveFinalizer(finalizers: seq<string>, f: string): (r: seq<string>)
    ensures forall x :: x in r <==> x in finalizers && x != f
    ensures f !in finalizers ==> r == finalizers
    ensures |r| <= |finalizers|
  {
    if finalizers == [] then []
    else if finalizers[0] == f then RemoveFinalizer(finalizers[1..], f)
    else [finalizers[0]] + RemoveFinalizer(finalizers[1..], f)
  }

  /** Removing a finalizer from a concatenation removes it from each part, so
      the finalizers that remain keep their order. */
  lemma {:induction false} RemoveFinalizerKeepsOrder(a: seq<string>, b: seq<string>, f: string)
    ensures RemoveFinalizer(a + b, f) == RemoveFinalizer(a, f) + RemoveFinalizer(b, f)
  {
    if a != [] {
      assert (a + b)[1..] == a[1..] + b;
      RemoveFinalizerKeepsOrder(a[1..], b, f);
    } else {
      assert a + b == b;
    }
  }

  /** No element occurs twice. */
  predicate Distinct<T(==)>(q: seq<T>) {
    forall i, j :: 0 <= i < j < |q| ==> q[i] != q[j]
  }

  /** `order` visits every key of `m` exactly once: one of the orders in which
      Go's `range` over a map may produce its keys. */
  predicate KeyOrder(order: seq<string>, m: map<string, string>) {
    Distinct(order) && (forall k :: k in m ==> k in order) && (forall k :: k in order ==> k in m)
  }

  /** Some order of the elements of a finite set. */
  lemma Enumerate(s: set<string>) returns (q: seq<string>)
    ensures Distinct(q) && forall x :: x in q <==> x in s
  {
    if s == {} {
      q := [];
    } else {
      var x :| x in s;
      var rest := Enumerate(s - {x});
      q := [x] + rest;
    }
  }
}
