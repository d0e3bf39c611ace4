# organization-operator, modelled in Dafny

The organization-operator watches `Organization` records (cluster-scoped
custom resources of group `security.giantswarm.io`). For every record it
keeps a namespace `org-<name>` labelled with the organization and with the
operator as manager, and it writes that namespace's name into the record's
`status.namespace`. When a record is deleted, the namespace goes too. The
repository holds several revisions of this logic side by side. They handle
label drift, terminating namespaces and forbidden names differently. Each
revision is modelled on its own terms here, and they are not unified:

| revision | modules |
|---|---|
| controller-runtime reconciler with its own finalizer and CreateOrUpdate | `InternalController`, `InternalUtil` |
| controller-runtime reconciler driving a resource | `Controllers`, `PkgNamespace` |
| resource with per-key label patches and a wait on terminating namespaces | `PkgOrganization` |
| resource that strips a namespace's finalizers before deleting it | `PkgResourcesNamespace` |
| legacy operatorkit resources with the company directory | `ServiceKey`, `ServiceOrganization`, `OrgConfigMap` |

Shared pieces:

- `Meta` holds the object metadata, the error kinds and the label keys. It
  also holds the finalizer helpers of controller-runtime's `controllerutil`.
- `Api` models the world the operator talks to: the Kubernetes API server
  (records, namespaces, secrets) and the legacy company directory. Each call
  is a pure function from a `State` to the state after the call and its
  answer. Every call consumes one entry of a fault schedule. A `true` entry
  makes the call fail with `Other` and change no object, so every error
  path can be reached. The state also keeps a log of every write request
  issued, in order, whether it succeeded or not.
- `Cluster.Store` is a class holding those maps as fields. Each of its
  methods makes one `Api` call and reassigns the fields.

Each reconciler step of the source is an imperative `method` over a
`Cluster.Store`. Its `ensures` ties the new store contents and the returned
error to a specification function of the old contents:
`Effect(store.Contents(), err) == XSpec(old(store.Contents()), …)`. The
properties are stated as `ensures` clauses of those specification
functions, and as lemmas where they relate several calls or passes.

Go's `range` over a map visits the keys in an unspecified order. The
label-patching loop of `PkgOrganization` therefore returns a ghost `order`,
and its specification is stated for every order that visits each desired
key once (`Meta.KeyOrder`).

## Model

| member | source | states |
|---|---|---|
| Meta.IgnoreNotFound | internal/controller/organization_controller.go:62-64 | a NotFound error (also through wrapping) becomes nil; every other error is kept as it is |
| Meta.EmptyOrganization | controllers/organization_controller.go:54-58 | the stub record carries the requested name and nothing else: no annotations, no finalizers, not deleting, empty status |
| Meta.LabelValue | pkg/resources/organization/create.go:102 | reading a map at a missing key gives the empty string, as Go's `m[k]` does |
| Meta.StartsWithAny | pkg/resources/organization/create.go:25-30 | the prefix loop reports a match exactly when the name starts with one of the prefixes |
| Meta.HasPrefixExtends | pkg/resources/organization/resource.go:19-27 | a name that starts with a forbidden prefix still does when it is extended, so forbidding is by prefix |
| Meta.AddFinalizer | internal/controller/organization_controller.go:72-74 | the finalizer is present afterwards; nothing changes when it was there already, otherwise it is appended after the others |
| Meta.RemoveFinalizer | internal/controller/organization_controller.go:145-147 | exactly the other finalizers remain; the list is unchanged when the finalizer was absent |
| Meta.RemoveFinalizerKeepsOrder | internal/controller/organization_controller.go:145-147 | removal distributes over concatenation, so the finalizers that remain keep their relative order |
| InternalController.NamespaceName | internal/controller/organization_controller.go:81 | the namespace name is "org-" followed by the record's name |
| InternalController.DesiredLabels | internal/controller/organization_controller.go:85-88 | exactly two labels: organization = name, managed-by = organization-operator |
| InternalController.CountSpec | internal/controller/organization_controller.go:163-170 | the List writes nothing; it fails exactly when the call fails, and the error is wrapped "failed to list organizations" |
| InternalController.FinalizerSpec | internal/controller/organization_controller.go:72-78 | no call when the finalizer is present; otherwise one metadata patch of this record only, after which the stored record carries the finalizer; a failed patch changes no object |
| InternalController.NamespaceSpec | internal/controller/organization_controller.go:81-106 | only "org-<name>" is written; afterwards its label map is exactly the two desired labels, and its other fields are kept; a namespace that already has them costs no write |
| InternalController.StatusSpec | internal/controller/organization_controller.go:111-117 | status.namespace is patched only when it differs from the derived name, and equals it afterwards |
| InternalController.StatusStepSpec | internal/controller/organization_controller.go:110-124 | the status patch and then the count change only this record, and only append writes |
| InternalController.NamespaceStepSpec | internal/controller/organization_controller.go:80-124 | from the namespace onwards a pass changes at most this record and its namespace, and only appends writes |
| InternalController.ReconcileLiveSpec | internal/controller/organization_controller.go:71-124 | a live pass changes at most this record and its namespace, and only appends writes |
| InternalController.LiveFinalizerFirst | internal/controller/organization_controller.go:72-96 | when the finalizer is missing, its patch is the first write of the pass, and a failed patch ends the pass before any namespace write |
| InternalController.StatusStepWrites | internal/controller/organization_controller.go:110-124 | the only writes after the namespace are patches of this record's status |
| InternalController.NamespaceStepWritesOnly | internal/controller/organization_controller.go:80-124 | from the namespace onwards the only namespace written is "org-<name>" |
| InternalController.LiveWritesOnlyDerivedNamespace | internal/controller/organization_controller.go:81-106 | the only namespace a live pass writes is "org-<name>" |
| InternalController.StatusStepConverged | internal/controller/organization_controller.go:110-124 | after a successful status step the stored status is the derived name, the rest of the record is unchanged, and no namespace is touched |
| InternalController.NamespaceStepConverged | internal/controller/organization_controller.go:80-124 | after a successful namespace step the namespace has exactly the two labels and the stored status is the derived name |
| InternalController.LiveConverged | internal/controller/organization_controller.go:71-124 | after a successful live pass the record has the finalizer and the derived status, and the namespace has exactly the two labels |
| InternalController.StatusStepProgress | internal/controller/organization_controller.go:110-124 | without failures the status step and the count succeed |
| InternalController.NamespaceStepProgress | internal/controller/organization_controller.go:80-124 | without failures the namespace step succeeds |
| InternalController.LiveProgress | internal/controller/organization_controller.go:57-125 | without failures a live pass succeeds whatever the record's name: there is no forbidden-prefix check |
| InternalController.LiveErrorsWrapped | internal/controller/organization_controller.go:76-115 | a failed step is returned wrapped with that step's context and without a requeue |
| InternalController.ReconcileDeleteSpec | internal/controller/organization_controller.go:127-161 | a failed lookup requeues with the error and writes nothing; a present namespace gets one delete and a requeue with the delete's error, and the record is untouched |
| InternalController.DeleteRemovesOnlyOwnFinalizer | internal/controller/organization_controller.go:144-152 | once the namespace is gone, only this controller's finalizer is removed (the others stay in order), and the record is purged exactly when none is left |
| InternalController.DeleteSucceedsOnceNamespaceGone | internal/controller/organization_controller.go:130-160 | a delete pass succeeds only when the namespace is absent, and then it does succeed unless a call fails |
| InternalController.ReconcileSpec | internal/controller/organization_controller.go:57-125 | an absent record is success with no write; another read error is returned without requeue; without failures every live record ends with its labelled namespace, the status and the finalizer |
| InternalController.LiveQuiescent | internal/controller/organization_controller.go:71-124 | a live pass over a record that already has the finalizer, the status and the labelled namespace writes nothing and succeeds |
| InternalController.ReconcileIdempotent | internal/controller/organization_controller.go:57-125 | a second pass over a converged record writes nothing and succeeds |
| InternalController.DeleteTakesTwoPasses | internal/controller/organization_controller.go:127-161 | a deleted record needs two passes: the first deletes the namespace and requeues, the second removes the finalizer |
| InternalController.UpdateOrganizationCount | internal/controller/organization_controller.go:163-170 | the method is CountSpec on the store |
| InternalController.Reconcile | internal/controller/organization_controller.go:57-125 | the method is ReconcileSpec on the store |
| InternalController.ReconcileDelete | internal/controller/organization_controller.go:127-161 | the method is ReconcileDeleteSpec on the store |
| InternalUtil.CreateNamespace | internal/util/namespace.go:29-39 | the name is "org-<orgName>" and the label map is exactly organization and managed-by |
| InternalUtil.EnsureNamespaceSpec | internal/util/namespace.go:42-59 | an absent namespace is created; a Get error other than NotFound is returned with no write; labels that differ in any way (extra ones too) are replaced wholesale by one Update; equal labels give nil and no write |
| InternalUtil.EnsureNamespaceIdempotent | internal/util/namespace.go:42-59 | without failures the first call succeeds and a second one writes nothing |
| InternalUtil.DeleteNamespaceSpec | internal/util/namespace.go:62-78 | one delete of "org-<orgName>" is issued; NotFound is success; any other error is wrapped with the namespace name; after success the namespace is gone or terminating |
| InternalUtil.EnsureNamespace | internal/util/namespace.go:42-59 | the method is EnsureNamespaceSpec on the store |
| InternalUtil.DeleteNamespace | internal/util/namespace.go:62-78 | the method is DeleteNamespaceSpec on the store |
| Controllers.CountSpec | controllers/organization_controller.go:132-139 | the List writes nothing, and its error is swallowed |
| Controllers.AddFinalizerSpec | controllers/organization_controller.go:95-103 | no call when the finalizer is present; otherwise one Update of this record, after which the record carries the finalizer |
| Controllers.ReconcileDeletingSpec | controllers/organization_controller.go:71-93 | without the finalizer: success and nothing done; a failed EnsureDeleted is returned and no Update is issued; after a successful one the finalizer is removed by one Update, whose error is returned; never a requeue |
| Controllers.ReconcileLiveSpec | controllers/organization_controller.go:95-129 | a failed finalizer Update stops the pass before EnsureCreated; otherwise the EnsureCreated error is returned wrapped, and success is success whatever the namespace lookup afterwards gives |
| Controllers.ReconcileSpec | controllers/organization_controller.go:30-130 | an invalid resource config is returned wrapped, with no call; an absent record runs EnsureDeleted on a stub carrying only the name, and its error is returned; other read errors are returned with no write |
| Controllers.FinalizerBeforeEnsureCreated | controllers/organization_controller.go:95-107 | EnsureCreated runs on a store where the record already carries the finalizer and all its earlier finalizers |
| Controllers.Reconcile | controllers/organization_controller.go:30-130 | the method is ReconcileSpec on the store |
| Controllers.UpdateOrganizationCount | controllers/organization_controller.go:132-139 | the method is CountSpec on the store |
| PkgNamespace.New | pkg/namespace/resource.go:41-59 | a nil client or a zero logger is an invalid configuration; otherwise both are kept |
| PkgNamespace.NewOrganizationNamespace | pkg/namespace/resource.go:61-71 | the name is "org-" + name and there are exactly the two labels |
| PkgNamespace.NewOrg | pkg/namespace/resource.go:73-81 | the record carries the name and an empty spec and status |
| PkgNamespace.KubeTestIsForbidden | pkg/namespace/resource.go:21-29 | a worked example, mirroring the repository's test case: "kube-test" has a forbidden prefix (the all-inputs facts are Meta.HasPrefixExtends and the forbidden-name clause of the EnsureCreated specs) |
| PkgOrganization.New | pkg/resources/organization/resource.go:39-57 | a nil client or a zero logger is an invalid configuration; otherwise both are kept |
| PkgOrganization.NewOrganizationNamespace | pkg/resources/organization/resource.go:59-69 | the name is "org-" + name; exactly the organization and managed-by labels |
| PkgOrganization.NamespaceNameInjective | pkg/resources/organization/resource.go:62 | distinct organization names give distinct namespace names |
| PkgOrganization.ForbiddenByPrefix | pkg/resources/organization/resource.go:19-27 | two worked examples of forbidding by prefix: "defaultx" is forbidden, "giantswarm" is not (the all-inputs facts are Meta.HasPrefixExtends and the forbidden-name clause of PkgOrganization.EnsureCreatedSpec) |
| PkgOrganization.FindSecretSpec | pkg/resources/organization/create.go:118-141 | writes nothing; the first secret the credentiald selector lists, else giantswarm/credential-default, else secretNotFound exactly when no such default exists; other errors are returned |
| PkgOrganization.FindSecretPrefersFirstLabelled | pkg/resources/organization/create.go:118-130 | the first organization-labelled credentiald secret, in list order, is the one chosen |
| PkgOrganization.AnnotationSpec | pkg/resources/organization/create.go:62-90 | a missing secret is not an error and writes nothing; other lookup errors are returned; the patch is issued if and only if the secret's subscription id is present and non-empty, and sets the "subscription" annotation while keeping the others |
| PkgOrganization.Patches | pkg/resources/organization/create.go:101-111 | the patches are exactly one per visited key whose current value differs, each setting the desired value |
| PkgOrganization.PatchLoop | pkg/resources/organization/create.go:101-111 | the corrected loop, comparing each key with its desired value, only touches the one namespace and only appends writes |
| PkgOrganization.PatchLoopLog | pkg/resources/organization/create.go:101-111 | a loop that ends without error has issued exactly the patches of the differing keys |
| PkgOrganization.PatchLoopOnlyPatches | pkg/resources/organization/create.go:101-111 | whatever happens, every write of the loop is a label patch of that namespace |
| PkgOrganization.PatchLoopLabels | pkg/resources/organization/create.go:101-111 | after a loop that ends without error every visited key has its desired value; every other label and every other field is as before |
| PkgOrganization.PatchedFromStep | pkg/resources/organization/create.go:101-108 | one more patched key extends the patched set by that key and leaves the other labels as they were |
| PkgOrganization.PatchLoopProgress | pkg/resources/organization/create.go:101-111 | without failures the loop over an existing namespace succeeds |
| PkgOrganization.PatchLoopStops | pkg/resources/organization/create.go:106-109 | once a patch has failed, later keys issue nothing |
| PkgOrganization.LabelsSpec | pkg/resources/organization/create.go:92-116 | a failed or NotFound Get is returned with no write; otherwise the loop runs against the labels read |
| PkgOrganization.LabelsConverged | pkg/resources/organization/create.go:92-116 | after a successful label step only the differing keys were patched, every desired key has its desired value, and labels outside the desired set are untouched |
| PkgOrganization.LabelsProgress | pkg/resources/organization/create.go:92-116 | without failures the label step on an existing namespace succeeds |
| PkgOrganization.Decoded | pkg/resources/organization/create.go:106 | decoding a response into the local labels sets every key the response carries to the server's value and keeps the other entries |
| PkgOrganization.PatchLoopAsWritten | pkg/resources/organization/create.go:100-110 | the loop as written, reading each value from the local object into which every successful patch decoded the server's labels, only issues label patches of the one namespace and only appends writes |
| PkgOrganization.LabelsAsWrittenSpec | pkg/resources/organization/create.go:92-116 | the label step as written: a failed or NotFound Get is returned with no write; only that namespace is written |
| PkgOrganization.AsWrittenAgreesBeforeFirstPatch | pkg/resources/organization/create.go:100-110 | until its first patch the loop as written reads the desired values, so it issues nothing where the corrected loop issues nothing |
| PkgOrganization.AsWrittenSkips | pkg/resources/organization/create.go:101-102 | a key whose local value equals the value read before the loop issues nothing |
| PkgOrganization.AsWrittenFirstVisit | pkg/resources/organization/create.go:101-108 | over "org-acme" with both labels drifted, the first key visited is patched and the server's labels are decoded into the local object |
| PkgOrganization.AsWrittenLoopPatchesOnce | pkg/resources/organization/create.go:100-110 | over that namespace the loop as written issues one patch, and the second key keeps its drifted value |
| PkgOrganization.PatchesWhenAllDiffer | pkg/resources/organization/create.go:101-102 | when every visited key differs, the corrected loop patches every one of them |
| PkgOrganization.ReconciledExactly | pkg/resources/organization/create.go:100-110 | reconciling a namespace that has exactly the desired keys, to non-empty values, leaves exactly the desired labels |
| PkgOrganization.CorrectedLoopPatchesBoth | pkg/resources/organization/create.go:92-116 | over that namespace, in any order of the range, the corrected label step patches both labels and leaves exactly the desired ones |
| PkgOrganization.AsWrittenLeavesSecondLabel | pkg/resources/organization/create.go:92-116 | with both labels drifted, in either order, the label step as written issues one patch and leaves the second label as it was, while the corrected step issues two and leaves both desired |
| PkgOrganization.CreateAndLabelSpec | pkg/resources/organization/create.go:37-49 | the namespace step only changes that namespace |
| PkgOrganization.CreateStepsSpec | pkg/resources/organization/create.go:32-59 | the steps change only this record and its namespace |
| PkgOrganization.AnnotatedStepsSpec | pkg/resources/organization/create.go:37-57 | the namespace and status steps change only this record and its namespace |
| PkgOrganization.EnsureCreatedSpec | pkg/resources/organization/create.go:19-60 | a forbidden name returns nil with no call; otherwise only this record and its namespace change |
| PkgOrganization.EnsureCreatedStopsAtFirstError | pkg/resources/organization/create.go:32-57 | a failed annotation step is returned before the namespace; a create error other than AlreadyExists is returned before the status; AlreadyExists leads to label reconciliation, and an error there is returned before the status |
| PkgOrganization.CreateAndLabelWrites | pkg/resources/organization/create.go:37-49 | the namespace step only writes that namespace |
| PkgOrganization.EnsureCreatedWritesInOrder | pkg/resources/organization/create.go:32-57 | the writes come in the order annotation patch, then namespace writes, then the status patch |
| PkgOrganization.CreateStepsWritesInOrder | pkg/resources/organization/create.go:32-57 | the writes of the steps after the prefix check come in the order annotation patch, namespace writes, status patch |
| PkgOrganization.AnnotatedStepsWritesInOrder | pkg/resources/organization/create.go:37-57 | after a successful annotation step the namespace writes come before the status patch |
| PkgOrganization.AnnotationWrites | pkg/resources/organization/create.go:62-90 | the annotation step's only writes are metadata patches of this record |
| PkgOrganization.CreateAndLabelConverged | pkg/resources/organization/create.go:40-49 | after a successful namespace step the namespace exists and carries every desired label |
| PkgOrganization.EnsureCreatedConverged | pkg/resources/organization/create.go:19-60 | after success status.namespace is "org-<name>" and the namespace carries both labels |
| PkgOrganization.AnnotatedStepsConverged | pkg/resources/organization/create.go:37-57 | after successful namespace and status steps, status.namespace is "org-<name>" and the namespace carries both labels |
| PkgOrganization.EnsureCreatedProgress | pkg/resources/organization/create.go:19-60 | without failures an allowed name that is in the store succeeds |
| PkgOrganization.EnsureDeletedSpec | pkg/resources/organization/delete.go:14-41 | NotFound is never returned; an absent or terminating namespace gives nil and no delete; a live one gets exactly one delete and is gone or terminating afterwards; other errors are returned |
| PkgOrganization.EnsureDeletedIdempotent | pkg/resources/organization/delete.go:14-41 | without failures a second call is a write-free success |
| PkgOrganization.FindSecret | pkg/resources/organization/create.go:118-141 | the method is FindSecretSpec on the store |
| PkgOrganization.EnsureOrganizationHasSubscriptionIdAnnotation | pkg/resources/organization/create.go:62-90 | the method is AnnotationSpec on the store |
| PkgOrganization.EnsureOrganizationNamespaceHasOrganizationLabels | pkg/resources/organization/create.go:92-116 | the method is LabelsSpec on the store for the key order it visited, which covers each desired key once |
| PkgOrganization.EnsureCreated | pkg/resources/organization/create.go:19-60 | the method is EnsureCreatedSpec on the store for the key order its loop visited |
| PkgOrganization.EnsureDeleted | pkg/resources/organization/delete.go:14-41 | the method is EnsureDeletedSpec on the store |
| PkgResourcesNamespace.New | pkg/resources/namespace/resource.go:20-24 | the resource keeps the client, unchecked |
| PkgResourcesNamespace.DesiredNamespace | pkg/resources/namespace/resource.go:28-37 | "org-<name>" carrying only the organization label |
| PkgResourcesNamespace.EnsureCreatedSpec | pkg/resources/namespace/resource.go:26-52 | one create; an absent namespace is created as asked; AlreadyExists is nil and leaves the existing namespace unmodified; other errors are returned |
| PkgResourcesNamespace.StripAndDeleteSpec | pkg/resources/namespace/resource.go:66-73 | with no finalizers, only the delete, whose result is returned as it is; otherwise finalizers are cleared by an Update first, and a failed Update stops before the delete |
| PkgResourcesNamespace.EnsureDeletedSpec | pkg/resources/namespace/resource.go:54-74 | an absent namespace is nil with no write; another Get error is returned with no write; a present one goes through the strip and the delete |
| PkgResourcesNamespace.EnsureDeletedRemovesLiveNamespace | pkg/resources/namespace/resource.go:54-74 | without failures a live namespace is gone afterwards, after an Update only when it had finalizers, and one delete |
| PkgResourcesNamespace.EnsureDeletedIdempotent | pkg/resources/namespace/resource.go:54-74 | a second call after success is a write-free success |
| PkgResourcesNamespace.EnsureCreated | pkg/resources/namespace/resource.go:26-52 | the method is EnsureCreatedSpec on the store |
| PkgResourcesNamespace.EnsureDeleted | pkg/resources/namespace/resource.go:54-74 | the method is EnsureDeletedSpec on the store |
| ServiceKey.ToOrganizationAsWritten | service/controller/key/key.go:9-22 | as written: the conversion panics exactly on a nil `*Organization`; nil and other types are wrongTypeError; otherwise the record itself |
| ServiceKey.NilPointerPanics | service/controller/key/key.go:10-21 | a nil `*Organization` passes the nil guard and panics, where wrongTypeError was intended |
| ServiceKey.ToOrganization | service/controller/key/key.go:9-22 | wrongTypeError exactly for nil, a nil pointer or another type; otherwise a record equal to the one pointed to |
| ServiceKey.ToOrganizationAgrees | service/controller/key/key.go:9-22 | wherever the code as written does not panic, the corrected conversion gives the same result |
| ServiceKey.LegacyOrganizationName | service/controller/key/key.go:24-33 | the UI original-name annotation when it is set and non-empty; otherwise the record's name |
| ServiceOrganization.New | service/controller/resource/organization/resource.go:45-64 | Ok exactly when client, logger and legacy client are all set, and then it copies them; otherwise invalidConfigError |
| ServiceOrganization.NewOrganizationNamespace | service/controller/resource/organization/resource.go:70-81 | the name is "org-" + name; exactly the organization and managed-by labels |
| ServiceOrganization.SameForbiddenNames | service/controller/resource/organization/resource.go:23-31 | the legacy list of forbidden prefixes is the newer revision's list, element for element |
| ServiceOrganization.FindSecretSpec | service/controller/resource/organization/create.go:97-120 | the legacy lookup agrees with PkgOrganization.FindSecretSpec on every state: labelled secret, then default secret, then secretNotFound |
| ServiceOrganization.SetAnnotationAsWritten | service/controller/resource/organization/create.go:87 | as written: assigning into the annotations panics exactly when the map is nil |
| ServiceOrganization.SetAnnotation | service/controller/resource/organization/create.go:86-87 | corrected: the key holds the value and every other annotation is kept |
| ServiceOrganization.AnnotationAsWrittenSpec | service/controller/resource/organization/create.go:74-95 | as written: the step panics exactly when a secret is found with the key and the record has no annotations |
| ServiceOrganization.AnnotationSpec | service/controller/resource/organization/create.go:74-95 | a missing secret is not an error; other lookup errors are returned; the record is updated if and only if the key exists, even with an empty value, and then carries the id and the record's other annotations |
| ServiceOrganization.AnnotationPanicsOnNilAnnotations | service/controller/resource/organization/create.go:86-88 | a record with nil annotations whose secret carries the key panics as written, while the corrected step stores the single annotation |
| ServiceOrganization.AnnotationAgrees | service/controller/resource/organization/create.go:74-95 | wherever the annotation step as written does not panic, the corrected step behaves the same |
| ServiceOrganization.StatusAndLegacySpec | service/controller/resource/organization/create.go:49-71 | the status Update comes before the company create; the company is created only after the status names the namespace; AlreadyExists counts as success; without failures it succeeds |
| ServiceOrganization.CreateStepsSpec | service/controller/resource/organization/create.go:32-71 | the steps only append writes |
| ServiceOrganization.EnsureCreatedSpec | service/controller/resource/organization/create.go:19-72 | a conversion error is returned before any call; a forbidden name is nil with no call |
| ServiceOrganization.CreateStepsInOrder | service/controller/resource/organization/create.go:32-71 | the writes are: annotation update (optional), namespace create, status update, company create; a failed pass stops along this sequence, a successful one issues all of it |
| ServiceOrganization.LegacyCreateFollowsStatus | service/controller/resource/organization/create.go:40-61 | the company is created only once the namespace exists and the status names it; an existing namespace, labels included, is never modified |
| ServiceOrganization.EnsureCreatedConverged | service/controller/resource/organization/create.go:19-72 | for the corrected composition: after success status.namespace is "org-<name>", the namespace exists and the directory knows the legacy name |
| ServiceOrganization.AnnotationProgress | service/controller/resource/organization/create.go:74-95 | without failures the annotation step succeeds and keeps a live record in place |
| ServiceOrganization.EnsureCreatedProgress | service/controller/resource/organization/create.go:19-72 | for the corrected composition (the corrected conversion and annotation step of Findings), and with resourceVersion conflicts counted as faults: without failures an allowed, live record in the store succeeds |
| ServiceOrganization.EnsureDeletedSpec | service/controller/resource/organization/delete.go:14-33 | a conversion error is returned with no call; otherwise exactly one delete of "org-<name>"; NotFound is nil; other errors are returned; after success the namespace is gone or terminating |
| ServiceOrganization.EnsureDeletedIdempotent | service/controller/resource/organization/delete.go:14-33 | a repeated call succeeds and changes no object |
| ServiceOrganization.FindSecret | service/controller/resource/organization/create.go:97-120 | the method is FindSecretSpec on the store |
| ServiceOrganization.EnsureOrganizationHasSubscriptionIdAnnotation | service/controller/resource/organization/create.go:74-95 | the method is AnnotationSpec on the store |
| ServiceOrganization.EnsureCreated | service/controller/resource/organization/create.go:19-72 | the method is EnsureCreatedSpec on the store |
| ServiceOrganization.UpdateStatusAndCreateLegacy | service/controller/resource/organization/create.go:49-71 | the method is StatusAndLegacySpec on the store |
| ServiceOrganization.EnsureDeleted | service/controller/resource/organization/delete.go:14-33 | the method is EnsureDeletedSpec on the store |
| OrgConfigMap.New | service/controller/resource/orgconfigmap/resource.go:36-56 | Ok exactly when client and logger are set and the base domain is non-empty, and then it stores them; otherwise invalidConfigError |
| OrgConfigMap.NewConfigMap | service/controller/resource/orgconfigmap/desired.go:54-77 | the encoding error is returned; otherwise the spec's name and namespace, the DO-NOT-EDIT notes annotation, the managed-by label and the single "values" key holding the encoded values |
| OrgConfigMap.ConfigMaps | service/controller/resource/orgconfigmap/desired.go:42-49 | on success one map per spec, in order; on error, the first spec whose encoding fails gives the error |
| OrgConfigMap.DesiredStateSpec | service/controller/resource/orgconfigmap/desired.go:19-52 | a conversion error is returned; a deleting record wants no map; a live one wants exactly one map "organization-values" in the record's namespace, holding only the base domain |
| OrgConfigMap.GetDesiredState | service/controller/resource/orgconfigmap/desired.go:19-52 | the loop's result is DesiredStateSpec |

`Name` constants: `ServiceOrganization.Name` is "organization"
(service/controller/resource/organization/resource.go:19, 66-68), and
`OrgConfigMap.Name` is "orgconfigmap"
(service/controller/resource/orgconfigmap/resource.go:11, 58-60).

## Left out

- Metrics: the gauges, counters and the duration histogram are not modelled. `updateOrganizationCount` is kept only as its List read. In the internal revision that read's error decides the result; in the controllers revision it is swallowed.
- Logging: every logger call.
- Kubernetes library internals:
  - `CreateOrUpdate` is one atomic write (`Api.CreateOrUpdateNamespace`).
  - `SetControllerReference` sets the namespace's owner field on create; it cannot fail on a fresh object.
  - `MergeFrom` diffing is a write of the fields that changed.
  - The watch setup in `SetupWithManager` is not modelled.
- Optimistic concurrency: writes are atomic, and resourceVersion conflicts are not told apart from other failures (`Other`). In particular, the legacy status Update with a stale resourceVersion is not modelled as a forced conflict. In the deployed code, when the annotation Update (service/controller/resource/organization/create.go:88) has run, the status Update (line 50) sends the record with the older resourceVersion, and that first pass fails. The model lets it succeed unless a fault is scheduled.
- ServiceOrganization.EnsureCreatedSpec, ServiceOrganization.EnsureCreatedProgress, ServiceOrganization.EnsureCreatedConverged, ServiceOrganization.EnsureDeletedSpec and OrgConfigMap.DesiredStateSpec call the corrected ServiceKey.ToOrganization and ServiceOrganization.AnnotationSpec of Findings. On a typed nil `*Organization`, and on a record with nil annotations whose secret has the subscription key, they model the intended program rather than the panic: respectively wrongType, and an Update that adds the annotation. The as-written halves are ServiceKey.ToOrganizationAsWritten and ServiceOrganization.AnnotationAsWrittenSpec.
- The store follows the rule that a deleted object stays while it carries metadata finalizers and is purged once the last one goes. The namespace controller and namespace spec finalizers are not modelled. So in `PkgResourcesNamespace.EnsureDeleted`, stripping the finalizers of a terminating namespace purges it, and the following delete returns the NotFound as it is.
- `reflect.DeepEqual` does not distinguish a nil label map from an empty one here (`InternalUtil.EnsureNamespaceSpec`).
- The label loop's patch responses: each one is decoded into the namespace object whose labels the loop ranges over, so later keys read the server's values. PkgOrganization.PatchLoopAsWritten models this decode, and the rest of the model uses the corrected PkgOrganization.PatchLoop (see Findings). The decode is taken to reuse the label map, overwriting the keys the response carries, as encoding/json does.
- PkgOrganization.PatchLoopAsWritten: keys the decode adds to the label map while the range runs may be visited or skipped by Go's map iteration; the model visits only the desired keys. A visit would compare the server's value with the value read before the loop. Only the loop writes to that namespace here, so these values are equal and the visit would issue nothing.
- The decode of every other write's response into the local object is not modelled.
- JSON merge-patch bytes built with `%s`, which does no escaping, are modelled as "set this key to this value". YAML encoding is a parameter (`OrgConfigMap.Encoder`).
- `pkg/namespace`'s `EnsureCreated` and `EnsureDeleted` are not part of this model. The controllers revision takes them as arbitrary step functions, so "kube-test causes no namespace or status write" is not stated.
- PkgOrganization.EnsureCreated and PkgOrganization.EnsureDeleted take the converted record, because `controllers/key` is not part of this model. The conversion error they return first is left out.
- ServiceKey.ToOrganization: records are values, so "the copy does not alias the input" cannot be expressed; the result equals the record pointed to.
- Clients and loggers are opaque handles (`Meta.Handle`), and `Nil` stands for Go's nil and for a zero `logr.Logger`.
- The companyd and credentiald client internals: the company directory is a set of ids, and only CreateCompany is modelled.
- Controllers.ReconcileLiveSpec: the namespace lookup after EnsureCreated uses the status of the record as it was before EnsureCreated, since the steps are abstract and do not hand back an updated record.
- Controllers.ReconcileDeletingSpec: for the same reason, the finalizer-removing Update is built from the record as read before EnsureDeleted. In the source, EnsureDeleted receives a pointer to the record and may change it before the Update; such changes are not modelled.
- Process and operatorkit wiring, flags, version getters and the test harnesses.

## Findings

| source | as written | input that shows it | evidently intended | confidence | as-written member | corrected member |
|---|---|---|---|---|---|---|
| service/controller/resource/organization/create.go:86-88 | the subscription id is assigned into `organization.Annotations` without checking the map for nil | a record with nil annotations whose credentiald secret has the `azure.azureoperator.subscriptionid` key: the assignment panics | create the map when it is nil, then set the "subscription" annotation | not executed | ServiceOrganization.AnnotationAsWrittenSpec | ServiceOrganization.AnnotationSpec |
| service/controller/key/key.go:10-21 | the nil guard only catches a nil interface; a typed nil `*Organization` passes the type assertion, `DeepCopy` returns nil and the dereference panics | `ToOrganization((*Organization)(nil))` | return wrongTypeError for a nil pointer as for a nil interface | not executed | ServiceKey.ToOrganizationAsWritten | ServiceKey.ToOrganization |
| pkg/resources/organization/create.go:100-110 | each label patch decodes the server's response into `namespace`, the object whose `Labels` the `range` reads, so a key reached after a successful patch compares the server's own value with the value read before the loop, and is not patched | `org-acme` exists with organization="x" and managed-by="y": the first key visited is patched, the second gets no patch and keeps its old value (assuming the decoder reuses the label map) | compare every key with its desired value, so that one pass patches every drifted label | not executed | PkgOrganization.LabelsAsWrittenSpec | PkgOrganization.LabelsSpec |

The lemmas `ServiceOrganization.AnnotationPanicsOnNilAnnotations` and
`ServiceKey.NilPointerPanics` exhibit the first two inputs. `AnnotationAgrees` and
`ToOrganizationAgrees` show that the corrected members agree with the code as
written wherever it does not panic. `PkgOrganization.AsWrittenLeavesSecondLabel`
exhibits the third input in both orders of the range, and
`PkgOrganization.AsWrittenAgreesBeforeFirstPatch` shows that the loop as written
and the corrected loop agree until the first patch. `PkgOrganization.LabelsConverged`
is the intended property of the corrected step: after success every desired
key has its desired value.
