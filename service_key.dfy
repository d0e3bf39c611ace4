/** service/controller/key/key.go: the conversion of the object operatorkit
    hands to a resource into an Organization record, and the name the legacy
    directory knows the organization by. */
module ServiceKey {
  import opened Meta

  /** What a resource receives as `obj interface{}`: the nil interface, an
      `*Organization` (which may itself be a nil pointer), or a value of some
      other type. Records are values here, so a deep copy is the record itself. */
  datatype Object = NilInterface | OrgPointer(target: Option<Organization>) | OtherType

  /** UI annotation holding the name the organization was created with. */
  const UIOriginalOrganizationName := "ui.giantswarm.io/original-organization-name"

  /** ToOrganization, lines 9-22, as written: the nil guard only catches the
      nil interface, so a nil `*Organization` passes the type assertion,
      DeepCopy returns nil and the dereference panics. */
  function ToOrganizationAsWritten(v: Object): (r: Outcome<Result<Organization>>)
    ensures r.Panicked? <==> v == OrgPointer(None)
    ensures r.Completed? && r.value.Err? ==> r.value.error == WrongType
    ensures r.Completed? && r.value.Ok? ==> v == OrgPointer(Some(r.value.value))
  {
    match v
    case NilInterface => Completed(Err(WrongType))
    case OtherType => Completed(Err(WrongType))
    case OrgPointer(p) => if p.None? then Panicked else Completed(Ok(p.value))
  }

  /** A nil `*Organization` makes the conversion panic instead of returning wrongTypeError. */
  lemma NilPointerPanics()
    ensures ToOrganizationAsWritten(OrgPointer(None)).Panicked?
    ensures ToOrganization(OrgPointer(None)) == Err(WrongType)
  {
  }

  /** ToOrganization with the guard extended to a nil pointer: nil and other
      types are wrongTypeError, a record is returned as an equal copy. This is
      the conversion the rest of the model uses. */
  function ToOrganization(v: Object): (r: Result<Organization>)
    ensures r.Err? <==> (v.NilInterface? || v.OtherType? || v == OrgPointer(None))
    ensures r.Err? ==> r.error == WrongType
    ensures r.Ok? ==> v == OrgPointer(Some(r.value))
  {
    match v
    case OrgPointer(Some(o)) => Ok(o)
    case _ => Err(WrongType)
  }

  /** Wherever the code as written does not panic, the corrected conversion agrees with it. */
  lemma ToOrganizationAgrees(v: Object)
    ensures ToOrganizationAsWritten(v).Completed? ==> ToOrganizationAsWritten(v).value == ToOrganization(v)
  {
  }

  /** LegacyOrganizationName, lines 24-33: the UI annotation when it is set and
      non-empty, the record's name otherwise. */
  function LegacyOrganizationName(cr: Organization): (name: string)
    ensures (cr.annotations.Some? && UIOriginalOrganizationName in cr.annotations.value
             && |cr.annotations.value[UIOriginalOrganizationName]| > 0)
            ==> name == cr.annotations.value[UIOriginalOrganizationName]
    ensures (cr.annotations.None? || UIOriginalOrganizationName !in cr.annotations.value
             || cr.annotations.value[UIOriginalOrganizationName] == "")
            ==> name == cr.name
    ensures |name| > 0 || name == cr.name
  {
    if cr.annotations.Some? && |LabelValue(cr.annotations.value, UIOriginalOrganizationName)| > 0 then
      LabelValue(cr.annotations.value, UIOriginalOrganizationName)
    else cr.name
  }
}
