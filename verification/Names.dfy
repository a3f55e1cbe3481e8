/** Constant names: each points to its parent scope and to the name of the nesting it was found in. */
module Names {
  import opened Declarations

  datatype ParentScope = NoScope | TopLevel | Scope(id: NameId) | Attached(id: NameId)

  datatype Name = Name(str: nat, parentScope: ParentScope, nesting: Option<NameId>)

  /** `ParentScope::as_ref` */
  function ScopeId(p: ParentScope): Option<NameId> {
    match p
    case Scope(id) => Some(id)
    case Attached(id) => Some(id)
    case _ => None
  }
}
