/**
 Who may do what to a document: roles and scopes, relation tuples with implication, the
 visibility policy, the composed decision, the list filter, and the three route guards.
 */
module Access {
  import opened Wrappers
  import opened Roles

  type UserId = nat
  type DocId = nat

  // ---------- Roles and scopes ----------

  datatype Permission = DocumentRead | DocumentWrite | DocumentDelete | DocumentReadAny

  function RolePermissions(role: Role): set<Permission> {
    match role
    case RegularUser => {DocumentRead, DocumentWrite, DocumentDelete}
    case Moderator => {DocumentRead, DocumentWrite, DocumentDelete, DocumentReadAny}
    case Admin => {DocumentRead, DocumentWrite, DocumentDelete, DocumentReadAny}
    case SuperAdmin => {}
    case Unknown(_) => {}
  }

  datatype Subject = Subject(sub: UserId, roles: seq<Role>)

  predicate IsSuperAdmin(user: Option<Subject>) {
    user.Some? && SuperAdmin in user.value.roles
  }

  predicate HasPermission(user: Option<Subject>, permission: Permission) {
    && user.Some?
    && (IsSuperAdmin(user) || exists role :: role in user.value.roles && permission in RolePermissions(role))
  }

  // ---------- Relations ----------

  datatype Relation = Owner | Editor | Viewer

  // A stronger relation satisfies every weaker requirement.
  function Implied(r: Relation): set<Relation> {
    match r
    case Owner => {Owner, Editor, Viewer}
    case Editor => {Editor, Viewer}
    case Viewer => {Viewer}
  }

  function GrantorsOf(required: Relation): set<Relation> {
    set r | r in {Owner, Editor, Viewer} && required in Implied(r)
  }

  // "The user holds the relation on the document."
  datatype Tuple = Tuple(subject: UserId, relation: Relation, doc: DocId)

  predicate Check(tuples: set<Tuple>, subject: UserId, required: Relation, doc: DocId) {
    exists t :: t in tuples && t.subject == subject && t.doc == doc && t.relation in GrantorsOf(required)
  }

  function ObjectIdsFor(tuples: set<Tuple>, subject: UserId, required: Relation): set<DocId> {
    set t | t in tuples && t.subject == subject && t.relation in GrantorsOf(required) :: t.doc
  }

  // A requirement is met by the relation itself or a stronger one, and by nothing else.
  lemma CheckIff(tuples: set<Tuple>, subject: UserId, doc: DocId)
    ensures Check(tuples, subject, Owner, doc) <==> Tuple(subject, Owner, doc) in tuples
    ensures Check(tuples, subject, Editor, doc) <==>
      Tuple(subject, Owner, doc) in tuples || Tuple(subject, Editor, doc) in tuples
    ensures Check(tuples, subject, Viewer, doc) <==>
      Tuple(subject, Owner, doc) in tuples || Tuple(subject, Editor, doc) in tuples || Tuple(subject, Viewer, doc) in tuples
  {
    var own, edit, view := Tuple(subject, Owner, doc), Tuple(subject, Editor, doc), Tuple(subject, Viewer, doc);
    forall t | t in tuples && t.subject == subject && t.doc == doc
      ensures t == own || t == edit || t == view
    {
      match t.relation
      case Owner =>
      case Editor =>
      case Viewer =>
    }
    assert own in tuples || edit in tuples || view in tuples || (own !in tuples && edit !in tuples && view !in tuples);
  }

  // The roles that grant a scope: any known role but one the three document scopes, and reading
  // everything only the higher ones.
  lemma ScopesByRole(user: Subject)
    ensures var named := SuperAdmin in user.roles || RegularUser in user.roles || Moderator in user.roles || Admin in user.roles;
            && (HasPermission(Some(user), DocumentRead) <==> named)
            && (HasPermission(Some(user), DocumentWrite) <==> named)
            && (HasPermission(Some(user), DocumentDelete) <==> named)
    ensures HasPermission(Some(user), DocumentReadAny) <==>
      SuperAdmin in user.roles || Moderator in user.roles || Admin in user.roles
  {
    assert forall r :: r in user.roles ==>
      DocumentRead in RolePermissions(r) || r == SuperAdmin || r.Unknown?;
  }

  // ---------- The visibility policy and the composed decision ----------

  datatype Visibility = Private | Internal | Public

  datatype Resource = Resource(id: DocId, ownerId: UserId, visibility: Visibility)

  predicate ReadPolicy(user: Subject, resource: Resource) {
    resource.visibility == Public || resource.visibility == Internal || resource.ownerId == user.sub
  }

  predicate Can(tuples: set<Tuple>, user: Option<Subject>, action: Permission, resource: Resource) {
    if user.None? then false
    else if IsSuperAdmin(user) then true
    else match action
      case DocumentRead =>
        && HasPermission(user, DocumentRead)
        && (|| HasPermission(user, DocumentReadAny)
            || ReadPolicy(user.value, resource)
            || Check(tuples, user.value.sub, Viewer, resource.id))
      case DocumentWrite =>
        && HasPermission(user, DocumentWrite)
        && (resource.ownerId == user.value.sub || Check(tuples, user.value.sub, Editor, resource.id))
      case DocumentDelete =>
        && HasPermission(user, DocumentDelete)
        && (resource.ownerId == user.value.sub || Check(tuples, user.value.sub, Owner, resource.id))
      case DocumentReadAny => false
  }

  // ---------- The list filter ----------

  // The database filter: every row, or the rows that meet one of three conditions.
  datatype Filter = Everything | AnyOf(visibilities: set<Visibility>, owner: UserId, ids: set<DocId>)

  function ReadableDocumentWhere(tuples: set<Tuple>, user: Option<Subject>): Option<Filter> {
    if user.None? || !HasPermission(user, DocumentRead) then None
    else if IsSuperAdmin(user) || HasPermission(user, DocumentReadAny) then Some(Everything)
    else Some(AnyOf({Public, Internal}, user.value.sub, ObjectIdsFor(tuples, user.value.sub, Viewer)))
  }

  predicate Selects(filter: Filter, resource: Resource) {
    match filter
    case Everything => true
    case AnyOf(visibilities, owner, ids) =>
      resource.visibility in visibilities || resource.ownerId == owner || resource.id in ids
  }

  // The filter selects a document if and only if the composed decision lets the user read it,
  // for every user, every set of tuples and every document; no filter means nothing is readable.
  lemma FilterRefinesDecision(tuples: set<Tuple>, user: Option<Subject>, resource: Resource)
    ensures var filter := ReadableDocumentWhere(tuples, user);
            Can(tuples, user, DocumentRead, resource) <==> filter.Some? && Selects(filter.value, resource)
  {
    if user.Some? {
      var sub := user.value.sub;
      if Check(tuples, sub, Viewer, resource.id) {
        var t :| t in tuples && t.subject == sub && t.doc == resource.id && t.relation in GrantorsOf(Viewer);
        assert resource.id in ObjectIdsFor(tuples, sub, Viewer);
      }
      assert IsSuperAdmin(user) ==> HasPermission(user, DocumentRead);
    }
  }

  // No filter exactly when no document at all could be read.
  lemma NoFilterIff(tuples: set<Tuple>, user: Option<Subject>)
    ensures ReadableDocumentWhere(tuples, user).None? <==>
      forall resource :: !Can(tuples, user, DocumentRead, resource)
  {
    if ReadableDocumentWhere(tuples, user).Some? {
      FilterRefinesDecision(tuples, user, Resource(0, 0, Public));
    }
    forall resource
      ensures ReadableDocumentWhere(tuples, user).None? ==> !Can(tuples, user, DocumentRead, resource)
    {
      FilterRefinesDecision(tuples, user, resource);
    }
  }

  // ---------- The guards ----------

  datatype Verdict = Pass | Forbidden | NotFound

  // All the listed scopes.
  function PermissionsGuard(required: seq<Permission>, user: Option<Subject>): Verdict {
    if forall p :: p in required ==> HasPermission(user, p) then Pass else Forbidden
  }

  function RelationGuard(tuples: set<Tuple>, required: Relation, user: Subject, id: DocId): Verdict {
    if IsSuperAdmin(Some(user)) then Pass
    else if Check(tuples, user.sub, required, id) then Pass
    else Forbidden
  }

  // Loads the document and evaluates the read policy; a denial looks like a missing document.
  function PolicyGuard(resource: Option<Resource>, user: Subject): Verdict {
    if IsSuperAdmin(Some(user)) then Pass
    else if resource.None? || !ReadPolicy(user, resource.value) then NotFound
    else Pass
  }
}
