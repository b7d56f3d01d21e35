/**
 The document and tuple tables, the routes with their gates, and what the service does behind
 them. Creating a document and granting its owner tuple is one step, as is finding a document
 and granting a relation on it.
 */
module DocumentModel {
  import opened Wrappers
  import opened Roles
  import opened Access

  datatype Document = Document(title: string, body: string, ownerId: UserId, visibility: Visibility, createdAt: nat)

  datatype State = State(docs: map<DocId, Document>, tuples: set<Tuple>, users: set<UserId>, drawn: set<DocId>)

  function ResourceOf(id: DocId, doc: Document): Resource {
    Resource(id, doc.ownerId, doc.visibility)
  }

  function Find(s: State, id: DocId): Option<Resource> {
    if id in s.docs then Some(ResourceOf(id, s.docs[id])) else None
  }

  predicate CanDo(s: State, user: Subject, action: Permission, id: DocId) {
    id in s.docs && Can(s.tuples, Some(user), action, ResourceOf(id, s.docs[id]))
  }

  // Absent fields are left as they are.
  datatype Changes = Changes(title: Option<string>, body: Option<string>, visibility: Option<Visibility>)

  datatype Request =
    | Create(id: DocId, now: nat, title: string, body: string, visibility: Option<Visibility>)
    | FindOne(id: DocId)
    | Preview(id: DocId)
    | Update(id: DocId, changes: Changes)
    | Remove(id: DocId)
    | Share(id: DocId, subject: UserId, relation: Relation)
    | Unshare(id: DocId, subject: UserId, relation: Relation)

  // A document created, read or changed is answered with.
  datatype Response = Done | Answered(doc: Document) | Denied | Missing | BadRequest

  // ---------- The gates before each route ----------

  function First(a: Verdict, b: Verdict): Verdict {
    if a == Pass then b else a
  }

  function Gate(s: State, user: Subject, req: Request): Verdict {
    match req
    case Create(_, _, _, _, _) => PermissionsGuard([DocumentWrite], Some(user))
    case FindOne(_) => PermissionsGuard([DocumentRead], Some(user))
    case Preview(id) => First(PermissionsGuard([DocumentRead], Some(user)), PolicyGuard(Find(s, id), user))
    case Update(id, _) => First(PermissionsGuard([DocumentWrite], Some(user)), RelationGuard(s.tuples, Editor, user, id))
    case Remove(id) => First(PermissionsGuard([DocumentDelete], Some(user)), RelationGuard(s.tuples, Owner, user, id))
    case Share(id, _, _) => First(PermissionsGuard([DocumentWrite], Some(user)), RelationGuard(s.tuples, Owner, user, id))
    case Unshare(id, _, _) => First(PermissionsGuard([DocumentWrite], Some(user)), RelationGuard(s.tuples, Owner, user, id))
  }

  // ---------- The service behind the gates ----------

  datatype Served = Served(state: State, response: Response)

  function Apply(doc: Document, changes: Changes): Document {
    doc.(title := GetOr(changes.title, doc.title),
         body := GetOr(changes.body, doc.body),
         visibility := GetOr(changes.visibility, doc.visibility))
  }

  function Service(s: State, user: Subject, req: Request): Served {
    match req
    case Create(id, now, title, body, visibility) =>
      var doc := Document(title, body, user.sub, GetOr(visibility, Private), now);
      Served(s.(docs := s.docs[id := doc], tuples := s.tuples + {Tuple(user.sub, Owner, id)}, drawn := s.drawn + {id}),
             Answered(doc))
    case FindOne(id) =>
      if CanDo(s, user, DocumentRead, id) then Served(s, Answered(s.docs[id])) else Served(s, Missing)
    case Preview(id) =>
      if CanDo(s, user, DocumentRead, id) then Served(s, Answered(s.docs[id])) else Served(s, Missing)
    case Update(id, changes) =>
      if id !in s.docs then Served(s, Missing)
      else if changes.visibility.Some? && !IsSuperAdmin(Some(user)) && s.docs[id].ownerId != user.sub then Served(s, Denied)
      else Served(s.(docs := s.docs[id := Apply(s.docs[id], changes)]), Answered(Apply(s.docs[id], changes)))
    case Remove(id) =>
      if id !in s.docs then Served(s, Missing)
      else Served(s.(docs := s.docs - {id}, tuples := set t | t in s.tuples && t.doc != id), Done)
    case Share(id, subject, relation) =>
      if relation == Owner then Served(s, BadRequest)
      else if id !in s.docs then Served(s, Missing)
      else if subject !in s.users then Served(s, BadRequest)
      else Served(s.(tuples := s.tuples + {Tuple(subject, relation, id)}), Done)
    case Unshare(id, subject, relation) =>
      if relation == Owner then Served(s, BadRequest)
      else if Tuple(subject, relation, id) !in s.tuples then Served(s, Missing)
      else Served(s.(tuples := s.tuples - {Tuple(subject, relation, id)}), Done)
  }

  function Handle(s: State, user: Subject, req: Request): Served {
    match Gate(s, user, req)
    case Pass => Service(s, user, req)
    case Forbidden => Served(s, Denied)
    case NotFound => Served(s, Missing)
  }

  // ---------- Runs ----------

  datatype Call = Call(user: Subject, req: Request)

  // A created document gets an id never drawn before.
  predicate IsAdmissible(s: State, c: Call) {
    c.req.Create? ==> c.req.id !in s.drawn
  }

  predicate IsRun(s: State, calls: seq<Call>)
    decreases |calls|
  {
    calls != [] ==> IsAdmissible(s, calls[0]) && IsRun(Handle(s, calls[0].user, calls[0].req).state, calls[1..])
  }

  function Run(s: State, calls: seq<Call>): State
    decreases |calls|
  {
    if calls == [] then s else Run(Handle(s, calls[0].user, calls[0].req).state, calls[1..])
  }

  // The tables before any document, for any users.
  function Initial(users: set<UserId>): State {
    State(map[], {}, users, {})
  }

  // ---------- The owner tuples ----------

  // Each document has exactly one owner tuple, held by its ownerId; no tuple names a document
  // that is not there; document ids are never drawn twice.
  ghost predicate Inv(s: State) {
    && (forall id :: id in s.docs ==> id in s.drawn && Tuple(s.docs[id].ownerId, Owner, id) in s.tuples)
    && (forall t :: t in s.tuples ==> t.doc in s.docs && (t.relation == Owner ==> t.subject == s.docs[t.doc].ownerId))
  }

  lemma HandleKeepsInv(s: State, c: Call)
    requires Inv(s) && IsAdmissible(s, c)
    ensures Inv(Handle(s, c.user, c.req).state)
  {
  }

  lemma {:induction false} RunKeepsInv(s: State, calls: seq<Call>)
    requires Inv(s) && IsRun(s, calls)
    ensures Inv(Run(s, calls))
    decreases |calls|
  {
    if calls != [] {
      HandleKeepsInv(s, calls[0]);
      RunKeepsInv(Handle(s, calls[0].user, calls[0].req).state, calls[1..]);
    }
  }

  function OwnerTuples(s: State, id: DocId): set<Tuple> {
    set t | t in s.tuples && t.relation == Owner && t.doc == id
  }

  // In every reachable state a document's one owner tuple names its ownerId.
  lemma OneOwnerTuple(users: set<UserId>, calls: seq<Call>, id: DocId)
    requires IsRun(Initial(users), calls)
    ensures var s := Run(Initial(users), calls);
            OwnerTuples(s, id) == if id in s.docs then {Tuple(s.docs[id].ownerId, Owner, id)} else {}
  {
    RunKeepsInv(Initial(users), calls);
  }

  // ---------- Guards and decision agree ----------

  lemma ScopeGate(user: Subject, permission: Permission)
    ensures PermissionsGuard([permission], Some(user)) == Pass <==> HasPermission(Some(user), permission)
  {
    assert permission in [permission];
  }

  lemma OwnsIff(s: State, user: UserId, id: DocId)
    requires Inv(s) && id in s.docs
    ensures Check(s.tuples, user, Owner, id) <==> s.docs[id].ownerId == user
    ensures s.docs[id].ownerId == user ==> Check(s.tuples, user, Editor, id) && Check(s.tuples, user, Viewer, id)
  {
    if s.docs[id].ownerId == user {
      assert Tuple(user, Owner, id) in s.tuples;
    }
  }

  // In every reachable state the stacked guards of a route pass if and only if the central
  // decision allows the action; both go by the subject's roles, the owner and the editors.
  lemma GuardsAgree(users: set<UserId>, calls: seq<Call>, user: Subject, id: DocId, changes: Changes, subject: UserId, relation: Relation)
    requires IsRun(Initial(users), calls) && id in Run(Initial(users), calls).docs
    ensures var s := Run(Initial(users), calls);
            && (Gate(s, user, Update(id, changes)) == Pass <==> CanDo(s, user, DocumentWrite, id))
            && (Gate(s, user, Remove(id)) == Pass <==> CanDo(s, user, DocumentDelete, id))
    ensures var s := Run(Initial(users), calls);
            var named := RegularUser in user.roles || Moderator in user.roles || Admin in user.roles;
            && (Gate(s, user, Update(id, changes)) == Pass <==>
                  SuperAdmin in user.roles || (named && (s.docs[id].ownerId == user.sub || Tuple(user.sub, Editor, id) in s.tuples)))
            && (Gate(s, user, Remove(id)) == Pass <==> SuperAdmin in user.roles || (named && s.docs[id].ownerId == user.sub))
            && Gate(s, user, Share(id, subject, relation)) == Gate(s, user, Remove(id))
            && Gate(s, user, Unshare(id, subject, relation)) == Gate(s, user, Remove(id))
  {
    RunKeepsInv(Initial(users), calls);
    var s := Run(Initial(users), calls);
    OwnsIff(s, user.sub, id);
    ScopeGate(user, DocumentWrite);
    ScopeGate(user, DocumentDelete);
    ScopesByRole(user);
    CheckIff(s.tuples, user.sub, id);
  }

  // What the preview guards let through the central decision lets through too, so preview then
  // answers with the document if there is one.
  lemma PreviewImpliesRead(s: State, user: Subject, id: DocId)
    requires Gate(s, user, Preview(id)) == Pass
    ensures CanDo(s, user, DocumentRead, id) <==> id in s.docs
    ensures Handle(s, user, Preview(id)).response == if id in s.docs then Answered(s.docs[id]) else Missing
  {
    ScopeGate(user, DocumentRead);
  }

  // ---------- A document one may not read ----------

  // The tables as if the document had never been created.
  function WithoutDocument(s: State, id: DocId): State {
    s.(docs := s.docs - {id}, tuples := set t | t in s.tuples && t.doc != id)
  }

  lemma HiddenCheck(s: State, subject: UserId, required: Relation, id: DocId, other: DocId)
    requires Inv(s)
    ensures other != id ==> (Check(WithoutDocument(s, id).tuples, subject, required, other) <==> Check(s.tuples, subject, required, other))
    ensures !Check(WithoutDocument(s, id).tuples, subject, required, id)
    ensures Check(s.tuples, subject, required, id) ==> Check(s.tuples, subject, Viewer, id)
  {
    if other != id { CheckDependsOnObject(s.tuples, WithoutDocument(s, id).tuples, subject, required, other); }
  }

  // The gates of a route answer the same.
  lemma HiddenGate(s: State, user: Subject, req: Request, id: DocId)
    requires Inv(s) && id in s.docs && !IsSuperAdmin(Some(user)) && !CanDo(s, user, DocumentRead, id)
    ensures Gate(WithoutDocument(s, id), user, req) == Gate(s, user, req)
    ensures Gate(s, user, req) == Pass && !req.Create? && req.id == id ==> req.FindOne?
  {
    ScopeGate(user, DocumentRead);
    ScopeGate(user, DocumentWrite);
    ScopeGate(user, DocumentDelete);
    if !req.Create? {
      HiddenCheck(s, user.sub, Owner, id, req.id);
      HiddenCheck(s, user.sub, Editor, id, req.id);
      SameScopes(user);
    }
  }

  // Every role that grants one of the three scopes grants reading.
  lemma SameScopes(user: Subject)
    ensures HasPermission(Some(user), DocumentWrite) || HasPermission(Some(user), DocumentDelete) ==> HasPermission(Some(user), DocumentRead)
  {
  }

  // A document a user may not read is answered about like one that is not there, by every
  // request, and remains one the user may not read.
  lemma DeniedLooksMissing(s: State, user: Subject, req: Request, id: DocId)
    requires Inv(s) && IsAdmissible(s, Call(user, req))
    requires id in s.docs && !IsSuperAdmin(Some(user)) && !CanDo(s, user, DocumentRead, id)
    ensures Handle(WithoutDocument(s, id), user, req).response == Handle(s, user, req).response
    ensures Handle(WithoutDocument(s, id), user, req).state == WithoutDocument(Handle(s, user, req).state, id)
    ensures id in Handle(s, user, req).state.docs && !CanDo(Handle(s, user, req).state, user, DocumentRead, id)
  {
    HiddenGate(s, user, req, id);
    if Gate(s, user, req) == Pass {
      HiddenService(s, user, req, id);
      StaysHidden(s, user, req, id);
    }
  }

  lemma HiddenService(s: State, user: Subject, req: Request, id: DocId)
    requires Inv(s) && IsAdmissible(s, Call(user, req)) && id in s.docs
    requires !IsSuperAdmin(Some(user)) && !CanDo(s, user, DocumentRead, id)
    requires !req.Create? && req.id == id ==> req.FindOne?
    ensures Service(WithoutDocument(s, id), user, req).response == Service(s, user, req).response
    ensures Service(WithoutDocument(s, id), user, req).state == WithoutDocument(Service(s, user, req).state, id)
  {
    var s', h' := Service(s, user, req).state, Service(WithoutDocument(s, id), user, req).state;
    if !req.Create? { HiddenCheck(s, user.sub, Viewer, id, req.id); }
    assert h'.docs == WithoutDocument(s', id).docs;
    assert h'.tuples == WithoutDocument(s', id).tuples;
  }

  lemma StaysHidden(s: State, user: Subject, req: Request, id: DocId)
    requires Inv(s) && IsAdmissible(s, Call(user, req)) && id in s.docs && !CanDo(s, user, DocumentRead, id)
    requires !req.Create? && req.id == id ==> req.FindOne?
    ensures id in Service(s, user, req).state.docs && !CanDo(Service(s, user, req).state, user, DocumentRead, id)
  {
    var s' := Service(s, user, req).state;
    assert s'.docs[id] == s.docs[id];
    assert forall t: Tuple :: t.doc == id ==> (t in s'.tuples <==> t in s.tuples);
    CheckDependsOnObject(s.tuples, s'.tuples, user.sub, Viewer, id);
  }

  function Responses(s: State, user: Subject, reqs: seq<Request>): seq<Response>
    decreases |reqs|
  {
    if reqs == [] then [] else [Handle(s, user, reqs[0]).response] + Responses(Handle(s, user, reqs[0]).state, user, reqs[1..])
  }

  function Calls(user: Subject, reqs: seq<Request>): seq<Call> {
    if reqs == [] then [] else [Call(user, reqs[0])] + Calls(user, reqs[1..])
  }

  // No probing: however many requests the user makes, the answers are those the user would get
  // if the document did not exist.
  lemma {:induction false} NoEnumeration(s: State, user: Subject, reqs: seq<Request>, id: DocId)
    requires Inv(s) && IsRun(s, Calls(user, reqs))
    requires id in s.docs && !IsSuperAdmin(Some(user)) && !CanDo(s, user, DocumentRead, id)
    ensures Responses(WithoutDocument(s, id), user, reqs) == Responses(s, user, reqs)
    decreases |reqs|
  {
    if reqs != [] {
      var calls := Calls(user, reqs);
      assert calls[0] == Call(user, reqs[0]) && calls[1..] == Calls(user, reqs[1..]);
      DeniedLooksMissing(s, user, reqs[0], id);
      HandleKeepsInv(s, calls[0]);
      NoEnumeration(Handle(s, user, reqs[0]).state, user, reqs[1..], id);
    }
  }

  // ---------- Who controls the readers ----------

  ghost predicate SameReaders(s: State, s': State, id: DocId) {
    && id in s.docs && id in s'.docs
    && s'.docs[id].ownerId == s.docs[id].ownerId && s'.docs[id].visibility == s.docs[id].visibility
    && (forall reader: Subject :: CanDo(s', reader, DocumentRead, id) <==> CanDo(s, reader, DocumentRead, id))
  }

  lemma CheckDependsOnObject(a: set<Tuple>, b: set<Tuple>, subject: UserId, required: Relation, id: DocId)
    requires forall t: Tuple :: t.doc == id && t.subject == subject ==> (t in a <==> t in b)
    ensures Check(a, subject, required, id) <==> Check(b, subject, required, id)
  {
  }

  // A call by anyone but the owner or a super admin leaves the document, its owner, its
  // visibility and its readers as they are.
  lemma OutsidersKeepReaders(s: State, c: Call, id: DocId)
    requires Inv(s) && IsAdmissible(s, c) && id in s.docs
    requires !IsSuperAdmin(Some(c.user)) && s.docs[id].ownerId != c.user.sub
    ensures SameReaders(s, Handle(s, c.user, c.req).state, id)
  {
    var s' := Handle(s, c.user, c.req).state;
    OwnsIff(s, c.user.sub, id);
    forall t: Tuple | t.doc == id
      ensures t in s'.tuples <==> t in s.tuples
    {
    }
    forall reader: Subject
      ensures CanDo(s', reader, DocumentRead, id) <==> CanDo(s, reader, DocumentRead, id)
    {
      CheckDependsOnObject(s.tuples, s'.tuples, reader.sub, Viewer, id);
    }
  }

  // Over a whole run: as long as neither the owner nor a super admin acts, the document stays,
  // and exactly the same subjects may read it.
  lemma {:induction false} ReadershipControl(s: State, calls: seq<Call>, id: DocId)
    requires Inv(s) && IsRun(s, calls) && id in s.docs
    requires forall i :: 0 <= i < |calls| ==> !IsSuperAdmin(Some(calls[i].user)) && calls[i].user.sub != s.docs[id].ownerId
    ensures SameReaders(s, Run(s, calls), id)
    decreases |calls|
  {
    if calls != [] {
      var s1 := Handle(s, calls[0].user, calls[0].req).state;
      OutsidersKeepReaders(s, calls[0], id);
      HandleKeepsInv(s, calls[0]);
      ReadershipControl(s1, calls[1..], id);
      forall reader: Subject
        ensures CanDo(Run(s, calls), reader, DocumentRead, id) <==> CanDo(s, reader, DocumentRead, id)
      {
        assert CanDo(s1, reader, DocumentRead, id) <==> CanDo(s, reader, DocumentRead, id);
      }
    }
  }

  // A document changes only at the hands of a super admin, its owner or an editor; its visibility
  // changes, and it goes, only at the hands of the first two.
  lemma OnlyWritersEdit(users: set<UserId>, calls: seq<Call>, c: Call, id: DocId)
    requires IsRun(Initial(users), calls) && IsAdmissible(Run(Initial(users), calls), c)
    requires id in Run(Initial(users), calls).docs
    ensures var s := Run(Initial(users), calls);
            var s' := Handle(s, c.user, c.req).state;
            var named := RegularUser in c.user.roles || Moderator in c.user.roles || Admin in c.user.roles;
            var owns := SuperAdmin in c.user.roles || (named && s.docs[id].ownerId == c.user.sub);
            && (id !in s'.docs ==> owns)
            && (id in s'.docs && s'.docs[id].visibility != s.docs[id].visibility ==> owns)
            && (id in s'.docs && s'.docs[id] != s.docs[id] ==> owns || (named && Tuple(c.user.sub, Editor, id) in s.tuples))
  {
    RunKeepsInv(Initial(users), calls);
    var s := Run(Initial(users), calls);
    if !c.req.Create? && !c.req.FindOne? && !c.req.Preview? {
      if c.req.id == id { GuardsAgree(users, calls, c.user, id, Changes(None, None, None), 0, Viewer); }
    }
    OwnsIff(s, c.user.sub, id);
    ScopesByRole(c.user);
  }

  // A share adds exactly one reader id to exactly one document; everyone else stays.
  lemma ShareEffect(s: State, c: Call, reader: Subject, id: DocId)
    requires Inv(s) && c.req.Share? && Handle(s, c.user, c.req).response == Done
    ensures CanDo(Handle(s, c.user, c.req).state, reader, DocumentRead, id) <==>
      || CanDo(s, reader, DocumentRead, id)
      || (id == c.req.id && reader.sub == c.req.subject && HasPermission(Some(reader), DocumentRead))
  {
    var s' := Handle(s, c.user, c.req).state;
    var added := Tuple(c.req.subject, c.req.relation, c.req.id);
    assert added in s'.tuples;
    if reader.sub != c.req.subject || id != c.req.id {
      CheckDependsOnObject(s.tuples, s'.tuples, reader.sub, Viewer, id);
    }
  }

  // An unshare changes nothing for anyone but the named subject on the named document, who goes
  // on reading exactly if that needs no share, or the other shareable relation is held too.
  lemma UnshareEffect(s: State, c: Call, reader: Subject, id: DocId)
    requires Inv(s) && c.req.Unshare? && Handle(s, c.user, c.req).response == Done
    ensures CanDo(Handle(s, c.user, c.req).state, reader, DocumentRead, id) <==>
      && CanDo(s, reader, DocumentRead, id)
      && (id == c.req.id && reader.sub == c.req.subject ==>
            || Can({}, Some(reader), DocumentRead, ResourceOf(id, s.docs[id]))
            || Tuple(reader.sub, if c.req.relation == Editor then Viewer else Editor, id) in s.tuples)
  {
    var s' := Handle(s, c.user, c.req).state;
    if reader.sub != c.req.subject || id != c.req.id {
      CheckDependsOnObject(s.tuples, s'.tuples, reader.sub, Viewer, id);
    } else if id in s.docs {
      OwnsIff(s, reader.sub, id);
      var other := Tuple(reader.sub, if c.req.relation == Editor then Viewer else Editor, id);
      assert other in s.tuples ==> other in s'.tuples && Check(s'.tuples, reader.sub, Viewer, id);
    }
  }

  // Unsharing what was just shared restores the tables, if the relation was not held before.
  lemma UnshareUndoesShare(s: State, user: Subject, id: DocId, subject: UserId, relation: Relation)
    requires Inv(s) && Handle(s, user, Share(id, subject, relation)).response == Done
    requires Tuple(subject, relation, id) !in s.tuples
    ensures Handle(Handle(s, user, Share(id, subject, relation)).state, user, Unshare(id, subject, relation)) == Served(s, Done)
  {
    var s' := Handle(s, user, Share(id, subject, relation)).state;
    assert s'.tuples - {Tuple(subject, relation, id)} == s.tuples;
    OwnsIff(s, user.sub, id);
    HandleKeepsInv(s, Call(user, Share(id, subject, relation)));
    OwnsIff(s', user.sub, id);
  }
}
