/**
 What each document route does in every reachable state, told by roles, owners and tuples alone:
 who is served, with what, and what the tables become.
 */
module DocumentRoutes {
  import opened Wrappers
  import opened Roles
  import opened Access
  import opened DocumentModel

  // The decision in a reachable state: who may read, write and delete a document.
  lemma DecisionIff(users: set<UserId>, calls: seq<Call>, user: Subject, id: DocId)
    requires IsRun(Initial(users), calls) && id in Run(Initial(users), calls).docs
    ensures var s := Run(Initial(users), calls);
            var named := RegularUser in user.roles || Moderator in user.roles || Admin in user.roles;
            && (CanDo(s, user, DocumentRead, id) <==>
                  || SuperAdmin in user.roles || Moderator in user.roles || Admin in user.roles
                  || (RegularUser in user.roles &&
                        (|| s.docs[id].visibility != Private || s.docs[id].ownerId == user.sub
                         || Tuple(user.sub, Editor, id) in s.tuples || Tuple(user.sub, Viewer, id) in s.tuples)))
            && (CanDo(s, user, DocumentWrite, id) <==>
                  SuperAdmin in user.roles || (named && (s.docs[id].ownerId == user.sub || Tuple(user.sub, Editor, id) in s.tuples)))
            && (CanDo(s, user, DocumentDelete, id) <==>
                  SuperAdmin in user.roles || (named && s.docs[id].ownerId == user.sub))
  {
    RunKeepsInv(Initial(users), calls);
    var s := Run(Initial(users), calls);
    OwnsIff(s, user.sub, id);
    CheckIff(s.tuples, user.sub, id);
    ScopesByRole(user);
  }

  // ---------- Editing ----------

  // An update is made exactly for a super admin, the owner, or an editor who leaves the
  // visibility alone; the named fields change and nothing else does.
  lemma UpdateIff(users: set<UserId>, calls: seq<Call>, user: Subject, id: DocId, changes: Changes)
    requires IsRun(Initial(users), calls)
    ensures var s := Run(Initial(users), calls);
            var served := Handle(s, user, Update(id, changes));
            var named := RegularUser in user.roles || Moderator in user.roles || Admin in user.roles;
            if id in s.docs &&
               (|| SuperAdmin in user.roles
                || (named && s.docs[id].ownerId == user.sub)
                || (named && Tuple(user.sub, Editor, id) in s.tuples && changes.visibility.None?))
            then
              var was := s.docs[id];
              var doc := Document(if changes.title.Some? then changes.title.value else was.title,
                                  if changes.body.Some? then changes.body.value else was.body,
                                  was.ownerId,
                                  if changes.visibility.Some? then changes.visibility.value else was.visibility,
                                  was.createdAt);
              served == Served(s.(docs := s.docs[id := doc]), Answered(doc))
            else
              served == Served(s, if SuperAdmin in user.roles then Missing else Denied)
  {
    var s := Run(Initial(users), calls);
    GatesIff(users, calls, user, id);
    if id in s.docs { OwnsIff(s, user.sub, id); }
  }

  // ---------- Removing and sharing ----------

  // The gates told by roles and tuples.
  lemma GatesIff(users: set<UserId>, calls: seq<Call>, user: Subject, id: DocId)
    requires IsRun(Initial(users), calls)
    ensures var s := Run(Initial(users), calls);
            var named := RegularUser in user.roles || Moderator in user.roles || Admin in user.roles;
            var owns := id in s.docs && s.docs[id].ownerId == user.sub;
            && (forall changes :: Gate(s, user, Update(id, changes)) ==
                  if SuperAdmin in user.roles || (named && (owns || Tuple(user.sub, Editor, id) in s.tuples)) then Pass else Forbidden)
            && Gate(s, user, Remove(id)) == (if SuperAdmin in user.roles || (named && owns) then Pass else Forbidden)
            && (forall u, r :: Gate(s, user, Share(id, u, r)) == if SuperAdmin in user.roles || (named && owns) then Pass else Forbidden)
            && (forall u, r :: Gate(s, user, Unshare(id, u, r)) == if SuperAdmin in user.roles || (named && owns) then Pass else Forbidden)
    ensures Inv(Run(Initial(users), calls))
  {
    RunKeepsInv(Initial(users), calls);
    var s := Run(Initial(users), calls);
    ScopeGate(user, DocumentWrite);
    ScopeGate(user, DocumentDelete);
    ScopesByRole(user);
    CheckIff(s.tuples, user.sub, id);
    if id in s.docs { OwnsIff(s, user.sub, id); }
  }

  // A document goes, with all its tuples and nothing else, exactly at the hands of its owner or a
  // super admin.
  lemma RemoveIff(users: set<UserId>, calls: seq<Call>, user: Subject, id: DocId)
    requires IsRun(Initial(users), calls)
    ensures var s := Run(Initial(users), calls);
            var served := Handle(s, user, Remove(id));
            var named := RegularUser in user.roles || Moderator in user.roles || Admin in user.roles;
            if id in s.docs && (SuperAdmin in user.roles || (named && s.docs[id].ownerId == user.sub))
            then served == Served(s.(docs := s.docs - {id}, tuples := set t | t in s.tuples && t.doc != id), Done)
            else served == Served(s, if SuperAdmin in user.roles then Missing else Denied)
  {
    GatesIff(users, calls, user, id);
  }

  // A relation below ownership is given to a registered user, exactly by the owner or a super
  // admin.
  lemma ShareIff(users: set<UserId>, calls: seq<Call>, user: Subject, id: DocId, subject: UserId, relation: Relation)
    requires IsRun(Initial(users), calls)
    ensures var s := Run(Initial(users), calls);
            var served := Handle(s, user, Share(id, subject, relation));
            var named := RegularUser in user.roles || Moderator in user.roles || Admin in user.roles;
            if !(SuperAdmin in user.roles || (id in s.docs && named && s.docs[id].ownerId == user.sub)) then served == Served(s, Denied)
            else if relation == Owner || (id in s.docs && subject !in s.users) then served == Served(s, BadRequest)
            else if id !in s.docs then served == Served(s, Missing)
            else served == Served(s.(tuples := s.tuples + {Tuple(subject, relation, id)}), Done)
  {
    GatesIff(users, calls, user, id);
  }

  // And taken away again by the same.
  lemma UnshareIff(users: set<UserId>, calls: seq<Call>, user: Subject, id: DocId, subject: UserId, relation: Relation)
    requires IsRun(Initial(users), calls)
    ensures var s := Run(Initial(users), calls);
            var served := Handle(s, user, Unshare(id, subject, relation));
            var named := RegularUser in user.roles || Moderator in user.roles || Admin in user.roles;
            if !(SuperAdmin in user.roles || (id in s.docs && named && s.docs[id].ownerId == user.sub)) then served == Served(s, Denied)
            else if relation == Owner then served == Served(s, BadRequest)
            else if Tuple(subject, relation, id) !in s.tuples then served == Served(s, Missing)
            else served == Served(s.(tuples := s.tuples - {Tuple(subject, relation, id)}), Done)
  {
    GatesIff(users, calls, user, id);
  }

  // ---------- Creating and reading ----------

  // Any known role may create; the document is private unless said otherwise, and its creator
  // owns it.
  lemma CreateIff(s: State, user: Subject, id: DocId, now: nat, title: string, body: string, visibility: Option<Visibility>)
    ensures var served := Handle(s, user, Create(id, now, title, body, visibility));
            if SuperAdmin in user.roles || RegularUser in user.roles || Moderator in user.roles || Admin in user.roles
            then
              var doc := Document(title, body, user.sub, if visibility.Some? then visibility.value else Private, now);
              served.response == Answered(doc) && served.state.docs == s.docs[id := doc]
              && served.state.tuples == s.tuples + {Tuple(user.sub, Owner, id)} && served.state.users == s.users
            else served == Served(s, Denied)
  {
    ScopeGate(user, DocumentWrite);
    ScopesByRole(user);
  }

  // Reading answers with the document exactly for those it is visible to or shared with, and with
  // nothing to tell it from a missing one for the rest.
  lemma FindOneIff(users: set<UserId>, calls: seq<Call>, user: Subject, id: DocId)
    requires IsRun(Initial(users), calls)
    ensures var s := Run(Initial(users), calls);
            var served := Handle(s, user, FindOne(id));
            var wide := SuperAdmin in user.roles || Moderator in user.roles || Admin in user.roles;
            if !wide && RegularUser !in user.roles then served == Served(s, Denied)
            else if id in s.docs &&
                    (|| wide || s.docs[id].visibility != Private || s.docs[id].ownerId == user.sub
                     || Tuple(user.sub, Editor, id) in s.tuples || Tuple(user.sub, Viewer, id) in s.tuples)
            then served == Served(s, Answered(s.docs[id]))
            else served == Served(s, Missing)
  {
    ScopeGate(user, DocumentRead);
    ScopesByRole(user);
    if id in Run(Initial(users), calls).docs { DecisionIff(users, calls, user, id); }
  }

  // Preview goes by visibility and ownership alone: neither shares nor the wider reading scope
  // count.
  lemma PreviewIff(s: State, user: Subject, id: DocId)
    ensures var served := Handle(s, user, Preview(id));
            var named := RegularUser in user.roles || Moderator in user.roles || Admin in user.roles;
            if SuperAdmin !in user.roles && !named then served == Served(s, Denied)
            else if id in s.docs && (SuperAdmin in user.roles || s.docs[id].visibility != Private || s.docs[id].ownerId == user.sub)
            then served == Served(s, Answered(s.docs[id]))
            else served == Served(s, Missing)
  {
    ScopeGate(user, DocumentRead);
    ScopesByRole(user);
  }
}
