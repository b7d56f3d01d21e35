/**
 The document service and the relation service under it as they run: rows and tuples inserted,
 updated and deleted in place. Each method is tied to the step it performs on the tables.
 */
module DocumentServices {
  import opened Wrappers
  import opened Access
  import opened DocumentModel
  import opened Collections
  import opened Paging

  class DocumentService {
    var docs: map<DocId, Document>
    var tuples: set<Tuple>
    var users: set<UserId>
    var drawn: set<DocId>

    function View(): State
      reads this
    {
      State(docs, tuples, users, drawn)
    }

    constructor (users: set<UserId>)
      ensures View() == Initial(users)
    {
      this.users := users;
      docs, tuples, drawn := map[], {}, {};
    }

    // Granting a relation that is held already changes nothing.
    method Grant(subject: UserId, relation: Relation, id: DocId)
      modifies this`tuples
      ensures tuples == old(tuples) + {Tuple(subject, relation, id)}
    {
      tuples := tuples + {Tuple(subject, relation, id)};
    }

    method Revoke(subject: UserId, relation: Relation, id: DocId) returns (found: bool)
      modifies this`tuples
      ensures found == (Tuple(subject, relation, id) in old(tuples))
      ensures tuples == old(tuples) - {Tuple(subject, relation, id)}
    {
      var remaining := set t | t in tuples && !(t.subject == subject && t.relation == relation && t.doc == id);
      found := remaining != tuples;
      assert Tuple(subject, relation, id) in tuples ==> Tuple(subject, relation, id) !in remaining;
      tuples := remaining;
    }

    method Create(user: Subject, id: DocId, now: nat, title: string, body: string, visibility: Option<Visibility>)
      returns (response: Response)
      requires id !in drawn
      modifies this`docs, this`tuples, this`drawn
      ensures Served(View(), response) == Service(old(View()), user, Request.Create(id, now, title, body, visibility))
    {
      var doc := Document(title, body, user.sub, if visibility.Some? then visibility.value else Private, now);
      docs := docs[id := doc];
      drawn := drawn + {id};
      Grant(user.sub, Owner, id);
      return Answered(doc);
    }

    // `order` is how the database lists the matching rows.
    method FindAll(user: Subject, skip: nat, take: nat, order: seq<DocId>) returns (page: seq<Document>)
      requires IsOrder(CreatedAt(View()), Matching(View(), user), order)
      ensures |page| == if |order| <= skip then 0 else if |order| - skip <= take then |order| - skip else take
      ensures forall i :: 0 <= i < |page| ==>
        CanDo(View(), user, DocumentRead, order[skip + i]) && page[i] == docs[order[skip + i]]
      ensures forall i, j :: 0 <= i < j < |page| ==> page[j].createdAt <= page[i].createdAt
    {
      var filter := ReadableDocumentWhere(tuples, Some(user));
      if filter.None? {
        NoElements(order);
        return [];
      }
      var ids := Page(order, skip, take);
      assert |ids| == |Page(order, skip, take)|;
      forall i | 0 <= i < |ids|
        ensures CanDo(View(), user, DocumentRead, ids[i])
      {
        assert ids[i] in order && ids[i] in Elements(order);
        FilterRefinesDecision(tuples, Some(user), ResourceOf(ids[i], docs[ids[i]]));
      }
      var table := docs;
      page := seq(|ids|, i requires 0 <= i < |ids| && ids[i] in table => table[ids[i]]);
    }

    method FindOne(user: Subject, id: DocId) returns (response: Response)
      ensures response == Service(View(), user, Request.FindOne(id)).response
    {
      if id !in docs || !Can(tuples, Some(user), DocumentRead, ResourceOf(id, docs[id])) {
        return Missing;
      }
      return Answered(docs[id]);
    }

    method Update(user: Subject, id: DocId, changes: Changes) returns (response: Response)
      modifies this`docs
      ensures Served(View(), response) == Service(old(View()), user, Request.Update(id, changes))
    {
      if changes.visibility.Some? && !IsSuperAdmin(Some(user)) {
        if id !in docs {
          return Missing;
        }
        if docs[id].ownerId != user.sub {
          return Denied;
        }
      }
      if id !in docs {
        return Missing;
      }
      docs := docs[id := Apply(docs[id], changes)];
      return Answered(docs[id]);
    }

    method Remove(user: Subject, id: DocId) returns (response: Response)
      modifies this`docs, this`tuples
      ensures Served(View(), response) == Service(old(View()), user, Request.Remove(id))
    {
      if id !in docs {
        return Missing;
      }
      docs := map d | d in docs && d != id :: docs[d];
      tuples := set t | t in tuples && t.doc != id;
      return Done;
    }

    method Share(user: Subject, id: DocId, subject: UserId, relation: Relation) returns (response: Response)
      modifies this`tuples
      ensures Served(View(), response) == Service(old(View()), user, Request.Share(id, subject, relation))
    {
      if relation == Owner {
        return BadRequest;
      }
      if id !in docs {
        return Missing;
      }
      if subject !in users {
        return BadRequest;
      }
      Grant(subject, relation, id);
      return Done;
    }

    method Unshare(user: Subject, id: DocId, subject: UserId, relation: Relation) returns (response: Response)
      modifies this`tuples
      ensures Served(View(), response) == Service(old(View()), user, Request.Unshare(id, subject, relation))
    {
      if relation == Owner {
        return BadRequest;
      }
      var found := Revoke(subject, relation, id);
      if !found {
        return Missing;
      }
      return Done;
    }
  }
}
