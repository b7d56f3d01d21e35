/**
 Reading the list page by page. The database orders by creation time, newest first, and may
 order ties differently in every query.
 */
module Paging {
  import opened Wrappers
  import opened Collections
  import opened Access
  import opened DocumentModel

  type Created = map<DocId, nat>

  ghost predicate NewestFirst(created: Created, order: seq<DocId>)
    requires forall id :: id in order ==> id in created
  {
    forall i, j :: 0 <= i < j < |order| ==> created[order[j]] <= created[order[i]]
  }

  // One way the database may list the ids: each once, newest first.
  ghost predicate IsOrder(created: Created, ids: set<DocId>, order: seq<DocId>) {
    && ids <= created.Keys
    && Distinct(order) && Elements(order) == ids
    && (forall id :: id in order ==> id in created)
    && NewestFirst(created, order)
  }

  lemma NoElements(order: seq<DocId>)
    ensures Elements(order) == {} <==> order == []
  {
    if order != [] {
      assert order[0] in Elements(order);
    }
  }

  function Least(a: nat, b: nat): nat {
    if a <= b then a else b
  }

  // `skip` and `take` applied to one listing.
  function Page(order: seq<DocId>, skip: nat, take: nat): seq<DocId> {
    order[Least(skip, |order|)..Least(skip + take, |order|)]
  }

  // Consecutive pages from `skip` on, each cut from its own listing.
  function Pages(orders: seq<seq<DocId>>, skip: nat, take: nat): seq<DocId> {
    if orders == [] then [] else Page(orders[0], skip, take) + Pages(orders[1..], skip + take, take)
  }

  // So many pages reach the end of a list of n.
  predicate Reaches(pages: nat, skip: nat, take: nat, n: nat)
    decreases pages
  {
    n <= skip || (pages > 0 && Reaches(pages - 1, skip + take, take, n))
  }

  // At no page boundary from `skip` on do two neighbours have the same creation time.
  ghost predicate NoTieAtBoundary(created: Created, order: seq<DocId>, skip: nat, take: nat)
    requires take > 0 && forall id :: id in order ==> id in created
    decreases |order| - skip
  {
    skip < |order| ==>
      && (0 < skip ==> created[order[skip]] != created[order[skip - 1]])
      && NoTieAtBoundary(created, order, skip + take, take)
  }

  // ---------- A cut without a tie is the same cut in every listing ----------

  // The newer of two parts is a prefix of every listing.
  lemma NewerPartIsPrefix(created: Created, ids: set<DocId>, order: seq<DocId>, newer: set<DocId>)
    requires IsOrder(created, ids, order) && newer <= ids
    requires forall a, b :: a in newer && b in ids - newer ==> created[b] < created[a]
    ensures |newer| <= |order| && Elements(order[..|newer|]) == newer
  {
    DistinctSize(order);
    SubsetSize(newer, ids);
    var n := |newer|;
    forall i | 0 <= i < n
      ensures order[i] in newer
    {
      if order[i] !in newer {
        assert newer <= Elements(order[..i]) by {
          forall a | a in newer
            ensures a in order[..i]
          {
            assert a in Elements(order);
            var j :| 0 <= j < |order| && order[j] == a;
            assert order[i] in ids - newer;
            assert j < i;
          }
        }
        DistinctSize(order[..i]);
        SubsetSize(newer, Elements(order[..i]));
      }
    }
    DistinctSize(order[..n]);
    SubsetSize(Elements(order[..n]), newer);
  }

  lemma SameCut(created: Created, ids: set<DocId>, o: seq<DocId>, p: seq<DocId>, cut: nat)
    requires IsOrder(created, ids, o) && IsOrder(created, ids, p) && cut <= |o|
    requires 0 < cut < |o| ==> created[o[cut]] != created[o[cut - 1]]
    ensures |p| == |o| && Elements(p[..cut]) == Elements(o[..cut])
  {
    DistinctSize(o);
    DistinctSize(p);
    if cut == |o| {
      assert o[..cut] == o && p[..cut] == p;
    } else if cut > 0 {
      var newer := Elements(o[..cut]);
      DistinctSize(o[..cut]);
      forall a, b | a in newer && b in ids - newer
        ensures created[b] < created[a]
      {
        var i :| 0 <= i < cut && o[i] == a;
        assert b in Elements(o);
        var j :| 0 <= j < |o| && o[j] == b;
        assert forall k :: 0 <= k < cut ==> o[k] in o[..cut];
        assert created[o[j]] <= created[o[cut]] < created[o[cut - 1]] <= created[o[i]];
      }
      NewerPartIsPrefix(created, ids, p, newer);
    }
  }

  // ---------- The pages together ----------

  // The ids before a cut, and the ids of the whole list that are not.
  function Seen(order: seq<DocId>, cut: nat): set<DocId> {
    Elements(order[..Least(cut, |order|)])
  }

  function Rest(ids: set<DocId>, order: seq<DocId>, cut: nat): set<DocId> {
    ids - Seen(order, cut)
  }

  lemma SliceElements(order: seq<DocId>, lo: nat, hi: nat)
    requires Distinct(order) && lo <= hi <= |order|
    ensures Elements(order[lo..hi]) == Elements(order[..hi]) - Elements(order[..lo])
    ensures Elements(order[..lo]) <= Elements(order[..hi]) <= Elements(order)
  {
    assert order[..hi] == order[..lo] + order[lo..hi];
    assert order == order[..hi] + order[hi..];
    forall id | id in order[..lo]
      ensures id !in order[lo..hi]
    {
      var i :| 0 <= i < lo && order[i] == id;
      assert forall j :: 0 <= j < hi - lo ==> order[lo..hi][j] == order[lo + j];
    }
  }

  lemma PageOfRest(created: Created, ids: set<DocId>, o: seq<DocId>, p: seq<DocId>, skip: nat, take: nat)
    requires take > 0 && IsOrder(created, ids, o) && IsOrder(created, ids, p)
    requires NoTieAtBoundary(created, o, skip, take)
    ensures Elements(Page(p, skip, take)) == Rest(ids, o, skip) - Rest(ids, o, skip + take)
    ensures Rest(ids, o, skip + take) <= Rest(ids, o, skip)
  {
    var lo, hi := Least(skip, |o|), Least(skip + take, |o|);
    SameCut(created, ids, o, p, lo);
    BoundaryAhead(created, o, skip, take);
    SameCut(created, ids, o, p, hi);
    SliceElements(o, lo, hi);
    SliceElements(p, lo, hi);
  }

  lemma BoundaryAhead(created: Created, o: seq<DocId>, skip: nat, take: nat)
    requires take > 0 && (forall id :: id in o ==> id in created) && NoTieAtBoundary(created, o, skip, take)
    ensures NoTieAtBoundary(created, o, skip + take, take)
    ensures 0 < skip + take < |o| ==> created[o[skip + take]] != created[o[skip + take - 1]]
  {
    assert skip < |o| ==> NoTieAtBoundary(created, o, skip + take, take);
  }

  lemma PageInOrder(created: Created, ids: set<DocId>, p: seq<DocId>, skip: nat, take: nat)
    requires IsOrder(created, ids, p)
    ensures forall id :: id in Page(p, skip, take) ==> id in created
    ensures Distinct(Page(p, skip, take)) && NewestFirst(created, Page(p, skip, take))
  {
  }

  // What comes before a cut is at least as new as what comes after it.
  lemma NewerThanRest(created: Created, ids: set<DocId>, o: seq<DocId>, cut: nat, id: DocId, later: DocId)
    requires IsOrder(created, ids, o) && id in Seen(o, cut) && later in Rest(ids, o, cut)
    ensures id in created && later in created && created[later] <= created[id]
  {
    var n := Least(cut, |o|);
    var i :| 0 <= i < n && o[..n][i] == id;
    assert later in Elements(o);
    var j :| 0 <= j < |o| && o[j] == later;
    assert forall k :: 0 <= k < n ==> o[k] in o[..n];
    assert id in o;
  }

  // Without ties at the boundaries, the pages from `skip` on list the rest once, newest first.
  lemma {:induction false} PagesListRest(created: Created, ids: set<DocId>, o: seq<DocId>, orders: seq<seq<DocId>>, skip: nat, take: nat)
    requires take > 0 && IsOrder(created, ids, o) && NoTieAtBoundary(created, o, skip, take)
    requires forall i :: 0 <= i < |orders| ==> IsOrder(created, ids, orders[i])
    requires Reaches(|orders|, skip, take, |o|)
    ensures IsOrder(created, Rest(ids, o, skip), Pages(orders, skip, take))
    decreases |orders|
  {
    if orders == [] {
      assert o[..|o|] == o;
    } else {
      var page, rest := Page(orders[0], skip, take), Pages(orders[1..], skip + take, take);
      PageOfRest(created, ids, o, orders[0], skip, take);
      PageInOrder(created, ids, orders[0], skip, take);
      BoundaryAhead(created, o, skip, take);
      PagesListRest(created, ids, o, orders[1..], skip + take, take);
      Joined(created, ids, o, skip, skip + take, page, rest);
    }
  }

  // Two parts of a list, cut where the second begins.
  lemma Joined(created: Created, ids: set<DocId>, o: seq<DocId>, from: nat, cut: nat, page: seq<DocId>, rest: seq<DocId>)
    requires IsOrder(created, ids, o)
    requires Distinct(page) && Elements(page) == Rest(ids, o, from) - Rest(ids, o, cut)
    requires (forall id :: id in page ==> id in created) && NewestFirst(created, page)
    requires IsOrder(created, Rest(ids, o, cut), rest) && Rest(ids, o, cut) <= Rest(ids, o, from)
    ensures IsOrder(created, Rest(ids, o, from), page + rest)
  {
    var c := page + rest;
    assert forall id :: id in page <==> id in Elements(page);
    assert forall id :: id in rest <==> id in Elements(rest);
    forall i, j | 0 <= i < j < |c|
      ensures c[i] != c[j] && c[i] in created && c[j] in created && created[c[j]] <= created[c[i]]
    {
      if i < |page| <= j {
        assert c[i] in page && c[j] in rest;
        NewerThanRest(created, ids, o, cut, c[i], c[j]);
      }
    }
    assert Elements(c) == Elements(page) + Elements(rest);
  }

  // ---------- When do the pages make up the list? ----------

  ghost predicate AllOrders(created: Created, ids: set<DocId>, orders: seq<seq<DocId>>) {
    forall i :: 0 <= i < |orders| ==> IsOrder(created, ids, orders[i])
  }

  // Enough pages, however the database breaks ties in each query, together list every id once,
  // newest first.
  ghost predicate PagesAlwaysComplete(created: Created, ids: set<DocId>, take: nat) {
    forall orders: seq<seq<DocId>> :: AllOrders(created, ids, orders) && Reaches(|orders|, 0, take, |ids|) ==>
      IsOrder(created, ids, Pages(orders, 0, take))
  }

  // The listing with the two neighbours at a cut exchanged.
  function Exchanged(o: seq<DocId>, cut: nat): seq<DocId>
    requires 0 < cut < |o|
  {
    o[cut - 1 := o[cut]][cut := o[cut - 1]]
  }

  lemma ExchangedIsOrder(created: Created, ids: set<DocId>, o: seq<DocId>, cut: nat)
    requires IsOrder(created, ids, o) && 0 < cut < |o| && created[o[cut]] == created[o[cut - 1]]
    ensures IsOrder(created, ids, Exchanged(o, cut))
  {
    var x := Exchanged(o, cut);
    forall id
      ensures id in x <==> id in o
    {
      if id in o {
        var i :| 0 <= i < |o| && o[i] == id;
        assert x[if i == cut then cut - 1 else if i == cut - 1 then cut else i] == id;
      }
    }
    assert Elements(x) == Elements(o);
  }

  // Pages enough to reach the end, all cut from one listing.
  lemma {:induction false} Plenty(created: Created, ids: set<DocId>, o: seq<DocId>, skip: nat, take: nat) returns (orders: seq<seq<DocId>>)
    requires take > 0 && IsOrder(created, ids, o)
    ensures AllOrders(created, ids, orders) && Reaches(|orders|, skip, take, |o|)
    decreases |o| - skip
  {
    if |o| <= skip {
      orders := [];
    } else {
      orders := Plenty(created, ids, o, skip + take, take);
      orders := [o] + orders;
    }
  }

  ghost predicate Repeats(order: seq<DocId>) {
    exists i, j :: 0 <= i < j < |order| && order[i] == order[j]
  }

  // A tie at a cut: the page after it, cut from the exchanged listing, begins with an id seen before.
  lemma TieHere(created: Created, ids: set<DocId>, o: seq<DocId>, cut: nat, take: nat) returns (orders: seq<seq<DocId>>)
    requires take > 0 && IsOrder(created, ids, o) && 0 < cut < |o| && created[o[cut]] == created[o[cut - 1]]
    ensures AllOrders(created, ids, orders) && Reaches(|orders|, cut, take, |o|)
    ensures Repeats(o[..cut] + Pages(orders, cut, take))
  {
    var x := Exchanged(o, cut);
    ExchangedIsOrder(created, ids, o, cut);
    var more := Plenty(created, ids, o, cut + take, take);
    orders := [x] + more;
    var pages := Pages(orders, cut, take);
    assert |Page(x, cut, take)| > 0 && Page(x, cut, take)[0] == o[cut - 1];
    assert pages[0] == o[cut - 1];
    assert (o[..cut] + pages)[cut - 1] == (o[..cut] + pages)[cut];
  }

  lemma OneListingMore(created: Created, ids: set<DocId>, o: seq<DocId>, more: seq<seq<DocId>>, skip: nat, take: nat)
    requires take > 0 && IsOrder(created, ids, o)
    requires AllOrders(created, ids, more) && Reaches(|more|, skip + take, take, |o|)
    ensures AllOrders(created, ids, [o] + more) && Reaches(|[o] + more|, skip, take, |o|)
  {
  }

  lemma OnePageMore(o: seq<DocId>, more: seq<seq<DocId>>, skip: nat, take: nat)
    requires take > 0 && skip <= |o|
    ensures o[..skip] + Pages([o] + more, skip, take) == o[..Least(skip + take, |o|)] + Pages(more, skip + take, take)
  {
    assert ([o] + more)[1..] == more;
    assert o[..Least(skip + take, |o|)] == o[..skip] + Page(o, skip, take);
  }

  // A tie at a boundary lets the pages repeat an id.
  lemma {:induction false} TieRepeats(created: Created, ids: set<DocId>, o: seq<DocId>, skip: nat, take: nat) returns (orders: seq<seq<DocId>>)
    requires take > 0 && IsOrder(created, ids, o) && !NoTieAtBoundary(created, o, skip, take)
    ensures AllOrders(created, ids, orders) && Reaches(|orders|, skip, take, |o|)
    ensures skip < |o| && Repeats(o[..skip] + Pages(orders, skip, take))
    decreases |o| - skip
  {
    if 0 < skip && created[o[skip]] == created[o[skip - 1]] {
      orders := TieHere(created, ids, o, skip, take);
    } else {
      assert !NoTieAtBoundary(created, o, skip + take, take);
      var more := TieRepeats(created, ids, o, skip + take, take);
      OneListingMore(created, ids, o, more, skip, take);
      OnePageMore(o, more, skip, take);
      orders := [o] + more;
    }
  }

  // Exactly when: paging is complete for every way of breaking ties if and only if no two
  // neighbours across a page boundary were created at the same time.
  lemma PagingCompleteIff(created: Created, ids: set<DocId>, o: seq<DocId>, take: nat)
    requires take > 0 && IsOrder(created, ids, o)
    ensures PagesAlwaysComplete(created, ids, take) <==> NoTieAtBoundary(created, o, 0, take)
  {
    DistinctSize(o);
    if NoTieAtBoundary(created, o, 0, take) {
      forall orders: seq<seq<DocId>> | AllOrders(created, ids, orders) && Reaches(|orders|, 0, take, |ids|)
        ensures IsOrder(created, ids, Pages(orders, 0, take))
      {
        PagesListRest(created, ids, o, orders, 0, take);
        assert Rest(ids, o, 0) == ids;
      }
    } else {
      var orders := TieRepeats(created, ids, o, 0, take);
      assert o[..0] + Pages(orders, 0, take) == Pages(orders, 0, take);
      assert Repeats(Pages(orders, 0, take)) && !Distinct(Pages(orders, 0, take));
    }
  }

  // With distinct creation times the pages concatenate to the one list there is.
  lemma DistinctTimesPage(created: Created, ids: set<DocId>, o: seq<DocId>, orders: seq<seq<DocId>>, take: nat)
    requires take > 0 && IsOrder(created, ids, o)
    requires forall a, b :: a in ids && b in ids && created[a] == created[b] ==> a == b
    requires AllOrders(created, ids, orders) && Reaches(|orders|, 0, take, |ids|)
    ensures Pages(orders, 0, take) == o
  {
    DistinctSize(o);
    NoTies(created, ids, o, 0, take);
    PagesListRest(created, ids, o, orders, 0, take);
    assert Rest(ids, o, 0) == ids;
    OneOrder(created, ids, o, Pages(orders, 0, take));
  }

  lemma {:induction false} NoTies(created: Created, ids: set<DocId>, o: seq<DocId>, skip: nat, take: nat)
    requires take > 0 && IsOrder(created, ids, o)
    requires forall a, b :: a in ids && b in ids && created[a] == created[b] ==> a == b
    ensures NoTieAtBoundary(created, o, skip, take)
    decreases |o| - skip
  {
    if skip < |o| {
      assert 0 < skip ==> o[skip] in Elements(o) && o[skip - 1] in Elements(o);
      NoTies(created, ids, o, skip + take, take);
    }
  }

  lemma OneOrder(created: Created, ids: set<DocId>, o: seq<DocId>, p: seq<DocId>)
    requires IsOrder(created, ids, o) && IsOrder(created, ids, p)
    requires forall a, b :: a in ids && b in ids && created[a] == created[b] ==> a == b
    ensures o == p
  {
    DistinctSize(o);
    DistinctSize(p);
    forall i | 0 <= i < |o|
      ensures o[i] == p[i]
    {
      assert o[i] in Elements(o) && (i + 1 < |o| ==> o[i + 1] in Elements(o)) && (i > 0 ==> o[i - 1] in Elements(o));
      SameCut(created, ids, o, p, i);
      SameCut(created, ids, o, p, i + 1);
      SliceElements(o, i, i + 1);
      SliceElements(p, i, i + 1);
      assert o[i] in o[i..i + 1] && o[i] in Elements(p[i..i + 1]);
    }
  }

  // ---------- The list endpoint ----------

  function CreatedAt(s: State): Created {
    map id | id in s.docs :: s.docs[id].createdAt
  }

  // What the list query matches.
  function Matching(s: State, user: Subject): set<DocId> {
    var filter := ReadableDocumentWhere(s.tuples, Some(user));
    if filter.None? then {} else set id | id in s.docs && Selects(filter.value, ResourceOf(id, s.docs[id]))
  }

  // Paging through the list endpoint gives exactly the documents the user may read, each once.
  lemma ListIsReadableSet(s: State, user: Subject, orders: seq<seq<DocId>>, take: nat, o: seq<DocId>)
    requires take > 0 && IsOrder(CreatedAt(s), Matching(s, user), o) && NoTieAtBoundary(CreatedAt(s), o, 0, take)
    requires AllOrders(CreatedAt(s), Matching(s, user), orders) && Reaches(|orders|, 0, take, |Matching(s, user)|)
    ensures Distinct(Pages(orders, 0, take))
    ensures forall id :: id in Pages(orders, 0, take) <==> CanDo(s, user, DocumentRead, id)
  {
    PagingCompleteIff(CreatedAt(s), Matching(s, user), o, take);
    assert IsOrder(CreatedAt(s), Matching(s, user), Pages(orders, 0, take));
    forall id
      ensures id in Pages(orders, 0, take) <==> CanDo(s, user, DocumentRead, id)
    {
      assert id in Pages(orders, 0, take) <==> id in Elements(Pages(orders, 0, take));
      if id in s.docs { FilterRefinesDecision(s.tuples, Some(user), ResourceOf(id, s.docs[id])); }
    }
  }

  // A document the user may not read is missing from the list, which is otherwise what it would be
  // if the document did not exist.
  lemma HiddenFromList(s: State, user: Subject, id: DocId)
    requires Inv(s) && id in s.docs && !CanDo(s, user, DocumentRead, id)
    ensures Matching(WithoutDocument(s, id), user) == Matching(s, user)
  {
    var h := WithoutDocument(s, id);
    forall d | d in s.docs
      ensures d in Matching(h, user) <==> d in Matching(s, user)
    {
      HiddenCheck(s, user.sub, Viewer, id, d);
      FilterRefinesDecision(s.tuples, Some(user), ResourceOf(d, s.docs[d]));
      FilterRefinesDecision(h.tuples, Some(user), ResourceOf(d, s.docs[d]));
    }
  }
}
