/**
 * Properties of the project API as a whole: a handler in front of the store
 * operation it calls, over one document `{projects, nextId}`.
 */
module ProjectApi {
  import opened Js
  import opened Envelope
  import opened ProjectModel
  import PC = ProjectController

  /** The record a valid POST stores when the document is `{ps, nextId}`. */
  function Created(ps: seq<Project>, nextId: int, body: ProjectFields): Project {
    NewRecord(nextId, |ps|, PC.CreateData(body))
  }

  /**
   * POST then GET by the new id: the POST answers 201 with the new record,
   * whose id is nextId and whose orden is |ps| + 1 unless the body gave a
   * non-zero one; the GET of that id answers 200 with the same record; and
   * the document keeps its invariant.
   */
  lemma CreateThenGetById(ps: seq<Project>, nextId: int, body: ProjectFields)
    requires DocumentInvariant(ps, nextId)
    requires !PC.MissingRequired(body) && PC.KnownCategory(body.categoria)
    ensures var p := Created(ps, nextId, body);
      && PC.Create(body, d => Ok(NewRecord(nextId, |ps|, d))) == Response(201, true, Some(PC.MsgCreated), Some(p), None)
      && p.id == nextId
      && (TruthyNumber(body.orden) ==> p.orden == body.orden)
      && (!TruthyNumber(body.orden) ==> p.orden == Val(|ps| + 1))
      && GetById(ps + [p], IntString(nextId)) == Some(p)
      && PC.GetById(IntString(nextId), id => Ok(GetById(ps + [p], id))) == Response(200, true, None, Some(p), None)
      && DocumentInvariant(ps + [p], nextId + 1)
  {
    var p := Created(ps, nextId, body);
    ParseIntOfIntString(nextId, []);
    assert IntString(nextId) + [] == IntString(nextId);
    AppendedIsFound(ps, p);
    AppendKeepsInvariant(ps, nextId, p);
  }

  /** A project appended after projects with smaller ids is the first one with its id. */
  lemma AppendedIsFound(ps: seq<Project>, p: Project)
    requires IdsBelow(ps, p.id)
    ensures FirstWithId(ps + [p], Int(p.id)) == Some(p)
  {
    var qs := ps + [p];
    forall j | 0 <= j < |ps| ensures !HasId(qs[j], Int(p.id)) {
      assert qs[j] == ps[j];
    }
    assert HasId(qs[|ps|], Int(p.id));
    var r := FirstWithId(qs, Int(p.id));
    var i :| 0 <= i < |qs| && qs[i] == r.value && HasId(qs[i], Int(p.id));
    assert i == |ps|;
  }

  /** Appending a project with id nextId and incrementing nextId keeps the document invariant. */
  lemma AppendKeepsInvariant(ps: seq<Project>, nextId: int, p: Project)
    requires DocumentInvariant(ps, nextId) && p.id == nextId
    ensures DocumentInvariant(ps + [p], nextId + 1)
  {
    var qs := ps + [p];
    forall i | 0 <= i < |ps| ensures qs[i] == ps[i] {
    }
  }

  /** A GET for an id at or above nextId answers 404: no stored project has it. */
  lemma UnknownIdIsNotFound(ps: seq<Project>, nextId: int, n: int)
    requires DocumentInvariant(ps, nextId) && n >= nextId
    ensures GetById(ps, IntString(n)) == None
    ensures PC.GetById(IntString(n), id => Ok(GetById(ps, id))) == Reject(404, PC.MsgNotFound)
  {
    ParseIntOfIntString(n, []);
    assert IntString(n) + [] == IntString(n);
  }

  /** After DELETE of an id, GET of the same id answers 404. */
  lemma DeleteThenGetById(ps: seq<Project>, id: string)
    ensures GetById(WithoutId(ps, ParseInt(id)), id) == None
    ensures PC.GetById(id, i => Ok(GetById(WithoutId(ps, ParseInt(id)), i))) == Reject(404, PC.MsgNotFound)
  {
    var qs := WithoutId(ps, ParseInt(id));
    forall j | 0 <= j < |qs| ensures !HasId(qs[j], ParseInt(id)) {
      assert qs[j] in multiset(qs);
    }
  }

  /** A DELETE answers 200 exactly when some stored project has the parsed id, and 404 otherwise. */
  lemma DeleteAnswers(ps: seq<Project>, id: string)
    ensures var r := PC.Delete(id, i => Ok(|WithoutId(ps, ParseInt(i))| < |ps|));
      && (r.status == 200 <==> exists j :: 0 <= j < |ps| && HasId(ps[j], ParseInt(id)))
      && (r.status == 404 <==> forall j :: 0 <= j < |ps| ==> !HasId(ps[j], ParseInt(id)))
  {
  }

  /**
   * A PUT that provides only the title answers 200 with the stored record in
   * which the title alone changed.
   */
  lemma UpdateOnlyTitle(p: Project, id: string, titulo: string)
    ensures var body := NoFields.(titulo := Val(titulo));
      PC.Update(id, body, (i, b) => Ok(Some(Merge(p, b))))
        == Response(200, true, Some(PC.MsgUpdated), Some(p.(titulo := Val(titulo))), None)
  {
    var body := NoFields.(titulo := Val(titulo));
    assert Merge(p, body) == p.(titulo := Val(titulo));
  }

  /**
   * A falsy category in a PUT skips the category check and still reaches the
   * store, which then stores it: "" or null overwrite the category.
   */
  lemma UpdateWithFalsyCategory(p: Project, id: string, body: ProjectFields)
    requires body.categoria == Null || body.categoria == Val("")
    ensures PC.Update(id, body, (i, b) => Ok(Some(Merge(p, b)))).status == 200
    ensures Merge(p, body).categoria == body.categoria
  {
  }

  /** The POST of the example with an unknown category answers 400 naming the three categories. */
  lemma InvalidCategoryRejected(create: ProjectFields -> Outcome<Project>)
    ensures PC.Create(NoFields.(titulo := Val("X"), descripcion := Val("Y"), categoria := Val("invalid")), create)
            == Reject(400, PC.MsgBadCategory)
  {
    assert "invalid" !in PC.Categories;
  }

  /** With three stored projects, a POST without orden stores orden 4. */
  lemma FourthProjectOrden(ps: seq<Project>, nextId: int, body: ProjectFields)
    requires |ps| == 3 && body.orden == Undefined
    ensures Created(ps, nextId, body).orden == Val(4)
  {
  }

  /** Every project has no slug: no category-and-slug lookup finds one. */
  predicate NoSlugs(ps: seq<Project>) {
    forall i :: 0 <= i < |ps| ==> ps[i].slug == Undefined
  }

  /**
   * Create never sets a slug and update and delete keep it missing, so
   * starting from the empty document every category-and-slug GET answers 404.
   * The key k is the parsed id that update and delete look for.
   */
  lemma SlugLookupNeverFinds(ps: seq<Project>, nextId: int, data: ProjectFields, k: Parsed, patch: ProjectFields, categoria: string, slug: string)
    requires NoSlugs(ps)
    ensures NoSlugs(ps + [NewRecord(nextId, |ps|, data)])
    ensures IndexOfId(ps, k).Some? ==> NoSlugs(ps[IndexOfId(ps, k).value := Merge(ps[IndexOfId(ps, k).value], patch)])
    ensures NoSlugs(WithoutId(ps, k))
    ensures GetByCategoryAndSlug(ps, categoria, slug) == None
    ensures PC.GetByCategoryAndSlug(categoria, slug, (c, s) => Ok(GetByCategoryAndSlug(ps, c, s))) == Reject(404, PC.MsgNotFound)
  {
    var qs := ps + [NewRecord(nextId, |ps|, data)];
    forall j | 0 <= j < |qs| ensures qs[j].slug == Undefined {
      if j < |ps| {
        assert qs[j] == ps[j];
      }
    }
    MergeKeepsNoSlugs(ps, IndexOfId(ps, k), patch);
    FilterKeepsNoSlugs(ps, k);
    assert GetByCategoryAndSlug(ps, categoria, slug) == None by {
      forall j | 0 <= j < |ps| ensures !HasCategoryAndSlug(ps[j], categoria, slug) {
        assert ps[j].slug == Undefined;
      }
    }
  }

  /** Merging a patch into one entry keeps every slug missing. */
  lemma MergeKeepsNoSlugs(ps: seq<Project>, i: Option<nat>, patch: ProjectFields)
    requires NoSlugs(ps) && (i.Some? ==> i.value < |ps|)
    ensures i.Some? ==> NoSlugs(ps[i.value := Merge(ps[i.value], patch)])
  {
    if i.Some? {
      var qs := ps[i.value := Merge(ps[i.value], patch)];
      forall j | 0 <= j < |qs| ensures qs[j].slug == Undefined {
        if j == i.value {
          assert Merge(ps[j], patch).slug == ps[j].slug;
        }
      }
    }
  }

  /** Deleting by id keeps every slug missing. */
  lemma FilterKeepsNoSlugs(ps: seq<Project>, k: Parsed)
    requires NoSlugs(ps)
    ensures NoSlugs(WithoutId(ps, k))
  {
    var qs := WithoutId(ps, k);
    forall j | 0 <= j < |qs| ensures qs[j].slug == Undefined {
      assert qs[j] in multiset(qs);
    }
  }

  /** Ids of an increasing list appear once each. */
  lemma {:induction false} IncreasingOnce(ps: seq<Project>)
    requires IncreasingIds(ps)
    ensures forall x :: multiset(ps)[x] <= 1
    decreases |ps|
  {
    if ps != [] {
      IncreasingOnce(ps[1..]);
      assert ps == [ps[0]] + ps[1..];
      assert ps[0] !in ps[1..];
    }
  }

  /** Two equal entries at two positions count twice. */
  lemma TwiceCounted(a: seq<Project>, i: int, j: int)
    requires 0 <= i < j < |a|
    ensures a[i] == a[j] ==> multiset(a)[a[i]] >= 2
  {
    assert a == a[..j] + a[j..];
    assert a[i] in a[..j] && a[j] in a[j..];
  }

  /** Projects drawn at most once each from a list with ascending ids have distinct ids. */
  lemma DistinctFromIncreasing(ps: seq<Project>, other: seq<Project>)
    requires IncreasingIds(ps)
    requires forall p {:trigger multiset(other)[p]} :: multiset(other)[p] <= multiset(ps)[p]
    ensures DistinctIds(other)
  {
    IncreasingOnce(ps);
    forall i, j | 0 <= i < j < |other| ensures other[i].id != other[j].id {
      var x, y := other[i], other[j];
      assert x in multiset(other) && y in multiset(other);
      var k :| 0 <= k < |ps| && ps[k] == x;
      var l :| 0 <= l < |ps| && ps[l] == y;
      TwiceCounted(other, i, j);
    }
  }

  /**
   * Under the document invariant and with numeric ordens, the list getAll
   * answers is the only arrangement of the selected projects in (orden, id)
   * order: a sort other than the model's insertion sort would answer the same.
   */
  lemma GetAllIsTheSortedSelection(ps: seq<Project>, nextId: int, categoria: Field<string>, other: seq<Project>)
    requires DocumentInvariant(ps, nextId) && AllOrdenNumeric(ps)
    requires forall p {:trigger multiset(other)[p]} :: multiset(other)[p] == if Selected(p, categoria) then multiset(ps)[p] else 0
    requires SortedByOrdenThenId(other)
    ensures other == GetAll(ps, categoria)
  {
    var r := GetAll(ps, categoria);
    assert multiset(other) == multiset(r);
    DistinctFromIncreasing(ps, other);
    SortedArrangementUnique(other, r);
  }

  /**
   * POST /api/projects on the store, then GET of the id it answered: the GET
   * finds the record the POST returned, and the store stays valid.
   */
  method PostThenGet(store: ProjectStore, body: ProjectFields) returns (posted: Response<Project>, fetched: Response<Project>)
    requires store.Valid()
    requires !PC.MissingRequired(body) && PC.KnownCategory(body.categoria)
    modifies store
    ensures store.Valid()
    ensures posted.status == 201 && posted.data.Some? && posted.data.value.id == old(store.nextId)
    ensures fetched.status == 200 && fetched.data == posted.data
  {
    var n, c := store.nextId, |store.projects|;
    ghost var ps := store.projects;
    var p := store.Create(PC.CreateData(body));
    posted := PC.Create(body, d => Ok(NewRecord(n, c, d)));
    var qs := store.projects;
    fetched := PC.GetById(IntString(p.id), i => Ok(GetById(qs, i)));
    CreateThenGetById(ps, n, body);
  }

  /** DELETE /api/projects/:id on the store, then GET of the same id: the GET answers 404. */
  method DeleteThenGet(store: ProjectStore, id: string) returns (deleted: Response<Project>, fetched: Response<Project>)
    modifies store
    ensures deleted.status in {200, 404}
    ensures deleted.status == 200 <==> exists j :: 0 <= j < |old(store.projects)| && HasId(old(store.projects)[j], ParseInt(id))
    ensures deleted.status == 404 ==> store.projects == old(store.projects)
    ensures old(store.Valid()) ==> store.Valid()
    ensures fetched == Reject(404, PC.MsgNotFound)
  {
    ghost var ps := store.projects;
    var removed := store.Delete(id);
    deleted := PC.Delete(id, i => Ok(removed));
    var qs := store.projects;
    fetched := PC.GetById(id, i => Ok(GetById(qs, i)));
    DeleteThenGetById(ps, id);
  }
}
