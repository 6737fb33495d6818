/**
 * The project store: one document `{projects, nextId}` held in memory, the
 * queries that read it (filter and sort, lookups by id and by category and
 * slug) and the operations that change it (create, update, delete).
 */
module ProjectModel {
  import opened Js

  /**
   * A stored project. Every property but `id` may be missing, null or set,
   * as in the JSON document; `slug` is the one property the store never
   * writes but keeps.
   */
  datatype Project = Project(
    id: int,
    titulo: Field<string>,
    descripcion: Field<string>,
    categoria: Field<string>,
    slug: Field<string>,
    tecnologias: Field<seq<string>>,
    githubUrl: Field<string>,
    demoUrl: Field<string>,
    orden: Field<int>,
    images: Field<seq<string>>)

  /** The eight properties a request body carries to create and to update. */
  datatype ProjectFields = ProjectFields(
    titulo: Field<string>,
    descripcion: Field<string>,
    categoria: Field<string>,
    tecnologias: Field<seq<string>>,
    githubUrl: Field<string>,
    demoUrl: Field<string>,
    orden: Field<int>,
    images: Field<seq<string>>)

  /** A body that provides none of the eight properties. */
  const NoFields := ProjectFields(Undefined, Undefined, Undefined, Undefined, Undefined, Undefined, Undefined, Undefined)

  // ---------------------------------------------------------------- lookups

  /** The first index whose project satisfies `matches`, as Array.prototype.findIndex finds it. */
  function FindIndex(ps: seq<Project>, matches: Project -> bool): (r: Option<nat>)
    ensures r.Some? ==> r.value < |ps| && matches(ps[r.value])
    ensures r.Some? ==> forall j :: 0 <= j < r.value ==> !matches(ps[j])
    ensures r.None? <==> forall j :: 0 <= j < |ps| ==> !matches(ps[j])
  {
    if ps == [] then None
    else if matches(ps[0]) then Some(0)
    else match FindIndex(ps[1..], matches)
      case None => None
      case Some(i) => Some(i + 1)
  }

  /** `p.id === parseInt(id)`: a NaN matches no project. */
  predicate HasId(p: Project, k: Parsed) {
    k == Int(p.id)
  }

  /** The index of the first project whose id is the parsed number. */
  function IndexOfId(ps: seq<Project>, k: Parsed): Option<nat> {
    FindIndex(ps, p => HasId(p, k))
  }

  /** The first project whose id is the number k; NaN equals no id. */
  function FirstWithId(ps: seq<Project>, k: Parsed): (r: Option<Project>)
    ensures r.Some? ==> exists i :: 0 <= i < |ps| && ps[i] == r.value && HasId(ps[i], k)
                                   && forall j :: 0 <= j < i ==> !HasId(ps[j], k)
    ensures r.None? <==> forall j :: 0 <= j < |ps| ==> !HasId(ps[j], k)
    ensures k == NaN ==> r == None
  {
    match IndexOfId(ps, k)
    case None => None
    case Some(i) => Some(ps[i])
  }

  /** getById: the first project whose id is parseInt(id), or null. */
  function GetById(ps: seq<Project>, id: string): (r: Option<Project>)
    ensures r.Some? ==> exists i :: 0 <= i < |ps| && ps[i] == r.value && HasId(ps[i], ParseInt(id))
                                   && forall j :: 0 <= j < i ==> !HasId(ps[j], ParseInt(id))
    ensures r.None? <==> forall j :: 0 <= j < |ps| ==> !HasId(ps[j], ParseInt(id))
    ensures ParseInt(id) == NaN ==> r == None
  {
    FirstWithId(ps, ParseInt(id))
  }

  /** Both the category and the slug are set and equal the requested strings. */
  predicate HasCategoryAndSlug(p: Project, categoria: string, slug: string) {
    p.categoria == Val(categoria) && p.slug == Val(slug)
  }

  /** getByCategoryAndSlug: the first project with this category and this slug, or null. */
  function GetByCategoryAndSlug(ps: seq<Project>, categoria: string, slug: string): (r: Option<Project>)
    ensures r.Some? ==> exists i :: 0 <= i < |ps| && ps[i] == r.value && HasCategoryAndSlug(ps[i], categoria, slug)
                                   && forall j :: 0 <= j < i ==> !HasCategoryAndSlug(ps[j], categoria, slug)
    ensures r.None? <==> forall j :: 0 <= j < |ps| ==> !HasCategoryAndSlug(ps[j], categoria, slug)
  {
    match FindIndex(ps, p => HasCategoryAndSlug(p, categoria, slug))
    case None => None
    case Some(i) => Some(ps[i])
  }

  // ------------------------------------------------------- filter and sort

  /** The projects that `keep` accepts, in their order, as Array.prototype.filter keeps them. */
  function Filter(ps: seq<Project>, keep: Project -> bool): (r: seq<Project>)
    ensures forall p {:trigger multiset(r)[p]} :: multiset(r)[p] == if keep(p) then multiset(ps)[p] else 0
    ensures |r| <= |ps|
    ensures |r| == |ps| <==> forall j :: 0 <= j < |ps| ==> keep(ps[j])
  {
    if ps == [] then []
    else
      assert ps == [ps[0]] + ps[1..];
      if keep(ps[0]) then [ps[0]] + Filter(ps[1..], keep) else Filter(ps[1..], keep)
  }

  /** A filter that accepts every project returns the list unchanged. */
  lemma {:induction false} FilterKeepsAll(ps: seq<Project>, keep: Project -> bool)
    ensures (forall j :: 0 <= j < |ps| ==> keep(ps[j])) ==> Filter(ps, keep) == ps
    decreases |ps|
  {
    if ps != [] {
      FilterKeepsAll(ps[1..], keep);
      assert ps == [ps[0]] + ps[1..];
    }
  }

  /**
   * Filtering a concatenation filters each part and keeps the parts in
   * order: the kept projects stay in the order of the input.
   */
  lemma {:induction false} FilterAppend(a: seq<Project>, b: seq<Project>, keep: Project -> bool)
    ensures Filter(a + b, keep) == Filter(a, keep) + Filter(b, keep)
    decreases |a|
  {
    if a == [] {
      assert a + b == b;
    } else {
      assert (a + b)[1..] == a[1..] + b;
      FilterAppend(a[1..], b, keep);
    }
  }

  /** A project getAll lists for the category query: every one when the query is falsy. */
  predicate Selected(p: Project, categoria: Field<string>) {
    !TruthyString(categoria) || p.categoria == categoria
  }

  /**
   * The comparator getAll passes to Array.prototype.sort: by `orden` when the
   * two differ, by `id` otherwise. A subtraction involving a missing `orden`
   * is NaN, which sort reads as 0; a null `orden` subtracts as 0.
   */
  function Compare(a: Project, b: Project): (r: int)
    ensures a.orden == b.orden ==> r == a.id - b.id
    ensures a.orden != b.orden && (a.orden.Undefined? || b.orden.Undefined?) ==> r == 0
    ensures a.orden != b.orden && a.orden.Val? && b.orden.Val? ==> (r < 0 <==> a.orden.value < b.orden.value)
  {
    if a.orden != b.orden then
      if a.orden.Undefined? || b.orden.Undefined? then 0
      else OrdenNumber(a.orden) - OrdenNumber(b.orden)
    else a.id - b.id
  }

  /** The number a set or null `orden` stands for in a subtraction. */
  function OrdenNumber(o: Field<int>): int {
    if o.Val? then o.value else 0
  }

  /** `a` may come before `b`: both have a numeric orden, and (orden, id) of `a` is not larger. */
  predicate OrdenThenId(a: Project, b: Project) {
    && a.orden.Val? && b.orden.Val?
    && (a.orden.value < b.orden.value || (a.orden.value == b.orden.value && a.id <= b.id))
  }

  /** Ascending by orden, ties broken by ascending id. */
  predicate SortedByOrdenThenId(s: seq<Project>) {
    forall i, j :: 0 <= i < j < |s| ==> OrdenThenId(s[i], s[j])
  }

  predicate AllOrdenNumeric(s: seq<Project>) {
    forall i :: 0 <= i < |s| ==> s[i].orden.Val?
  }

  /** For numeric ordens the comparator is the (orden, id) order. */
  lemma CompareIsOrdenThenId(a: Project, b: Project)
    requires a.orden.Val? && b.orden.Val?
    ensures Compare(a, b) <= 0 <==> OrdenThenId(a, b)
    ensures Compare(a, b) > 0 ==> OrdenThenId(b, a)
    ensures Compare(a, b) == -Compare(b, a)
  {
  }

  /** Insert `x` in front of the first element it does not compare above. */
  function Insert(x: Project, s: seq<Project>): (r: seq<Project>)
    ensures multiset(r) == multiset(s) + multiset{x}
  {
    if s == [] then [x]
    else if Compare(x, s[0]) <= 0 then [x] + s
    else assert s == [s[0]] + s[1..]; [s[0]] + Insert(x, s[1..])
  }

  /**
   * The model of Array.prototype.sort with the comparator: a stable insertion
   * sort. Each element is inserted before the elements that follow it in the
   * input and compare equal, so equal elements keep their order.
   */
  function SortProjects(ps: seq<Project>): (r: seq<Project>)
    ensures multiset(r) == multiset(ps)
  {
    if ps == [] then []
    else assert ps == [ps[0]] + ps[1..]; Insert(ps[0], SortProjects(ps[1..]))
  }

  /** Inserting a project with a numeric orden into a sorted list keeps it sorted. */
  lemma {:induction false} InsertSorted(x: Project, s: seq<Project>)
    requires x.orden.Val? && AllOrdenNumeric(s) && SortedByOrdenThenId(s)
    ensures AllOrdenNumeric(Insert(x, s)) && SortedByOrdenThenId(Insert(x, s))
    decreases |s|
  {
    if s == [] {
      assert Insert(x, s) == [x];
    } else {
      CompareIsOrdenThenId(x, s[0]);
      if Compare(x, s[0]) <= 0 {
        forall k | 0 <= k < |s| ensures OrdenThenId(x, s[k]) {
          if k > 0 {
            assert OrdenThenId(s[0], s[k]);
          }
        }
        ConsSorted(x, s);
      } else {
        var t := Insert(x, s[1..]);
        TailKeeps(s);
        InsertSorted(x, s[1..]);
        forall k | 0 <= k < |t| ensures OrdenThenId(s[0], t[k]) {
          assert t[k] in multiset(t);
          if t[k] != x {
            var i :| 0 <= i < |s[1..]| && s[1..][i] == t[k];
            assert t[k] == s[i + 1];
          }
        }
        ConsSorted(s[0], t);
      }
    }
  }

  /** A project that may come before every element of a sorted list may be put at its front. */
  lemma ConsSorted(h: Project, t: seq<Project>)
    requires h.orden.Val? && AllOrdenNumeric(t) && SortedByOrdenThenId(t)
    requires forall k :: 0 <= k < |t| ==> OrdenThenId(h, t[k])
    ensures AllOrdenNumeric([h] + t) && SortedByOrdenThenId([h] + t)
  {
    var r := [h] + t;
    forall i, j | 0 <= i < j < |r| ensures OrdenThenId(r[i], r[j]) {
      assert r[j] == t[j - 1];
      if i > 0 {
        assert r[i] == t[i - 1];
      }
    }
    forall i | 0 <= i < |r| ensures r[i].orden.Val? {
      if i > 0 {
        assert r[i] == t[i - 1];
      }
    }
  }

  /** The tail of a list keeps its sortedness, its numeric ordens and its distinct ids. */
  lemma TailKeeps(s: seq<Project>)
    requires s != []
    ensures SortedByOrdenThenId(s) ==> SortedByOrdenThenId(s[1..])
    ensures AllOrdenNumeric(s) ==> AllOrdenNumeric(s[1..])
    ensures DistinctIds(s) ==> DistinctIds(s[1..])
  {
    var t := s[1..];
    forall i | 0 <= i < |t| ensures t[i] == s[i + 1] {
    }
  }

  /** With numeric ordens the sort puts the projects in (orden, id) order. */
  lemma {:induction false} SortProjectsSorted(ps: seq<Project>)
    requires AllOrdenNumeric(ps)
    ensures SortedByOrdenThenId(SortProjects(ps))
    decreases |ps|
  {
    if ps != [] {
      SortProjectsSorted(ps[1..]);
      var t := SortProjects(ps[1..]);
      forall k | 0 <= k < |t| ensures t[k].orden.Val? {
        assert t[k] in multiset(t);
      }
      InsertSorted(ps[0], t);
    }
  }

  predicate DistinctIds(s: seq<Project>) {
    forall i, j :: 0 <= i < j < |s| ==> s[i].id != s[j].id
  }

  /**
   * With distinct ids there is one (orden, id)-sorted arrangement of a
   * collection of projects, so any correct sort yields what SortProjects yields.
   */
  lemma {:induction false} SortedArrangementUnique(a: seq<Project>, b: seq<Project>)
    requires multiset(a) == multiset(b)
    requires SortedByOrdenThenId(a) && SortedByOrdenThenId(b) && DistinctIds(a)
    ensures a == b
    decreases |a|
  {
    if a != [] {
      SortedHeadsAgree(a, b);
      SameTails(a, b);
      SortedArrangementUnique(a[1..], b[1..]);
      assert a == [a[0]] + a[1..] && b == [b[0]] + b[1..];
    }
  }

  /** Two sorted arrangements start with the same project: the least one. */
  lemma SortedHeadsAgree(a: seq<Project>, b: seq<Project>)
    requires a != [] && multiset(a) == multiset(b)
    requires SortedByOrdenThenId(a) && SortedByOrdenThenId(b) && DistinctIds(a)
    ensures b != [] && a[0] == b[0]
  {
    assert |b| == |multiset(b)| == |a|;
    assert b[0] in multiset(a) && a[0] in multiset(b);
    var k :| 0 <= k < |a| && a[k] == b[0];
    var m :| 0 <= m < |b| && b[m] == a[0];
    var x, y, ak, bm := a[0], b[0], a[k], b[m];
    assert x == ak || OrdenThenId(x, ak);
    assert y == bm || OrdenThenId(y, bm);
  }

  /** Taking the common first project off two arrangements leaves arrangements of one collection. */
  lemma SameTails(a: seq<Project>, b: seq<Project>)
    requires a != [] && b != [] && a[0] == b[0] && multiset(a) == multiset(b)
    requires SortedByOrdenThenId(a) && SortedByOrdenThenId(b) && DistinctIds(a)
    ensures multiset(a[1..]) == multiset(b[1..])
    ensures SortedByOrdenThenId(a[1..]) && SortedByOrdenThenId(b[1..]) && DistinctIds(a[1..])
  {
    TailKeeps(a);
    TailKeeps(b);
    TailMultiset(a);
    TailMultiset(b);
  }

  /** The tail of a list holds its projects but one occurrence of the first. */
  lemma TailMultiset(s: seq<Project>)
    requires s != []
    ensures multiset(s[1..]) == multiset(s) - multiset{s[0]}
  {
    assert s == [s[0]] + s[1..];
  }

  /**
   * getAll: the stored projects of the category (all of them when the query
   * is falsy), each as often as it is stored, and in (orden, id) order when
   * every orden is a number.
   */
  function GetAll(ps: seq<Project>, categoria: Field<string>): (r: seq<Project>)
    ensures forall p {:trigger multiset(r)[p]} :: multiset(r)[p] == if Selected(p, categoria) then multiset(ps)[p] else 0
    ensures AllOrdenNumeric(ps) ==> SortedByOrdenThenId(r)
  {
    var listed := if TruthyString(categoria) then Filter(ps, (p: Project) => p.categoria == categoria) else ps;
    assert AllOrdenNumeric(ps) ==> AllOrdenNumeric(listed) by {
      if AllOrdenNumeric(ps) {
        forall k | 0 <= k < |listed| ensures listed[k].orden.Val? {
          assert listed[k] in multiset(listed);
        }
      }
    }
    if AllOrdenNumeric(listed) then SortProjectsSorted(listed); SortProjects(listed)
    else SortProjects(listed)
  }

  // ----------------------------------------------------- create and update

  /**
   * The record create stores: the next id, the given title, description and
   * category, and defaults for falsy optional properties; it never sets a slug.
   */
  function NewRecord(id: int, count: nat, data: ProjectFields): (p: Project)
    ensures p.id == id && p.slug == Undefined
    ensures p.titulo == data.titulo && p.descripcion == data.descripcion && p.categoria == data.categoria
    ensures p.tecnologias.Val? && p.images.Val? && TruthyNumber(p.orden)
    ensures !p.githubUrl.Undefined? && !p.demoUrl.Undefined?
    ensures TruthyArray(data.tecnologias) ==> p.tecnologias == data.tecnologias
    ensures !TruthyArray(data.tecnologias) ==> p.tecnologias == Val([])
    ensures TruthyArray(data.images) ==> p.images == data.images
    ensures !TruthyArray(data.images) ==> p.images == Val([])
    ensures TruthyString(data.githubUrl) ==> p.githubUrl == data.githubUrl
    ensures !TruthyString(data.githubUrl) ==> p.githubUrl == Null
    ensures TruthyString(data.demoUrl) ==> p.demoUrl == data.demoUrl
    ensures !TruthyString(data.demoUrl) ==> p.demoUrl == Null
    ensures TruthyNumber(data.orden) ==> p.orden == data.orden
    ensures !TruthyNumber(data.orden) ==> p.orden == Val(count + 1)
  {
    Project(
      id,
      data.titulo,
      data.descripcion,
      data.categoria,
      Undefined,
      if TruthyArray(data.tecnologias) then data.tecnologias else Val([]),
      if TruthyString(data.githubUrl) then data.githubUrl else Null,
      if TruthyString(data.demoUrl) then data.demoUrl else Null,
      if TruthyNumber(data.orden) then data.orden else Val(count + 1),
      if TruthyArray(data.images) then data.images else Val([]))
  }

  /** The incoming value unless it is undefined; null and falsy values do overwrite. */
  function Pick<T>(incoming: Field<T>, current: Field<T>): Field<T> {
    if incoming.Undefined? then current else incoming
  }

  /**
   * The record update stores: each of the eight properties takes the
   * incoming value exactly when that value is not undefined; id, slug and
   * everything else stay.
   */
  function Merge(p: Project, patch: ProjectFields): (r: Project)
    ensures r.id == p.id && r.slug == p.slug
    ensures patch.titulo != Undefined ==> r.titulo == patch.titulo
    ensures patch.titulo == Undefined ==> r.titulo == p.titulo
    ensures patch.descripcion != Undefined ==> r.descripcion == patch.descripcion
    ensures patch.descripcion == Undefined ==> r.descripcion == p.descripcion
    ensures patch.categoria != Undefined ==> r.categoria == patch.categoria
    ensures patch.categoria == Undefined ==> r.categoria == p.categoria
    ensures patch.tecnologias != Undefined ==> r.tecnologias == patch.tecnologias
    ensures patch.tecnologias == Undefined ==> r.tecnologias == p.tecnologias
    ensures patch.githubUrl != Undefined ==> r.githubUrl == patch.githubUrl
    ensures patch.githubUrl == Undefined ==> r.githubUrl == p.githubUrl
    ensures patch.demoUrl != Undefined ==> r.demoUrl == patch.demoUrl
    ensures patch.demoUrl == Undefined ==> r.demoUrl == p.demoUrl
    ensures patch.orden != Undefined ==> r.orden == patch.orden
    ensures patch.orden == Undefined ==> r.orden == p.orden
    ensures patch.images != Undefined ==> r.images == patch.images
    ensures patch.images == Undefined ==> r.images == p.images
    ensures patch == NoFields ==> r == p
  {
    p.(
      titulo := Pick(patch.titulo, p.titulo),
      descripcion := Pick(patch.descripcion, p.descripcion),
      categoria := Pick(patch.categoria, p.categoria),
      tecnologias := Pick(patch.tecnologias, p.tecnologias),
      githubUrl := Pick(patch.githubUrl, p.githubUrl),
      demoUrl := Pick(patch.demoUrl, p.demoUrl),
      orden := Pick(patch.orden, p.orden),
      images := Pick(patch.images, p.images))
  }

  /** delete's filter: every project whose id is not the parsed number. */
  function WithoutId(ps: seq<Project>, k: Parsed): (r: seq<Project>)
    ensures forall p {:trigger multiset(r)[p]} :: multiset(r)[p] == if HasId(p, k) then 0 else multiset(ps)[p]
    ensures |r| < |ps| <==> exists j :: 0 <= j < |ps| && HasId(ps[j], k)
    ensures (forall j :: 0 <= j < |ps| ==> !HasId(ps[j], k)) ==> r == ps
  {
    FilterKeepsAll(ps, p => !HasId(p, k));
    Filter(ps, p => !HasId(p, k))
  }

  /** Deleting by id keeps the document invariant and only drops projects. */
  lemma WithoutIdKeeps(ps: seq<Project>, k: Parsed, nextId: int)
    ensures forall i :: 0 <= i < |WithoutId(ps, k)| ==> WithoutId(ps, k)[i] in ps
    ensures DocumentInvariant(ps, nextId) ==> DocumentInvariant(WithoutId(ps, k), nextId)
  {
    var r := WithoutId(ps, k);
    forall i | 0 <= i < |r| ensures r[i] in ps {
      assert r[i] in multiset(r);
    }
    if IncreasingIds(ps) {
      FilterKeepsIncreasing(ps, p => !HasId(p, k));
    }
  }

  // ---------------------------------------------------- the document state

  predicate IncreasingIds(ps: seq<Project>) {
    forall i, j :: 0 <= i < j < |ps| ==> ps[i].id < ps[j].id
  }

  predicate IdsBelow(ps: seq<Project>, bound: int) {
    forall i :: 0 <= i < |ps| ==> ps[i].id < bound
  }

  /**
   * What holds of every document the store produces from the initial one:
   * ids ascend along the list (so they are unique) and lie below nextId.
   */
  predicate DocumentInvariant(ps: seq<Project>, nextId: int) {
    IncreasingIds(ps) && IdsBelow(ps, nextId)
  }

  /** Filtering keeps ids ascending. */
  lemma {:induction false} FilterKeepsIncreasing(ps: seq<Project>, keep: Project -> bool)
    requires IncreasingIds(ps)
    ensures IncreasingIds(Filter(ps, keep))
    decreases |ps|
  {
    if ps != [] {
      var tail := ps[1..];
      assert IncreasingIds(tail) by {
        forall i | 0 <= i < |tail| ensures tail[i] == ps[i + 1] {
        }
      }
      var t := Filter(tail, keep);
      FilterKeepsIncreasing(tail, keep);
      forall k | 0 <= k < |t| ensures ps[0].id < t[k].id {
        assert t[k] in multiset(t);
        var i :| 0 <= i < |tail| && tail[i] == t[k];
        assert t[k] == ps[i + 1];
      }
      if keep(ps[0]) {
        ConsIncreasing(ps[0], t);
      }
    }
  }

  /** A project whose id is below every id of an ascending list may be put at its front. */
  lemma ConsIncreasing(h: Project, t: seq<Project>)
    requires IncreasingIds(t) && forall k :: 0 <= k < |t| ==> h.id < t[k].id
    ensures IncreasingIds([h] + t)
  {
    var r := [h] + t;
    forall i, j | 0 <= i < j < |r| ensures r[i].id < r[j].id {
      assert r[j] == t[j - 1];
      if i > 0 {
        assert r[i] == t[i - 1];
      }
    }
  }

  /** The document `{projects, nextId}` that every store operation reads and writes. */
  class ProjectStore {
    var projects: seq<Project>
    var nextId: int
    /** Every id the store has handed out or found, deleted ones included. */
    ghost var issued: set<int>

    ghost predicate Valid()
      reads this
    {
      && DocumentInvariant(projects, nextId)
      && (forall i :: 0 <= i < |projects| ==> projects[i].id in issued)
      && (forall id :: id in issued ==> id < nextId)
    }

    /** The document readData creates when there is no file yet. */
    constructor ()
      ensures projects == [] && nextId == 1 && issued == {}
      ensures Valid()
    {
      projects := [];
      nextId := 1;
      issued := {};
    }

    /** A document read from an existing file. */
    constructor Load(projects: seq<Project>, nextId: int)
      ensures this.projects == projects && this.nextId == nextId
      ensures DocumentInvariant(projects, nextId) ==> Valid()
    {
      this.projects := projects;
      this.nextId := nextId;
      issued := set i | 0 <= i < |projects| :: projects[i].id;
    }

    /**
     * create: appends the new record with id nextId, then increments nextId
     * by one; the id was never handed out before.
     */
    method Create(data: ProjectFields) returns (p: Project)
      modifies this
      ensures p == NewRecord(old(nextId), |old(projects)|, data)
      ensures projects == old(projects) + [p] && nextId == old(nextId) + 1
      ensures issued == old(issued) + {p.id}
      ensures old(Valid()) ==> Valid() && p.id !in old(issued)
    {
      p := NewRecord(nextId, |projects|, data);
      projects := projects + [p];
      nextId := nextId + 1;
      issued := issued + {p.id};
    }

    /**
     * update: null and no change when no project has the id; otherwise the
     * first project with the id is replaced by its merge with the patch.
     */
    method Update(id: string, patch: ProjectFields) returns (r: Option<Project>)
      modifies this
      ensures nextId == old(nextId) && issued == old(issued)
      ensures IndexOfId(old(projects), ParseInt(id)).None? ==> r == None && projects == old(projects)
      ensures IndexOfId(old(projects), ParseInt(id)).Some? ==>
        var i := IndexOfId(old(projects), ParseInt(id)).value;
        r == Some(Merge(old(projects)[i], patch)) && projects == old(projects)[i := r.value]
      ensures old(Valid()) ==> Valid()
    {
      var index := IndexOfId(projects, ParseInt(id));
      if index.None? {
        return None;
      }
      var updated := Merge(projects[index.value], patch);
      projects := projects[index.value := updated];
      r := Some(updated);
    }

    /**
     * delete: drops every project with the id and reports whether the list
     * became shorter; nextId stays.
     */
    method Delete(id: string) returns (removed: bool)
      modifies this
      ensures projects == WithoutId(old(projects), ParseInt(id))
      ensures removed <==> exists i :: 0 <= i < |old(projects)| && HasId(old(projects)[i], ParseInt(id))
      ensures !removed ==> projects == old(projects)
      ensures nextId == old(nextId) && issued == old(issued)
      ensures old(Valid()) ==> Valid()
    {
      var initialLength := |projects|;
      var k := ParseInt(id);
      WithoutIdKeeps(projects, k, nextId);
      projects := WithoutId(projects, k);
      removed := |projects| != initialLength;
    }
  }
}
