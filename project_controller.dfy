/**
 * The project request handlers: each one reads the request, checks required
 * properties and the category, calls one store operation and maps what that
 * call produced to a status and an envelope. A store operation is a function
 * parameter, so the contracts also say what each handler hands to the store.
 */
module ProjectController {
  import opened Js
  import opened Envelope
  import opened ProjectModel

  /** The categories create and update accept. */
  const Categories: seq<string> := ["frontend", "uxui", "framework"]

  const MsgMissingFields := "Faltan campos requeridos: titulo, descripcion, categoria"
  const MsgBadCategory := "Categoría inválida. Debe ser: frontend, uxui o framework"
  const MsgNotFound := "Proyecto no encontrado"
  const MsgCreated := "Proyecto creado exitosamente"
  const MsgUpdated := "Proyecto actualizado exitosamente"
  const MsgDeleted := "Proyecto eliminado exitosamente"

  /** A thrown store error answers 500 with the error's own message. */
  function ServerError<T>(message: string): Response<T> {
    Reject(500, message)
  }

  /** GET /api/projects: the list with its length as `count`. */
  function GetAll(categoria: Field<string>, list: Field<string> -> Outcome<seq<Project>>): (r: Response<seq<Project>>)
    ensures WellFormed(r)
    ensures r.success <==> list(categoria).Ok?
    ensures r.success ==> r.status == 200 && r.data == Some(list(categoria).value) && r.count == Some(|r.data.value|)
    ensures !r.success ==> r == ServerError(list(categoria).message)
  {
    match list(categoria)
    case Ok(projects) => Response(200, true, None, Some(projects), Some(|projects|))
    case Threw(e) => ServerError(e)
  }

  /** The answer to a lookup: 404 when the store found nothing, 200 with the project otherwise. */
  function Found(found: Outcome<Option<Project>>, message: Option<string>): (r: Response<Project>)
    ensures WellFormed(r)
    ensures r.status == 404 <==> found == Ok(None)
    ensures r.status == 404 ==> r == Reject(404, MsgNotFound)
    ensures r.status == 200 <==> found.Ok? && found.value.Some?
    ensures r.status == 200 ==> r.data == Some(found.value.value) && r.message == message
    ensures found.Threw? ==> r == ServerError(found.message)
  {
    match found
    case Threw(e) => ServerError(e)
    case Ok(None) => Reject(404, MsgNotFound)
    case Ok(Some(p)) => Response(200, true, message, Some(p), None)
  }

  /** GET /api/projects/:id: the id is passed to the store as the route gave it. */
  function GetById(id: string, fetch: string -> Outcome<Option<Project>>): (r: Response<Project>)
    ensures WellFormed(r)
    ensures r.status == 404 <==> fetch(id) == Ok(None)
    ensures r.success <==> fetch(id).Ok? && fetch(id).value.Some?
    ensures r.success ==> r.status == 200 && r.data == Some(fetch(id).value.value)
    ensures fetch(id).Threw? ==> r == ServerError(fetch(id).message)
  {
    Found(fetch(id), None)
  }

  /** GET /api/projects/:categoria/:slug. */
  function GetByCategoryAndSlug(categoria: string, slug: string, fetch: (string, string) -> Outcome<Option<Project>>): (r: Response<Project>)
    ensures WellFormed(r)
    ensures r.status == 404 <==> fetch(categoria, slug) == Ok(None)
    ensures r.success <==> fetch(categoria, slug).Ok? && fetch(categoria, slug).value.Some?
    ensures r.success ==> r.status == 200 && r.data == Some(fetch(categoria, slug).value.value)
    ensures fetch(categoria, slug).Threw? ==> r == ServerError(fetch(categoria, slug).message)
  {
    Found(fetch(categoria, slug), None)
  }

  /** A falsy title, description or category. */
  predicate MissingRequired(body: ProjectFields) {
    !TruthyString(body.titulo) || !TruthyString(body.descripcion) || !TruthyString(body.categoria)
  }

  /** The category is one of the three the API knows. */
  predicate KnownCategory(categoria: Field<string>) {
    categoria.Val? && categoria.value in Categories
  }

  /**
   * What create hands to the store: the body's properties, with `[]` for
   * falsy technologies and images and 0 for a falsy orden.
   */
  function CreateData(body: ProjectFields): (d: ProjectFields)
    ensures d.titulo == body.titulo && d.descripcion == body.descripcion && d.categoria == body.categoria
    ensures d.githubUrl == body.githubUrl && d.demoUrl == body.demoUrl
    ensures d.tecnologias == (if TruthyArray(body.tecnologias) then body.tecnologias else Val([]))
    ensures d.images == (if TruthyArray(body.images) then body.images else Val([]))
    ensures d.orden == (if TruthyNumber(body.orden) then body.orden else Val(0))
    ensures TruthyArray(d.tecnologias) && TruthyArray(d.images) && d.orden.Val?
  {
    body.(
      tecnologias := if TruthyArray(body.tecnologias) then body.tecnologias else Val([]),
      orden := if TruthyNumber(body.orden) then body.orden else Val(0),
      images := if TruthyArray(body.images) then body.images else Val([]))
  }

  /**
   * POST /api/projects: 400 for missing required properties (checked first),
   * 400 for an unknown category, otherwise 201 with the stored record, or
   * 500 when the store throws.
   */
  function Create(body: ProjectFields, create: ProjectFields -> Outcome<Project>): (r: Response<Project>)
    ensures WellFormed(r)
    ensures r.status == 400 <==> MissingRequired(body) || !KnownCategory(body.categoria)
    ensures MissingRequired(body) ==> r == Reject(400, MsgMissingFields)
    ensures !MissingRequired(body) && !KnownCategory(body.categoria) ==> r == Reject(400, MsgBadCategory)
    ensures r.status == 201 <==> r.status != 400 && create(CreateData(body)).Ok?
    ensures r.status == 201 ==> r.data == Some(create(CreateData(body)).value) && r.message == Some(MsgCreated)
    ensures r.status == 500 ==> r == ServerError(create(CreateData(body)).message)
    ensures !MissingRequired(body) && KnownCategory(body.categoria) && create(CreateData(body)).Threw?
            ==> r == ServerError(create(CreateData(body)).message)
  {
    if MissingRequired(body) then Reject(400, MsgMissingFields)
    else if !KnownCategory(body.categoria) then Reject(400, MsgBadCategory)
    else match create(CreateData(body))
      case Ok(p) => Response(201, true, Some(MsgCreated), Some(p), None)
      case Threw(e) => ServerError(e)
  }

  /**
   * PUT /api/projects/:id: the category is checked only when it is truthy;
   * the eight properties go to the store unchanged, a falsy category included.
   */
  function Update(id: string, body: ProjectFields, update: (string, ProjectFields) -> Outcome<Option<Project>>): (r: Response<Project>)
    ensures WellFormed(r)
    ensures r.status == 400 <==> TruthyString(body.categoria) && !KnownCategory(body.categoria)
    ensures r.status == 400 ==> r == Reject(400, MsgBadCategory)
    ensures r.status != 400 ==> (r.status == 404 <==> update(id, body) == Ok(None))
    ensures r.status != 400 ==> (r.success <==> update(id, body).Ok? && update(id, body).value.Some?)
    ensures r.success ==> r.status == 200 && r.data == Some(update(id, body).value.value) && r.message == Some(MsgUpdated)
    ensures r.status != 400 && update(id, body).Threw? ==> r == ServerError(update(id, body).message)
  {
    if TruthyString(body.categoria) && !KnownCategory(body.categoria) then Reject(400, MsgBadCategory)
    else Found(update(id, body), Some(MsgUpdated))
  }

  /** DELETE /api/projects/:id: 404 when the store removed nothing, 200 without data otherwise. */
  function Delete(id: string, delete: string -> Outcome<bool>): (r: Response<Project>)
    ensures WellFormed(r)
    ensures r.status == 404 <==> delete(id) == Ok(false)
    ensures r.status == 404 ==> r == Reject(404, MsgNotFound)
    ensures r.success <==> delete(id) == Ok(true)
    ensures r.success ==> r.status == 200 && r.message == Some(MsgDeleted) && r.data == None
    ensures delete(id).Threw? ==> r == ServerError(delete(id).message)
  {
    match delete(id)
    case Threw(e) => ServerError(e)
    case Ok(false) => Reject(404, MsgNotFound)
    case Ok(true) => Response(200, true, Some(MsgDeleted), None, None)
  }
}
