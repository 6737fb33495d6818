/**
 * The contact request handlers: required properties, the syntactic email
 * check, and the mapping of contact-store results to statuses. Failures
 * answer a fixed message per handler and never the error's own text.
 */
module ContactController {
  import opened Js
  import opened Envelope

  /** A stored contact message; id and creation time come from the database. */
  datatype Contact = Contact(id: int, nombre: string, email: string, mensaje: string, fechaCreacion: string)

  /** The three properties a contact form body carries. */
  datatype ContactFields = ContactFields(nombre: Field<string>, email: Field<string>, mensaje: Field<string>)

  /** The data a created contact is answered with: its id and nothing else. */
  datatype CreatedId = CreatedId(id: int)

  const MsgAllRequired := "Todos los campos son requeridos"
  const MsgBadEmail := "El formato del email no es válido"
  const MsgThanks := "¡Gracias por tu mensaje! Te contactaré pronto."
  const MsgCreateFailed := "Error al procesar tu mensaje. Intenta nuevamente."
  const MsgListFailed := "Error al obtener los contactos"
  const MsgNotFound := "Contacto no encontrado"
  const MsgGetFailed := "Error al obtener el contacto"
  const MsgDeleted := "Contacto eliminado correctamente"
  const MsgDeleteFailed := "Error al eliminar el contacto"

  // ---------------------------------------------------------- email format

  /** A character the class `[^\s@]` accepts. */
  predicate EmailChar(c: char) {
    !IsWhitespace(c) && c != '@'
  }

  /** Every character of s is accepted by `[^\s@]`. */
  predicate Plain(s: string) {
    forall i :: 0 <= i < |s| ==> EmailChar(s[i])
  }

  /**
   * The language of the regular expression `^[^\s@]+@[^\s@]+\.[^\s@]+$`: the
   * string splits into three non-empty plain runs joined by '@' and '.'.
   */
  ghost predicate MatchesEmailPattern(s: string) {
    exists i, j :: 0 < i && i + 1 < j && j + 1 < |s| && s[i] == '@' && s[j] == '.'
      && Plain(s[..i]) && Plain(s[i + 1..j]) && Plain(s[j + 1..])
  }

  /** A domain part: plain, with a '.' that is neither its first nor its last character. */
  predicate ValidDomain(d: string) {
    Plain(d) && exists j :: 0 < j < |d| - 1 && d[j] == '.'
  }

  /** The email check: a non-empty plain local part, '@', and a valid domain part. */
  predicate ValidEmail(s: string) {
    exists k :: 0 < k < |s| && s[k] == '@' && Plain(s[..k]) && ValidDomain(s[k + 1..])
  }

  /** The email check accepts exactly the strings the regular expression matches. */
  lemma ValidEmailIsPattern(s: string)
    ensures ValidEmail(s) <==> MatchesEmailPattern(s)
  {
    if ValidEmail(s) {
      var k :| 0 < k < |s| && s[k] == '@' && Plain(s[..k]) && ValidDomain(s[k + 1..]);
      var d := s[k + 1..];
      var j :| 0 < j < |d| - 1 && d[j] == '.';
      PatternFromSplit(s, k, k + 1 + j);
    }
    if MatchesEmailPattern(s) {
      var i, j :| 0 < i && i + 1 < j && j + 1 < |s| && s[i] == '@' && s[j] == '.'
        && Plain(s[..i]) && Plain(s[i + 1..j]) && Plain(s[j + 1..]);
      DomainFromSplit(s, i, j);
    }
  }

  /** A local part and a domain part with an inner dot give a match of the pattern. */
  lemma PatternFromSplit(s: string, i: int, j: int)
    requires 0 < i < |s| && s[i] == '@' && Plain(s[..i])
    requires Plain(s[i + 1..]) && i + 1 < j < |s| - 1 && s[j] == '.'
    ensures MatchesEmailPattern(s)
  {
    var d, host, top := s[i + 1..], s[i + 1..j], s[j + 1..];
    forall t | 0 <= t < |host| ensures EmailChar(host[t]) {
      assert host[t] == d[t];
    }
    forall t | 0 <= t < |top| ensures EmailChar(top[t]) {
      assert top[t] == d[j - i + t];
    }
    assert Plain(host) && Plain(top);
  }

  /** A match of the pattern has a valid domain after its '@'. */
  lemma DomainFromSplit(s: string, i: int, j: int)
    requires 0 < i && i + 1 < j && j + 1 < |s| && s[i] == '@' && s[j] == '.'
    requires Plain(s[..i]) && Plain(s[i + 1..j]) && Plain(s[j + 1..])
    ensures ValidEmail(s)
  {
    var d := s[i + 1..];
    assert Plain(d) by {
      forall t | 0 <= t < |d| ensures EmailChar(d[t]) {
        if t < j - i - 1 {
          assert d[t] == s[i + 1..j][t];
        } else if t > j - i - 1 {
          assert d[t] == s[j + 1..][t - (j - i)];
        }
      }
    }
    assert d[j - i - 1] == '.';
    assert ValidDomain(d);
  }

  // -------------------------------------------------------------- handlers

  /** A falsy name, email or message. */
  predicate MissingRequired(body: ContactFields) {
    !TruthyString(body.nombre) || !TruthyString(body.email) || !TruthyString(body.mensaje)
  }

  /**
   * POST /api/contacts: 400 for missing properties (checked first), 400 for a
   * malformed email, otherwise 201 with only the new id, or 500 with a fixed
   * message when the store throws.
   */
  function CreateContact(body: ContactFields, insert: (string, string, string) -> Outcome<int>): (r: Response<CreatedId>)
    ensures WellFormed(r)
    ensures MissingRequired(body) ==> r == Reject(400, MsgAllRequired)
    ensures !MissingRequired(body) ==> (r == Reject(400, MsgBadEmail) <==> !ValidEmail(body.email.value))
    ensures r.status == 201 <==> !MissingRequired(body) && ValidEmail(body.email.value)
                                 && insert(body.nombre.value, body.email.value, body.mensaje.value).Ok?
    ensures r.status == 201 ==>
      r.data == Some(CreatedId(insert(body.nombre.value, body.email.value, body.mensaje.value).value))
      && r.message == Some(MsgThanks)
    ensures r.status == 500 ==> r == Reject(500, MsgCreateFailed)
    ensures !MissingRequired(body) && ValidEmail(body.email.value)
            && insert(body.nombre.value, body.email.value, body.mensaje.value).Threw?
            ==> r == Reject(500, MsgCreateFailed)
  {
    if MissingRequired(body) then Reject(400, MsgAllRequired)
    else if !ValidEmail(body.email.value) then Reject(400, MsgBadEmail)
    else match insert(body.nombre.value, body.email.value, body.mensaje.value)
      case Ok(id) => Response(201, true, Some(MsgThanks), Some(CreatedId(id)), None)
      case Threw(_) => Reject(500, MsgCreateFailed)
  }

  /** GET /api/contacts: the list with its length as `count`. */
  function GetAllContacts(listed: Outcome<seq<Contact>>): (r: Response<seq<Contact>>)
    ensures WellFormed(r)
    ensures r.success <==> listed.Ok?
    ensures r.success ==> r.status == 200 && r.data == Some(listed.value) && r.count == Some(|r.data.value|)
    ensures !r.success ==> r == Reject(500, MsgListFailed)
  {
    match listed
    case Ok(contacts) => Response(200, true, None, Some(contacts), Some(|contacts|))
    case Threw(_) => Reject(500, MsgListFailed)
  }

  /** GET /api/contacts/:id: 404 when the query returned no row. */
  function GetContactById(id: string, fetch: string -> Outcome<Option<Contact>>): (r: Response<Contact>)
    ensures WellFormed(r)
    ensures r.status == 404 <==> fetch(id) == Ok(None)
    ensures r.status == 404 ==> r == Reject(404, MsgNotFound)
    ensures r.success <==> fetch(id).Ok? && fetch(id).value.Some?
    ensures r.success ==> r.status == 200 && r.data == Some(fetch(id).value.value)
    ensures fetch(id).Threw? ==> r == Reject(500, MsgGetFailed)
  {
    match fetch(id)
    case Threw(_) => Reject(500, MsgGetFailed)
    case Ok(None) => Reject(404, MsgNotFound)
    case Ok(Some(c)) => Response(200, true, None, Some(c), None)
  }

  /** DELETE /api/contacts/:id: 404 when no row was removed. */
  function DeleteContact(id: string, delete: string -> Outcome<bool>): (r: Response<Contact>)
    ensures WellFormed(r)
    ensures r.status == 404 <==> delete(id) == Ok(false)
    ensures r.status == 404 ==> r == Reject(404, MsgNotFound)
    ensures r.success <==> delete(id) == Ok(true)
    ensures r.success ==> r.status == 200 && r.message == Some(MsgDeleted) && r.data == None
    ensures delete(id).Threw? ==> r == Reject(500, MsgDeleteFailed)
  {
    match delete(id)
    case Threw(_) => Reject(500, MsgDeleteFailed)
    case Ok(false) => Reject(404, MsgNotFound)
    case Ok(true) => Response(200, true, Some(MsgDeleted), None, None)
  }
}
