# portafolio-api in Dafny

A model of the core of a small Express REST API for a portfolio. The API has
two resources, projects and contact messages. The model covers:

- **The project store** (`models/Project.js`), in `project_model.dfy`. It holds
  one JSON document `{projects, nextId}`. The queries are pure functions over
  the project list: `getAll` (category filter, then sort by `orden` and `id`),
  `getById` (through `parseInt`) and `getByCategoryAndSlug`. The document is
  the class `ProjectStore`, whose methods `Create`, `Update` and `Delete`
  change it in place. A ghost set `issued` records every id the store has
  handed out since it was created; for a store loaded from an existing file
  it starts as the ids of the stored projects, since ids deleted before the
  load are no longer known. The no-argument constructor is the document `readData` writes
  when the file is missing: `{projects: [], nextId: 1}`.
- **The project request handlers** (`controllers/ProjectController.js`), in
  `project_controller.dfy`. Each handler is a function from the request's
  inputs and the store operation (a function parameter) to a status and the
  envelope `{success, message, data, count}`. A store that throws is an
  `Outcome.Threw` carrying the error's message.
- **The contact request handlers** (`controllers/ContactController.js`), in
  `contact_controller.dfy`. This includes the email check
  `^[^\s@]+@[^\s@]+\.[^\s@]+$`. It is written as a direct test,
  `ValidEmail`, and proved equal to the language of the regular expression.
- **JavaScript semantics the code relies on**, in `js.dfy`:
  - an object property that may be missing (`undefined`), `null` or set (`Field`);
  - truthiness for strings, numbers and arrays;
  - ECMAScript white space;
  - `parseInt` without a radix: leading white space, sign, the `0x` prefix,
    and the longest run of digits.
- **Whole-API properties** in `project_api.dfy`. These put a handler in front
  of the store operation it calls: POST then GET, DELETE then GET, unknown
  ids, partial updates, the default `orden`, and the uniqueness of the sorted
  list.

Notes on the code's behaviour:

- The store's `create` does not check the required fields. The POST handler
  checks them.
- The contact handlers answer failures with fixed messages, not with the
  error's text.
- `create` never sets `slug`, and `update` keeps it. So a project created
  through the API is never found by `getByCategoryAndSlug`
  (`ProjectApi.SlugLookupNeverFinds`).

## Model

| member | source | states |
|---|---|---|
| `Js.ParseInt` | models/Project.js:56 | `parseInt(id)` without a radix: skips leading white space, reads an optional sign, reads hexadecimal after `0x`/`0X` and decimal otherwise, and stops at the first character that is no digit. A blank string gives NaN, and only a leading `-` gives a negative number |
| `Js.ParseIntOfIntString` | models/Project.js:56 | `parseInt` reads back the decimal numeral of every integer, also when a non-digit follows it. After `0` the model excludes only an `x`/`X` continuation, because that would start a hexadecimal numeral |
| `Js.ParseIntWithoutDigits` | models/Project.js:56 | a route id without any decimal digit parses to NaN, which equals no stored id |
| `ProjectModel.FindIndex` | models/Project.js:107 | finds the first index whose project matches, and None exactly when no project matches |
| `ProjectModel.GetById` | models/Project.js:53-61 | returns the first project whose id equals `parseInt(id)`, or null exactly when there is none; a NaN id always gives null |
| `ProjectModel.GetByCategoryAndSlug` | models/Project.js:64-74 | returns the first project whose category and slug both equal the requested strings, or null exactly when there is none |
| `ProjectModel.Filter` | models/Project.js:39 | keeps each accepted project as often as it occurs and drops the rest; the length stays the same exactly when every project is accepted |
| `ProjectModel.FilterKeepsAll` | models/Project.js:39 | a filter that accepts every project returns the list unchanged |
| `ProjectModel.FilterAppend` | models/Project.js:39 | filtering a concatenation is the concatenation of the filtered parts, so the kept projects stay in input order |
| `ProjectModel.Compare` | models/Project.js:43-46 | the sort comparator: projects with the same `orden` compare by `id`. Two different `orden` values compare by their difference, so the smaller `orden` comes first. A missing `orden` beside a different one gives NaN, which sort reads as 0 (equal) |
| `ProjectModel.CompareIsOrdenThenId` | models/Project.js:43-46 | for numeric `orden` values, the sort comparator is the order by `orden` with ties broken by `id`; the comparator is antisymmetric, `Compare(a, b) == -Compare(b, a)` |
| `ProjectModel.SortProjects` | models/Project.js:43 | the sorted list is a permutation of its input |
| `ProjectModel.SortProjectsSorted` | models/Project.js:43-46 | with numeric `orden` values, the sort puts the projects in ascending (`orden`, `id`) order |
| `ProjectModel.SortedArrangementUnique` | models/Project.js:43-46 | with distinct ids, two (`orden`, `id`)-sorted arrangements of the same projects are equal |
| `ProjectModel.GetAll` | models/Project.js:33-50 | lists each stored project of the category as often as it is stored, or every project when the category query is falsy. The list is sorted by `orden`, then `id`, when every `orden` is a number |
| `ProjectModel.NewRecord` | models/Project.js:81-91 | the new record has the given id and copies title, description and category. It never has a slug. Falsy technologies and images become `[]`, falsy URLs become null, and a falsy `orden` becomes count + 1. Truthy values are kept |
| `ProjectModel.Merge` | models/Project.js:114-148 | each of the eight properties takes the incoming value exactly when that value is not undefined (null and falsy values overwrite). `id` and `slug` are kept. An all-undefined patch returns the record unchanged |
| `ProjectModel.WithoutId` | models/Project.js:164 | the delete filter drops exactly the projects whose id is the parsed number and keeps the others as often as they occur. The list gets shorter exactly when some project has that id, and it is returned unchanged when none has |
| `ProjectModel.FilterKeepsIncreasing` | models/Project.js:164 | deleting by filtering keeps the ids ascending |
| `ProjectModel.ProjectStore.constructor` | models/Project.js:14-17 | the initial document is `{projects: [], nextId: 1}`, and it satisfies the store invariant |
| `ProjectModel.ProjectStore.Load` | models/Project.js:10-11 | a document read from a file is held as it is; it satisfies the invariant when its ids ascend and lie below `nextId` |
| `ProjectModel.ProjectStore.Create` | models/Project.js:77-101 | appends the new record with id `nextId` and increments `nextId` by exactly 1; earlier records are unchanged. It keeps the invariant, and the new id is not in `issued`: no stored project has it, and neither has any project deleted since the store was created or loaded |
| `ProjectModel.ProjectStore.Update` | models/Project.js:104-156 | an id no project has returns null and changes nothing. Otherwise only the first matching index is replaced, by its merge with the patch. `nextId` is unchanged and the invariant is kept |
| `ProjectModel.ProjectStore.Delete` | models/Project.js:159-175 | removes every project with the parsed id and returns true exactly when one existed; when none existed the list is unchanged. `nextId` is untouched and the invariant is kept |
| `ProjectController.GetAll` | controllers/ProjectController.js:5-22 | 200 with `count` equal to the length of `data`, which is the store's list; a thrown error gives 500 with the error's message |
| `ProjectController.GetById` | controllers/ProjectController.js:25-48 | forwards the route id to the store unchanged. Answers 404 with `success: false` exactly when the store returns null, 200 with the project when it finds one, and 500 with the error's message when it throws |
| `ProjectController.GetByCategoryAndSlug` | controllers/ProjectController.js:51-74 | answers 404 exactly when the store returns null and 200 with the project otherwise; a thrown error gives 500 with its message |
| `ProjectController.CreateData` | controllers/ProjectController.js:106-115 | what the POST handler hands to the store: title, description, category and both URLs as given, `tecnologias` and `images` as given when set and `[]` otherwise, `orden` as given when non-zero and 0 otherwise |
| `ProjectController.Create` | controllers/ProjectController.js:77-131 | answers 400 exactly when a required property is falsy or the category is unknown. The missing-fields check comes first. Otherwise the store receives the body with `tecnologias \|\| []`, `orden \|\| 0` and `images \|\| []`, and the answer is 201 with the stored record, or 500 with the error's message |
| `ProjectController.Update` | controllers/ProjectController.js:134-191 | answers 400 exactly when the category is truthy and unknown. Otherwise the body goes to the store as it is, and the answer is 404 exactly when the store returns null, 200 with the updated record, or 500 with the error's message |
| `ProjectController.Delete` | controllers/ProjectController.js:194-217 | answers 404 exactly when the store returns false, 200 with no data when it returns true, and 500 with the error's message when it throws |
| `ContactController.ValidEmailIsPattern` | controllers/ContactController.js:18-19 | the email check accepts a string exactly when it matches `^[^\s@]+@[^\s@]+\.[^\s@]+$`: a non-empty local part and a domain, both without white space or `@`, joined by `@`, where the domain has a `.` that is neither its first nor its last character |
| `ContactController.CreateContact` | controllers/ContactController.js:5-43 | answers 400 for a falsy name, email or message, checked before the email format. It answers 400 with the format message exactly when the email fails the check. Otherwise it answers 201 with only the new id, or 500 with a fixed message whatever the error says |
| `ContactController.GetAllContacts` | controllers/ContactController.js:46-62 | 200 with `count` equal to the length of `data`, or 500 with a fixed message |
| `ContactController.GetContactById` | controllers/ContactController.js:65-88 | answers 404 exactly when the query found no row, 200 with the row otherwise, and 500 with a fixed message on an error |
| `ContactController.DeleteContact` | controllers/ContactController.js:91-114 | answers 404 exactly when no row was removed, 200 when one was, and 500 with a fixed message on an error |
| `ProjectApi.CreateThenGetById` | controllers/ProjectController.js:106-123 | a valid POST answers 201 with a record whose id is `nextId`. Its `orden` is the body's non-zero `orden`, or otherwise the number of stored projects + 1. A GET of that id then answers 200 with the same record, and the document keeps its invariant |
| `ProjectApi.UnknownIdIsNotFound` | controllers/ProjectController.js:28-35 | a GET of an id at or above `nextId` answers 404 |
| `ProjectApi.DeleteThenGetById` | models/Project.js:164 | after a DELETE of an id, a GET of the same id answers 404 |
| `ProjectApi.DeleteAnswers` | controllers/ProjectController.js:197-209 | a DELETE answers 200 exactly when a stored project has the parsed id, and 404 exactly when none has |
| `ProjectApi.UpdateOnlyTitle` | controllers/ProjectController.js:159-183 | a PUT that provides only the title answers 200 with the old record in which only the title changed |
| `ProjectApi.UpdateWithFalsyCategory` | controllers/ProjectController.js:149-168 | a PUT with category `""` or null skips the category check and overwrites the stored category |
| `ProjectApi.InvalidCategoryRejected` | controllers/ProjectController.js:98-104 | a POST of `{titulo: "X", descripcion: "Y", categoria: "invalid"}` answers 400 with the invalid-category message |
| `ProjectApi.FourthProjectOrden` | models/Project.js:89 | with three stored projects, a POST without `orden` stores `orden` 4 |
| `ProjectApi.SlugLookupNeverFinds` | models/Project.js:67-70 | create never sets a slug, and update and delete keep every slug missing. A category-and-slug GET on such a document answers 404 |
| `ProjectApi.GetAllIsTheSortedSelection` | models/Project.js:38-46 | under the store invariant with numeric `orden` values, the `getAll` list is the only (`orden`, `id`)-sorted list of the selected projects |
| `ProjectApi.PostThenGet` | controllers/ProjectController.js:117-123 | on a valid store, POST then GET of the returned id answers 200 with the record the POST answered, and the store stays valid |
| `ProjectApi.DeleteThenGet` | controllers/ProjectController.js:194-209 | on the store, DELETE answers 200 or 404, 200 exactly when some project had the id; a 404 leaves the list unchanged, a valid store stays valid, and a GET of the same id then answers 404 |

## Left out

- Reading and writing the JSON file (`readData`/`writeData`, models/Project.js:8-30), with its JSON parsing and `fs` calls. The document lives in memory, and each operation is one atomic step. A failing read or write appears only as an `Outcome.Threw` that a handler receives.
- models/Contact.js is not part of this model. It is a wrapper over MySQL queries, and id assignment, ordering by `fecha_creacion` and `affectedRows` all happen in the database. The contact handlers take the query's result as a parameter.
- config/database.js, index.js, routes/projects.js and routes/contacts.js are not part of this model. They configure the connection pool, start Express and bind routes. Route precedence between `/:categoria/:slug` and `/:id` is Express's behaviour.
- Concurrent requests and the read-modify-write race between them; async/await plumbing; `console.error` logging.
- `parseInt` results beyond 2^53, where JavaScript numbers lose precision. Ids and `orden` are unbounded integers.
- Request bodies whose properties have another JSON type than the model gives them: a number as `titulo`, a string as `orden`, a string as `tecnologias`. The same goes for a repeated `categoria` query parameter, which arrives as an array.
- Stored properties other than the ten modelled ones. The update spread keeps them, as it keeps `slug`.
- `ProjectModel.GetAll`: sortedness is proved only when every `orden` is a number. A missing or null `orden` can make the comparator inconsistent (a null beside an `orden` of 0, or a missing one beside two different ordens), and the JavaScript engine's order is then unspecified. The model's stable insertion sort then yields one permutation of the selection.
- `ProjectModel.ProjectStore.Load`: a document read from a file may break the invariant (ids not ascending, or not below `nextId`). The operations still behave as specified on such a document, but none of them claims the invariant for it.
