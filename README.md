# Ticket intake service: a Dafny model

This project models the core of a ticket-intake backend. Constituents file
problem reports ("tickets"). A text classifier suggests a category when the
submitter leaves it out. Staff then overwrite a ticket's category or status.

The model has four modules:

- `Models` (`models.dfy`) holds the data shape. `Ticket` is a row of the
  `tickets` table (`app/models.py`). `TicketCreate` is the create request
  (`app/schemas.py`). Only `masalah` is required; the other fields are
  `Option<string>`.
- `Text` (`text.dfy`) gives Python's `str.strip()` and `str.isspace()`
  semantics. The predict endpoint uses them in its guard.
- `Crud` (`crud.dfy`) is the ticket store (`app/crud.py`). The class
  `TicketTable` holds the table as a `map<int, Ticket>` together with the
  next id to assign and the latest timestamp. Insert and the two field
  updates are methods that change the map in place. Lookup and the paged
  listing are functions that read it. Pure functions `WithCategory`,
  `WithStatus`, `Listing` and `Page` specify those operations. Lemmas prove
  their frame, idempotence, ordering and completeness.
- `Api` (`api.dfy`) holds the HTTP handlers (`app/main.py`). A handler's
  outcome is a `Response`: `Ok`, `BadRequest` (400) or `NotFound` (404).
  The classifier is a `Classifier` object wrapping an uninterpreted
  function `infer`. Its ghost `queries` log records each text it was asked
  to classify. This makes "the classifier is not called" a checked
  postcondition.

The behaviour captured:

- A new ticket is stored with status `"Pengajuan"`.
- A new ticket copies `nama`, `instansi`, `tanggal_pengajuan`, `masalah` and
  `deskripsi` unchanged.
- A falsy category (`None` or `""`) is stored as `None`. This also holds
  when the classifier itself returns `""`.
- A created ticket gets an id not yet in the table, and all other rows stay
  unchanged.
- Listing returns rows newest first, then applies `OFFSET skip LIMIT limit`.
  It follows SQLite's rules for negative values: a negative offset counts
  as 0, and a negative limit means no limit.
- The category update and the status update each change one field of one
  row. On a missing id they change nothing, and the handler answers 404.
- The category update stores the new value as given, even `""`. Only
  creation turns `""` into `None`.
- The predict endpoint answers 400 when its text is absent, `""` or
  whitespace only. It answers before the classifier is consulted.
- When the caller gives no category, intake classifies
  `masalah + ". " + deskripsi` (or just `masalah` when there is no
  description) and stores the label. A caller-given category is kept as is,
  and the classifier is not consulted.

What the code does not do:

- The initial status is the literal `"Pengajuan"` (app/crud.py:12).
- Creation does not check that `masalah` is non-blank.
- No modelled file computes authentication, ownership scoping or receipt
  numbers.

Timestamps: `created_at` is set by the database clock. The model keeps a
`clock` field that each insert advances by a caller-supplied `elapsed: nat`.
`elapsed` may be 0, so two tickets can share a timestamp. `TicketTable.Valid()`
states that the stored ids are exactly 1 to `nextId - 1`, with no gaps, so the
next id is SQLite's largest rowid plus one. It also states that timestamps
never decrease with the id. The listing orders rows
by id, newest first, and is proved non-increasing in `created_at`. The SQL
query leaves the order of equal timestamps unspecified. The model breaks
such ties by putting the larger id first.

## Model

| member | source | states |
|---|---|---|
| `Crud.NormalizeCategory` | app/crud.py:11 | the stored category is None exactly when the given one is None or ""; otherwise it is the given value unchanged |
| `Crud.NewRecord` | app/crud.py:5-13 | a new row has the given id and timestamp, status "Pengajuan", and copies nama, instansi, tanggal_pengajuan, masalah and deskripsi from the request; its category is the request's when truthy, else None |
| `Crud.Listing` | app/crud.py:23 | the id-ordered listing holds only stored rows, and is empty when n is at most 1 |
| `Crud.ListingShape` | app/crud.py:23 | the listing below n holds only stored rows with ids in [1, n), every such row, each under its own key, in strictly decreasing id order |
| `Crud.ListingSize` | app/crud.py:23 | the listing has exactly one element per stored key in [1, n) |
| `Crud.ListingNewestFirst` | app/crud.py:23 | when timestamps never decrease with the id, the listing is ordered by created_at newest first |
| `Crud.ListingAfterInsert` | app/crud.py:14-23 | inserting a row under the next id puts that row at the head of the listing, ahead of all older rows |
| `Crud.OffsetStart` | app/crud.py:23 | where the offset starts: 0 for a non-positive offset, the offset itself when it is in range, the end when the offset reaches or passes it |
| `Crud.Page` | app/crud.py:23 | `offset(skip).limit(limit)`: at most limit elements when limit is non-negative; no elements when skip reaches the end; element i is element start+i of the ordered result, where start is OffsetStart(skip, length of the ordered result); the length is what remains after start, capped by limit |
| `Crud.PageOfListing` | app/crud.py:23 | a page of a newest-first listing of stored rows is again newest first, holds only stored rows and no row twice, and is the whole listing when nothing is skipped or cut |
| `Crud.WithCategory` | app/crud.py:25-31 | the category overwrite keeps the set of ids and every other row; on an existing id only that row's category becomes the new value |
| `Crud.WithStatus` | app/crud.py:34-40 | the status overwrite keeps the set of ids and every other row; on an existing id only that row's status becomes the new value |
| `Crud.CategoryUpdateFrame` | app/crud.py:25-31 | a category update on a missing id leaves the table equal; on an existing id every field except category keeps its value |
| `Crud.StatusUpdateFrame` | app/crud.py:34-40 | a status update on a missing id leaves the table equal; on an existing id every field except status keeps its value |
| `Crud.CategoryUpdateIdempotent` | app/crud.py:29 | applying the same category update twice equals applying it once |
| `Crud.StatusUpdateIdempotent` | app/crud.py:38 | applying the same status update twice equals applying it once |
| `Crud.UpdatesCommute` | app/crud.py:25-40 | a category update and a status update of the same ticket commute |
| `Crud.TicketTable.constructor` | app/models.py:5-16 | the table starts empty, with the first id to assign being 1 |
| `Crud.TicketTable.CreateTicket` | app/crud.py:4-17 | adds exactly one row, under an id not previously present and one more than the largest stored id (the ids are exactly 1 to nextId - 1), equal to the new-record image of the request; all earlier rows unchanged; the table invariant is kept |
| `Crud.TicketTable.GetTicket` | app/crud.py:19-20 | returns a row exactly when the id is stored, and that row carries the requested id |
| `Crud.TicketTable.AllNewestFirst` | app/crud.py:23 | the ordered table is a permutation of the stored rows: as many elements as rows, each stored, none twice, every row present, newest created_at first |
| `Crud.TicketTable.GetTickets` | app/crud.py:22-23 | at most limit tickets, newest first, no ticket twice, all stored; equal to the ordered table with skip dropped and cut to limit; the whole table when nothing is skipped or cut |
| `Crud.TicketTable.UpdateTicketCategory` | app/crud.py:25-32 | None and no change when the id is absent; otherwise the table is the category overwrite of the old table and the result is the updated row |
| `Crud.TicketTable.UpdateTicketStatus` | app/crud.py:34-41 | None and no change when the id is absent; otherwise the table is the status overwrite of the old table and the result is the updated row |
| `Text.LStrip` | app/main.py:56 | the result is a suffix of the input, the dropped prefix is all whitespace, and the result does not start with whitespace |
| `Text.RStrip` | app/main.py:56 | the result is a prefix of the input, the dropped suffix is all whitespace, and the result does not end with whitespace |
| `Text.Strip` | app/main.py:56 | `s.strip()` is no longer than s and neither starts nor ends with whitespace |
| `Text.StripTrimmed` | app/main.py:56 | `s.strip()` is the part of s left between an all-whitespace prefix and an all-whitespace suffix |
| `Text.StripUnique` | app/main.py:56 | any window of s with all-whitespace surroundings and no whitespace at its own ends is `s.strip()`, so the two properties above determine it |
| `Text.StripEmptyIff` | app/main.py:56 | `s.strip()` is "" exactly when every character of s is whitespace |
| `Api.EmptyText` | app/main.py:56 | the predict guard holds exactly when the text is absent or consists of whitespace only (including "") |
| `Api.Classifier.constructor` | app/main.py:46-47 | the classifier is loaded once with its inference function and has seen no query |
| `Api.Classifier.Predict` | app/model_loader.py:21-32 | returns the inference result for the text and records the text as one more query |
| `Api.Predict` | app/main.py:54-60 | 400 "Text is empty" with no classifier query exactly when the text is absent or blank; otherwise the classifier's result for that text after exactly one query |
| `Api.ClassifierInput` | app/main.py:68-69 | no classifier text exactly when the caller's category is truthy; otherwise masalah + ". " + deskripsi when deskripsi is truthy, else masalah alone |
| `Api.Classified` | app/main.py:68-71 | intake changes only the request's category, after which there always is one: the caller's when truthy, otherwise the classifier's label for the intake text |
| `Api.CreatedTicket` | app/main.py:67-74 | every created ticket has status "Pengajuan" and the request's fields; its category is the caller's when truthy, else the normalised classifier label for the intake text |
| `Api.CallerCategoryWins` | app/main.py:68 | with a truthy caller category the stored request does not depend on the classifier and equals the caller's request |
| `Api.CreateTicket` | app/main.py:64-74 | queries the classifier once with the intake text when the category is falsy and not at all otherwise; stores exactly one new row built from the classified request |
| `Api.NotFoundIfAbsent` | app/main.py:87-89 | an absent store result becomes 404 "Ticket not found"; a present one is returned unchanged |
| `Api.ListTickets` | app/main.py:78-81 | returns exactly the store's paged listing, at most limit tickets |
| `Api.ListTicketsDefaults` | app/main.py:79-81 | by default skip is 0 and limit is 100: at most 100 tickets, and all of them when there are at most 100 |
| `Api.GetTicket` | app/main.py:85-90 | Ok with the stored row exactly when the id exists, else 404 "Ticket not found" |
| `Api.UpdateCategory` | app/main.py:94-99 | Ok with the updated row exactly when the id existed, with the table the category overwrite of the old one; else 404 and the table unchanged |
| `Api.UpdateStatus` | app/main.py:103-108 | Ok with the updated row exactly when the id existed, with the table the status overwrite of the old one; else 404 and the table unchanged |

## Left out

- The model of the classifier (`app/model_loader.py`) is left out. It loads a BERT tokenizer and model, runs a forward pass and a floating-point softmax, and unpickles a label encoder. These are foreign libraries and floating point. The classifier is an uninterpreted function, and its scores are passed through untouched.
- Database engine and session setup (`app/database.py`, table creation, the per-request session with close on exit): resource wiring with no logic. Persistence is the in-memory map; `commit` and `refresh` are its identity.
- Classifier failures: `model_wrapper.predict` may raise (app/main.py:59, app/main.py:70), and the source then answers with a server error; the model's `Api.Classifier.Predict` always returns. Because create_ticket classifies before it calls `crud.create_ticket`, a failed classification stores no row.
- CORS middleware and reading the model directory from the environment: framework configuration.
- The server clock behind `created_at`: replaced by the `clock` field and the `elapsed` argument described above. SQL leaves the order of equal timestamps unspecified; the model fixes it.
- Request validation by the web framework: a request missing a required field is rejected with 422 before any handler runs. For predict, the model's text is optional so that it follows the handler's own `not req.text` test.
- Response shaping: a handler's `Ok(t)` is the value the handler returns, not the HTTP response. The framework then validates that value against `TicketOut`. `TicketOut` requires `nomor_resi` (app/schemas.py:29), and the ticket row has no such field (app/models.py:5-16). Read as written, that validation fails for every ticket that create_ticket, get_ticket, update_category and update_status return, and for a non-empty list_tickets (app/main.py:64, 78, 85, 94, 103). The client then gets a server error; for create and the updates, the row has already been committed. The model does not capture that step.
- Api.GetTicket: does not model the 64-bit bound on `ticket_id`. The id is bound as an SQLite INTEGER (app/crud.py:20). Outside [-2^63, 2^63 - 1] the source fails with a server error or a 422; the model answers NotFound.
- Api.UpdateCategory: does not model the 64-bit bound on `ticket_id` either. Out of range, the source fails with a server error or a 422; the model answers NotFound and leaves the table unchanged.
- Api.UpdateStatus: does not model the 64-bit bound on `ticket_id` either. Out of range, the source fails with a server error or a 422; the model answers NotFound and leaves the table unchanged.
- Api.ListTickets: does not model the 64-bit bound on `skip` and `limit` (app/crud.py:23). Out of range, the source fails with a server error or a 422; the model's integers are unbounded, and it answers with a page, which is `[]` for a huge skip (see also Crud.TicketTable.GetTickets).
- Column length limits: SQLite does not enforce them.
- Concurrency between requests: each handler is modelled as one atomic step, so the last write wins.
- Authentication, tokens, users, ownership filtering and receipt numbers: no modelled file implements them. The user and token schemas are unused declarations.
