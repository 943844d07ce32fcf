/**
 * The HTTP handlers of the ticketing service: text prediction, ticket
 * intake with automatic classification, listing, lookup and the two
 * single-field updates, each mapping store results to HTTP outcomes.
 */
module Api {
  import opened Models
  import opened Text
  import Crud

  /** What the classifier returns: a label and a score per label. */
  datatype Prediction = Prediction(category: string, scores: map<string, real>)

  /**
   * The text classifier, loaded once and shared by all handlers.  Its
   * inference is an uninterpreted function; `queries` records every text
   * it has been asked about, so a handler's contract can say whether it
   * consulted the classifier.
   */
  class Classifier {
    const infer: string -> Prediction
    ghost var queries: seq<string>

    constructor (infer: string -> Prediction)
      ensures this.infer == infer && queries == []
    {
      this.infer := infer;
      queries := [];
    }

    method Predict(text: string) returns (p: Prediction)
      modifies this
      ensures p == infer(text)
      ensures queries == old(queries) + [text]
    {
      p := infer(text);
      queries := queries + [text];
    }
  }

  /** A handler's outcome: a body, or an HTTP error with its detail message. */
  datatype Response<+T> = Ok(value: T) | BadRequest(detail: string) | NotFound(detail: string)
  {
    function StatusCode(): int
    {
      match this
      case Ok(_) => 200
      case BadRequest(_) => 400
      case NotFound(_) => 404
    }
  }

  const TextIsEmpty: string := "Text is empty"
  const TicketNotFound: string := "Ticket not found"

  /** The guard of the predict endpoint: the text is absent, "" or strips to "". */
  function EmptyText(text: Option<string>): (b: bool)
    ensures b <==> text.None? || AllSpace(text.value)
  {
    match text
    case None => true
    case Some(s) => StripEmptyIff(s); s == "" || Strip(s) == ""
  }

  /** Rejects blank text with 400 before the classifier is consulted; otherwise passes it through. */
  method Predict(clf: Classifier, text: Option<string>) returns (r: Response<Prediction>)
    modifies clf
    ensures EmptyText(text) ==> r == BadRequest(TextIsEmpty) && clf.queries == old(clf.queries)
    ensures !EmptyText(text) ==> r == Ok(clf.infer(text.value)) && clf.queries == old(clf.queries) + [text.value]
    ensures r.StatusCode() == 400 <==> text.None? || AllSpace(text.value)
  {
    if EmptyText(text) {
      return BadRequest(TextIsEmpty);
    }
    var p := clf.Predict(text.value);
    r := Ok(p);
  }

  /**
   * The text a create request sends to the classifier: none when the caller
   * gave a category, otherwise `masalah`, followed by ". " and `deskripsi`
   * when there is a description.
   */
  function ClassifierInput(t: TicketCreate): (q: Option<string>)
    ensures q.None? <==> Truthy(t.category)
    ensures q.Some? && Truthy(t.deskripsi) ==> q.value == t.masalah + ". " + t.deskripsi.value
    ensures q.Some? && !Truthy(t.deskripsi) ==> q.value == t.masalah
  {
    if Truthy(t.category) then None
    else Some(t.masalah + (if Truthy(t.deskripsi) then ". " + t.deskripsi.value else ""))
  }

  /**
   * The request after intake: the classifier's label fills a falsy category.
   * Only the category may change, and afterwards there always is one.
   */
  function Classified(t: TicketCreate, infer: string -> Prediction): (r: TicketCreate)
    ensures r == t.(category := r.category) && r.category.Some?
    ensures Truthy(t.category) ==> r == t
    ensures !Truthy(t.category) ==> r.category.value == infer(ClassifierInput(t).value).category
  {
    match ClassifierInput(t)
    case None => t
    case Some(q) => t.(category := Some(infer(q).category))
  }

  /**
   * Every created ticket is stored with status "Pengajuan" and the request's
   * fields; its category is the caller's when one was given, else the
   * classifier's label for the intake text (None when that label is "").
   */
  lemma CreatedTicket(t: TicketCreate, infer: string -> Prediction, id: int, at: int)
    ensures var r := Crud.NewRecord(Classified(t, infer), id, at);
      && r.id == id && r.createdAt == at && r.status == Pengajuan
      && r.nama == t.nama && r.instansi == t.instansi
      && r.tanggalPengajuan == t.tanggalPengajuan
      && r.masalah == t.masalah && r.deskripsi == t.deskripsi
      && (Truthy(t.category) ==> r.category == t.category)
      && (!Truthy(t.category) ==>
            r.category == Crud.NormalizeCategory(Some(infer(ClassifierInput(t).value).category)))
  {
  }

  /** With a caller category the result does not depend on the classifier at all. */
  lemma CallerCategoryWins(t: TicketCreate, f: string -> Prediction, g: string -> Prediction)
    requires Truthy(t.category)
    ensures Classified(t, f) == Classified(t, g) == t
  {
  }

  /** Classifies when the category is falsy, then inserts the ticket. */
  method CreateTicket(store: Crud.TicketTable, clf: Classifier, ticket: TicketCreate, elapsed: nat)
    returns (r: Ticket)
    requires store.Valid()
    modifies store, clf
    ensures store.Valid()
    ensures r == Crud.NewRecord(Classified(ticket, clf.infer), old(store.nextId), old(store.clock) + elapsed)
    ensures r.id !in old(store.rows) && store.rows == old(store.rows)[r.id := r]
    ensures store.nextId == old(store.nextId) + 1 && store.clock == old(store.clock) + elapsed
    ensures ClassifierInput(ticket).None? ==> clf.queries == old(clf.queries)
    ensures ClassifierInput(ticket).Some? ==> clf.queries == old(clf.queries) + [ClassifierInput(ticket).value]
  {
    var t := ticket;
    var input := ClassifierInput(ticket);
    if input.Some? {
      var p := clf.Predict(input.value);
      t := t.(category := Some(p.category));
    }
    r := store.CreateTicket(t, elapsed);
  }

  /** The "no such ticket" check shared by the lookup and update handlers. */
  function NotFoundIfAbsent<T>(found: Option<T>): (r: Response<T>)
    ensures r.Ok? <==> found.Some?
    ensures found.Some? ==> r.value == found.value
    ensures found.None? ==> r == NotFound(TicketNotFound) && r.StatusCode() == 404
  {
    match found
    case None => NotFound(TicketNotFound)
    case Some(v) => Ok(v)
  }

  /** The paged listing, 100 newest tickets by default. */
  function ListTickets(store: Crud.TicketTable, skip: int := 0, limit: int := 100): (r: seq<Ticket>)
    reads store
    requires store.Valid()
    ensures r == store.GetTickets(skip, limit)
    ensures limit >= 0 ==> |r| <= limit
  {
    store.GetTickets(skip, limit)
  }

  lemma ListTicketsDefaults(store: Crud.TicketTable)
    requires store.Valid()
    ensures ListTickets(store) == store.GetTickets(0, 100)
    ensures |ListTickets(store)| <= 100
    ensures |store.rows| <= 100 ==> forall k :: k in store.rows ==> store.rows[k] in ListTickets(store)
  {
  }

  /** One ticket, or 404 exactly when the store has no row with that id. */
  function GetTicket(store: Crud.TicketTable, ticketId: int): (r: Response<Ticket>)
    reads store
    requires store.Valid()
    ensures r.Ok? <==> ticketId in store.rows
    ensures r.Ok? ==> r.value == store.rows[ticketId] && r.value.id == ticketId
    ensures !r.Ok? ==> r == NotFound(TicketNotFound)
  {
    NotFoundIfAbsent(store.GetTicket(ticketId))
  }

  /** Overwrites a ticket's category; 404, and no change, when the ticket is missing. */
  method UpdateCategory(store: Crud.TicketTable, ticketId: int, category: string) returns (r: Response<Ticket>)
    requires store.Valid()
    modifies store
    ensures store.Valid()
    ensures store.rows == Crud.WithCategory(old(store.rows), ticketId, category)
    ensures store.nextId == old(store.nextId) && store.clock == old(store.clock)
    ensures r.Ok? <==> ticketId in old(store.rows)
    ensures r.Ok? ==> r.value == store.rows[ticketId]
    ensures !r.Ok? ==> r == NotFound(TicketNotFound) && store.rows == old(store.rows)
  {
    var t := store.UpdateTicketCategory(ticketId, category);
    r := NotFoundIfAbsent(t);
  }

  /** Overwrites a ticket's status; 404, and no change, when the ticket is missing. */
  method UpdateStatus(store: Crud.TicketTable, ticketId: int, status: string) returns (r: Response<Ticket>)
    requires store.Valid()
    modifies store
    ensures store.Valid()
    ensures store.rows == Crud.WithStatus(old(store.rows), ticketId, status)
    ensures store.nextId == old(store.nextId) && store.clock == old(store.clock)
    ensures r.Ok? <==> ticketId in old(store.rows)
    ensures r.Ok? ==> r.value == store.rows[ticketId]
    ensures !r.Ok? ==> r == NotFound(TicketNotFound) && store.rows == old(store.rows)
  {
    var t := store.UpdateTicketStatus(ticketId, status);
    r := NotFoundIfAbsent(t);
  }

  /** A client: intake classifies only when the caller gave no category. */
  method IntakeScenario(infer: string -> Prediction)
  {
    var store := new Crud.TicketTable();
    var clf := new Classifier(infer);

    var wifi := TicketCreate(None, None, None, "Wifi lambat", Some(""), None);
    var a := CreateTicket(store, clf, wifi, 0);
    assert clf.queries == ["Wifi lambat"];
    assert a.status == Pengajuan && a.id == 1;

    var given := TicketCreate(Some("Budi"), None, None, "Printer rusak", Some("tidak bisa cetak"), Some("Hardware"));
    var b := CreateTicket(store, clf, given, 5);
    assert clf.queries == ["Wifi lambat"];
    assert b.category == Some("Hardware") && b.id == 2;
  }

  /** A client: blank text is refused without consulting the classifier. */
  method PredictScenario(infer: string -> Prediction)
  {
    var clf := new Classifier(infer);
    var blank := " \t\n";
    assert AllSpace(blank) by {
      assert IsSpace(blank[0]) && IsSpace(blank[1]) && IsSpace(blank[2]);
    }
    var p := Predict(clf, Some(blank));
    assert p.StatusCode() == 400 && clf.queries == [];
  }

  /** A client: non-blank text is passed to the classifier once. */
  method PredictPassThrough(infer: string -> Prediction)
  {
    var clf := new Classifier(infer);
    var text := "Wifi lambat";
    assert !IsSpace(text[0]);
    var q := Predict(clf, Some(text));
    assert q == Ok(infer(text)) && clf.queries == [text];
  }

  /** A client: a status update on a missing ticket is a 404, on a stored one it overwrites the status. */
  method UpdateScenario(infer: string -> Prediction)
  {
    var store := new Crud.TicketTable();
    var clf := new Classifier(infer);
    var a := CreateTicket(store, clf, TicketCreate(None, None, None, "Wifi lambat", None, Some("Jaringan")), 0);
    var missing := UpdateStatus(store, 7, "Selesai");
    assert missing == NotFound(TicketNotFound);
    var done := UpdateStatus(store, 1, "Selesai");
    assert done.Ok? && done.value.status == "Selesai" && done.value.masalah == "Wifi lambat";
  }

  /** A client: the newest ticket is listed first. */
  method ListingScenario(infer: string -> Prediction)
  {
    var store := new Crud.TicketTable();
    var clf := new Classifier(infer);
    var a := CreateTicket(store, clf, TicketCreate(None, None, None, "Wifi lambat", None, Some("Jaringan")), 0);
    var b := CreateTicket(store, clf, TicketCreate(None, None, None, "Printer rusak", None, Some("Hardware")), 3);
    Crud.ListingAfterInsert(map[], 1, a);
    Crud.ListingAfterInsert(map[1 := a], 2, b);
    assert store.rows == map[1 := a][2 := b] && store.nextId == 3;
    assert Crud.Listing(store.rows, store.nextId) == [b, a];
    var listed := ListTickets(store);
    assert listed == Crud.Page(Crud.Listing(store.rows, store.nextId), 0, 100);
    assert listed == [b, a];
  }
}
