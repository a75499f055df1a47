/**
 * The `/contacts` handlers: each calls the repository and turns its outcome
 * into a status code. Path ids are validated (`ge=1`) before the handler runs.
 */
module ContactRoutes {
  import opened Wrappers
  import opened Models
  import opened Http
  import Repo = ContactRepository

  const NotFoundDetail := "Not Found"

  /** The 409 detail for a contact whose email is taken. */
  function DuplicateEmailDetail(email: string): string {
    "Contact with email:" + email + " already exist!"
  }

  /**
   * The route's `ResponseContact` model accepts a row only when its birthday is a
   * string; a row whose birthday column is NULL fails it.
   */
  predicate Presentable(c: Contact) {
    c.birthday.Some?
  }

  /** `rows` holds exactly the rows of `table`. */
  ghost predicate ListsTable(rows: set<Contact>, table: map<int, Contact>) {
    && (forall id :: id in table ==> table[id] in rows)
    && (forall c :: c in rows ==> c.id in table && table[c.id] == c)
  }

  /**
   * `GET /`: the repository's full list, with status 200 when every row fits the
   * response model; a single row with a NULL birthday turns the answer into a
   * server error.
   */
  function GetContacts(db: Repo.ContactTable): (r: Reply<set<Contact>>)
    requires db.Valid()
    reads db
    ensures r.Ok? || r.InvalidResponse?
    ensures r.Ok? <==> forall id :: id in db.rows ==> db.rows[id].birthday.Some?
    ensures r.Ok? ==> r.code == OK && ListsTable(r.body, db.rows)
    ensures r.InvalidResponse? ==> ListsTable(r.returned, db.rows)
  {
    var rows := Repo.GetContacts(db);
    if forall c :: c in rows ==> Presentable(c) then Ok(OK, rows) else InvalidResponse(rows)
  }

  /**
   * `GET /{contact_id}` as written: the repository answers a list, which is never
   * `None`, so the 404 branch cannot be taken and the handler returns the
   * (possibly empty) list. That list is not the single contact the route's
   * response model describes, so the client receives a server error instead.
   */
  function GetContact(contactId: int, db: Repo.ContactTable): (r: Reply<set<Contact>>)
    requires db.Valid()
    reads db
    ensures contactId < 1 <==> r == Unprocessable
    ensures contactId >= 1 ==> r.InvalidResponse?
    ensures contactId >= 1 && contactId !in db.rows ==> r.returned == {}
    ensures contactId >= 1 && contactId in db.rows ==> r.returned == {db.rows[contactId]}
  {
    if contactId < 1 then Unprocessable
    else InvalidResponse(Repo.GetContactById(contactId, db))
  }

  /**
   * `GET /{contact_id}` as its 404 check intends: the first row with that id, or
   * 404 "Not Found" when there is none; a row with a NULL birthday still fails
   * the response model.
   */
  function GetContactOr404(contactId: int, db: Repo.ContactTable): (r: Reply<Contact>)
    requires db.Valid()
    reads db
    ensures contactId < 1 <==> r == Unprocessable
    ensures contactId >= 1 ==> (r == Raised(NOT_FOUND, NotFoundDetail) <==> contactId !in db.rows)
    ensures contactId >= 1 && contactId in db.rows && db.rows[contactId].birthday.Some? ==> r == Ok(OK, db.rows[contactId])
    ensures contactId >= 1 && contactId in db.rows && db.rows[contactId].birthday.None? ==> r == InvalidResponse(db.rows[contactId])
  {
    if contactId < 1 then Unprocessable
    else
      var found := Repo.GetContactById(contactId, db);
      if found == {} then Raised(NOT_FOUND, NotFoundDetail)
      else if Presentable(db.rows[contactId]) then Ok(OK, db.rows[contactId])
      else InvalidResponse(db.rows[contactId])
  }

  /** On an id no row has, the handler as written returns an empty list where the 404 check meant "Not Found". */
  lemma UnknownIdIsNeverNotFound(contactId: int, db: Repo.ContactTable)
    requires db.Valid() && contactId >= 1 && contactId !in db.rows
    ensures GetContact(contactId, db) == InvalidResponse({})
    ensures GetContactOr404(contactId, db) == Raised(NOT_FOUND, NotFoundDetail)
  {
  }

  /**
   * `POST /`: a taken email raises 409 and leaves the table alone. Otherwise one
   * row is inserted and returned with status 201, unless no user has the default
   * owner id: then the foreign key refuses the commit and the request rolls back.
   * `userIds` are the primary keys of the `users` table.
   */
  method CreateContact(body: ContactModel, userIds: set<int>, db: Repo.ContactTable) returns (r: Reply<Contact>)
    requires db.Valid()
    modifies db
    ensures db.Valid()
    ensures Repo.EmailHeld(old(db.rows), body.email) ==>
      r == Raised(CONFLICT, DuplicateEmailDetail(body.email)) && unchanged(db)
    ensures !Repo.EmailHeld(old(db.rows), body.email) && DefaultOwnerId !in userIds ==>
      r == RolledBack && unchanged(db)
    ensures !Repo.EmailHeld(old(db.rows), body.email) && DefaultOwnerId in userIds ==>
      && r == Ok(CREATED, Repo.FromModel(old(db.nextId), body))
      && r.body.id !in old(db.rows)
      && db.rows == old(db.rows)[r.body.id := r.body]
      && db.nextId == old(db.nextId) + 1
  {
    var existing := Repo.GetContactByEmail(body.email, db);
    if existing != {} {
      return Raised(CONFLICT, DuplicateEmailDetail(body.email));
    }
    var created := Repo.CreateContact(body, userIds, db);
    match created
    case Some(contact) => r := Ok(CREATED, contact);
    case None => r := RolledBack;
  }

  /**
   * `PATCH /{contact_id}`: 404 on an unknown id; otherwise the row with the body's
   * email and phone. An email held by another row makes the commit fail and roll
   * back. The update is committed before the response model checks the row, so a
   * row with a NULL birthday is saved and still answered with a server error.
   */
  method UpdateContact(body: ContactUpdateModel, contactId: int, db: Repo.ContactTable) returns (r: Reply<Contact>)
    requires db.Valid()
    modifies db
    ensures db.Valid() && db.nextId == old(db.nextId)
    ensures contactId < 1 ==> r == Unprocessable && unchanged(db)
    ensures contactId >= 1 && contactId !in old(db.rows) ==> r == Raised(NOT_FOUND, NotFoundDetail) && unchanged(db)
    ensures contactId >= 1 && contactId in old(db.rows) && Repo.EmailHeldByOther(old(db.rows), body.email, contactId) ==>
      r == RolledBack && unchanged(db)
    ensures contactId >= 1 && contactId in old(db.rows) && !Repo.EmailHeldByOther(old(db.rows), body.email, contactId) ==>
      var updated := old(db.rows)[contactId].(phone := body.phone, email := body.email);
      && db.rows == old(db.rows)[contactId := updated]
      && (updated.birthday.Some? ==> r == Ok(OK, updated))
      && (updated.birthday.None? ==> r == InvalidResponse(updated))
  {
    if contactId < 1 {
      return Unprocessable;
    }
    var owner := Repo.UpdateContact(body, contactId, db);
    match owner
    case NoSuchRow => r := Raised(NOT_FOUND, NotFoundDetail);
    case IntegrityError => r := RolledBack;
    case Saved(contact) => r := if Presentable(contact) then Ok(OK, contact) else InvalidResponse(contact);
  }

  /**
   * `DELETE /{contact_id}`: 404 on an unknown id; otherwise the row is removed and
   * the answer is 204 (the framework sends no body with 204).
   */
  method RemoveContact(contactId: int, db: Repo.ContactTable) returns (r: Reply<Contact>)
    requires db.Valid()
    modifies db
    ensures db.Valid() && db.nextId == old(db.nextId)
    ensures contactId < 1 ==> r == Unprocessable && unchanged(db)
    ensures contactId >= 1 ==> db.rows == old(db.rows) - {contactId}
    ensures contactId >= 1 && contactId !in old(db.rows) ==> r == Raised(NOT_FOUND, NotFoundDetail)
    ensures contactId >= 1 && contactId in old(db.rows) ==> r == Ok(NO_CONTENT, old(db.rows)[contactId])
  {
    if contactId < 1 {
      return Unprocessable;
    }
    var contact := Repo.RemoveContact(contactId, db);
    match contact
    case None => r := Raised(NOT_FOUND, NotFoundDetail);
    case Some(c) => r := Ok(NO_CONTENT, c);
  }

  /** Deleting the same contact twice: the second request finds nothing and answers 404. */
  method RemoveTwice(contactId: int, db: Repo.ContactTable) returns (first: Reply<Contact>, second: Reply<Contact>)
    requires db.Valid() && contactId >= 1
    modifies db
    ensures first == if contactId in old(db.rows) then Ok(NO_CONTENT, old(db.rows)[contactId]) else Raised(NOT_FOUND, NotFoundDetail)
    ensures second == Raised(NOT_FOUND, NotFoundDetail)
    ensures db.rows == old(db.rows) - {contactId}
  {
    first := RemoveContact(contactId, db);
    second := RemoveContact(contactId, db);
  }
}
