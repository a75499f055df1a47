/**
 * The contacts table and the repository functions over it. Each query reads the
 * table; `CreateContact`, `UpdateContact` and `RemoveContact` change it in place.
 * A query answers a set because the SQL queries carry no ORDER BY.
 */
module ContactRepository {
  import opened Wrappers
  import opened Models
  import opened IsoDates

  /** The `contacts` table: rows keyed by their primary key, and the next key the id sequence hands out. */
  class ContactTable {
    var rows: map<int, Contact>
    var nextId: int

    /** What the database guarantees: each row sits under its own id, ids come from the sequence, emails are unique. */
    ghost predicate Valid()
      reads this
    {
      && 1 <= nextId
      && (forall id :: id in rows ==> rows[id].id == id && 1 <= id < nextId)
      && (forall i, j :: i in rows && j in rows && rows[i].email == rows[j].email ==> i == j)
    }

    constructor ()
      ensures Valid() && rows == map[] && nextId == 1
    {
      rows := map[];
      nextId := 1;
    }
  }

  /** A Python argument that is truthy: present and not the empty string. */
  predicate Given(arg: Option<string>) {
    arg.Some? && arg.value != ""
  }

  /** Every row has a birthday: what a table written only through the API looks like. */
  predicate BirthdaysGiven(rows: map<int, Contact>) {
    forall id :: id in rows ==> rows[id].birthday.Some?
  }

  /** Some row already holds `email`. */
  predicate EmailHeld(rows: map<int, Contact>, email: string) {
    exists id :: id in rows && rows[id].email == email
  }

  /** Some row other than `except` already holds `email`. */
  predicate EmailHeldByOther(rows: map<int, Contact>, email: string, except: int) {
    exists id :: id in rows && id != except && rows[id].email == email
  }

  /** `get_contacts`: every row of the table, whoever owns it. */
  function GetContacts(db: ContactTable): (r: set<Contact>)
    requires db.Valid()
    reads db
    ensures forall c :: c in r <==> c.id in db.rows && db.rows[c.id] == c
  {
    set id | id in db.rows :: db.rows[id]
  }

  /** `get_contact_by_id`: the list of rows whose id is `contactId`; the primary key makes it the row or nothing. */
  function GetContactById(contactId: int, db: ContactTable): (r: set<Contact>)
    requires db.Valid()
    reads db
    ensures r == if contactId in db.rows then {db.rows[contactId]} else {}
  {
    set c | c in GetContacts(db) && c.id == contactId
  }

  /** `get_contact_by_email`: the rows holding `email`, empty exactly when no row holds it. */
  function GetContactByEmail(email: string, db: ContactTable): (r: set<Contact>)
    requires db.Valid()
    reads db
    ensures r == {} <==> !EmailHeld(db.rows, email)
    ensures forall c :: c in r ==> c.email == email && c.id in db.rows && db.rows[c.id] == c
  {
    var r := set c | c in GetContacts(db) && c.email == email;
    assert EmailHeld(db.rows, email) ==> r != {} by {
      if EmailHeld(db.rows, email) {
        var id :| id in db.rows && db.rows[id].email == email;
        assert db.rows[id] in r;
      }
    }
    r
  }

  /** Unique emails make the email lookup answer at most one row. */
  lemma {:induction false} EmailLookupAtMostOne(email: string, db: ContactTable)
    requires db.Valid()
    ensures |GetContactByEmail(email, db)| <= 1
  {
    var r := GetContactByEmail(email, db);
    if r != {} {
      var x :| x in r;
      forall y | y in r ensures y == x {
        assert db.rows[x.id].email == db.rows[y.id].email;
      }
      assert r == {x};
    }
  }

  /** The row `c` satisfies every truthy filter argument. */
  predicate MatchesFilter(c: Contact, firstname: Option<string>, lastname: Option<string>, email: Option<string>) {
    && (Given(firstname) ==> c.firstname == firstname.value)
    && (Given(lastname) ==> c.lastname == lastname.value)
    && (Given(email) ==> c.email == email.value)
  }

  /**
   * `get_contact_by_filter`: starts from the whole table and narrows it once for
   * each truthy argument, so it answers the rows matching all of them.
   */
  function GetContactByFilter(db: ContactTable, firstname: Option<string>, lastname: Option<string>, email: Option<string>): (r: set<Contact>)
    requires db.Valid()
    reads db
    ensures forall c :: c in r <==> c in GetContacts(db) && MatchesFilter(c, firstname, lastname, email)
  {
    var query := GetContacts(db);
    var query := if Given(firstname) then set c | c in query && c.firstname == firstname.value else query;
    var query := if Given(lastname) then set c | c in query && c.lastname == lastname.value else query;
    var query := if Given(email) then set c | c in query && c.email == email.value else query;
    query
  }

  /** With no truthy argument the filter adds no condition and answers the whole table. */
  lemma FilterWithoutArgumentsIsEverything(db: ContactTable, firstname: Option<string>, lastname: Option<string>, email: Option<string>)
    requires db.Valid()
    requires !Given(firstname) && !Given(lastname) && !Given(email)
    ensures GetContactByFilter(db, firstname, lastname, email) == GetContacts(db)
  {
  }

  /** Filtering on a non-empty email alone is the email lookup. */
  lemma FilterOnEmailIsEmailLookup(db: ContactTable, email: string)
    requires db.Valid() && email != ""
    ensures GetContactByFilter(db, None, None, Some(email)) == GetContactByEmail(email, db)
  {
  }

  /**
   * `get_contact_by_lastname`: `filter_by(lastname=...)` alone; the other two
   * arguments are accepted and ignored. A missing lastname becomes `IS NULL`,
   * which no row (all of whose lastnames are strings) satisfies.
   */
  function GetContactByLastname(db: ContactTable, firstname: Option<string>, lastname: Option<string>, email: Option<string>): (r: set<Contact>)
    requires db.Valid()
    reads db
    ensures lastname.None? ==> r == {}
    ensures lastname.Some? ==> forall c :: c in r <==> c in GetContacts(db) && c.lastname == lastname.value
  {
    set c | c in GetContacts(db) && lastname == Some(c.lastname)
  }

  /**
   * The lastname lookup and the general filter agree on a non-empty lastname. On
   * the empty string they part: the filter treats it as absent and answers the
   * whole table, the lookup answers only rows whose lastname is empty.
   */
  lemma LastnameLookupVersusFilter(db: ContactTable, firstname: Option<string>, lastname: string, email: Option<string>)
    requires db.Valid()
    ensures lastname != "" ==> GetContactByLastname(db, firstname, Some(lastname), email) == GetContactByFilter(db, None, Some(lastname), None)
    ensures lastname == "" ==> GetContactByFilter(db, None, Some(lastname), None) == GetContacts(db)
    ensures lastname == "" ==> forall c :: c in GetContactByLastname(db, firstname, Some(lastname), email) ==> c.lastname == ""
  {
  }

  /** The birthday window's test on one row: strictly after `low`, at most `high`, and never a null birthday. */
  predicate InWindow(birthday: Option<string>, low: string, high: string) {
    birthday.Some? && StrLess(low, birthday.value) && StrLessEq(birthday.value, high)
  }

  /**
   * `contacts_per_days`: the rows whose birthday text lies in the window from
   * `today` (excluded) to `future` (included), both rendered as `%Y-%m-%d`.
   * `future` stands for `today + timedelta(days)`, which the caller computes.
   */
  function ContactsPerDays(today: Date, future: Date, db: ContactTable): (r: set<Contact>)
    requires db.Valid() && ValidDate(today) && ValidDate(future)
    reads db
    ensures forall c :: c in r ==> c in GetContacts(db) && c.birthday.Some?
  {
    var todayStr := Format(today);
    var futureStr := Format(future);
    set c | c in GetContacts(db) && InWindow(c.birthday, todayStr, futureStr)
  }

  /** A stored birthday in `%Y-%m-%d` form is in the window exactly when its date is after today and not after `future`. */
  lemma BirthdayWindowIsDateWindow(today: Date, future: Date, birthday: Date, db: ContactTable, c: Contact)
    requires ValidDate(today) && ValidDate(future) && ValidDate(birthday)
    requires db.Valid() && c in GetContacts(db) && c.birthday == Some(Format(birthday))
    ensures c in ContactsPerDays(today, future, db) <==> Before(today, birthday) && (Before(birthday, future) || birthday == future)
  {
    FormatOrder(today, birthday);
    FormatOrder(birthday, future);
  }

  /** The window excludes today and includes its last day. */
  lemma WindowBounds(today: Date, future: Date, db: ContactTable, c: Contact)
    requires db.Valid() && ValidDate(today) && ValidDate(future) && c in GetContacts(db)
    ensures c.birthday == Some(Format(today)) ==> c !in ContactsPerDays(today, future, db)
    ensures c.birthday == Some(Format(future)) && Before(today, future) ==> c in ContactsPerDays(today, future, db)
  {
    if c.birthday == Some(Format(today)) {
      BirthdayWindowIsDateWindow(today, future, today, db, c);
    }
    if c.birthday == Some(Format(future)) {
      BirthdayWindowIsDateWindow(today, future, future, db, c);
    }
  }

  /**
   * The window compares whole dates, birth year included: a birthday stored with
   * a year before today's is never answered, whatever the window.
   */
  lemma EarlierBirthYearNeverInWindow(today: Date, future: Date, birthday: Date, db: ContactTable, c: Contact)
    requires ValidDate(today) && ValidDate(future) && ValidDate(birthday)
    requires db.Valid() && c in GetContacts(db) && c.birthday == Some(Format(birthday))
    requires birthday.year < today.year
    ensures c !in ContactsPerDays(today, future, db)
  {
    BirthdayWindowIsDateWindow(today, future, birthday, db, c);
  }

  /** The row `create_contact` builds from a body: a birthday is always given, the owner takes the column default. */
  function FromModel(id: int, body: ContactModel): Contact {
    Contact(id, body.firstname, body.lastname, body.email, body.phone, Some(body.birthday), DefaultOwnerId)
  }

  /**
   * `create_contact`: inserts one row carrying the body's fields under the next id
   * and returns it. The commit is refused, the transaction rolls back and nothing
   * changes when the email is already held (unique constraint) or when no user
   * has the default owner id (the `user_id` foreign key); `userIds` are the
   * primary keys of the `users` table at commit time.
   */
  method CreateContact(body: ContactModel, userIds: set<int>, db: ContactTable) returns (r: Option<Contact>)
    requires db.Valid()
    modifies db
    ensures db.Valid()
    ensures BirthdaysGiven(old(db.rows)) ==> BirthdaysGiven(db.rows)
    ensures r.None? <==> EmailHeld(old(db.rows), body.email) || DefaultOwnerId !in userIds
    ensures r.None? ==> unchanged(db)
    ensures r.Some? ==> && r.value == FromModel(old(db.nextId), body)
                        && r.value.id !in old(db.rows)
                        && db.rows == old(db.rows)[r.value.id := r.value]
                        && db.nextId == old(db.nextId) + 1
  {
    if (exists id :: id in db.rows && db.rows[id].email == body.email) || DefaultOwnerId !in userIds {
      r := None;
    } else {
      var contact := FromModel(db.nextId, body);
      db.rows := db.rows[contact.id := contact];
      db.nextId := db.nextId + 1;
      r := Some(contact);
    }
  }

  /** What `update_contact` ends with: the saved row, no row under that id, or a refused commit. */
  datatype Saved = Saved(contact: Contact) | NoSuchRow | IntegrityError

  /**
   * `update_contact`: on an existing id, sets the row's phone and email to the
   * body's and returns the row; every other field and every other row stay as
   * they were. On an absent id it returns nothing. If another row already holds
   * the new email, the commit is refused and nothing changes.
   */
  method UpdateContact(body: ContactUpdateModel, contactId: int, db: ContactTable) returns (r: Saved)
    requires db.Valid()
    modifies db
    ensures db.Valid() && db.nextId == old(db.nextId)
    ensures BirthdaysGiven(old(db.rows)) ==> BirthdaysGiven(db.rows)
    ensures r.NoSuchRow? <==> contactId !in old(db.rows)
    ensures r.IntegrityError? <==> contactId in old(db.rows) && EmailHeldByOther(old(db.rows), body.email, contactId)
    ensures !r.Saved? ==> unchanged(db)
    ensures r.Saved? ==> && contactId in old(db.rows)
                         && r.contact == old(db.rows)[contactId].(phone := body.phone, email := body.email)
                         && db.rows == old(db.rows)[contactId := r.contact]
  {
    if contactId !in db.rows {
      r := NoSuchRow;
    } else if exists id :: id in db.rows && id != contactId && db.rows[id].email == body.email {
      r := IntegrityError;
    } else {
      var contact := db.rows[contactId].(phone := body.phone, email := body.email);
      db.rows := db.rows[contactId := contact];
      r := Saved(contact);
    }
  }

  /**
   * `remove_contact`: deletes the row with that id and returns it, or returns
   * nothing when there is none; either way no row with that id remains.
   */
  method RemoveContact(contactId: int, db: ContactTable) returns (r: Option<Contact>)
    requires db.Valid()
    modifies db
    ensures db.Valid() && db.nextId == old(db.nextId)
    ensures BirthdaysGiven(old(db.rows)) ==> BirthdaysGiven(db.rows)
    ensures r == if contactId in old(db.rows) then Some(old(db.rows)[contactId]) else None
    ensures db.rows == old(db.rows) - {contactId}
  {
    if contactId in db.rows {
      r := Some(db.rows[contactId]);
      db.rows := db.rows - {contactId};
    } else {
      r := None;
    }
  }
}
