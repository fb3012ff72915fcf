/** The ASP.NET controller behind the form: `GetContacts` lists the stored
    contacts and `CreateContact` stores one after a presence check. */
module ContactsApi {
  import opened Wrappers
  import opened Text

  /** The `Contact` the controller binds from the request body; `None` is a
      property that is `null` (absent from the JSON). */
  datatype ContactRecord = ContactRecord(name: Option<string>, email: Option<string>,
                                         phone: Option<string>)

  /** `string.IsNullOrWhiteSpace`. */
  predicate IsNullOrWhiteSpace(s: Option<string>) {
    s.None? || forall i :: 0 <= i < |s.value| ==> IsDotNetWhiteSpace(s.value[i])
  }

  /** The presence check of `CreateContact`: some field is null, empty or
      only white space. No format is checked. */
  predicate HasMissingField(c: ContactRecord) {
    IsNullOrWhiteSpace(c.name) || IsNullOrWhiteSpace(c.email) || IsNullOrWhiteSpace(c.phone)
  }

  const AllFieldsRequired: string := "All fields are required."

  /** The two answers of `CreateContact`: 400 with a message, or 200 echoing
      the stored contact. */
  datatype Response = BadRequest(message: string) | Ok(contact: ContactRecord)

  /** The contacts table of the database context. The model keeps the rows
      in insertion order; the database itself promises no order. */
  class AppDbContext {
    var contacts: seq<ContactRecord>

    constructor(rows: seq<ContactRecord>)
      ensures contacts == rows
    {
      contacts := rows;
    }

    /** `Contacts.Add` followed by `SaveChangesAsync`: the row is appended. */
    method Add(c: ContactRecord)
      modifies this
      ensures contacts == old(contacts) + [c]
    {
      contacts := contacts + [c];
    }
  }

  /** Every stored row passes the presence check. */
  predicate AllComplete(rows: seq<ContactRecord>) {
    forall i :: 0 <= i < |rows| ==> !HasMissingField(rows[i])
  }

  class ContactsController {
    const dbContext: AppDbContext

    constructor(db: AppDbContext)
      ensures dbContext == db
    {
      dbContext := db;
    }

    /** `GetContacts`: the whole table, in the order the model keeps it. */
    method GetContacts() returns (rows: seq<ContactRecord>)
      ensures rows == dbContext.contacts
    {
      rows := dbContext.contacts;
    }

    /** `CreateContact`: a contact with a null or blank field is refused with
        400 and nothing is stored; any other contact is appended to the table
        as it is, whatever its format, and echoed back with 200. */
    method CreateContact(c: ContactRecord) returns (r: Response)
      modifies dbContext
      ensures r.BadRequest? <==> HasMissingField(c)
      ensures r.BadRequest? ==> r.message == AllFieldsRequired
                                && dbContext.contacts == old(dbContext.contacts)
      ensures r.Ok? ==> r.contact == c && dbContext.contacts == old(dbContext.contacts) + [c]
      ensures AllComplete(old(dbContext.contacts)) ==> AllComplete(dbContext.contacts)
    {
      if IsNullOrWhiteSpace(c.name) || IsNullOrWhiteSpace(c.email) || IsNullOrWhiteSpace(c.phone) {
        return BadRequest(AllFieldsRequired);
      }
      dbContext.Add(c);
      r := Ok(c);
    }
  }
}
