/** The form's draft record, the `Contact` interface of the front end. */
module ContactModel {
  datatype Contact = Contact(name: string, email: string, phone: string)

  /** The draft the form starts with and returns to after a successful submit. */
  const EmptyContact: Contact := Contact("", "", "")
}
