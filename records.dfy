/** The stored records the visit forms read. */
module Records {
  import opened Wrappers

  datatype Customer = Customer(id: int, companyName: string)

  /** A contact person; `customerId` is the company it belongs to. */
  datatype Contact = Contact(id: int, customerId: int, contactName: string)

  /**
   * The columns of a stored visit that the forms consult: its primary key
   * (`None` while unsaved), its company and its recorded contract outcome.
   */
  datatype VisitRecord = VisitRecord(pk: Option<int>, companyNameId: Option<int>, contractOutcome: Option<string>)

  function CompanyName(c: Customer): string {
    c.companyName
  }

  function ContactName(c: Contact): string {
    c.contactName
  }
}
