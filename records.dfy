/**
 * The records the pages exchange through the browser's key/value store, and
 * the store itself. The store holds two keys: "complaints" (the list of filed
 * complaints) and "auth" (the signed-in identity); a key that was never
 * written is `None`. JSON encoding is not modelled: values are kept as the
 * records they encode.
 */
module Records {
  import opened Common

  /** An uploaded evidence file, kept opaque: only its name is modelled. */
  datatype EvidenceFile = EvidenceFile(fileName: string)

  /** The guidance block attached to a complaint; demo complaints carry only a title and steps. */
  datatype Guidance = Guidance(
    title: string,
    steps: seq<string>,
    estimatedTime: Option<string>,
    complaintId: Option<string>)

  /** The contact and incident fields that a complaint filed through the wizard carries. */
  datatype ContactDetails = ContactDetails(
    email: string,
    phone: string,
    incidentDate: string,
    location: string,
    evidenceFiles: seq<EvidenceFile>)

  /** One stored complaint. */
  datatype Complaint = Complaint(
    id: string,
    name: string,
    crimeType: string,
    description: string,
    status: string,
    filedDate: string,
    contact: Option<ContactDetails>,
    aiGuidance: Option<Guidance>)

  /** The identity written under the "auth" key at sign-in. */
  datatype AuthRecord = AuthRecord(isAuthenticated: bool, role: string, email: string, name: string)

  /** The browser's local storage, shared by all pages. */
  class BrowserStore {
    var complaints: Option<seq<Complaint>>
    var auth: Option<AuthRecord>

    /** A fresh browser profile: neither key has been written. */
    constructor ()
      ensures complaints == None && auth == None
    {
      complaints := None;
      auth := None;
    }
  }
}
