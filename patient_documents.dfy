/** The documents page of src/pages/PatientDocuments.tsx: the upload form's validator, the
    category menu, the newest-first list loaded from the chain, and the upload sequence
    (content store first, chain record second). */
module PatientDocuments {
  import opened Wrappers
  import opened Text
  import opened Collections
  import opened AuthContext
  import Pinata
  import opened PatientVitals

  /** A document record as the chain returns it (the `MedicalDocument` interface);
      `dou`, the upload instant, is an integer. */
  datatype MedicalDocument = MedicalDocument(cid: string, name: string, category: string, dou: int, description: string)

  /** A file chosen in the form; only its name reaches the model. */
  datatype FileRef = FileRef(name: string)

  /** The upload form's values. */
  datatype DocumentForm = DocumentForm(title: string, category: string, notes: Option<string>, file: Option<FileRef>)

  /** `fileCategories`. */
  const Categories: seq<string> :=
    ["Lab Report", "Prescription", "Radiology", "Discharge Summary", "Vaccination Record", "Insurance", "Other"]

  /** `documentSchema`: a title of 3 or more characters, a category of 2 or more, a file;
      notes are optional. */
  predicate ValidDocument(f: DocumentForm) {
    |f.title| >= 3 && |f.category| >= 2 && f.file.Some?
  }

  /** Notes never decide validity, and without a file no form is valid. */
  lemma NotesOptional(f: DocumentForm)
    ensures ValidDocument(f) <==> ValidDocument(f.(notes := None))
    ensures f.file.None? ==> !ValidDocument(f)
  {
  }

  /** The menu holds seven distinct categories, and each one passes the category rule. */
  lemma CategoriesAreSelectable()
    ensures |Categories| == 7
    ensures forall i :: 0 <= i < |Categories| ==> |Categories[i]| >= 2
    ensures forall i, j :: 0 <= i < j < |Categories| ==> Categories[i] != Categories[j]
  {
  }

  function UploadedAt(d: MedicalDocument): int { d.dou }

  /** The list as the page stores it: the fetched records sorted newest first. */
  function Library(items: seq<MedicalDocument>): (l: seq<MedicalDocument>)
    ensures NewestFirst(l, UploadedAt)
    ensures multiset(l) == multiset(items)
  {
    SortNewestFirst(items, UploadedAt)
  }

  /** The `uploadFile` record a successful content upload leads to: the content id, the
      title as name, the category, the instant and the notes or "". */
  function Record(cid: string, f: DocumentForm, now: int): (d: MedicalDocument)
    ensures d.cid == cid && d.name == f.title && d.category == f.category && d.dou == now
    ensures f.notes.None? ==> d.description == ""
    ensures f.notes.Some? ==> d.description == f.notes.value
  {
    MedicalDocument(cid, f.title, f.category, now, f.notes.GetOr(""))
  }

  /** The steps a submission got through: the request sent to the content store, if any,
      and the record written to the chain, if any. */
  datatype Submission = Submission(upload: Option<Pinata.Request>, record: Option<MedicalDocument>)

  class DocumentsPage {
    var isLoading: bool
    var loadingDocuments: bool
    var documents: seq<MedicalDocument>
    var activeTab: string
    var previewDocument: Option<MedicalDocument>
    var previewOpen: bool
    var form: DocumentForm

    constructor ()
      ensures !isLoading && !loadingDocuments && documents == [] && activeTab == "files"
      ensures previewDocument.None? && !previewOpen && form == DocumentForm("", "", Some(""), None)
    {
      isLoading, loadingDocuments := false, false;
      documents := [];
      activeTab := "files";
      previewDocument, previewOpen := None, false;
      form := DocumentForm("", "", Some(""), None);
    }

    /** `loadDocuments`: without an address nothing happens; a list read replaces the
        documents with it sorted newest first; any other outcome keeps them. */
    method LoadDocuments(ethAddress: Option<string>, read: ChainRead<MedicalDocument>)
      modifies this
      ensures !Truthy(ethAddress) ==> unchanged(this)
      ensures Truthy(ethAddress) && read.Listed? ==> documents == Library(read.items)
      ensures Truthy(ethAddress) && !read.Listed? ==> documents == old(documents)
      ensures Truthy(ethAddress) ==>
                !loadingDocuments && isLoading == old(isLoading) && activeTab == old(activeTab) &&
                form == old(form) && previewDocument == old(previewDocument) && previewOpen == old(previewOpen)
    {
      if !Truthy(ethAddress) {
        return;
      }
      loadingDocuments := true;
      if read.Listed? {
        documents := Library(read.items);
      }
      loadingDocuments := false;
    }

    /** `previewFile`. */
    method PreviewFile(d: MedicalDocument)
      modifies this
      ensures previewDocument == Some(d) && previewOpen
      ensures documents == old(documents) && isLoading == old(isLoading) && loadingDocuments == old(loadingDocuments)
      ensures activeTab == old(activeTab) && form == old(form)
    {
      previewDocument := Some(d);
      previewOpen := true;
    }

    /** `closePreview`. */
    method ClosePreview()
      modifies this
      ensures previewDocument.None? && !previewOpen
      ensures documents == old(documents) && isLoading == old(isLoading) && loadingDocuments == old(loadingDocuments)
      ensures activeTab == old(activeTab) && form == old(form)
    {
      previewOpen := false;
      previewDocument := None;
    }

    /** `onSubmit`: checks for a user, a wallet address and a file, in that order; uploads
        the file (`pinned` is the content store's answer, `uploadedAt` the clock read for the
        upload's metadata), writes the chain record only for a non-empty content id (stamped
        by a second clock read, `recordedAt`), and on a successful write (`written`) resets
        the form, reloads the list (`reread`) and shows the files tab. The form reaches this
        handler only through `handleSubmit` with the schema resolver, so it is valid, and so
        are the title and category of every record written. */
    method OnSubmit(session: Session, data: DocumentForm, config: Pinata.Config,
                    uploadedAt: int, recordedAt: int, pinned: Result<string, string>, written: bool,
                    reread: ChainRead<MedicalDocument>) returns (done: Submission)
      requires ValidDocument(data)
      modifies this
      ensures done.record.Some? ==> |done.record.value.name| >= 3 && |done.record.value.category| >= 2
      ensures session.user.None? || !Truthy(session.ethAddress) || data.file.None? ==>
                done == Submission(None, None) && unchanged(this)
      ensures session.user.Some? && Truthy(session.ethAddress) && data.file.Some? ==>
                var up := Pinata.Upload(config, data.file.value.name, data.title, data.category, uploadedAt, pinned);
                && done.upload == up.sent
                && (done.record.Some? <==> up.result.Ok? && up.result.value != "")
                && (done.record.Some? ==> done.record.value == Record(up.result.value, data, recordedAt))
                && !isLoading && previewDocument == old(previewDocument) && previewOpen == old(previewOpen)
                && (done.record.Some? && written ==>
                      form == DocumentForm("", "", Some(""), None) && activeTab == "files" && !loadingDocuments &&
                      (reread.Listed? ==> documents == Library(reread.items)) &&
                      (!reread.Listed? ==> documents == old(documents)))
                && (!(done.record.Some? && written) ==>
                      form == old(form) && activeTab == old(activeTab) &&
                      documents == old(documents) && loadingDocuments == old(loadingDocuments))
    {
      done := Submission(None, None);
      if session.user.None? {
        return;
      }
      if !Truthy(session.ethAddress) {
        return;
      }
      if data.file.None? {
        return;
      }
      isLoading := true;
      var up := Pinata.Upload(config, data.file.value.name, data.title, data.category, uploadedAt, pinned);
      done := Submission(up.sent, None);
      if up.result.Ok? && up.result.value != "" {
        done := Submission(up.sent, Some(Record(up.result.value, data, recordedAt)));
        if written {
          form := DocumentForm("", "", Some(""), None);
          LoadDocuments(session.ethAddress, reread);
          activeTab := "files";
        }
      }
      isLoading := false;
    }
  }

  /** No chain record is written unless the credentials are set and the store returned a
      non-empty content id; the record then names that id. */
  lemma RecordFollowsUpload(data: DocumentForm, config: Pinata.Config, now: int, pinned: Result<string, string>)
    requires data.file.Some?
    ensures var up := Pinata.Upload(config, data.file.value.name, data.title, data.category, now, pinned);
            up.result.Ok? && up.result.value != "" <==> Pinata.Configured(config) && pinned.Ok? && pinned.value != ""
  {
  }
}
