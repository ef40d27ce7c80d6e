/**
 * The document workspace of frontend/src/components/Dashboard.tsx: the listed documents
 * `pdfs` and the viewed document `selectedPdf`, driven by the session and by the answers
 * of the document service.
 */
module Dashboard {
  import opened Wrappers
  import opened AuthContext

  /** A status for which the HTTP client resolves instead of throwing. */
  type SuccessStatus = s: int | 200 <= s < 300 witness 200

  /** How a request ends: resolved with a 2xx status and a body, or thrown with a message. */
  datatype Reply<T> = Resolved(status: SuccessStatus, data: T) | Rejected(message: string)

  /** One item of the listing: the JSON shape the client receives from `GET /pdfs`. */
  datatype Summary = Summary(pdfId: string, filename: string)

  /**
   * A fetched document: the JSON shape the client receives from `GET /pdf/{id}`, a name and
   * base64 content (no identifier).
   */
  datatype Detail = Detail(filename: string, content: string)

  /** The file picked in the upload control. */
  datatype File = File(name: string, content: string)

  /** A request issued to the service, with the bearer value read from the storage slot. */
  datatype Request =
    | ListRequest(bearer: Option<string>)
    | UploadRequest(bearer: Option<string>, file: File)
    | ViewRequest(bearer: Option<string>, pdfId: string)

  /** What the workspace shows when it shows anything. */
  datatype Listing = NoPdfsAvailable | Documents(items: seq<Summary>)
  datatype Viewer = SelectPrompt | Embedded(title: string, source: string)
  datatype Page = Page(welcome: string, listing: Listing, viewer: Viewer)

  const LoginRoute := "/login"
  const ListStatusAlert := "Failed to fetch pdfs"
  const ListErrorPrefix := "Failed to fetch PDFs: "
  const UploadErrorPrefix := "Failed to upload PDF: "
  const ViewErrorPrefix := "Failed to view PDF: "
  const PdfDataPrefix := "data:application/pdf;base64,"

  /** The list that `fetchPdfs` leaves in place after a reply. */
  function ListedPdfs(current: seq<Summary>, reply: Reply<Option<seq<Summary>>>): (next: seq<Summary>)
    ensures reply.Resolved? && reply.status == 200 && reply.data.Some? ==> next == reply.data.value
    ensures reply.Resolved? && reply.status == 200 && reply.data.None? ==> next == []
    ensures !(reply.Resolved? && reply.status == 200) ==> next == current
  {
    match reply
    case Resolved(status, data) =>
      if status != 200 then current
      else if data.Some? then data.value else []
    case Rejected(_) => current
  }

  /** The alerts that `fetchPdfs` raises after a reply: none exactly when the list is taken. */
  function ListAlerts(reply: Reply<Option<seq<Summary>>>): (alerts: seq<string>)
    ensures alerts == [] <==> reply.Resolved? && reply.status == 200
    ensures reply.Resolved? && reply.status != 200 ==> alerts == [ListStatusAlert]
    ensures reply.Rejected? ==> alerts == [ListErrorPrefix + reply.message]
  {
    match reply
    case Resolved(status, _) => if status == 200 then [] else [ListStatusAlert]
    case Rejected(message) => [ListErrorPrefix + message]
  }

  class Workspace {
    /** The session from `useAuth`. */
    const auth: AuthProvider
    var pdfs: seq<Summary>
    var selectedPdf: Option<Detail>
    /** Requests issued to the service, oldest first. */
    var sent: seq<Request>
    /** Messages shown with `alert`, oldest first. */
    var alerts: seq<string>
    /** Routes passed to `navigate`, oldest first. */
    var navigations: seq<string>

    /**
     * The session keeps its invariant, and every request the workspace has issued carried
     * a stored token: requests are issued only while a user is signed in.
     */
    ghost predicate Valid()
      reads this, auth
    {
      && auth.Valid()
      && forall k :: 0 <= k < |sent| ==> sent[k].bearer.Some?
    }

    /**
     * JavaScript's truthiness of `user`: absent and the empty name both count as signed out.
     */
    predicate SignedIn()
      reads this, auth
    {
      auth.user.Some? && auth.user.value != ""
    }

    /** A mounted workspace lists nothing, views nothing and has issued nothing. */
    constructor (auth: AuthProvider)
      requires auth.Valid()
      ensures Valid()
      ensures this.auth == auth
      ensures pdfs == [] && selectedPdf == None
      ensures sent == [] && alerts == [] && navigations == []
    {
      this.auth := auth;
      pdfs := [];
      selectedPdf := None;
      sent := [];
      alerts := [];
      navigations := [];
    }

    /**
     * `fetchPdfs`: lists the documents and takes the list only from a 200 answer. It runs
     * only from the effect with a user present or after an upload from the rendered page.
     */
    method FetchPdfs(reply: Reply<Option<seq<Summary>>>)
      requires Valid() && SignedIn()
      modifies this
      ensures Valid()
      ensures sent == old(sent) + [ListRequest(auth.storedToken)]
      ensures pdfs == ListedPdfs(old(pdfs), reply)
      ensures alerts == old(alerts) + ListAlerts(reply)
      ensures selectedPdf == old(selectedPdf) && navigations == old(navigations)
    {
      sent := sent + [ListRequest(auth.storedToken)];
      match reply
      case Resolved(status, data) =>
        if status == 200 {
          pdfs := if data.Some? then data.value else [];
        } else {
          alerts := alerts + [ListStatusAlert];
        }
      case Rejected(message) =>
        alerts := alerts + [ListErrorPrefix + message];
    }

    /** The effect on `user`: without a user go to the login route, with one fetch the list. */
    method OnUserChange(reply: Reply<Option<seq<Summary>>>)
      requires Valid()
      modifies this
      ensures Valid()
      ensures !SignedIn() ==>
        && navigations == old(navigations) + [LoginRoute]
        && sent == old(sent) && pdfs == old(pdfs) && alerts == old(alerts)
        && selectedPdf == old(selectedPdf)
      ensures SignedIn() ==>
        && navigations == old(navigations)
        && sent == old(sent) + [ListRequest(auth.storedToken)]
        && pdfs == ListedPdfs(old(pdfs), reply)
        && alerts == old(alerts) + ListAlerts(reply)
        && selectedPdf == old(selectedPdf)
    {
      if !SignedIn() {
        navigations := navigations + [LoginRoute];
      } else {
        FetchPdfs(reply);
      }
    }

    /**
     * `handleFileUpload`: without a file nothing happens; otherwise the file is posted, and
     * only an accepted upload is followed by a fresh listing. The upload control exists only
     * on the rendered page, so a user is signed in.
     */
    method HandleFileUpload(file: Option<File>, upload: Reply<()>, relist: Reply<Option<seq<Summary>>>)
      requires Valid() && SignedIn()
      modifies this
      ensures Valid()
      ensures selectedPdf == old(selectedPdf) && navigations == old(navigations)
      ensures file.None? ==> sent == old(sent) && pdfs == old(pdfs) && alerts == old(alerts)
      ensures file.Some? && upload.Rejected? ==>
        && sent == old(sent) + [UploadRequest(auth.storedToken, file.value)]
        && pdfs == old(pdfs)
        && alerts == old(alerts) + [UploadErrorPrefix + upload.message]
      ensures file.Some? && upload.Resolved? ==>
        && sent == old(sent) + [UploadRequest(auth.storedToken, file.value), ListRequest(auth.storedToken)]
        && pdfs == ListedPdfs(old(pdfs), relist)
        && alerts == old(alerts) + ListAlerts(relist)
    {
      if file.None? {
        return;
      }
      sent := sent + [UploadRequest(auth.storedToken, file.value)];
      match upload
      case Rejected(message) =>
        alerts := alerts + [UploadErrorPrefix + message];
      case Resolved(_, _) =>
        FetchPdfs(relist);
    }

    /**
     * `viewPdf`: an answer replaces the selection entirely, a failure keeps it. The document
     * buttons exist only on the rendered page, so a user is signed in.
     */
    method ViewPdf(pdfId: string, reply: Reply<Detail>)
      requires Valid() && SignedIn()
      modifies this
      ensures Valid()
      ensures sent == old(sent) + [ViewRequest(auth.storedToken, pdfId)]
      ensures pdfs == old(pdfs) && navigations == old(navigations)
      ensures reply.Resolved? ==> selectedPdf == Some(reply.data) && alerts == old(alerts)
      ensures reply.Rejected? ==>
        selectedPdf == old(selectedPdf) && alerts == old(alerts) + [ViewErrorPrefix + reply.message]
    {
      sent := sent + [ViewRequest(auth.storedToken, pdfId)];
      match reply
      case Resolved(_, data) =>
        selectedPdf := Some(data);
      case Rejected(message) =>
        alerts := alerts + [ViewErrorPrefix + message];
    }

    /** `handleLogout`: signs out and goes to the login route; the workspace then renders nothing. */
    method HandleLogout()
      requires Valid()
      modifies this, auth
      ensures Valid()
      ensures auth.user == None && auth.storedToken == None
      ensures navigations == old(navigations) + [LoginRoute]
      ensures pdfs == old(pdfs) && selectedPdf == old(selectedPdf)
      ensures sent == old(sent) && alerts == old(alerts)
      ensures Render() == None
    {
      auth.Logout();
      navigations := navigations + [LoginRoute];
    }

    /** What the workspace draws: nothing without a user, else the listing and the viewer. */
    function Render(): (page: Option<Page>)
      reads this, auth
      ensures page.None? <==> !SignedIn()
      ensures page.Some? ==> page.value.welcome == "Welcome, " + auth.user.value
      ensures page.Some? ==> (page.value.listing == NoPdfsAvailable <==> pdfs == [])
      ensures page.Some? && pdfs != [] ==> page.value.listing == Documents(pdfs)
      ensures page.Some? ==> (page.value.viewer.Embedded? <==> selectedPdf.Some?)
      ensures page.Some? && selectedPdf.Some? ==>
        page.value.viewer == Embedded(selectedPdf.value.filename, PdfDataPrefix + selectedPdf.value.content)
    {
      if !SignedIn() then None
      else
        var name := auth.user.value;
        var listing := if pdfs == [] then NoPdfsAvailable else Documents(pdfs);
        var viewer := match selectedPdf
          case None => SelectPrompt
          case Some(pdf) => Embedded(pdf.filename, PdfDataPrefix + pdf.content);
        Some(Page("Welcome, " + name, listing, viewer))
    }
  }
}
