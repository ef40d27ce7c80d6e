/**
 * The in-memory document service of backend/main.py: a store of users and their PDF
 * documents, changed by registration and upload, read by login, listing and fetching.
 */
module DocumentService {
  import opened Wrappers
  import opened PdfIds

  /** An HTTP error response: its status code and its `detail` text. */
  datatype HttpError = HttpError(status: nat, detail: string)

  const UsernameExists := HttpError(400, "Username already exists")
  const InvalidCredentials := HttpError(401, "Invalid credentials")
  const TokenExpired := HttpError(401, "Token has expired")
  const InvalidToken := HttpError(401, "Invalid token")
  const OnlyPdfAllowed := HttpError(400, "Only PDF files are allowed")
  const PdfNotFound := HttpError(404, "PDF not found")

  const Registered := "User registered successfully"
  const PdfSuffix := ".pdf"

  /**
   * A bearer token as the service decodes it: signed and current, naming its subject;
   * past its expiry; or not decodable with the service's key.
   */
  datatype Token = Signed(subject: string) | Expired | Invalid

  /** A stored document: the uploaded file's name and its (encoded) content. */
  datatype Doc = Doc(filename: string, content: string)

  /** One item of a user's document dictionary. */
  datatype Entry = Entry(id: string, doc: Doc)

  /** One item of a listing: identifier and file name, never the content. */
  datatype Summary = Summary(pdfId: string, filename: string)

  /** Python's `s.endswith(suffix)`: case-sensitive. */
  function EndsWith(s: string, suffix: string): (b: bool)
    ensures b <==> exists p :: s == p + suffix
  {
    if |suffix| <= |s| && s[|s| - |suffix|..] == suffix then
      assert s == s[..|s| - |suffix|] + suffix;
      true
    else
      assert forall p :: s == p + suffix ==> s[|p|..] == suffix;
      false
  }

  /** The key `id` is present in a document dictionary. */
  predicate HasId(es: seq<Entry>, id: string)
  {
    exists k :: 0 <= k < |es| && es[k].id == id
  }

  /** Past a first entry with another key, the key is present in the rest iff in the whole. */
  lemma HasIdTail(es: seq<Entry>, id: string)
    requires es != [] && es[0].id != id
    ensures HasId(es[1..], id) <==> HasId(es, id)
  {
    if HasId(es[1..], id) {
      var k :| 0 <= k < |es| - 1 && es[1..][k].id == id;
      assert es[k + 1].id == id;
    }
    if HasId(es, id) {
      var k :| 0 <= k < |es| && es[k].id == id;
      assert es[1..][k - 1].id == id;
    }
  }

  /** Dictionary read `d[id]` guarded by `id in d`. */
  function Lookup(es: seq<Entry>, id: string): (r: Option<Doc>)
    ensures r.Some? <==> HasId(es, id)
    ensures r.Some? ==> Entry(id, r.value) in es
    decreases |es|
  {
    if es == [] then None
    else if es[0].id == id then Some(es[0].doc)
    else
      HasIdTail(es, id);
      Lookup(es[1..], id)
  }

  /**
   * Dictionary assignment `d[id] = doc` on an insertion-ordered dictionary: a present key
   * keeps its place and takes the new value, an absent key is appended.
   */
  function Put(es: seq<Entry>, id: string, doc: Doc): (r: seq<Entry>)
    ensures !HasId(es, id) ==> r == es + [Entry(id, doc)]
    ensures HasId(es, id) ==> |r| == |es| && forall k :: 0 <= k < |es| ==> r[k].id == es[k].id
    ensures forall k :: 0 <= k < |es| && es[k].id != id ==> k < |r| && r[k] == es[k]
    ensures Lookup(r, id) == Some(doc)
    decreases |es|
  {
    if es == [] then [Entry(id, doc)]
    else if es[0].id == id then [Entry(id, doc)] + es[1..]
    else
      HasIdTail(es, id);
      var rest := Put(es[1..], id, doc);
      assert ([es[0]] + rest)[1..] == rest;
      [es[0]] + rest
  }

  /** The list comprehension of `get_pdfs`: one summary per entry, in dictionary order. */
  function Summaries(es: seq<Entry>): (r: seq<Summary>)
    ensures |r| == |es|
    ensures forall k :: 0 <= k < |es| ==> r[k] == Summary(es[k].id, es[k].doc.filename)
    decreases |es|
  {
    if es == [] then [] else [Summary(es[0].id, es[0].doc.filename)] + Summaries(es[1..])
  }

  /** `db['pdfs'].get(user, {})`. */
  function EntriesOf(pdfs: map<string, seq<Entry>>, user: string): seq<Entry>
  {
    if user in pdfs then pdfs[user] else []
  }

  /** A user's keys are exactly `user_0 .. user_{n-1}`, in that order. */
  ghost predicate WellNumbered(user: string, es: seq<Entry>)
  {
    forall k :: 0 <= k < |es| ==> es[k].id == PdfId(user, k)
  }

  /** The identifier an upload assigns is not yet a key of the user's dictionary. */
  lemma NextIdIsFresh(user: string, es: seq<Entry>)
    requires WellNumbered(user, es)
    ensures !HasId(es, PdfId(user, |es|))
  {
    if HasId(es, PdfId(user, |es|)) {
      var k :| 0 <= k < |es| && es[k].id == PdfId(user, |es|);
      PdfIdInjective(user, k, |es|);
    }
  }

  /** In a well-numbered dictionary an identifier names at most one document. */
  lemma IdDeterminesDoc(user: string, es: seq<Entry>, id: string, d1: Doc, d2: Doc)
    requires WellNumbered(user, es)
    requires Entry(id, d1) in es && Entry(id, d2) in es
    ensures d1 == d2
  {
    var j :| 0 <= j < |es| && es[j] == Entry(id, d1);
    var k :| 0 <= k < |es| && es[k] == Entry(id, d2);
    PdfIdInjective(user, j, k);
  }

  /** Appending the next identifier keeps a dictionary well numbered. */
  lemma ExtendNumbering(user: string, es: seq<Entry>, doc: Doc)
    requires WellNumbered(user, es)
    ensures WellNumbered(user, es + [Entry(PdfId(user, |es|), doc)])
  {
  }

  /**
   * Uploading appends exactly one entry under a fresh identifier, keeps the numbering,
   * and fetching that identifier afterwards yields the uploaded document.
   */
  lemma UploadThenFetch(user: string, es: seq<Entry>, doc: Doc)
    requires WellNumbered(user, es)
    ensures Put(es, PdfId(user, |es|), doc) == es + [Entry(PdfId(user, |es|), doc)]
    ensures WellNumbered(user, es + [Entry(PdfId(user, |es|), doc)])
    ensures Lookup(es + [Entry(PdfId(user, |es|), doc)], PdfId(user, |es|)) == Some(doc)
  {
    var id := PdfId(user, |es|);
    NextIdIsFresh(user, es);
    assert Put(es, id, doc) == es + [Entry(id, doc)];
    ExtendNumbering(user, es, doc);
  }

  /**
   * Only registered users own documents, a user's dictionary exists only once it holds
   * a document, and its keys are `user_0 .. user_{n-1}`.
   */
  ghost predicate WellFormed(users: map<string, string>, pdfs: map<string, seq<Entry>>)
  {
    forall u :: u in pdfs ==> u in users && pdfs[u] != [] && WellNumbered(u, pdfs[u])
  }

  /** An upload by a registered user keeps the store well formed. */
  lemma UploadKeepsWellFormed(users: map<string, string>, pdfs: map<string, seq<Entry>>, user: string, doc: Doc)
    requires WellFormed(users, pdfs) && user in users
    ensures var before := EntriesOf(pdfs, user);
      WellFormed(users, pdfs[user := before + [Entry(PdfId(user, |before|), doc)]])
  {
    var before := EntriesOf(pdfs, user);
    ExtendNumbering(user, before, doc);
  }

  /** The module-level `db` of the service. */
  class Store {
    /** `db["users"]`: username to password. */
    var users: map<string, string>
    /** `db["pdfs"]`: username to that user's insertion-ordered document dictionary. */
    var pdfs: map<string, seq<Entry>>

    /** The store is well formed. */
    ghost predicate Valid()
      reads this
    {
      WellFormed(users, pdfs)
    }

    /** The store holds no users and no documents initially. */
    constructor ()
      ensures Valid() && users == map[] && pdfs == map[]
    {
      users := map[];
      pdfs := map[];
    }

    /** `get_current_user` after decoding: the subject must be a registered user. */
    function CurrentUser(token: Token): (r: Result<string, HttpError>)
      reads this
      ensures r.Success? <==> token.Signed? && token.subject in users
      ensures r.Success? ==> r.value == token.subject
      ensures r.Failure? ==> r.error.status == 401
      ensures token.Signed? && r.Failure? ==> r.error == InvalidCredentials
    {
      match token
      case Expired => Failure(TokenExpired)
      case Invalid => Failure(InvalidToken)
      case Signed(u) => if u in users then Success(u) else Failure(InvalidCredentials)
    }

    /** `POST /register`. */
    method Register(username: string, password: string) returns (r: Result<string, HttpError>)
      requires Valid()
      modifies this
      ensures Valid()
      ensures pdfs == old(pdfs)
      ensures old(username in users) ==> r == Failure(UsernameExists) && users == old(users)
      ensures old(username !in users) ==> r == Success(Registered) && users == old(users)[username := password]
    {
      if username in users {
        return Failure(UsernameExists);
      }
      users := users[username := password];
      r := Success(Registered);
    }

    /** `POST /token`: a token for the user when the password matches exactly. */
    method Login(username: string, password: string) returns (r: Result<Token, HttpError>)
      ensures r.Success? <==> username in users && users[username] == password
      ensures r.Success? ==> r.value == Signed(username) && CurrentUser(r.value) == Success(username)
      ensures r.Failure? ==> r.error == InvalidCredentials
    {
      if username !in users {
        return Failure(InvalidCredentials);
      }
      if users[username] != password {
        return Failure(InvalidCredentials);
      }
      r := Success(Signed(username));
    }

    /** `POST /upload-pdf`. */
    method UploadPdf(token: Token, filename: string, content: string) returns (r: Result<string, HttpError>)
      requires Valid()
      modifies this
      ensures Valid()
      ensures users == old(users)
      ensures old(CurrentUser(token)).Failure? ==>
        r == Failure(old(CurrentUser(token)).error) && pdfs == old(pdfs)
      ensures old(CurrentUser(token)).Success? && !EndsWith(filename, PdfSuffix) ==>
        r == Failure(OnlyPdfAllowed) && pdfs == old(pdfs)
      ensures old(CurrentUser(token)).Success? && EndsWith(filename, PdfSuffix) ==>
        var u := token.subject;
        var before := EntriesOf(old(pdfs), u);
        && r == Success(PdfId(u, |before|))
        && !HasId(before, r.value)
        && pdfs == old(pdfs)[u := before + [Entry(r.value, Doc(filename, content))]]
    {
      var auth := CurrentUser(token);
      if auth.Failure? {
        return Failure(auth.error);
      }
      var user := auth.value;
      if !EndsWith(filename, PdfSuffix) {
        return Failure(OnlyPdfAllowed);
      }
      // A user's dictionary is created empty on the first upload, then assigned to.
      var before := EntriesOf(pdfs, user);
      var pdfId := PdfId(user, |before|);
      var doc := Doc(filename, content);
      UploadThenFetch(user, before, doc);
      UploadKeepsWellFormed(users, pdfs, user, doc);
      pdfs := pdfs[user := Put(before, pdfId, doc)];
      r := Success(pdfId);
    }

    /** `GET /pdfs`: the caller's documents as summaries, in upload order. */
    method ListPdfs(token: Token) returns (r: Result<seq<Summary>, HttpError>)
      ensures CurrentUser(token).Failure? ==> r == Failure(CurrentUser(token).error)
      ensures CurrentUser(token).Success? && token.subject !in pdfs ==> r == Success([])
      ensures CurrentUser(token).Success? && token.subject in pdfs ==>
        var es := pdfs[token.subject];
        && r.Success? && |r.value| == |es|
        && forall k :: 0 <= k < |es| ==> r.value[k] == Summary(es[k].id, es[k].doc.filename)
    {
      var auth := CurrentUser(token);
      if auth.Failure? {
        return Failure(auth.error);
      }
      var user := auth.value;
      if user !in pdfs {
        return Success([]);
      }
      r := Success(Summaries(pdfs[user]));
    }

    /** `GET /pdf/{pdf_id}`: the caller's stored record under that identifier. */
    method GetPdf(token: Token, pdfId: string) returns (r: Result<Doc, HttpError>)
      ensures CurrentUser(token).Failure? ==> r == Failure(CurrentUser(token).error)
      ensures CurrentUser(token).Success? && token.subject !in pdfs ==> r == Failure(PdfNotFound)
      ensures CurrentUser(token).Success? && token.subject in pdfs ==>
        && (r.Success? <==> HasId(pdfs[token.subject], pdfId))
        && (r.Success? ==> Entry(pdfId, r.value) in pdfs[token.subject])
        && (r.Failure? ==> r.error == PdfNotFound)
    {
      var auth := CurrentUser(token);
      if auth.Failure? {
        return Failure(auth.error);
      }
      var user := auth.value;
      if user !in pdfs {
        return Failure(PdfNotFound);
      }
      var found := Lookup(pdfs[user], pdfId);
      if found.None? {
        return Failure(PdfNotFound);
      }
      r := Success(found.value);
    }

    /** An accepted upload followed by a fetch of the returned identifier yields the upload. */
    method UploadThenGet(token: Token, filename: string, content: string)
      returns (uploaded: Result<string, HttpError>, fetched: Result<Doc, HttpError>)
      requires Valid()
      modifies this
      ensures Valid()
      ensures uploaded.Success? ==> fetched == Success(Doc(filename, content))
      ensures uploaded.Failure? ==> fetched == Failure(uploaded.error)
    {
      uploaded := UploadPdf(token, filename, content);
      if uploaded.Failure? {
        return uploaded, Failure(uploaded.error);
      }
      fetched := GetPdf(token, uploaded.value);
      var u := token.subject;
      assert Entry(uploaded.value, Doc(filename, content)) in pdfs[u] by {
        assert pdfs[u][|pdfs[u]| - 1] == Entry(uploaded.value, Doc(filename, content));
      }
      IdDeterminesDoc(u, pdfs[u], uploaded.value, fetched.value, Doc(filename, content));
    }
  }
}
