# Document service and client session, modelled in Dafny

This project models the two stateful parts of a small PDF document manager.

- **The document service** (`backend/main.py`) is an in-memory store, `db = {"users": {}, "pdfs": {}}`.
  Users register with a password and log in for a bearer token. With that token they upload PDF files,
  list their documents and fetch one document.
  `DocumentService.Store` keeps `users` (username to password) and `pdfs` (username to that user's
  documents). A user's documents are a `seq<Entry>`, because a Python dictionary keeps insertion order.
  `Put` is dictionary assignment and `Lookup` is a guarded dictionary read.
  The store's invariant `Valid()` says three things:
  - only registered users own documents;
  - a user's dictionary exists only once it holds a document;
  - a user's keys are exactly `user_0 .. user_{n-1}`, in upload order.

  Module `PdfIds` builds the identifier `"{user}_{n}"`. It proves that `n` can be read back from the
  identifier. So identifiers are never reused, and an upload never overwrites an earlier document.
- **The client session** (`frontend/src/context/AuthContext.tsx`) holds the signed-in `user` and the
  browser storage slot `token`. Its invariant is that a signed-in user always has a stored token,
  because login writes the token before it sets the user. This holds within one tab; other tabs
  share the storage slot (see "Left out").
- **The document workspace** (`frontend/src/components/Dashboard.tsx`) holds the listed `pdfs` and the
  viewed `selectedPdf`. Its effects on the outside world are recorded in three logs: `sent` (requests
  issued), `alerts` (messages shown) and `navigations` (routes visited). Its invariant is that every
  request it issued carried a stored token.

Remote calls are parameters. Login receives the token endpoint as a function of the posted username
and password. Each workspace handler receives the reply to each request it issues: resolved with a
2xx status and a body, or rejected with a message. HTTP errors of the service are
`HttpError(status, detail)` values inside a `Result`.

Facts about the code that the model keeps:
- `GET /pdf/{id}` returns `{filename, content}`, with no `pdf_id` (backend/main.py:224-226).
- `handleLogout` does not reset `selectedPdf` itself (Dashboard.tsx:76-79); it navigates away, and
  the route change unmounts the workspace (see "Left out"). In the model the workspace renders
  nothing once the user is gone (`HandleLogout` ensures `Render() == None`).
- The service rejects file names that do not end in `.pdf` (backend/main.py:160-162); the client
  itself checks nothing beyond the file picker's `accept` filter.
- The workspace tests `!user` (Dashboard.tsx:20, 81), so an empty username counts as signed out,
  exactly like `null` (`Workspace.SignedIn`).

## Model

| member | source | states |
|---|---|---|
| PdfIds.Decimal | backend/main.py:173 | the count's decimal text is a non-empty string of digits, and it starts with `0` exactly when the count is 0 |
| PdfIds.DecimalRoundTrip | backend/main.py:173 | reading back the decimal text of `n` gives `n` |
| PdfIds.DecimalInjective | backend/main.py:173 | different counts have different decimal texts |
| PdfIds.PdfId | backend/main.py:173 | an identifier is the user's name, then `_`, then only digits |
| PdfIds.PdfIdNumber | backend/main.py:173 | the count can be read back from an identifier and its owner's name |
| PdfIds.PdfIdInjective | backend/main.py:173 | one user's identifiers for different counts never coincide |
| DocumentService.EndsWith | backend/main.py:160 | the suffix check holds iff the name is some string followed by exactly the suffix (case-sensitive) |
| DocumentService.Lookup | backend/main.py:220-224 | finds a document iff the key is present, and what it finds is stored under that key |
| DocumentService.Put | backend/main.py:177-180 | an absent key is appended at the end; a present key keeps its place and the order of keys; every entry under another key is unchanged; afterwards the key reads back the new document |
| DocumentService.Summaries | backend/main.py:199-202 | one `(pdf_id, filename)` per stored entry, in dictionary order, with no content |
| DocumentService.NextIdIsFresh | backend/main.py:173-180 | when keys are `user_0 .. user_{n-1}`, the id `user_n` is not yet a key |
| DocumentService.IdDeterminesDoc | backend/main.py:177-180 | in a well-numbered dictionary, an identifier names at most one document |
| DocumentService.UploadThenFetch | backend/main.py:173-182 | an upload appends exactly one entry under `user_n`, keeps the numbering, and that id then reads back the uploaded document |
| DocumentService.UploadKeepsWellFormed | backend/main.py:173-180 | an upload by a registered user keeps documents owned by registered users, dictionaries non-empty and keys numbered `user_0 .. user_{n-1}` |
| DocumentService.Store.constructor | backend/main.py:30 | the store starts with no users and no documents |
| DocumentService.Store.CurrentUser | backend/main.py:100-122 | a token authenticates iff it is signed, current and names a registered user; every rejection is a 401, and "Invalid credentials" for an unknown subject |
| DocumentService.Store.Register | backend/main.py:125-134 | an existing name fails with 400 "Username already exists" and changes nothing; a new name adds exactly that user with that password; documents are untouched |
| DocumentService.Store.Login | backend/main.py:137-151 | succeeds iff the user exists and the password matches exactly; the token names the user and authenticates as them; otherwise 401 "Invalid credentials" |
| DocumentService.Store.UploadPdf | backend/main.py:154-182 | an unauthenticated token fails with its 401; a name without the `.pdf` suffix fails with 400 and changes nothing; otherwise the id is `user_n` for the prior count `n`, it is fresh, exactly one entry is appended for that user, and users and other users' documents are unchanged |
| DocumentService.Store.ListPdfs | backend/main.py:189-204 | an unauthenticated token fails with its 401; a user without documents gets `[]`; otherwise one summary per stored entry, in upload order |
| DocumentService.Store.GetPdf | backend/main.py:211-226 | an unauthenticated token fails with its 401; a user without documents, or an absent id, gets 404 "PDF not found"; otherwise the record stored under that id |
| DocumentService.Store.UploadThenGet | backend/main.py:173-182 | an accepted upload followed by a fetch of the returned id yields the uploaded file name and content |
| AuthContext.AuthProvider.constructor | frontend/src/context/AuthContext.tsx:17 | the session starts signed out; the storage slot keeps what an earlier page load left |
| AuthContext.AuthProvider.Login | frontend/src/context/AuthContext.tsx:19-24 | on an issued token, the slot holds that token and `user` is the username; on failure the error is passed on and neither changes; a signed-in user always has a stored token |
| AuthContext.AuthProvider.Logout | frontend/src/context/AuthContext.tsx:26-29 | afterwards `user` is null and the slot is empty, whatever the state before; the new state does not depend on the old one, so a second logout changes nothing |
| AuthContext.UseAuth | frontend/src/context/AuthContext.tsx:38-44 | returns the provider in scope, or fails with "useAuth must be used within an AuthProvider" when there is none |
| Dashboard.ListedPdfs | frontend/src/components/Dashboard.tsx:33-37 | the list is replaced only by a 200 answer, by its data or `[]` when the data is null; any other answer keeps the old list |
| Dashboard.ListAlerts | frontend/src/components/Dashboard.tsx:33-40 | no alert exactly when a 200 answer arrives; "Failed to fetch pdfs" for another 2xx status; the error message for a thrown request |
| Dashboard.Workspace.constructor | frontend/src/components/Dashboard.tsx:14-17 | a mounted workspace lists nothing, views nothing and has issued nothing |
| Dashboard.Workspace.FetchPdfs | frontend/src/components/Dashboard.tsx:27-41 | issues one list request with the stored token; updates `pdfs` and `alerts` as the reply dictates; leaves the selection alone |
| Dashboard.Workspace.OnUserChange | frontend/src/components/Dashboard.tsx:19-25 | with no user or an empty username, navigates to `/login`, issues no request and changes no state; with a non-empty user, fetches the list |
| Dashboard.Workspace.HandleFileUpload | frontend/src/components/Dashboard.tsx:43-62 | with no file, nothing happens; a failed upload sends only the upload and alerts; the list is re-fetched only after an accepted upload |
| Dashboard.Workspace.ViewPdf | frontend/src/components/Dashboard.tsx:64-74 | an answer replaces `selectedPdf` entirely; a failure leaves it unchanged and alerts |
| Dashboard.Workspace.HandleLogout | frontend/src/components/Dashboard.tsx:76-79 | signs the session out, navigates to `/login`, and the workspace then renders nothing |
| Dashboard.Workspace.Render | frontend/src/components/Dashboard.tsx:81-178 | nothing without a user or with an empty username; otherwise a greeting, the "no PDFs" state exactly when the list is empty, and an embedded base64 PDF exactly when one is selected |

## Left out

- JWT encoding, signing, decoding and the 24-hour expiry (backend/main.py:84-97, 103, 113-118) depend on a foreign library and the wall clock. A token is an abstract `Signed(subject)`, `Expired` or `Invalid` value.
- A signed token without a `sub` claim is not modelled, because `create_token` always sets one.
- The base64 helpers (backend/main.py:52-81) are wrappers over Python's library. Content is an opaque string stored as given, so their 500 "Error processing PDF file" path and the generic 500 handlers are not modelled.
- HTTP, CORS and server start-up are left out, and so are `print` and `traceback` logging. Only the status code and detail of an error are kept.
- Async scheduling, double submits and replies that arrive after navigation are left out, because they are concurrency. Each handler is one atomic step.
- Other browser tabs share the `token` storage slot; a logout in another tab removes the token while this tab's `user` stays set. The session invariant is stated for one tab only.
- Route changes unmount the workspace: `navigate('/login')` leaves the `/dashboard` route (App.js:19-21), and React drops `pdfs` and `selectedPdf`. The model keeps one `Workspace` object alive after `HandleLogout`, stale selection included; remounting after a later login is a new `Workspace` (its constructor), which the model does not sequence.
- Dashboard.Workspace.FetchPdfs, HandleFileUpload and ViewPdf require a signed-in user (a non-empty username). Their controls exist only on the rendered page, and the effect fetches only with a user. A request still in flight when the user logs out is not modelled.
- The base64 decoding round trip of viewed content is not modelled; content is opaque.
- JSX layout, styling, routing, the login and register forms, and the untyped duplicates (`Dashboard.js`, `AuthContext.js`, `Register.js`) carry no logic beyond the typed components.
- `backend/schemas.py`, `FastAPI/models.py`, `FastAPI/main.py` and `backend/database.py` are declarations and database plumbing that nothing in the core uses.
- AuthContext.AuthProvider.Login: an answer without an `access_token` field, which the client would store as the text `undefined`, is not modelled.
