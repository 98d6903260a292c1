# A small file-based CMS: request handlers, modelled in Dafny

The app lists, shows, creates, edits and deletes text and markdown
documents in a data directory. A sign-in guards every route that changes a
document, and the forms that lead to them. This project models its request
handlers (`cms.rb`) as a state machine over three pieces of state:

- the document store: the data directory, as a `map<string, string>` from
  file name to content;
- the session's optional signed-in user name;
- the session's optional one-shot message (the flash).

Each route answers with one of three responses:

- a redirect to `/` (302; a POST over HTTP/1.1 gets 303; the model does not
  carry the status);
- a rendered page with a status (200, 404 for a blank new-document name,
  422 for rejected credentials), a content type and what it shows;
- a server error, when the route raises an exception it does not rescue.

Files:

- `wrappers.dfy`: `Option`.
- `strings.dfy`: Ruby's `String#strip`. Whitespace is NUL, tab, line feed,
  vertical tab, form feed, carriage return and space.
- `paths.dfy`: Ruby's `File.extname` for plain names. The extension is the
  suffix from the last dot, unless only dots come before that dot. The
  lemma `ExtnameIs` ties it to a suffix-based definition, `HasExtension`.
- `cms.dfy`: the app.
  - `AppState`, `Request`, `Response` and `Page` are the values.
  - One pure function `Handle...` per route, the list excepted, states its
    outcome.
  - `Step` dispatches a `Request` to its handler.
  - Class `App` keeps the store and the session in fields. Its methods,
    one per route, update those fields in place. Every route method except
    `GetIndex` is proved to leave exactly the state and response its
    `Handle...` function gives. `GetIndex` is proved to list exactly the
    stored names that do not start with a dot, each once. Two helper
    methods stand beside the routes: `CheckSignedIn` (the gate) and
    `LoadFileContent` (the extension case).
    Each method's `modifies` clause names the fields that route can change.
- `properties.dfy`: what the routes promise, as lemmas over the handlers.

The markdown renderer, the bcrypt comparison and the credential file are
parameters. `markdown: string -> string` and
`matches: (hash, password) -> bool` have no properties assumed.
`credentials: map<string, string>` is passed on every sign-in, because the
app reads the file again on every attempt.

Behaviour of the code worth knowing:

- `signed_in?` tests only that a user name is present. The empty user name
  therefore counts as signed in (`EmptyUserNameIsSignedIn`).
- Deleting a name that is not in the store raises in `File.delete` and
  nothing rescues it. The model answers `ServerError` and changes nothing,
  not even the message (`DeleteMissingFails`).
- Creating a document under a name that already exists overwrites it with
  the empty string (`CreateNamed`).

## Model

| member | source | states |
|---|---|---|
| `Strings.Strip` | cms.rb:96 | The stripped name is empty exactly when the input is all whitespace. Otherwise it starts and ends with a non-whitespace character. |
| `Strings.StripIsInfix` | cms.rb:96 | The stripped name is a contiguous slice of the input. Only whitespace comes before it and after it. |
| `Paths.Extname` | cms.rb:39 | The extension is empty or a dot followed by non-dot characters, and it is a suffix of the name. |
| `Paths.ExtnameIs` | cms.rb:39-48 | For every extension `e`, `Extname(name) == e` holds exactly when the name ends in `e` after something that is not only dots. |
| `Cms.Dispatch` | cms.rb:38-50 | A name is shown as plain text exactly when it has extension `.txt`. It is shown as HTML exactly when it has extension `.md`. Every other name is unsupported. |
| `Cms.ValidCredentials` | cms.rb:65-73 | Credentials are never valid for a user name that is not a key of the credential map. |
| `Cms.AppState.SignedIn` | cms.rb:52-54 | Any user name counts as signed in, the empty one included; no user name means signed out. |
| `Cms.Step` | cms.rb:87-193 | The route table for every route but the list. A guarded request (new form, create, edit form, edit submit, delete) from a signed-out session is turned away by the gate: only the message is set, and the response redirects to `/`. |
| `Cms.App.CheckSignedIn` | cms.rb:56-63 | The route may go on exactly when a user name is present. Otherwise the message becomes "You must be signed in to do that.". Store and user name are untouched. |
| `Cms.App.GetIndex` | cms.rb:76-84 | Status 200, HTML. The listed names are exactly the store's names that do not start with a dot, since the `*` glob skips dot-files. No name is listed twice. Nothing changes. |
| `Cms.App.GetNew` | cms.rb:87-91 | Leaves the state and response `HandleNewForm` gives: the new-document form when signed in, else the gate's redirect. Changes at most the message. |
| `Cms.App.PostNew` | cms.rb:94-111 | Leaves the state and response `HandleCreate` gives for the submitted name. Changes at most the store and the message. |
| `Cms.App.LoadFileContent` | cms.rb:38-50 | For a stored name, leaves the state and response `FileContent` gives: the extension decides the body and content type. Changes at most the message. |
| `Cms.App.GetFile` | cms.rb:114-123 | Leaves the state and response `HandleView` gives. Changes at most the message. |
| `Cms.App.GetEdit` | cms.rb:126-139 | Leaves the state and response `HandleEditForm` gives. Changes at most the message. |
| `Cms.App.PostEdit` | cms.rb:142-152 | Leaves the state and response `HandleEdit` gives. Changes at most the store and the message. |
| `Cms.App.GetDelete` | cms.rb:155-164 | Leaves the state and response `HandleDelete` gives. Changes at most the store and the message. |
| `Cms.App.GetSignin` | cms.rb:167-169 | Renders the sign-in form with status 200 and changes nothing. |
| `Cms.App.PostSignin` | cms.rb:172-185 | Leaves the state and response `HandleSignin` gives for the credential map read in this request. Changes at most the user name and the message. |
| `Cms.App.PostSignout` | cms.rb:188-193 | Leaves the state and response `HandleSignout` gives. Changes at most the user name and the message. |
| `CmsProperties.GuardedRoutesTurnAway` | cms.rb:56-63 | Models `check_signed_in` on every route that calls it. With no user signed in, each guarded route only sets "You must be signed in to do that." and redirects to `/`. The guarded routes are new form, create, edit form, edit submit and delete. Store and user name stay the same. |
| `CmsProperties.StoreChangesOnlyWhenSignedIn` | cms.rb:87-164 | Across all routes except the list, the store changes only on create, edit submit or delete, and only when a user is signed in. |
| `CmsProperties.UserChangesOnlyBySigninOrSignout` | cms.rb:172-193 | Across all routes except the list, the user name stays as it was, unless sign-in sets it to the name given or sign-out clears it. |
| `CmsProperties.EmptyUserNameIsSignedIn` | cms.rb:52-54 | A session whose user name is the empty string passes the gate: an edit submit writes the store. |
| `CmsProperties.ViewText` | cms.rb:38-42 | A stored `.txt` document comes back with status 200 and `text/plain`. The body is its content exactly. Nothing changes. |
| `CmsProperties.ViewMarkdown` | cms.rb:43-45 | A stored `.md` document comes back with status 200 and `text/html`. The body is the renderer's output on its content. Nothing changes. |
| `CmsProperties.ViewUnsupported` | cms.rb:46-49 | A stored document with any other extension sets "This file type is not supported." and redirects. Store and user name stay the same. |
| `CmsProperties.ViewMissing` | cms.rb:117-122 | Viewing a name not in the store sets "<name> does not exist." and redirects. Store and user name stay the same. |
| `CmsProperties.ViewIgnoresUser` | cms.rb:114-123 | Viewing is not gated. The response and the resulting store and message are the same whoever is signed in, or no one. |
| `CmsProperties.CreateBlankName` | cms.rb:96-101 | Signed in, a name that is empty or all whitespace sets "A name is required.". The form comes back with status 404 and the state is otherwise unchanged. |
| `CmsProperties.CreateNamed` | cms.rb:96-108 | Signed in, a name that is not blank is stripped, and the store maps the stripped name to "". Every other entry stays. The message is "<name> was created." and the response redirects. |
| `CmsProperties.EditFormShowsContent` | cms.rb:130-133 | Signed in, the edit form of a stored document shows its current content with status 200. Nothing changes. |
| `CmsProperties.EditFormMissing` | cms.rb:134-137 | Signed in, the edit form of a missing name answers exactly as viewing that name does. |
| `CmsProperties.EditStores` | cms.rb:142-152 | Signed in, the submitted content is stored under the name afterwards, whether or not the name existed. Every other entry and the user name stay. The message is "<name> has been updated." and the response redirects. |
| `CmsProperties.DeleteRemoves` | cms.rb:155-164 | Signed in, deleting a stored name removes that entry and no other. The message is "<name> has been deleted." and the response redirects. |
| `CmsProperties.DeleteMissingFails` | cms.rb:159 | Signed in, deleting a name that is not stored is a server error and changes no state. |
| `CmsProperties.SigninSucceedsIff` | cms.rb:65-73 | Sign-in redirects exactly when the user name is a key of the credential map and the stored hash matches the password. |
| `CmsProperties.SigninSuccess` | cms.rb:176-179 | On valid credentials the session's user name becomes the one given. The message is "Welcome!" and the response redirects. |
| `CmsProperties.SigninFailure` | cms.rb:180-184 | On invalid credentials, an unknown user included, the user name stays as it was. The message is "Invalid Credentials" and the form comes back with 422. |
| `CmsProperties.SignoutIdempotent` | cms.rb:188-193 | Sign-out clears the user name and keeps the store. The message is "You have been signed out." and the response redirects. Signing out twice gives the same state and response as once. |
| `CmsProperties.CreateThenEdit` | cms.rb:94-152 | Signed in, for a non-blank name with no surrounding whitespace, creating a document and then writing X into it leaves the store with X under that name. Create stores under the stripped name and edit under the name as given, so the two agree only for such a name. The session stays signed in. |
| `CmsProperties.TextDocumentLifecycle` | cms.rb:94-164 | For a `.txt` document: create it, write X, view it, delete it, view it again. The first view shows X as plain text. After the delete the name is gone and viewing reports it missing. |

## Left out

- Routing, the session cookie and its secret, and the choice of data directory by environment (cms.rb:1-18) are not modelled. Each route is a method called directly. The data directory is the `docs` field.
- Views and the layout are left out: the ERB templates and the index view are not part of this model. A rendered page is a `Page` tag, a status and a content type. The layout is where the flash is shown and then deleted, so consuming the message is not modelled. Routes only set it.
- A `.md` body is passed to `erb` as template source. Any ERB tags inside the rendered markdown would be evaluated; the model does not capture that and keeps the renderer's output as the body.
- Markdown rendering (cms.rb:29-32) is the parameter `markdown`. What it produces, such as a heading becoming `<h1>`, is not modelled.
- bcrypt (cms.rb:69) is the parameter `matches`. The exception for a malformed stored hash is not modelled.
- Loading the YAML credential file (cms.rb:20-27) is the parameter `credentials`.
- File I/O is replaced by map operations. Permission failures and other I/O errors are not modelled.
- `Cms.App.GetIndex`: the order of the listing is left open. On Ruby 3.0 and later `Dir.glob` returns the names sorted; the model promises only which names are listed, each once. `GetIndex` is also left out of `Step` for this reason, so the all-routes lemmas cover the other nine routes. The model's `GetIndex` changes nothing; consuming the flash in the layout is left out, as above.
- Document names are opaque keys. Path separators, `..` and `File.basename` on the listing are not modelled.
- Route precedence is not modelled. For example, `GET /new` reaches the new-document form, never a document called `new`.
- Request parameters are strings. A missing `name` or `file_content` parameter is not modelled.
- `Paths.Extname` covers plain names only. It follows Ruby 2.7 and later on non-Windows systems, where a name ending in a dot has extension ".".
