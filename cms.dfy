/**
 * The request handlers of the file-based content-management app.
 *
 * The app's state is a document store (the data directory, as a map from
 * file name to content) and a session holding an optional signed-in user
 * name and an optional one-shot message (the flash). Each route reads and
 * updates that state and answers with a redirect to "/" or a rendered page.
 *
 * The pure functions `Handle...` say what each route does to a snapshot of
 * the state; class `App` holds the state in fields and its methods update
 * them in place, each proved to agree with its `Handle...` function.
 * The markdown renderer, the password-hash comparison and the credential
 * file are collaborators outside the app: they are parameters here.
 */
module Cms {
  import opened Wrappers
  import Strings
  import Paths

  // Flash messages set by the routes.
  const MustSignIn := "You must be signed in to do that."
  const NotSupported := "This file type is not supported."
  const NameRequired := "A name is required."
  const Welcome := "Welcome!"
  const InvalidCredentials := "Invalid Credentials"
  const SignedOut := "You have been signed out."

  // Content types: the two set by hand for documents, and the framework's
  // default for every rendered view.
  const TextPlain := "text/plain"
  const TextHtml := "text/html"
  const DefaultHtml := "text/html;charset=utf-8"

  // Every redirect goes to the document list.
  const Root := "/"

  /** The document store and the session, as one value. */
  datatype AppState = AppState(docs: map<string, string>, username: Option<string>, message: Option<string>)
  {
    /** `signed_in?`: any user name at all, the empty one included, counts. */
    predicate SignedIn()
      ensures username == Some("") ==> SignedIn()
      ensures username == None ==> !SignedIn()
    {
      username.Some?
    }
  }

  /** What a rendered page shows. */
  datatype Page =
    | IndexView(files: seq<string>)
    | NewDocumentView
    | EditView(file: string, content: string)
    | SigninView
    | TextBody(text: string)        // a .txt document, sent as it is stored
    | MarkdownBody(html: string)    // a .md document, rendered to HTML

  datatype Response =
    | Redirect(location: string)    // 302, or 303 for a POST over HTTP/1.1; the status is not kept
    | Render(status: nat, contentType: string, page: Page)
    | ServerError                   // an exception the route does not rescue

  datatype Outcome = Outcome(state: AppState, response: Response)

  /** How a document is shown, decided by its extension alone. */
  datatype ContentKind = PlainText | Html | Unsupported

  /** The `case File.extname(...)` of `load_file_content`. */
  function Dispatch(file: string): (kind: ContentKind)
    ensures kind == PlainText <==> Paths.HasExtension(file, ".txt")
    ensures kind == Html <==> Paths.HasExtension(file, ".md")
  {
    var ext := Paths.Extname(file);
    assert Paths.IsExtension(".txt") && Paths.IsExtension(".md");
    Paths.ExtnameIs(file, ".txt");
    Paths.ExtnameIs(file, ".md");
    if ext == ".txt" then PlainText
    else if ext == ".md" then Html
    else Unsupported
  }

  /**
   * `valid_credentials?`: the user name must be a key of the credential
   * map, and the password must match the hash stored under it.
   */
  function ValidCredentials(credentials: map<string, string>, matches: (string, string) -> bool,
                            username: string, password: string): (ok: bool)
    ensures ok ==> username in credentials
  {
    if username in credentials then matches(credentials[username], password) else false
  }

  /** `check_signed_in`: run the guarded route, or turn the caller away. */
  function Gate(s: AppState, action: Outcome): Outcome {
    if s.SignedIn() then action
    else Outcome(s.(message := Some(MustSignIn)), Redirect(Root))
  }

  /** The answer for a name that is not in the store. */
  function Missing(s: AppState, file: string): Outcome {
    Outcome(s.(message := Some(file + " does not exist.")), Redirect(Root))
  }

  /** `get "/new"`. */
  function HandleNewForm(s: AppState): Outcome {
    Gate(s, Outcome(s, Render(200, DefaultHtml, NewDocumentView)))
  }

  /** `post "/new"`: create an empty document under the stripped name. */
  function HandleCreate(s: AppState, name: string): Outcome {
    Gate(s,
      var fileName := Strings.Strip(name);
      if |fileName| == 0 then
        Outcome(s.(message := Some(NameRequired)), Render(404, DefaultHtml, NewDocumentView))
      else
        Outcome(s.(docs := s.docs[fileName := ""], message := Some(fileName + " was created.")),
                Redirect(Root)))
  }

  /** `load_file_content` for a document that exists. */
  function FileContent(s: AppState, file: string, markdown: string -> string): Outcome
    requires file in s.docs
  {
    match Dispatch(file)
    case PlainText => Outcome(s, Render(200, TextPlain, TextBody(s.docs[file])))
    case Html => Outcome(s, Render(200, TextHtml, MarkdownBody(markdown(s.docs[file]))))
    case Unsupported => Outcome(s.(message := Some(NotSupported)), Redirect(Root))
  }

  /** `get "/:file"`: not guarded. */
  function HandleView(s: AppState, file: string, markdown: string -> string): Outcome {
    if file in s.docs then FileContent(s, file, markdown) else Missing(s, file)
  }

  /** `get "/:file/edit"`. */
  function HandleEditForm(s: AppState, file: string): Outcome {
    Gate(s,
      if file in s.docs then Outcome(s, Render(200, DefaultHtml, EditView(file, s.docs[file])))
      else Missing(s, file))
  }

  /** `post "/:file/edit"`: writes whether or not the file existed. */
  function HandleEdit(s: AppState, file: string, content: string): Outcome {
    Gate(s,
      Outcome(s.(docs := s.docs[file := content], message := Some(file + " has been updated.")),
              Redirect(Root)))
  }

  /** `get "/:file/delete"`: deleting a missing file raises, and nothing is rescued. */
  function HandleDelete(s: AppState, file: string): Outcome {
    Gate(s,
      if file in s.docs then
        Outcome(s.(docs := s.docs - {file}, message := Some(file + " has been deleted.")), Redirect(Root))
      else Outcome(s, ServerError))
  }

  /** `get "/users/signin"`. */
  function HandleSigninForm(s: AppState): Outcome {
    Outcome(s, Render(200, DefaultHtml, SigninView))
  }

  /** `post "/users/signin"`, with the credential file as read during this request. */
  function HandleSignin(s: AppState, credentials: map<string, string>, matches: (string, string) -> bool,
                        username: string, password: string): Outcome {
    if ValidCredentials(credentials, matches, username, password) then
      Outcome(s.(username := Some(username), message := Some(Welcome)), Redirect(Root))
    else
      Outcome(s.(message := Some(InvalidCredentials)), Render(422, DefaultHtml, SigninView))
  }

  /** `post "/users/signout"`. */
  function HandleSignout(s: AppState): Outcome {
    Outcome(s.(username := None, message := Some(SignedOut)), Redirect(Root))
  }

  /** The routes other than the document list, as requests. */
  datatype Request =
    | NewForm
    | Create(name: string)
    | ViewFile(file: string)
    | EditForm(file: string)
    | SubmitEdit(file: string, content: string)
    | DeleteFile(file: string)
    | SigninForm
    | Signin(username: string, password: string)
    | Signout
  {
    /** The routes that go through `check_signed_in`. */
    predicate Guarded() {
      NewForm? || Create? || EditForm? || SubmitEdit? || DeleteFile?
    }
  }

  /** The collaborators a request may consult. */
  datatype Env = Env(markdown: string -> string, credentials: map<string, string>,
                     matches: (string, string) -> bool)

  /** One request against the state. */
  function Step(s: AppState, req: Request, env: Env): (o: Outcome)
    ensures req.Guarded() && !s.SignedIn() ==> o == Outcome(s.(message := Some(MustSignIn)), Redirect(Root))
  {
    match req
    case NewForm => HandleNewForm(s)
    case Create(name) => HandleCreate(s, name)
    case ViewFile(file) => HandleView(s, file, env.markdown)
    case EditForm(file) => HandleEditForm(s, file)
    case SubmitEdit(file, content) => HandleEdit(s, file, content)
    case DeleteFile(file) => HandleDelete(s, file)
    case SigninForm => HandleSigninForm(s)
    case Signin(username, password) => HandleSignin(s, env.credentials, env.matches, username, password)
    case Signout => HandleSignout(s)
  }

  /** `Dir.glob(File.join(data_path, "*"))` does not match names that start with a dot. */
  predicate Listed(name: string) {
    !(|name| > 0 && name[0] == '.')
  }

  predicate Distinct(names: seq<string>) {
    forall i, j :: 0 <= i < j < |names| ==> names[i] != names[j]
  }

  /** The app: the data directory and one session, updated in place by the routes. */
  class App {
    var docs: map<string, string>
    var username: Option<string>
    var message: Option<string>

    function State(): AppState
      reads this
    {
      AppState(docs, username, message)
    }

    /** A fresh session over an existing data directory. */
    constructor (initial: map<string, string>)
      ensures State() == AppState(initial, None, None)
    {
      docs, username, message := initial, None, None;
    }

    /**
     * `check_signed_in`: true when the guarded route may run; otherwise the
     * message is set and the caller redirects.
     */
    method CheckSignedIn() returns (allowed: bool)
      modifies this`message
      ensures allowed == old(State()).SignedIn()
      ensures message == if allowed then old(message) else Some(MustSignIn)
    {
      allowed := username.Some?;
      if !allowed {
        message := Some(MustSignIn);
      }
    }

    /** `get "/"`: the names in the data directory, in whatever order the directory gives them. */
    method GetIndex() returns (r: Response)
      ensures r.Render? && r.status == 200 && r.contentType == DefaultHtml && r.page.IndexView?
      ensures forall name :: name in r.page.files <==> name in docs && Listed(name)
      ensures Distinct(r.page.files)
    {
      var files: seq<string> := [];
      var pending := docs.Keys;
      while pending != {}
        invariant pending <= docs.Keys
        invariant forall name :: name in files ==> name in docs && Listed(name) && name !in pending
        invariant forall name :: name in docs && Listed(name) ==> name in files || name in pending
        invariant Distinct(files)
        decreases pending
      {
        var path :| path in pending;
        if Listed(path) {
          files := files + [path];
        }
        pending := pending - {path};
      }
      r := Render(200, DefaultHtml, IndexView(files));
    }

    method GetNew() returns (r: Response)
      modifies this`message
      ensures Outcome(State(), r) == HandleNewForm(old(State()))
    {
      var allowed := CheckSignedIn();
      if !allowed {
        return Redirect(Root);
      }
      r := Render(200, DefaultHtml, NewDocumentView);
    }

    method PostNew(name: string) returns (r: Response)
      modifies this`docs, this`message
      ensures Outcome(State(), r) == HandleCreate(old(State()), name)
    {
      var allowed := CheckSignedIn();
      if !allowed {
        return Redirect(Root);
      }
      var fileName := Strings.Strip(name);
      if |fileName| == 0 {
        message := Some(NameRequired);
        r := Render(404, DefaultHtml, NewDocumentView);
      } else {
        docs := docs[fileName := ""];
        message := Some(fileName + " was created.");
        r := Redirect(Root);
      }
    }

    /** `load_file_content`, called only once the file is known to exist. */
    method LoadFileContent(file: string, markdown: string -> string) returns (r: Response)
      requires file in docs
      modifies this`message
      ensures Outcome(State(), r) == FileContent(old(State()), file, markdown)
    {
      var ext := Paths.Extname(file);
      if ext == ".txt" {
        r := Render(200, TextPlain, TextBody(docs[file]));
      } else if ext == ".md" {
        r := Render(200, TextHtml, MarkdownBody(markdown(docs[file])));
      } else {
        message := Some(NotSupported);
        r := Redirect(Root);
      }
    }

    method GetFile(file: string, markdown: string -> string) returns (r: Response)
      modifies this`message
      ensures Outcome(State(), r) == HandleView(old(State()), file, markdown)
    {
      if file in docs {
        r := LoadFileContent(file, markdown);
      } else {
        message := Some(file + " does not exist.");
        r := Redirect(Root);
      }
    }

    method GetEdit(file: string) returns (r: Response)
      modifies this`message
      ensures Outcome(State(), r) == HandleEditForm(old(State()), file)
    {
      var allowed := CheckSignedIn();
      if !allowed {
        return Redirect(Root);
      }
      if file in docs {
        r := Render(200, DefaultHtml, EditView(file, docs[file]));
      } else {
        message := Some(file + " does not exist.");
        r := Redirect(Root);
      }
    }

    method PostEdit(file: string, content: string) returns (r: Response)
      modifies this`docs, this`message
      ensures Outcome(State(), r) == HandleEdit(old(State()), file, content)
    {
      var allowed := CheckSignedIn();
      if !allowed {
        return Redirect(Root);
      }
      docs := docs[file := content];
      message := Some(file + " has been updated.");
      r := Redirect(Root);
    }

    method GetDelete(file: string) returns (r: Response)
      modifies this`docs, this`message
      ensures Outcome(State(), r) == HandleDelete(old(State()), file)
    {
      var allowed := CheckSignedIn();
      if !allowed {
        return Redirect(Root);
      }
      if file !in docs {
        return ServerError;
      }
      docs := docs - {file};
      message := Some(file + " has been deleted.");
      r := Redirect(Root);
    }

    method GetSignin() returns (r: Response)
      ensures Outcome(State(), r) == HandleSigninForm(State())
    {
      r := Render(200, DefaultHtml, SigninView);
    }

    method PostSignin(credentials: map<string, string>, matches: (string, string) -> bool,
                      user: string, password: string) returns (r: Response)
      modifies this`username, this`message
      ensures Outcome(State(), r) == HandleSignin(old(State()), credentials, matches, user, password)
    {
      if ValidCredentials(credentials, matches, user, password) {
        username := Some(user);
        message := Some(Welcome);
        r := Redirect(Root);
      } else {
        message := Some(InvalidCredentials);
        r := Render(422, DefaultHtml, SigninView);
      }
    }

    method PostSignout() returns (r: Response)
      modifies this`username, this`message
      ensures Outcome(State(), r) == HandleSignout(old(State()))
    {
      username := None;
      message := Some(SignedOut);
      r := Redirect(Root);
    }
  }
}
