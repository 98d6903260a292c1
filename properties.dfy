/**
 * What the routes promise, stated over the pure handlers of module `Cms`
 * (and so, through their contracts, over the methods of class `App`).
 */
module CmsProperties {
  import opened Wrappers
  import Strings
  import Paths
  import opened Cms

  // ---------------------------------------------------------------------
  // The sign-in gate

  /** Signed out, every guarded route only sets the message and redirects. */
  lemma GuardedRoutesTurnAway(s: AppState, req: Request, env: Env)
    requires req.Guarded() && s.username == None
    ensures Step(s, req, env) == Outcome(s.(message := Some(MustSignIn)), Redirect(Root))
  {
  }

  /** Only a signed-in caller on a guarded route can change the store. */
  lemma StoreChangesOnlyWhenSignedIn(s: AppState, req: Request, env: Env)
    ensures Step(s, req, env).state.docs != s.docs ==> req.Guarded() && s.SignedIn()
    ensures Step(s, req, env).state.docs != s.docs ==> req.Create? || req.SubmitEdit? || req.DeleteFile?
  {
    match req
    case ViewFile(file) =>
      if file in s.docs {
        assert Step(s, req, env).state.docs == s.docs;
      }
    case _ =>
  }

  /**
   * The user name changes only by signing in (to the name given) or by
   * signing out (to none).
   */
  lemma UserChangesOnlyBySigninOrSignout(s: AppState, req: Request, env: Env)
    ensures var u := Step(s, req, env).state.username;
            u == s.username
            || (req.Signin? && u == Some(req.username))
            || (req.Signout? && u == None)
  {
    match req
    case ViewFile(file) =>
      if file in s.docs {
        assert Step(s, req, env).state.username == s.username;
      }
    case _ =>
  }

  /** Even the empty user name opens the gate: `signed_in?` tests only for presence. */
  lemma EmptyUserNameIsSignedIn(s: AppState, file: string, content: string)
    requires s.username == Some("")
    ensures HandleEdit(s, file, content).state.docs == s.docs[file := content]
  {
  }

  // ---------------------------------------------------------------------
  // Viewing a document

  /** A `.txt` document is sent as stored, as plain text; nothing changes. */
  lemma ViewText(s: AppState, file: string, markdown: string -> string)
    requires file in s.docs && Paths.HasExtension(file, ".txt")
    ensures HandleView(s, file, markdown) == Outcome(s, Render(200, TextPlain, TextBody(s.docs[file])))
  {
  }

  /** A `.md` document is sent as the renderer's HTML; nothing changes. */
  lemma ViewMarkdown(s: AppState, file: string, markdown: string -> string)
    requires file in s.docs && Paths.HasExtension(file, ".md")
    ensures HandleView(s, file, markdown)
         == Outcome(s, Render(200, TextHtml, MarkdownBody(markdown(s.docs[file]))))
  {
  }

  /** Any other extension is declined with a message; store and user stay as they were. */
  lemma ViewUnsupported(s: AppState, file: string, markdown: string -> string)
    requires file in s.docs
    requires !Paths.HasExtension(file, ".txt") && !Paths.HasExtension(file, ".md")
    ensures HandleView(s, file, markdown) == Outcome(s.(message := Some(NotSupported)), Redirect(Root))
  {
  }

  /** A missing name is reported and redirected; store and user stay as they were. */
  lemma ViewMissing(s: AppState, file: string, markdown: string -> string)
    requires file !in s.docs
    ensures HandleView(s, file, markdown)
         == Outcome(s.(message := Some(file + " does not exist.")), Redirect(Root))
  {
  }

  /** Viewing is not gated: who is signed in makes no difference. */
  lemma ViewIgnoresUser(s: AppState, user: Option<string>, file: string, markdown: string -> string)
    ensures var o, o' := HandleView(s, file, markdown), HandleView(s.(username := user), file, markdown);
            o'.response == o.response && o'.state == o.state.(username := user)
  {
  }

  // ---------------------------------------------------------------------
  // Creating, editing and deleting, signed in

  /** A blank name (after stripping) is refused with 404; the store is untouched. */
  lemma CreateBlankName(s: AppState, name: string)
    requires s.SignedIn() && Strings.Blank(name)
    ensures HandleCreate(s, name)
         == Outcome(s.(message := Some(NameRequired)), Render(404, DefaultHtml, NewDocumentView))
  {
  }

  /**
   * A non-blank name, stripped, maps to the empty document (an existing
   * document of that name is emptied); every other entry stays.
   */
  lemma CreateNamed(s: AppState, name: string)
    requires s.SignedIn() && !Strings.Blank(name)
    ensures var o, n := HandleCreate(s, name), Strings.Strip(name);
            n != [] && o.response == Redirect(Root)
            && n in o.state.docs && o.state.docs[n] == ""
            && (forall f :: f != n ==> (f in o.state.docs <==> f in s.docs))
            && (forall f :: f != n && f in s.docs ==> o.state.docs[f] == s.docs[f])
            && o.state.username == s.username
            && o.state.message == Some(n + " was created.")
  {
  }

  /** The edit form shows the stored content of an existing document. */
  lemma EditFormShowsContent(s: AppState, file: string)
    requires s.SignedIn() && file in s.docs
    ensures HandleEditForm(s, file) == Outcome(s, Render(200, DefaultHtml, EditView(file, s.docs[file])))
  {
  }

  /** The edit form of a missing name reports it, like viewing does. */
  lemma EditFormMissing(s: AppState, file: string, markdown: string -> string)
    requires s.SignedIn() && file !in s.docs
    ensures HandleEditForm(s, file) == HandleView(s, file, markdown)
  {
  }

  /** Submitting an edit stores the content, whether or not the name existed. */
  lemma EditStores(s: AppState, file: string, content: string)
    requires s.SignedIn()
    ensures var o := HandleEdit(s, file, content);
            file in o.state.docs && o.state.docs[file] == content
            && (forall f :: f != file ==> (f in o.state.docs <==> f in s.docs))
            && (forall f :: f != file && f in s.docs ==> o.state.docs[f] == s.docs[f])
            && o.state.username == s.username
            && o.state.message == Some(file + " has been updated.")
            && o.response == Redirect(Root)
  {
  }

  /** Deleting an existing document removes that entry only. */
  lemma DeleteRemoves(s: AppState, file: string)
    requires s.SignedIn() && file in s.docs
    ensures var o := HandleDelete(s, file);
            file !in o.state.docs
            && (forall f :: f != file ==> (f in o.state.docs <==> f in s.docs))
            && (forall f :: f != file && f in s.docs ==> o.state.docs[f] == s.docs[f])
            && o.state.username == s.username
            && o.state.message == Some(file + " has been deleted.")
            && o.response == Redirect(Root)
  {
  }

  /** Deleting a missing document is an unrescued error: nothing changes, not even the message. */
  lemma DeleteMissingFails(s: AppState, file: string)
    requires s.SignedIn() && file !in s.docs
    ensures HandleDelete(s, file) == Outcome(s, ServerError)
  {
  }

  // ---------------------------------------------------------------------
  // Signing in and out

  /** Sign-in succeeds exactly for a known user whose stored hash matches the password. */
  lemma SigninSucceedsIff(s: AppState, credentials: map<string, string>, matches: (string, string) -> bool,
                          user: string, password: string)
    ensures var o := HandleSignin(s, credentials, matches, user, password);
            (o.response == Redirect(Root))
            <==> (user in credentials && matches(credentials[user], password))
  {
  }

  /** On success the user is signed in and welcomed. */
  lemma SigninSuccess(s: AppState, credentials: map<string, string>, matches: (string, string) -> bool,
                      user: string, password: string)
    requires user in credentials && matches(credentials[user], password)
    ensures HandleSignin(s, credentials, matches, user, password)
         == Outcome(s.(username := Some(user), message := Some(Welcome)), Redirect(Root))
  {
  }

  /** On failure (an unknown user included) the user stays as it was and the form comes back with 422. */
  lemma SigninFailure(s: AppState, credentials: map<string, string>, matches: (string, string) -> bool,
                      user: string, password: string)
    requires user !in credentials || !matches(credentials[user], password)
    ensures HandleSignin(s, credentials, matches, user, password)
         == Outcome(s.(message := Some(InvalidCredentials)), Render(422, DefaultHtml, SigninView))
  {
  }

  /** Signing out twice leaves the same state, and answers the same, as signing out once. */
  lemma SignoutIdempotent(s: AppState)
    ensures HandleSignout(HandleSignout(s).state) == HandleSignout(s)
    ensures HandleSignout(s).state.username == None && HandleSignout(s).state.docs == s.docs
            && HandleSignout(s).state.message == Some(SignedOut) && HandleSignout(s).response == Redirect(Root)
  {
  }

  // ---------------------------------------------------------------------
  // A document's life

  /** Creating a document and then writing X into it leaves X stored under the name. */
  lemma CreateThenEdit(s: AppState, name: string, x: string)
    requires s.SignedIn() && name != [] && Strings.Strip(name) == name
    ensures var s2 := HandleEdit(HandleCreate(s, name).state, name, x).state;
            s2.SignedIn() && s2.docs == s.docs[name := x]
  {
    var s1 := HandleCreate(s, name).state;
    assert s1.SignedIn() && s1.docs == s.docs[name := ""];
  }

  /**
   * Create a `.txt` document, write X into it, view it, delete it, view it
   * again: the first view shows X as plain text, the second reports the
   * name as missing.
   */
  lemma TextDocumentLifecycle(s: AppState, name: string, x: string, markdown: string -> string,
                              created: AppState, edited: AppState, deleted: AppState)
    requires s.SignedIn() && Paths.HasExtension(name, ".txt") && Strings.Strip(name) == name
    requires created == HandleCreate(s, name).state
    requires edited == HandleEdit(created, name, x).state
    requires deleted == HandleDelete(edited, name).state
    ensures HandleView(edited, name, markdown).response == Render(200, TextPlain, TextBody(x))
    ensures name !in deleted.docs
    ensures HandleView(deleted, name, markdown)
         == Outcome(deleted.(message := Some(name + " does not exist.")), Redirect(Root))
  {
    CreateThenEdit(s, name, x);
    ViewText(edited, name, markdown);
    DeleteRemoves(edited, name);
    ViewMissing(deleted, name, markdown);
  }
}
