/** The application component (src/App.tsx): five pieces of state, four
    request handlers, three click handlers, the choice of what to render and
    where a form submit goes. Each handler is one atomic transition from the
    state before its request to the state after its response. */
module App {
  import opened Types
  import PostStore
  import PostForm

  /** What a `catch` clause can receive: an `Error` (with its message) or
      some other thrown value. */
  datatype Throwable = ErrorInstance(message: string) | NonError

  /** The result of one request as the handler sees it: a decoded body, a
      response whose `ok` flag is false, or something thrown on the way
      (a network failure, a body that is not JSON). */
  datatype Outcome<+T> = Ok(value: T) | HttpNotOk | Thrown(what: Throwable)

  /** The component's state (src/App.tsx:9-13). */
  datatype AppState = AppState(
    posts: seq<Post>,
    isLoading: bool,
    error: Option<string>,
    showForm: bool,
    editingPost: Option<Post>)

  /** Before the first load completes: no posts, loading, no error, no form. */
  const Initial := AppState([], true, None, false, None)

  /** The four request handlers. */
  datatype Operation = FetchOp | CreateOp | UpdateOp | DeleteOp

  /** The message of the Error each handler throws when `response.ok` is false. */
  function StatusMessage(op: Operation): string {
    match op
    case FetchOp => "Failed to fetch posts"
    case CreateOp => "Failed to create post"
    case UpdateOp => "Failed to update post"
    case DeleteOp => "Failed to delete post"
  }

  /** The message each handler uses when the caught value is not an Error. */
  function FallbackMessage(op: Operation): string {
    match op
    case FetchOp => "An error occurred"
    case CreateOp => "Failed to create post"
    case UpdateOp => "Failed to update post"
    case DeleteOp => "Failed to delete post"
  }

  /** `err instanceof Error ? err.message : fallback`, where the status
      check's own Error supplies the message when `response.ok` is false. */
  function ErrorMessage<T>(op: Operation, o: Outcome<T>): (m: string)
    requires !o.Ok?
    ensures o.HttpNotOk? ==> m == StatusMessage(op)
    ensures o.Thrown? && o.what.ErrorInstance? ==> m == o.what.message
    ensures o == Thrown(NonError) && op == FetchOp ==> m == "An error occurred"
    ensures o == Thrown(NonError) && op != FetchOp ==> m == StatusMessage(op)
    ensures !(o.Thrown? && o.what.ErrorInstance?) ==> m != ""
  {
    match o
    case HttpNotOk => StatusMessage(op)
    case Thrown(ErrorInstance(m)) => m
    case Thrown(NonError) => FallbackMessage(op)
  }

  /** The catch clause every handler shares: only the error slot changes. */
  function Fail<T>(s: AppState, op: Operation, o: Outcome<T>): AppState
    requires !o.Ok?
  {
    s.(error := Some(ErrorMessage(op, o)))
  }

  /** `fetchPosts`: replace the list wholesale on success, record the error
      otherwise, and stop loading either way. */
  function FetchPosts(s: AppState, o: Outcome<seq<Post>>): (r: AppState)
    ensures !r.isLoading
    ensures r.showForm == s.showForm && r.editingPost == s.editingPost
    ensures o.Ok? ==> r.posts == o.value && r.error == s.error
    ensures !o.Ok? ==> r.posts == s.posts && r.error == Some(ErrorMessage(FetchOp, o))
    ensures o.HttpNotOk? ==> r.error == Some("Failed to fetch posts")
  {
    var after := if o.Ok? then s.(posts := o.value) else Fail(s, FetchOp, o);
    after.(isLoading := false)
  }

  /** `handleCreate`: the created post goes in front of the list and the
      form closes; the post being edited is not touched. */
  function HandleCreate(s: AppState, o: Outcome<Post>): (r: AppState)
    ensures r.isLoading == s.isLoading && r.editingPost == s.editingPost
    ensures o.Ok? ==> |r.posts| == |s.posts| + 1 && r.posts[0] == o.value && r.posts[1..] == s.posts
    ensures o.Ok? ==> !r.showForm && r.error == s.error
    ensures !o.Ok? ==> r.posts == s.posts && r.showForm == s.showForm
    ensures !o.Ok? ==> r.error == Some(ErrorMessage(CreateOp, o))
    ensures o.HttpNotOk? ==> r.error == Some("Failed to create post")
  {
    match o
    case Ok(created) => s.(posts := PostStore.Prepend(s.posts, created), showForm := false)
    case _ => Fail(s, CreateOp, o)
  }

  /** `handleUpdate`: with nothing being edited it returns before any
      request; otherwise every entry with the edited post's id becomes the
      returned post and editing ends, while `showForm` is left alone. */
  function HandleUpdate(s: AppState, o: Outcome<Post>): (r: AppState)
    ensures s.editingPost.None? ==> r == s
    ensures r.isLoading == s.isLoading && r.showForm == s.showForm
    ensures s.editingPost.Some? && o.Ok? ==> |r.posts| == |s.posts|
    ensures s.editingPost.Some? && o.Ok? ==>
      forall i :: 0 <= i < |s.posts| && s.posts[i].id == s.editingPost.value.id ==> r.posts[i] == o.value
    ensures s.editingPost.Some? && o.Ok? ==>
      forall i :: 0 <= i < |s.posts| && s.posts[i].id != s.editingPost.value.id ==> r.posts[i] == s.posts[i]
    ensures s.editingPost.Some? && o.Ok? ==> r.editingPost.None? && r.error == s.error
    ensures s.editingPost.Some? && !o.Ok? ==> r.posts == s.posts && r.editingPost == s.editingPost
    ensures s.editingPost.Some? && !o.Ok? ==> r.error == Some(ErrorMessage(UpdateOp, o))
    ensures s.editingPost.Some? && o.HttpNotOk? ==> r.error == Some("Failed to update post")
  {
    match s.editingPost
    case None => s
    case Some(editing) =>
      match o
      case Ok(updated) =>
        s.(posts := PostStore.ReplaceById(s.posts, editing.id, updated), editingPost := None)
      case _ => Fail(s, UpdateOp, o)
  }

  /** `handleDelete`: on success every entry with `id` leaves the list and
      the others keep their order. */
  function HandleDelete(s: AppState, id: int, o: Outcome<()>): (r: AppState)
    ensures r.isLoading == s.isLoading && r.showForm == s.showForm && r.editingPost == s.editingPost
    ensures o.Ok? ==> |r.posts| == |s.posts| - PostStore.Count(s.posts, id)
    ensures o.Ok? ==> forall p :: p in r.posts <==> p in s.posts && p.id != id
    ensures o.Ok? ==> !PostStore.HasId(r.posts, id) && r.error == s.error
    ensures !o.Ok? ==> r.posts == s.posts && r.error == Some(ErrorMessage(DeleteOp, o))
    ensures o.HttpNotOk? ==> r.error == Some("Failed to delete post")
  {
    if o.Ok? then s.(posts := PostStore.RemoveById(s.posts, id)) else Fail(s, DeleteOp, o)
  }

  /** The form is rendered while a new post is requested or a post is being edited. */
  predicate FormVisible(s: AppState) {
    s.showForm || s.editingPost.Some?
  }

  /** The form is hidden exactly when the cancel button would change nothing. */
  lemma HiddenIffCancelIsNoop(s: AppState)
    ensures !FormVisible(s) <==> CancelForm(s) == s
  {
  }

  /** The "New Quest" button: only `showForm` changes, and the form shows. */
  function OpenForm(s: AppState): (r: AppState)
    ensures r.showForm && FormVisible(r)
    ensures r.(showForm := s.showForm) == s
  {
    s.(showForm := true)
  }

  /** A list entry's edit button: only `editingPost` changes, and the form shows. */
  function EditPost(s: AppState, p: Post): (r: AppState)
    ensures r.editingPost == Some(p) && FormVisible(r)
    ensures r.(editingPost := s.editingPost) == s
  {
    s.(editingPost := Some(p))
  }

  /** The form's cancel button: the form hides and nothing else changes. */
  function CancelForm(s: AppState): (r: AppState)
    ensures !FormVisible(r)
    ensures r.(showForm := s.showForm, editingPost := s.editingPost) == s
  {
    s.(showForm := false, editingPost := None)
  }

  /** What the component renders. */
  datatype View = LoadingView | ErrorView(message: string) | MainView

  /** JavaScript truthiness of a `string | null`: the empty string is falsy. */
  predicate Truthy(e: Option<string>) {
    e.Some? && e.value != ""
  }

  /** Loading wins over the error, and the error wins over the list. */
  function ViewOf(s: AppState): (v: View)
    ensures v.LoadingView? <==> s.isLoading
    ensures v.ErrorView? <==> !s.isLoading && s.error.Some? && s.error.value != ""
    ensures v.ErrorView? ==> Some(v.message) == s.error
    ensures v.MainView? <==> !s.isLoading && (s.error.None? || s.error.value == "")
  {
    if s.isLoading then LoadingView
    else if Truthy(s.error) then ErrorView(s.error.value)
    else MainView
  }

  /** Where the form's submit goes. */
  datatype Route = ToUpdate(id: int) | ToCreate

  /** `editingPost ? handleUpdate : handleCreate`; an update addresses the
      edited post's id. */
  function SubmitRoute(s: AppState): (r: Route)
    ensures r.ToUpdate? <==> s.editingPost.Some?
    ensures r.ToUpdate? ==> r.id == s.editingPost.value.id
  {
    match s.editingPost
    case Some(p) => ToUpdate(p.id)
    case None => ToCreate
  }

  /** One submit of the form, end to end. */
  datatype Submitted = Submitted(app: AppState, fields: PostForm.Fields, sent: PostInput)

  /** The form builds its input from its fields and the edited post, clears
      its fields, and the application routes the input to update or create;
      `o` is the response to that request. */
  function SubmitForm(s: AppState, f: PostForm.Fields, o: Outcome<Post>): (r: Submitted)
    ensures r.fields == PostForm.Blank
    ensures r.sent.title == f.title && r.sent.body == f.body
    ensures r.sent.userId == PostForm.OwnerOf(s.editingPost)
    ensures s.editingPost.Some? ==> r.app == HandleUpdate(s, o)
    ensures s.editingPost.None? ==> r.app == HandleCreate(s, o)
  {
    var sub := PostForm.Submit(f, s.editingPost);
    var app := match SubmitRoute(s)
      case ToUpdate(_) => HandleUpdate(s, o)
      case ToCreate => HandleCreate(s, o);
    Submitted(app, sub.fields, sub.input)
  }

  /** Everything that can happen to the state: a request completing, or a click. */
  datatype Action =
    | Fetched(fetched: Outcome<seq<Post>>)
    | Created(created: Outcome<Post>)
    | Updated(updated: Outcome<Post>)
    | Deleted(id: int, deleted: Outcome<()>)
    | ClickNew
    | ClickEdit(post: Post)
    | ClickCancel

  function Step(s: AppState, a: Action): AppState {
    match a
    case Fetched(o) => FetchPosts(s, o)
    case Created(o) => HandleCreate(s, o)
    case Updated(o) => HandleUpdate(s, o)
    case Deleted(id, o) => HandleDelete(s, id, o)
    case ClickNew => OpenForm(s)
    case ClickEdit(p) => EditPost(s, p)
    case ClickCancel => CancelForm(s)
  }

  /** Actions applied one after another, each completing before the next. */
  function Run(s: AppState, acts: seq<Action>): AppState
    decreases |acts|
  {
    if |acts| == 0 then s else Run(Step(s, acts[0]), acts[1..])
  }

  /** The action is a request whose response was a failure (an update with
      nothing being edited sends no request and cannot fail). */
  predicate Failed(s: AppState, a: Action) {
    match a
    case Fetched(o) => !o.Ok?
    case Created(o) => !o.Ok?
    case Updated(o) => s.editingPost.Some? && !o.Ok?
    case Deleted(_, o) => !o.Ok?
    case _ => false
  }

  /** The action's request threw an Error whose message is empty. */
  predicate BlanksError(a: Action) {
    match a
    case Fetched(o) => o == Thrown(ErrorInstance(""))
    case Created(o) => o == Thrown(ErrorInstance(""))
    case Updated(o) => o == Thrown(ErrorInstance(""))
    case Deleted(_, o) => o == Thrown(ErrorInstance(""))
    case _ => false
  }

  /** A notification requested from the toast library (`toast.success` or `toast.error` called). */
  datatype Toast = SuccessToast(text: string) | ErrorToast(text: string)

  /** The action is a create, an update of an edited post, or a delete,
      whose request succeeded. */
  predicate Succeeded(s: AppState, a: Action) {
    match a
    case Created(o) => o.Ok?
    case Updated(o) => s.editingPost.Some? && o.Ok?
    case Deleted(_, o) => o.Ok?
    case _ => false
  }

  /** The toast a step requests (`toast.success` or `toast.error` called), if any. */
  function Notify(s: AppState, a: Action): (t: Option<Toast>)
    ensures (t.Some? && t.value.ErrorToast?) <==> Failed(s, a)
    ensures (t.Some? && t.value.SuccessToast?) <==> Succeeded(s, a)
    ensures t.None? <==> !Failed(s, a) && !Succeeded(s, a)
    ensures t.Some? && t.value.ErrorToast? ==> Step(s, a).error == Some(t.value.text)
    ensures t.Some? && t.value.SuccessToast? ==> Step(s, a).error == s.error
    ensures Succeeded(s, a) && a.Created? ==> t == Some(SuccessToast("Post created successfully! \U{1F3AE}"))
    ensures Succeeded(s, a) && a.Updated? ==> t == Some(SuccessToast("Post updated successfully! \U{1F3AF}"))
    ensures Succeeded(s, a) && a.Deleted? ==> t == Some(SuccessToast("Post deleted successfully! \U{1F4A5}"))
  {
    match a
    case Fetched(o) =>
      if o.Ok? then None else Some(ErrorToast(ErrorMessage(FetchOp, o)))
    case Created(o) =>
      if o.Ok? then Some(SuccessToast("Post created successfully! \U{1F3AE}"))
      else Some(ErrorToast(ErrorMessage(CreateOp, o)))
    case Updated(o) =>
      if s.editingPost.None? then None
      else if o.Ok? then Some(SuccessToast("Post updated successfully! \U{1F3AF}"))
      else Some(ErrorToast(ErrorMessage(UpdateOp, o)))
    case Deleted(_, o) =>
      if o.Ok? then Some(SuccessToast("Post deleted successfully! \U{1F4A5}"))
      else Some(ErrorToast(ErrorMessage(DeleteOp, o)))
    case _ => None
  }

  /** A failing step fills the error slot; any other step leaves it alone. */
  lemma StepErrorSlot(s: AppState, a: Action)
    ensures Failed(s, a) ==> Step(s, a).error.Some?
    ensures !Failed(s, a) ==> Step(s, a).error == s.error
    ensures Failed(s, a) && !BlanksError(a) ==> Truthy(Step(s, a).error)
  {
  }

  /** No sequence of actions clears the error slot once it is filled. */
  lemma {:induction false} RunKeepsError(s: AppState, acts: seq<Action>)
    requires s.error.Some?
    ensures Run(s, acts).error.Some?
    decreases |acts|
  {
    if |acts| > 0 {
      StepErrorSlot(s, acts[0]);
      RunKeepsError(Step(s, acts[0]), acts[1..]);
    }
  }

  /** Some request of the run fails, judged in the state it completes in. */
  predicate SomeFailure(s: AppState, acts: seq<Action>)
    decreases |acts|
  {
    |acts| > 0 && (Failed(s, acts[0]) || SomeFailure(Step(s, acts[0]), acts[1..]))
  }

  /** After a run the error slot is filled exactly when it was filled
      before or some request of the run failed; from the initial state,
      the slot stays empty exactly as long as every request succeeds. */
  lemma {:induction false} RunErrorIffFailure(s: AppState, acts: seq<Action>)
    ensures Run(s, acts).error.Some? <==> s.error.Some? || SomeFailure(s, acts)
    ensures s == Initial ==> (Run(s, acts).error.None? <==> !SomeFailure(s, acts))
    decreases |acts|
  {
    if |acts| > 0 {
      StepErrorSlot(s, acts[0]);
      RunErrorIffFailure(Step(s, acts[0]), acts[1..]);
    }
  }

  /** Nothing sets `isLoading` back to true once it is false. */
  lemma {:induction false} RunStaysLoaded(s: AppState, acts: seq<Action>)
    requires !s.isLoading
    ensures !Run(s, acts).isLoading
    decreases |acts|
  {
    if |acts| > 0 {
      RunStaysLoaded(Step(s, acts[0]), acts[1..]);
    }
  }

  /** Once the error view shows, it keeps showing, unless some later request
      throws an Error whose message is empty. */
  lemma {:induction false} RunErrorViewPersists(s: AppState, acts: seq<Action>)
    requires ViewOf(s).ErrorView?
    requires forall i :: 0 <= i < |acts| ==> !BlanksError(acts[i])
    ensures ViewOf(Run(s, acts)).ErrorView?
    decreases |acts|
  {
    if |acts| > 0 {
      StepErrorSlot(s, acts[0]);
      RunErrorViewPersists(Step(s, acts[0]), acts[1..]);
    }
  }

  /** An Error with an empty message replaces the error text with "", which
      is falsy, so the list comes back although a request failed. */
  lemma BlankErrorHidesErrorView(s: AppState)
    requires !s.isLoading
    ensures Step(s, Created(Thrown(ErrorInstance("")))).error == Some("")
    ensures ViewOf(Step(s, Created(Thrown(ErrorInstance(""))))) == MainView
  {
  }

  /** A failed first load leaves the list empty and, unless the request
      threw an Error with an empty message, shows the error view. */
  lemma FirstLoadFailure(o: Outcome<seq<Post>>)
    requires !o.Ok? && o != Thrown(ErrorInstance(""))
    ensures FetchPosts(Initial, o).posts == []
    ensures ViewOf(FetchPosts(Initial, o)) == ErrorView(ErrorMessage(FetchOp, o))
  {
  }

  /** A failed create, update or delete is not contained to a toast: unless
      the request threw an Error with an empty message, the error slot it
      fills makes the whole component render the error view. */
  lemma MutationFailureShowsErrorView(s: AppState, a: Action)
    requires !s.isLoading
    requires a.Created? || a.Updated? || a.Deleted?
    requires Failed(s, a) && !BlanksError(a)
    ensures ViewOf(Step(s, a)).ErrorView?
    ensures Step(s, a).posts == s.posts
    ensures Step(s, a).showForm == s.showForm && Step(s, a).editingPost == s.editingPost
  {
  }

  /** A successful update ends editing, so repeating it is a no-op; and
      editing the same post again and repeating the update leaves the list
      as the first update made it. */
  lemma UpdateTwice(s: AppState, o: Outcome<Post>)
    requires o.Ok?
    ensures HandleUpdate(HandleUpdate(s, o), o) == HandleUpdate(s, o)
    ensures HandleUpdate(HandleUpdate(s, o).(editingPost := s.editingPost), o).posts
         == HandleUpdate(s, o).posts
  {
    if s.editingPost.Some? {
      PostStore.ReplaceIdempotent(s.posts, s.editingPost.value.id, o.value);
    }
  }

  /** With unique ids, deleting a listed post removes exactly one entry. */
  lemma DeleteRemovesOne(s: AppState, id: int)
    requires PostStore.UniqueIds(s.posts) && PostStore.HasId(s.posts, id)
    ensures |HandleDelete(s, id, Ok(())).posts| == |s.posts| - 1
  {
    PostStore.RemoveUniqueDropsOne(s.posts, id);
  }

  /** Deleting keeps the surviving posts in their original order: deleting
      from a concatenation deletes from each part. */
  lemma DeleteKeepsOrder(s: AppState, front: seq<Post>, back: seq<Post>, id: int)
    requires s.posts == front + back
    ensures HandleDelete(s, id, Ok(())).posts
         == PostStore.RemoveById(front, id) + PostStore.RemoveById(back, id)
  {
    PostStore.RemoveDistributes(front, back, id);
  }

  /** After a successful submit the form is still shown only if a post was
      being edited while the "New Quest" form was also open. */
  lemma SubmitSuccessFormVisibility(s: AppState, f: PostForm.Fields, o: Outcome<Post>)
    requires o.Ok?
    ensures FormVisible(SubmitForm(s, f, o).app) <==> s.editingPost.Some? && s.showForm
  {
  }

  /** The server behaves as a collection with unique ids: a load returns
      unique ids, a create returns a fresh id, an update returns the id it
      was sent to. */
  predicate ServerConsistent(s: AppState, a: Action) {
    match a
    case Fetched(o) => o.Ok? ==> PostStore.UniqueIds(o.value)
    case Created(o) => o.Ok? ==> !PostStore.HasId(s.posts, o.value.id)
    case Updated(o) => o.Ok? && s.editingPost.Some? ==> o.value.id == s.editingPost.value.id
    case _ => true
  }

  /** Every step against a consistent server keeps ids unique. */
  lemma StepKeepsUnique(s: AppState, a: Action)
    requires PostStore.UniqueIds(s.posts) && ServerConsistent(s, a)
    ensures PostStore.UniqueIds(Step(s, a).posts)
  {
    match a
    case Created(Ok(p)) => PostStore.PrependKeepsUnique(s.posts, p);
    case Updated(Ok(p)) =>
      if s.editingPost.Some? {
        PostStore.ReplaceKeepsUnique(s.posts, s.editingPost.value.id, p);
      }
    case Deleted(id, Ok(_)) => PostStore.RemoveKeepsUnique(s.posts, id);
    case _ =>
  }

  /** Every action of the run meets the server's side of the bargain. */
  predicate ConsistentRun(s: AppState, acts: seq<Action>)
    decreases |acts|
  {
    |acts| == 0 || (ServerConsistent(s, acts[0]) && ConsistentRun(Step(s, acts[0]), acts[1..]))
  }

  /** Unique ids in the store survive any run against a consistent server. */
  lemma {:induction false} RunKeepsUnique(s: AppState, acts: seq<Action>)
    requires PostStore.UniqueIds(s.posts) && ConsistentRun(s, acts)
    ensures PostStore.UniqueIds(Run(s, acts).posts)
    decreases |acts|
  {
    if |acts| > 0 {
      StepKeepsUnique(s, acts[0]);
      RunKeepsUnique(Step(s, acts[0]), acts[1..]);
    }
  }

  /** A load, a create, an edit and a failed delete, one after another. */
  lemma Walkthrough()
    ensures
      var a := Post(1, "A", "a", 1);
      var b := Post(2, "B", "b", 1);
      var a2 := Post(1, "A2", "a2", 1);
      var s1 := Run(Initial, [Fetched(Ok([a]))]);
      var s2 := Run(s1, [ClickNew, Created(Ok(b))]);
      var s3 := Run(s2, [ClickEdit(a), Updated(Ok(a2))]);
      var s4 := Run(s3, [Deleted(2, HttpNotOk)]);
      && s1 == AppState([a], false, None, false, None)
      && s2.posts == [b, a] && !FormVisible(s2)
      && s3.posts == [b, a2] && !FormVisible(s3)
      && s4.posts == s3.posts && s4.error == Some("Failed to delete post")
      && ViewOf(s4) == ErrorView("Failed to delete post")
  {
    var a := Post(1, "A", "a", 1);
    var b := Post(2, "B", "b", 1);
    var a2 := Post(1, "A2", "a2", 1);
    var s1 := AppState([a], false, None, false, None);
    assert Run(Initial, [Fetched(Ok([a]))]) == s1;
    var s2 := AppState([b, a], false, None, false, None);
    var acts2 := [ClickNew, Created(Ok(b))];
    assert acts2[1..] == [Created(Ok(b))];
    assert Run(OpenForm(s1), [Created(Ok(b))]) == s2;
    assert Run(s1, acts2) == s2;
    var s3 := AppState([b, a2], false, None, false, None);
    var e := EditPost(s2, a);
    var acts3 := [ClickEdit(a), Updated(Ok(a2))];
    assert acts3[1..] == [Updated(Ok(a2))];
    assert PostStore.ReplaceById([b, a], 1, a2) == [b, a2];
    assert Run(e, [Updated(Ok(a2))]) == s3;
    assert Run(s2, acts3) == s3;
    assert Run(s3, [Deleted(2, HttpNotOk)]) == s3.(error := Some("Failed to delete post"));
  }
}
