/** The create/edit form (src/components/PostForm.tsx): two text fields,
    a sync from the `post` being edited, a submit that builds a PostInput and
    clears the fields, and one setter per field. */
module PostForm {
  import opened Types

  /** The form's local state: the current contents of its two inputs. */
  datatype Fields = Fields(title: string, body: string)

  /** Both inputs start empty and a submit returns them to empty. */
  const Blank := Fields("", "")

  /** What one submit produces: the input handed to the parent, and the
      fields the form shows afterwards. */
  datatype Submission = Submission(input: PostInput, fields: Fields)

  /** The effect that runs when the `post` prop changes: a defined post
      overwrites both fields, an undefined one leaves them as they are. */
  function Sync(f: Fields, post: Option<Post>): (r: Fields)
    ensures post.Some? ==> r.title == post.value.title && r.body == post.value.body
    ensures post.None? ==> r == f
  {
    match post
    case Some(p) => Fields(p.title, p.body)
    case None => f
  }

  /** `post?.userId || 1`: the edited post's owner when that id is truthy
      (non-zero), and user 1 otherwise. The result is never the falsy 0. */
  function OwnerOf(post: Option<Post>): (u: int)
    ensures u != 0
    ensures post.Some? && post.value.userId != 0 ==> u == post.value.userId
    ensures post.None? || post.value.userId == 0 ==> u == 1
  {
    if post.Some? && post.value.userId != 0 then post.value.userId else 1
  }

  /** The submit handler: it passes the current fields on unchanged, fills in
      the owner, and then clears both fields whatever the parent does with
      the input. */
  function Submit(f: Fields, post: Option<Post>): (r: Submission)
    ensures r.input.title == f.title && r.input.body == f.body
    ensures r.input.userId == OwnerOf(post)
    ensures r.fields.title == "" && r.fields.body == ""
  {
    Submission(PostInput(f.title, f.body, OwnerOf(post)), Blank)
  }

  /** The title input's change handler: only the title changes. */
  function SetTitle(f: Fields, title: string): (r: Fields)
    ensures r.title == title && r.body == f.body
  {
    f.(title := title)
  }

  /** The body textarea's change handler: only the body changes. */
  function SetBody(f: Fields, body: string): (r: Fields)
    ensures r.body == body && r.title == f.title
  {
    f.(body := body)
  }

  /** Submitting an untouched edit form sends back the post's own title,
      body and owner (when the owner id is non-zero), whatever the fields
      held before the sync. */
  lemma EditRoundTrip(f: Fields, p: Post)
    requires p.userId != 0
    ensures Submit(Sync(f, Some(p)), Some(p)).input == PostInput(p.title, p.body, p.userId)
  {
  }

  /** A post owned by user 0 is resubmitted as owned by user 1. */
  lemma ZeroOwnerBecomesOne(f: Fields, p: Post)
    requires p.userId == 0
    ensures Submit(f, Some(p)).input.userId == 1
  {
  }

  /** Edits to the two fields are independent of each other. */
  lemma SettersCommute(f: Fields, title: string, body: string)
    ensures SetBody(SetTitle(f, title), body) == SetTitle(SetBody(f, body), title)
    ensures SetBody(SetTitle(f, title), body) == Fields(title, body)
  {
  }

  /** Typing into the fields and submitting sends what was typed, and the
      form is blank afterwards. */
  lemma TypedThenSubmitted(f: Fields, title: string, body: string, post: Option<Post>)
    ensures Submit(SetBody(SetTitle(f, title), body), post).input.title == title
    ensures Submit(SetBody(SetTitle(f, title), body), post).input.body == body
    ensures Submit(SetBody(SetTitle(f, title), body), post).fields == Blank
  {
  }

  /** Running the sync again with the same prop changes nothing. */
  lemma SyncIdempotent(f: Fields, post: Option<Post>)
    ensures Sync(Sync(f, post), post) == Sync(f, post)
  {
  }
}
