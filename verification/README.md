# Quest Log posts client — a Dafny model

The application lists, creates, edits and deletes "posts" (id, title, body,
owning user id) held by a remote REST collection, and keeps a local copy of
that list in its state. This project models:

- the application state of `src/App.tsx` (`posts`, `isLoading`, `error`,
  `showForm`, `editingPost`) and its four request handlers `fetchPosts`,
  `handleCreate`, `handleUpdate` and `handleDelete`. Each handler becomes a
  pure transition from the state before its request to the state after its
  response. The response is an abstract `Outcome`: a decoded body, a
  response whose `ok` flag is false, or a thrown value (an `Error` with its
  message, or anything else);
- the three click handlers (the "New Quest" button, a list entry's edit
  button, the form's cancel button), the choice between the loading, error
  and list views, when the form is shown, and where a submit goes;
- the toast each handler requests (`toast.success` or `toast.error` called), as a returned value;
- the form of `src/components/PostForm.tsx`: its sync from the `post` prop,
  its submit (building the `PostInput`, choosing the owner, clearing the
  fields) and its two field setters.

Files: `types.dfy` (`Post`, `PostInput`, `Option`), `post_store.dfy`
(prepend, replace by id, remove by id, and the uniqueness of ids),
`post_form.dfy` (the form), `app.dfy` (state, handlers, view, routing,
toasts, and runs of several actions).

Three consequences of the code that the model states:

- Every failed request also writes `error` (src/App.tsx:27, 50, 75, 90).
  The component renders the error view whenever that slot is truthy and the
  load has finished (src/App.tsx:106-112). So one failed create, update or
  delete replaces the whole list with the error text, unless the request
  threw an Error with an empty message (third point below), and nothing
  clears the slot again (`App.MutationFailureShowsErrorView`,
  `App.RunErrorViewPersists`).
- A successful delete removes every entry with the id (src/App.tsx:86).
  That is exactly one entry only when ids are unique
  (`App.DeleteRemovesOne`); in general it is the number of matching entries
  (`App.HandleDelete`).
- The error view tests the slot's JavaScript truthiness. A thrown `Error`
  with an empty message stores `""`, and that hides the error view even
  though a request failed (`App.BlankErrorHidesErrorView`). The slot itself
  never returns to `null` (`App.RunKeepsError`).

The success toast texts end in the emoji U+1F3AE, U+1F3AF and U+1F4A5. The
source file shows their UTF-8 bytes read back as CP1252 ("ðŸŽ®", "ðŸŽ¯",
"ðŸ’¥"); the model uses the decoded characters.

The model assumes that operations complete one at a time.

## Model

| member | source | states |
|---|---|---|
| PostStore.Prepend | src/App.tsx:45 | the created post is at index 0, the old list follows unchanged, and the length grows by one |
| PostStore.ReplaceById | src/App.tsx:70 | the length is kept; every entry with the id becomes the returned post; every other entry is unchanged |
| PostStore.RemoveById | src/App.tsx:86 | no remaining entry has the id; a post remains iff it was present and has another id; the length drops by the number of matching entries |
| PostStore.RemoveMultiset | src/App.tsx:86 | each post with another id remains exactly as many times as it occurred, and posts with the id do not remain |
| PostStore.ReplaceIdempotent | src/App.tsx:70 | replacing by the same id with the same post twice gives the same list as once |
| PostStore.RemoveDistributes | src/App.tsx:86 | removing from a concatenation is removing from each part, so the kept entries keep their relative order |
| PostStore.RemoveAbsent | src/App.tsx:86 | removing an id that no entry carries returns the list unchanged |
| PostStore.RemoveUniqueDropsOne | src/App.tsx:86 | with unique ids, removing a present id shortens the list by exactly one |
| PostStore.PrependKeepsUnique | src/App.tsx:45 | prepending a post with a fresh id keeps ids unique |
| PostStore.ReplaceKeepsUnique | src/App.tsx:70 | replacing by id with a post that carries that id keeps ids unique |
| PostStore.RemoveKeepsUnique | src/App.tsx:86 | removing by id keeps ids unique |
| PostForm.Sync | src/components/PostForm.tsx:15-20 | a defined post overwrites both fields with its title and body; an undefined post leaves the fields as they were |
| PostForm.OwnerOf | src/components/PostForm.tsx:27 | the owner is the edited post's userId when that is non-zero, and 1 otherwise; it is never 0 |
| PostForm.Submit | src/components/PostForm.tsx:22-31 | the input carries the current title and body unchanged and the chosen owner; both fields are empty afterwards, whatever the outcome of the request |
| PostForm.SetTitle | src/components/PostForm.tsx:50 | only the title changes; the body is kept |
| PostForm.SetBody | src/components/PostForm.tsx:64 | only the body changes; the title is kept |
| PostForm.EditRoundTrip | src/components/PostForm.tsx:15-31 | syncing from a post with a non-zero owner and submitting unedited sends back that post's title, body and owner |
| PostForm.ZeroOwnerBecomesOne | src/components/PostForm.tsx:27 | a post owned by user 0 is submitted as owned by user 1 |
| PostForm.SettersCommute | src/components/PostForm.tsx:50-64 | the two field edits are independent and may be applied in either order |
| PostForm.TypedThenSubmitted | src/components/PostForm.tsx:22-64 | what was typed into the fields is what is submitted, and the form is blank afterwards |
| PostForm.SyncIdempotent | src/components/PostForm.tsx:15-20 | syncing twice from the same prop is the same as syncing once |
| App.FetchPosts | src/App.tsx:19-31 | loading ends either way; on success the list becomes exactly the fetched list; on failure the list is kept and the error slot holds the message ("Failed to fetch posts" for a non-ok status); the form state is untouched |
| App.HandleCreate | src/App.tsx:34-53 | on success the created post is at index 0 before the old list, the form closes and the edited post is untouched; on failure the list, `showForm` and `editingPost` are kept and the error slot holds the message ("Failed to create post" for a non-ok status) |
| App.HandleUpdate | src/App.tsx:55-78 | with nothing being edited, no field changes; on success the length is kept, entries with the edited id become the returned post, the others are unchanged, editing ends and `showForm` is kept; on failure the list and the edited post are kept and the error slot holds the message ("Failed to update post" for a non-ok status) |
| App.HandleDelete | src/App.tsx:80-93 | on success no entry with the id remains, a post remains iff it was present with another id, the length drops by the number of matches, and the form state is kept; on failure the list is kept and the error slot holds the message ("Failed to delete post" for a non-ok status) |
| App.HiddenIffCancelIsNoop | src/App.tsx:129-137 | the form, shown iff `showForm` is set or a post is being edited (`FormVisible`, the condition of line 129), is hidden exactly when the cancel button would change nothing |
| App.OpenForm | src/App.tsx:121 | only `showForm` changes, and the form becomes visible |
| App.EditPost | src/App.tsx:144 | only `editingPost` changes, to the chosen post, and the form becomes visible |
| App.CancelForm | src/App.tsx:134-137 | the form is hidden (`showForm` false, nothing edited) and no other field changes |
| App.ViewOf | src/App.tsx:95-114 | the loading view shows iff loading; the error view shows iff not loading and the error slot holds a non-empty text, which it displays; otherwise (slot `null` or `""`, both falsy at line 106) the list view shows |
| App.SubmitRoute | src/App.tsx:133 | a submit goes to update iff a post is being edited, and the update addresses that post's id; otherwise it goes to create |
| App.SubmitForm | src/App.tsx:131-133 | the form is cleared, the sent input carries the typed title and body and the chosen owner, and the application applies the update handler iff a post is being edited, the create handler otherwise |
| App.Notify | src/App.tsx:19-93 | an error toast is requested iff a request failed, with the new content of the error slot as its text; a success toast is requested iff a create, an update of an edited post, or a delete succeeded, with the handler's own text, and the error slot is left alone; otherwise no toast is requested |
| App.ErrorMessage | src/App.tsx:22-89 | a non-ok status gives the handler's status text; a thrown Error gives its message; any other thrown value gives "An error occurred" for a fetch and the status text otherwise; only a thrown Error can give an empty text |
| App.StepErrorSlot | src/App.tsx:25-91 | a failing request fills the error slot (with truthy text unless the thrown Error's message is empty); every other step leaves the slot as it was |
| App.RunKeepsError | src/App.tsx:11-91 | once the error slot is filled, no sequence of actions empties it |
| App.RunErrorIffFailure | src/App.tsx:11-91 | after any run the error slot is filled iff it was filled before or some request of the run failed; from the initial state it stays empty iff every request succeeds |
| App.RunStaysLoaded | src/App.tsx:10-31 | once loading has ended, no sequence of actions starts it again |
| App.RunErrorViewPersists | src/App.tsx:106-112 | once the error view shows, it keeps showing after any sequence of actions in which no request throws an Error with an empty message |
| App.BlankErrorHidesErrorView | src/App.tsx:49-112 | a create that throws an Error with an empty message stores "" and the list view shows |
| App.FirstLoadFailure | src/App.tsx:19-31 | a failed first load leaves the list empty and, unless the request threw an Error with an empty message, shows the error view with the failure's message |
| App.MutationFailureShowsErrorView | src/App.tsx:43-112 | a failed create, update or delete keeps the list and the form state, but, unless the request threw an Error with an empty message, the error view replaces the list |
| App.UpdateTwice | src/App.tsx:68-71 | repeating a successful update does nothing more, and re-editing the same post and repeating the update leaves the list as the first update made it |
| App.DeleteRemovesOne | src/App.tsx:85-86 | with unique ids, deleting a listed post removes exactly one entry |
| App.DeleteKeepsOrder | src/App.tsx:86 | deleting from a list that is a concatenation deletes from each part, keeping order |
| App.SubmitSuccessFormVisibility | src/App.tsx:46-129 | after a successful submit the form remains visible iff a post was being edited while the new-post form was also open |
| App.StepKeepsUnique | src/App.tsx:24-86 | every step keeps store ids unique when the server returns unique ids, fresh ids on create and the addressed id on update |
| App.RunKeepsUnique | src/App.tsx:19-93 | unique store ids survive any run of actions against such a server |
| App.Walkthrough | src/App.tsx:19-112 | load [A], create B, edit A to A2, then a failed delete of B give [B, A], [B, A2], the same list again, and the error view "Failed to delete post" |

## Left out

- HTTP and JSON: the URLs, methods, headers and bodies of the four requests, and the decoding of responses. Each response is a parameter of its transition, and a successful body is taken to be a well-formed `Post` or list of posts, as the source's TypeScript types assume without checking.
- The `PostInput` a submit builds is sent to the server only. The state changes only through the server's answer, so `App.SubmitForm` records the input without using it.
- React scheduling: the effect that starts the first load on mount (src/App.tsx:15-17) is the `Initial` state followed by a `Fetched` action. The form's remounting (fresh blank fields whenever it is hidden and shown again) and its effect's dependency on the prop's object identity are not modelled; `PostForm.Sync` is the effect's body.
- Concurrency: the handlers read `posts` from the render in which they were created, so two requests completing in an interleaved order can lose an update. The model applies one completed action at a time.
- The toast library's rendering: `App.Notify` says which toast is requested and with which text, not what is displayed. The `Toaster` is mounted only in the list view (src/App.tsx:116), so toasts requested while the loading or error view is shown, such as an error toast with non-empty text, which comes with the switch to the error view, are not displayed then.
- Styling, icons, `e.preventDefault()`, and the browser's `required` check on the two inputs (src/components/PostForm.tsx:52, 68), which lives in the DOM rather than in code.
- src/components/PostList.tsx is not part of this model. It only renders the list and wires `onEdit(post)` and `onDelete(post.id)`, which are the `ClickEdit` and `Deleted` actions here.
- tailwind.config.js is not part of this model (styling only).
- PostForm.OwnerOf: ids are unbounded integers, so the falsy `NaN` and non-integer JavaScript numbers are not modelled; only 0 falls back to user 1.
