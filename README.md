# Notes manager: client-side store

A model of the notes page of `amplify-app/notesapp`. The page keeps its state
in a reducer: the list of notes, a loading flag, an error flag and the two
text inputs. It changes that state optimistically before its GraphQL
mutations go out. The page also receives notes created by any session
through a subscription. It drops the ones that carry its own session token
(`CLIENT_ID`), so that its own creates are not shown twice.

The project has three modules:

- `JsArray` (`js_array.dfy`) gives the meaning of the two array built-ins the
  page uses. `findIndex` answers -1 when nothing matches. `slice` counts
  negative positions back from the end and clamps every position.
- `Notes` (`notes.dfy`) holds the state and action datatypes and the reducer
  `Reduce`, a total function. It also holds the pure state transitions of
  `createNote`, `deleteNote`, `updateNote` and the subscription's `next`
  handler, with lemmas about each.
- `NotesApp` (`store.dfy`) has the class `NoteStore`. It holds the session
  token and the state. Its methods dispatch the actions in the order the page
  does. `Session` walks through one whole session with it: fetch, type, create, own
  echo, then a foreign note.

The session token and the id from `uuid()` are parameters. Network requests
are not performed. `CreateNote` returns the record its request would carry,
`UpdateNote` returns the completion flag it would send, and `FetchNotes`
takes the query's outcome (`Some(items)` or `None` for a failure) as an
argument.

Deleting an absent id is not a no-op: `findIndex` gives -1, and the page
then dispatches `slice(0, -1)` followed by `slice(0)`, that is every note but
the last and then the whole list again (`Notes.DeleteAbsentDuplicates`).
Toggling an absent id throws on `notes[-1]` before anything is dispatched, so
the model requires the id to be present. The page's only caller passes a
rendered element of the list, so the id is always present there.

## Model

| member | source | states |
|---|---|---|
| `JsArray.FindIndex` | amplify-app/notesapp/src/App.js:88 | result is -1 exactly when no element matches; otherwise the element there matches and none before it does |
| `JsArray.Clamp` | amplify-app/notesapp/src/App.js:90-91 | a slice position lies in [0, len]; a negative one counts back from the end, and an out-of-range one is clamped |
| `JsArray.Slice` | amplify-app/notesapp/src/App.js:90 | `slice(b, e)` is the subsequence `s[b..e]` for in-range positions; `slice(0, -1)` drops the last element |
| `JsArray.SliceFrom` | amplify-app/notesapp/src/App.js:91 | `slice(b)` is the suffix from `b`; a negative `b` counts from the end |
| `Notes.InitialState` | amplify-app/notesapp/src/App.js:16-21 | the initial state has no notes, is loading, has no error, and both inputs are empty |
| `Notes.Put` | amplify-app/notesapp/src/App.js:32 | the named input gets the value and the other input keeps its value |
| `Notes.Reduce` | amplify-app/notesapp/src/App.js:23-38 | only `SET_NOTES` and `ADD_NOTE` change the list; only `SET_NOTES` and `ERROR` change loading; only `ERROR` changes error; only `RESET_FORM` and `SET_INPUT` change the inputs |
| `Notes.SetNotesReplaces` | amplify-app/notesapp/src/App.js:25-26 | `SET_NOTES` replaces the list and clears loading; error and inputs are unchanged |
| `Notes.AddNotePrepends` | amplify-app/notesapp/src/App.js:27-28 | `ADD_NOTE` puts the note at the head with the old list after it in order, so the list is one longer; flags and inputs are unchanged |
| `Notes.ResetFormClears` | amplify-app/notesapp/src/App.js:29-30 | `RESET_FORM` empties both inputs, touches nothing else, and is idempotent |
| `Notes.SetInputSetsOneField` | amplify-app/notesapp/src/App.js:31-32 | `SET_INPUT` sets only the named input, touches nothing else, and is idempotent |
| `Notes.ErrorFlags` | amplify-app/notesapp/src/App.js:33-34 | `ERROR` clears loading and sets error; the list and inputs are unchanged |
| `Notes.UnrecognisedIsIdentity` | amplify-app/notesapp/src/App.js:35-36 | any other action returns the state unchanged |
| `Notes.FormComplete` | amplify-app/notesapp/src/App.js:67 | no contract of its own (the negation of the guard that alerts: both inputs are non-empty strings); its effect is stated by `Notes.CreateNoteEffect` |
| `Notes.NewNote` | amplify-app/notesapp/src/App.js:70 | no contract of its own (the record `{...form, clientId, completed: false, id}`); its fields are stated by `Notes.CreateNoteEffect` |
| `Notes.CreateNote` | amplify-app/notesapp/src/App.js:65-74 | no contract of its own; see `Notes.CreateNoteEffect`, `Notes.OwnEchoIgnored`, `Notes.CreateAllPrepends` |
| `Notes.CreateNoteEffect` | amplify-app/notesapp/src/App.js:65-74 | with an empty input nothing changes; otherwise exactly one note is prepended, carrying the inputs, `completed = false`, the session token and the fresh id, and the inputs are emptied |
| `Notes.IndexOfId` | amplify-app/notesapp/src/App.js:88 | the first index whose note has the id, or -1 exactly when none has it |
| `Notes.IndexOfIdIsFindIndex` | amplify-app/notesapp/src/App.js:88 | the search by id equals `findIndex` called with the page's predicate `note => note.id === id` |
| `Notes.DeleteNotes` | amplify-app/notesapp/src/App.js:88-92 | no contract of its own; see `Notes.DeleteRemovesFirstMatch`, `Notes.DeleteKeepsOthers`, `Notes.DeleteAbsentDuplicates` |
| `Notes.DeleteRemovesFirstMatch` | amplify-app/notesapp/src/App.js:87-92 | when the id first occurs at `i`, the result is `notes[..i] + notes[i+1..]`, one note shorter |
| `Notes.DeleteKeepsOthers` | amplify-app/notesapp/src/App.js:88-92 | deleting a present id keeps every other note in its relative order, removes exactly one copy of the first match, and keeps later notes with the same id |
| `Notes.DeleteAbsentDuplicates` | amplify-app/notesapp/src/App.js:88-92 | for an absent id the result is every note but the last followed by the whole list (empty for an empty list), so it is not a no-op |
| `Notes.DeleteNote` | amplify-app/notesapp/src/App.js:93 | the list becomes the deleted list, and because this is `SET_NOTES` loading is also cleared; error and inputs are unchanged |
| `Notes.UpdateNotes` | amplify-app/notesapp/src/App.js:106-108 | for a present id: same length, only completion flags may differ from the old list, and some note with the id carries the negation of the argument's flag; `Notes.UpdateTogglesFirstMatch` pins this to the first match |
| `Notes.UpdateTogglesFirstMatch` | amplify-app/notesapp/src/App.js:105-108 | only the first note with the id changes, and only its completion flag, which becomes the negation of the argument's; when the argument is that note, the flag is flipped; length and every other note are unchanged |
| `Notes.UpdateNote` | amplify-app/notesapp/src/App.js:109 | the list becomes the toggled list, and because this is `SET_NOTES` loading is also cleared; error and inputs are unchanged |
| `Notes.OnRemoteCreate` | amplify-app/notesapp/src/App.js:152-155 | a note with this session's token leaves the state unchanged; any other one behaves as `ADD_NOTE`, becomes the head, and makes the list one longer |
| `Notes.OwnEchoIgnored` | amplify-app/notesapp/src/App.js:152-155 | after a successful create, the echo carrying this session's token leaves the state as the create left it, one note longer than before |
| `Notes.TypeAndCreateStep` | amplify-app/notesapp/src/App.js:65-74 | typing both inputs non-empty and creating prepends exactly the note built from them and empties the inputs; flags are unchanged |
| `Notes.CreateAllPrepends` | amplify-app/notesapp/src/App.js:65-74 | after `n` creates with both inputs filled, the list is the `n` new notes newest-first followed by the old list, exactly `n` longer, with the inputs empty |
| `NotesApp.NoteStore.constructor` | amplify-app/notesapp/src/App.js:16-21 | a new store holds the initial state (empty list, loading, no error, empty inputs) and the given session token |
| `NotesApp.NoteStore.Dispatch` | amplify-app/notesapp/src/App.js:42 | `dispatch` replaces the state by the reducer's result |
| `NotesApp.NoteStore.FetchNotes` | amplify-app/notesapp/src/App.js:53-63 | on success the list becomes the items; on failure the list is kept and error is set; either way loading ends |
| `NotesApp.NoteStore.OnChange` | amplify-app/notesapp/src/App.js:122-124 | the named input takes the typed value and the list is unchanged |
| `NotesApp.NoteStore.CreateNote` | amplify-app/notesapp/src/App.js:65-79 | alerts exactly when an input is empty and then changes nothing; otherwise it prepends the new record, empties the inputs, and returns the record the create request carries |
| `NotesApp.NoteStore.DeleteNote` | amplify-app/notesapp/src/App.js:87-93 | the new state is the delete transition; the list is one shorter when the id is present and `2n - 1` long when it is absent from a list of `n > 0` notes |
| `NotesApp.NoteStore.UpdateNote` | amplify-app/notesapp/src/App.js:105-113 | the new state is the toggle transition, the length is unchanged, and the update request carries the negated flag |
| `NotesApp.NoteStore.OnRemoteCreate` | amplify-app/notesapp/src/App.js:152-155 | an own-token note leaves the state unchanged; another note is prepended |
| `NotesApp.Session` | amplify-app/notesapp/src/App.js:146-157 | fetch of `[a, b]`, a create of ("x", "y"), its own echo and a foreign `c` end in `[c, new, a, b]`, not loading, no error, inputs empty |

## Left out

- Network requests (`API.graphql` list, create, update, delete and subscribe), their logging, and the `alert`. Their results reach the state only through `FetchNotes` (the list query's outcome, `SET_NOTES` on success or `ERROR` on failure) and `OnRemoteCreate` (inbound notes); the results of create, update and delete are only logged.
- `uuid()` and the generation of `CLIENT_ID`. Both are random; they are parameters (`freshId`, the store's `clientId`).
- React's `useReducer` and `useEffect`, subscription setup and `unsubscribe`. These are framework lifecycle. Inbound notifications are calls to `OnRemoteCreate` in delivery order.
- Rendering (`renderItem`, JSX, styles) and the event objects of `onChange`. Only the resulting `SET_INPUT` dispatch is modelled.
- `SET_INPUT` with a key other than `name` or `description`. The source would add that key to the form object, but only the two inputs dispatch it, so `Field` has just those two values.
- Stale closures. The handlers read the `state` of the render that created them. The model applies each handler to the current state.
- `NotesApp.NoteStore.UpdateNote`: the source writes `completed` in place on an element object (line 108), and the array it dispatches is only a shallow copy. The model builds a new value, so this aliasing is not captured, in two ways. First, the previous state's list shares that object and changes too. Second, every other slot of the new list that holds the same object changes with it. The model changes only the first match, so `Notes.UpdateTogglesFirstMatch`'s "every other note is unchanged" holds only when the list's elements are distinct objects. An absent-id delete builds such a list: `[a, b]` becomes `[a, a, b]` with both `a` one object; `updateNote(a)` then gives `[a', a', b]` in the source but `[a', a, b]` in the model. The page never reaches such a list, because `deleteNote` always receives a rendered item whose id is present. The method also requires the id to be present, because the source throws before it dispatches when the id is absent.
- The price-viewer app (`amplify-app/amplify-react-app`) is not part of this model. It is a single fetch and render with no state logic.
