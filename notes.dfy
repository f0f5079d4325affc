/**
 * The notes manager's client-side state: the record the reducer keeps, the
 * tagged actions it accepts, the reducer itself, and the state transitions
 * that the create, delete, toggle and subscription handlers perform before
 * their network requests go out.
 */
module Notes {
  import opened JsArray

  /** A note record; `clientId` names the session that created it. */
  datatype Note = Note(id: string, name: string, description: string, completed: bool, clientId: string)

  /** The two text inputs of the page. */
  datatype Form = Form(name: string, description: string)

  datatype State = State(notes: seq<Note>, loading: bool, error: bool, form: Form)

  /** Which input an `onChange` event came from (the `name` attribute of the input). */
  datatype Field = Name | Description

  datatype Action =
    | SetNotes(items: seq<Note>)
    | AddNote(note: Note)
    | ResetForm
    | SetInput(field: Field, value: string)
    | Error
    /** An action whose `type` is none of the five tags above; the page dispatches none. */
    | Unrecognised(tag: string)

  /** Empty list, still loading, no error, empty inputs. */
  function InitialState(): (r: State)
    ensures r.notes == [] && r.loading && !r.error
    ensures Get(r.form, Name) == "" && Get(r.form, Description) == ""
  {
    State([], true, false, Form("", ""))
  }

  function Get(f: Form, k: Field): (r: string) {
    match k
    case Name => f.name
    case Description => f.description
  }

  function Put(f: Form, k: Field, v: string): (r: Form)
    ensures Get(r, k) == v
    ensures forall other :: other != k ==> Get(r, other) == Get(f, other)
  {
    match k
    case Name => f.(name := v)
    case Description => f.(description := v)
  }

  /**
   * The reducer. Each part of the state is changed only by the actions that
   * are meant to change it.
   */
  function Reduce(s: State, a: Action): (r: State)
    ensures r.notes != s.notes ==> a.SetNotes? || a.AddNote?
    ensures r.loading != s.loading ==> a.SetNotes? || a.Error?
    ensures r.error != s.error ==> a.Error?
    ensures r.form != s.form ==> a.ResetForm? || a.SetInput?
  {
    match a
    case SetNotes(items) => s.(notes := items, loading := false)
    case AddNote(n) => s.(notes := [n] + s.notes)
    case ResetForm => s.(form := InitialState().form)
    case SetInput(k, v) => s.(form := Put(s.form, k, v))
    case Error => s.(loading := false, error := true)
    case Unrecognised(_) => s
  }

  lemma SetNotesReplaces(s: State, items: seq<Note>)
    ensures Reduce(s, SetNotes(items)).notes == items
    ensures !Reduce(s, SetNotes(items)).loading
    ensures Reduce(s, SetNotes(items)).error == s.error
    ensures Reduce(s, SetNotes(items)).form == s.form
  {
  }

  lemma AddNotePrepends(s: State, n: Note)
    ensures var r := Reduce(s, AddNote(n));
      && |r.notes| == |s.notes| + 1
      && r.notes[0] == n
      && r.notes[1..] == s.notes
      && r.loading == s.loading && r.error == s.error && r.form == s.form
  {
  }

  lemma ResetFormClears(s: State)
    ensures var r := Reduce(s, ResetForm);
      && Get(r.form, Name) == "" && Get(r.form, Description) == ""
      && r.notes == s.notes && r.loading == s.loading && r.error == s.error
      && Reduce(r, ResetForm) == r
  {
  }

  lemma SetInputSetsOneField(s: State, k: Field, v: string)
    ensures var r := Reduce(s, SetInput(k, v));
      && Get(r.form, k) == v
      && (forall other :: other != k ==> Get(r.form, other) == Get(s.form, other))
      && r.notes == s.notes && r.loading == s.loading && r.error == s.error
      && Reduce(r, SetInput(k, v)) == r
  {
  }

  lemma ErrorFlags(s: State)
    ensures var r := Reduce(s, Error);
      && !r.loading && r.error
      && r.notes == s.notes && r.form == s.form
  {
  }

  lemma UnrecognisedIsIdentity(s: State, tag: string)
    ensures Reduce(s, Unrecognised(tag)) == s
  {
  }

  // ---------------------------------------------------------------------
  // createNote

  /** The guard of `createNote`: both inputs are non-empty (an empty string is falsy). */
  predicate FormComplete(f: Form) {
    f.name != "" && f.description != ""
  }

  /** The record `createNote` builds from the inputs, the session token and a fresh id. */
  function NewNote(f: Form, clientId: string, freshId: string): (n: Note) {
    Note(freshId, f.name, f.description, false, clientId)
  }

  /**
   * The local effect of `createNote`: nothing when an input is empty (the
   * user is alerted instead), otherwise `ADD_NOTE` of the new record followed
   * by `RESET_FORM`.
   */
  function CreateNote(s: State, clientId: string, freshId: string): (r: State) {
    if !FormComplete(s.form) then s
    else Reduce(Reduce(s, AddNote(NewNote(s.form, clientId, freshId))), ResetForm)
  }

  lemma CreateNoteEffect(s: State, clientId: string, freshId: string)
    ensures var r := CreateNote(s, clientId, freshId);
      && (!FormComplete(s.form) ==> r == s)
      && (FormComplete(s.form) ==>
            && |r.notes| == |s.notes| + 1
            && r.notes[1..] == s.notes
            && r.notes[0].id == freshId
            && r.notes[0].clientId == clientId
            && !r.notes[0].completed
            && r.notes[0].name == s.form.name
            && r.notes[0].description == s.form.description
            && r.form == Form("", "")
            && r.loading == s.loading && r.error == s.error)
  {
  }

  // ---------------------------------------------------------------------
  // deleteNote

  /**
   * `notes.findIndex(note => note.id === id)`, written out for this one
   * predicate; `IndexOfIdIsFindIndex` ties it to the built-in.
   */
  function IndexOfId(notes: seq<Note>, id: string): (r: int)
    ensures -1 <= r < |notes|
    ensures 0 <= r ==> notes[r].id == id && forall j :: 0 <= j < r ==> notes[j].id != id
    ensures r == -1 <==> forall j :: 0 <= j < |notes| ==> notes[j].id != id
    decreases |notes|
  {
    if notes == [] then -1
    else if notes[0].id == id then 0
    else
      var k := IndexOfId(notes[1..], id);
      if k == -1 then -1 else k + 1
  }

  /** The search by id is `findIndex` with the predicate the page passes. */
  lemma IndexOfIdIsFindIndex(notes: seq<Note>, id: string)
    ensures IndexOfId(notes, id) == FindIndex(notes, (n: Note) => n.id == id)
  {
  }

  /** The id occurs in `notes`, as it does for every note the page renders. */
  predicate Present(notes: seq<Note>, id: string) {
    exists j :: 0 <= j < |notes| && notes[j].id == id
  }

  /** The list `deleteNote` builds: the slice before the found index, then the slice after it. */
  function DeleteNotes(notes: seq<Note>, id: string): (r: seq<Note>) {
    var index := IndexOfId(notes, id);
    Slice(notes, 0, index) + SliceFrom(notes, index + 1)
  }

  /** The local effect of `deleteNote`: `SET_NOTES` with the shortened list. */
  function DeleteNote(s: State, id: string): (r: State)
    ensures r.notes == DeleteNotes(s.notes, id)
    ensures !r.loading && r.error == s.error && r.form == s.form
  {
    Reduce(s, SetNotes(DeleteNotes(s.notes, id)))
  }

  /**
   * When `id` first occurs at `i`, exactly that occurrence goes: the list is
   * the part before `i` followed by the part after it.
   */
  lemma DeleteRemovesFirstMatch(notes: seq<Note>, id: string, i: nat)
    requires i < |notes| && notes[i].id == id
    requires forall j :: 0 <= j < i ==> notes[j].id != id
    ensures DeleteNotes(notes, id) == notes[..i] + notes[i + 1..]
    ensures |DeleteNotes(notes, id)| == |notes| - 1
  {
    assert IndexOfId(notes, id) == i;
  }

  /**
   * Cutting position `i` out of a sequence keeps the rest in order, removes
   * one copy of `s[i]` and keeps every later element.
   */
  lemma CutAt<T>(s: seq<T>, i: nat)
    requires i < |s|
    ensures var r := s[..i] + s[i + 1..];
      && (forall k :: 0 <= k < |r| ==> r[k] == if k < i then s[k] else s[k + 1])
      && multiset(r) == multiset(s) - multiset{s[i]}
      && (forall j :: i < j < |s| ==> s[j] in r)
  {
    var r := s[..i] + s[i + 1..];
    assert s == s[..i] + [s[i]] + s[i + 1..];
    assert multiset(s) == multiset(s[..i]) + multiset{s[i]} + multiset(s[i + 1..]);
    forall j | i < j < |s| ensures s[j] in r {
      assert r[j - 1] == s[j];
    }
  }

  /**
   * Deleting a present id keeps every other note in its order and removes one
   * copy of the matched note; later notes with the same id stay.
   */
  lemma DeleteKeepsOthers(notes: seq<Note>, id: string, i: nat)
    requires i < |notes| && notes[i].id == id
    requires forall j :: 0 <= j < i ==> notes[j].id != id
    ensures var r := DeleteNotes(notes, id);
      && (forall k :: 0 <= k < |r| ==> r[k] == if k < i then notes[k] else notes[k + 1])
      && multiset(r) == multiset(notes) - multiset{notes[i]}
      && (forall j :: i < j < |notes| ==> notes[j] in r)
  {
    var r := DeleteNotes(notes, id);
    DeleteRemovesFirstMatch(notes, id, i);
    assert r == notes[..i] + notes[i + 1..];
    CutAt(notes, i);
  }

  /**
   * When `id` is absent, `findIndex` gives -1 and the handler builds
   * `slice(0, -1)` followed by `slice(0)`: every note but the last, then the
   * whole list again. This is not a no-op on a non-empty list.
   */
  lemma DeleteAbsentDuplicates(notes: seq<Note>, id: string)
    requires forall j :: 0 <= j < |notes| ==> notes[j].id != id
    ensures var r := DeleteNotes(notes, id);
      && (|notes| == 0 ==> r == [])
      && (0 < |notes| ==> r == notes[..|notes| - 1] + notes && |r| == 2 * |notes| - 1)
  {
    assert IndexOfId(notes, id) == -1;
  }

  // ---------------------------------------------------------------------
  // updateNote

  /**
   * The list `updateNote` dispatches: the element at the first index with the
   * argument's id gets the negation of the ARGUMENT's completion flag.
   */
  function UpdateNotes(notes: seq<Note>, note: Note): (r: seq<Note>)
    requires Present(notes, note.id)
    ensures |r| == |notes|
    ensures forall k :: 0 <= k < |r| ==> r[k].(completed := notes[k].completed) == notes[k]
    ensures exists k :: 0 <= k < |r| && r[k].id == note.id && r[k].completed == !note.completed
  {
    var index := IndexOfId(notes, note.id);
    notes[index := notes[index].(completed := !note.completed)]
  }

  /** The local effect of `updateNote`: `SET_NOTES` with the toggled list. */
  function UpdateNote(s: State, note: Note): (r: State)
    requires Present(s.notes, note.id)
    ensures r.notes == UpdateNotes(s.notes, note)
    ensures !r.loading && r.error == s.error && r.form == s.form
  {
    Reduce(s, SetNotes(UpdateNotes(s.notes, note)))
  }

  /**
   * Only the first note with the argument's id changes, and only in its
   * completion flag; when the argument is that note (the page passes the
   * rendered element) the flag is flipped.
   */
  lemma UpdateTogglesFirstMatch(notes: seq<Note>, note: Note, i: nat)
    requires i < |notes| && notes[i].id == note.id
    requires forall j :: 0 <= j < i ==> notes[j].id != note.id
    ensures var r := UpdateNotes(notes, note);
      && |r| == |notes|
      && r[i] == notes[i].(completed := !note.completed)
      && (note == notes[i] ==> r[i].completed == !notes[i].completed)
      && (forall k :: 0 <= k < |r| && k != i ==> r[k] == notes[k])
  {
    assert IndexOfId(notes, note.id) == i;
  }

  // ---------------------------------------------------------------------
  // subscription

  /**
   * The subscription's `next` handler: a note carrying this session's token
   * is the echo of its own create and is dropped; any other is `ADD_NOTE`.
   */
  function OnRemoteCreate(s: State, clientId: string, note: Note): (r: State)
    ensures note.clientId == clientId ==> r == s
    ensures note.clientId != clientId ==>
      r == Reduce(s, AddNote(note)) && |r.notes| == |s.notes| + 1 && r.notes[0] == note
  {
    if note.clientId == clientId then s else Reduce(s, AddNote(note))
  }

  /**
   * One's own create is never shown twice: after a successful `createNote`,
   * any echo carrying this session's token (whatever else the server filled
   * in) leaves the state as the create left it, one note longer than before.
   */
  lemma OwnEchoIgnored(s: State, clientId: string, freshId: string, echo: Note)
    requires FormComplete(s.form)
    requires echo.clientId == clientId
    ensures var created := CreateNote(s, clientId, freshId);
      && OnRemoteCreate(created, clientId, echo) == created
      && |OnRemoteCreate(created, clientId, echo).notes| == |s.notes| + 1
      && OnRemoteCreate(created, clientId, echo).notes[0].id == freshId
  {
  }

  // ---------------------------------------------------------------------
  // Several creates in a row

  /** What the user types and the id `uuid()` hands out for one create. */
  datatype Draft = Draft(name: string, description: string, id: string)

  /** Typing both fields, then pressing "Create Note". */
  function TypeAndCreate(s: State, clientId: string, d: Draft): (r: State) {
    var typed := Reduce(Reduce(s, SetInput(Name, d.name)), SetInput(Description, d.description));
    CreateNote(typed, clientId, d.id)
  }

  function CreateAll(s: State, clientId: string, ds: seq<Draft>): (r: State)
    decreases |ds|
  {
    if ds == [] then s else CreateAll(TypeAndCreate(s, clientId, ds[0]), clientId, ds[1..])
  }

  function NotesOf(clientId: string, ds: seq<Draft>): (r: seq<Note>)
    ensures |r| == |ds|
  {
    if ds == [] then []
    else [NewNote(Form(ds[0].name, ds[0].description), clientId, ds[0].id)] + NotesOf(clientId, ds[1..])
  }

  function Reversed<T>(s: seq<T>): (r: seq<T>)
    ensures |r| == |s|
  {
    if s == [] then [] else Reversed(s[1..]) + [s[0]]
  }

  /** One filled-in create prepends exactly its own note and empties the inputs. */
  lemma TypeAndCreateStep(s: State, clientId: string, d: Draft)
    requires d.name != "" && d.description != ""
    ensures var r := TypeAndCreate(s, clientId, d);
      && r.notes == [NewNote(Form(d.name, d.description), clientId, d.id)] + s.notes
      && r.loading == s.loading && r.error == s.error && r.form == Form("", "")
  {
  }

  /**
   * Each create with both fields filled adds exactly one note, most recent
   * first, so after `n` of them the list is the `n` new notes newest-first
   * followed by the old list, and the form is empty again.
   */
  lemma {:induction false} CreateAllPrepends(s: State, clientId: string, ds: seq<Draft>)
    requires forall k :: 0 <= k < |ds| ==> ds[k].name != "" && ds[k].description != ""
    decreases |ds|
    ensures var r := CreateAll(s, clientId, ds);
      && r.notes == Reversed(NotesOf(clientId, ds)) + s.notes
      && |r.notes| == |s.notes| + |ds|
      && r.loading == s.loading && r.error == s.error
      && (ds != [] ==> r.form == Form("", ""))
  {
    if ds != [] {
      var d := ds[0];
      var next := TypeAndCreate(s, clientId, d);
      var n := NewNote(Form(d.name, d.description), clientId, d.id);
      TypeAndCreateStep(s, clientId, d);
      assert CreateAll(s, clientId, ds) == CreateAll(next, clientId, ds[1..]);
      assert forall k :: 0 <= k < |ds[1..]| ==> ds[1..][k] == ds[k + 1];
      CreateAllPrepends(next, clientId, ds[1..]);
      var rest := NotesOf(clientId, ds[1..]);
      assert NotesOf(clientId, ds) == [n] + rest;
      assert Reversed(NotesOf(clientId, ds)) == Reversed(rest) + [n] by {
        assert ([n] + rest)[1..] == rest;
      }
      assert CreateAll(next, clientId, ds[1..]).notes == Reversed(rest) + ([n] + s.notes);
      if ds[1..] == [] {
        assert CreateAll(s, clientId, ds) == next;
      }
    }
  }
}
