/**
 * The notes page as an object: it holds the reducer's state and this
 * session's token, and each handler dispatches its actions in the order the
 * page does. Network requests are not performed; a handler returns what its
 * request would carry, and the outcome of the initial fetch is an argument.
 */
module NotesApp {
  import opened Notes

  datatype Option<T> = None | Some(value: T)

  class NoteStore {
    /** The session token (`CLIENT_ID`), fixed when the page loads. */
    const clientId: string
    var state: State

    constructor (clientId: string)
      ensures this.clientId == clientId
      ensures state == InitialState()
    {
      this.clientId := clientId;
      state := InitialState();
    }

    /** `dispatch`: the reducer replaces the state. */
    method Dispatch(a: Action)
      modifies this
      ensures state == Reduce(old(state), a)
    {
      state := Reduce(state, a);
    }

    /**
     * `fetchNotes` once the query has answered: the items on success
     * (`SET_NOTES`), `ERROR` on failure.
     */
    method FetchNotes(outcome: Option<seq<Note>>)
      modifies this
      ensures outcome.Some? ==> state == Reduce(old(state), SetNotes(outcome.value))
      ensures outcome.None? ==> state == Reduce(old(state), Error)
      ensures state.notes == (if outcome.Some? then outcome.value else old(state.notes))
      ensures !state.loading && state.form == old(state.form)
      ensures state.error == (outcome.None? || old(state.error))
    {
      match outcome
      case Some(items) => Dispatch(SetNotes(items));
      case None => Dispatch(Error);
    }

    /** `onChange` of one of the two inputs. */
    method OnChange(field: Field, value: string)
      modifies this
      ensures state == Reduce(old(state), SetInput(field, value))
      ensures Get(state.form, field) == value
      ensures state.notes == old(state.notes)
    {
      Dispatch(SetInput(field, value));
    }

    /**
     * `createNote` with `freshId` standing for `uuid()`. On an empty input it
     * alerts and returns `None` without touching the state; otherwise it
     * returns the record its create request carries.
     */
    method CreateNote(freshId: string) returns (sent: Option<Note>)
      modifies this
      ensures state == Notes.CreateNote(old(state), clientId, freshId)
      ensures sent.None? <==> !FormComplete(old(state.form))
      ensures sent.Some? ==>
                && sent.value == NewNote(old(state.form), clientId, freshId)
                && state.notes == [sent.value] + old(state.notes)
                && state.form == Form("", "")
    {
      var form := state.form;
      if !FormComplete(form) {
        return None;
      }
      var note := NewNote(form, clientId, freshId);
      Dispatch(AddNote(note));
      Dispatch(ResetForm);
      sent := Some(note);
    }

    /** `deleteNote`: dispatch the sliced list. */
    method DeleteNote(id: string)
      modifies this
      ensures state == Notes.DeleteNote(old(state), id)
      ensures Present(old(state.notes), id) ==> |state.notes| == |old(state.notes)| - 1
      ensures !Present(old(state.notes), id) && old(state.notes) != [] ==>
                |state.notes| == 2 * |old(state.notes)| - 1
    {
      var notes := DeleteNotes(state.notes, id);
      if Present(state.notes, id) {
        DeleteRemovesFirstMatch(state.notes, id, IndexOfId(state.notes, id) as nat);
      } else {
        DeleteAbsentDuplicates(state.notes, id);
      }
      Dispatch(SetNotes(notes));
    }

    /**
     * `updateNote` for a rendered note: dispatch the toggled list and return
     * the completion flag its update request carries.
     */
    method UpdateNote(note: Note) returns (sentCompleted: bool)
      requires Present(state.notes, note.id)
      modifies this
      ensures state == Notes.UpdateNote(old(state), note)
      ensures sentCompleted == !note.completed
      ensures |state.notes| == |old(state.notes)|
    {
      var index := IndexOfId(state.notes, note.id);
      var notes := UpdateNotes(state.notes, note);
      Dispatch(SetNotes(notes));
      sentCompleted := notes[index].completed;
    }

    /** The subscription's `next` handler for a note created by any session. */
    method OnRemoteCreate(note: Note)
      modifies this
      ensures state == Notes.OnRemoteCreate(old(state), clientId, note)
      ensures note.clientId == clientId ==> state == old(state)
      ensures note.clientId != clientId ==> state.notes == [note] + old(state.notes)
    {
      if clientId == note.clientId {
        return;
      }
      Dispatch(AddNote(note));
    }
  }

  /**
   * A session from page load to a foreign notification: the fetch returns
   * `a` and `b`, the user creates a note (its request may fail; nothing is
   * rolled back), the session's own echo arrives and is dropped, and a note
   * `c` from another session is prepended.
   */
  method Session(me: string, freshId: string, a: Note, b: Note, c: Note) returns (final: State, created: Note)
    requires c.clientId != me
    ensures created == Note(freshId, "x", "y", false, me)
    ensures final.notes == [c, created, a, b]
    ensures !final.loading && !final.error && final.form == Form("", "")
  {
    var store := new NoteStore(me);
    store.FetchNotes(Some([a, b]));
    assert store.state.notes == [a, b] && !store.state.loading;
    store.OnChange(Name, "x");
    store.OnChange(Description, "y");
    var sent := store.CreateNote(freshId);
    created := sent.value;
    assert store.state.notes == [created, a, b];
    store.OnRemoteCreate(created);
    assert store.state.notes == [created, a, b];
    store.OnRemoteCreate(c);
    final := store.state;
  }
}
