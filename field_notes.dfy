/**
 * Per-field notes, kept in the dataset's info under the key
 * "model_picker_field_notes" as a map from field name to note text.
 */
module FieldNotes {
  import opened Wrappers
  import opened PyStrings

  /** `get_field_notes`: the stored notes, or an empty map when the dataset has none. */
  function GetFieldNotes(stored: Option<map<string, string>>): (notes: map<string, string>)
    ensures stored.Some? ==> notes == stored.value
    ensures stored.None? ==> notes == map[]
  {
    stored.GetOr(map[])
  }

  /** `notes.get(field, "")`: the note shown for a field. */
  function NoteOf(notes: map<string, string>, field: string): (text: string)
    ensures field in notes ==> text == notes[field]
    ensures field !in notes ==> text == ""
  {
    if field in notes then notes[field] else ""
  }

  /**
   * The notes after `UpdateFieldNotes`: a non-empty text becomes the field's
   * note, an empty or missing text removes the field's note, and every other
   * field keeps the note it had.
   */
  function UpdatedNotes(notes: map<string, string>, field: string, text: Option<string>)
    : (r: map<string, string>)
    ensures field in r <==> Truthy(text)
    ensures Truthy(text) ==> r[field] == text.value
    ensures forall g :: g != field ==> (g in r <==> g in notes)
    ensures forall g :: g != field && g in notes ==> r[g] == notes[g]
  {
    if Truthy(text) then notes[field := text.value]
    else if field in notes then notes - {field}
    else notes
  }

  /** After an update, the field shows the text it was given (`""` for none). */
  lemma NoteAfterUpdate(notes: map<string, string>, field: string, text: Option<string>, g: string)
    ensures NoteOf(UpdatedNotes(notes, field, text), field) == text.GetOr("")
    ensures g != field ==> NoteOf(UpdatedNotes(notes, field, text), g) == NoteOf(notes, g)
  {
  }

  /** The last update of a field wins; updating twice with the same text is updating once. */
  lemma UpdateLastWins(notes: map<string, string>, field: string, t1: Option<string>, t2: Option<string>)
    ensures UpdatedNotes(UpdatedNotes(notes, field, t1), field, t2) == UpdatedNotes(notes, field, t2)
  {
    var a := UpdatedNotes(UpdatedNotes(notes, field, t1), field, t2);
    var b := UpdatedNotes(notes, field, t2);
    assert a.Keys == b.Keys;
  }

  /**
   * The dataset-info entry that holds the notes. `entry` is `None` until
   * notes are first saved.
   */
  class NotesStore {
    var entry: Option<map<string, string>>

    constructor (entry: Option<map<string, string>>)
      ensures this.entry == entry
    {
      this.entry := entry;
    }

    /**
     * `UpdateFieldNotes.execute`: reads the stored notes, sets or removes
     * the field's note, and writes the whole map back.
     */
    method UpdateFieldNotes(fieldName: string, notesText: Option<string>) returns (success: bool)
      modifies this
      ensures success
      ensures entry == Some(UpdatedNotes(GetFieldNotes(old(entry)), fieldName, notesText))
    {
      var allNotes := GetFieldNotes(entry);
      if Truthy(notesText) {
        allNotes := allNotes[fieldName := notesText.value];
      } else if fieldName in allNotes {
        allNotes := allNotes - {fieldName};
      }
      entry := Some(allNotes);
      success := true;
    }
  }
}
