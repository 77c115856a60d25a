/** The note record that the server stores and the client displays, and the
    small wrappers the rest of the model uses for optional values and errors. */
module NoteModel {

  datatype Option<T> = None | Some(value: T)

  datatype Result<T, E> = Ok(value: T) | Err(error: E)

  /** Note ids are generated by the database; every core file only compares
      them for equality. */
  type Id = nat

  /** A note as the list endpoint returns it. Timestamps are whatever the
      caller supplied as the current time. */
  datatype Note = Note(
    id: Id,
    title: string,
    content: string,
    tags: seq<string>,
    createdAt: int,
    updatedAt: int)

  /** The body the editor sends to create or update a note. */
  datatype NoteInput = NoteInput(title: string, content: string, tags: seq<string>)

  /** The `pagination` object of a list response. */
  datatype PageInfo = PageInfo(current: int, pages: int, total: nat, hasNext: bool, hasPrev: bool)

  /** A list response: one page of notes and its metadata. */
  datatype NotesPage = NotesPage(notes: seq<Note>, pagination: PageInfo)

  function Min(a: int, b: int): int {
    if a <= b then a else b
  }

  function Max(a: int, b: int): int {
    if a >= b then a else b
  }
}
