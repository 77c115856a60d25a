# Notes app — a verified model of its core rules

This project models the rule-bearing parts of a small notes application.
It has an Express route file on the server and a handful of React
components and one hook on the client. The model covers:

- **Server note routes** (`NotesRoute`, `notes_route.dfy`):
  - the store is a class `NoteStore` over a sequence of notes;
  - listing is filter → sort → skip/limit, with the pagination metadata;
  - the tag filter of the `tags` query parameter uses OR semantics;
  - the distinct, sorted tag listing;
  - create, read, update and delete with the title/content presence check;
  - the tag normalisation on create and update.
- **Pagination control** (`PaginationView`, `pagination.dfy`):
  - `getVisiblePages` as a method with a loop, proved against the function `VisiblePages`;
  - the guarded previous, next and page-click handlers.
- **Tag filter panel** (`TagFilter`, `tag_filter.dfy`): toggle, clear and the count label.
- **Note list** (`NotesList`, `notes_list.dfy`): the content preview, the tag badges and the loading/empty/items states.
- **Note editor** (`NoteEditor`, `note_editor.dfy`):
  - the four checks on the trimmed title and content;
  - the comma-separated tag field and its round trip with the field shown for a note;
  - the keyboard shortcuts;
  - a class `Editor` with the `title`, `content`, `tags` and `saving` cells and the save handler.
- **Client note-list state** (`UseNotes`, `use_notes.dfy`):
  - a class `NotesState` with the `notes`, `loading`, `error` and `pagination` cells;
  - fetch, create (prepend), update (replace by id) and delete (remove by id);
  - on failure nothing but `error` changes, and the failure is passed on.
- **The screen** (`NotesApp`, `notes_app.dfy`):
  - a class `App` whose handlers form the screen's state machine;
  - the list request parameters;
  - the sort select's encode and decode;
  - which panel the main area shows and where the editor's save goes.

Helper modules:
- `Text` (`text.dfy`) holds JavaScript `trim`, `toLowerCase`, `split` and `join` over a fixed white-space set and ASCII letters.
- `Collections` (`collections.dfy`) holds first-occurrence deduplication (`[...new Set(xs)]`), a generic insertion sort proved sorted and a permutation, and lexicographic string order.
- `NoteModel` (`note_model.dfy`) holds the note record and the response shapes.

The model follows the code, including where it departs from what a reader might expect:
- With no matching notes the page count is `Math.ceil(0 / limit) = 0`, not 1. So `hasNext` is false and the client hides the pagination control (`NotesApp.PaginationShownIffSeveralPages`).
- The create and update route handlers check only that title and content are present and non-empty, so a title of only spaces passes them. The note schema's validators, which update runs with `runValidators: true`, are not part of this model; the trimmed form and the length limits are modelled in the editor only.
- The server passes the sort to the database, which does not promise a stable order among equal keys. The model proves the result sorted and a permutation of the matches, and nothing about ties. Titles compare as stored, without trimming.

Some behaviour of the code that the model makes explicit:
- A stored tag that contains a comma (the server allows it) is split into two tags when its note is opened in the editor and saved (`NoteEditor.CommaTagSplitsOnSave`).
- The Save button is disabled while saving. The Ctrl+S and Escape shortcuts do not look at `saving`, and neither does `handleSave` itself.
- The screen's create and update handlers catch every failure. So the editor's own "Failed to save note" alert cannot appear through this screen. The failure shows up as the store's `error` text instead, and the editor stays open.
- The title alert says "less than 200 characters", but a trimmed title of exactly 200 characters is accepted. The same holds for content at 10000.

## Model

| member | source | states |
|---|---|---|
| NotesRoute.NormalizedTagsAreCanonical | backend/routes/notes.js:95-99 | every stored tag is non-empty, has no white space at either end and has no upper-case letter |
| NotesRoute.NormalizedTagsExactly | backend/routes/notes.js:95-99 | a tag is stored iff it is the trimmed, lower-cased form of some non-blank input tag |
| NotesRoute.NormalizedTagsFirstOccurrenceOrder | backend/routes/notes.js:95-99 | stored tags are canonical and distinct, and are ordered by first occurrence among the canonicalised inputs |
| NotesRoute.NonBlankConcat | backend/routes/notes.js:97 | the blank-tag filter keeps the input order: on a concatenation it is the concatenation of the filtered parts, and it keeps a single tag exactly when the tag is not blank |
| NotesRoute.NormalizeIdempotent | backend/routes/notes.js:124-128 | normalising already-normalised tags returns them unchanged |
| Collections.Dedup | backend/routes/notes.js:95 | `[...new Set(xs)]` has no repetitions, has the same members as `xs` and is no longer |
| Collections.DedupKeepsFirstOccurrenceOrder | backend/routes/notes.js:95 | the set spread keeps elements in the order of their first occurrence |
| Text.Trim | frontend/src/components/NoteEditor.jsx:54-55 | `trim()` gives the input with only white space cut from its two ends and none left at either end, empty iff the input is all white space |
| Text.TrimCharacterised | frontend/src/components/NoteEditor.jsx:54-55 | the trimmed string is the only string with both of those properties |
| Text.TrimIdempotent | backend/routes/notes.js:97-98 | trimming a trimmed tag changes nothing |
| Text.JoinSplit | backend/routes/notes.js:41 | joining the pieces of `split(',')` with commas gives back the parameter |
| NotesRoute.TagParamShape | backend/routes/notes.js:40-41 | the tags parameter parses into one element more than it has commas, each trimmed, lower case and comma-free |
| NotesRoute.SelectedTagsRoundTrip | backend/routes/notes.js:40-43 | for canonical, comma-free tags, the comma join parses back to the same list; the empty join imposes no tag constraint |
| NotesRoute.Select | backend/routes/notes.js:32-43 | the selected notes are exactly the stored notes matching the text predicate and, if given, the tag list, each as many times as it is stored and no other |
| NotesRoute.SelectConcat | backend/routes/notes.js:32-43 | selection keeps store order: on a concatenation it is the concatenation of the selections of the parts, and it keeps a single note exactly when the note matches |
| NotesRoute.UnfilteredSelectsAll | backend/routes/notes.js:32-43 | with empty search and tags parameters every note is selected, in store order |
| NotesRoute.TagFilterIsAnyOf | backend/routes/notes.js:40-43 | a note passes the tag filter iff one of its tags is in the parsed list; a note without tags never passes a non-empty parameter |
| NotesRoute.NoteOrder | backend/routes/notes.js:46-47 | the comparison for a field and direction is a total preorder |
| NotesRoute.SortedBySortOrder | backend/routes/notes.js:46-50 | the sorted notes are a permutation of the matches, ascending iff `sortOrder` is "asc", descending for any other value |
| Collections.SortIsSorted | backend/routes/notes.js:9 | sorting by a total preorder yields a sorted permutation |
| NotesRoute.TotalPages | backend/routes/notes.js:54-55 | `ceil(total / limit)`: 0 for no matches, else `(pages-1)*limit < total <= pages*limit` |
| NotesRoute.PageBounds | backend/routes/notes.js:49-55 | a page holds at most `limit` notes; it is empty iff the page number exceeds the page count |
| NotesRoute.PagesPartition | backend/routes/notes.js:49-55 | pages 1..pages concatenated give back the whole sorted sequence, with nothing skipped or repeated |
| NotesRoute.HasNextMeansMore | backend/routes/notes.js:57-66 | `hasNext` iff the next page is non-empty; `hasPrev` iff the page is after the first |
| NotesRoute.PageOfMatches | backend/routes/notes.js:49-52 | every listed note is a stored note that matches the query |
| NotesRoute.AllTags | backend/routes/notes.js:8 | the gathered tags are exactly those occurring in some note |
| NotesRoute.TagListingSortedDistinct | backend/routes/notes.js:6-9 | the tag listing is strictly increasing and holds exactly the tags that occur in some note |
| NotesRoute.IndexOf | backend/routes/notes.js:75-78 | the lookup finds a position holding the id, and finds none iff no note has that id |
| NotesRoute.NoteStore.Find | backend/routes/notes.js:73-83 | a note with the id is returned iff one is stored; otherwise "Note not found" |
| NotesRoute.NoteStore.List | backend/routes/notes.js:16-66 | the response is the page of the sorted matches and its metadata; it holds at most `limit` notes, all stored and matching |
| NotesRoute.DefaultRequestListsNewestTen | backend/routes/notes.js:18-25 | a request without parameters applies no filter, sorts newest update first and answers with the first ten notes |
| NotesRoute.NoteStore.constructor | backend/routes/notes.js:3 | the note collection starts empty and satisfies the store invariant (ids below the counter and distinct, tags in stored form) |
| NotesRoute.NoteStore.ListTags | backend/routes/notes.js:6-13 | the listing is strictly increasing and holds exactly the stored tags |
| NotesRoute.NoteStore.Create | backend/routes/notes.js:86-112 | a missing title or content is refused with no change; otherwise a note with a fresh id, normalised tags and both timestamps set is added; the store invariant is kept |
| NotesRoute.NoteStore.Update | backend/routes/notes.js:115-149 | the presence check comes before the lookup; an unknown id is "Note not found" with no change; otherwise only that note changes, keeping its id and `createdAt` and getting `updatedAt` |
| NotesRoute.NoteStore.Delete | backend/routes/notes.js:152-162 | an unknown id is "Note not found" with no change; otherwise exactly that note is removed, the rest in order |
| PaginationView.HandlersStayInRange | frontend/src/components/Pagination.jsx:8-18 | previous and next ask for a page iff their button is enabled, and from a page in 1..total only for a page one step away within 1..total |
| NotesApp.PaginationShownIffSeveralPages | frontend/src/components/Pagination.jsx:4-6 | given the page count of the list response, the control is rendered iff more than ten notes match, and with no match the count is zero |
| PaginationView.ClickedPagesInRange | frontend/src/components/Pagination.jsx:20-22 | every page button of the visible list asks for a page in 1..total |
| PaginationView.GetVisiblePages | frontend/src/components/Pagination.jsx:24-52 | the pushes and the window loop build exactly `VisiblePages(current, total)`, whose properties `VisiblePagesWellFormed` states |
| PaginationView.VisiblePagesNumbers | frontend/src/components/Pagination.jsx:24-52 | page numbers strictly increase along the list and lie in 1..total |
| PaginationView.VisiblePagesGaps | frontend/src/components/Pagination.jsx:30-49 | neighbouring numbers are consecutive; an ellipsis is never first or last, sits between two numbers and stands for at least one skipped page |
| PaginationView.VisiblePagesShows | frontend/src/components/Pagination.jsx:25-49 | the list starts at 1, ends at total, contains the current page and shows exactly 1, total and the pages within two of the current one, in at most nine entries |
| PaginationView.VisiblePagesWellFormed | frontend/src/components/Pagination.jsx:24-52 | all of the above together |
| PaginationView.PastLastPageDropsLastPage | frontend/src/components/Pagination.jsx:27-49 | with a current page past the last, the list loses the last page: for 10 of 3 it is `1 ...` |
| TagFilter.RemoveAll | frontend/src/components/TagFilter.jsx:6 | the filtered selection lacks the tag and keeps every other tag's membership |
| TagFilter.RemoveAllKeepsOrder | frontend/src/components/TagFilter.jsx:6 | removal distributes over concatenation, so the other tags keep their order |
| TagFilter.ToggleFlipsMembership | frontend/src/components/TagFilter.jsx:4-9 | a toggle flips the toggled tag's membership and no other |
| TagFilter.ToggleShape | frontend/src/components/TagFilter.jsx:5-7 | an unselected tag is appended at the end; a selected one loses every occurrence and the selection gets shorter |
| TagFilter.ToggleTwice | frontend/src/components/TagFilter.jsx:4-10 | toggling an unselected tag twice restores the selection |
| TagFilter.ToggleKeepsDistinct | frontend/src/components/TagFilter.jsx:4-10 | a selection without repetitions keeps that property |
| TagFilter.CountLabelPlural | frontend/src/components/TagFilter.jsx:49-53 | the count label reads "tags" iff the count is not one |
| TagFilter.PanelControls | frontend/src/components/TagFilter.jsx:12-31 | the panel is rendered iff some tag is available and "Clear All" with the counter iff some tag is selected; clearing selects nothing, hides both, and a following toggle selects just that tag |
| NotesList.TruncateContentShape | frontend/src/components/NotesList.jsx:19-22 | content within the limit is shown whole; longer content becomes its first `maxLength` characters with only the white space at both ends cut, no white space left at either end, plus "...", at most `maxLength + 3` long |
| NotesList.TagStripCounts | frontend/src/components/NotesList.jsx:66-75 | no badges for a note without tags; at most the first three tags in order; a `+n` badge iff there are more than three, shown tags plus n being all tags |
| NotesList.ViewOfStates | frontend/src/components/NotesList.jsx:24-38 | loading wins; otherwise "No notes found" iff the list is empty, and else every note in order |
| NotesList.HighlightedRows | frontend/src/components/NotesList.jsx:45 | no row is highlighted without a selection, otherwise exactly the rows with the selected id, so at most one when ids are distinct |
| NoteEditor.ValidateDecides | frontend/src/components/NoteEditor.jsx:24-42 | a save goes ahead iff title and content are not all white space and their trimmed forms are within 200 and 10000 characters; each refusal is the first failing check |
| NoteEditor.SaveButtonAgreesWithChecks | frontend/src/components/NoteEditor.jsx:95 | Save is disabled iff saving or the title or content is all white space; an enabled button never meets the emptiness refusals |
| NoteEditor.KeyCommandCases | frontend/src/components/NoteEditor.jsx:66-76 | Ctrl/Cmd+S saves, Escape cancels, any other key does nothing |
| NoteEditor.TrimAll | frontend/src/components/NoteEditor.jsx:50 | every piece is replaced by its trimmed form, position by position |
| NoteEditor.DropEmpty | frontend/src/components/NoteEditor.jsx:51 | exactly the non-empty pieces are kept |
| NoteEditor.ParseTagsShape | frontend/src/components/NoteEditor.jsx:48-51 | every parsed tag is non-empty, trimmed and comma-free |
| NoteEditor.TagFieldRoundTrip | frontend/src/components/NoteEditor.jsx:48-51 | for non-empty, trimmed, comma-free tags, parsing the `", "` join gives the same list |
| NoteEditor.CommaTagSplitsOnSave | frontend/src/components/NoteEditor.jsx:48-51 | a tag `a,b` shown in the field is parsed back as the two tags `a` and `b` |
| NoteEditor.PayloadOf | frontend/src/components/NoteEditor.jsx:53-57 | the payload's title and content are trimmed and empty iff the input is all white space |
| NoteEditor.AcceptedPayloadShape | frontend/src/components/NoteEditor.jsx:24-57 | an accepted payload has a title of 1..200 characters, content of 1..10000 and editor-shaped tags |
| NoteEditor.UneditedSaveKeepsNote | frontend/src/components/NoteEditor.jsx:9-57 | a well-formed note opened and saved without edits is accepted and sent back unchanged |
| NoteEditor.Editor.constructor | frontend/src/components/NoteEditor.jsx:4-7 | the four cells start empty and not saving |
| NoteEditor.Editor.Load | frontend/src/components/NoteEditor.jsx:9-19 | a note fills title, content and the `", "`-joined tags; no note clears all three |
| NoteEditor.Editor.Edit | frontend/src/components/NoteEditor.jsx:105-139 | typing sets the three fields and leaves `saving` alone |
| NoteEditor.Editor.BeginSave | frontend/src/components/NoteEditor.jsx:21-57 | a refused save yields its alert and changes nothing; an accepted one sets `saving` and yields the trimmed payload |
| NoteEditor.Editor.EndSave | frontend/src/components/NoteEditor.jsx:58-63 | the generic alert iff `onSave` failed, and `saving` cleared either way |
| NoteEditor.Editor.HandleSave | frontend/src/components/NoteEditor.jsx:21-64 | refused iff a check fails; otherwise the payload is sent and the outcome fails iff `onSave` fails; fields kept, `saving` ends false |
| UseNotes.ErrorText | frontend/src/hooks/useNotes.js:18 | the server's message if present and non-empty, else the fallback |
| UseNotes.ErrorTextNonEmpty | frontend/src/hooks/useNotes.js:17-18 | the error shown after a failure is never empty |
| UseNotes.ReplaceByIdPointwise | frontend/src/hooks/useNotes.js:40-42 | notes with the id become the answer, every other note stays in place, and an absent id changes nothing |
| UseNotes.ReplaceByIdAt | frontend/src/hooks/useNotes.js:40-42 | with distinct ids, replacement by id is replacement at the one position, as the server does it, and ids stay distinct |
| UseNotes.RemoveById | frontend/src/hooks/useNotes.js:54 | filtering never lengthens the list |
| UseNotes.RemoveByIdMembers | frontend/src/hooks/useNotes.js:54 | exactly the notes with another id are kept |
| UseNotes.RemoveByIdConcat | frontend/src/hooks/useNotes.js:54 | removal distributes over concatenation, so kept notes keep their order |
| UseNotes.RemoveByIdDistinct | frontend/src/hooks/useNotes.js:54 | removal keeps ids distinct |
| UseNotes.RemoveByIdAt | frontend/src/hooks/useNotes.js:54 | with distinct ids, removal by id removes the one note at its position, as the server does it |
| UseNotes.RemoveAfterReplace | frontend/src/hooks/useNotes.js:40-54 | removing a note after replacing it is removing it |
| UseNotes.NotesState.constructor | frontend/src/hooks/useNotes.js:5-8 | empty list, not loading, no error, no pagination |
| UseNotes.NotesState.BeginFetch | frontend/src/hooks/useNotes.js:11-13 | loading on and error cleared before the request; list and pagination kept |
| UseNotes.NotesState.EndFetch | frontend/src/hooks/useNotes.js:14-21 | success replaces list and pagination; failure keeps both and sets the error text; loading off either way |
| UseNotes.NotesState.FetchNotes | frontend/src/hooks/useNotes.js:10-22 | after a fetch loading is off and the error is cleared iff the request succeeded |
| UseNotes.NotesState.CreateNote | frontend/src/hooks/useNotes.js:24-34 | success prepends the note and clears the error; failure keeps the list, sets the error and is passed on |
| UseNotes.NotesState.UpdateNote | frontend/src/hooks/useNotes.js:36-48 | success replaces by id and clears the error; failure keeps the list, sets the error and is passed on; distinct ids are kept |
| UseNotes.NotesState.DeleteNote | frontend/src/hooks/useNotes.js:50-59 | success removes by id and clears the error; failure keeps the list, sets the error and is passed on; distinct ids are kept |
| NotesApp.ParamsReachServer | frontend/src/components/NotesApp.jsx:33-40 | the request asks for ten notes and carries the search text and the tags joined by commas; the server applies the search text as its text filter, none when it is empty, and reads back exactly the selected tags as the tag filter, or none for no selection |
| NotesApp.App.Params | frontend/src/components/NotesApp.jsx:33-40 | the request carries the current page, ten notes, the search box, the selected tags joined by commas and the two sort cells; the server applies the search box as its text filter, none when it is empty; for canonical comma-free selected tags it reads back exactly the selection, or no tag constraint when none is selected; in a valid state the page is at least one and the sort names a field the server sorts by, in order "asc" or "desc" |
| NotesApp.DecodeSortValueRoundTrip | frontend/src/components/NotesApp.jsx:155-158 | splitting `${sortBy}-${sortOrder}` on the dash gives back both halves when neither contains a dash |
| NotesApp.SortOptionsRoundTrip | frontend/src/components/NotesApp.jsx:154-167 | each of the six options decodes to its field and order, the field being one the server sorts by and the order "asc" or "desc" |
| NotesApp.SortValueInjective | frontend/src/components/NotesApp.jsx:154-167 | a select value `field-order` determines its field and order whenever one of the two pairs contains no dash |
| NotesApp.SortOptionFields | frontend/src/components/NotesApp.jsx:154-167 | sort cells that make up one of the select's options name a field the server sorts by and the order "asc" or "desc" |
| NotesApp.PanelAndRouteAgree | frontend/src/components/NotesApp.jsx:194-233 | the editor shows the selection and saves by update of its id, or by create without one; outside editing the selected note is viewed, else the welcome text |
| NotesApp.App.constructor | frontend/src/components/NotesApp.jsx:22-29 | page 1, sort `updatedAt`/`desc`, no search, no tags, no selection, not editing |
| NotesApp.App.HandleCreateNote | frontend/src/components/NotesApp.jsx:57-67 | success selects the new note, ends editing and goes to page 1; failure changes none of these |
| NotesApp.App.HandleUpdateNote | frontend/src/components/NotesApp.jsx:69-77 | success selects the answer and ends editing; failure changes neither; filters kept |
| NotesApp.App.HandleEditorSave | frontend/src/components/NotesApp.jsx:195-200 | the editor's save updates the selected note or creates one when nothing is selected; on failure only the store's error changes, to the update or the create fallback text, and loading and pagination are kept either way |
| NotesApp.App.HandleDeleteNote | frontend/src/components/NotesApp.jsx:79-91 | unconfirmed or failed deletes change nothing here; a confirmed successful one clears selection and editing iff the deleted id was selected |
| NotesApp.App.HandleNoteSelect | frontend/src/components/NotesApp.jsx:93-96 | the note is selected and editing stops |
| NotesApp.App.HandleNewNote | frontend/src/components/NotesApp.jsx:98-101 | nothing selected, editing on, so the editor saves by create |
| NotesApp.App.HandleEditNote | frontend/src/components/NotesApp.jsx:103-105 | editing on, selection kept |
| NotesApp.App.HandleCancelEdit | frontend/src/components/NotesApp.jsx:107-113 | editing off, selection kept |
| NotesApp.App.HandleSearch | frontend/src/components/NotesApp.jsx:115-118 | the query is set and the page reset to 1; nothing else changes |
| NotesApp.App.HandleTagFilter | frontend/src/components/NotesApp.jsx:120-123 | the tags are set and the page reset to 1; nothing else changes |
| NotesApp.App.HandleSortChange | frontend/src/components/NotesApp.jsx:125-128 | only the two sort cells change; page, search and tags are kept |
| NotesApp.App.SortSelectChanged | frontend/src/components/NotesApp.jsx:154-167 | choosing an option sets exactly its field and order and keeps the sort cells one of the options |
| NotesApp.App.ChangePage | frontend/src/components/NotesApp.jsx:184-189 | the requested page becomes current; nothing else changes |
| NotesApp.App.TagsFetched | frontend/src/components/NotesApp.jsx:44-55 | the available tags are replaced on success and kept on failure |

## Left out

- MongoDB `$text` search: tokenising, stemming and relevance belong to the database's text index. Search is the uninterpreted predicate `textMatch`, a parameter of `NotesRoute.NoteStore.List`.
- Mongoose and the note schema: the store is an in-memory sequence. Ids come from a counter that stands for ObjectId generation. Schema validators, malformed ids and the 500/400 error paths they raise are not modelled.
- Timestamps: `Date.now()` and the schema's timestamps are a `now` parameter.
- NotesRoute.NoteStore.List: `sortBy` is one of the three fields the client offers, not an arbitrary field name. Page and limit are taken as already-parsed integers of at least one, so `parseInt` producing NaN or non-positive numbers is outside the model.
- NotesRoute.SortedBySortOrder: states sorted and permutation only, because the database promises no order among equal keys.
- NotesRoute.PagesPartition and NotesRoute.NoteStore.List: the model sorts with one fixed tie order, so successive page requests see the same order among notes with equal keys. The database sorts each `.sort().skip().limit()` query on its own and promises no order among equal keys, so across requests a note with a tied key may be skipped or repeated; the partition is proved only for one fixed sorted sequence.
- The request and response bodies: JSON parsing, type checks on `title`, `content` and `tags` (non-string values), and the default `tags = []`. Inputs are strings and string lists.
- Express plumbing, server start-up, CORS, the database connection, the axios API wrapper with its timeout and interceptors, the debounced search bar, the router wiring and the live-server script. These are I/O or wiring with no rules of their own.
- `formatDate` in the note list: it depends on `Date` and the locale.
- JSX rendering beyond which branch or panel is shown, and `console.error` logging.
- `window.confirm` and `alert`: the confirmation is a boolean input, and alerts are returned strings.
- Effects are not scheduled by the model. The list fetch that follows each filter change, and the tag refetch after every change of the notes, are separate operations the caller performs: `UseNotes.NotesState.FetchNotes` and `NotesApp.App.TagsFetched`.
- Async interleaving: every operation is atomic. Overlapping fetches, or a second save started by Ctrl+S while one is in flight, are not explored. The editor's save is split into `BeginSave` and `EndSave` so that the `saving` window is visible.
- Full Unicode `trim` and `toLowerCase`, UTF-16 ordering in `sort()`, and UTF-16 string lengths: white space is a fixed set of characters, lower-casing covers ASCII letters, and order is lexicographic on characters. JavaScript's `.length` and `substring` count UTF-16 code units, while the model counts characters. So a title of 150 characters outside the Basic Multilingual Plane (300 code units) is refused as too long by the editor but accepted by `NoteEditor.Validate`, and the 60-unit preview cut of `NotesList.TruncateContent` falls at a different place for such text.
- The `maxLength` attributes of the title and content inputs: the browser enforces them, and the editor's own checks are modelled.
- NotesApp.App.ChangePage: requires a page of at least one, which is all the pagination control asks for (`PaginationView.HandlersStayInRange`, `PaginationView.ClickedPagesInRange`).
- PaginationView.GetVisiblePages: its properties are proved for a current page in 1..total. Outside that range only the concrete case in `PastLastPageDropsLastPage` is stated.
