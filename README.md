# neoNotes core in Dafny

neoNotes is a browser-only study-notes sharing application. All of its data
lives in the browser's `localStorage` under three keys:

- the note list (`neonotes_data`);
- the signed-in user (`neonotes_user`);
- the ids of the notes the local visitor has liked (`neonotes_liked_ids`).

This project models the parts of the application that decide what is stored
and what is shown:

- **Storage gateway** (`storage.dfy`). The key-value store is a class whose
  `items` map the methods update one `setItem`/`removeItem` at a time. The
  getters read with a fallback: the sample notes, no user, or no liked ids.
  The compound operations read, transform, write back and return what they
  wrote: seeding, adding, replacing by id, signing in and out, like toggling
  and download counting.
- **Seed data** (`mock_data.dfy`). The sample notes, the demo student and the
  demo administrator, with their exact values.
- **Application shell** (`app.dfy`). The cached note list, user and liked ids
  of the root component, the handlers that refresh them from the gateway, and
  the guard on the admin page. Every handler keeps the cache equal to what the
  store reads as (`Synced`), except `HandleLogin`. That one keeps it only when
  the store already holds that user, which is how a successful `storage.login`
  leaves it (see `SignIn`). `HandleLikeNote` and `HandleDownloadNote` keep the
  store's data invariants (`WellFormed`). `HandleAddNote` and
  `HandleUpdateNote` keep them when the note they are given is itself
  well-formed.
- **Pages**:
  - the browse filter and subject list (`browse.dfy`);
  - the home page's "recent" and "popular" strips (`home.dfy`);
  - the upload form's tag list, file gate and note construction (`upload.dfy`);
  - the note page's lookup, comment posting and download (`note_detail.dfy`);
  - the liked flag every note card gets (`note_cards.dfy`).
- **Shared definitions**. `types.dfy` holds the records, `lists.dfy` the array
  operations the pages compose (filter, de-duplication through a `Set`, sort
  then slice), and `text.dfy` the string operations (lower-casing, `trim`,
  `includes`, the `/\s+/g` replacement).

Things that have an effect outside the program are parameters of the model:

- the clock: `Date.now()` stamps and ISO dates;
- the tag suggestion service's answer;
- the result of reading the chosen file;
- the date parser Home sorts by.

## Model

| member | source | states |
|---|---|---|
| Storage.LocalStorage.constructor | services/storage.ts:10 | the store starts out holding exactly the given keys and values |
| Storage.LocalStorage.SetItem | services/storage.ts:11 | `setItem` overwrites exactly one key |
| Storage.LocalStorage.RemoveItem | services/storage.ts:71 | `removeItem` drops exactly one key |
| Storage.GetNotes | services/storage.ts:19-26 | the stored note list when it decodes, the sample notes when the key is missing, empty or undecodable |
| Storage.GetUser | services/storage.ts:46-53 | a user exactly when the key holds a decodable user, otherwise none |
| Storage.GetLikedIds | services/storage.ts:75-82 | the stored id list when it decodes, otherwise the empty list |
| Storage.GetNotesWellFormed | services/storage.ts:19-26 | a store whose note list keeps the price/premium and counter invariants reads as such a list, the sample-note fallback included |
| Storage.WriteNotesReads | services/storage.ts:28-30 | after the note key is written the store reads back that list, the same user and the same liked ids |
| Storage.Initialized | services/storage.ts:9-17 | `init` seeds the notes key with the sample notes and the liked key with `[]`, each only where `getItem` is falsy; it never touches the user key or any other key |
| Storage.InitIdempotent | services/storage.ts:9-17 | a second `init` changes nothing |
| Storage.InitEmptyStore | services/storage.ts:9-17 | on an empty store: the sample notes, no liked ids, and still nobody signed in |
| Storage.Init | services/storage.ts:9-17 | the two conditional `setItem` calls leave the store as `Initialized` says |
| Storage.SaveNotes | services/storage.ts:28-30 | unconditional overwrite of the note key, which then reads back the list |
| Storage.AddNote | services/storage.ts:32-37 | returns the note followed by the old list (one longer), stores that list and only that key |
| Storage.ReplaceById | services/storage.ts:41 | same length and order; exactly the positions with the updated note's id hold it |
| Storage.ReplaceByIdNoMatch | services/storage.ts:41 | with no matching id the list comes back unchanged |
| Storage.ReplaceByIdWellFormed | services/storage.ts:41 | replacing with a well-formed note keeps a well-formed list well-formed |
| Storage.UpdateNote | services/storage.ts:39-44 | returns and stores the replaced list, and only the note key changes |
| Storage.Authenticate | services/storage.ts:55-68 | the admin address with "admin" gives the admin, the student address with "student" gives the student, anything else fails with "Invalid credentials" |
| Storage.Login | services/storage.ts:55-68 | on success the user key holds the returned user; on failure the store is unchanged |
| Storage.Logout | services/storage.ts:70-72 | only the user key is removed, so no user reads back |
| Storage.RemoveId | services/storage.ts:91 | no occurrence of the id is left, every other id is kept in order with as many occurrences as before, nothing new appears |
| Storage.RemoveAppended | services/storage.ts:91-93 | removing an id just appended to a list without it gives the list back |
| Storage.ToggledIds | services/storage.ts:87-94 | a liked id is removed (others kept in order), an unliked id is appended; the id ends up in the list iff it was not there; other ids keep their membership and their number of occurrences |
| Storage.AdjustLikes | services/storage.ts:98-106 | same length and order, each note passed through the per-note like step |
| Storage.AdjustLikesNoMatch | services/storage.ts:98-106 | with no note of that id the notes are unchanged |
| Storage.AdjustLikesEffect | services/storage.ts:98-106 | matching notes get `likes + 1` (unliked) or `max(0, likes - 1)` (liked) and nothing else changes; other notes are untouched; non-negative counters stay non-negative |
| Storage.ToggleLike | services/storage.ts:84-110 | stores and returns the toggled id list and the adjusted notes; the liked list toggles even when no note has that id |
| Storage.ToggleReads | services/storage.ts:84-110 | after a toggle the store reads as the toggled ids, the adjusted notes and the same user |
| Storage.ToggleKeepsWellFormed | services/storage.ts:97-107 | a toggle keeps a well-formed store well-formed |
| Storage.ToggleTwiceFromUnliked | services/storage.ts:90-102 | from unliked, two toggles restore the liked list and every note exactly (given matching counters are non-negative) |
| Storage.ToggleTwiceFromLiked | services/storage.ts:90-102 | from liked, two toggles drop every occurrence of the id and re-append it at the end, and a matching counter ends at `max(0, likes - 1) + 1` |
| Storage.ToggledIdsTwiceMoves | services/storage.ts:87-94 | toggling "n1" twice in the liked list ["n1", "n2"] gives ["n2", "n1"] |
| Storage.RemoveIdOfPair | services/storage.ts:91 | removing the first of two different ids leaves the second |
| Storage.ToggleTwiceMovesLikedId | services/storage.ts:90-93 | from `["n1", "n2"]`, toggling "n1" twice gives `["n2", "n1"]`, so the order is not restored |
| Storage.AddDownload | services/storage.ts:114-119 | same length and order; matching notes get one more download, the rest are unchanged |
| Storage.AddDownloadWellFormed | services/storage.ts:114-119 | counting a download keeps a well-formed list well-formed |
| Storage.IncrementDownload | services/storage.ts:112-122 | stores and returns the counted list, and only the note key changes |
| Storage.AddDownloadsCount | services/storage.ts:112-122 | k downloads add exactly k to the matching notes and leave the others unchanged |
| MockData.MockNotes | services/mockData.ts:19-123 | four sample notes with ids n1, n2, n3, n4 (pairwise distinct), a price exactly on the premium ones, non-negative counters and no comments |
| MockData.DemoAccountsDistinct | services/mockData.ts:3-17 | the two demo accounts have different addresses and the admin and student roles, so the two login branches are disjoint |
| App.AdminLinkMatchesRoute | App.tsx:261-268 | the admin link is shown exactly when the `/admin` route renders the admin page, and a signed-out visitor is redirected to `/login`; the first half holds by definition, since both test the same `role === 'admin'` condition |
| App.AdminOnlyThroughAdminLogin | App.tsx:261-268 | of the two accounts a sign-in can produce (the two `login` branches at services/storage.ts:57-63), only the admin credentials open the admin page |
| App.AppContent.constructor | App.tsx:28-30 | the cache starts empty: no notes, no user, no liked ids |
| App.AppContent.Mount | App.tsx:37-42 | seeds the store, then loads all three cached values from it, so the cache is in step with the store |
| App.AppContent.HandleAddNote | App.tsx:44-47 | the cached notes become exactly the list `addNote` stored; cache sync is kept; store well-formedness is kept when the note given is well-formed |
| App.AppContent.HandleUpdateNote | App.tsx:49-52 | the cached notes become exactly the list `updateNote` stored; cache sync is kept; store well-formedness is kept when the note given is well-formed |
| App.AppContent.HandleLikeNote | App.tsx:54-58 | both the cached notes and the cached liked ids come from the one `toggleLike` result; sync and well-formedness are kept |
| App.AppContent.HandleDownloadNote | App.tsx:60-63 | the cached notes become exactly the list `incrementDownload` stored; sync and well-formedness are kept |
| App.AppContent.HandleLogin | App.tsx:65-67 | only the cached user changes and the store is not written; the cache is in step when the store already holds that user |
| App.AppContent.SignIn | pages/Login.tsx:31-32 | `storage.login` then `onLogin`: on success both store and cache hold the user, on failure nothing changes; sync is kept |
| App.AppContent.HandleLogout | App.tsx:69-73 | the stored user is removed and the cached user cleared; sync is kept |
| App.MountOnEmptyStore | App.tsx:37-42 | mounting on an empty store shows the sample notes, nothing liked and nobody signed in |
| NoteCards.LikedFlags | pages/Home.tsx:102-123 | a card's liked flag is true iff the liked ids contain its note's id (the same flag is computed at pages/Browse.tsx:119) |
| NoteCards.LikedFlagsAfterToggle | pages/NoteDetail.tsx:129 | a toggle flips the flag of exactly the cards showing the toggled note |
| Browse.Subjects | pages/Browse.tsx:38 | "All" followed by each note subject once: every subject of a note is listed, and only those |
| Browse.SubjectsFirstSeenOrder | pages/Browse.tsx:38 | the subjects after "All" are in order of first appearance among the notes |
| Browse.FilteredNotes | pages/Browse.tsx:40-47 | an order-preserving sub-sequence of the notes; a note is shown iff its title or a tag contains the term (lower case), the subject matches or is "All", and the author matches when an author filter is set; a passing note appears as many times as in the list |
| Browse.NoFiltersKeepAll | pages/Browse.tsx:41-44 | an empty term, "All" and no author filter show every note in order |
| Browse.AuthorFilterOnlyThatAuthor | pages/Browse.tsx:44 | with an author filter every shown note is by that author |
| Browse.BrowseState.SyncSearchFromUrl | pages/Browse.tsx:23-31 | a truthy `q` becomes the search term; otherwise the term is kept |
| Browse.BrowseState.constructor | pages/Browse.tsx:15-16 | an empty search term, subject "All", and the URL's parameters |
| Browse.BrowseState.SetSearchTerm | pages/Browse.tsx:93 | only the search term changes |
| Browse.BrowseState.SelectSubject | pages/Browse.tsx:102 | only the selected subject changes |
| Browse.BrowseState.ClearAuthorFilter | pages/Browse.tsx:49-54 | the author parameter is dropped and `q` kept only when truthy |
| Browse.BrowseState.ClearAllFilters | pages/Browse.tsx:56-60 | empty term, "All", no URL parameters, after which every note is shown |
| Home.PopularNotes | pages/Home.tsx:16 | `min(4, n)` notes in non-increasing downloads, all from the list, and none left out has more downloads than the last shown |
| Home.RecentNotes | pages/Home.tsx:15 | `min(4, n)` notes in non-increasing creation time, all from the list, and none left out is newer than the last shown |
| Home.StripsDrawFromNotes | pages/Home.tsx:15-16 | every card of either strip shows a note of the list |
| Home.PopularShowsAllWhenFew | pages/Home.tsx:16 | with four notes or fewer the strip is a rearrangement of all of them |
| Upload.SetField | pages/Upload.tsx:47-50 | `handleChange` sets the named field and keeps every other |
| Upload.AddTag | pages/Upload.tsx:68-76 | blank input changes nothing; otherwise the trimmed input is in the result, the old list is kept in front, nothing else is added, and no duplicate appears |
| Upload.RemoveTag | pages/Upload.tsx:78-80 | every occurrence of the tag is removed, the others kept in order with their number of occurrences, no duplicate introduced |
| Upload.MergeTags | pages/Upload.tsx:89 | each tag of either list once, a duplicate-free prior list kept in front |
| Upload.MergeTagsFirstSeenOrder | pages/Upload.tsx:89 | merged tags are in order of first appearance in the prior list followed by the suggestions |
| Upload.NewNote | pages/Upload.tsx:114-136 | the built note: id `n<stamp>`, zero downloads and likes, no comments, a price iff premium, content falling back to the placeholder, file name and type iff a file was chosen |
| Upload.NewNoteWellFormed | pages/Upload.tsx:114-136 | a new note satisfies the price/premium and counter invariants |
| Upload.UploadForm.constructor | pages/Upload.tsx:15-29 | the form opens empty, with no tags and no file |
| Upload.UploadForm.HandleChange | pages/Upload.tsx:47-50 | one text field is overwritten |
| Upload.UploadForm.HandleCheckboxChange | pages/Upload.tsx:52-54 | only the premium flag changes |
| Upload.UploadForm.HandleAddTag | pages/Upload.tsx:68-76 | acts only on Enter with non-blank input: tags become `AddTag`'s result and the box is cleared; the tag list stays duplicate-free |
| Upload.UploadForm.SetTagInput | pages/Upload.tsx:309 | only the tag box changes |
| Upload.UploadForm.HandleRemoveTag | pages/Upload.tsx:78-80 | tags become `RemoveTag`'s result and stay duplicate-free |
| Upload.UploadForm.HandleGenerateTags | pages/Upload.tsx:82-91 | refused without a title or description (tags unchanged), otherwise the merge; tags stay duplicate-free |
| Upload.UploadForm.HandleFileChange | pages/Upload.tsx:56-66 | a file over 2 MiB is rejected and the previous choice kept; otherwise the first file chosen is selected |
| Upload.UploadForm.ClearFile | pages/Upload.tsx:167 | the chosen file is dropped and nothing else changes, so a later submit attaches no file |
| Upload.UploadForm.HandleSubmit | pages/Upload.tsx:102-146 | no note without a signed-in user or when reading the file failed; otherwise exactly `NewNote` of the form, the tags and the file data |
| NoteDetail.FindNote | pages/NoteDetail.tsx:36-41 | the first note with the route id, or none exactly when no note has it |
| NoteDetail.NewComment | pages/NoteDetail.tsx:103-110 | id `c<stamp>`, the poster's id, name and avatar, and the raw input |
| NoteDetail.PostComment | pages/NoteDetail.tsx:99-119 | none exactly when there is no note, the input is blank or nobody is signed in; otherwise the comment is prepended, earlier comments kept in order, every other field unchanged |
| NoteDetail.FindAfterReplace | pages/NoteDetail.tsx:117 | after `updateNote` with a note whose id occurs, the page finds that note |
| NoteDetail.PostedCommentReplacesInPlace | pages/NoteDetail.tsx:112-117 | the posted note keeps its id, so `updateNote` replaces it in place and the page then shows it |
| NoteDetail.DownloadName | pages/NoteDetail.tsx:68-77 | the file's own name when the note has file data and a name; else the title with whitespace runs made `_`, plus `.pdf` with file data or `.txt` without |
| NoteDetail.DownloadFor | pages/NoteDetail.tsx:68-77 | the link points at the file data when there is some, otherwise at the note's content as text |
| NoteDetail.NoteDetailState.LoadNote | pages/NoteDetail.tsx:36-41 | the displayed note is the lookup's result |
| NoteDetail.NoteDetailState.HandlePostComment | pages/NoteDetail.tsx:99-119 | the note handed to `onUpdateNote` is `PostComment`'s result; the box is cleared only when something was posted |
| NoteDetail.NoteDetailState.ToggleLike | pages/NoteDetail.tsx:58-61 | `onLike` gets the shown note's id, or nothing without a note |
| NoteDetail.NoteDetailState.constructor | pages/NoteDetail.tsx:26-33 | no note shown and an empty comment box |
| NoteDetail.NoteDetailState.SetCommentInput | pages/NoteDetail.tsx:250 | only the comment box changes |
| NoteDetail.NoteDetailState.HandleDownloadFile | pages/NoteDetail.tsx:63-85 | without a note nothing happens; otherwise the link for the note, and its id reported to `onDownload` exactly once |
| Lists.Filter | pages/Browse.tsx:40 | `filter`: a sub-sequence holding exactly the elements that pass, each as many times as in the input |
| Lists.Dedup | pages/Browse.tsx:38 | `[...new Set(s)]`: duplicate-free, exactly the elements of the input |
| Lists.DedupFirstSeenOrder | pages/Upload.tsx:89 | a `Set` keeps first-insertion order |
| Lists.TopByKey | pages/Home.tsx:15-16 | sort-then-slice gives the sorted top `k` of the list by the key |
| Lists.SortDesc | pages/Home.tsx:15-16 | the comparator sort is a non-increasing rearrangement of the list |
| Text.Trim | pages/Upload.tsx:69 | `trim`: the input with only a leading and a trailing all-whitespace part cut off, leaving no whitespace at either end; empty iff the input is all whitespace |
| Text.Underscored | pages/NoteDetail.tsx:71 | `replace(/\s+/g, '_')`: no whitespace left, never longer |
| Text.UnderscoredNoSpace | pages/NoteDetail.tsx:71 | a string without whitespace comes back unchanged |
| Text.UnderscoredWord | pages/NoteDetail.tsx:71 | a word without whitespace is copied as it is, whatever follows it |
| Text.UnderscoredLeadingRun | pages/NoteDetail.tsx:71 | a leading whitespace run, followed by text that does not start with whitespace, becomes exactly one `_` |
| Text.UnderscoredRun | pages/NoteDetail.tsx:71-76 | a word, a non-empty whitespace run and the rest become the word, one `_` and the replaced rest, so each run becomes exactly one `_` |
| Text.UnderscoredExample | pages/NoteDetail.tsx:71 | `"a  b"` becomes `"a_b"` |
| Text.Lower | pages/Browse.tsx:41 | `toLowerCase`: same length, each character lower-cased |

## Left out

- SetItem: `setItem` is modelled as never failing. In the browser it throws once the storage quota is exceeded: for example, two uploads near the 2 MiB limit can push the notes JSON past the quota, and then `addNote` stores nothing. The model's `AddNote` and `HandleSubmit` always store the note. The same holds for `toggleLike`, which writes the liked key before the notes key: a failure of the second write would leave the liked list changed and the like counter unchanged, and the cache out of step with the store. `ToggleLike` does not model that partial write.
- JSON serialisation is replaced by slots: a key holds empty text, undecodable text, or a decoded value. Text that parses to a value of the wrong shape (for example `null`) would be returned as is by the source; the model treats it as undecodable.
- `init` tests whether `getItem` is truthy, not whether the text decodes. The model keeps that distinction: an undecodable slot counts as present.
- Prices are floating-point numbers in the source, parsed with `parseFloat` (pages/Upload.tsx:129). The model keeps a price as its decimal text. So `NaN` from an empty price box, and `JSON.stringify` turning it into `null`, are not modelled.
- Counters are JSON numbers. The model uses unbounded integers, so precision loss past 2^53 is not modelled.
- Strings are ASCII as far as case and whitespace go. `toLowerCase` maps only A-Z. `\s` and `trim` see only the space and characters 9 to 13, not Unicode spaces.
- Home.RecentNotes: dates are an abstract integer-valued `time` function. An unparseable `createdAt` would give `NaN` and an engine-dependent order; that case is not modelled.
- Lists.SortDesc is an insertion sort, which is stable like the engine's sort. Stability itself is not proved.
- The generative-AI service (services/geminiService.ts) is not modelled. Its tag answer is a parameter of `HandleGenerateTags`; the note-page chat is left out entirely.
- The loading flags (`isGeneratingTags`, `isProcessingFile`), the `alert` messages, navigation after submit and sign-in, and the mobile menu toggle are not modelled.
- Reading the chosen file as a data URI (`FileReader`) is a parameter of `HandleSubmit`; an error models the rejected read.
- The DOM anchor, the `Blob` and the `click()` of the download are replaced by the returned `Download` value.
- The HTML `required` attributes on the upload form are not modelled: `HandleSubmit` accepts any form.
- The upload page's `e.target.files && e.target.files[0]` guard is modelled as a non-empty file list; a file object is always truthy.
- `note.comments || []` in comment posting: comments are always a list in the model.
- React's effect scheduling and re-rendering are not modelled. The effects become methods called explicitly (`Mount`, `LoadNote`, `SyncSearchFromUrl`).
- The sign-in page (pages/Login.tsx) is modelled only as the login-then-`onLogin` sequence `SignIn`. Its timer, redirect and error display are left out.
- The admin dashboard (pages/Admin.tsx) is not part of this model: it is display arithmetic over floating-point prices. The author names shown on the browse heading, the share button and the profile link are also left out.
- The note card component (components/NoteCard.tsx) and the About, Privacy and Terms pages are not part of this model; they are presentation and static text. The `LoadingState` enum in types.ts is unused and left out.
