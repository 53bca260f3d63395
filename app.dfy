/**
 * The application shell: an in-memory cache of the note list, the signed-in
 * user and the liked ids, which every handler refreshes from what the
 * storage gateway returned, and the guard in front of the admin page.
 */
module App {
  import opened Types
  import opened Storage
  import MockData

  /** What the `/admin` route renders. */
  datatype AdminView = AdminPage | RedirectToLogin

  /** `currentUser?.role === 'admin'`: someone is signed in and holds the admin role. */
  predicate IsAdmin(user: Option<User>) {
    user.Some? && user.value.role == Admin
  }

  /** The protected `/admin` route: the admin page for an admin, otherwise a redirect to `/login`. */
  function AdminRoute(user: Option<User>): AdminView {
    if IsAdmin(user) then AdminPage else RedirectToLogin
  }

  /** Whether the navigation bar (desktop and mobile alike) shows the admin link. */
  function ShowsAdminLink(user: Option<User>): bool {
    IsAdmin(user)
  }

  /** The link is shown exactly when following it reaches the admin page, and a signed-out visitor is redirected. */
  lemma AdminLinkMatchesRoute(user: Option<User>)
    ensures ShowsAdminLink(user) <==> AdminRoute(user) == AdminPage
    ensures user == None ==> AdminRoute(user) == RedirectToLogin
  {
  }

  /**
   * Of the two accounts a sign-in can produce, only the admin credentials
   * open the admin page; the student account is redirected.
   */
  lemma AdminOnlyThroughAdminLogin(email: string, password: string)
    ensures var r := Storage.Authenticate(email, password);
      r.Ok? ==> (AdminRoute(Some(r.value)) == AdminPage <==> email == MockData.MockAdmin.email && password == "admin")
  {
    var r := Storage.Authenticate(email, password);
    if r.Ok? && r.value == MockData.MockUser {
      assert MockData.MockUser.role == Student;
    }
  }

  /** The `AppContent` component's state, bound to the browser's store. */
  class AppContent {
    const store: LocalStorage
    var notes: seq<Note>
    var currentUser: Option<User>
    var likedNoteIds: seq<string>

    /** The cache holds exactly what the store reads as. */
    ghost predicate Synced()
      reads this, store
    {
      notes == GetNotes(store.items) && currentUser == GetUser(store.items) && likedNoteIds == GetLikedIds(store.items)
    }

    /** The initial `useState` values: no notes, nobody signed in, nothing liked. */
    constructor (store: LocalStorage)
      ensures this.store == store
      ensures notes == [] && currentUser == None && likedNoteIds == []
    {
      this.store := store;
      notes := [];
      currentUser := None;
      likedNoteIds := [];
    }

    /** The mount effect: seed the store, then load all three cached values from it. */
    method Mount()
      modifies this, store
      ensures store.items == Initialized(old(store.items))
      ensures Synced()
    {
      Init(store);
      notes := GetNotes(store.items);
      currentUser := GetUser(store.items);
      likedNoteIds := GetLikedIds(store.items);
    }

    /** `handleAddNote`: the cached notes become the list `addNote` stored. */
    method HandleAddNote(newNote: Note)
      modifies this, store
      ensures notes == [newNote] + GetNotes(old(store.items))
      ensures store.items == old(store.items)[NotesKey := NotesJson(notes)]
      ensures currentUser == old(currentUser) && likedNoteIds == old(likedNoteIds)
      ensures old(Synced()) ==> Synced()
      ensures old(WellFormed(store.items)) && PriceIffPremium(newNote) && CountersNonNegative(newNote) ==> WellFormed(store.items)
    {
      ghost var before := store.items;
      var updated := AddNote(store, newNote);
      notes := updated;
      WriteNotesReads(before, updated);
      if WellFormed(before) {
        GetNotesWellFormed(before);
      }
    }

    /** `handleUpdateNote`: the cached notes become the list `updateNote` stored. */
    method HandleUpdateNote(updatedNote: Note)
      modifies this, store
      ensures notes == ReplaceById(GetNotes(old(store.items)), updatedNote)
      ensures store.items == old(store.items)[NotesKey := NotesJson(notes)]
      ensures currentUser == old(currentUser) && likedNoteIds == old(likedNoteIds)
      ensures old(Synced()) ==> Synced()
      ensures old(WellFormed(store.items)) && PriceIffPremium(updatedNote) && CountersNonNegative(updatedNote) ==> WellFormed(store.items)
    {
      ghost var before := store.items;
      var updated := UpdateNote(store, updatedNote);
      notes := updated;
      WriteNotesReads(before, updated);
      if WellFormed(before) && PriceIffPremium(updatedNote) && CountersNonNegative(updatedNote) {
        GetNotesWellFormed(before);
        ReplaceByIdWellFormed(GetNotes(before), updatedNote);
      }
    }

    /** `handleLikeNote`: both cached lists come from the one `toggleLike` result. */
    method HandleLikeNote(noteId: string)
      modifies this, store
      ensures store.items == ToggleEffect(old(store.items), noteId)
      ensures likedNoteIds == ToggledIds(GetLikedIds(old(store.items)), noteId)
      ensures notes == AdjustLikes(GetNotes(old(store.items)), noteId, noteId in GetLikedIds(old(store.items)))
      ensures currentUser == old(currentUser)
      ensures old(Synced()) ==> Synced()
      ensures old(WellFormed(store.items)) ==> WellFormed(store.items)
    {
      ghost var before := store.items;
      var result_notes, result_likedIds := ToggleLike(store, noteId);
      notes := result_notes;
      likedNoteIds := result_likedIds;
      ToggleReads(before, noteId);
      if WellFormed(before) {
        ToggleKeepsWellFormed(before, noteId);
      }
    }

    /** `handleDownloadNote`: the cached notes become the list `incrementDownload` stored. */
    method HandleDownloadNote(noteId: string)
      modifies this, store
      ensures notes == AddDownload(GetNotes(old(store.items)), noteId)
      ensures store.items == old(store.items)[NotesKey := NotesJson(notes)]
      ensures currentUser == old(currentUser) && likedNoteIds == old(likedNoteIds)
      ensures old(Synced()) ==> Synced()
      ensures old(WellFormed(store.items)) ==> WellFormed(store.items)
    {
      ghost var before := store.items;
      var updated := IncrementDownload(store, noteId);
      notes := updated;
      WriteNotesReads(before, updated);
      if WellFormed(before) {
        GetNotesWellFormed(before);
        AddDownloadWellFormed(GetNotes(before), noteId);
      }
    }

    /**
     * `handleLogin`: only the cached user changes; the store is not written.
     * The cache stays in step when the store already holds that user, which
     * is what a successful `storage.login` leaves behind.
     */
    method HandleLogin(user: User)
      modifies this
      ensures currentUser == Some(user)
      ensures notes == old(notes) && likedNoteIds == old(likedNoteIds)
      ensures unchanged(store)
      ensures old(notes == GetNotes(store.items) && likedNoteIds == GetLikedIds(store.items)) && GetUser(store.items) == Some(user) ==> Synced()
    {
      currentUser := Some(user);
    }

    /** The sign-in form's flow: `storage.login`, then, when it did not throw, `onLogin` with the user it returned. */
    method SignIn(email: string, password: string) returns (r: Result<User>)
      modifies this, store
      ensures r == Authenticate(email, password)
      ensures r.Ok? ==> currentUser == Some(r.value) && store.items == old(store.items)[UserKey := UserJson(r.value)]
      ensures r.Err? ==> currentUser == old(currentUser) && store.items == old(store.items)
      ensures notes == old(notes) && likedNoteIds == old(likedNoteIds)
      ensures old(Synced()) ==> Synced()
    {
      KeysDistinct();
      r := Login(store, email, password);
      if r.Ok? {
        HandleLogin(r.value);
      }
    }

    /** `handleLogout`: the stored user is removed and the cached user cleared. */
    method HandleLogout()
      modifies this, store
      ensures store.items == old(store.items) - {UserKey}
      ensures currentUser == None
      ensures notes == old(notes) && likedNoteIds == old(likedNoteIds)
      ensures old(Synced()) ==> Synced()
    {
      KeysDistinct();
      Logout(store);
      currentUser := None;
    }
  }

  /** Mounting on an empty store shows the sample notes, nothing liked and nobody signed in. */
  method MountOnEmptyStore() returns (app: AppContent)
    ensures app.notes == MockData.MockNotes() && app.likedNoteIds == [] && app.currentUser == None
  {
    var ls := new LocalStorage(map[]);
    app := new AppContent(ls);
    app.Mount();
    InitEmptyStore();
  }
}
