/**
 * The storage gateway: the only code that reads and writes the browser's
 * key-value store. Three keys hold the note list, the signed-in user and
 * the ids of the notes the local user has liked. Reads fall back to a
 * default when a key is missing or does not decode; every compound
 * operation reads, transforms and writes back, and returns what it wrote.
 */
module Storage {
  import opened Types
  import opened Lists
  import MockData

  const NotesKey: string := "neonotes_data"
  const UserKey: string := "neonotes_user"
  const LikedKey: string := "neonotes_liked_ids"

  /**
   * What the text stored under a key amounts to: the empty string (which
   * reads as "no item"), text that does not parse as the expected value, or
   * the decoded value itself.
   */
  datatype Slot =
    | EmptyText
    | Undecodable
    | NotesJson(notes: seq<Note>)
    | UserJson(user: User)
    | IdsJson(ids: seq<string>)

  /** The browser's local key-value store. Keys not in `items` are absent. */
  class LocalStorage {
    var items: map<string, Slot>

    constructor (initial: map<string, Slot>)
      ensures items == initial
    {
      items := initial;
    }

    /** `setItem`: overwrite one key, leave every other key alone. */
    method SetItem(key: string, value: Slot)
      modifies this
      ensures items == old(items)[key := value]
    {
      items := items[key := value];
    }

    /** `removeItem`: drop one key (nothing happens if it is absent). */
    method RemoveItem(key: string)
      modifies this
      ensures items == old(items) - {key}
    {
      items := items - {key};
    }
  }

  /** `getItem(key)` is truthy: the key is present and its text is not empty. */
  predicate Present(items: map<string, Slot>, key: string) {
    key in items && items[key] != EmptyText
  }

  // ---------------------------------------------------------------------
  // Reads with fallback
  // ---------------------------------------------------------------------

  /** `getNotes`: the decoded note list, or the sample notes when the key is missing or does not decode. */
  function GetNotes(items: map<string, Slot>): (r: seq<Note>)
    ensures NotesKey !in items || !items[NotesKey].NotesJson? ==> r == MockData.MockNotes()
    ensures NotesKey in items && items[NotesKey].NotesJson? ==> r == items[NotesKey].notes
  {
    if NotesKey in items && items[NotesKey].NotesJson? then items[NotesKey].notes else MockData.MockNotes()
  }

  /** `getUser`: the decoded current user, or none when the key is missing or does not decode. */
  function GetUser(items: map<string, Slot>): (r: Option<User>)
    ensures r.Some? <==> UserKey in items && items[UserKey].UserJson?
    ensures r.Some? ==> r.value == items[UserKey].user
  {
    if UserKey in items && items[UserKey].UserJson? then Some(items[UserKey].user) else None
  }

  /** `getLikedNoteIds`: the decoded id list, or the empty list when the key is missing or does not decode. */
  function GetLikedIds(items: map<string, Slot>): (r: seq<string>)
    ensures LikedKey !in items || !items[LikedKey].IdsJson? ==> r == []
    ensures LikedKey in items && items[LikedKey].IdsJson? ==> r == items[LikedKey].ids
  {
    if LikedKey in items && items[LikedKey].IdsJson? then items[LikedKey].ids else []
  }

  /** Every note keeps the data-model invariants: a price exactly when premium, non-negative counters. */
  predicate NotesWellFormed(notes: seq<Note>) {
    forall n | n in notes :: PriceIffPremium(n) && CountersNonNegative(n)
  }

  /** The note list stored under the notes key, if it decodes, keeps the data-model invariants. */
  predicate WellFormed(items: map<string, Slot>) {
    NotesKey in items && items[NotesKey].NotesJson? ==> NotesWellFormed(items[NotesKey].notes)
  }

  /** Reading a well-formed store always yields well-formed notes, the fallback included. */
  lemma GetNotesWellFormed(items: map<string, Slot>)
    requires WellFormed(items)
    ensures NotesWellFormed(GetNotes(items))
  {
  }

  /**
   * What the store reads as after the note list is written: that list, and
   * the same user and liked ids; it is well-formed exactly when the list is.
   */
  lemma WriteNotesReads(items: map<string, Slot>, notes: seq<Note>)
    ensures GetNotes(items[NotesKey := NotesJson(notes)]) == notes
    ensures GetUser(items[NotesKey := NotesJson(notes)]) == GetUser(items)
    ensures GetLikedIds(items[NotesKey := NotesJson(notes)]) == GetLikedIds(items)
    ensures WellFormed(items[NotesKey := NotesJson(notes)]) <==> NotesWellFormed(notes)
  {
    assert NotesKey != LikedKey && NotesKey != UserKey by {
      assert NotesKey[9] != LikedKey[9] && NotesKey[9] != UserKey[9];
    }
  }

  // ---------------------------------------------------------------------
  // Seeding
  // ---------------------------------------------------------------------

  /**
   * The store after `init`: the notes key is seeded with the sample notes
   * and the liked key with the empty list, each only where `getItem` is
   * falsy. Every other key, and every key already present, keeps its slot.
   */
  function Initialized(items: map<string, Slot>): (r: map<string, Slot>)
    ensures r.Keys == items.Keys + {NotesKey, LikedKey}
    ensures forall k | k in items && Present(items, k) :: r[k] == items[k]
    ensures forall k | k in items && k != NotesKey && k != LikedKey :: r[k] == items[k]
    ensures !Present(items, NotesKey) ==> r[NotesKey] == NotesJson(MockData.MockNotes())
    ensures !Present(items, LikedKey) ==> r[LikedKey] == IdsJson([])
  {
    var seeded := if Present(items, NotesKey) then items else items[NotesKey := NotesJson(MockData.MockNotes())];
    if Present(seeded, LikedKey) then seeded else seeded[LikedKey := IdsJson([])]
  }

  /** A second `init` changes nothing. */
  lemma InitIdempotent(items: map<string, Slot>)
    ensures Initialized(Initialized(items)) == Initialized(items)
  {
  }

  /** `init` on an empty store: the sample notes, no liked ids, and still no signed-in user. */
  lemma InitEmptyStore()
    ensures GetNotes(Initialized(map[])) == MockData.MockNotes()
    ensures GetLikedIds(Initialized(map[])) == []
    ensures GetUser(Initialized(map[])) == None
  {
  }

  /** `storage.init`. */
  method Init(ls: LocalStorage)
    modifies ls
    ensures ls.items == Initialized(old(ls.items))
  {
    if !Present(ls.items, NotesKey) {
      ls.SetItem(NotesKey, NotesJson(MockData.MockNotes()));
    }
    if !Present(ls.items, LikedKey) {
      ls.SetItem(LikedKey, IdsJson([]));
    }
  }

  // ---------------------------------------------------------------------
  // Notes
  // ---------------------------------------------------------------------

  /** `storage.saveNotes`: unconditional overwrite of the note list. */
  method SaveNotes(ls: LocalStorage, notes: seq<Note>)
    modifies ls
    ensures ls.items == old(ls.items)[NotesKey := NotesJson(notes)]
    ensures GetNotes(ls.items) == notes
  {
    ls.SetItem(NotesKey, NotesJson(notes));
  }

  /** `storage.addNote`: the note goes in front; the new list is stored and returned. */
  method AddNote(ls: LocalStorage, note: Note) returns (newNotes: seq<Note>)
    modifies ls
    ensures newNotes == [note] + GetNotes(old(ls.items))
    ensures ls.items == old(ls.items)[NotesKey := NotesJson(newNotes)]
    ensures GetNotes(ls.items) == newNotes && |newNotes| == |GetNotes(old(ls.items))| + 1 && newNotes[0] == note
  {
    var notes := GetNotes(ls.items);
    newNotes := [note] + notes;
    ls.SetItem(NotesKey, NotesJson(newNotes));
  }

  /**
   * `notes.map(n => n.id === u.id ? u : n)`: same length and order; exactly
   * the positions holding `u`'s id now hold `u`.
   */
  function ReplaceById(notes: seq<Note>, u: Note): (r: seq<Note>)
    ensures |r| == |notes|
    ensures forall i | 0 <= i < |notes| :: r[i] == (if notes[i].id == u.id then u else notes[i])
  {
    if notes == [] then []
    else [if notes[0].id == u.id then u else notes[0]] + ReplaceById(notes[1..], u)
  }

  /** An update whose id matches no note returns, and so stores, the list unchanged. */
  lemma ReplaceByIdNoMatch(notes: seq<Note>, u: Note)
    requires forall n | n in notes :: n.id != u.id
    ensures ReplaceById(notes, u) == notes
  {
    var r := ReplaceById(notes, u);
    forall i | 0 <= i < |notes| ensures r[i] == notes[i] {
      assert notes[i] in notes;
    }
  }

  /** Replacing by a well-formed note keeps a well-formed list well-formed. */
  lemma ReplaceByIdWellFormed(notes: seq<Note>, u: Note)
    requires NotesWellFormed(notes) && PriceIffPremium(u) && CountersNonNegative(u)
    ensures NotesWellFormed(ReplaceById(notes, u))
  {
    var r := ReplaceById(notes, u);
    forall m | m in r ensures PriceIffPremium(m) && CountersNonNegative(m) {
      var i :| 0 <= i < |r| && r[i] == m;
      assert notes[i] in notes;
    }
  }

  /** `storage.updateNote`: the note with the same id is replaced in place; the new list is stored and returned. */
  method UpdateNote(ls: LocalStorage, updated: Note) returns (newNotes: seq<Note>)
    modifies ls
    ensures newNotes == ReplaceById(GetNotes(old(ls.items)), updated)
    ensures ls.items == old(ls.items)[NotesKey := NotesJson(newNotes)]
    ensures GetNotes(ls.items) == newNotes
  {
    var notes := GetNotes(ls.items);
    newNotes := ReplaceById(notes, updated);
    ls.SetItem(NotesKey, NotesJson(newNotes));
  }

  // ---------------------------------------------------------------------
  // Current user
  // ---------------------------------------------------------------------

  /**
   * The credential check of `storage.login`: the administrator address with
   * password "admin" gives the administrator, the demo member's address
   * with password "student" gives the member, anything else fails with
   * "Invalid credentials".
   */
  function Authenticate(email: string, password: string): (r: Result<User>)
    ensures r == Ok(MockData.MockAdmin) <==> email == MockData.MockAdmin.email && password == "admin"
    ensures r == Ok(MockData.MockUser) <==> email == MockData.MockUser.email && password == "student"
    ensures r.Ok? ==> r.value == MockData.MockAdmin || r.value == MockData.MockUser
    ensures r.Err? ==> r.message == "Invalid credentials"
  {
    if email == MockData.MockAdmin.email && password == "admin" then Ok(MockData.MockAdmin)
    else if email == MockData.MockUser.email && password == "student" then Ok(MockData.MockUser)
    else Err("Invalid credentials")
  }

  /** `storage.login`: on success the user is stored and returned; on failure nothing is written. */
  method Login(ls: LocalStorage, email: string, password: string) returns (r: Result<User>)
    modifies ls
    ensures r == Authenticate(email, password)
    ensures r.Ok? ==> ls.items == old(ls.items)[UserKey := UserJson(r.value)] && GetUser(ls.items) == Some(r.value)
    ensures r.Err? ==> ls.items == old(ls.items)
  {
    if email == MockData.MockAdmin.email && password == "admin" {
      ls.SetItem(UserKey, UserJson(MockData.MockAdmin));
      return Ok(MockData.MockAdmin);
    }
    if email == MockData.MockUser.email && password == "student" {
      ls.SetItem(UserKey, UserJson(MockData.MockUser));
      return Ok(MockData.MockUser);
    }
    return Err("Invalid credentials");
  }

  /** `storage.logout`: only the user key is removed, so no user reads back. */
  method Logout(ls: LocalStorage)
    modifies ls
    ensures ls.items == old(ls.items) - {UserKey}
    ensures GetUser(ls.items) == None
  {
    ls.RemoveItem(UserKey);
  }

  // ---------------------------------------------------------------------
  // Likes and downloads
  // ---------------------------------------------------------------------

  /** `ids.filter(x => x !== id)`: no occurrence of `id` is left, every other id is kept in order. */
  function RemoveId(ids: seq<string>, id: string): (r: seq<string>)
    ensures id !in r && Subseq(r, ids)
    ensures forall x | x in ids && x != id :: x in r
    ensures forall x | x in r :: x in ids
    ensures forall x | x in ids && x != id :: multiset(r)[x] == multiset(ids)[x]
  {
    Filter(ids, (x: string) => x != id)
  }

  /** Removing an id that was just appended to a list without it gives the list back. */
  lemma {:induction false} RemoveAppended(ids: seq<string>, id: string)
    requires id !in ids
    ensures RemoveId(ids + [id], id) == ids
  {
    var p := (x: string) => x != id;
    if ids == [] {
      assert ids + [id] == [id];
    } else {
      assert (ids + [id])[1..] == ids[1..] + [id];
      RemoveAppended(ids[1..], id);
    }
  }

  /** The liked list after a toggle: `id` removed if it was there, appended otherwise. */
  function ToggledIds(ids: seq<string>, id: string): (r: seq<string>)
    ensures id in ids ==> id !in r && Subseq(r, ids) && forall x | x in ids && x != id :: x in r
    ensures id !in ids ==> r == ids + [id]
    ensures id in r <==> id !in ids
    ensures forall x | x != id :: x in r <==> x in ids
    ensures forall x | x in ids && x != id :: multiset(r)[x] == multiset(ids)[x]
  {
    if id in ids then RemoveId(ids, id)
    else
      assert multiset(ids + [id]) == multiset(ids) + multiset{id};
      ids + [id]
  }

  function Max(a: int, b: int): int {
    if a >= b then a else b
  }

  /** The like counter after a toggle: down by one but not below zero when it was liked, up by one otherwise. */
  function LikeStep(likes: int, wasLiked: bool): int {
    if wasLiked then Max(0, likes - 1) else likes + 1
  }

  /** One note after a toggle of `id`: the new like count if it is the note, untouched otherwise. */
  function LikeNote(n: Note, id: string, wasLiked: bool): Note {
    if n.id == id then n.(likes := LikeStep(n.likes, wasLiked)) else n
  }

  /**
   * The note list after a toggle (`notes.map(...)` in `toggleLike`): the
   * same notes in the same order, each passed through `LikeNote`.
   */
  function AdjustLikes(notes: seq<Note>, id: string, wasLiked: bool): (r: seq<Note>)
    ensures |r| == |notes|
    ensures forall i | 0 <= i < |notes| :: r[i] == LikeNote(notes[i], id, wasLiked)
  {
    if notes == [] then []
    else [LikeNote(notes[0], id, wasLiked)] + AdjustLikes(notes[1..], id, wasLiked)
  }

  /** A toggle of an id no note carries leaves every note as it was; only the liked list changes. */
  lemma AdjustLikesNoMatch(notes: seq<Note>, id: string, wasLiked: bool)
    requires forall n | n in notes :: n.id != id
    ensures AdjustLikes(notes, id, wasLiked) == notes
  {
    var r := AdjustLikes(notes, id, wasLiked);
    forall i | 0 <= i < |notes| ensures r[i] == notes[i] {
      assert notes[i] in notes;
    }
  }

  /**
   * A toggle changes only the like counter of the matching notes; every
   * other note and every other field stays as it was, and well-formed notes
   * stay well-formed: the counter never goes negative.
   */
  lemma AdjustLikesEffect(notes: seq<Note>, id: string, wasLiked: bool)
    ensures forall i | 0 <= i < |notes| && notes[i].id == id ::
      AdjustLikes(notes, id, wasLiked)[i].(likes := notes[i].likes) == notes[i] &&
      AdjustLikes(notes, id, wasLiked)[i].likes == LikeStep(notes[i].likes, wasLiked)
    ensures forall i | 0 <= i < |notes| && notes[i].id != id :: AdjustLikes(notes, id, wasLiked)[i] == notes[i]
    ensures NotesWellFormed(notes) ==> NotesWellFormed(AdjustLikes(notes, id, wasLiked))
  {
    var r := AdjustLikes(notes, id, wasLiked);
    if NotesWellFormed(notes) {
      forall m | m in r ensures PriceIffPremium(m) && CountersNonNegative(m) {
        var i :| 0 <= i < |r| && r[i] == m;
        assert notes[i] in notes;
      }
    }
  }

  /** The store after `toggleLike(id)`: the liked key and the notes key rewritten, nothing else. */
  function ToggleEffect(items: map<string, Slot>, id: string): map<string, Slot> {
    var liked := GetLikedIds(items);
    items[LikedKey := IdsJson(ToggledIds(liked, id))][NotesKey := NotesJson(AdjustLikes(GetNotes(items), id, id in liked))]
  }

  /**
   * `storage.toggleLike`: flips the id's membership in the liked list,
   * moves the matching notes' like counters in step, stores both and
   * returns both.
   */
  method ToggleLike(ls: LocalStorage, id: string) returns (notes: seq<Note>, likedIds: seq<string>)
    modifies ls
    ensures likedIds == ToggledIds(GetLikedIds(old(ls.items)), id)
    ensures notes == AdjustLikes(GetNotes(old(ls.items)), id, id in GetLikedIds(old(ls.items)))
    ensures ls.items == ToggleEffect(old(ls.items), id)
    ensures GetNotes(ls.items) == notes && GetLikedIds(ls.items) == likedIds
  {
    ghost var before := ls.items;
    var liked := GetLikedIds(ls.items);
    var current := GetNotes(ls.items);
    var isLiked := id in liked;
    var newLiked;
    if isLiked {
      newLiked := RemoveId(liked, id);
    } else {
      newLiked := liked + [id];
    }
    assert newLiked == ToggledIds(liked, id);
    ls.SetItem(LikedKey, IdsJson(newLiked));
    notes := AdjustLikes(current, id, isLiked);
    ls.SetItem(NotesKey, NotesJson(notes));
    likedIds := newLiked;
    assert ls.items == ToggleEffect(before, id);
    ToggleReads(before, id);
  }

  /** The three keys are different strings. */
  lemma KeysDistinct()
    ensures NotesKey != LikedKey && NotesKey != UserKey && UserKey != LikedKey
  {
    assert NotesKey[9] != LikedKey[9] && NotesKey[9] != UserKey[9] && UserKey[9] != LikedKey[9];
  }

  /** What the store reads as after a toggle: the toggled list, the adjusted notes, the same user. */
  lemma ToggleReads(items: map<string, Slot>, id: string)
    ensures GetLikedIds(ToggleEffect(items, id)) == ToggledIds(GetLikedIds(items), id)
    ensures GetNotes(ToggleEffect(items, id)) == AdjustLikes(GetNotes(items), id, id in GetLikedIds(items))
    ensures GetUser(ToggleEffect(items, id)) == GetUser(items)
  {
    KeysDistinct();
    var liked := GetLikedIds(items);
    var ids, notes := ToggledIds(liked, id), AdjustLikes(GetNotes(items), id, id in liked);
    var m := items[LikedKey := IdsJson(ids)][NotesKey := NotesJson(notes)];
    assert ToggleEffect(items, id) == m;
    assert m[LikedKey] == IdsJson(ids);
    assert m[NotesKey] == NotesJson(notes);
    assert UserKey in m <==> UserKey in items;
    assert UserKey in items ==> m[UserKey] == items[UserKey];
  }

  /** A toggle keeps a well-formed store well-formed: like counters never go negative. */
  lemma ToggleKeepsWellFormed(items: map<string, Slot>, id: string)
    requires WellFormed(items)
    ensures WellFormed(ToggleEffect(items, id))
  {
    GetNotesWellFormed(items);
    AdjustLikesEffect(GetNotes(items), id, id in GetLikedIds(items));
    ToggleReads(items, id);
  }

  /**
   * Toggling twice from unliked restores exactly what the store reads as:
   * the liked list and every note (given the matching like counters are
   * not negative).
   */
  lemma ToggleTwiceFromUnliked(items: map<string, Slot>, id: string)
    requires id !in GetLikedIds(items)
    requires forall n | n in GetNotes(items) && n.id == id :: n.likes >= 0
    ensures GetLikedIds(ToggleEffect(ToggleEffect(items, id), id)) == GetLikedIds(items)
    ensures GetNotes(ToggleEffect(ToggleEffect(items, id), id)) == GetNotes(items)
  {
    var liked, notes := GetLikedIds(items), GetNotes(items);
    var once := ToggleEffect(items, id);
    ToggleReads(items, id);
    ToggleReads(once, id);
    RemoveAppended(liked, id);
    var up := AdjustLikes(notes, id, false);
    var back := AdjustLikes(up, id, true);
    forall i | 0 <= i < |notes| ensures back[i] == notes[i] {
      if notes[i].id == id {
        assert notes[i] in notes;
      }
    }
  }

  /**
   * Toggling twice from liked does not restore the list: every occurrence
   * of the id is dropped and the id is re-appended at the end; a matching
   * counter ends at `max(0, likes - 1) + 1`.
   */
  lemma ToggleTwiceFromLiked(items: map<string, Slot>, id: string)
    requires id in GetLikedIds(items)
    ensures GetLikedIds(ToggleEffect(ToggleEffect(items, id), id)) == RemoveId(GetLikedIds(items), id) + [id]
    ensures var notes, twice := GetNotes(items), GetNotes(ToggleEffect(ToggleEffect(items, id), id));
      |twice| == |notes| &&
      forall i | 0 <= i < |notes| && notes[i].id == id :: twice[i].likes == Max(0, notes[i].likes - 1) + 1
  {
    var once := ToggleEffect(items, id);
    ToggleReads(items, id);
    ToggleReads(once, id);
  }

  /** A concrete case: starting from ["n1", "n2"], toggling "n1" twice gives ["n2", "n1"]. */
  lemma ToggleTwiceMovesLikedId(items: map<string, Slot>)
    requires GetLikedIds(items) == ["n1", "n2"]
    ensures GetLikedIds(ToggleEffect(ToggleEffect(items, "n1"), "n1")) == ["n2", "n1"]
  {
    var once := ToggleEffect(items, "n1");
    ToggleReads(items, "n1");
    ToggleReads(once, "n1");
    ToggledIdsTwiceMoves();
  }

  /** The liked list of that case: ["n1", "n2"] toggled at "n1" twice is ["n2", "n1"]. */
  lemma ToggledIdsTwiceMoves()
    ensures ToggledIds(ToggledIds(["n1", "n2"], "n1"), "n1") == ["n2", "n1"]
  {
    assert "n1" != "n2" by {
      assert "n1"[1] != "n2"[1];
    }
    RemoveIdOfPair("n1", "n2");
    assert "n1" !in ["n2"];
    assert ToggledIds(["n2"], "n1") == ["n2"] + ["n1"];
  }

  /** Removing the first of two different ids leaves the second. */
  lemma RemoveIdOfPair(a: string, b: string)
    requires a != b
    ensures RemoveId([a, b], a) == [b]
  {
    var r := RemoveId([a, b], a);
    assert b in r && r[0] != a;
    assert [a, b][1..] == [b] && [b][1..] == [];
    assert Subseq(r, [b]);
    assert r[0] == b && r[1..] == [];
  }

  /** One note after a download of `id`: one more download if it is the note, untouched otherwise. */
  function DownloadNote(n: Note, id: string): Note {
    if n.id == id then n.(downloads := n.downloads + 1) else n
  }

  /** `notes.map(...)` in `incrementDownload`: the same notes in the same order, each passed through `DownloadNote`. */
  function AddDownload(notes: seq<Note>, id: string): (r: seq<Note>)
    ensures |r| == |notes|
    ensures forall i | 0 <= i < |notes| :: r[i] == DownloadNote(notes[i], id)
  {
    if notes == [] then []
    else [DownloadNote(notes[0], id)] + AddDownload(notes[1..], id)
  }

  /** A download keeps well-formed notes well-formed. */
  lemma AddDownloadWellFormed(notes: seq<Note>, id: string)
    requires NotesWellFormed(notes)
    ensures NotesWellFormed(AddDownload(notes, id))
  {
    var r := AddDownload(notes, id);
    forall m | m in r ensures PriceIffPremium(m) && CountersNonNegative(m) {
      var i :| 0 <= i < |r| && r[i] == m;
      assert notes[i] in notes;
    }
  }

  /** `storage.incrementDownload`: one more download on the matching notes; stored and returned. */
  method IncrementDownload(ls: LocalStorage, id: string) returns (newNotes: seq<Note>)
    modifies ls
    ensures newNotes == AddDownload(GetNotes(old(ls.items)), id)
    ensures ls.items == old(ls.items)[NotesKey := NotesJson(newNotes)]
    ensures GetNotes(ls.items) == newNotes
  {
    var notes := GetNotes(ls.items);
    newNotes := AddDownload(notes, id);
    ls.SetItem(NotesKey, NotesJson(newNotes));
  }

  /** The note list after `k` downloads of note `id`. */
  function AddDownloads(notes: seq<Note>, id: string, k: nat): seq<Note> {
    if k == 0 then notes else AddDownload(AddDownloads(notes, id, k - 1), id)
  }

  /** `k` downloads add exactly `k` to the matching notes and change nothing else. */
  lemma {:induction false} AddDownloadsCount(notes: seq<Note>, id: string, k: nat)
    ensures |AddDownloads(notes, id, k)| == |notes|
    ensures forall i | 0 <= i < |notes| && notes[i].id == id ::
      AddDownloads(notes, id, k)[i] == notes[i].(downloads := notes[i].downloads + k)
    ensures forall i | 0 <= i < |notes| && notes[i].id != id :: AddDownloads(notes, id, k)[i] == notes[i]
  {
    if k > 0 {
      AddDownloadsCount(notes, id, k - 1);
    }
  }
}
