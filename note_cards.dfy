/**
 * What every page hands a note card besides the note: whether the local
 * user has liked it, read off the cached liked-id list.
 */
module NoteCards {
  import opened Types
  import Lists
  import Storage

  /** `likedNoteIds.includes(id)`. */
  predicate IsLiked(likedIds: seq<string>, id: string) {
    id in likedIds
  }

  /** The liked flag of each card in a rendered list, in the list's order. */
  function LikedFlags(notes: seq<Note>, likedIds: seq<string>): (r: seq<bool>)
    ensures |r| == |notes|
    ensures forall i | 0 <= i < |notes| :: r[i] <==> notes[i].id in likedIds
  {
    Lists.Map(notes, (n: Note) => IsLiked(likedIds, n.id))
  }

  /**
   * A like toggle flips the flag of exactly the cards showing the toggled
   * note; every other card keeps its flag.
   */
  lemma LikedFlagsAfterToggle(notes: seq<Note>, likedIds: seq<string>, id: string)
    ensures var before, after := LikedFlags(notes, likedIds), LikedFlags(notes, Storage.ToggledIds(likedIds, id));
      forall i | 0 <= i < |notes| :: after[i] == (if notes[i].id == id then !before[i] else before[i])
  {
  }
}
