/**
 * The note page: which note it shows, posting a comment (handed to the
 * shell's update handler), the like button, and the download with its
 * file-name choice (reported once to the shell's download handler).
 */
module NoteDetail {
  import opened Types
  import opened Text
  import Storage

  /** `notes.find(n => n.id === id)`: the first note with that id, none if there is none. */
  function FindNote(notes: seq<Note>, id: string): (r: Option<Note>)
    ensures r.None? <==> forall n | n in notes :: n.id != id
    ensures r.Some? ==> r.value.id == id && exists k | 0 <= k < |notes| :: notes[k] == r.value && forall j | 0 <= j < k :: notes[j].id != id
  {
    if notes == [] then None
    else if notes[0].id == id then Some(notes[0])
    else
      var r := FindNote(notes[1..], id);
      assert forall n | n in notes[1..] :: n in notes;
      if r.Some? then
        var k :| 0 <= k < |notes[1..]| && notes[1..][k] == r.value && forall j | 0 <= j < k :: notes[1..][j].id != id;
        assert notes[k + 1] == r.value;
        assert forall j | 0 <= j < k + 1 :: notes[j].id != id by {
          forall j | 0 <= j < k + 1 ensures notes[j].id != id {
            if j > 0 {
              assert notes[j] == notes[1..][j - 1];
            }
          }
        }
        r
      else
        assert notes == [notes[0]] + notes[1..];
        r
  }

  /** The comment the form posts: stamped id `c${stamp}`, the poster's identity, the text as typed. */
  function NewComment(stamp: string, user: User, input: string, now: string): (c: Comment)
    ensures c.id == "c" + stamp && c.content == input && c.createdAt == now
    ensures c.userId == user.id && c.userName == user.name && c.userAvatar == user.avatar
  {
    Comment(id := "c" + stamp, userId := user.id, userName := user.name, userAvatar := user.avatar,
            content := input, createdAt := now)
  }

  /**
   * `handlePostComment`: no update without a note, with blank input or when
   * nobody is signed in; otherwise the note with the new comment in front,
   * every earlier comment behind it in order and every other field as it was.
   */
  function PostComment(note: Option<Note>, input: string, user: Option<User>, stamp: string, now: string): (r: Option<Note>)
    ensures r.None? <==> note.None? || IsBlank(input) || user.None?
    ensures r.Some? ==> |r.value.comments| == |note.value.comments| + 1
    ensures r.Some? ==> r.value.comments[0] == NewComment(stamp, user.value, input, now)
    ensures r.Some? ==> r.value.comments[1..] == note.value.comments
    ensures r.Some? ==> r.value.(comments := note.value.comments) == note.value
  {
    if note.None? || IsBlank(input) || user.None? then None
    else
      var c := NewComment(stamp, user.value, input, now);
      assert ([c] + note.value.comments)[1..] == note.value.comments;
      Some(note.value.(comments := [c] + note.value.comments))
  }

  /** Replacing by id with a note whose id occurs puts it at the first such position, so the page finds it there. */
  lemma {:induction false} FindAfterReplace(notes: seq<Note>, u: Note)
    requires exists n | n in notes :: n.id == u.id
    ensures Storage.ReplaceById(notes, u) != [] && FindNote(Storage.ReplaceById(notes, u), u.id) == Some(u)
  {
    var r := Storage.ReplaceById(notes, u);
    if notes[0].id != u.id {
      assert notes == [notes[0]] + notes[1..];
      assert exists n | n in notes[1..] :: n.id == u.id;
      FindAfterReplace(notes[1..], u);
      assert r[1..] == Storage.ReplaceById(notes[1..], u);
    }
  }

  /**
   * Posting a comment on the displayed note and passing the result to
   * `updateNote` leaves the list the same length, with the posted note in
   * place of each note bearing its id, and the page then finds the posted note.
   */
  lemma PostedCommentReplacesInPlace(notes: seq<Note>, id: string, input: string, user: Option<User>, stamp: string, now: string)
    requires PostComment(FindNote(notes, id), input, user, stamp, now).Some?
    ensures var posted := PostComment(FindNote(notes, id), input, user, stamp, now).value;
      var updated := Storage.ReplaceById(notes, posted);
      posted.id == id && |updated| == |notes| &&
      (forall i | 0 <= i < |notes| :: updated[i] == (if notes[i].id == id then posted else notes[i])) &&
      FindNote(updated, id) == Some(posted)
  {
    var found := FindNote(notes, id).value;
    var posted := PostComment(FindNote(notes, id), input, user, stamp, now).value;
    assert posted.id == found.id;
    var k :| 0 <= k < |notes| && notes[k] == found;
    assert notes[k] in notes;
    FindAfterReplace(notes, posted);
  }

  /** What the download link points at: the stored file, or a plain-text file made from the content. */
  datatype DownloadSource = FileData(dataUri: string) | TextBlob(text: string)

  /** The link the page clicks. */
  datatype Download = Download(source: DownloadSource, fileName: string)

  /**
   * The suggested file name: the stored file's own name when the note
   * carries a file and has one; otherwise the title with each whitespace
   * run made `_`, with `.pdf` for a stored file and `.txt` for the text.
   */
  function DownloadName(note: Note): (name: string)
    ensures Truthy(note.fileData) && Truthy(note.fileName) ==> name == note.fileName.value
    ensures Truthy(note.fileData) && !Truthy(note.fileName) ==> name == Underscored(note.title) + ".pdf"
    ensures !Truthy(note.fileData) ==> name == Underscored(note.title) + ".txt"
    ensures name != ""
    ensures !Truthy(note.fileData) || !Truthy(note.fileName) ==>
      forall i | 0 <= i < |name| - 4 :: !IsSpace(name[i])
  {
    var stem := Underscored(note.title);
    if Truthy(note.fileData) then
      (if Truthy(note.fileName) then note.fileName.value else stem + ".pdf")
    else stem + ".txt"
  }

  /** The link built for a note: its stored file when it has one, else its content as text, under `DownloadName`. */
  function DownloadFor(note: Note): (d: Download)
    ensures d.fileName == DownloadName(note)
    ensures Truthy(note.fileData) <==> d.source.FileData?
    ensures d.source.FileData? ==> d.source.dataUri == note.fileData.value
    ensures d.source.TextBlob? ==> d.source.text == note.content
  {
    Download(if Truthy(note.fileData) then FileData(note.fileData.value) else TextBlob(note.content), DownloadName(note))
  }

  /** The note page's own state. */
  class NoteDetailState {
    var note: Option<Note>
    var commentInput: string
    const currentUser: Option<User>

    constructor (currentUser: Option<User>)
      ensures note == None && commentInput == "" && this.currentUser == currentUser
    {
      note := None;
      commentInput := "";
      this.currentUser := currentUser;
    }

    /** The effect on the route id and the note list: the displayed note is looked up again. */
    method LoadNote(notes: seq<Note>, id: string)
      modifies this
      ensures note == FindNote(notes, id) && commentInput == old(commentInput)
    {
      note := FindNote(notes, id);
    }

    /** Typing in the comment box. */
    method SetCommentInput(value: string)
      modifies this
      ensures commentInput == value && note == old(note)
    {
      commentInput := value;
    }

    /**
     * `handlePostComment`: the note passed to `onUpdateNote`, if any; the
     * comment box is cleared only when a comment was posted.
     */
    method HandlePostComment(stamp: string, now: string) returns (updated: Option<Note>)
      modifies this
      ensures updated == PostComment(old(note), old(commentInput), currentUser, stamp, now)
      ensures updated.Some? ==> commentInput == ""
      ensures updated.None? ==> commentInput == old(commentInput)
      ensures note == old(note)
    {
      if note.None? || IsBlank(commentInput) || currentUser.None? {
        return None;
      }
      updated := PostComment(note, commentInput, currentUser, stamp, now);
      commentInput := "";
    }

    /** The like button: the id passed to `onLike`, none when no note is shown. */
    method ToggleLike() returns (liked: Option<string>)
      ensures note.None? ==> liked == None
      ensures note.Some? ==> liked == Some(note.value.id)
    {
      if note.None? {
        return None;
      }
      liked := Some(note.value.id);
    }

    /**
     * `handleDownloadFile`: with no note nothing happens; otherwise the link
     * for the note is clicked and its id is reported to `onDownload`
     * exactly once.
     */
    method HandleDownloadFile() returns (download: Option<Download>, reported: seq<string>)
      ensures note.None? ==> download == None && reported == []
      ensures note.Some? ==> download == Some(DownloadFor(note.value)) && reported == [note.value.id]
    {
      if note.None? {
        return None, [];
      }
      download := Some(DownloadFor(note.value));
      reported := [note.value.id];
    }
  }
}
