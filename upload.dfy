/**
 * The upload page: the form, the duplicate-free tag list and its three
 * operations (add typed tag, remove, merge suggested tags), the file-size
 * gate, and the note the submit handler builds and hands to the shell.
 */
module Upload {
  import opened Types
  import opened Lists
  import opened Text

  /** The largest file accepted: 2 MiB. */
  const MaxFileBytes: nat := 2 * 1024 * 1024

  /** The `content` of a note submitted with an empty content box. */
  const PlaceholderContent: string := "This note contains a file attachment. The text content was not extracted."

  /** The text fields and the premium checkbox of the form. */
  datatype FormData = FormData(
    title: string,
    description: string,
    subject: string,
    course: string,
    year: string,
    content: string,
    price: string,
    isPremium: bool)

  /** The form as the page opens: every text field empty, not premium. */
  const EmptyForm: FormData := FormData("", "", "", "", "", "", "", false)

  /** The `name` attribute of a text input, which `handleChange` writes. */
  datatype Field = Title | Description | Subject | Course | Year | Content | PriceText

  /** A selected file: its name, its MIME type and its size in bytes. */
  datatype FileInfo = FileInfo(name: string, mimeType: string, size: nat)

  /** `{ ...prev, [name]: value }`: the named field set, every other field kept. */
  function SetField(form: FormData, field: Field, value: string): (r: FormData)
    ensures field == Title ==> r == form.(title := value)
    ensures field == Description ==> r == form.(description := value)
    ensures field == Subject ==> r == form.(subject := value)
    ensures field == Course ==> r == form.(course := value)
    ensures field == Year ==> r == form.(year := value)
    ensures field == Content ==> r == form.(content := value)
    ensures field == PriceText ==> r == form.(price := value)
  {
    match field
    case Title => form.(title := value)
    case Description => form.(description := value)
    case Subject => form.(subject := value)
    case Course => form.(course := value)
    case Year => form.(year := value)
    case Content => form.(content := value)
    case PriceText => form.(price := value)
  }

  /**
   * The tag list after Enter in the tag box: unchanged for blank input;
   * otherwise the trimmed input appended unless already present.
   */
  function AddTag(tags: seq<string>, input: string): (r: seq<string>)
    ensures IsBlank(input) ==> r == tags
    ensures !IsBlank(input) ==> Trim(input) in r
    ensures |tags| <= |r| <= |tags| + 1 && r[..|tags|] == tags
    ensures forall t | t in r :: t in tags || t == Trim(input)
    ensures NoDup(tags) ==> NoDup(r)
  {
    var t := Trim(input);
    if t == "" || t in tags then tags else tags + [t]
  }

  /** Unfolds the definition of `AddTag` for non-blank input: the trimmed input is appended exactly when it is new. */
  lemma AddTagAppends(tags: seq<string>, input: string)
    requires !IsBlank(input)
    ensures AddTag(tags, input) == if Trim(input) in tags then tags else tags + [Trim(input)]
  {
  }

  /** `tags.filter(tag => tag !== t)`: no occurrence of `t` left, the rest kept in order, no duplicate introduced. */
  function RemoveTag(tags: seq<string>, t: string): (r: seq<string>)
    ensures t !in r && Subseq(r, tags)
    ensures forall x | x in tags && x != t :: x in r
    ensures forall x | x in r :: x in tags
    ensures forall x | x in tags && x != t :: multiset(r)[x] == multiset(tags)[x]
    ensures NoDup(tags) ==> NoDup(r)
  {
    var p := (x: string) => x != t;
    if NoDup(tags) then FilterNoDup(tags, p); Filter(tags, p) else Filter(tags, p)
  }

  /**
   * `[...new Set([...prev, ...aiTags])]`: every tag of either list once, a
   * duplicate-free prior list kept as it is in front.
   */
  function MergeTags(prev: seq<string>, aiTags: seq<string>): (r: seq<string>)
    ensures NoDup(r)
    ensures forall t | t in r :: t in prev || t in aiTags
    ensures forall t | t in prev || t in aiTags :: t in r
    ensures NoDup(prev) ==> |prev| <= |r| && r[..|prev|] == prev
  {
    if NoDup(prev) then DedupKeepsPrefix(prev, aiTags); Dedup(prev + aiTags) else Dedup(prev + aiTags)
  }

  /** The merged tags appear in the order of their first occurrence in the prior list followed by the suggestions. */
  lemma MergeTagsFirstSeenOrder(prev: seq<string>, aiTags: seq<string>)
    ensures var r := MergeTags(prev, aiTags);
      forall i, j :: 0 <= i < j < |r| ==> IndexOf(prev + aiTags, r[i]) < IndexOf(prev + aiTags, r[j])
  {
    DedupFirstSeenOrder(prev + aiTags);
  }

  /** Suggestions are asked for only when both the title and the description are filled in (non-empty). */
  predicate CanGenerateTags(form: FormData) {
    form.title != "" && form.description != ""
  }

  /** The size gate of `handleFileChange`. */
  predicate Acceptable(f: FileInfo) {
    f.size <= MaxFileBytes
  }

  /** `n${stamp}`, where `stamp` is the decimal text of the clock reading. */
  function NoteId(stamp: string): string {
    "n" + stamp
  }

  /**
   * The note `handleSubmit` builds. `stamp` is the clock reading that names
   * it, `today` the date part of the current time, `fileData` what reading
   * the selected file produced.
   */
  function NewNote(stamp: string, form: FormData, tags: seq<string>, author: User,
                   file: Option<FileInfo>, fileData: Option<string>, today: string): (n: Note)
    ensures n.id == NoteId(stamp) && n.author == author && n.tags == tags && n.createdAt == today
    ensures n.title == form.title && n.description == form.description && n.subject == form.subject
    ensures n.course == form.course && n.year == form.year
    ensures n.content == (if form.content == "" then PlaceholderContent else form.content)
    ensures n.content != ""
    ensures n.thumbnail == "https://picsum.photos/seed/" + n.id + "/400/250"
    ensures n.downloads == 0 && n.likes == 0 && n.comments == []
    ensures n.isPremium == form.isPremium
    ensures n.price.Some? <==> form.isPremium
    ensures n.price.Some? ==> n.price.value == Price(form.price)
    ensures n.fileName.Some? <==> file.Some?
    ensures n.mimeType.Some? <==> file.Some?
    ensures file.Some? ==> n.fileName.value == file.value.name && n.mimeType.value == file.value.mimeType
    ensures n.fileData == fileData
  {
    var id := NoteId(stamp);
    Note(
      id := id,
      title := form.title,
      description := form.description,
      content := if form.content != "" then form.content else PlaceholderContent,
      course := form.course,
      year := form.year,
      subject := form.subject,
      tags := tags,
      thumbnail := "https://picsum.photos/seed/" + id + "/400/250",
      author := author,
      downloads := 0,
      likes := 0,
      isPremium := form.isPremium,
      price := if form.isPremium then Some(Price(form.price)) else None,
      createdAt := today,
      comments := [],
      fileData := fileData,
      fileName := if file.Some? then Some(file.value.name) else None,
      mimeType := if file.Some? then Some(file.value.mimeType) else None)
  }

  /** A freshly built note keeps the data-model invariants, so storing it keeps a well-formed store well-formed. */
  lemma NewNoteWellFormed(stamp: string, form: FormData, tags: seq<string>, author: User,
                          file: Option<FileInfo>, fileData: Option<string>, today: string)
    ensures var n := NewNote(stamp, form, tags, author, file, fileData, today);
      PriceIffPremium(n) && CountersNonNegative(n)
  {
  }

  /** The upload page's state for a given signed-in user (or none). */
  class UploadForm {
    var formData: FormData
    var tags: seq<string>
    var tagInput: string
    var file: Option<FileInfo>
    const currentUser: Option<User>

    /** The tag list never holds a tag twice. */
    predicate Valid()
      reads this
    {
      NoDup(tags)
    }

    constructor (currentUser: Option<User>)
      ensures formData == EmptyForm && tags == [] && tagInput == "" && file == None
      ensures this.currentUser == currentUser
      ensures Valid()
    {
      formData := EmptyForm;
      tags := [];
      tagInput := "";
      file := None;
      this.currentUser := currentUser;
    }

    /** `handleChange`: one text field of the form is overwritten. */
    method HandleChange(field: Field, value: string)
      modifies this
      ensures formData == SetField(old(formData), field, value)
      ensures tags == old(tags) && tagInput == old(tagInput) && file == old(file)
    {
      formData := SetField(formData, field, value);
    }

    /** `handleCheckboxChange`: only the premium flag changes. */
    method HandleCheckboxChange(checked: bool)
      modifies this
      ensures formData == old(formData).(isPremium := checked)
      ensures tags == old(tags) && tagInput == old(tagInput) && file == old(file)
    {
      formData := formData.(isPremium := checked);
    }

    /** Typing in the tag box. */
    method SetTagInput(value: string)
      modifies this
      ensures tagInput == value && tags == old(tags) && formData == old(formData) && file == old(file)
    {
      tagInput := value;
    }

    /** `handleAddTag`: on Enter with non-blank input the trimmed tag is added if new and the box cleared; otherwise nothing. */
    method HandleAddTag(key: string)
      modifies this
      requires Valid()
      ensures Valid()
      ensures key == "Enter" && !IsBlank(old(tagInput)) ==> tags == AddTag(old(tags), old(tagInput)) && tagInput == ""
      ensures !(key == "Enter" && !IsBlank(old(tagInput))) ==> tags == old(tags) && tagInput == old(tagInput)
      ensures formData == old(formData) && file == old(file)
    {
      if key == "Enter" && !IsBlank(tagInput) {
        var t := Trim(tagInput);
        AddTagAppends(tags, tagInput);
        if t !in tags {
          tags := tags + [t];
        }
        tagInput := "";
      }
    }

    /** `removeTag`. */
    method HandleRemoveTag(t: string)
      modifies this
      requires Valid()
      ensures Valid()
      ensures tags == RemoveTag(old(tags), t)
      ensures formData == old(formData) && tagInput == old(tagInput) && file == old(file)
    {
      tags := RemoveTag(tags, t);
    }

    /**
     * `handleGenerateTags`, given what the suggestion service returns: refused
     * (nothing changes) without a title or description, otherwise merged.
     */
    method HandleGenerateTags(aiTags: seq<string>) returns (refused: bool)
      modifies this
      requires Valid()
      ensures Valid()
      ensures refused <==> !CanGenerateTags(formData)
      ensures refused ==> tags == old(tags)
      ensures !refused ==> tags == MergeTags(old(tags), aiTags)
      ensures formData == old(formData) && tagInput == old(tagInput) && file == old(file)
    {
      if formData.title == "" || formData.description == "" {
        refused := true;
        return;
      }
      refused := false;
      tags := MergeTags(tags, aiTags);
    }

    /**
     * `handleFileChange`: with no file chosen nothing happens; a file over
     * the limit is rejected and the previous choice kept; otherwise the
     * first file chosen becomes the selection.
     */
    method HandleFileChange(files: seq<FileInfo>) returns (rejected: bool)
      modifies this
      ensures rejected <==> files != [] && !Acceptable(files[0])
      ensures files != [] && Acceptable(files[0]) ==> file == Some(files[0])
      ensures files == [] || rejected ==> file == old(file)
      ensures formData == old(formData) && tags == old(tags) && tagInput == old(tagInput)
    {
      rejected := false;
      if files != [] {
        var selected := files[0];
        if selected.size > MaxFileBytes {
          rejected := true;
          return;
        }
        file := Some(selected);
      }
    }

    /** The clear button beside the chosen file: the selection is dropped, so a submit attaches no file. */
    method ClearFile()
      modifies this
      ensures file == None
      ensures formData == old(formData) && tags == old(tags) && tagInput == old(tagInput)
    {
      file := None;
    }

    /**
     * `handleSubmit`: the note handed to `onUpload`, or none. Nothing is
     * submitted without a signed-in user (the page shows only the sign-in
     * prompt) or when reading the selected file failed.
     */
    method HandleSubmit(stamp: string, today: string, fileRead: Result<string>) returns (submitted: Option<Note>)
      ensures currentUser.None? ==> submitted == None
      ensures currentUser.Some? && file.Some? && fileRead.Err? ==> submitted == None
      ensures currentUser.Some? && file.None? ==>
        submitted == Some(NewNote(stamp, formData, tags, currentUser.value, None, None, today))
      ensures currentUser.Some? && file.Some? && fileRead.Ok? ==>
        submitted == Some(NewNote(stamp, formData, tags, currentUser.value, file, Some(fileRead.value), today))
    {
      if currentUser.None? {
        return None;
      }
      var fileData: Option<string> := None;
      if file.Some? {
        if fileRead.Err? {
          return None;
        }
        fileData := Some(fileRead.value);
      }
      submitted := Some(NewNote(stamp, formData, tags, currentUser.value, file, fileData, today));
    }
  }
}
