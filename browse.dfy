/**
 * The browse page: the subject list, the three-way filter over the notes,
 * and the page state (search box, subject selector, URL parameters) that
 * the URL effect and the two clear buttons reassign.
 */
module Browse {
  import opened Types
  import opened Lists
  import opened Text

  /** The two URL query parameters the page reads: `author` and `q`. */
  datatype SearchParams = SearchParams(author: Option<string>, q: Option<string>)

  /** No query parameters at all. */
  const NoParams: SearchParams := SearchParams(None, None)

  /** `['All', ...new Set(notes.map(n => n.subject))]`. */
  function Subjects(notes: seq<Note>): (r: seq<string>)
    ensures |r| >= 1 && r[0] == "All"
    ensures NoDup(r[1..])
    ensures forall n | n in notes :: n.subject in r[1..]
    ensures forall s | s in r[1..] :: exists n | n in notes :: n.subject == s
  {
    var subjects := Map(notes, (n: Note) => n.subject);
    var d := Dedup(subjects);
    assert (["All"] + d)[1..] == d;
    forall n | n in notes ensures n.subject in d {
      var i :| 0 <= i < |notes| && notes[i] == n;
      assert subjects[i] == n.subject;
    }
    forall s | s in d ensures exists n | n in notes :: n.subject == s {
      var i :| 0 <= i < |subjects| && subjects[i] == s;
      assert notes[i] in notes;
    }
    ["All"] + d
  }

  /** The subjects after "All" are listed in the order in which they first occur among the notes. */
  lemma SubjectsFirstSeenOrder(notes: seq<Note>)
    ensures var r, subjects := Subjects(notes), Map(notes, (n: Note) => n.subject);
      forall i, j :: 1 <= i < j < |r| ==> IndexOf(subjects, r[i]) < IndexOf(subjects, r[j])
  {
    var subjects := Map(notes, (n: Note) => n.subject);
    DedupFirstSeenOrder(subjects);
    var r, d := Subjects(notes), Dedup(subjects);
    assert r == ["All"] + d;
    forall i, j | 1 <= i < j < |r| ensures IndexOf(subjects, r[i]) < IndexOf(subjects, r[j]) {
      assert r[i] == d[i - 1] && r[j] == d[j - 1];
    }
  }

  /** The title, or some tag, contains the search term, all compared in lower case. */
  predicate MatchesSearch(n: Note, term: string) {
    Contains(Lower(n.title), Lower(term))
    || exists k | 0 <= k < |n.tags| :: Contains(Lower(n.tags[k]), Lower(term))
  }

  /** The subject selector is on "All" or on this note's subject. */
  predicate MatchesSubject(n: Note, subject: string) {
    subject == "All" || n.subject == subject
  }

  /** Without a (truthy) author parameter every note passes; with one, only that author's notes. */
  predicate MatchesAuthor(n: Note, author: Option<string>) {
    Truthy(author) ==> n.author.id == author.value
  }

  /** The filter callback: all three tests pass. */
  predicate Keeps(n: Note, term: string, subject: string, params: SearchParams) {
    MatchesSearch(n, term) && MatchesSubject(n, subject) && MatchesAuthor(n, params.author)
  }

  /**
   * `filteredNotes`: the notes passing all three tests, in their original
   * order; a note of the list is shown exactly when it passes.
   */
  function FilteredNotes(notes: seq<Note>, term: string, subject: string, params: SearchParams): (r: seq<Note>)
    ensures Subseq(r, notes) && |r| <= |notes|
    ensures forall n | n in notes :: n in r <==> Keeps(n, term, subject, params)
    ensures forall n | n in r :: n in notes
    ensures forall n | n in notes :: multiset(r)[n] == (if Keeps(n, term, subject, params) then multiset(notes)[n] else 0)
  {
    Filter(notes, (n: Note) => Keeps(n, term, subject, params))
  }

  /** An empty term, "All" and no author parameter show every note, in order. */
  lemma NoFiltersKeepAll(notes: seq<Note>, params: SearchParams)
    requires !Truthy(params.author)
    ensures FilteredNotes(notes, "", "All", params) == notes
  {
    var p := (n: Note) => Keeps(n, "", "All", params);
    forall n | n in notes ensures p(n) {
      ContainsEmpty(Lower(n.title));
    }
    FilterAll(notes, p);
  }

  /** With an author parameter set, every note shown is by that author. */
  lemma AuthorFilterOnlyThatAuthor(notes: seq<Note>, term: string, subject: string, params: SearchParams)
    requires Truthy(params.author)
    ensures forall n | n in FilteredNotes(notes, term, subject, params) :: n.author.id == params.author.value
  {
  }

  /** The browse page's own state. */
  class BrowseState {
    var searchTerm: string
    var selectedSubject: string
    var params: SearchParams

    /** The page opens with an empty term, "All" selected, and the URL it was reached by. */
    constructor (params: SearchParams)
      ensures searchTerm == "" && selectedSubject == "All" && this.params == params
    {
      searchTerm := "";
      selectedSubject := "All";
      this.params := params;
    }

    /** The notes the page shows for its current state. */
    function Shown(notes: seq<Note>): seq<Note>
      reads this
    {
      FilteredNotes(notes, searchTerm, selectedSubject, params)
    }

    /** Typing in the search box. */
    method SetSearchTerm(term: string)
      modifies this
      ensures searchTerm == term && selectedSubject == old(selectedSubject) && params == old(params)
    {
      searchTerm := term;
    }

    /** Choosing a subject. */
    method SelectSubject(subject: string)
      modifies this
      ensures selectedSubject == subject && searchTerm == old(searchTerm) && params == old(params)
    {
      selectedSubject := subject;
    }

    /**
     * The effect on `q`: a truthy query becomes the search term; otherwise
     * the term set to `''` only when it already is empty, so it is kept.
     */
    method SyncSearchFromUrl()
      modifies this
      ensures Truthy(params.q) ==> searchTerm == params.q.value
      ensures !Truthy(params.q) ==> searchTerm == old(searchTerm)
      ensures selectedSubject == old(selectedSubject) && params == old(params)
    {
      if Truthy(params.q) {
        searchTerm := params.q.value;
      } else if searchTerm == "" {
        searchTerm := "";
      }
    }

    /** `clearAuthorFilter`: the URL keeps only `q`, and only when it is truthy. */
    method ClearAuthorFilter()
      modifies this
      ensures params.author == None
      ensures params.q == (if Truthy(old(params.q)) then old(params.q) else None)
      ensures searchTerm == old(searchTerm) && selectedSubject == old(selectedSubject)
    {
      var newParams := NoParams;
      if Truthy(params.q) {
        newParams := newParams.(q := params.q);
      }
      params := newParams;
    }

    /** `clearAllFilters`: empty term, "All", no URL parameters; then every note is shown. */
    method ClearAllFilters()
      modifies this
      ensures searchTerm == "" && selectedSubject == "All" && params == NoParams
      ensures forall notes: seq<Note> {:trigger Shown(notes)} :: Shown(notes) == notes
    {
      searchTerm := "";
      selectedSubject := "All";
      params := NoParams;
      forall notes: seq<Note> ensures Shown(notes) == notes {
        NoFiltersKeepAll(notes, params);
      }
    }
  }
}
