/**
 * The landing page's two strips: the four most recent notes and the four
 * most downloaded, each a sorted copy of the note list cut to four.
 */
module Home {
  import opened Types
  import opened Lists

  /** How many cards each strip shows. */
  const StripLength: nat := 4

  /** The sort key of the popular strip. */
  function Downloads(n: Note): int {
    n.downloads
  }

  /**
   * `popularNotes`: at most four notes in non-increasing order of downloads,
   * all taken from `notes`, and none left out has more downloads than the
   * last one shown.
   */
  function PopularNotes(notes: seq<Note>): (r: seq<Note>)
    ensures |r| == Min(StripLength, |notes|)
    ensures SortedDesc(r, Downloads)
    ensures multiset(r) <= multiset(notes)
    ensures r != [] ==> forall n | n in multiset(notes) - multiset(r) :: Downloads(n) <= Downloads(r[|r| - 1])
  {
    TopByKey(notes, StripLength, Downloads)
  }

  /** The sort key of the recent strip; `time` stands for `new Date(createdAt).getTime()`. */
  function CreationTime(time: string -> int): Note -> int {
    (n: Note) => time(n.createdAt)
  }

  /**
   * `recentNotes`: at most four notes in non-increasing order of creation
   * time, all taken from `notes`, and none left out is newer than the last
   * one shown.
   */
  function RecentNotes(notes: seq<Note>, time: string -> int): (r: seq<Note>)
    ensures |r| == Min(StripLength, |notes|)
    ensures SortedDesc(r, CreationTime(time))
    ensures multiset(r) <= multiset(notes)
    ensures r != [] ==> forall n | n in multiset(notes) - multiset(r) :: time(n.createdAt) <= time(r[|r| - 1].createdAt)
  {
    TopByKey(notes, StripLength, CreationTime(time))
  }

  /** Every card in either strip shows a note of the list. */
  lemma StripsDrawFromNotes(notes: seq<Note>, time: string -> int)
    ensures forall n | n in PopularNotes(notes) :: n in notes
    ensures forall n | n in RecentNotes(notes, time) :: n in notes
  {
    var p, q := PopularNotes(notes), RecentNotes(notes, time);
    forall n | n in p ensures n in notes {
      assert n in multiset(p);
    }
    forall n | n in q ensures n in notes {
      assert n in multiset(q);
    }
  }

  /** With four notes or fewer the popular strip shows all of them, rearranged. */
  lemma PopularShowsAllWhenFew(notes: seq<Note>)
    requires |notes| <= StripLength
    ensures multiset(PopularNotes(notes)) == multiset(notes)
  {
    var r := PopularNotes(notes);
    assert |multiset(r)| == |r| == |notes| == |multiset(notes)|;
    MultisetSubEqual(multiset(r), multiset(notes));
  }

  /** A sub-multiset as large as the whole is the whole. */
  lemma MultisetSubEqual<T>(a: multiset<T>, b: multiset<T>)
    requires a <= b && |a| == |b|
    ensures a == b
  {
    var d := b - a;
    assert b == a + d;
    assert |d| == 0;
  }
}
