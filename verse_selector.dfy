/** The verse selector: three drop-downs (book, chapter, verse) filled from the book
    table, their change listeners, and the call of `getVerseNumber` on the current
    selection. Both copies of the selector share this model; they differ only in
    whether the invalid-address label exists (`labelDeclared`): the legacy custom
    script declares it, the newer module does not, so there the write to it throws. */
module VerseSelector {
  import opened Wrappers
  import opened Text
  import opened VerseAddress

  /** The loop `for (let i = 1; i <= n; i++) appendChild(option i)`: the options
      1, 2, ..., n in ascending order, none when n < 1. */
  method Options(n: int) returns (opts: seq<int>)
    ensures |opts| == if n < 1 then 0 else n
    ensures forall k :: 0 <= k < |opts| ==> opts[k] == k + 1
  {
    opts := [];
    var i := 1;
    while i <= n
      invariant 1 <= i <= if n < 1 then 1 else n + 1
      invariant |opts| == i - 1
      invariant forall k :: 0 <= k < |opts| ==> opts[k] == k + 1
    {
      opts := opts + [i];
      i := i + 1;
    }
  }

  /** The options 1..n as a value, the specification of `Options`. */
  function Range(n: int): (r: seq<int>)
    ensures |r| == if n < 1 then 0 else n
    ensures forall k :: 0 <= k < |r| ==> r[k] == k + 1
    decreases n
  {
    if n < 1 then [] else Range(n - 1) + [n]
  }

  lemma RangeUnique(opts: seq<int>, n: int)
    requires |opts| == (if n < 1 then 0 else n)
    requires forall k :: 0 <= k < |opts| ==> opts[k] == k + 1
    ensures opts == Range(n)
  {
  }

  /** The selected value of a list just refilled: the browser selects its first option,
      and the value is empty when there is none. */
  function FirstOption(opts: seq<int>): Option<int> {
    if |opts| == 0 then None else Some(opts[0])
  }

  function Names(table: seq<Book>): (names: seq<string>)
    ensures |names| == |table|
    ensures forall i :: 0 <= i < |table| ==> names[i] == table[i].name
  {
    if table == [] then [] else [table[0].name] + Names(table[1..])
  }

  /** The text written to the label on an invalid address (the template literal keeps
      its line break and the indentation of its second line). */
  function InvalidLabel(book: string, chapter: int, verse: int): string {
    "Invalid address.\n                     Book: " + book + " Chapter: " + IntToString(chapter)
    + " Verse: " + IntToString(verse)
  }

  /** The unary plus of a select's value: the number of the selected option, 0 for the
      empty value. */
  function SelectedNumber(v: Option<int>): int {
    v.GetOr(0)
  }

  /** The verse count a chapter's verse list is filled from: `verses[chapter]`, which
      is `undefined` (no options) for a missing key. */
  function VersesFor(table: seq<Book>, book: string, chapter: int): int {
    var i := FindBook(table, book);
    if i < |table| && chapter in table[i].verses then table[i].verses[chapter] else 0
  }

  function ChaptersFor(table: seq<Book>, book: string): int {
    var i := FindBook(table, book);
    if i < |table| then table[i].chapters else 0
  }

  class Selector {
    const labelDeclared: bool
    var data: seq<Book>             // bibleData
    var bookOptions: seq<string>
    var book: string                // bookSelect.value ("" when nothing is selected)
    var chapterOptions: seq<int>
    var chapter: Option<int>        // chapterSelect.value (None for "")
    var verseOptions: seq<int>
    var verse: Option<int>          // verseSelect.value (None for "")
    var coordLabel: string               // verseCoordLabel.innerHTML

    /** What the DOM guarantees: every select shows one of its own options or nothing,
        and the book list is the table's key list. */
    ghost predicate Valid()
      reads this
    {
      && bookOptions == Names(data)
      && (book == "" || book in bookOptions)
      && (chapter.Some? ==> chapter.value in chapterOptions)
      && (verse.Some? ==> verse.value in verseOptions)
    }

    /** The lists agree with the selection above them: the chapters are those of the
        selected book and the verses those of the selected chapter. */
    ghost predicate Consistent()
      reads this
    {
      && (book != "" ==> chapterOptions == Range(ChaptersFor(data, book)))
      && (book != "" && chapter.Some? ==> verseOptions == Range(VersesFor(data, book, chapter.value)))
    }

    constructor (labelDeclared: bool)
      ensures Valid() && Consistent()
      ensures this.labelDeclared == labelDeclared
      ensures data == [] && book == "" && chapter == None && verse == None && coordLabel == ""
    {
      this.labelDeclared := labelDeclared;
      data := [];
      bookOptions := [];
      book := "";
      chapterOptions := [];
      chapter := None;
      verseOptions := [];
      verse := None;
      coordLabel := "";
    }

    /** `populateChapters`: for a selected book, the chapter list becomes 1..chapters. */
    method PopulateChapters()
      requires Valid()
      modifies this
      ensures Valid()
      ensures data == old(data) && bookOptions == old(bookOptions) && book == old(book)
      ensures coordLabel == old(coordLabel) && verseOptions == old(verseOptions) && verse == old(verse)
      ensures book == "" ==> chapterOptions == old(chapterOptions) && chapter == old(chapter)
      ensures book != "" ==> chapterOptions == Range(ChaptersFor(data, book))
                             && chapter == FirstOption(chapterOptions)
    {
      if book != "" {
        var opts := Options(ChaptersFor(data, book));
        RangeUnique(opts, ChaptersFor(data, book));
        chapterOptions := opts;
        chapter := FirstOption(opts);
      }
    }

    /** `populateVerses`: for a selected book and chapter, the verse list becomes
        1..verses[chapter]. */
    method PopulateVerses()
      requires Valid()
      modifies this
      ensures Valid()
      ensures data == old(data) && bookOptions == old(bookOptions) && book == old(book)
      ensures coordLabel == old(coordLabel) && chapterOptions == old(chapterOptions) && chapter == old(chapter)
      ensures book == "" || chapter.None? ==> verseOptions == old(verseOptions) && verse == old(verse)
      ensures book != "" && chapter.Some? ==>
                verseOptions == Range(VersesFor(data, book, chapter.value))
                && verse == FirstOption(verseOptions)
    {
      if book != "" && chapter.Some? {
        var opts := Options(VersesFor(data, book, chapter.value));
        RangeUnique(opts, VersesFor(data, book, chapter.value));
        verseOptions := opts;
        verse := FirstOption(opts);
      }
    }

    /** The response handler of the book-table fetch: store the table, list its books,
        select Genesis, then chapter 1, then verse 1. */
    method Load(table: seq<Book>)
      requires Valid()
      modifies this
      ensures Valid() && Consistent()
      ensures data == table && bookOptions == Names(table) && coordLabel == old(coordLabel)
      ensures book == (if "Genesis" in Names(table) then "Genesis" else "")
      ensures chapter == (if 1 in chapterOptions then Some(1) else None)
      ensures verse == (if 1 in verseOptions then Some(1) else None)
      ensures book != "" ==> chapterOptions == Range(ChaptersFor(table, book))
      ensures book != "" && chapter.Some? ==> verseOptions == Range(VersesFor(table, book, 1))
    {
      data := table;
      bookOptions := Names(table);
      book := if "Genesis" in bookOptions then "Genesis" else "";
      SelectFirstVerse();
    }

    /** The rest of the response handler: list the chapters of the selected book and
        select chapter 1, then list its verses and select verse 1. */
    method SelectFirstVerse()
      requires Valid()
      modifies this
      ensures Valid() && Consistent()
      ensures data == old(data) && bookOptions == old(bookOptions) && book == old(book)
      ensures coordLabel == old(coordLabel)
      ensures chapter == (if 1 in chapterOptions then Some(1) else None)
      ensures verse == (if 1 in verseOptions then Some(1) else None)
    {
      PopulateChapters();
      chapter := if 1 in chapterOptions then Some(1) else None;
      PopulateVerses();
      verse := if 1 in verseOptions then Some(1) else None;
    }

    /** The book list's change listener: repopulate the chapters, then the verses of
        the newly selected (first) chapter. */
    method OnBookChange(name: string)
      requires Valid() && name in bookOptions
      modifies this
      ensures Valid() && Consistent()
      ensures data == old(data) && bookOptions == old(bookOptions) && coordLabel == old(coordLabel)
      ensures book == name
      ensures name != "" ==>
                chapterOptions == Range(ChaptersFor(data, name)) && chapter == FirstOption(chapterOptions)
      ensures name != "" && chapter.Some? ==>
                verseOptions == Range(VersesFor(data, name, chapter.value))
                && verse == FirstOption(verseOptions)
      ensures name == "" ==> chapterOptions == old(chapterOptions) && chapter == old(chapter)
                             && verseOptions == old(verseOptions) && verse == old(verse)
      ensures chapter.None? ==> verseOptions == old(verseOptions) && verse == old(verse)
    {
      book := name;
      PopulateChapters();
      PopulateVerses();
    }

    /** The chapter list's change listener: only the verses are repopulated. */
    method OnChapterChange(c: int)
      requires Valid() && Consistent() && c in chapterOptions
      modifies this
      ensures Valid() && Consistent()
      ensures data == old(data) && bookOptions == old(bookOptions) && book == old(book)
      ensures chapterOptions == old(chapterOptions) && coordLabel == old(coordLabel)
      ensures chapter == Some(c)
      ensures book != "" ==> verseOptions == Range(VersesFor(data, book, c))
                             && verse == FirstOption(verseOptions)
      ensures book == "" ==> verseOptions == old(verseOptions) && verse == old(verse)
    {
      chapter := Some(c);
      PopulateVerses();
    }

    /** The user picks a verse; no listener runs. */
    method OnVerseChange(v: int)
      requires Valid() && v in verseOptions
      modifies this
      ensures Valid()
      ensures verse == Some(v)
      ensures data == old(data) && bookOptions == old(bookOptions) && book == old(book)
      ensures chapterOptions == old(chapterOptions) && chapter == old(chapter)
      ensures verseOptions == old(verseOptions) && coordLabel == old(coordLabel)
    {
      verse := Some(v);
    }

    /** `getVerseNumber` on the current selection. An invalid address writes the coordLabel
        and returns -1 where the coordLabel exists, and throws where it does not. */
    method GetVerseNumber() returns (r: VerseNumber)
      requires Valid()
      modifies this`coordLabel
      ensures var o := OrdinalOf(data, book, SelectedNumber(chapter), SelectedNumber(verse));
              r == (if o == Invalid && !labelDeclared then ReferenceError else o)
      ensures coordLabel == (if r == Invalid
                        then InvalidLabel(book, SelectedNumber(chapter), SelectedNumber(verse))
                        else old(coordLabel))
    {
      r := VerseAddress.GetVerseNumber(data, book, SelectedNumber(chapter), SelectedNumber(verse));
      if r == Invalid {
        if labelDeclared {
          coordLabel := InvalidLabel(book, SelectedNumber(chapter), SelectedNumber(verse));
        } else {
          r := ReferenceError;
        }
      }
    }
  }

  /** On a well-formed table a complete, consistent selection is always a valid address,
      so `getVerseNumber` gives a number and never -1 or `undefined`: the lists only
      ever offer verses that exist. */
  lemma ConsistentSelectionIsValid(table: seq<Book>, book: string, c: int, v: int,
                                   chapterOptions: seq<int>, verseOptions: seq<int>)
    requires WellFormed(table) && book in Names(table)
    requires chapterOptions == Range(ChaptersFor(table, book)) && c in chapterOptions
    requires verseOptions == Range(VersesFor(table, book, c)) && v in verseOptions
    ensures ValidAddress(table, book, c, v)
    ensures OrdinalOf(table, book, c, v).Ordinal?
  {
    var i :| 0 <= i < |table| && Names(table)[i] == book;
    FindBookDistinct(table, i);
    var k :| 0 <= k < |chapterOptions| && chapterOptions[k] == c;
    var m :| 0 <= m < |verseOptions| && verseOptions[m] == v;
    OrdinalOfWellFormed(table, book, c, v);
  }
}
