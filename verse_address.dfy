/** The verse-address translator of the verse selector: `getVerseNumber` turns a
    (book, chapter, verse) selection into the verse's 1-based position in reading
    order, by walking the book table the backend sends (book name to chapter count
    and chapter-to-verse-count map, in the table's key order). */
module VerseAddress {
  import opened Wrappers

  /** One entry of the book table: its name, its chapter count and the verse count
      of each chapter, keyed by chapter number. */
  datatype Book = Book(name: string, chapters: int, verses: map<int, int>)

  /** What `getVerseNumber` gives back. */
  datatype VerseNumber =
    | Ordinal(n: int)   // the verse's position in reading order
    | Invalid           // the sentinel -1 for a chapter or verse that does not exist
    | Undefined         // the book loop ran to its end without a return
    | NotANumber        // a missing chapter count on the way made the sum NaN
    | ReferenceError    // the invalid-address label could not be written

  /** JavaScript addition on counts where `None` stands for NaN (and for the
      `undefined` of a missing key, which turns every sum it enters into NaN). */
  function Plus(a: Option<int>, b: Option<int>): (r: Option<int>)
    ensures r.Some? <==> a.Some? && b.Some?
    ensures r.Some? ==> r.value == a.value + b.value
  {
    if a.Some? && b.Some? then Some(a.value + b.value) else None
  }

  /** `bookData.verses[ch]` as a number, or `None` (undefined) when the key is missing. */
  function Count(b: Book, ch: int): Option<int> {
    if ch in b.verses then Some(b.verses[ch]) else None
  }

  /** verses[1] + ... + verses[n] of one book, in the order the loops add them. */
  function ChapterSum(b: Book, n: int): Option<int>
    decreases n
  {
    if n < 1 then Some(0) else Plus(ChapterSum(b, n - 1), Count(b, n))
  }

  /** The total the loop over a preceding book adds: chapters 1..chapters. */
  function BookTotal(b: Book): Option<int> {
    ChapterSum(b, b.chapters)
  }

  /** The running count after the loop has passed books 0..i-1. */
  function TotalBefore(table: seq<Book>, i: nat): Option<int>
    requires i <= |table|
  {
    if i == 0 then Some(0) else Plus(TotalBefore(table, i - 1), BookTotal(table[i - 1]))
  }

  /** The index of the first book named `name`, or |table| when there is none. */
  function FindBook(table: seq<Book>, name: string): (i: nat)
    ensures i <= |table|
    ensures i < |table| ==> table[i].name == name
    ensures forall j :: 0 <= j < i ==> table[j].name != name
  {
    if table == [] then 0
    else if table[0].name == name then 0
    else 1 + FindBook(table[1..], name)
  }

  /** The validation of the target book: `!verses[chapter]` (a missing key or a zero
      count), `verse > verses[chapter]` or `verse < 1`. */
  predicate AddressRejected(b: Book, chapter: int, verse: int) {
    chapter !in b.verses || b.verses[chapter] == 0 || verse > b.verses[chapter] || verse < 1
  }

  /** What `getVerseNumber` computes for a selection: the verse counts of every book
      before the target, plus those of the target's earlier chapters, plus the verse. */
  function OrdinalOf(table: seq<Book>, name: string, chapter: int, verse: int): VerseNumber {
    var i := FindBook(table, name);
    if i == |table| then Undefined
    else if AddressRejected(table[i], chapter, verse) then Invalid
    else
      var s := Plus(TotalBefore(table, i), ChapterSum(table[i], chapter - 1));
      if s.None? then NotANumber else Ordinal(s.value + verse)
  }

  /** The two nested loops of `getVerseNumber`, accumulating `verseCount`. */
  method GetVerseNumber(table: seq<Book>, name: string, chapter: int, verse: int)
    returns (r: VerseNumber)
    ensures r == OrdinalOf(table, name, chapter, verse)
  {
    var verseCount: Option<int> := Some(0);
    var i := 0;
    while i < |table|
      invariant 0 <= i <= |table|
      invariant verseCount == TotalBefore(table, i)
      invariant forall j :: 0 <= j < i ==> table[j].name != name
    {
      var bookData := table[i];
      if bookData.name == name {
        assert FindBook(table, name) == i by { FindBookAt(table, name, i); }
        if AddressRejected(bookData, chapter, verse) {
          return Invalid;
        }
        var ch := 1;
        while ch < chapter
          invariant 1 <= ch <= if chapter < 1 then 1 else chapter
          invariant verseCount == Plus(TotalBefore(table, i), ChapterSum(bookData, ch - 1))
        {
          verseCount := Plus(verseCount, Count(bookData, ch));
          ch := ch + 1;
        }
        if chapter < 1 {
          assert ChapterSum(bookData, chapter - 1) == Some(0) == ChapterSum(bookData, ch - 1);
        }
        r := if verseCount.None? then NotANumber else Ordinal(verseCount.value + verse);
        return;
      } else {
        var before := verseCount;
        var ch := 1;
        while ch <= bookData.chapters
          invariant 1 <= ch <= if bookData.chapters < 1 then 1 else bookData.chapters + 1
          invariant verseCount == Plus(before, ChapterSum(bookData, ch - 1))
        {
          verseCount := Plus(verseCount, Count(bookData, ch));
          ch := ch + 1;
        }
        if bookData.chapters < 1 {
          assert BookTotal(bookData) == Some(0) == ChapterSum(bookData, ch - 1);
        }
      }
      i := i + 1;
    }
    assert FindBook(table, name) == |table|;
    return Undefined;
  }

  lemma FindBookAt(table: seq<Book>, name: string, i: nat)
    requires i < |table| && table[i].name == name
    requires forall j :: 0 <= j < i ==> table[j].name != name
    ensures FindBook(table, name) == i
  {
  }

  // ---------------------------------------------------------------------------
  // Outcomes on any table

  /** The three ways out of the book loop, on any table: no book of that name gives
      `undefined`; a rejected chapter or verse of the named book gives -1, whatever the
      counts before it; anything else is a number or NaN. */
  lemma OrdinalOfOutcomes(table: seq<Book>, name: string, chapter: int, verse: int)
    ensures OrdinalOf(table, name, chapter, verse) == Undefined
            <==> forall j :: 0 <= j < |table| ==> table[j].name != name
    ensures OrdinalOf(table, name, chapter, verse) == Invalid
            <==> exists j :: 0 <= j < |table| && table[j].name == name
                             && (forall k :: 0 <= k < j ==> table[k].name != name)
                             && AddressRejected(table[j], chapter, verse)
    ensures OrdinalOf(table, name, chapter, verse) != ReferenceError
  {
    var i := FindBook(table, name);
    if i < |table| {
      assert table[i].name == name;
      if OrdinalOf(table, name, chapter, verse) == Invalid {
        assert AddressRejected(table[i], chapter, verse);
      }
    }
    if exists j :: 0 <= j < |table| && table[j].name == name
                   && (forall k :: 0 <= k < j ==> table[k].name != name)
                   && AddressRejected(table[j], chapter, verse) {
      var j :| 0 <= j < |table| && table[j].name == name
               && (forall k :: 0 <= k < j ==> table[k].name != name)
               && AddressRejected(table[j], chapter, verse);
      FindBookAt(table, name, j);
    }
  }

  // ---------------------------------------------------------------------------
  // Well-formed tables: positive counts for exactly the chapters 1..chapters, and
  // distinct names (they are the keys of a JSON object)

  ghost predicate WellFormedBook(b: Book) {
    && b.chapters >= 1
    && (forall c :: c in b.verses <==> 1 <= c <= b.chapters)
    && (forall c :: c in b.verses ==> b.verses[c] >= 1)
  }

  ghost predicate WellFormed(table: seq<Book>) {
    && BooksWellFormed(table)
    && (forall i, j :: 0 <= i < j < |table| ==> table[i].name != table[j].name)
  }

  ghost predicate BooksWellFormed(table: seq<Book>) {
    forall i :: 0 <= i < |table| ==> WellFormedBook(table[i])
  }

  /** A selection that names a book of the table and one of its verses. */
  ghost predicate ValidAt(table: seq<Book>, i: int, chapter: int, verse: int) {
    && 0 <= i < |table|
    && 1 <= chapter <= table[i].chapters
    && chapter in table[i].verses
    && 1 <= verse <= table[i].verses[chapter]
  }

  ghost predicate ValidAddress(table: seq<Book>, name: string, chapter: int, verse: int) {
    ValidAt(table, FindBook(table, name), chapter, verse)
  }

  /** The counts again, in plain integers (a missing key counts 0). */
  function Verses(b: Book, c: int): int {
    if c in b.verses then b.verses[c] else 0
  }

  function Sum(b: Book, n: int): int
    decreases n
  {
    if n < 1 then 0 else Sum(b, n - 1) + Verses(b, n)
  }

  function Before(table: seq<Book>, i: nat): int
    requires i <= |table|
  {
    if i == 0 then 0 else Before(table, i - 1) + Sum(table[i - 1], table[i - 1].chapters)
  }

  /** The number of verses in the whole table. */
  function Total(table: seq<Book>): int {
    Before(table, |table|)
  }

  /** The position of verse `verse` of chapter `chapter` of book `i`. */
  function Position(table: seq<Book>, i: nat, chapter: int, verse: int): int
    requires i < |table|
  {
    Before(table, i) + Sum(table[i], chapter - 1) + verse
  }

  lemma {:induction false} SumDefined(b: Book, n: int)
    requires WellFormedBook(b) && n <= b.chapters
    ensures ChapterSum(b, n) == Some(Sum(b, n))
    decreases n
  {
    if n >= 1 { SumDefined(b, n - 1); }
  }

  lemma {:induction false} BeforeDefined(table: seq<Book>, i: nat)
    requires WellFormed(table) && i <= |table|
    ensures TotalBefore(table, i) == Some(Before(table, i))
  {
    if i > 0 {
      BeforeDefined(table, i - 1);
      SumDefined(table[i - 1], table[i - 1].chapters);
    }
  }

  /** Every chapter holds at least one verse, so the partial sums climb by at least
      one per chapter. */
  lemma {:induction false} SumGrows(b: Book, m: int, n: int)
    requires WellFormedBook(b) && 0 <= m <= n <= b.chapters
    ensures Sum(b, m) + (n - m) <= Sum(b, n)
    decreases n
  {
    if m < n { SumGrows(b, m, n - 1); }
  }

  lemma {:induction false} BeforeGrows(table: seq<Book>, i: nat, j: nat)
    requires BooksWellFormed(table) && i <= j <= |table|
    ensures Before(table, i) + (j - i) <= Before(table, j)
    decreases j
  {
    if i < j {
      BeforeGrows(table, i, j - 1);
      SumGrows(table[j - 1], 0, table[j - 1].chapters);
    }
  }

  lemma FindBookDistinct(table: seq<Book>, i: nat)
    requires WellFormed(table) && i < |table|
    ensures FindBook(table, table[i].name) == i
  {
    FindBookAt(table, table[i].name, i);
  }

  /** On a well-formed table the ordinal is defined exactly for the valid addresses,
      and it is their position; a name not in the table gives `undefined` and an
      invalid chapter or verse of a named book gives -1. */
  lemma OrdinalOfWellFormed(table: seq<Book>, name: string, chapter: int, verse: int)
    requires WellFormed(table)
    ensures OrdinalOf(table, name, chapter, verse).Ordinal?
            <==> ValidAddress(table, name, chapter, verse)
    ensures ValidAddress(table, name, chapter, verse) ==>
              OrdinalOf(table, name, chapter, verse)
              == Ordinal(Position(table, FindBook(table, name), chapter, verse))
    ensures FindBook(table, name) < |table| && !ValidAddress(table, name, chapter, verse) ==>
              OrdinalOf(table, name, chapter, verse) == Invalid
    ensures FindBook(table, name) == |table| ==> OrdinalOf(table, name, chapter, verse) == Undefined
  {
    var i := FindBook(table, name);
    if i < |table| && ValidAddress(table, name, chapter, verse) {
      BeforeDefined(table, i);
      SumDefined(table[i], chapter - 1);
    }
  }

  /** Valid addresses map into [1, Total]. */
  lemma OrdinalInRange(table: seq<Book>, i: nat, chapter: int, verse: int)
    requires WellFormed(table) && ValidAt(table, i, chapter, verse)
    ensures 1 <= Position(table, i, chapter, verse) <= Total(table)
  {
    var b := table[i];
    SumGrows(b, chapter, b.chapters);
    SumGrows(b, 0, chapter - 1);
    BeforeGrows(table, 0, i);
    assert Sum(b, chapter) == Sum(b, chapter - 1) + Verses(b, chapter);
    assert Before(table, i + 1) == Before(table, i) + Sum(b, b.chapters);
    BeforeGrows(table, i + 1, |table|);
  }

  /** The first verse of the first book is verse 1; the last verse of the last book is
      the total. */
  lemma OrdinalEnds(table: seq<Book>)
    requires WellFormed(table) && |table| >= 1
    ensures OrdinalOf(table, table[0].name, 1, 1) == Ordinal(1)
    ensures var last := table[|table| - 1];
            OrdinalOf(table, last.name, last.chapters, last.verses[last.chapters])
            == Ordinal(Total(table))
  {
    FindBookDistinct(table, 0);
    OrdinalOfWellFormed(table, table[0].name, 1, 1);
    var k := |table| - 1;
    var last := table[k];
    FindBookDistinct(table, k);
    OrdinalOfWellFormed(table, last.name, last.chapters, last.verses[last.chapters]);
    assert Sum(last, last.chapters) == Sum(last, last.chapters - 1) + last.verses[last.chapters];
  }

  /** Reading order on addresses: book, then chapter, then verse. */
  predicate ReadsBefore(i1: int, c1: int, v1: int, i2: int, c2: int, v2: int) {
    i1 < i2 || (i1 == i2 && (c1 < c2 || (c1 == c2 && v1 < v2)))
  }

  /** The ordinal is strictly increasing in reading order. */
  lemma OrdinalIncreasing(table: seq<Book>, i1: nat, c1: int, v1: int, i2: nat, c2: int, v2: int)
    requires WellFormed(table)
    requires ValidAt(table, i1, c1, v1) && ValidAt(table, i2, c2, v2)
    requires ReadsBefore(i1, c1, v1, i2, c2, v2)
    ensures Position(table, i1, c1, v1) < Position(table, i2, c2, v2)
  {
    var b1 := table[i1];
    assert Sum(b1, c1) == Sum(b1, c1 - 1) + Verses(b1, c1);
    if i1 < i2 {
      SumGrows(b1, c1, b1.chapters);
      SumGrows(table[i2], 0, c2 - 1);
      assert Before(table, i1 + 1) == Before(table, i1) + Sum(b1, b1.chapters);
      BeforeGrows(table, i1 + 1, i2);
    } else if c1 < c2 {
      SumGrows(b1, c1, c2 - 1);
    }
  }

  /** Hence two valid selections with the same ordinal are the same selection. */
  lemma OrdinalInjective(table: seq<Book>, n1: string, c1: int, v1: int, n2: string, c2: int, v2: int)
    requires WellFormed(table)
    requires ValidAddress(table, n1, c1, v1) && ValidAddress(table, n2, c2, v2)
    requires OrdinalOf(table, n1, c1, v1) == OrdinalOf(table, n2, c2, v2)
    ensures n1 == n2 && c1 == c2 && v1 == v2
  {
    var i1, i2 := FindBook(table, n1), FindBook(table, n2);
    OrdinalOfWellFormed(table, n1, c1, v1);
    OrdinalOfWellFormed(table, n2, c2, v2);
    if ReadsBefore(i1, c1, v1, i2, c2, v2) {
      OrdinalIncreasing(table, i1, c1, v1, i2, c2, v2);
    } else if ReadsBefore(i2, c2, v2, i1, c1, v1) {
      OrdinalIncreasing(table, i2, c2, v2, i1, c1, v1);
    }
  }

  // ---------------------------------------------------------------------------
  // The inverse: from an ordinal back to its address

  datatype Address = Address(book: string, chapter: int, verse: int)

  /** The chapter and verse inside one book that `m` (counted from chapter `c`) lands on. */
  function LocateChapter(b: Book, c: int, m: int): (int, int)
    decreases b.chapters - c
  {
    if c >= b.chapters || m <= Verses(b, c) then (c, m)
    else LocateChapter(b, c + 1, m - Verses(b, c))
  }

  /** The book, chapter and verse that `m` (counted from book `k`) lands on. */
  function Locate(table: seq<Book>, k: nat, m: int): (r: (nat, int, int))
    requires k < |table|
    ensures k <= r.0 < |table|
    decreases |table| - k
  {
    if k == |table| - 1 || m <= Sum(table[k], table[k].chapters) then
      var (c, v) := LocateChapter(table[k], 1, m);
      (k, c, v)
    else Locate(table, k + 1, m - Sum(table[k], table[k].chapters))
  }

  /** The address of ordinal `n` of a non-empty table. */
  function AddressOf(table: seq<Book>, n: int): Address
    requires |table| >= 1
  {
    var (i, c, v) := Locate(table, 0, n);
    Address(table[i].name, c, v)
  }

  /** The book search passes over book k when m lies beyond it ... */
  lemma LocateSkips(table: seq<Book>, k: nat, m: int)
    requires k < |table| - 1 && m > Sum(table[k], table[k].chapters)
    ensures Locate(table, k, m) == Locate(table, k + 1, m - Sum(table[k], table[k].chapters))
  {
  }

  /** ... and stops at book k when m lies within it (or k is the last book). */
  lemma LocateStops(table: seq<Book>, k: nat, m: int)
    requires k < |table| && (k == |table| - 1 || m <= Sum(table[k], table[k].chapters))
    ensures Locate(table, k, m) == (k, LocateChapter(table[k], 1, m).0, LocateChapter(table[k], 1, m).1)
  {
  }

  lemma {:induction false} LocateChapterOfPosition(b: Book, d: int, c: int, v: int)
    requires WellFormedBook(b) && 1 <= d <= c <= b.chapters && 1 <= v <= Verses(b, c)
    ensures LocateChapter(b, d, Sum(b, c - 1) - Sum(b, d - 1) + v) == (c, v)
    decreases c - d
  {
    if d < c {
      SumGrows(b, d, c - 1);
      assert Sum(b, d) == Sum(b, d - 1) + Verses(b, d);
      LocateChapterOfPosition(b, d + 1, c, v);
    }
  }

  lemma {:induction false} LocateOfPosition(table: seq<Book>, k: nat, i: nat, c: int, v: int)
    requires BooksWellFormed(table) && ValidAt(table, i, c, v) && k <= i
    ensures Locate(table, k, Position(table, i, c, v) - Before(table, k)) == (i, c, v)
    decreases i - k
  {
    var b := table[k];
    var m := Position(table, i, c, v) - Before(table, k);
    assert WellFormedBook(b) && WellFormedBook(table[i]);
    if k < i {
      assert Before(table, k + 1) == Before(table, k) + Sum(b, b.chapters);
      BeforeGrows(table, k + 1, i);
      SumGrows(table[i], 0, c - 1);
      LocateSkips(table, k, m);
      LocateOfPosition(table, k + 1, i, c, v);
    } else {
      SumGrows(b, c, b.chapters);
      assert Sum(b, c) == Sum(b, c - 1) + Verses(b, c);
      LocateStops(table, k, m);
      LocateChapterOfPosition(b, 1, c, v);
    }
  }

  lemma {:induction false} LocateChapterValid(b: Book, d: int, m: int)
    requires WellFormedBook(b) && 1 <= d <= b.chapters
    requires 1 <= m <= Sum(b, b.chapters) - Sum(b, d - 1)
    ensures var (c, v) := LocateChapter(b, d, m);
            d <= c <= b.chapters && 1 <= v <= Verses(b, c)
            && Sum(b, c - 1) - Sum(b, d - 1) + v == m
    decreases b.chapters - d
  {
    assert Sum(b, d) == Sum(b, d - 1) + Verses(b, d);
    if d < b.chapters && m > Verses(b, d) {
      LocateChapterValid(b, d + 1, m - Verses(b, d));
    }
  }

  lemma {:induction false} LocateValid(table: seq<Book>, k: nat, m: int)
    requires BooksWellFormed(table) && k < |table|
    requires 1 <= m <= Total(table) - Before(table, k)
    ensures var (i, c, v) := Locate(table, k, m);
            k <= i && ValidAt(table, i, c, v) && Position(table, i, c, v) - Before(table, k) == m
    decreases |table| - k
  {
    var b := table[k];
    assert WellFormedBook(b);
    assert Before(table, k + 1) == Before(table, k) + Sum(b, b.chapters);
    if k == |table| - 1 || m <= Sum(b, b.chapters) {
      if k == |table| - 1 {
        assert Total(table) == Before(table, k + 1);
      }
      LocateChapterValid(b, 1, m);
      LocateStops(table, k, m);
      assert LocateChapter(b, 1, m).0 in b.verses;
    } else {
      LocateSkips(table, k, m);
      LocateValid(table, k + 1, m - Sum(b, b.chapters));
    }
  }

  /** The inverse undoes the ordinal: every valid address comes back from its ordinal. */
  lemma AddressOfOrdinal(table: seq<Book>, name: string, chapter: int, verse: int)
    requires WellFormed(table) && ValidAddress(table, name, chapter, verse)
    ensures OrdinalOf(table, name, chapter, verse).Ordinal?
    ensures AddressOf(table, OrdinalOf(table, name, chapter, verse).n) == Address(name, chapter, verse)
  {
    var i := FindBook(table, name);
    OrdinalOfWellFormed(table, name, chapter, verse);
    LocateOfPosition(table, 0, i, chapter, verse);
  }

  /** ... and the ordinal undoes the inverse: every number in [1, Total] is the ordinal
      of the valid address `AddressOf` gives, so the ordinals are dense. */
  lemma OrdinalOfAddress(table: seq<Book>, n: int)
    requires WellFormed(table) && |table| >= 1 && 1 <= n <= Total(table)
    ensures var a := AddressOf(table, n);
            ValidAddress(table, a.book, a.chapter, a.verse)
            && OrdinalOf(table, a.book, a.chapter, a.verse) == Ordinal(n)
  {
    LocateValid(table, 0, n);
    var (i, c, v) := Locate(table, 0, n);
    FindBookDistinct(table, i);
    OrdinalOfWellFormed(table, table[i].name, c, v);
  }
}
