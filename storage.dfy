/** The guest book list kept in browser storage: a list of books that is
    appended to, updated in place and filtered, and grouped by country code
    for the globe and the passport. Persistence is left out; the store's
    state is the list itself. */
module Storage {
  import opened Wrappers
  import Seqs

  /** A book the reader has logged. Optional fields of the record are
      `Option`s; `country` is the legacy free-text country name. */
  datatype Book = Book(
    id: string,
    title: string,
    author: string,
    country: Option<string>,
    countryCode: string,
    countryName: Option<string>,
    startDate: Option<string>,
    endDate: Option<string>,
    dateRead: Option<string>,
    rating: Option<int>,
    notes: Option<string>)

  /** A partial book record. `None` means the key is absent from the update;
      for an optional field `Some(None)` means the key is present with the
      value `undefined`, which a spread copies over the old value. */
  datatype BookUpdate = BookUpdate(
    id: Option<string>,
    title: Option<string>,
    author: Option<string>,
    country: Option<Option<string>>,
    countryCode: Option<string>,
    countryName: Option<Option<string>>,
    startDate: Option<Option<string>>,
    endDate: Option<Option<string>>,
    dateRead: Option<Option<string>>,
    rating: Option<Option<int>>,
    notes: Option<Option<string>>)

  const NoChanges := BookUpdate(None, None, None, None, None, None, None, None, None, None, None)

  /** `{ ...b, ...u }`: every key present in the update replaces the book's. */
  function Merge(b: Book, u: BookUpdate): (r: Book)
    ensures u.id.Some? ==> r.id == u.id.value
    ensures u.id.None? ==> r.id == b.id
    ensures u.title.Some? ==> r.title == u.title.value
    ensures u.title.None? ==> r.title == b.title
    ensures u.author.Some? ==> r.author == u.author.value
    ensures u.author.None? ==> r.author == b.author
    ensures u.country.Some? ==> r.country == u.country.value
    ensures u.country.None? ==> r.country == b.country
    ensures u.countryCode.Some? ==> r.countryCode == u.countryCode.value
    ensures u.countryCode.None? ==> r.countryCode == b.countryCode
    ensures u.countryName.Some? ==> r.countryName == u.countryName.value
    ensures u.countryName.None? ==> r.countryName == b.countryName
    ensures u.startDate.Some? ==> r.startDate == u.startDate.value
    ensures u.startDate.None? ==> r.startDate == b.startDate
    ensures u.endDate.Some? ==> r.endDate == u.endDate.value
    ensures u.endDate.None? ==> r.endDate == b.endDate
    ensures u.dateRead.Some? ==> r.dateRead == u.dateRead.value
    ensures u.dateRead.None? ==> r.dateRead == b.dateRead
    ensures u.rating.Some? ==> r.rating == u.rating.value
    ensures u.rating.None? ==> r.rating == b.rating
    ensures u.notes.Some? ==> r.notes == u.notes.value
    ensures u.notes.None? ==> r.notes == b.notes
  {
    Book(
      u.id.GetOr(b.id),
      u.title.GetOr(b.title),
      u.author.GetOr(b.author),
      u.country.GetOr(b.country),
      u.countryCode.GetOr(b.countryCode),
      u.countryName.GetOr(b.countryName),
      u.startDate.GetOr(b.startDate),
      u.endDate.GetOr(b.endDate),
      u.dateRead.GetOr(b.dateRead),
      u.rating.GetOr(b.rating),
      u.notes.GetOr(b.notes))
  }

  /** `{ ...u1, ...u2 }`: the later update wins key by key. */
  function Then(u1: BookUpdate, u2: BookUpdate): BookUpdate {
    BookUpdate(
      if u2.id.Some? then u2.id else u1.id,
      if u2.title.Some? then u2.title else u1.title,
      if u2.author.Some? then u2.author else u1.author,
      if u2.country.Some? then u2.country else u1.country,
      if u2.countryCode.Some? then u2.countryCode else u1.countryCode,
      if u2.countryName.Some? then u2.countryName else u1.countryName,
      if u2.startDate.Some? then u2.startDate else u1.startDate,
      if u2.endDate.Some? then u2.endDate else u1.endDate,
      if u2.dateRead.Some? then u2.dateRead else u1.dateRead,
      if u2.rating.Some? then u2.rating else u1.rating,
      if u2.notes.Some? then u2.notes else u1.notes)
  }

  /** An update with no keys leaves the book as it was; applying the same
      update twice is applying it once; two updates in a row are one update
      in which the later keys win. */
  lemma MergeLaws(b: Book, u: BookUpdate, u2: BookUpdate)
    ensures Merge(b, NoChanges) == b
    ensures Merge(Merge(b, u), u) == Merge(b, u)
    ensures Merge(Merge(b, u), u2) == Merge(b, Then(u, u2))
  {
  }

  /** `books.findIndex(b => b.id === id)`, with `None` for -1. */
  function FindIndex(books: seq<Book>, id: string): (r: Option<nat>)
    ensures r.Some? ==> r.value < |books| && books[r.value].id == id
    ensures r.Some? ==> forall k | 0 <= k < r.value :: books[k].id != id
    ensures r.None? <==> forall k | 0 <= k < |books| :: books[k].id != id
  {
    if books == [] then None
    else if books[0].id == id then Some(0)
    else
      match FindIndex(books[1..], id)
      case None => None
      case Some(i) => Some(i + 1)
  }

  /** `books.filter(b => b.id !== id)`. */
  function WithoutId(books: seq<Book>, id: string): (r: seq<Book>)
    ensures forall b | b in r :: b in books && b.id != id
    ensures forall b | b in books && b.id != id :: b in r
    ensures |r| <= |books|
  {
    if books == [] then []
    else
      var front := WithoutId(books[..|books| - 1], id);
      var last := books[|books| - 1];
      assert books == books[..|books| - 1] + [last];
      if last.id != id then front + [last] else front
  }

  /** Filtering keeps the relative order of the books that remain. */
  lemma {:induction false} WithoutIdAppend(a: seq<Book>, b: seq<Book>, id: string)
    ensures WithoutId(a + b, id) == WithoutId(a, id) + WithoutId(b, id)
  {
    if b == [] {
      assert a + b == a;
    } else {
      var front := b[..|b| - 1];
      assert (a + b)[..|a + b| - 1] == a + front;
      WithoutIdAppend(a, front, id);
    }
  }

  /** Deleting an id that no book carries leaves the list as it was. */
  lemma {:induction false} WithoutUnknownId(books: seq<Book>, id: string)
    requires forall k | 0 <= k < |books| :: books[k].id != id
    ensures WithoutId(books, id) == books
  {
    if books != [] {
      var front := books[..|books| - 1];
      WithoutUnknownId(front, id);
      assert books == front + [books[|books| - 1]];
    }
  }

  /** Deleting removes exactly the books with that id: the count of removed
      books is the count of books carrying it. */
  lemma {:induction false} WithoutIdRemovesMatches(books: seq<Book>, id: string)
    ensures |WithoutId(books, id)| + Seqs.CountIf(books, (b: Book) => b.id == id) == |books|
  {
    if books != [] {
      WithoutIdRemovesMatches(books[..|books| - 1], id);
    }
  }

  /** The country codes of the books, in list order. */
  function Codes(books: seq<Book>): (r: seq<string>)
    ensures |r| == |books|
    ensures forall k | 0 <= k < |books| :: r[k] == books[k].countryCode
  {
    if books == [] then [] else Codes(books[..|books| - 1]) + [books[|books| - 1].countryCode]
  }

  /** The books with country code `c`, in list order. */
  function BooksIn(books: seq<Book>, c: string): (r: seq<Book>)
    ensures forall b | b in r :: b in books && b.countryCode == c
    ensures forall k | 0 <= k < |books| && books[k].countryCode == c :: books[k] in r
    ensures |r| <= |books|
  {
    if books == [] then []
    else
      var front := BooksIn(books[..|books| - 1], c);
      var last := books[|books| - 1];
      assert books == books[..|books| - 1] + [last];
      if last.countryCode == c then front + [last] else front
  }

  /** Grouping keeps the relative order of the books of one country. */
  lemma {:induction false} BooksInAppend(a: seq<Book>, b: seq<Book>, c: string)
    ensures BooksIn(a + b, c) == BooksIn(a, c) + BooksIn(b, c)
  {
    if b == [] {
      assert a + b == a;
    } else {
      var front := b[..|b| - 1];
      assert (a + b)[..|a + b| - 1] == a + front;
      BooksInAppend(a, front, c);
    }
  }

  /** The first book of a country's group is the first book in the list
      with that code. */
  lemma {:induction false} FirstInGroup(books: seq<Book>, c: string, j: nat)
    requires j < |books| && books[j].countryCode == c
    requires forall k | 0 <= k < j :: books[k].countryCode != c
    ensures BooksIn(books, c) != [] && BooksIn(books, c)[0] == books[j]
  {
    var front := books[..|books| - 1];
    if j == |books| - 1 {
      NoCodeNoBooks(front, c);
    } else {
      FirstInGroup(front, c, j);
    }
  }

  /** The plain object `getBooksByCountry` builds: its keys in insertion
      order and the array stored under each key. */
  datatype Grouping = Grouping(keys: seq<string>, groups: map<string, seq<Book>>)

  /** The number of books in the groups of `keys`. */
  function SizeSum(keys: seq<string>, books: seq<Book>): nat {
    if keys == [] then 0
    else SizeSum(keys[..|keys| - 1], books) + |BooksIn(books, keys[|keys| - 1])|
  }

  /** One more book adds one to the total of the groups when its code is
      among the keys, and nothing otherwise. */
  lemma {:induction false} SizeSumStep(keys: seq<string>, front: seq<Book>, b: Book)
    requires Seqs.NoDuplicates(keys)
    ensures SizeSum(keys, front + [b]) == SizeSum(keys, front) + (if b.countryCode in keys then 1 else 0)
  {
    if keys != [] {
      var init := keys[..|keys| - 1];
      var k := keys[|keys| - 1];
      assert keys == init + [k];
      SizeSumStep(init, front, b);
      assert (front + [b])[..|front|] == front;
      assert b.countryCode in keys <==> b.countryCode in init || b.countryCode == k;
      assert k !in init;
    }
  }

  /** A code that no book carries has an empty group. */
  lemma {:induction false} NoCodeNoBooks(books: seq<Book>, c: string)
    requires c !in Codes(books)
    ensures BooksIn(books, c) == []
  {
    if books != [] {
      var front := books[..|books| - 1];
      assert Codes(books)[..|front|] == Codes(front);
      NoCodeNoBooks(front, c);
      assert Codes(books)[|front|] == books[|front|].countryCode;
    }
  }

  /** What one more book at the end does to the keys and the groups: a new
      code becomes the last key, and only the book's own group grows. */
  lemma GroupingStep(books: seq<Book>, b: Book)
    ensures Seqs.Dedup(Codes(books + [b])) ==
      if b.countryCode in Seqs.Dedup(Codes(books)) then Seqs.Dedup(Codes(books))
      else Seqs.Dedup(Codes(books)) + [b.countryCode]
    ensures b.countryCode !in Seqs.Dedup(Codes(books)) ==> BooksIn(books, b.countryCode) == []
    ensures forall c ::
      BooksIn(books + [b], c) == (if c == b.countryCode then BooksIn(books, c) + [b] else BooksIn(books, c))
  {
    assert (books + [b])[..|books|] == books;
    assert Codes(books + [b])[..|books|] == Codes(books);
    if b.countryCode !in Seqs.Dedup(Codes(books)) {
      NoCodeNoBooks(books, b.countryCode);
    }
  }

  /** Group sizes sum to the number of books. */
  lemma {:induction false} GroupSizesSum(books: seq<Book>)
    ensures SizeSum(Seqs.Dedup(Codes(books)), books) == |books|
  {
    if books != [] {
      var front := books[..|books| - 1];
      var b := books[|books| - 1];
      assert books == front + [b];
      var keys := Seqs.Dedup(Codes(front));
      GroupSizesSum(front);
      SizeSumStep(keys, front, b);
      GroupingStep(front, b);
      if b.countryCode !in keys {
        assert SizeSum(keys + [b.countryCode], books) == SizeSum(keys, books) + |BooksIn(books, b.countryCode)|
        by { assert (keys + [b.countryCode])[..|keys|] == keys; }
      }
    }
  }

  /** One step of the `forEach` in `getBooksByCountry`: a code not yet a
      key becomes the last key with an empty array, then the book is pushed
      onto its code's array. */
  function AddToGrouping(g: Grouping, b: Book): Grouping {
    var code := b.countryCode;
    var current := if code in g.groups then g.groups[code] else [];
    Grouping(
      if code in g.groups then g.keys else g.keys + [code],
      g.groups[code := current + [b]])
  }

  /** The grouping of a whole list, one book at a time from the front. */
  function GroupAll(books: seq<Book>): (r: Grouping)
    ensures forall c :: c in r.groups <==> c in r.keys
    ensures |r.keys| <= |books|
  {
    if books == [] then Grouping([], map[])
    else AddToGrouping(GroupAll(books[..|books| - 1]), books[|books| - 1])
  }

  /** The keys of the grouping are the distinct codes in order of first
      appearance, each key has a group, and the group of a code is the books
      with that code in list order. */
  lemma {:induction false} GroupAllMeaning(books: seq<Book>)
    ensures GroupAll(books).keys == Seqs.Dedup(Codes(books))
    ensures forall c :: c in GroupAll(books).groups <==> c in GroupAll(books).keys
    ensures forall c | c in GroupAll(books).groups :: GroupAll(books).groups[c] == BooksIn(books, c)
  {
    if books != [] {
      var front := books[..|books| - 1];
      var b := books[|books| - 1];
      assert books == front + [b];
      GroupAllMeaning(front);
      AddToGroupingMeaning(GroupAll(front), front, b);
    }
  }

  /** One step of the grouping keeps the three facts above. */
  lemma AddToGroupingMeaning(g0: Grouping, front: seq<Book>, b: Book)
    requires g0.keys == Seqs.Dedup(Codes(front))
    requires forall c :: c in g0.groups <==> c in g0.keys
    requires forall c | c in g0.groups :: g0.groups[c] == BooksIn(front, c)
    ensures AddToGrouping(g0, b).keys == Seqs.Dedup(Codes(front + [b]))
    ensures forall c :: c in AddToGrouping(g0, b).groups <==> c in AddToGrouping(g0, b).keys
    ensures forall c | c in AddToGrouping(g0, b).groups :: AddToGrouping(g0, b).groups[c] == BooksIn(front + [b], c)
  {
    AddToGroupingKeys(g0, front, b);
    AddToGroupingGroups(g0, front, b);
  }

  lemma AddToGroupingKeys(g0: Grouping, front: seq<Book>, b: Book)
    requires g0.keys == Seqs.Dedup(Codes(front))
    requires forall c :: c in g0.groups <==> c in g0.keys
    ensures AddToGrouping(g0, b).keys == Seqs.Dedup(Codes(front + [b]))
    ensures forall c :: c in AddToGrouping(g0, b).groups <==> c in AddToGrouping(g0, b).keys
  {
    var code := b.countryCode;
    var g := AddToGrouping(g0, b);
    KeysStep(front, b);
    if code !in g0.groups {
      assert g.keys == g0.keys + [code];
      forall c ensures c in g.groups <==> c in g.keys {
        assert c in g0.keys + [code] <==> c in g0.keys || c == code;
      }
    }
  }

  /** A new code becomes the last key; a known one changes nothing. */
  lemma KeysStep(books: seq<Book>, b: Book)
    ensures Seqs.Dedup(Codes(books + [b])) ==
      if b.countryCode in Seqs.Dedup(Codes(books)) then Seqs.Dedup(Codes(books))
      else Seqs.Dedup(Codes(books)) + [b.countryCode]
  {
    assert (books + [b])[..|books|] == books;
    assert Codes(books + [b])[..|books|] == Codes(books);
  }

  lemma AddToGroupingGroups(g0: Grouping, front: seq<Book>, b: Book)
    requires g0.keys == Seqs.Dedup(Codes(front))
    requires forall c :: c in g0.groups <==> c in g0.keys
    requires forall c | c in g0.groups :: g0.groups[c] == BooksIn(front, c)
    ensures forall c | c in AddToGrouping(g0, b).groups :: AddToGrouping(g0, b).groups[c] == BooksIn(front + [b], c)
  {
    forall c | c in AddToGrouping(g0, b).groups
      ensures AddToGrouping(g0, b).groups[c] == BooksIn(front + [b], c)
    {
      GroupEntry(g0, front, b, c);
    }
  }

  lemma GroupEntry(g0: Grouping, front: seq<Book>, b: Book, c: string)
    requires g0.keys == Seqs.Dedup(Codes(front))
    requires forall c :: c in g0.groups <==> c in g0.keys
    requires forall c | c in g0.groups :: g0.groups[c] == BooksIn(front, c)
    requires c in AddToGrouping(g0, b).groups
    ensures AddToGrouping(g0, b).groups[c] == BooksIn(front + [b], c)
  {
    BooksInLast(front, b, c);
    if c == b.countryCode {
      if c !in g0.groups {
        assert c !in Seqs.Dedup(Codes(front));
        assert c !in Codes(front);
        NoCodeNoBooks(front, c);
      }
    } else {
      assert AddToGrouping(g0, b).groups[c] == g0.groups[c];
    }
  }

  /** One more book at the end joins only its own country's group. */
  lemma BooksInLast(books: seq<Book>, b: Book, c: string)
    ensures BooksIn(books + [b], c) == if c == b.countryCode then BooksIn(books, c) + [b] else BooksIn(books, c)
  {
    assert (books + [b])[..|books|] == books;
  }

  /** A country's entry in `getCountryData`. */
  datatype CountryData = CountryData(code: string, name: string, books: seq<Book>)

  /** `books[0]?.country || code`: the first book's country name when it is
      set and non-empty, otherwise the code. */
  function NameFor(code: string, books: seq<Book>): (name: string)
    ensures books != [] && books[0].country.Some? && books[0].country.value != "" ==> name == books[0].country.value
    ensures books == [] || books[0].country.None? || books[0].country.value == "" ==> name == code
  {
    if books != [] && books[0].country.Some? && books[0].country.value != "" then books[0].country.value
    else code
  }

  /** A country is named after the first book in the list that carries its
      code, when that book has a non-empty country name, and after its code
      otherwise. */
  lemma NameFromFirstBook(books: seq<Book>, c: string, j: nat)
    requires j < |books| && books[j].countryCode == c
    requires forall k | 0 <= k < j :: books[k].countryCode != c
    ensures books[j].country.Some? && books[j].country.value != "" ==> NameFor(c, BooksIn(books, c)) == books[j].country.value
    ensures books[j].country.None? || books[j].country.value == "" ==> NameFor(c, BooksIn(books, c)) == c
  {
    FirstInGroup(books, c, j);
  }

  /** `Object.entries(grouped).map(...)`: one entry per key, in key order. */
  function CountryDataOf(g: Grouping): (r: seq<CountryData>)
    requires forall c | c in g.keys :: c in g.groups
    ensures |r| == |g.keys|
    ensures forall k | 0 <= k < |r| :: r[k].code == g.keys[k] && r[k].books == g.groups[g.keys[k]]
    ensures forall k | 0 <= k < |r| :: r[k].name == NameFor(r[k].code, r[k].books)
  {
    seq(|g.keys|, k requires 0 <= k < |g.keys| =>
      CountryData(g.keys[k], NameFor(g.keys[k], g.groups[g.keys[k]]), g.groups[g.keys[k]]))
  }

  /** The guest store: the list `getBooks` would load, changed by the
      operations that load, change and save it. */
  class BookStore {
    var books: seq<Book>

    constructor ()
      ensures books == []
    {
      books := [];
    }

    /** `addBook`: the book goes at the end; earlier books are untouched. */
    method AddBook(book: Book)
      modifies this
      ensures books == old(books) + [book]
      ensures |books| == |old(books)| + 1 && books[..|old(books)|] == old(books)
    {
      books := books + [book];
    }

    /** `updateBook`: merges the update into the first book with the id and
        leaves every other book, and the length, as they were; with no such
        book nothing changes. */
    method UpdateBook(id: string, updates: BookUpdate)
      modifies this
      ensures FindIndex(old(books), id).None? ==> books == old(books)
      ensures FindIndex(old(books), id).Some? ==>
        var i := FindIndex(old(books), id).value;
        books == old(books)[i := Merge(old(books)[i], updates)]
    {
      var i := 0;
      while i < |books| && books[i].id != id
        invariant 0 <= i <= |books|
        invariant forall k | 0 <= k < i :: books[k].id != id
      {
        i := i + 1;
      }
      if i < |books| {
        books := books[i := Merge(books[i], updates)];
      }
    }

    /** `deleteBook`: every book with the id goes, the rest keep their order. */
    method DeleteBook(id: string)
      modifies this
      ensures books == WithoutId(old(books), id)
    {
      books := WithoutId(books, id);
    }

    /** `getBooksByCountry`: one key per distinct country code, in order of
        first appearance, and under each key the books with that code in list
        order. */
    method GetBooksByCountry() returns (g: Grouping)
      ensures g == GroupAll(books)
      ensures g.keys == Seqs.Dedup(Codes(books))
      ensures forall c :: c in g.groups <==> c in g.keys
      ensures forall c | c in g.groups :: g.groups[c] == BooksIn(books, c)
    {
      var list := books;
      var keys: seq<string> := [];
      var groups: map<string, seq<Book>> := map[];
      for i := 0 to |list|
        invariant Grouping(keys, groups) == GroupAll(list[..i])
      {
        var book := list[i];
        assert list[..i + 1][..i] == list[..i];
        if book.countryCode !in groups {
          groups := groups[book.countryCode := []];
          keys := keys + [book.countryCode];
        }
        groups := groups[book.countryCode := groups[book.countryCode] + [book]];
      }
      assert list[..|list|] == list;
      GroupAllMeaning(list);
      g := Grouping(keys, groups);
    }

    /** `getCountryData`: one entry per group, in key order, named after the
        first book of the group (the first book in the list with that code)
        when it carries a country name. */
    method GetCountryData() returns (r: seq<CountryData>)
      ensures |r| == |Seqs.Dedup(Codes(books))|
      ensures forall k | 0 <= k < |r| ::
        && r[k].code == Seqs.Dedup(Codes(books))[k]
        && r[k].books == BooksIn(books, r[k].code)
        && r[k].books != []
        && r[k].name == NameFor(r[k].code, r[k].books)
    {
      var g := GetBooksByCountry();
      r := CountryDataOf(g);
      forall k | 0 <= k < |r|
        ensures r[k].books == BooksIn(books, r[k].code) && r[k].books != []
      {
        KeyHasBooks(books, g.keys[k]);
      }
    }
  }

  /** Every book is in its own country's group and in no other, and no
      group is empty. */
  lemma GroupMembership(books: seq<Book>, c: string)
    ensures forall k | 0 <= k < |books| :: books[k] in BooksIn(books, books[k].countryCode)
    ensures forall b | b in BooksIn(books, c) :: b.countryCode == c
    ensures c in Seqs.Dedup(Codes(books)) ==> BooksIn(books, c) != []
  {
    if c in Seqs.Dedup(Codes(books)) {
      KeyHasBooks(books, c);
    }
  }

  lemma KeyHasBooks(books: seq<Book>, c: string)
    requires c in Seqs.Dedup(Codes(books))
    ensures BooksIn(books, c) != []
  {
    var i :| 0 <= i < |books| && Codes(books)[i] == c;
    assert books[i] in BooksIn(books, c);
  }

  /** `getBooks`: nothing outside a browser, nothing when no text is stored
      (or the empty text), nothing when the text does not parse, and
      otherwise the parsed list. `parse` stands for `JSON.parse`. */
  function LoadBooks(hasWindow: bool, stored: Option<string>, parse: string -> Option<seq<Book>>): (r: seq<Book>)
    ensures !hasWindow ==> r == []
    ensures (stored.None? || stored == Some("")) ==> r == []
    ensures hasWindow && stored.Some? && stored.value != "" ==> r == parse(stored.value).GetOr([])
  {
    if !hasWindow then []
    else match stored
      case None => []
      case Some(text) =>
        if text == "" then []
        else match parse(text)
          case None => []
          case Some(list) => list
  }
}
