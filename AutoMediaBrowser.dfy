/**
 * The car-display catalog browser. Every browsable entry carries a media id
 * made of a route prefix and an argument (a library uuid, an author's or a
 * book's rating key); loading the children of an id dispatches on the first
 * prefix it starts with. Listing catalog items turns books and authors into
 * browsable entries, remembering them under their rating key so that the
 * next level can find them again, and tracks into playable entries.
 */
module MediaIds {
  import opened Types

  const BrowserRoot: string := "root"
  const LibraryRootPrefix: string := "library-root-"
  const BookListsPrefix: string := "books-"
  const AuthorListPrefix: string := "authors-"
  const ChaptersInProgressPrefix: string := "chapters-"
  const BooksInProgressPrefix: string := "bookinprog-"
  const BooksFromAuthorPrefix: string := "booksbyauthor-"
  const ChaptersFromBookPrefix: string := "chaptersinbook-"

  /** The levels of the browse tree, each with the argument its media id carries. */
  datatype Route =
    | Root
    | LibraryRoot(libraryId: string)
    | BookLists(libraryId: string)
    | AuthorLists(libraryId: string)
    | ChaptersInProgress(libraryId: string)
    | BooksInProgress(libraryId: string)
    | BooksFromAuthor(authorId: string)
    | ChaptersFromBook(bookId: string)

  predicate StartsWith(s: string, prefix: string)
  {
    |prefix| <= |s| && s[..|prefix|] == prefix
  }

  /** The media id of a route: the root name, or the level's prefix followed by the argument. */
  function Encode(r: Route): string
  {
    match r
    case Root => BrowserRoot
    case LibraryRoot(x) => LibraryRootPrefix + x
    case BookLists(x) => BookListsPrefix + x
    case AuthorLists(x) => AuthorListPrefix + x
    case ChaptersInProgress(x) => ChaptersInProgressPrefix + x
    case BooksInProgress(x) => BooksInProgressPrefix + x
    case BooksFromAuthor(x) => BooksFromAuthorPrefix + x
    case ChaptersFromBook(x) => ChaptersFromBookPrefix + x
  }

  /** onLoadChildren's dispatch: the root name, then the prefixes in the order they are tried. */
  function Decode(parentId: string): Option<Route>
  {
    if parentId == BrowserRoot then Some(Root)
    else if StartsWith(parentId, LibraryRootPrefix) then Some(LibraryRoot(parentId[|LibraryRootPrefix|..]))
    else if StartsWith(parentId, BookListsPrefix) then Some(BookLists(parentId[|BookListsPrefix|..]))
    else if StartsWith(parentId, AuthorListPrefix) then Some(AuthorLists(parentId[|AuthorListPrefix|..]))
    else if StartsWith(parentId, ChaptersInProgressPrefix) then
      Some(ChaptersInProgress(parentId[|ChaptersInProgressPrefix|..]))
    else if StartsWith(parentId, BooksInProgressPrefix) then
      Some(BooksInProgress(parentId[|BooksInProgressPrefix|..]))
    else if StartsWith(parentId, BooksFromAuthorPrefix) then
      Some(BooksFromAuthor(parentId[|BooksFromAuthorPrefix|..]))
    else if StartsWith(parentId, ChaptersFromBookPrefix) then
      Some(ChaptersFromBook(parentId[|ChaptersFromBookPrefix|..]))
    else None
  }

  /** Two strings that differ at a position inside both: an id built from one does not start with the other. */
  lemma ExtensionKeepsPrefixFree(p: string, q: string, x: string, i: nat)
    requires i < |p| && i < |q| && p[i] != q[i]
    ensures !StartsWith(p + x, q)
  {
    if |q| <= |p + x| {
      assert (p + x)[..|q|][i] == p[i];
    }
  }

  /** An id built from a prefix that does not begin like the root name is not the root name. */
  lemma NotRoot(p: string, x: string)
    requires |p| > 0 && p[0] != BrowserRoot[0]
    ensures p + x != BrowserRoot
  {
    assert (p + x)[0] == p[0];
  }

  /** The argument after the prefix. */
  lemma AfterPrefix(p: string, x: string)
    ensures StartsWith(p + x, p) && (p + x)[|p|..] == x
  {
    assert (p + x)[..|p|] == p;
  }

  /** Every route survives the trip through its media id. */
  lemma DecodeEncode(r: Route)
    ensures Decode(Encode(r)) == Some(r)
  {
    match r
    case Root =>
    case LibraryRoot(x) =>
      AfterPrefix(LibraryRootPrefix, x);
      NotRoot(LibraryRootPrefix, x);
    case BookLists(x) =>
      AfterPrefix(BookListsPrefix, x);
      NotRoot(BookListsPrefix, x);
      ExtensionKeepsPrefixFree(BookListsPrefix, LibraryRootPrefix, x, 0);
    case AuthorLists(x) =>
      AfterPrefix(AuthorListPrefix, x);
      NotRoot(AuthorListPrefix, x);
      ExtensionKeepsPrefixFree(AuthorListPrefix, LibraryRootPrefix, x, 0);
      ExtensionKeepsPrefixFree(AuthorListPrefix, BookListsPrefix, x, 0);
    case ChaptersInProgress(x) =>
      AfterPrefix(ChaptersInProgressPrefix, x);
      NotRoot(ChaptersInProgressPrefix, x);
      ExtensionKeepsPrefixFree(ChaptersInProgressPrefix, LibraryRootPrefix, x, 0);
      ExtensionKeepsPrefixFree(ChaptersInProgressPrefix, BookListsPrefix, x, 0);
      ExtensionKeepsPrefixFree(ChaptersInProgressPrefix, AuthorListPrefix, x, 0);
    case BooksInProgress(x) =>
      AfterPrefix(BooksInProgressPrefix, x);
      NotRoot(BooksInProgressPrefix, x);
      ExtensionKeepsPrefixFree(BooksInProgressPrefix, LibraryRootPrefix, x, 0);
      ExtensionKeepsPrefixFree(BooksInProgressPrefix, BookListsPrefix, x, 4);
      ExtensionKeepsPrefixFree(BooksInProgressPrefix, AuthorListPrefix, x, 0);
      ExtensionKeepsPrefixFree(BooksInProgressPrefix, ChaptersInProgressPrefix, x, 0);
    case BooksFromAuthor(x) =>
      AfterPrefix(BooksFromAuthorPrefix, x);
      NotRoot(BooksFromAuthorPrefix, x);
      ExtensionKeepsPrefixFree(BooksFromAuthorPrefix, LibraryRootPrefix, x, 0);
      ExtensionKeepsPrefixFree(BooksFromAuthorPrefix, BookListsPrefix, x, 5);
      ExtensionKeepsPrefixFree(BooksFromAuthorPrefix, AuthorListPrefix, x, 0);
      ExtensionKeepsPrefixFree(BooksFromAuthorPrefix, ChaptersInProgressPrefix, x, 0);
      ExtensionKeepsPrefixFree(BooksFromAuthorPrefix, BooksInProgressPrefix, x, 4);
    case ChaptersFromBook(x) =>
      AfterPrefix(ChaptersFromBookPrefix, x);
      NotRoot(ChaptersFromBookPrefix, x);
      ExtensionKeepsPrefixFree(ChaptersFromBookPrefix, LibraryRootPrefix, x, 0);
      ExtensionKeepsPrefixFree(ChaptersFromBookPrefix, BookListsPrefix, x, 0);
      ExtensionKeepsPrefixFree(ChaptersFromBookPrefix, AuthorListPrefix, x, 0);
      ExtensionKeepsPrefixFree(ChaptersFromBookPrefix, ChaptersInProgressPrefix, x, 8);
      ExtensionKeepsPrefixFree(ChaptersFromBookPrefix, BooksInProgressPrefix, x, 0);
      ExtensionKeepsPrefixFree(ChaptersFromBookPrefix, BooksFromAuthorPrefix, x, 0);
  }

  /** An id that starts with a prefix is that prefix followed by the rest. */
  lemma Rejoin(s: string, prefix: string)
    requires StartsWith(s, prefix)
    ensures prefix + s[|prefix|..] == s
  {
    assert s == s[..|prefix|] + s[|prefix|..];
  }

  /** Every id the dispatch accepts is the media id of the route it finds. */
  lemma EncodeDecode(parentId: string)
    requires Decode(parentId).Some?
    ensures Encode(Decode(parentId).value) == parentId
  {
    if parentId == BrowserRoot {
    } else if StartsWith(parentId, LibraryRootPrefix) {
      Rejoin(parentId, LibraryRootPrefix);
    } else if StartsWith(parentId, BookListsPrefix) {
      Rejoin(parentId, BookListsPrefix);
    } else if StartsWith(parentId, AuthorListPrefix) {
      Rejoin(parentId, AuthorListPrefix);
    } else if StartsWith(parentId, ChaptersInProgressPrefix) {
      Rejoin(parentId, ChaptersInProgressPrefix);
    } else if StartsWith(parentId, BooksInProgressPrefix) {
      Rejoin(parentId, BooksInProgressPrefix);
    } else if StartsWith(parentId, BooksFromAuthorPrefix) {
      Rejoin(parentId, BooksFromAuthorPrefix);
    } else {
      Rejoin(parentId, ChaptersFromBookPrefix);
    }
  }

  /** The dispatch rejects exactly the ids no route has, which get the empty result. */
  lemma DecodeRejectsForeignIds(parentId: string)
    ensures Decode(parentId).None? <==> forall r :: Encode(r) != parentId
  {
    if Decode(parentId).Some? {
      EncodeDecode(parentId);
    } else {
      forall r
        ensures Encode(r) != parentId
      {
        DecodeEncode(r);
      }
    }
  }

  /** What a media item is: a folder to open or a chapter to play. */
  datatype Flag = Browsable | Playable

  /** The values handed to the player with a playable entry. */
  datatype TrackExtras = TrackExtras(uri: string, key: string, parentKey: string, libraryId: string, speed: real)

  /** One entry of a listing (icons and style hints left out). */
  datatype MediaItem = MediaItem(mediaId: string, title: string, subtitle: Option<string>, flag: Flag,
                                 extras: Option<TrackExtras>)

  /** The four folders of a library, in order: authors, books, chapters in progress, books in progress. */
  function LibraryRootFolders(libraryId: string, authorsLabel: string, booksLabel: string): seq<MediaItem>
  {
    [MediaItem(Encode(AuthorLists(libraryId)), authorsLabel, None, Browsable, None),
     MediaItem(Encode(BookLists(libraryId)), booksLabel, None, Browsable, None),
     MediaItem(Encode(ChaptersInProgress(libraryId)), "Chapters in progress", None, Browsable, None),
     MediaItem(Encode(BooksInProgress(libraryId)), "Books in progress", None, Browsable, None)]
  }

  /** The library folders: four browsable entries whose ids lead to the four listings of that library. */
  lemma LibraryRootFoldersSpec(libraryId: string, authorsLabel: string, booksLabel: string)
    ensures var r := LibraryRootFolders(libraryId, authorsLabel, booksLabel);
            |r| == 4 && (forall i :: 0 <= i < 4 ==> r[i].flag == Browsable) &&
            Decode(r[0].mediaId) == Some(AuthorLists(libraryId)) &&
            Decode(r[1].mediaId) == Some(BookLists(libraryId)) &&
            Decode(r[2].mediaId) == Some(ChaptersInProgress(libraryId)) &&
            Decode(r[3].mediaId) == Some(BooksInProgress(libraryId))
  {
    DecodeEncode(AuthorLists(libraryId));
    DecodeEncode(BookLists(libraryId));
    DecodeEncode(ChaptersInProgress(libraryId));
    DecodeEncode(BooksInProgress(libraryId));
  }

  /** The entry for one listed item: books and authors open, chapters play, anything else is skipped. */
  function Classify(item: PlexItem, speed: real): (r: Option<MediaItem>)
    ensures r.Some? <==> item.BookItem? || item.AuthorItem? || item.TrackItem?
    ensures r.Some? ==> (r.value.flag == Playable <==> item.TrackItem?)
    ensures item.TrackItem? ==> r.value.mediaId == item.track.ratingKey &&
                                r.value.extras == Some(TrackExtras(item.track.uri, item.track.key, item.track.parentKey,
                                                                   item.track.libraryId, speed))
  {
    match item
    case BookItem(title, ratingKey, artistTitle, _, _, _) =>
      Some(MediaItem(Encode(ChaptersFromBook(ratingKey)), title, Some(artistTitle), Browsable, None))
    case AuthorItem(title, ratingKey, _, _, _, _, _) =>
      Some(MediaItem(Encode(BooksFromAuthor(ratingKey)), title, None, Browsable, None))
    case TrackItem(t) =>
      Some(MediaItem(t.ratingKey, t.title, Some(t.artistTitle), Playable,
                     Some(TrackExtras(t.uri, t.key, t.parentKey, t.libraryId, speed))))
    case _ => None
  }

  /** The entries of a listing, in item order. */
  function ClassifyAll(items: seq<PlexItem>, speed: real): seq<MediaItem>
    decreases |items|
  {
    if items == [] then []
    else
      var n := |items| - 1;
      ClassifyAll(items[..n], speed) + (match Classify(items[n], speed) case Some(m) => [m] case None => [])
  }

  /** The thumb a book, author or chapter entry takes its icon from. */
  function ThumbOf(item: PlexItem): Option<string>
  {
    match item
    case BookItem(_, _, _, _, thumb, _) => thumb
    case AuthorItem(_, _, _, _, _, thumb, _) => thumb
    case TrackItem(t) => t.thumb
    case _ => None
  }

  /** An item that gets an entry but has no thumb to build its icon from. */
  predicate Thumbless(item: PlexItem)
  {
    (item.BookItem? || item.AuthorItem? || item.TrackItem?) && ThumbOf(item).None?
  }

  /** What a listing hands back: the entries, or nothing because building one of them raised. */
  datatype Listing = Sent(entries: seq<MediaItem>) | ListingRaised

  /**
   * The listing as the client writes it: each book, author and chapter entry
   * takes its icon from `Uri.parse(Uri.decode(thumb))`, and with no thumb
   * that parse raises, so a listing holding a thumbless entry is never sent.
   * With every thumb present it sends exactly ClassifyAll.
   */
  function ListingAsWritten(items: seq<PlexItem>, speed: real): (r: Listing)
    decreases |items|
    ensures r.ListingRaised? <==> exists i :: 0 <= i < |items| && Thumbless(items[i])
    ensures r.Sent? ==> r.entries == ClassifyAll(items, speed)
  {
    if items == [] then Sent([])
    else
      var n := |items| - 1;
      assert forall i :: 0 <= i < n ==> items[..n][i] == items[i];
      match ListingAsWritten(items[..n], speed)
      case ListingRaised => ListingRaised
      case Sent(e) =>
        if Thumbless(items[n]) then ListingRaised
        else Sent(e + (match Classify(items[n], speed) case Some(m) => [m] case None => []))
  }

  /**
   * One chapter without a thumb: the written listing raises and sends
   * nothing, where the corrected one lists the chapter as a playable entry.
   */
  lemma ThumblessListingRaises(t: Track, speed: real)
    requires t.thumb.None?
    ensures ListingAsWritten([TrackItem(t)], speed) == ListingRaised
    ensures ClassifyAll([TrackItem(t)], speed) == [Classify(TrackItem(t), speed).value]
    ensures ClassifyAll([TrackItem(t)], speed)[0].flag == Playable
  {
    assert Thumbless([TrackItem(t)][0]);
  }

  /** The book cache after a listing: every listed book under its rating key, later ones replacing earlier. */
  function CacheBooks(cache: map<string, PlexItem>, items: seq<PlexItem>): map<string, PlexItem>
    decreases |items|
  {
    if items == [] then cache
    else
      var n := |items| - 1;
      var c := CacheBooks(cache, items[..n]);
      if items[n].BookItem? then c[items[n].bookRatingKey := items[n]] else c
  }

  /** The author cache after a listing, likewise. */
  function CacheAuthors(cache: map<string, PlexItem>, items: seq<PlexItem>): map<string, PlexItem>
    decreases |items|
  {
    if items == [] then cache
    else
      var n := |items| - 1;
      var c := CacheAuthors(cache, items[..n]);
      if items[n].AuthorItem? then c[items[n].authorRatingKey := items[n]] else c
  }

  /** The listing of two lists one after the other is the two listings one after the other. */
  lemma {:induction false} ClassifyAllAppend(a: seq<PlexItem>, b: seq<PlexItem>, speed: real)
    decreases |b|
    ensures ClassifyAll(a + b, speed) == ClassifyAll(a, speed) + ClassifyAll(b, speed)
  {
    if b == [] {
      assert a + b == a;
    } else {
      var n := |b| - 1;
      ClassifyAllAppend(a, b[..n], speed);
      assert (a + b)[..|a + b| - 1] == a + b[..n];
      assert (a + b)[|a + b| - 1] == b[n];
    }
  }

  /** A listed entry's id leads back to a cached book or author, or it plays a chapter. */
  ghost predicate Resolves(m: MediaItem, books: map<string, PlexItem>, authors: map<string, PlexItem>)
  {
    match m.flag
    case Playable => m.extras.Some?
    case Browsable =>
      match Decode(m.mediaId)
      case Some(ChaptersFromBook(k)) => k in books && books[k].BookItem? && books[k].bookRatingKey == k
      case Some(BooksFromAuthor(k)) => k in authors && authors[k].AuthorItem? && authors[k].authorRatingKey == k
      case _ => false
  }

  /** Every entry of a listing resolves. */
  ghost predicate AllResolve(out: seq<MediaItem>, books: map<string, PlexItem>, authors: map<string, PlexItem>)
  {
    forall i :: 0 <= i < |out| ==> Resolves(out[i], books, authors)
  }

  /** Every book cached under its own key. */
  ghost predicate BooksKeyed(books: map<string, PlexItem>)
  {
    forall k :: k in books ==> books[k].BookItem? && books[k].bookRatingKey == k
  }

  /** Every author cached under its own key. */
  ghost predicate AuthorsKeyed(authors: map<string, PlexItem>)
  {
    forall k :: k in authors ==> authors[k].AuthorItem? && authors[k].authorRatingKey == k
  }

  /**
   * After a listing, the caches still hold every entry under its own key,
   * and every browsable entry's id names a book or an author the caches
   * hold: opening it finds what was listed.
   */
  lemma {:induction false} ListingResolves(books: map<string, PlexItem>, authors: map<string, PlexItem>,
                                           items: seq<PlexItem>, speed: real)
    requires BooksKeyed(books) && AuthorsKeyed(authors)
    decreases |items|
    ensures BooksKeyed(CacheBooks(books, items)) && AuthorsKeyed(CacheAuthors(authors, items))
    ensures books.Keys <= CacheBooks(books, items).Keys && authors.Keys <= CacheAuthors(authors, items).Keys
    ensures AllResolve(ClassifyAll(items, speed), CacheBooks(books, items), CacheAuthors(authors, items))
  {
    if items != [] {
      var n := |items| - 1;
      var x := items[n];
      ListingResolves(books, authors, items[..n], speed);
      var front := ClassifyAll(items[..n], speed);
      var b := CacheBooks(books, items[..n]);
      var a := CacheAuthors(authors, items[..n]);
      var out := ClassifyAll(items, speed);
      var b' := CacheBooks(books, items);
      var a' := CacheAuthors(authors, items);
      assert b' == if x.BookItem? then b[x.bookRatingKey := x] else b;
      assert a' == if x.AuthorItem? then a[x.authorRatingKey := x] else a;
      assert AllResolve(front, b, a);
      forall i | 0 <= i < |out|
        ensures Resolves(out[i], b', a')
      {
        if i < |front| {
          assert out[i] == front[i];
          assert Resolves(front[i], b, a);
          if front[i].flag.Browsable? {
            match Decode(front[i].mediaId)
            case Some(ChaptersFromBook(k)) =>
              assert b'[k] == b[k] || b'[k] == x;
            case Some(BooksFromAuthor(k)) =>
              assert a'[k] == a[k] || a'[k] == x;
            case _ =>
          }
        } else {
          match x
          case BookItem(_, k, _, _, _, _) => DecodeEncode(ChaptersFromBook(k));
          case AuthorItem(_, k, _, _, _, _, _) => DecodeEncode(BooksFromAuthor(k));
          case _ =>
        }
      }
    }
  }

  /** The root folders: one browsable entry per library, its id leading to that library's folders. */
  function RootEntry(lib: Library): MediaItem
  {
    MediaItem(Encode(LibraryRoot(lib.uuid)), lib.name, None, Browsable, None)
  }

  /** The library cache after listing the roots: every library under its uuid, later ones replacing earlier. */
  function CacheLibraries(cache: map<string, Library>, libs: seq<Library>): map<string, Library>
    decreases |libs|
  {
    if libs == [] then cache
    else
      var n := |libs| - 1;
      CacheLibraries(cache, libs[..n])[libs[n].uuid := libs[n]]
  }

  /** After listing the roots, every root entry's id names a library the cache holds under that uuid. */
  lemma RootFoldersResolve(cache: map<string, Library>, libs: seq<Library>)
    ensures var c := CacheLibraries(cache, libs);
            forall i :: 0 <= i < |libs| ==>
              Decode(RootEntry(libs[i]).mediaId) == Some(LibraryRoot(libs[i].uuid)) &&
              libs[i].uuid in c && c[libs[i].uuid].uuid == libs[i].uuid
  {
    LibrariesCached(cache, libs);
    forall i | 0 <= i < |libs|
      ensures Decode(RootEntry(libs[i]).mediaId) == Some(LibraryRoot(libs[i].uuid))
    {
      DecodeEncode(LibraryRoot(libs[i].uuid));
    }
  }

  /** Every listed library's uuid is cached with a library of that uuid. */
  lemma {:induction false} LibrariesCached(cache: map<string, Library>, libs: seq<Library>)
    decreases |libs|
    ensures forall i :: 0 <= i < |libs| ==>
              libs[i].uuid in CacheLibraries(cache, libs) &&
              CacheLibraries(cache, libs)[libs[i].uuid].uuid == libs[i].uuid
  {
    if libs != [] {
      var n := |libs| - 1;
      LibrariesCached(cache, libs[..n]);
      forall i | 0 <= i < n
        ensures libs[i].uuid in CacheLibraries(cache, libs) &&
                CacheLibraries(cache, libs)[libs[i].uuid].uuid == libs[i].uuid
      {
        assert libs[..n][i] == libs[i];
      }
    }
  }

  /** What loading the children of a parent id asks for. */
  datatype Request =
    | ListLibraries
    | LibraryFolders(libraryId: string)
    | BrowseMediaType(mediaType: PlexItem, page: int)
    | ChaptersInProgressOf(lib: Option<Library>)
    | BooksInProgressOf(lib: Option<Library>)
    | ArtistItemsOf(author: Option<PlexItem>)
    | AlbumItemsOf(book: Option<PlexItem>)
    | EmptyResult
    | MissingLibrary

  /**
   * The handler of each level. The book and author lists build a media type
   * from the cached library and fail when the library is not cached; the
   * other lookups pass the absent value on.
   */
  function RequestFor(r: Route, libraries: map<string, Library>, books: map<string, PlexItem>,
                      authors: map<string, PlexItem>): Request
  {
    match r
    case Root => ListLibraries
    case LibraryRoot(id) => LibraryFolders(id)
    case BookLists(id) =>
      if id in libraries then
        var lib := libraries[id];
        BrowseMediaType(MediaTypeItem("Books", Album, "9", lib.key, lib.uuid, lib.uri), 0)
      else MissingLibrary
    case AuthorLists(id) =>
      if id in libraries then
        var lib := libraries[id];
        BrowseMediaType(MediaTypeItem("Author", Artist, "8", lib.key, lib.uuid, lib.uri), 0)
      else MissingLibrary
    case ChaptersInProgress(id) => ChaptersInProgressOf(if id in libraries then Some(libraries[id]) else None)
    case BooksInProgress(id) => BooksInProgressOf(if id in libraries then Some(libraries[id]) else None)
    case BooksFromAuthor(id) => ArtistItemsOf(if id in authors then Some(authors[id]) else None)
    case ChaptersFromBook(id) => AlbumItemsOf(if id in books then Some(books[id]) else None)
  }

  /** A request that found what it looked up. */
  predicate Found(req: Request)
  {
    match req
    case MissingLibrary => false
    case ChaptersInProgressOf(lib) => lib.Some?
    case BooksInProgressOf(lib) => lib.Some?
    case ArtistItemsOf(author) => author.Some?
    case AlbumItemsOf(book) => book.Some?
    case _ => true
  }

  /**
   * A library listed at the root can be browsed: each of its four folders
   * leads to a request that finds the library.
   */
  lemma ListedLibraryBrowses(cache: map<string, Library>, libs: seq<Library>, i: int, authorsLabel: string,
                             booksLabel: string, books: map<string, PlexItem>, authors: map<string, PlexItem>)
    requires 0 <= i < |libs|
    ensures var folders := LibraryRootFolders(libs[i].uuid, authorsLabel, booksLabel);
            forall f :: 0 <= f < |folders| ==>
              Decode(folders[f].mediaId).Some? &&
              Found(RequestFor(Decode(folders[f].mediaId).value, CacheLibraries(cache, libs), books, authors))
  {
    var id := libs[i].uuid;
    var c := CacheLibraries(cache, libs);
    assert id in c by { LibrariesCached(cache, libs); }
    var folders := LibraryRootFolders(id, authorsLabel, booksLabel);
    forall f | 0 <= f < |folders|
      ensures Decode(folders[f].mediaId).Some? && Found(RequestFor(Decode(folders[f].mediaId).value, c, books, authors))
    {
      FolderFound(id, f, c, authorsLabel, booksLabel, books, authors);
    }
  }

  /** One folder of a cached library leads to a request that finds it. */
  lemma FolderFound(id: string, f: int, c: map<string, Library>, authorsLabel: string, booksLabel: string,
                    books: map<string, PlexItem>, authors: map<string, PlexItem>)
    requires id in c && 0 <= f < 4
    ensures var m := LibraryRootFolders(id, authorsLabel, booksLabel)[f].mediaId;
            Decode(m).Some? && Found(RequestFor(Decode(m).value, c, books, authors))
  {
    var route := [AuthorLists(id), BookLists(id), ChaptersInProgress(id), BooksInProgress(id)][f];
    assert LibraryRootFolders(id, authorsLabel, booksLabel)[f].mediaId == Encode(route);
    DecodeEncode(route);
    assert Found(RequestFor(route, c, books, authors));
  }

  class AutoMediaBrowser {
    var currentLibraries: map<string, Library>
    var currentAuthors: map<string, PlexItem>
    var currentBooks: map<string, PlexItem>

    /** The caches hold each entry under its own key. */
    ghost predicate Valid()
      reads this
    {
      BooksKeyed(currentBooks) && AuthorsKeyed(currentAuthors) &&
      forall k :: k in currentLibraries ==> currentLibraries[k].uuid == k
    }

    /** onCreate: empty caches. */
    constructor ()
      ensures Valid()
      ensures currentLibraries == map[] && currentAuthors == map[] && currentBooks == map[]
    {
      currentLibraries, currentAuthors, currentBooks := map[], map[], map[];
    }

    /** onLoadChildren: the request for the id's level, or an empty result for an unknown id. */
    method OnLoadChildren(parentId: string) returns (req: Request)
      ensures Decode(parentId).None? ==> req == EmptyResult
      ensures Decode(parentId).Some? ==>
                req == RequestFor(Decode(parentId).value, currentLibraries, currentBooks, currentAuthors)
    {
      var route := Decode(parentId);
      match route
      case None => req := EmptyResult;
      case Some(r) => req := RequestFor(r, currentLibraries, currentBooks, currentAuthors);
    }

    /** getRootFolders: one entry per library, each library cached under its uuid. */
    method GetRootFolders(libs: seq<Library>) returns (mediaItems: seq<MediaItem>)
      requires Valid()
      modifies this`currentLibraries
      ensures Valid()
      ensures mediaItems == seq(|libs|, i requires 0 <= i < |libs| => RootEntry(libs[i]))
      ensures currentLibraries == CacheLibraries(old(currentLibraries), libs)
    {
      mediaItems := [];
      for i := 0 to |libs|
        invariant Valid()
        invariant mediaItems == seq(i, j requires 0 <= j < i => RootEntry(libs[j]))
        invariant currentLibraries == CacheLibraries(old(currentLibraries), libs[..i])
      {
        assert libs[..i + 1][..i] == libs[..i];
        currentLibraries := currentLibraries[libs[i].uuid := libs[i]];
        mediaItems := mediaItems + [RootEntry(libs[i])];
      }
      assert libs[..|libs|] == libs;
    }

    /** addPlexItemsToBrowserResult: the entries of the listing, books and authors cached. */
    method AddPlexItemsToBrowserResult(items: seq<PlexItem>, speed: real) returns (mediaItems: seq<MediaItem>)
      requires Valid()
      modifies this`currentBooks, this`currentAuthors
      ensures Valid()
      ensures mediaItems == ClassifyAll(items, speed)
      ensures currentBooks == CacheBooks(old(currentBooks), items)
      ensures currentAuthors == CacheAuthors(old(currentAuthors), items)
    {
      mediaItems := [];
      for i := 0 to |items|
        invariant Valid()
        invariant mediaItems == ClassifyAll(items[..i], speed)
        invariant currentBooks == CacheBooks(old(currentBooks), items[..i])
        invariant currentAuthors == CacheAuthors(old(currentAuthors), items[..i])
      {
        assert items[..i + 1][..i] == items[..i];
        var item := items[i];
        match item
        case BookItem(title, ratingKey, artistTitle, _, _, _) =>
          currentBooks := currentBooks[ratingKey := item];
          mediaItems := mediaItems + [MediaItem(ChaptersFromBookPrefix + ratingKey, title, Some(artistTitle),
                                                Browsable, None)];
        case AuthorItem(title, ratingKey, _, _, _, _, _) =>
          currentAuthors := currentAuthors[ratingKey := item];
          mediaItems := mediaItems + [MediaItem(BooksFromAuthorPrefix + ratingKey, title, None, Browsable, None)];
        case TrackItem(t) =>
          var extras := TrackExtras(t.uri, t.key, t.parentKey, t.libraryId, speed);
          mediaItems := mediaItems + [MediaItem(t.ratingKey, t.title, Some(t.artistTitle), Playable, Some(extras))];
        case _ =>
      }
      assert items[..|items|] == items;
    }
  }
}
