/**
 * The server catalog: server responses mapped to catalog items, the
 * alphabet headers of a browsed media type and their interleaving into a
 * page of items. Server responses are inputs; the URL helpers the client
 * calls (blank test, path joining, transcode URL) are passed in as
 * uninterpreted functions.
 */
module RemoteRepository {
  import opened Types

  /** A directory entry of a server response (section, author, book or alphabet bucket). */
  datatype Directory = Directory(
    title: string,
    ratingKey: string,
    parentTitle: string,
    thumb: Option<string>,
    art: Option<string>,
    uuid: string,
    key: string,
    dirType: string,
    size: int)

  /** A chapter entry of a server response. */
  datatype Song = Song(
    playQueueItemID: Option<int>,
    key: string,
    ratingKey: string,
    parentKey: string,
    title: string,
    parentTitle: string,
    grandparentTitle: string,
    index: int,
    duration: int,
    viewOffset: int,
    viewCount: int,
    thumb: Option<string>,
    partKey: string)

  /** A server response; either list may be missing. */
  datatype MediaContainer = MediaContainer(
    directories: Option<seq<Directory>>,
    tracks: Option<seq<Song>>,
    playQueueSelectedItemID: int)

  /** The URL helpers the mappers call. */
  datatype UrlHelpers = UrlHelpers(
    isBlank: string -> bool,
    addPathToUrl: (string, string) -> string,
    transcodeUrl: (string, Option<string>) -> string)

  /** DIRS: the directories of a response, none when missing. */
  function Dirs(c: MediaContainer): (r: seq<Directory>)
    ensures c.directories.None? ==> r == []
    ensures c.directories.Some? ==> r == c.directories.value
  {
    if c.directories.None? then [] else c.directories.value
  }

  /** TRACKS: the chapters of a response, none when missing. */
  function Songs(c: MediaContainer): (r: seq<Song>)
    ensures c.tracks.None? ==> r == []
    ensures c.tracks.Some? ==> r == c.tracks.value
  {
    if c.tracks.None? then [] else c.tracks.value
  }

  /** A thumbnail path made absolute, or null when it is null or blank. */
  function ThumbUrl(h: UrlHelpers, uri: string, thumb: Option<string>): (r: Option<string>)
    ensures r.None? <==> thumb.None? || h.isBlank(thumb.value)
    ensures r.Some? ==> r.value == h.addPathToUrl(uri, thumb.value)
  {
    if thumb.None? || h.isBlank(thumb.value) then None else Some(h.addPathToUrl(uri, thumb.value))
  }

  /** trackMapper: a chapter entry as a chapter of the given library. */
  function TrackMapper(h: UrlHelpers, libraryId: string, uri: string, recent: bool, s: Song): (t: Track)
    ensures t.queueItemId == (if s.playQueueItemID.Some? then s.playQueueItemID.value else 0)
    ensures t.libraryId == libraryId && t.uri == uri && t.recent == recent
    ensures t.ratingKey == s.ratingKey && t.key == s.key && t.parentKey == s.parentKey
    ensures t.albumTitle == s.parentTitle && t.artistTitle == s.grandparentTitle
    ensures t.viewOffset == s.viewOffset && t.viewCount == s.viewCount
    ensures t.thumb.None? <==> s.thumb.None? || h.isBlank(s.thumb.value)
    ensures t.source == h.addPathToUrl(uri, s.partKey)
  {
    Track(if s.playQueueItemID.Some? then s.playQueueItemID.value else 0,
          libraryId, s.key, s.ratingKey, s.parentKey, s.title, s.parentTitle, s.grandparentTitle,
          s.index, s.duration, s.viewOffset, s.viewCount, ThumbUrl(h, uri, s.thumb),
          h.addPathToUrl(uri, s.partKey), uri, recent)
  }

  /** albumMapper: a directory as a book of the given library. */
  function AlbumMapper(h: UrlHelpers, libraryId: string, uri: string, d: Directory): (r: PlexItem)
    ensures r.BookItem? && r.bookRatingKey == d.ratingKey && r.bookLibraryId == libraryId
    ensures r.bookTitle == d.title && r.bookArtistTitle == d.parentTitle && r.bookUri == uri
    ensures r.bookThumb == ThumbUrl(h, uri, d.thumb)
  {
    BookItem(d.title, d.ratingKey, d.parentTitle, libraryId, ThumbUrl(h, uri, d.thumb), uri)
  }

  /** artistMapper: a directory as an author of the given library. */
  function ArtistMapper(h: UrlHelpers, libraryKey: string, libraryId: string, uri: string, d: Directory): (r: PlexItem)
    ensures r.AuthorItem? && r.authorRatingKey == d.ratingKey && r.authorTitle == d.title
    ensures r.authorLibraryKey == libraryKey && r.authorLibraryId == libraryId && r.authorUri == uri
    ensures r.art == h.transcodeUrl(uri, d.art) && r.authorThumb == ThumbUrl(h, uri, d.thumb)
  {
    AuthorItem(d.title, d.ratingKey, libraryKey, libraryId, h.transcodeUrl(uri, d.art),
               ThumbUrl(h, uri, d.thumb), uri)
  }

  /** libraryMapper: a section directory as a library on the server. */
  function LibraryMapper(uri: string, d: Directory): (r: Library)
    ensures r.uuid == d.uuid && r.key == d.key && r.name == d.title && r.uri == uri
  {
    Library(d.uuid, d.key, d.title, uri)
  }

  /** Maps every chapter entry, in order. */
  function MapSongs(h: UrlHelpers, libraryId: string, uri: string, recent: bool, songs: seq<Song>): (r: seq<PlexItem>)
    ensures |r| == |songs|
    ensures forall i :: 0 <= i < |songs| ==> r[i] == TrackItem(TrackMapper(h, libraryId, uri, recent, songs[i]))
  {
    seq(|songs|, i requires 0 <= i < |songs| => TrackItem(TrackMapper(h, libraryId, uri, recent, songs[i])))
  }

  /** Maps every directory to a book, in order. */
  function MapAlbums(h: UrlHelpers, libraryId: string, uri: string, dirs: seq<Directory>): (r: seq<PlexItem>)
    ensures |r| == |dirs|
    ensures forall i :: 0 <= i < |dirs| ==> r[i] == AlbumMapper(h, libraryId, uri, dirs[i])
  {
    seq(|dirs|, i requires 0 <= i < |dirs| => AlbumMapper(h, libraryId, uri, dirs[i]))
  }

  /** Maps every directory to an author, in order. */
  function MapArtists(h: UrlHelpers, libraryKey: string, libraryId: string, uri: string, dirs: seq<Directory>): (r: seq<PlexItem>)
    ensures |r| == |dirs|
    ensures forall i :: 0 <= i < |dirs| ==> r[i] == ArtistMapper(h, libraryKey, libraryId, uri, dirs[i])
  {
    seq(|dirs|, i requires 0 <= i < |dirs| => ArtistMapper(h, libraryKey, libraryId, uri, dirs[i]))
  }

  /**
   * The server's sections: only the music ("artist") sections, as
   * libraries, in server order. It takes the directory list of the sections
   * container (Dirs, so a missing list gives no sections).
   */
  function Sections(uri: string, dirs: seq<Directory>): (r: seq<Library>)
    ensures |r| <= |dirs|
    ensures forall l :: l in r ==> exists d :: d in dirs && d.dirType == "artist" && l == LibraryMapper(uri, d)
    ensures forall d :: d in dirs && d.dirType == "artist" ==> LibraryMapper(uri, d) in r
    ensures (forall i :: 0 <= i < |dirs| ==> dirs[i].dirType == "artist") ==>
              r == seq(|dirs|, i requires 0 <= i < |dirs| => LibraryMapper(uri, dirs[i]))
    ensures (forall i :: 0 <= i < |dirs| ==> dirs[i].dirType != "artist") ==> r == []
    decreases |dirs|
  {
    if dirs == [] then []
    else (if dirs[0].dirType == "artist" then [LibraryMapper(uri, dirs[0])] else []) + Sections(uri, dirs[1..])
  }

  /**
   * The filter keeps order and multiplicity: the sections of two directory
   * lists one after the other are the sections of each, one after the other.
   */
  lemma {:induction false} SectionsAppend(uri: string, a: seq<Directory>, b: seq<Directory>)
    decreases |a|
    ensures Sections(uri, a + b) == Sections(uri, a) + Sections(uri, b)
  {
    if a != [] {
      var head := if a[0].dirType == "artist" then [LibraryMapper(uri, a[0])] else [];
      assert (a + b)[0] == a[0] && (a + b)[1..] == a[1..] + b;
      assert Sections(uri, a + b) == head + Sections(uri, a[1..] + b);
      SectionsAppend(uri, a[1..], b);
      assert Sections(uri, a) == head + Sections(uri, a[1..]);
      assert head + (Sections(uri, a[1..]) + Sections(uri, b)) == (head + Sections(uri, a[1..])) + Sections(uri, b);
    } else {
      assert a + b == b;
    }
  }

  /** The chapters in progress on the server, after their header, all marked recent. */
  function ChaptersInProgress(h: UrlHelpers, lib: Library, c: MediaContainer): (r: seq<PlexItem>)
    ensures |r| == 1 + |Songs(c)| && r[0] == HeaderItem("Chapters In Progress")
    ensures forall i :: 1 <= i < |r| ==>
              r[i] == TrackItem(TrackMapper(h, lib.key, lib.uri, true, Songs(c)[i - 1])) && r[i].track.recent
  {
    [HeaderItem("Chapters In Progress")] + MapSongs(h, lib.key, lib.uri, true, Songs(c))
  }

  /** The books listened to recently, after their header. */
  function BooksInProgress(h: UrlHelpers, lib: Library, c: MediaContainer): (r: seq<PlexItem>)
    ensures |r| == 1 + |Dirs(c)| && r[0] == HeaderItem("Recent Books")
    ensures forall i :: 1 <= i < |r| ==> r[i] == AlbumMapper(h, lib.key, lib.uri, Dirs(c)[i - 1])
  {
    [HeaderItem("Recent Books")] + MapAlbums(h, lib.key, lib.uri, Dirs(c))
  }

  /**
   * The server's library page: the chapters in progress behind their
   * header, then the recent books behind theirs.
   */
  function BrowseLibrary(h: UrlHelpers, lib: Library, chapters: MediaContainer, books: MediaContainer): (r: seq<PlexItem>)
    ensures var b := 1 + |Songs(chapters)|;
            |r| == b + 1 + |Dirs(books)| &&
            r[0] == HeaderItem("Chapters In Progress") && r[b] == HeaderItem("Recent Books")
    ensures forall i :: 1 <= i < 1 + |Songs(chapters)| ==>
              r[i] == TrackItem(TrackMapper(h, lib.key, lib.uri, true, Songs(chapters)[i - 1]))
    ensures forall i :: 0 <= i < |Dirs(books)| ==>
              r[2 + |Songs(chapters)| + i] == AlbumMapper(h, lib.key, lib.uri, Dirs(books)[i])
  {
    ChaptersInProgress(h, lib, chapters) + BooksInProgress(h, lib, books)
  }

  /** The chapters of a book, in server order. */
  function AlbumItems(h: UrlHelpers, libraryId: string, uri: string, c: MediaContainer): (r: seq<PlexItem>)
    ensures |r| == |Songs(c)|
    ensures forall i :: 0 <= i < |r| ==> r[i] == TrackItem(TrackMapper(h, libraryId, uri, false, Songs(c)[i]))
    ensures forall i :: 0 <= i < |r| ==> r[i].TrackItem? && !r[i].track.recent && r[i].track.libraryId == libraryId
  {
    MapSongs(h, libraryId, uri, false, Songs(c))
  }

  /**
   * An author's page: "Popular" and the popular chapters when there are
   * any, then "Books" and the books when there are any.
   */
  function ArtistItems(tracks: seq<PlexItem>, albums: seq<PlexItem>): (r: seq<PlexItem>)
    ensures |r| == (if tracks == [] then 0 else 1 + |tracks|) + (if albums == [] then 0 else 1 + |albums|)
    ensures tracks != [] ==> r[0] == HeaderItem("Popular") && r[1..1 + |tracks|] == tracks
    ensures var b := if tracks == [] then 0 else 1 + |tracks|;
            albums != [] ==> r[b] == HeaderItem("Books") && r[b + 1..] == albums
    ensures tracks == [] && albums == [] ==> r == []
  {
    (if tracks == [] then [] else [HeaderItem("Popular")] + tracks)
    + (if albums == [] then [] else [HeaderItem("Books")] + albums)
  }

  /**
   * A play queue from the server's play-queue response: the chapters in
   * response order, and the item the server selected.
   */
  function CreatePlayQueue(h: UrlHelpers, t: Track, c: MediaContainer): (r: (seq<Track>, int))
    ensures |r.0| == |Songs(c)| && r.1 == c.playQueueSelectedItemID
    ensures forall i :: 0 <= i < |r.0| ==> r.0[i] == TrackMapper(h, t.libraryId, t.uri, false, Songs(c)[i])
  {
    (seq(|Songs(c)|, i requires 0 <= i < |Songs(c)| => TrackMapper(h, t.libraryId, t.uri, false, Songs(c)[i])),
     c.playQueueSelectedItemID)
  }

  /** What browseMediaType asks the server for, and how it maps the answer. */
  datatype BrowseKind = BrowseAuthors | BrowseBooks | BrowseTracks

  /** The fixed page size of a chapter listing. */
  const TrackPageSize: int := 50

  /** The type dispatch of browseMediaType, with the page size sent. */
  function BrowseRequest(t: ItemType, pageSize: Option<int>): (r: (BrowseKind, Option<int>))
    ensures t == Artist ==> r == (BrowseAuthors, pageSize)
    ensures t == Album ==> r == (BrowseBooks, pageSize)
    ensures t == OtherType ==> r == (BrowseTracks, Some(TrackPageSize))
  {
    match t
    case Artist => (BrowseAuthors, pageSize)
    case Album => (BrowseBooks, pageSize)
    case OtherType => (BrowseTracks, Some(TrackPageSize))
  }

  /** The page of items browseMediaType maps from the server's answer. */
  function BrowseItems(h: UrlHelpers, mt: PlexItem, c: MediaContainer): (r: seq<PlexItem>)
    requires mt.MediaTypeItem?
    ensures mt.mtType == Artist ==> r == MapArtists(h, mt.libraryKey, mt.mtLibraryId, mt.mtUri, Dirs(c))
    ensures mt.mtType == Album ==> r == MapAlbums(h, mt.mtLibraryId, mt.mtUri, Dirs(c))
    ensures mt.mtType == OtherType ==> r == MapSongs(h, mt.mtLibraryId, mt.mtUri, false, Songs(c))
  {
    match BrowseRequest(mt.mtType, None).0
    case BrowseAuthors => MapArtists(h, mt.libraryKey, mt.mtLibraryId, mt.mtUri, Dirs(c))
    case BrowseBooks => MapAlbums(h, mt.mtLibraryId, mt.mtUri, Dirs(c))
    case BrowseTracks => MapSongs(h, mt.mtLibraryId, mt.mtUri, false, Songs(c))
  }

  // ----- alphabet headers -----

  /** The total size of the buckets. */
  function SizeSum(dirs: seq<Directory>): int
  {
    if dirs == [] then 0 else SizeSum(dirs[..|dirs| - 1]) + dirs[|dirs| - 1].size
  }

  /** The offset of bucket i: the sizes of the buckets before it. */
  function Offset(dirs: seq<Directory>, i: nat): int
    requires i <= |dirs|
  {
    SizeSum(dirs[..i])
  }

  /** The headers after putting bucket after bucket, each at its offset. */
  function HeadersOf(dirs: seq<Directory>): map<int, PlexItem>
  {
    if dirs == [] then map[]
    else HeadersOf(dirs[..|dirs| - 1])[Offset(dirs, |dirs| - 1) := HeaderItem(dirs[|dirs| - 1].title)]
  }

  /** Some bucket starts at offset k. */
  ghost predicate IsOffset(dirs: seq<Directory>, k: int)
  {
    exists i :: 0 <= i < |dirs| && Offset(dirs, i) == k
  }

  /** No later bucket starts where bucket i starts. */
  ghost predicate LastAtOffset(dirs: seq<Directory>, i: int)
    requires 0 <= i < |dirs|
  {
    forall j :: i < j < |dirs| ==> Offset(dirs, j) != Offset(dirs, i)
  }

  /**
   * The header map has a key exactly at each bucket's offset, and the
   * header there names the last bucket with that offset.
   */
  lemma HeadersOfSpec(dirs: seq<Directory>)
    ensures forall k :: k in HeadersOf(dirs) <==> IsOffset(dirs, k)
    ensures forall i :: 0 <= i < |dirs| && LastAtOffset(dirs, i) ==>
              Offset(dirs, i) in HeadersOf(dirs) && HeadersOf(dirs)[Offset(dirs, i)] == HeaderItem(dirs[i].title)
    ensures forall k :: k in HeadersOf(dirs) ==> HeadersOf(dirs)[k].HeaderItem?
  {
    HeadersDomain(dirs);
    HeadersLast(dirs);
    HeadersAreHeaders(dirs);
  }

  /** Dropping the last bucket leaves the offsets of the others as they were. */
  lemma OffsetsOfFront(dirs: seq<Directory>)
    requires dirs != []
    ensures forall i :: 0 <= i < |dirs| ==> Offset(dirs[..|dirs| - 1], i) == Offset(dirs, i)
  {
    var n := |dirs| - 1;
    forall i | 0 <= i < |dirs|
      ensures Offset(dirs[..n], i) == Offset(dirs, i)
    {
      assert dirs[..n][..i] == dirs[..i];
    }
  }

  /** Offset k is a bucket start iff it starts one of the other buckets or the last one. */
  lemma IsOffsetSnoc(dirs: seq<Directory>, k: int)
    requires dirs != []
    ensures IsOffset(dirs, k) <==> IsOffset(dirs[..|dirs| - 1], k) || Offset(dirs, |dirs| - 1) == k
  {
    OffsetsOfFront(dirs);
    var n := |dirs| - 1;
    if IsOffset(dirs[..n], k) {
      var i :| 0 <= i < n && Offset(dirs[..n], i) == k;
      assert Offset(dirs, i) == k;
    }
  }

  /** The header map's keys are the bucket offsets. */
  lemma {:induction false} HeadersDomain(dirs: seq<Directory>)
    decreases |dirs|
    ensures forall k :: k in HeadersOf(dirs) <==> IsOffset(dirs, k)
  {
    if dirs != [] {
      HeadersDomain(dirs[..|dirs| - 1]);
      forall k
        ensures k in HeadersOf(dirs) <==> IsOffset(dirs, k)
      {
        IsOffsetSnoc(dirs, k);
      }
    }
  }

  /** The header at the offset of a bucket no later bucket shares names that bucket. */
  lemma {:induction false} HeadersLast(dirs: seq<Directory>)
    decreases |dirs|
    ensures forall i :: 0 <= i < |dirs| && LastAtOffset(dirs, i) ==>
              Offset(dirs, i) in HeadersOf(dirs) && HeadersOf(dirs)[Offset(dirs, i)] == HeaderItem(dirs[i].title)
  {
    if dirs != [] {
      var n := |dirs| - 1;
      HeadersLast(dirs[..n]);
      forall i | 0 <= i < |dirs| && LastAtOffset(dirs, i)
        ensures Offset(dirs, i) in HeadersOf(dirs) && HeadersOf(dirs)[Offset(dirs, i)] == HeaderItem(dirs[i].title)
      {
        if i < n {
          HeadersLastStep(dirs, i);
        } else {
          HeadersLastPut(dirs);
        }
      }
    }
  }

  /** The last bucket's header sits at its offset. */
  lemma HeadersLastPut(dirs: seq<Directory>)
    requires dirs != []
    ensures var n := |dirs| - 1;
            Offset(dirs, n) in HeadersOf(dirs) && HeadersOf(dirs)[Offset(dirs, n)] == HeaderItem(dirs[n].title)
  {
  }

  /** One step: a header the earlier buckets placed survives a last bucket at another offset. */
  lemma HeadersLastStep(dirs: seq<Directory>, i: int)
    requires 0 <= i < |dirs| - 1 && LastAtOffset(dirs, i)
    requires var front := dirs[..|dirs| - 1];
             LastAtOffset(front, i) ==>
               Offset(front, i) in HeadersOf(front) && HeadersOf(front)[Offset(front, i)] == HeaderItem(front[i].title)
    ensures Offset(dirs, i) in HeadersOf(dirs) && HeadersOf(dirs)[Offset(dirs, i)] == HeaderItem(dirs[i].title)
  {
    var n := |dirs| - 1;
    var front := dirs[..n];
    OffsetsOfFront(dirs);
    assert Offset(dirs, n) != Offset(dirs, i);
    forall j | i < j < n
      ensures Offset(front, j) != Offset(front, i)
    {
      assert Offset(front, j) == Offset(dirs, j);
      assert Offset(front, i) == Offset(dirs, i);
    }
    assert LastAtOffset(front, i);
    assert front[i] == dirs[i];
  }

  /** Every value of the header map is a header. */
  lemma {:induction false} HeadersAreHeaders(dirs: seq<Directory>)
    decreases |dirs|
    ensures forall k :: k in HeadersOf(dirs) ==> HeadersOf(dirs)[k].HeaderItem?
  {
    if dirs != [] {
      HeadersAreHeaders(dirs[..|dirs| - 1]);
    }
  }

  /** The loop of browseHeaders: a running offset, one put per bucket. */
  method BrowseHeaders(dirs: seq<Directory>) returns (headers: map<int, PlexItem>)
    ensures headers == HeadersOf(dirs)
  {
    headers := map[];
    var offset := 0;
    for i := 0 to |dirs|
      invariant headers == HeadersOf(dirs[..i])
      invariant offset == SizeSum(dirs[..i])
    {
      assert dirs[..i + 1][..i] == dirs[..i];
      headers := headers[offset := HeaderItem(dirs[i].title)];
      offset := offset + dirs[i].size;
    }
    assert dirs[..|dirs|] == dirs;
  }

  // ----- interleaving -----

  /** How many of the first n items have a header at their offset. */
  function Matched(headers: map<int, PlexItem>, page: int, n: nat): nat
  {
    if n == 0 then 0 else Matched(headers, page, n - 1) + (if n - 1 + page in headers then 1 else 0)
  }

  /** The page with each item preceded by the header at its absolute offset, if any. */
  function Interleaved(headers: map<int, PlexItem>, items: seq<PlexItem>, page: int): seq<PlexItem>
  {
    if items == [] then []
    else
      var n := |items| - 1;
      Interleaved(headers, items[..n], page)
      + (if n + page in headers then [headers[n + page]] else [])
      + [items[n]]
  }

  /** Where item i lands in the interleaved page. */
  function Slot(headers: map<int, PlexItem>, page: int, i: nat): nat
  {
    i + Matched(headers, page, i + 1)
  }

  /**
   * The interleaved page holds every item plus one header per matched
   * offset; item i sits at its slot, directly after its header when it has
   * one.
   */
  lemma {:induction false} InterleavedSpec(headers: map<int, PlexItem>, items: seq<PlexItem>, page: int)
    ensures |Interleaved(headers, items, page)| == |items| + Matched(headers, page, |items|)
    ensures forall i :: 0 <= i < |items| ==>
              Slot(headers, page, i) < |Interleaved(headers, items, page)| &&
              Interleaved(headers, items, page)[Slot(headers, page, i)] == items[i]
    ensures forall i :: 0 <= i < |items| && i + page in headers ==>
              Slot(headers, page, i) >= 1 &&
              Interleaved(headers, items, page)[Slot(headers, page, i) - 1] == headers[i + page]
  {
    if items != [] {
      var n := |items| - 1;
      var front := items[..n];
      InterleavedSpec(headers, front, page);
      var r := Interleaved(headers, items, page);
      var f := Interleaved(headers, front, page);
      assert r[..|f|] == f;
      forall i | 0 <= i < n
        ensures Slot(headers, page, i) < |r| && r[Slot(headers, page, i)] == items[i]
      {
        assert front[i] == items[i];
      }
      forall i | 0 <= i < n && i + page in headers
        ensures Slot(headers, page, i) >= 1 && r[Slot(headers, page, i) - 1] == headers[i + page]
      {
      }
    }
  }

  /** The items of a page with its header items removed, in order. */
  function WithoutHeaders(s: seq<PlexItem>): seq<PlexItem>
  {
    if s == [] then [] else WithoutHeaders(s[..|s| - 1]) + (if s[|s| - 1].HeaderItem? then [] else [s[|s| - 1]])
  }

  /** Removing the headers of two pages one after the other is removing them from both. */
  lemma {:induction false} WithoutHeadersAppend(a: seq<PlexItem>, b: seq<PlexItem>)
    decreases |b|
    ensures WithoutHeaders(a + b) == WithoutHeaders(a) + WithoutHeaders(b)
  {
    if b == [] {
      assert a + b == a;
    } else {
      var n := |b| - 1;
      var ab := a + b;
      assert ab[..|ab| - 1] == a + b[..n];
      assert ab[|ab| - 1] == b[n];
      WithoutHeadersAppend(a, b[..n]);
    }
  }

  /** Appending headers and then one non-header item adds just that item. */
  lemma DropHeadersStep(f: seq<PlexItem>, mid: seq<PlexItem>, x: PlexItem)
    requires |mid| <= 1 && forall v :: v in mid ==> v.HeaderItem?
    requires !x.HeaderItem?
    ensures WithoutHeaders(f + mid + [x]) == WithoutHeaders(f) + [x]
  {
    assert f + mid + [x] == f + (mid + [x]);
    WithoutHeadersAppend(f, mid + [x]);
    assert (mid + [x])[..|mid + [x]| - 1] == mid;
    if mid != [] {
      assert mid[0] in mid && mid[..0] == [];
    }
  }

  /** No item of the list is a header. */
  ghost predicate NoHeaders(items: seq<PlexItem>)
  {
    forall i :: 0 <= i < |items| ==> !items[i].HeaderItem?
  }

  /** The items keep their relative order: dropping the headers restores the page. */
  lemma {:induction false} InterleavedKeepsItems(headers: map<int, PlexItem>, items: seq<PlexItem>, page: int)
    requires forall k :: k in headers ==> headers[k].HeaderItem?
    requires NoHeaders(items)
    ensures WithoutHeaders(Interleaved(headers, items, page)) == items
  {
    if items != [] {
      var n := |items| - 1;
      var front := items[..n];
      assert NoHeaders(front) && !items[n].HeaderItem? by {
        NoHeadersFront(items);
      }
      assert WithoutHeaders(Interleaved(headers, front, page)) == front by {
        InterleavedKeepsItems(headers, front, page);
      }
      assert WithoutHeaders(Interleaved(headers, items, page)) ==
             WithoutHeaders(Interleaved(headers, front, page)) + [items[n]] by {
        KeepsLastItem(headers, items, page);
      }
      assert front + [items[n]] == items;
    }
  }

  /** The list without its last item has no header either. */
  lemma NoHeadersFront(items: seq<PlexItem>)
    requires items != [] && NoHeaders(items)
    ensures NoHeaders(items[..|items| - 1]) && !items[|items| - 1].HeaderItem?
  {
    var n := |items| - 1;
    forall i | 0 <= i < n
      ensures !items[..n][i].HeaderItem?
    {
      assert items[..n][i] == items[i];
    }
  }

  /** One interleaving step keeps exactly the last item. */
  lemma KeepsLastItem(headers: map<int, PlexItem>, items: seq<PlexItem>, page: int)
    requires forall k :: k in headers ==> headers[k].HeaderItem?
    requires items != [] && !items[|items| - 1].HeaderItem?
    ensures WithoutHeaders(Interleaved(headers, items, page)) ==
            WithoutHeaders(Interleaved(headers, items[..|items| - 1], page)) + [items[|items| - 1]]
  {
    var n := |items| - 1;
    var mid := if n + page in headers then [headers[n + page]] else [];
    assert Interleaved(headers, items, page) == Interleaved(headers, items[..n], page) + mid + [items[n]];
    DropHeadersStep(Interleaved(headers, items[..n], page), mid, items[n]);
  }

  /** The zip loop of browseMediaType. */
  method Interleave(headers: map<int, PlexItem>, items: seq<PlexItem>, page: int) returns (plexItems: seq<PlexItem>)
    ensures plexItems == Interleaved(headers, items, page)
  {
    plexItems := [];
    for i := 0 to |items|
      invariant plexItems == Interleaved(headers, items[..i], page)
    {
      assert items[..i + 1][..i] == items[..i];
      if i + page in headers {
        plexItems := plexItems + [headers[i + page]];
      }
      plexItems := plexItems + [items[i]];
    }
    assert items[..|items|] == items;
  }

  /**
   * browseMediaType: the page of the media type, each item after the
   * alphabet header that starts at its absolute offset.
   */
  method BrowseMediaType(h: UrlHelpers, mt: PlexItem, page: int, headerResponse: MediaContainer,
                         itemResponse: MediaContainer) returns (r: seq<PlexItem>)
    requires mt.MediaTypeItem?
    ensures r == Interleaved(HeadersOf(Dirs(headerResponse)), BrowseItems(h, mt, itemResponse), page)
  {
    var headers := BrowseHeaders(Dirs(headerResponse));
    var items := BrowseItems(h, mt, itemResponse);
    r := Interleave(headers, items, page);
  }

  /**
   * A browsed page keeps all its items in order, gains one header per item
   * whose absolute offset starts a bucket, and nothing else.
   */
  lemma BrowseMediaTypeSpec(h: UrlHelpers, mt: PlexItem, page: int, headerResponse: MediaContainer,
                            itemResponse: MediaContainer)
    requires mt.MediaTypeItem?
    ensures var items := BrowseItems(h, mt, itemResponse);
            var headers := HeadersOf(Dirs(headerResponse));
            var r := Interleaved(headers, items, page);
            WithoutHeaders(r) == items && |r| == |items| + Matched(headers, page, |items|)
  {
    var items := BrowseItems(h, mt, itemResponse);
    HeadersOfSpec(Dirs(headerResponse));
    InterleavedSpec(HeadersOf(Dirs(headerResponse)), items, page);
    InterleavedKeepsItems(HeadersOf(Dirs(headerResponse)), items, page);
  }
}
