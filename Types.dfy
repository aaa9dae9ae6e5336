/**
 * Shared value types of the audiobook client: the optional value, the
 * playable chapter (Track), the catalog items listed in the browser and the
 * playback states a backend reports.
 */
module Types {

  datatype Option<+T> = None | Some(value: T)

  /**
   * One playable chapter. Java `long` and `int` fields are unbounded
   * integers here; `thumb` is the only field the client leaves null, and
   * `uri` (an HttpUrl in the client) is kept as its string form.
   */
  datatype Track = Track(
    queueItemId: int,
    libraryId: string,
    key: string,
    ratingKey: string,
    parentKey: string,
    title: string,
    albumTitle: string,
    artistTitle: string,
    index: int,
    duration: int,
    viewOffset: int,
    viewCount: int,
    thumb: Option<string>,
    source: string,
    uri: string,
    recent: bool)

  /** The media-session playback states (PlaybackStateCompat.STATE_*). */
  datatype PlaybackState =
    | StateNone
    | Stopped
    | Paused
    | Playing
    | FastForwarding
    | Rewinding
    | Buffering
    | Error
    | Connecting
    | SkippingToPrevious
    | SkippingToNext
    | SkippingToQueueItem

  /** The library section type of a browsable media type. */
  datatype ItemType = Artist | Album | OtherType

  /** A library section. */
  datatype Library = Library(uuid: string, key: string, name: string, uri: string)

  /**
   * The items listed by the catalog browser. `OtherItem` stands for any
   * PlexItem implementation outside the six the client dispatches on.
   */
  datatype PlexItem =
    | MediaTypeItem(mtTitle: string, mtType: ItemType, mediaKey: string,
                    libraryKey: string, mtLibraryId: string, mtUri: string)
    | AuthorItem(authorTitle: string, authorRatingKey: string, authorLibraryKey: string,
                 authorLibraryId: string, art: string, authorThumb: Option<string>, authorUri: string)
    | BookItem(bookTitle: string, bookRatingKey: string, bookArtistTitle: string,
               bookLibraryId: string, bookThumb: Option<string>, bookUri: string)
    | TrackItem(track: Track)
    | HeaderItem(headerTitle: string)
    | LibraryItem(library: Library)
    | OtherItem(description: string)
}
