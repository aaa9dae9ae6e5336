/**
 * The local catalog: chapters stored in the chapter table, turned back into
 * chapters and list items, and the listen-status writes (scrobble marks a
 * chapter heard, unscrobble marks it unheard).
 */
module LocalRepository {
  import opened Types
  import opened TrackStore

  /** trackToTrackEntity: every field copied, the rating key becoming the primary key. */
  function TrackToEntity(t: Track): TrackEntity
  {
    TrackEntity(t.ratingKey, t.libraryId, t.key, t.parentKey, t.title, t.albumTitle, t.artistTitle,
                t.thumb, t.source, t.uri, t.index, t.recent, t.duration, t.viewCount, t.viewOffset,
                t.queueItemId)
  }

  /** trackEntityToTrack for one row. */
  function EntityToTrack(e: TrackEntity): Track
  {
    Track(e.queueItemId, e.libraryId, e.key, e.ratingKey, e.parentKey, e.title, e.albumTitle,
          e.artistTitle, e.index, e.duration, e.viewOffset, e.viewCount, e.thumb, e.source, e.uri,
          e.recent)
  }

  /** trackEntityToItem for one row: the chapter, marked recent when asked to or when stored so. */
  function EntityToItem(e: TrackEntity, markRecent: bool): (r: PlexItem)
    ensures r.TrackItem?
    ensures r.track.recent == (markRecent || e.recent)
    ensures r.track.(recent := e.recent) == EntityToTrack(e)
  {
    TrackItem(EntityToTrack(e).(recent := markRecent || e.recent))
  }

  /** Storing a chapter and reading it back gives the same chapter. */
  lemma TrackRoundTrip(t: Track)
    ensures EntityToTrack(TrackToEntity(t)) == t
    ensures TrackToEntity(t).ratingKey == t.ratingKey
  {
  }

  /** Reading a row as a chapter and storing it again gives the same row. */
  lemma EntityRoundTrip(e: TrackEntity)
    ensures TrackToEntity(EntityToTrack(e)) == e
  {
  }

  /** Two chapters with the same row are the same chapter. */
  lemma TrackToEntityInjective(a: Track, b: Track)
    requires TrackToEntity(a) == TrackToEntity(b)
    ensures a == b
  {
    TrackRoundTrip(a);
    TrackRoundTrip(b);
  }

  /** The row scrobble writes: no offset, one more full listen, everything else copied. */
  function ScrobbledEntity(t: Track): (e: TrackEntity)
    ensures EntityToTrack(e) == t.(viewOffset := 0, viewCount := t.viewCount + 1)
  {
    var update := TrackToEntity(t);
    update.(viewOffset := 0).(viewCount := update.viewCount + 1)
  }

  /** The row unscrobble writes: no offset, no listens, everything else copied. */
  function UnscrobbledEntity(t: Track): (e: TrackEntity)
    ensures EntityToTrack(e) == t.(viewOffset := 0, viewCount := 0)
  {
    TrackToEntity(t).(viewOffset := 0).(viewCount := 0)
  }

  /** The entity-to-item loop of trackEntityToItem. */
  method EntitiesToItems(rows: seq<TrackEntity>, markRecent: bool) returns (out: seq<PlexItem>)
    ensures |out| == |rows|
    ensures forall i :: 0 <= i < |rows| ==> out[i] == EntityToItem(rows[i], markRecent)
  {
    out := [];
    for i := 0 to |rows|
      invariant |out| == i
      invariant forall j :: 0 <= j < i ==> out[j] == EntityToItem(rows[j], markRecent)
    {
      out := out + [EntityToItem(rows[i], markRecent)];
    }
  }

  /** The entity-to-chapter loop of trackEntityToTrack. */
  method EntitiesToTracks(rows: seq<TrackEntity>) returns (out: seq<Track>)
    ensures |out| == |rows|
    ensures forall i :: 0 <= i < |rows| ==> out[i] == EntityToTrack(rows[i])
  {
    out := [];
    for i := 0 to |rows|
      invariant |out| == i
      invariant forall j :: 0 <= j < i ==> out[j] == EntityToTrack(rows[j])
    {
      out := out + [EntityToTrack(rows[i])];
    }
  }

  /** The mapping loop of addTracks. */
  method TracksToEntities(tracks: seq<Track>) returns (out: seq<TrackEntity>)
    ensures |out| == |tracks|
    ensures forall i :: 0 <= i < |tracks| ==> out[i] == TrackToEntity(tracks[i])
  {
    out := [];
    for i := 0 to |tracks|
      invariant |out| == i
      invariant forall j :: 0 <= j < i ==> out[j] == TrackToEntity(tracks[j])
    {
      out := out + [TrackToEntity(tracks[i])];
    }
  }

  class LocalMusicRepository {
    const table: TrackTable

    ghost predicate Valid()
      reads this, table
    {
      table.Valid()
    }

    constructor (table: TrackTable)
      ensures this.table == table
    {
      this.table := table;
    }

    /** The library's chapters with progress, as items marked recent. */
    method ChaptersInProgress(lib: Library) returns (items: seq<PlexItem>)
      requires Valid()
      ensures forall x :: x in items <==>
                exists e :: e in table.rows.Values && e.viewOffset > 0 && e.libraryId == lib.key &&
                            x == EntityToItem(e, true)
    {
      var rows := table.GetTracksInProgress(lib.key);
      items := EntitiesToItems(rows, true);
      forall x | x in items
        ensures exists e :: e in table.rows.Values && e.viewOffset > 0 && e.libraryId == lib.key &&
                            x == EntityToItem(e, true)
      {
        var i :| 0 <= i < |items| && items[i] == x;
        assert rows[i] in rows;
      }
      forall e | e in table.rows.Values && e.viewOffset > 0 && e.libraryId == lib.key
        ensures EntityToItem(e, true) in items
      {
        var i :| 0 <= i < |rows| && rows[i] == e;
        assert items[i] == EntityToItem(e, true);
      }
    }

    /** The local library view is the chapters in progress. */
    method BrowseLibrary(lib: Library) returns (items: seq<PlexItem>)
      requires Valid()
      ensures forall x :: x in items <==>
                exists e :: e in table.rows.Values && e.viewOffset > 0 && e.libraryId == lib.key &&
                            x == EntityToItem(e, true)
    {
      items := ChaptersInProgress(lib);
    }

    /** The stored chapters of a book, as items keeping their own recent mark. */
    method AlbumItems(libraryId: string, albumTitle: string) returns (items: seq<PlexItem>)
      requires Valid()
      ensures forall x :: x in items <==>
                exists e :: e in table.rows.Values && e.libraryId == libraryId && e.albumTitle == albumTitle &&
                            x == EntityToItem(e, false)
    {
      var rows := table.GetTracksForAlbum(libraryId, albumTitle);
      items := EntitiesToItems(rows, false);
      forall x | x in items
        ensures exists e :: e in table.rows.Values && e.libraryId == libraryId && e.albumTitle == albumTitle &&
                            x == EntityToItem(e, false)
      {
        var i :| 0 <= i < |items| && items[i] == x;
        assert rows[i] in rows;
      }
      forall e | e in table.rows.Values && e.libraryId == libraryId && e.albumTitle == albumTitle
        ensures EntityToItem(e, false) in items
      {
        var i :| 0 <= i < |rows| && rows[i] == e;
        assert items[i] == EntityToItem(e, false);
      }
    }

    /**
     * A play queue of the stored chapters of the chapter's book, with the
     * chapter's own queue-item id as the one to select.
     */
    method CreatePlayQueue(t: Track) returns (tracks: seq<Track>, selected: int)
      requires Valid()
      ensures selected == t.queueItemId
      ensures forall x :: x in tracks <==>
                exists e :: e in table.rows.Values && e.libraryId == t.libraryId && e.albumTitle == t.albumTitle &&
                            x == EntityToTrack(e)
    {
      var rows := table.GetTracksForAlbum(t.libraryId, t.albumTitle);
      tracks := EntitiesToTracks(rows);
      selected := t.queueItemId;
      forall x | x in tracks
        ensures exists e :: e in table.rows.Values && e.libraryId == t.libraryId && e.albumTitle == t.albumTitle &&
                            x == EntityToTrack(e)
      {
        var i :| 0 <= i < |tracks| && tracks[i] == x;
        assert rows[i] in rows;
      }
      forall e | e in table.rows.Values && e.libraryId == t.libraryId && e.albumTitle == t.albumTitle
        ensures EntityToTrack(e) in tracks
      {
        var i :| 0 <= i < |rows| && rows[i] == e;
        assert tracks[i] == EntityToTrack(e);
      }
    }

    /** Marks the stored chapter as heard; a chapter not in the table stays absent. */
    method Scrobble(t: Track)
      requires Valid()
      modifies table
      ensures Valid()
      ensures t.ratingKey in old(table.rows) ==> table.rows == old(table.rows)[t.ratingKey := ScrobbledEntity(t)]
      ensures t.ratingKey !in old(table.rows) ==> table.rows == old(table.rows)
    {
      var update := TrackToEntity(t);
      update := update.(viewOffset := 0);
      update := update.(viewCount := update.viewCount + 1);
      table.UpdateTrack(update);
    }

    /** Marks the stored chapter as unheard; a chapter not in the table stays absent. */
    method Unscrobble(t: Track)
      requires Valid()
      modifies table
      ensures Valid()
      ensures t.ratingKey in old(table.rows) ==> table.rows == old(table.rows)[t.ratingKey := UnscrobbledEntity(t)]
      ensures t.ratingKey !in old(table.rows) ==> table.rows == old(table.rows)
    {
      var update := TrackToEntity(t);
      update := update.(viewOffset := 0);
      update := update.(viewCount := 0);
      table.UpdateTrack(update);
    }

    /** Stores the chapters, each replacing a stored chapter with its rating key. */
    method AddTracks(tracks: seq<Track>)
      requires Valid()
      modifies table
      ensures Valid()
      ensures exists batch :: |batch| == |tracks| &&
                (forall i :: 0 <= i < |tracks| ==> batch[i] == TrackToEntity(tracks[i])) &&
                table.rows == UpsertAll(old(table.rows), batch)
    {
      var batch := TracksToEntities(tracks);
      table.AddTracks(batch);
    }
  }
}
