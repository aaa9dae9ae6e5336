/**
 * The listen-status icon of a chapter row and what a click on a row does.
 * Binding a chapter tags its status icon as partly heard, fully heard or
 * not heard; a click on the row opens it, and a click on the icon marks the
 * chapter finished or unstarted according to the tag.
 */
module ListenStatus {
  import opened Types
  import opened LocalRepository

  /** The three tags of the status icon. */
  datatype Tag = TagNone | TagPartial | TagFull

  /** The string each tag is stored as on the view. */
  function TagString(t: Tag): string
  {
    match t
    case TagNone => "none"
    case TagPartial => "partial"
    case TagFull => "full"
  }

  /**
   * The tag a chapter row binds: partly heard whenever there is an offset,
   * otherwise heard when it was played through at least once, otherwise not
   * heard. Chapter rows and recent-chapter rows bind the same tag.
   */
  function TrackTag(t: Track): (r: Tag)
    ensures r == TagPartial <==> t.viewOffset != 0
    ensures r == TagFull <==> t.viewOffset == 0 && t.viewCount != 0
    ensures r == TagNone <==> t.viewOffset == 0 && t.viewCount == 0
  {
    if t.viewOffset != 0 then TagPartial
    else if t.viewCount != 0 then TagFull
    else TagNone
  }

  /** The listener call a click makes. */
  datatype Callback =
    | Open(position: int)
    | MarkFinished(position: int)
    | MarkUnstarted(position: int)

  /**
   * onClick: a row not bound to a position, or without a listener, does
   * nothing; an untagged view opens the row; a tagged icon marks the chapter
   * finished when partly or not heard, unstarted when fully heard, and an
   * unknown tag does nothing.
   */
  function OnClick(position: int, hasListener: bool, tag: Option<string>): (r: Option<Callback>)
    ensures position < 0 || !hasListener ==> r.None?
    ensures position >= 0 && hasListener && tag.None? ==> r == Some(Open(position))
    ensures position >= 0 && hasListener && tag.Some? ==>
              (r == Some(MarkFinished(position)) <==> tag.value == "partial" || tag.value == "none") &&
              (r == Some(MarkUnstarted(position)) <==> tag.value == "full") &&
              (r.None? <==> tag.value != "partial" && tag.value != "none" && tag.value != "full")
  {
    if position >= 0 && hasListener then
      match tag
      case None => Some(Open(position))
      case Some(s) =>
        if s == "partial" || s == "none" then Some(MarkFinished(position))
        else if s == "full" then Some(MarkUnstarted(position))
        else None
    else None
  }

  /**
   * A click on a bound status icon always calls the listener, marking a
   * fully heard chapter unstarted and any other chapter finished.
   */
  lemma IconClickToggles(t: Track, position: int)
    requires position >= 0
    ensures TrackTag(t) == TagFull ==> OnClick(position, true, Some(TagString(TrackTag(t)))) == Some(MarkUnstarted(position))
    ensures TrackTag(t) != TagFull ==> OnClick(position, true, Some(TagString(TrackTag(t)))) == Some(MarkFinished(position))
  {
  }

  /**
   * A chapter written back by scrobble shows as fully heard and one written
   * back by unscrobble as not heard, so the icon's next click undoes the
   * last one.
   */
  lemma ScrobbleShowsStatus(t: Track)
    requires t.viewCount >= 0
    ensures TrackTag(EntityToTrack(ScrobbledEntity(t))) == TagFull
    ensures TrackTag(EntityToTrack(UnscrobbledEntity(t))) == TagNone
  {
  }

  /**
   * Whichever the status, marking by the icon and rebinding leads to the
   * opposite click: a finished chapter's icon next marks it unstarted, an
   * unstarted one's next marks it finished.
   */
  lemma MarkThenRebind(t: Track, position: int)
    requires t.viewCount >= 0 && position >= 0
    ensures var heard := EntityToTrack(ScrobbledEntity(t));
            OnClick(position, true, Some(TagString(TrackTag(heard)))) == Some(MarkUnstarted(position))
    ensures var unheard := EntityToTrack(UnscrobbledEntity(t));
            OnClick(position, true, Some(TagString(TrackTag(unheard)))) == Some(MarkFinished(position))
  {
    ScrobbleShowsStatus(t);
    IconClickToggles(EntityToTrack(ScrobbledEntity(t)), position);
    IconClickToggles(EntityToTrack(UnscrobbledEntity(t)), position);
  }
}
