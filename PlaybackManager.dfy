/**
 * The playback orchestrator: it turns media-session requests (play, pause,
 * skip, seek, custom actions) into calls on the queue and on the current
 * backend, answers the backend's callback, rebuilds the session state after
 * every change and can hand playback over to another backend.
 *
 * Every call the orchestrator makes on a backend, on the queue or on the
 * service callback is recorded, in order, in `trace`; the contracts state
 * the trace each request produces.
 */
module Orchestrator {
  import opened Types
  import opened Queue
  import opened Backend

  /** PlaybackStateCompat.PLAYBACK_POSITION_UNKNOWN. */
  const PositionUnknown: int := -1
  /** Beyond this stream position (ms) "previous" restarts the chapter instead. */
  const SkipPreviousThreshold: int := 1500
  /** The skip-back / skip-forward step (ms). */
  const SkipStep: int := 30000
  /** The speed step of the speed action from an Android Auto head unit. */
  const SpeedStep: real := 0.1

  /** The three custom actions, in the order the session state offers them. */
  datatype CustomAction = SkipBack | SkipForward | SpeedControl

  /** The standard actions a session state can advertise. */
  datatype Action = ActionPlayPause | ActionPlayFromMediaId | ActionPlayFromSearch | ActionPause | ActionPlay

  /**
   * What the session is told after a change: the backend's state, its
   * position and speed (or unknown and 1.0 when it is not connected), the
   * available and custom actions, the metadata of the backend's track and
   * the up-next list. Display strings built from the track are left out.
   */
  datatype SessionState = SessionState(
    state: PlaybackState,
    position: int,
    speed: real,
    actions: set<Action>,
    customActions: seq<CustomAction>,
    metadata: Option<Track>,
    upNext: seq<Track>)

  /** A call on a backend. */
  datatype Call =
    | Start
    | Stop(notifyListeners: bool)
    | Play(track: Track, speed: real)
    | Pause(speed: real)
    | SeekTo(position: int, speed: real)
    | SetSpeed(speed: real)
    | SetCurrentTrack(adopted: Option<Track>)
    | SetCallback

  /** One call made by the orchestrator. */
  datatype Event =
    | BackendCall(target: Playback, call: Call)
    | QueueNext
    | QueuePrevious
    | QueueSetPosition(id: int)
    | QueueSetCurrentTrack(track: Track)
    | QueueSetSpeed(speed: real)
    | PlaybackStart
    | PlaybackStartWith(track: Track, speed: real)
    | PlaybackPause
    | PlaybackStop
    | NotificationRequired
    | StateUpdated(session: SessionState)

  /** The extras of a play-from-media-id request; an absent entry is None. */
  datatype PlayExtras = PlayExtras(
    uri: Option<string>,
    key: Option<string>,
    parentKey: Option<string>,
    libraryId: Option<string>,
    speed: Option<real>)

  function OrDefault<T>(o: Option<T>, d: T): T
  {
    if o.Some? then o.value else d
  }

  /** The standard actions: always play/pause and the two play-from requests, and pause or play. */
  function AvailableActions(playing: bool): (r: set<Action>)
    ensures ActionPlayPause in r && ActionPlayFromMediaId in r && ActionPlayFromSearch in r
    ensures ActionPause in r <==> playing
    ensures ActionPlay in r <==> !playing
    ensures forall a :: a in r ==> a != ActionPause || a != ActionPlay
  {
    {ActionPlayPause, ActionPlayFromMediaId, ActionPlayFromSearch} + (if playing then {ActionPause} else {ActionPlay})
  }

  /** The session state built from a backend's readings and the up-next list. */
  function SessionOf(state: PlaybackState, connected: bool, playing: bool, streamPosition: int,
                     speed: real, track: Option<Track>, upNext: seq<Track>): (r: SessionState)
    ensures r.state == state && r.metadata == track && r.upNext == upNext
    ensures connected ==> r.position == streamPosition && r.speed == speed
    ensures !connected ==> r.position == PositionUnknown && r.speed == 1.0
    ensures r.actions == AvailableActions(playing)
    ensures r.customActions == [SkipBack, SkipForward, SpeedControl]
  {
    SessionState(state,
                 if connected then streamPosition else PositionUnknown,
                 if connected then speed else 1.0,
                 AvailableActions(playing),
                 [SkipBack, SkipForward, SpeedControl],
                 track, upNext)
  }

  /** The notification is required exactly in the playing and paused states. */
  predicate NeedsNotification(s: PlaybackState)
  {
    s == Playing || s == Paused
  }

  /** What one state update sends to the service. */
  function StateEvents(s: SessionState): (r: seq<Event>)
    ensures 1 <= |r| <= 2 && r[0] == StateUpdated(s)
    ensures |r| == 2 <==> NeedsNotification(s.state)
    ensures |r| == 2 ==> r[1] == NotificationRequired
  {
    [StateUpdated(s)] + (if NeedsNotification(s.state) then [NotificationRequired] else [])
  }

  /**
   * getQueueList as the client writes it: each up-next entry's icon is
   * `Uri.parse(Uri.decode(thumb))`, which raises on a missing thumb, so the
   * list is built only when every up-next chapter has a thumb, and is then
   * the up-next list itself.
   */
  function QueueListAsWritten(upNext: seq<Track>): (r: Option<seq<Track>>)
    decreases |upNext|
    ensures r.None? <==> exists i :: 0 <= i < |upNext| && upNext[i].thumb.None?
    ensures r.Some? ==> r.value == upNext
  {
    if upNext == [] then Some([])
    else
      assert forall i :: 0 < i < |upNext| ==> upNext[1..][i - 1] == upNext[i];
      if upNext[0].thumb.None? then None
      else match QueueListAsWritten(upNext[1..])
        case None => None
        case Some(rest) => Some([upNext[0]] + rest)
  }

  /**
   * updatePlaybackState as the client writes it: the up-next list is built
   * before onPlaybackStateUpdated is called, so an up-next chapter without a
   * thumb raises and nothing is published, not even the notification.
   */
  function StateEventsAsWritten(s: SessionState): (r: Result<seq<Event>>)
    ensures r.Err? <==> exists i :: 0 <= i < |s.upNext| && s.upNext[i].thumb.None?
    ensures r.Ok? ==> r.value == StateEvents(s)
  {
    match QueueListAsWritten(s.upNext)
    case None => Err(NullUri)
    case Some(upNext) => Ok(StateEvents(s.(upNext := upNext)))
  }

  /** A one-chapter queue whose chapter has no thumb publishes nothing as written. */
  lemma ThumblessUpNextPublishesNothing(state: PlaybackState, t: Track)
    requires t.thumb.None?
    ensures StateEventsAsWritten(SessionOf(state, true, state == Playing, 0, 1.0, Some(t), [t])) == Err(NullUri)
    ensures StateEvents(SessionOf(state, true, state == Playing, 0, 1.0, Some(t), [t]))[0].StateUpdated?
  {
    assert [t][0].thumb.None?;
  }

  /** The calls of a play request: nothing without a current chapter. */
  function PlayEvents(target: Playback, current: Option<Track>, speed: real): (r: seq<Event>)
    ensures current.None? <==> r == []
    ensures current.Some? ==> r == [BackendCall(target, Play(current.value, speed)), PlaybackStart]
  {
    match current
    case None => []
    case Some(t) => [BackendCall(target, Play(t, speed)), PlaybackStart]
  }

  /**
   * handlePlayRequest as the client writes it: currentTrack is `List.get`,
   * which raises on an empty queue, so the null check after it never decides
   * anything.
   */
  function PlayEventsAsWritten(target: Playback, q: seq<Track>, p: int, speed: real): (r: Result<seq<Event>>)
    ensures r.Err? <==> !(0 <= p < |q|)
    ensures r.Ok? ==> r.value == PlayEvents(target, Some(q[p]), speed)
  {
    match ListGet(q, p)
    case Err(e) => Err(e)
    case Ok(t) => Ok([BackendCall(target, Play(t, speed)), PlaybackStart])
  }

  /** A play request on the queue every new session starts with raises instead of doing nothing. */
  lemma PlayOnEmptyQueueRaises(target: Playback, speed: real)
    ensures PlayEventsAsWritten(target, [], 0, speed) == Err(IndexOutOfBounds)
    ensures PlayEvents(target, None, speed) == []
  {
  }

  /** Wherever the queue is not empty, the corrected request does what the written one does. */
  lemma PlayEventsAgreeOnNonEmptyQueue(target: Playback, q: seq<Track>, p: int, speed: real)
    requires ValidPosition(|q|, p) && |q| > 0
    ensures PlayEventsAsWritten(target, q, p, speed) == Ok(PlayEvents(target, Some(q[p]), speed))
  {
  }

  /**
   * The calls of a stop request: stop with notification (which the backend
   * answers at once with a status change when a callback is set), the stop
   * callback, then a state update.
   */
  function StopEvents(target: Playback, hasCallback: bool, s: SessionState): (r: seq<Event>)
    ensures |r| >= 3 && r[0] == BackendCall(target, Stop(true))
    ensures PlaybackStop in r && StateUpdated(s) in r
    ensures s.state == Stopped ==> NotificationRequired !in r
    ensures hasCallback ==> r[1] == StateUpdated(s)
    ensures !hasCallback ==> r[1] == PlaybackStop
  {
    var head := [BackendCall(target, Stop(true))] + (if hasCallback then StateEvents(s) else []);
    var r := head + [PlaybackStop] + StateEvents(s);
    assert r[|head|] == PlaybackStop && r[|head| + 1] == StateUpdated(s);
    r
  }

  /** The states in which a handed-over backend is paused. */
  predicate PausesOnHandOver(s: PlaybackState)
  {
    s == Buffering || s == Connecting || s == Paused
  }

  /**
   * The one call that carries the old backend's state over to the new one
   * after a hand-over, if any.
   */
  function ReplayCall(oldState: PlaybackState, resume: bool, current: Option<Track>, speed: real): (r: Option<Call>)
    ensures r == Some(Pause(speed)) <==> PausesOnHandOver(oldState) || (oldState == Playing && !resume)
    ensures (r.Some? && r.value.Play?) <==> oldState == Playing && resume && current.Some?
    ensures r.Some? && r.value.Play? ==> r.value == Play(current.value, speed)
    ensures r == Some(Stop(true)) <==> oldState == Playing && resume && current.None?
    ensures r.None? <==> !PausesOnHandOver(oldState) && oldState != Playing
  {
    if PausesOnHandOver(oldState) then Some(Pause(speed))
    else if oldState == Playing then
      (if resume && current.Some? then Some(Play(current.value, speed))
       else if !resume then Some(Pause(speed))
       else Some(Stop(true)))
    else None
  }

  /**
   * The replay as the client writes it: in the playing case the current
   * chapter is read with `List.get` before resume is looked at, so on an empty
   * queue the hand-over raises whatever resume says, and the stop that
   * ReplayCall issues for a missing chapter is never reached.
   */
  function ReplayCallAsWritten(oldState: PlaybackState, resume: bool, q: seq<Track>, p: int, speed: real): (r: Result<Option<Call>>)
    ensures r.Err? <==> oldState == Playing && !(0 <= p < |q|)
    ensures r.Ok? && oldState == Playing ==> r.value == ReplayCall(oldState, resume, Some(q[p]), speed)
    ensures r.Ok? && oldState != Playing ==> forall c :: r.value == ReplayCall(oldState, resume, c, speed)
  {
    if oldState == Playing then
      match ListGet(q, p)
      case Err(e) => Err(e)
      case Ok(t) => Ok(if resume then Some(Play(t, speed)) else Some(Pause(speed)))
    else if PausesOnHandOver(oldState) then Ok(Some(Pause(speed)))
    else Ok(None)
  }

  /**
   * Handing over a playing backend with nothing queued raises for both values
   * of resume, where the intended replay stops or pauses the new backend.
   */
  lemma ReplayOnEmptyQueueRaises(speed: real)
    ensures ReplayCallAsWritten(Playing, true, [], 0, speed) == Err(IndexOutOfBounds)
    ensures ReplayCallAsWritten(Playing, false, [], 0, speed) == Err(IndexOutOfBounds)
    ensures ReplayCall(Playing, true, None, speed) == Some(Stop(true))
    ensures ReplayCall(Playing, false, None, speed) == Some(Pause(speed))
  {
  }

  /** Wherever there is a current chapter, the corrected replay is the written one. */
  lemma ReplayAgreesOnNonEmptyQueue(oldState: PlaybackState, resume: bool, q: seq<Track>, p: int, speed: real)
    requires 0 <= p < |q|
    ensures ReplayCallAsWritten(oldState, resume, q, p, speed) == Ok(ReplayCall(oldState, resume, Some(q[p]), speed))
  {
  }

  /** The calls that suspend the old backend and prime the new one, in order. */
  function HandOverEvents(from: Playback, to: Playback, track: Option<Track>, position: int, speed: real): (r: seq<Event>)
    ensures |r| == 5
    ensures r[0] == BackendCall(from, Stop(false))
    ensures r[1] == BackendCall(to, SetCallback)
    ensures r[2] == BackendCall(to, SetCurrentTrack(track))
    ensures r[3] == BackendCall(to, SeekTo(if position > 0 then position else 0, speed))
    ensures r[4] == BackendCall(to, Start)
  {
    [BackendCall(from, Stop(false)), BackendCall(to, SetCallback), BackendCall(to, SetCurrentTrack(track)),
     BackendCall(to, SeekTo(if position > 0 then position else 0, speed)), BackendCall(to, Start)]
  }

  /** Java's `(int)` cast of a `long`: the low 32 bits, read as two's complement. */
  function NarrowToInt(x: int): (r: int)
    ensures -0x8000_0000 <= r < 0x8000_0000
    ensures -0x8000_0000 <= x < 0x8000_0000 ==> r == x
    ensures (x - r) % 0x1_0000_0000 == 0
  {
    var m := x % 0x1_0000_0000;
    if m >= 0x8000_0000 then m - 0x1_0000_0000 else m
  }

  /** The chapter a play-from-media-id request builds from its extras. */
  function TrackFromExtras(extras: PlayExtras, addPathToUrl: (string, string) -> string): (t: Track)
    ensures t.uri == OrDefault(extras.uri, "http://plex.com")
    ensures t.key == OrDefault(extras.key, "1234") && t.parentKey == OrDefault(extras.parentKey, "1234")
    ensures t.libraryId == OrDefault(extras.libraryId, "1234")
    ensures t.queueItemId == 0 && t.viewOffset == 0 && t.viewCount == 1 && t.recent
    ensures t.thumb == Some(addPathToUrl(t.uri, "track.thumb"))
    ensures t.source == addPathToUrl(t.uri, "track.media.part.key")
  {
    var uri := OrDefault(extras.uri, "http://plex.com");
    Track(0, OrDefault(extras.libraryId, "1234"), OrDefault(extras.key, "1234"), "track.ratingKey",
          OrDefault(extras.parentKey, "1234"), "track.title", "track.parentTitle", "track.grandparentTitle",
          0, 0, 0, 1,
          // the literal "track.thumb" is never blank, so the thumb is always set
          Some(addPathToUrl(uri, "track.thumb")),
          addPathToUrl(uri, "track.media.part.key"), uri, true)
  }

  /** The speed after n presses of the speed action on a head unit. */
  function SpeedAfterPresses(v: real, n: nat): real
    decreases n
  {
    if n == 0 then v else SpeedAfterPresses(WrapSpeed(v + SpeedStep), n - 1)
  }

  /** From the slowest speed, presses step through every tenth up to 2.5. */
  lemma {:induction false} SpeedPressesClimb(n: nat)
    requires n <= 20
    ensures SpeedAfterPresses(MinSpeed, n) == MinSpeed + n as real * SpeedStep
  {
    if n > 0 {
      SpeedPressesClimb(n - 1);
      SpeedAfterPressesStep(MinSpeed, n - 1);
    }
  }

  /** One more press after n presses. */
  lemma {:induction false} SpeedAfterPressesStep(v: real, n: nat)
    decreases n
    ensures SpeedAfterPresses(v, n + 1) == WrapSpeed(SpeedAfterPresses(v, n) + SpeedStep)
  {
    if n > 0 {
      SpeedAfterPressesStep(WrapSpeed(v + SpeedStep), n - 1);
    }
  }

  /** The speed action cycles: 21 presses from the slowest speed come back to it. */
  lemma SpeedPressesCycle()
    ensures SpeedAfterPresses(MinSpeed, 20) == MaxSpeed
    ensures SpeedAfterPresses(MinSpeed, 21) == MinSpeed
  {
    SpeedPressesClimb(20);
    SpeedAfterPressesStep(MinSpeed, 20);
  }

  class PlaybackManager {
    const queueManager: QueueManager
    var playback: Playback
    /** Every call made so far, oldest first. */
    var trace: seq<Event>

    ghost predicate Valid()
      reads this, queueManager
    {
      queueManager.Valid()
    }

    /** Installs itself as the backend's callback. */
    constructor (queueManager: QueueManager, playback: Playback)
      requires queueManager.Valid()
      modifies playback`hasCallback
      ensures Valid() && this.queueManager == queueManager && this.playback == playback
      ensures playback.hasCallback
      ensures trace == [BackendCall(playback, SetCallback)]
    {
      this.queueManager := queueManager;
      this.playback := playback;
      trace := [BackendCall(playback, SetCallback)];
      new;
      playback.SetCallback();
    }

    /** The session state updatePlaybackState builds now. */
    function CurrentSession(): SessionState
      reads this, playback, queueManager
      requires Valid()
    {
      SessionOf(playback.state, playback.connected, playback.playing, playback.streamPosition,
                playback.speed, playback.currentTrack, queueManager.UpNext())
    }

    /** Plays the queue's current chapter at the queue's speed; nothing on an empty queue. */
    method HandlePlayRequest()
      requires Valid()
      modifies this`trace, playback
      ensures trace == old(trace) + PlayEvents(playback, queueManager.CurrentTrack(), queueManager.speed)
      ensures queueManager.CurrentTrack().Some? ==>
                playback.currentTrack == queueManager.CurrentTrack() && playback.playing &&
                playback.speed == queueManager.speed
      ensures queueManager.CurrentTrack().None? ==> unchanged(playback)
      ensures playback.state == old(playback.state) && playback.signals == old(playback.signals)
      ensures playback.hasCallback == old(playback.hasCallback)
      ensures playback.streamPosition == old(playback.streamPosition)
    {
      var current := queueManager.CurrentTrack();
      if current.Some? {
        playback.Play(current.value, queueManager.speed);
        trace := trace + [BackendCall(playback, Play(current.value, queueManager.speed)), PlaybackStart];
      }
    }

    /** Hands a chapter built elsewhere to the service; neither the queue nor the backend is touched. */
    method HandlePlayRequestWith(track: Track, speed: real)
      modifies this`trace
      ensures trace == old(trace) + [PlaybackStartWith(track, speed)]
    {
      trace := trace + [PlaybackStartWith(track, speed)];
    }

    /** Pauses only a backend that is playing; otherwise nothing at all happens. */
    method HandlePauseRequest()
      requires Valid()
      modifies this`trace, playback
      ensures old(playback.playing) ==>
                trace == old(trace) + [BackendCall(playback, Pause(queueManager.speed)), PlaybackPause] &&
                !playback.playing && playback.speed == queueManager.speed
      ensures !old(playback.playing) ==> trace == old(trace) && unchanged(playback)
      ensures playback.state == old(playback.state) && playback.currentTrack == old(playback.currentTrack)
    {
      if playback.playing {
        playback.Pause(queueManager.speed);
        trace := trace + [BackendCall(playback, Pause(queueManager.speed)), PlaybackPause];
      }
    }

    /** Stops the backend, tells the service and publishes the stopped state. */
    method HandleStopRequest()
      requires Valid()
      modifies this`trace, playback
      ensures playback.state == Stopped && !playback.playing
      ensures playback.connected == old(playback.connected) && playback.currentTrack == old(playback.currentTrack)
      ensures playback.streamPosition == old(playback.streamPosition) && playback.speed == old(playback.speed)
      ensures playback.hasCallback == old(playback.hasCallback)
      ensures playback.signals == old(playback.signals) + (if playback.hasCallback then [StatusChanged] else [])
      ensures trace == old(trace) + StopEvents(playback, playback.hasCallback, CurrentSession())
    {
      playback.Stop(true);
      trace := trace + [BackendCall(playback, Stop(true))];
      if playback.hasCallback {
        // the backend calls back onPlaybackStatusChanged before stop returns
        UpdatePlaybackState();
      }
      trace := trace + [PlaybackStop];
      UpdatePlaybackState();
    }

    /** Publishes the session state; the notification follows only when playing or paused. */
    method UpdatePlaybackState()
      requires Valid()
      modifies this`trace
      ensures trace == old(trace) + StateEvents(CurrentSession())
    {
      var position := PositionUnknown;
      var speed := 1.0;
      if playback.connected {
        position := playback.streamPosition;
        speed := playback.speed;
      }
      var upNext := GetQueueList();
      var session := SessionState(playback.state, position, speed, AvailableActions(playback.playing),
                                  [SkipBack, SkipForward, SpeedControl], playback.currentTrack, upNext);
      trace := trace + [StateUpdated(session)];
      if playback.state == Playing || playback.state == Paused {
        trace := trace + [NotificationRequired];
      }
    }

    /** The up-next list, copied entry by entry. */
    method GetQueueList() returns (upNext: seq<Track>)
      requires Valid()
      ensures upNext == queueManager.UpNext()
    {
      var source := queueManager.UpNext();
      upNext := [];
      var i := 0;
      while i < |source|
        invariant 0 <= i <= |source|
        invariant upNext == source[..i]
      {
        upNext := upNext + [source[i]];
        i := i + 1;
      }
    }

    /** The backend finished a chapter: play the next one, or stop after the last. */
    method OnCompletion()
      requires Valid()
      modifies this`trace, playback, queueManager`position, queueManager`published
      ensures Valid()
      ensures queueManager.queue == old(queueManager.queue)
      ensures old(queueManager.HasNext()) ==>
                queueManager.position == old(queueManager.position) + 1 &&
                queueManager.CurrentTrack() == Some(queueManager.queue[old(queueManager.position) + 1]) &&
                trace == old(trace) + [QueueNext] + PlayEvents(playback, queueManager.CurrentTrack(), queueManager.speed) &&
                playback.playing && playback.currentTrack == queueManager.CurrentTrack()
      ensures !old(queueManager.HasNext()) ==>
                queueManager.position == old(queueManager.position) &&
                queueManager.published == old(queueManager.published) &&
                playback.state == Stopped && !playback.playing &&
                trace == old(trace) + StopEvents(playback, playback.hasCallback, CurrentSession())
    {
      if queueManager.HasNext() {
        queueManager.Next();
        trace := trace + [QueueNext];
        HandlePlayRequest();
      } else {
        HandleStopRequest();
      }
    }

    /** The backend's status changed. */
    method OnPlaybackStatusChanged()
      requires Valid()
      modifies this`trace
      ensures trace == old(trace) + StateEvents(CurrentSession())
    {
      UpdatePlaybackState();
    }

    /** The backend reports the chapter it is on; the queue follows it. */
    method SetCurrentTrack(track: Track)
      requires Valid()
      modifies this`trace, queueManager`queue, queueManager`position, queueManager`published
      ensures Valid()
      ensures trace == old(trace) + [QueueSetCurrentTrack(track)]
      ensures queueManager.CurrentTrack().Some? && queueManager.CurrentTrack().value.queueItemId == track.queueItemId
      ensures track !in old(queueManager.queue) || UniqueIds(old(queueManager.queue)) ==>
                queueManager.CurrentTrack() == Some(track)
    {
      queueManager.SetCurrentTrack(track);
      trace := trace + [QueueSetCurrentTrack(track)];
    }

    /**
     * Hands playback over to another backend: the old one is stopped
     * silently, the new one gets the callback, the track and the position
     * (never negative) before it starts, and then the old state is replayed
     * on it.
     */
    method SwitchToPlayback(newPlayback: Playback, resumePlaying: bool)
      requires Valid()
      modifies this`playback, this`trace, playback, newPlayback
      ensures Valid() && playback == newPlayback && newPlayback.hasCallback
      ensures old(playback).state == (if old(playback) == newPlayback then newPlayback.state else Stopped)
      ensures var replay := ReplayCall(old(playback.state), resumePlaying, queueManager.CurrentTrack(), queueManager.speed);
              newPlayback.currentTrack == if replay.Some? && replay.value.Play? then queueManager.CurrentTrack()
                                          else old(playback.currentTrack)
      ensures newPlayback.streamPosition == if old(playback.streamPosition) > 0 then old(playback.streamPosition) else 0
      ensures var replay := ReplayCall(old(playback.state), resumePlaying, queueManager.CurrentTrack(), queueManager.speed);
              trace == old(trace)
                       + HandOverEvents(old(playback), newPlayback, old(playback.currentTrack),
                                        old(playback.streamPosition), queueManager.speed)
                       + (if replay.Some? then [BackendCall(newPlayback, replay.value)] else [])
                       + (if replay == Some(Stop(true)) then StateEvents(CurrentSession()) else [])
    {
      var oldState := playback.state;
      var position := playback.streamPosition;
      var currentMediaId := playback.currentTrack;
      var oldPlayback := playback;
      playback.Stop(false);
      newPlayback.SetCallback();
      newPlayback.SetCurrentTrack(currentMediaId);
      var start := if position > 0 then position else 0;
      newPlayback.SeekTo(start, queueManager.speed);
      newPlayback.Start();
      trace := trace + [BackendCall(oldPlayback, Stop(false)), BackendCall(newPlayback, SetCallback),
                        BackendCall(newPlayback, Call.SetCurrentTrack(currentMediaId)),
                        BackendCall(newPlayback, SeekTo(start, queueManager.speed)),
                        BackendCall(newPlayback, Start)];
      playback := newPlayback;
      ReplayOnNewBackend(oldState, resumePlaying);
    }

    /**
     * The second half of the hand-over: the new backend pauses, plays the
     * queue's current chapter or stops, according to the state the old one
     * was in.
     */
    method ReplayOnNewBackend(oldState: PlaybackState, resumePlaying: bool)
      requires Valid() && playback.hasCallback
      modifies this`trace, playback
      ensures playback.hasCallback && playback.streamPosition == old(playback.streamPosition)
      ensures var replay := ReplayCall(oldState, resumePlaying, queueManager.CurrentTrack(), queueManager.speed);
              playback.currentTrack == if replay.Some? && replay.value.Play? then queueManager.CurrentTrack()
                                       else old(playback.currentTrack)
      ensures var replay := ReplayCall(oldState, resumePlaying, queueManager.CurrentTrack(), queueManager.speed);
              trace == old(trace)
                       + (if replay.Some? then [BackendCall(playback, replay.value)] else [])
                       + (if replay == Some(Stop(true)) then StateEvents(CurrentSession()) else [])
    {
      if oldState == Buffering || oldState == Connecting || oldState == Paused {
        playback.Pause(queueManager.speed);
        trace := trace + [BackendCall(playback, Pause(queueManager.speed))];
      } else if oldState == Playing {
        var currentQueueItem := queueManager.CurrentTrack();
        if resumePlaying && currentQueueItem.Some? {
          playback.Play(currentQueueItem.value, queueManager.speed);
          trace := trace + [BackendCall(playback, Play(currentQueueItem.value, queueManager.speed))];
        } else if !resumePlaying {
          playback.Pause(queueManager.speed);
          trace := trace + [BackendCall(playback, Pause(queueManager.speed))];
        } else {
          playback.Stop(true);
          trace := trace + [BackendCall(playback, Stop(true))];
          // the new backend has this callback and answers the stop at once
          UpdatePlaybackState();
        }
      }
    }

    /** Session request: play. */
    method OnPlay()
      requires Valid()
      modifies this`trace, playback
      ensures trace == old(trace) + PlayEvents(playback, queueManager.CurrentTrack(), queueManager.speed)
      ensures queueManager.CurrentTrack().Some? ==>
                playback.currentTrack == queueManager.CurrentTrack() && playback.playing
      ensures queueManager.CurrentTrack().None? ==> unchanged(playback)
    {
      HandlePlayRequest();
    }

    /**
     * Session request: play a chapter given by media id. The chapter is
     * built from the extras and handed to the service; the queue and the
     * backend are not involved.
     */
    method OnPlayFromMediaId(mediaId: string, extras: PlayExtras, addPathToUrl: (string, string) -> string)
      modifies this`trace
      ensures trace == old(trace) + [PlaybackStartWith(TrackFromExtras(extras, addPathToUrl), OrDefault(extras.speed, 1.0))]
    {
      var track := TrackFromExtras(extras, addPathToUrl);
      HandlePlayRequestWith(track, OrDefault(extras.speed, 1.0));
    }

    /** Session request: jump to the queue entry with the given id and play it. */
    method OnSkipToQueueItem(id: int)
      requires Valid()
      modifies this`trace, playback, queueManager`position, queueManager`published
      ensures Valid()
      ensures queueManager.position == PositionFromQueueItem(queueManager.queue, id)
      ensures trace == old(trace) + [QueueSetPosition(id)]
                       + PlayEvents(playback, queueManager.CurrentTrack(), queueManager.speed)
    {
      queueManager.SetQueuePosition(id);
      trace := trace + [QueueSetPosition(id)];
      HandlePlayRequest();
    }

    /** Session request: pause. */
    method OnPause()
      requires Valid()
      modifies this`trace, playback
      ensures old(playback.playing) ==>
                trace == old(trace) + [BackendCall(playback, Pause(queueManager.speed)), PlaybackPause]
      ensures !old(playback.playing) ==> trace == old(trace) && unchanged(playback)
    {
      HandlePauseRequest();
    }

    /** Session request: next chapter (the last one is played again when there is none). */
    method OnSkipToNext()
      requires Valid()
      modifies this`trace, playback, queueManager`position, queueManager`published
      ensures Valid()
      ensures queueManager.position == NextPosition(old(queueManager.position), |queueManager.queue|)
      ensures trace == old(trace) + [QueueNext] + PlayEvents(playback, queueManager.CurrentTrack(), queueManager.speed)
    {
      queueManager.Next();
      trace := trace + [QueueNext];
      HandlePlayRequest();
    }

    /**
     * Session request: previous. Past the first 1.5 seconds of a chapter it
     * restarts the chapter; otherwise it steps back and plays.
     */
    method OnSkipToPrevious()
      requires Valid()
      modifies this`trace, playback, queueManager`position, queueManager`published
      ensures Valid()
      ensures old(playback.streamPosition) > SkipPreviousThreshold ==>
                queueManager.position == old(queueManager.position) &&
                queueManager.published == old(queueManager.published) &&
                playback.streamPosition == 0 &&
                trace == old(trace) + [BackendCall(playback, SeekTo(0, queueManager.speed))]
      ensures old(playback.streamPosition) <= SkipPreviousThreshold ==>
                queueManager.position == PreviousPosition(old(queueManager.position)) &&
                trace == old(trace) + [QueuePrevious] + PlayEvents(playback, queueManager.CurrentTrack(), queueManager.speed)
    {
      if playback.streamPosition > 1500 {
        playback.SeekTo(0, queueManager.speed);
        trace := trace + [BackendCall(playback, SeekTo(0, queueManager.speed))];
        return;
      }
      queueManager.Previous();
      trace := trace + [QueuePrevious];
      HandlePlayRequest();
    }

    /** Session request: stop. */
    method OnStop()
      requires Valid()
      modifies this`trace, playback
      ensures playback.state == Stopped && !playback.playing
      ensures trace == old(trace) + StopEvents(playback, playback.hasCallback, CurrentSession())
    {
      HandleStopRequest();
    }

    /** Session request: seek; the position goes through an `int` cast on the way. */
    method OnSeekTo(position: int)
      requires Valid()
      modifies this`trace, playback
      ensures playback.streamPosition == NarrowToInt(position) && playback.speed == queueManager.speed
      ensures trace == old(trace) + [BackendCall(playback, SeekTo(NarrowToInt(position), queueManager.speed))]
      ensures playback.state == old(playback.state) && playback.playing == old(playback.playing)
      ensures playback.currentTrack == old(playback.currentTrack)
    {
      playback.SeekTo(NarrowToInt(position), queueManager.speed);
      trace := trace + [BackendCall(playback, SeekTo(NarrowToInt(position), queueManager.speed))];
    }

    /**
     * Session request: a custom action (None for an action name the
     * client does not know). Speed from the phone applies the queue's
     * speed; speed from a head unit (`auto`, true when absent) first
     * steps the queue's speed up by a tenth. Skip back and forward seek
     * 30 seconds from the current position.
     */
    method OnCustomAction(action: Option<CustomAction>, auto: Option<bool>)
      requires Valid()
      modifies this`trace, playback, queueManager`speed
      ensures Valid()
      ensures action == Some(SpeedControl) && !OrDefault(auto, true) ==>
                queueManager.speed == old(queueManager.speed) && playback.speed == queueManager.speed &&
                trace == old(trace) + [BackendCall(playback, SetSpeed(queueManager.speed))]
      ensures action == Some(SpeedControl) && OrDefault(auto, true) ==>
                queueManager.speed == WrapSpeed(old(queueManager.speed) + SpeedStep) &&
                playback.speed == queueManager.speed &&
                trace == old(trace) + [QueueSetSpeed(old(queueManager.speed) + SpeedStep),
                                       BackendCall(playback, SetSpeed(queueManager.speed))]
      ensures action == Some(SkipBack) ==>
                queueManager.speed == old(queueManager.speed) &&
                playback.streamPosition == NarrowToInt(old(playback.streamPosition) - SkipStep) &&
                trace == old(trace) + [BackendCall(playback, SeekTo(playback.streamPosition, queueManager.speed))]
      ensures action == Some(SkipForward) ==>
                queueManager.speed == old(queueManager.speed) &&
                playback.streamPosition == NarrowToInt(old(playback.streamPosition) + SkipStep) &&
                trace == old(trace) + [BackendCall(playback, SeekTo(playback.streamPosition, queueManager.speed))]
      ensures action.None? ==> trace == old(trace) && unchanged(playback) && queueManager.speed == old(queueManager.speed)
    {
      if action == Some(SpeedControl) {
        if !OrDefault(auto, true) {
          playback.SetSpeed(queueManager.speed);
          trace := trace + [BackendCall(playback, SetSpeed(queueManager.speed))];
        } else {
          var stepped := queueManager.speed + SpeedStep;
          queueManager.SetSpeed(stepped);
          trace := trace + [QueueSetSpeed(stepped)];
          playback.SetSpeed(queueManager.speed);
          trace := trace + [BackendCall(playback, SetSpeed(queueManager.speed))];
        }
      }
      if action == Some(SkipBack) {
        OnSeekTo(playback.streamPosition - SkipStep);
      }
      if action == Some(SkipForward) {
        OnSeekTo(playback.streamPosition + SkipStep);
      }
    }
  }
}
