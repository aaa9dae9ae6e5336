/**
 * The playback backend contract (local audio or a cast receiver). The model
 * keeps exactly the values the orchestrator reads from a backend and applies
 * only the effects the contract documents; how a concrete backend moves
 * between buffering, playing and completion is the environment's business
 * and enters through Report, Complete and ReportTrack.
 */
module Backend {
  import opened Types

  /** The three signals a backend sends to its callback. */
  datatype Signal = Completion | StatusChanged | CurrentTrackChanged(track: Track)

  class Playback {
    var state: PlaybackState
    var connected: bool
    /** Playing, or supposed to play once audio focus is regained. */
    var playing: bool
    var streamPosition: int
    /** The track being processed in any state, or null. */
    var currentTrack: Option<Track>
    var speed: real
    var hasCallback: bool
    /** The signals sent to the callback, oldest first. */
    var signals: seq<Signal>

    /** A backend as first seen: whatever it reports, no callback yet, nothing sent. */
    constructor (state: PlaybackState, connected: bool, playing: bool, streamPosition: int,
                 currentTrack: Option<Track>, speed: real)
      ensures this.state == state && this.connected == connected && this.playing == playing
      ensures this.streamPosition == streamPosition && this.currentTrack == currentTrack
      ensures this.speed == speed && !hasCallback && signals == []
    {
      this.state := state;
      this.connected := connected;
      this.playing := playing;
      this.streamPosition := streamPosition;
      this.currentTrack := currentTrack;
      this.speed := speed;
      hasCallback := false;
      signals := [];
    }

    /** Sets up the backend; what it allocates is outside the model. */
    method Start()
    {
    }

    /** Stops; the status-changed signal follows only when asked for and a callback is set. */
    method Stop(notifyListeners: bool)
      modifies this
      ensures state == Stopped && !playing
      ensures signals == old(signals) + (if notifyListeners && hasCallback then [StatusChanged] else [])
      ensures connected == old(connected) && streamPosition == old(streamPosition)
      ensures currentTrack == old(currentTrack) && speed == old(speed) && hasCallback == old(hasCallback)
    {
      state := Stopped;
      playing := false;
      if notifyListeners && hasCallback {
        signals := signals + [StatusChanged];
      }
    }

    /** Plays the track at the given speed. */
    method Play(track: Track, speed: real)
      modifies this
      ensures currentTrack == Some(track) && this.speed == speed && playing
      ensures state == old(state) && connected == old(connected) && streamPosition == old(streamPosition)
      ensures hasCallback == old(hasCallback) && signals == old(signals)
    {
      currentTrack := Some(track);
      this.speed := speed;
      playing := true;
    }

    /** Pauses the current track at the given speed. */
    method Pause(speed: real)
      modifies this
      ensures !playing && this.speed == speed
      ensures state == old(state) && connected == old(connected) && streamPosition == old(streamPosition)
      ensures currentTrack == old(currentTrack) && hasCallback == old(hasCallback) && signals == old(signals)
    {
      this.speed := speed;
      playing := false;
    }

    method SeekTo(position: int, speed: real)
      modifies this
      ensures streamPosition == position && this.speed == speed
      ensures state == old(state) && connected == old(connected) && playing == old(playing)
      ensures currentTrack == old(currentTrack) && hasCallback == old(hasCallback) && signals == old(signals)
    {
      streamPosition := position;
      this.speed := speed;
    }

    method SetSpeed(speed: real)
      modifies this`speed
      ensures this.speed == speed
    {
      this.speed := speed;
    }

    /** Adopts a track without starting it; used only when switching backends. */
    method SetCurrentTrack(track: Option<Track>)
      modifies this`currentTrack
      ensures currentTrack == track
    {
      currentTrack := track;
    }

    method SetCallback()
      modifies this`hasCallback
      ensures hasCallback
    {
      hasCallback := true;
    }

    /** Takes a fresh reading of the stream position from the underlying player. */
    method UpdateLastKnownStreamPosition(reading: int)
      modifies this`streamPosition
      ensures streamPosition == reading
    {
      streamPosition := reading;
    }

    /** The backend's own state change, announced to the callback when one is set. */
    method Report(newState: PlaybackState, nowPlaying: bool, nowConnected: bool, position: int)
      modifies this
      ensures state == newState && playing == nowPlaying && connected == nowConnected
      ensures streamPosition == position
      ensures signals == old(signals) + (if hasCallback then [StatusChanged] else [])
      ensures currentTrack == old(currentTrack) && speed == old(speed) && hasCallback == old(hasCallback)
    {
      state, playing, connected, streamPosition := newState, nowPlaying, nowConnected, position;
      if hasCallback {
        signals := signals + [StatusChanged];
      }
    }

    /** The current track has played to its end. */
    method Complete()
      modifies this`signals
      ensures signals == old(signals) + (if hasCallback then [Completion] else [])
    {
      if hasCallback {
        signals := signals + [Completion];
      }
    }

    /** The backend moved on to another track by itself (a cast receiver can). */
    method ReportTrack(track: Track)
      modifies this`currentTrack, this`signals
      ensures currentTrack == Some(track)
      ensures signals == old(signals) + (if hasCallback then [CurrentTrackChanged(track)] else [])
    {
      currentTrack := Some(track);
      if hasCallback {
        signals := signals + [CurrentTrackChanged(track)];
      }
    }
  }
}
