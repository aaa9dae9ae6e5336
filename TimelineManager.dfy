/**
 * Progress reporting to the server. Three inputs are combined: the
 * session's playback state (only playing, paused and stopped pass), the
 * queue's current chapter (only a position inside the list passes) and the
 * playback progress (only a sample more than ten seconds past the last
 * reported time, or behind it, passes). Once each input has passed at least
 * once, every further passing value triggers a report built from the latest
 * of the three: the progress is persisted, the chapter is remembered as the
 * one to restore, a timeline request goes to the server and the chapter is
 * stored locally with the reported time as its offset.
 */
module Timeline {
  import opened Types

  /** Progress closer than this (ms) ahead of the last reported time is not reported. */
  const ReportInterval: int := 10000

  /** The progress filter: far enough ahead of the watermark, or behind it. */
  predicate Admit(progress: int, watermark: int)
  {
    progress - watermark > ReportInterval || progress < watermark
  }

  /** The state names the server receives; the other states do not pass. */
  function TimelineState(s: PlaybackState): (r: Option<string>)
    ensures r.Some? <==> s == Playing || s == Paused || s == Stopped
    ensures s == Playing ==> r == Some("playing")
    ensures s == Paused ==> r == Some("paused")
    ensures s == Stopped ==> r == Some("stopped")
  {
    if s == Playing then Some("playing")
    else if s == Paused then Some("paused")
    else if s == Stopped then Some("stopped")
    else None
  }

  /** The chapter filter on a (queue, position) pair. */
  function CurrentOf(q: seq<Track>, position: nat): (r: Option<Track>)
    ensures r.Some? <==> position < |q|
    ensures r.Some? ==> r.value == q[position]
  {
    if position < |q| then Some(q[position]) else None
  }

  /** One timeline request. */
  datatype Report = Report(uri: string, queueItemId: int, key: string, ratingKey: string,
                           state: string, duration: int, time: int)

  /** The values kept in the shared preferences for restoring playback. */
  datatype Preferences = Preferences(progress: Option<int>, uri: Option<string>, key: Option<string>,
                                     parentKey: Option<string>, libraryId: Option<string>)

  /**
   * The progress samples that are reported, in order, when the other two
   * inputs are present: each admitted sample becomes the new watermark.
   */
  function Admitted(samples: seq<int>, watermark: int): seq<int>
    decreases |samples|
  {
    if samples == [] then []
    else if Admit(samples[0], watermark) then [samples[0]] + Admitted(samples[1..], samples[0])
    else Admitted(samples[1..], watermark)
  }

  /**
   * Every reported sample passes the filter against the one reported before
   * it (the first against the starting watermark): reports going forward are
   * more than ten seconds of progress apart, and any step backwards is
   * reported.
   */
  lemma {:induction false} AdmittedSpaced(samples: seq<int>, watermark: int)
    decreases |samples|
    ensures var r := Admitted(samples, watermark);
            (|r| > 0 ==> Admit(r[0], watermark)) &&
            forall i :: 0 <= i < |r| - 1 ==> Admit(r[i + 1], r[i])
  {
    if samples != [] {
      AdmittedSpaced(samples[1..], if Admit(samples[0], watermark) then samples[0] else watermark);
    }
  }

  /** r is s with some entries left out, the rest kept in order. */
  ghost predicate IsSubsequence(r: seq<int>, s: seq<int>)
    decreases |s|
  {
    if r == [] then true
    else if s == [] then false
    else (r[0] == s[0] && IsSubsequence(r[1..], s[1..])) || IsSubsequence(r, s[1..])
  }

  /**
   * The reports are the samples with the filtered ones left out, in sample
   * order and with their multiplicity; so every report is one of the samples,
   * and there are no more reports than samples.
   */
  lemma {:induction false} AdmittedSubsequence(samples: seq<int>, watermark: int)
    decreases |samples|
    ensures IsSubsequence(Admitted(samples, watermark), samples)
    ensures |Admitted(samples, watermark)| <= |samples|
    ensures forall x :: x in Admitted(samples, watermark) ==> x in samples
  {
    if samples != [] {
      var r := Admitted(samples, watermark);
      if Admit(samples[0], watermark) {
        var rest := Admitted(samples[1..], samples[0]);
        AdmittedSubsequence(samples[1..], samples[0]);
        assert r == [samples[0]] + rest;
        assert r[0] == samples[0] && r[1..] == rest;
      } else {
        AdmittedSubsequence(samples[1..], watermark);
        assert r == Admitted(samples[1..], watermark);
      }
    }
  }

  /**
   * From a fresh watermark, a sample at 0 is not reported (it is neither
   * ahead nor behind), 21 s is, and a later 3 s is reported because it went
   * backwards.
   */
  lemma AdmissionExample()
    ensures Admitted([0, 21000, 3000], 0) == [21000, 3000]
    ensures Admitted([5000, 10000, 10001], 0) == [10001]
  {
  }

  class TimelineManager {
    /** The last reported time (the watermark of the progress filter). */
    var watermark: int
    /** Whether the combined subscription is live. */
    var active: bool
    var latestState: Option<string>
    var latestTrack: Option<Track>
    var latestProgress: Option<int>
    var preferences: Preferences
    /** Every timeline request sent, oldest first. */
    var reports: seq<Report>
    /** Every chapter handed to the local store, oldest first. */
    var stored: seq<Track>

    /** Built idle: nothing is reported before the first reset. */
    constructor (preferences: Preferences)
      ensures watermark == 0 && !active
      ensures latestState.None? && latestTrack.None? && latestProgress.None?
      ensures this.preferences == preferences && reports == [] && stored == []
    {
      watermark := 0;
      active := false;
      latestState, latestTrack, latestProgress := None, None, None;
      this.preferences := preferences;
      reports, stored := [], [];
    }

    /** Drops the subscription. */
    method Stop()
      modifies this`active
      ensures !active
    {
      active := false;
    }

    /**
     * Clears the watermark and subscribes afresh; the queue relay hands the
     * new subscription its current value at once.
     */
    method Reset(queue: seq<Track>, position: nat)
      modifies this
      ensures active
      ensures latestState.None? && latestProgress.None?
      ensures latestTrack == CurrentOf(queue, position)
      ensures watermark == 0 && preferences == old(preferences)
      ensures reports == old(reports) && stored == old(stored)
    {
      watermark := 0;
      Stop();
      latestState, latestTrack, latestProgress := None, None, None;
      active := true;
      OnQueue(queue, position);
    }

    /** A playback state from the session. */
    method OnState(s: PlaybackState)
      modifies this
      ensures !old(active) || TimelineState(s).None? ==> Unchanged()
      ensures old(active) && TimelineState(s).Some? ==>
                latestState == TimelineState(s) && Emitted(old(reports), old(stored))
      ensures latestTrack == old(latestTrack) && latestProgress == old(latestProgress)
      ensures !Complete() ==> watermark == old(watermark) && preferences == old(preferences)
    {
      var name := TimelineState(s);
      if active && name.Some? {
        latestState := name;
        Emit();
      }
    }

    /** A (queue, position) pair from the queue relay. */
    method OnQueue(queue: seq<Track>, position: nat)
      modifies this
      ensures !old(active) || position >= |queue| ==> Unchanged()
      ensures old(active) && position < |queue| ==>
                latestTrack == Some(queue[position]) && Emitted(old(reports), old(stored))
      ensures latestState == old(latestState) && latestProgress == old(latestProgress)
      ensures !Complete() ==> watermark == old(watermark) && preferences == old(preferences)
    {
      if active && position < |queue| {
        latestTrack := Some(queue[position]);
        Emit();
      }
    }

    /** A progress sample from the session. */
    method OnProgress(progress: int)
      modifies this
      ensures !old(active) || !Admit(progress, old(watermark)) ==> Unchanged()
      ensures old(active) && Admit(progress, old(watermark)) ==>
                latestProgress == Some(progress) && Emitted(old(reports), old(stored))
      ensures latestState == old(latestState) && latestTrack == old(latestTrack)
      ensures !Complete() ==> watermark == old(watermark) && preferences == old(preferences)
    {
      if active && Admit(progress, watermark) {
        latestProgress := Some(progress);
        Emit();
      }
    }

    /** Nothing observable changed: no report, no store, same watermark. */
    twostate predicate Unchanged()
      reads this
    {
      watermark == old(watermark) && active == old(active) &&
      latestState == old(latestState) && latestTrack == old(latestTrack) &&
      latestProgress == old(latestProgress) && preferences == old(preferences) &&
      reports == old(reports) && stored == old(stored)
    }

    /** Whether all three inputs have passed at least once. */
    predicate Complete()
      reads this
    {
      latestState.Some? && latestTrack.Some? && latestProgress.Some?
    }

    /**
     * After an accepted input: one report from the latest values once all
     * three are present, none before.
     */
    ghost predicate Emitted(reportsBefore: seq<Report>, storedBefore: seq<Track>)
      reads this
    {
      active &&
      (Complete() ==>
        var t := latestTrack.value;
        var time := latestProgress.value;
        watermark == time &&
        reports == reportsBefore + [Report(t.uri, t.queueItemId, t.key, t.ratingKey, latestState.value, t.duration, time)] &&
        stored == storedBefore + [t.(viewOffset := time)] &&
        preferences == Preferences(Some(time), Some(t.uri), Some(t.key), Some(t.parentKey), Some(t.libraryId))) &&
      (!Complete() ==> reports == reportsBefore && stored == storedBefore)
    }

    method Emit()
      requires active
      modifies this`watermark, this`preferences, this`reports, this`stored
      ensures Emitted(old(reports), old(stored))
      ensures !Complete() ==> watermark == old(watermark) && preferences == old(preferences)
    {
      if latestState.Some? && latestTrack.Some? && latestProgress.Some? {
        UpdateTimeline(latestState.value, latestProgress.value, latestTrack.value);
      }
    }

    /** One report: persist, move the watermark, tell the server, store the offset. */
    method UpdateTimeline(state: string, time: int, track: Track)
      modifies this`watermark, this`preferences, this`reports, this`stored
      ensures watermark == time
      ensures preferences == Preferences(Some(time), Some(track.uri), Some(track.key),
                                         Some(track.parentKey), Some(track.libraryId))
      ensures reports == old(reports) + [Report(track.uri, track.queueItemId, track.key, track.ratingKey,
                                                state, track.duration, time)]
      ensures stored == old(stored) + [track.(viewOffset := time)]
    {
      preferences := preferences.(progress := Some(time));
      PersistCurrentTrack(track);
      if watermark > time {
        watermark := 0;
      }
      watermark := time;
      reports := reports + [Report(track.uri, track.queueItemId, track.key, track.ratingKey,
                                   state, track.duration, time)];
      stored := stored + [track.(viewOffset := time)];
    }

    /** Remembers the chapter to restore playback from. */
    method PersistCurrentTrack(track: Track)
      modifies this`preferences
      ensures preferences == old(preferences).(uri := Some(track.uri), key := Some(track.key),
                                               parentKey := Some(track.parentKey), libraryId := Some(track.libraryId))
    {
      preferences := preferences.(uri := Some(track.uri));
      preferences := preferences.(key := Some(track.key));
      preferences := preferences.(parentKey := Some(track.parentKey));
      preferences := preferences.(libraryId := Some(track.libraryId));
    }
  }
}
