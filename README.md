# sprocket core in Dafny

sprocket is an Android audiobook client for a Plex Media Server. This project
models the parts of it that make decisions:

- **Play queue** (module `Queue`, class `QueueManager`). It holds the queue of
  chapters, the current position and the speed. Every change of position
  publishes a snapshot of the queue and position. Speeds wrap between 0.5 and 2.5.
- **Playback backend** (module `Backend`, class `Playback`). It is the contract
  that local audio and a cast receiver both implement. The model keeps the state,
  position, speed and current track that the orchestrator reads. It also keeps
  the signals the backend sends back through its callback.
- **Playback orchestrator** (module `Orchestrator`, class `PlaybackManager`). It
  handles the media-session commands: play, pause, stop, skip, seek, the custom
  back/forward/speed actions, and the hand-over to another backend. Each handler
  appends its ordered backend calls, queue calls and session updates to an
  event trace.
- **Timeline reporting** (module `Timeline`, class `TimelineManager`). It
  combines the latest playback state, current chapter and progress sample. It
  reports them to the server and stores the offset locally. Progress is
  admitted only when it is more than ten seconds past the last report, or when
  it goes backwards.
- **Track table** (module `TrackStore`, class `TrackTable`). It is the local
  table of chapters keyed by rating key. It has a replace-on-conflict upsert,
  an update that touches only existing rows, and three queries.
- **Catalog sources.** There are three:
  - the local catalog over that table (module `LocalRepository`);
  - the remote catalog built from the server's media containers (module
    `RemoteRepository`), including the paging of a media-type listing with its
    first-character headers;
  - the merged catalog (module `CatalogMerge`), which combines remote and local
    lists keyed by rating key (the last item wins and each key keeps its first
    position) and de-duplicates the library sections.
- **Media-browser ids** (module `MediaIds`, class `AutoMediaBrowser`). These are
  the string ids that the car/auto browser hands back. The model gives the
  codec between routes and prefixed ids, the dispatch of `onLoadChildren`, and
  the book, author and library caches that later look-ups resolve against.
- **Listen-status icon** (module `ListenStatus`). A chapter row's icon tag is
  partly heard, heard or not heard. The chapter and recent-chapter rows use the
  same classification, so one function models both. A click on the row or the
  icon selects one listener call.
- **Sign-in form** (module `SignIn`, class `LoginForm`). It checks the username
  and then the password, flags the first invalid field, and sends at most one
  request.

Shared datatypes are in module `Types`: tracks, playback states, libraries, and
the catalog items (`PlexItem`). Every source path below is relative to the
repository root.

From a watermark of 0 the progress sample 0 is not reported: the filter at
`app/src/main/java/com/awsomefox/sprocket/playback/TimelineManager.java:122-123` needs progress strictly more than
10000 past the watermark, or strictly below it. `Timeline.AdmissionExample`
shows this.

## Model

| member | source | states |
|---|---|---|
| Queue.WrapSpeed | app/src/main/java/com/awsomefox/sprocket/playback/QueueManager.java:44-53 | the speed is always within [0.5, 2.5]; an in-range value is kept; a value above 2.5 wraps to 0.5 and one below 0.5 wraps to 2.5 |
| Queue.FindFrom | app/src/main/java/com/awsomefox/sprocket/playback/QueueManager.java:130-137 | the index found is the first at or after the start whose queue-item id matches, or the queue length when no later item matches |
| Queue.PositionFromQueueItemSpec | app/src/main/java/com/awsomefox/sprocket/playback/QueueManager.java:130-137 | the position looked up is always valid for the queue; it is the first chapter carrying the id when one does, and 0 when none does |
| Queue.PositionOfOwnId | app/src/main/java/com/awsomefox/sprocket/playback/QueueManager.java:130-137 | when queue-item ids are unique, looking up the id of the chapter at k gives back k |
| Queue.PositionFromQueueItem | app/src/main/java/com/awsomefox/sprocket/playback/QueueManager.java:130-137 | the position a queue-item id selects; PositionFromQueueItemSpec proves it valid, the first chapter carrying the id, and 0 when none does, and GetPositionFromQueueItem computes it with the source loop |
| Queue.NextPosition | app/src/main/java/com/awsomefox/sprocket/playback/QueueManager.java:98-110 | next keeps the position valid, advances by one exactly when that is still inside the queue, and otherwise stays on the last chapter |
| Queue.PreviousPosition | app/src/main/java/com/awsomefox/sprocket/playback/QueueManager.java:112-124 | previous keeps the position valid, steps back by one from any position from 1 on, and stays at 0 |
| Queue.UpNextAndHasNext | app/src/main/java/com/awsomefox/sprocket/playback/QueueManager.java:74-128 | the up-next list starts with the current chapter; hasNext holds exactly when up-next has at least two chapters; next drops the head of up-next when there is a next chapter and leaves it alone otherwise |
| Queue.QueueManager.HasNext | app/src/main/java/com/awsomefox/sprocket/playback/QueueManager.java:126-128 | on a valid queue, there is a next chapter exactly when the up-next list holds at least two chapters |
| Queue.QueueManager.UpNext | app/src/main/java/com/awsomefox/sprocket/playback/QueueManager.java:74-76 | the up-next list has one entry per chapter from the position on, and entry i is the chapter at position + i |
| Queue.ApplyPersistedOffset | app/src/main/java/com/awsomefox/sprocket/playback/QueueManager.java:59-68 | setQueue's offset override changes only the selected chapter and only its offset; the offset never goes back; it changes exactly when both offsets are non-zero and the persisted one is larger |
| Queue.ListGet | app/src/main/java/com/awsomefox/sprocket/playback/QueueManager.java:78-80 | indexing the queue fails exactly when the position is outside it, and otherwise yields the chapter there |
| Queue.QueueManager.constructor | app/src/main/java/com/awsomefox/sprocket/playback/QueueManager.java:31-38 | a new queue manager has an empty queue, position 0 and speed 1.0, and the relay holds its default snapshot (empty, 0) |
| Queue.QueueManager.CurrentTrack | app/src/main/java/com/awsomefox/sprocket/playback/QueueManager.java:78-80 | there is a current chapter exactly when the queue is non-empty, and it is the chapter at the position |
| Queue.QueueManager.SetSpeed | app/src/main/java/com/awsomefox/sprocket/playback/QueueManager.java:44-53 | the speed becomes the wrapped value and nothing else changes |
| Queue.QueueManager.GetPositionFromQueueItem | app/src/main/java/com/awsomefox/sprocket/playback/QueueManager.java:130-137 | the index loop returns the first position with the id, or 0 |
| Queue.QueueManager.SetQueuePosition | app/src/main/java/com/awsomefox/sprocket/playback/QueueManager.java:90-96 | the position becomes the looked-up one; a snapshot is published exactly when the position changed; a published log that matched the state still matches |
| Queue.QueueManager.SetQueue | app/src/main/java/com/awsomefox/sprocket/playback/QueueManager.java:59-68 | a non-empty list becomes the queue with the persisted offset applied at the looked-up position, followed by a position snapshot (if the position moved) and a final snapshot; an empty list with persisted offset 0 is stored and published as (empty, 0) too; an empty list with a non-zero persisted offset fails, as List.get does, after the position snapshot and before the final one |
| Queue.QueueManager.SetCurrentTrack | app/src/main/java/com/awsomefox/sprocket/playback/QueueManager.java:82-88 | a chapter already queued is selected in place; any other chapter becomes a one-chapter queue; either way the current chapter carries its queue-item id, and is the chapter itself when ids are unique or it was new |
| Queue.QueueManager.Next | app/src/main/java/com/awsomefox/sprocket/playback/QueueManager.java:98-110 | the position advances as NextPosition says and exactly one snapshot of the new state is published |
| Queue.QueueManager.Previous | app/src/main/java/com/awsomefox/sprocket/playback/QueueManager.java:112-124 | the position steps back as PreviousPosition says and exactly one snapshot of the new state is published |
| Queue.QueueManager.NotifyQueue | app/src/main/java/com/awsomefox/sprocket/playback/QueueManager.java:139-141 | publishes one snapshot of the current queue and position, after which the log matches the state |
| Backend.Playback.constructor | app/src/main/java/com/awsomefox/sprocket/playback/Playback.java:44-63 | a backend starts with whatever state it reports, no callback and nothing sent |
| Backend.Playback.Start | app/src/main/java/com/awsomefox/sprocket/playback/Playback.java:28-33 | start changes nothing the model keeps: the resources an implementation allocates are outside it (no contract to count) |
| Backend.Playback.Stop | app/src/main/java/com/awsomefox/sprocket/playback/Playback.java:35-42 | stop leaves the backend stopped and not playing; listeners hear of it only when asked and a callback is set; position, track, speed and connection are kept |
| Backend.Playback.Play | app/src/main/java/com/awsomefox/sprocket/playback/Playback.java:70-74 | play makes the given chapter current, at the given speed, and playing |
| Backend.Playback.Pause | app/src/main/java/com/awsomefox/sprocket/playback/Playback.java:76-79 | pause stops playing, takes the given speed, and keeps the chapter and position |
| Backend.Playback.SeekTo | app/src/main/java/com/awsomefox/sprocket/playback/Playback.java:81-84 | seek sets the stream position and speed and keeps the rest |
| Backend.Playback.SetSpeed | app/src/main/java/com/awsomefox/sprocket/playback/Playback.java:91-94 | the speed becomes the given one |
| Backend.Playback.SetCurrentTrack | app/src/main/java/com/awsomefox/sprocket/playback/Playback.java:101-106 | the current chapter becomes the given one, which may be none |
| Backend.Playback.SetCallback | app/src/main/java/com/awsomefox/sprocket/playback/Playback.java:108-111 | a callback is registered |
| Backend.Playback.UpdateLastKnownStreamPosition | app/src/main/java/com/awsomefox/sprocket/playback/Playback.java:65-68 | the stream position becomes the backend's latest reading |
| Backend.Playback.Report | app/src/main/java/com/awsomefox/sprocket/playback/Playback.java:119-124 | a status change reported by the backend updates state, playing, connection and position and signals the callback when one is set |
| Backend.Playback.Complete | app/src/main/java/com/awsomefox/sprocket/playback/Playback.java:114-117 | a completion signals the callback when one is set |
| Backend.Playback.ReportTrack | app/src/main/java/com/awsomefox/sprocket/playback/Playback.java:126-129 | a track change reported by the backend makes that chapter current and signals it to the callback when one is set |
| Orchestrator.AvailableActions | app/src/main/java/com/awsomefox/sprocket/playback/PlaybackManager.java:183-193 | play/pause, play-from-media-id and play-from-search are always offered; pause exactly while playing, play exactly while not; never both |
| Orchestrator.SessionOf | app/src/main/java/com/awsomefox/sprocket/playback/PlaybackManager.java:117-139 | the published session carries the backend's state, the current chapter and the up-next list; position and speed only while connected (unknown position -1 and speed 1.0 otherwise); the available actions; the three custom actions in order |
| Orchestrator.StateEvents | app/src/main/java/com/awsomefox/sprocket/playback/PlaybackManager.java:117-139 | the corrected state update: the session is published first, followed by a notification request exactly when the state is playing or paused. This is the corrected half of the Findings row for lines 141-173 |
| Orchestrator.QueueListAsWritten | app/src/main/java/com/awsomefox/sprocket/playback/PlaybackManager.java:141-173 | the up-next list as written, one entry per chapter with its icon parsed from the thumb: it fails exactly when some up-next chapter has no thumb, and otherwise is the up-next list itself |
| Orchestrator.StateEventsAsWritten | app/src/main/java/com/awsomefox/sprocket/playback/PlaybackManager.java:117-173 | the state update as written, which builds the up-next list before it publishes: it raises, publishing nothing, exactly when some up-next chapter has no thumb, and otherwise sends exactly StateEvents |
| Orchestrator.ThumblessUpNextPublishesNothing | app/src/main/java/com/awsomefox/sprocket/playback/PlaybackManager.java:133-134 | with one queued chapter that has no thumb, the written state update raises, where the corrected one publishes the session |
| Orchestrator.PlayEvents | app/src/main/java/com/awsomefox/sprocket/playback/PlaybackManager.java:92-98 | a play request does nothing without a current chapter; otherwise it plays that chapter at the queue's speed on the backend and then starts the service |
| Orchestrator.PlayEventsAsWritten | app/src/main/java/com/awsomefox/sprocket/playback/PlaybackManager.java:92-98 | as the code is written, the play request reads the current chapter with List.get, so it raises exactly when the position is outside the queue and otherwise agrees with PlayEvents |
| Orchestrator.PlayOnEmptyQueueRaises | app/src/main/java/com/awsomefox/sprocket/playback/PlaybackManager.java:92-98 | on the empty queue the written play request raises, while the intended null guard would do nothing |
| Orchestrator.PlayEventsAgreeOnNonEmptyQueue | app/src/main/java/com/awsomefox/sprocket/playback/PlaybackManager.java:92-98 | on every non-empty queue at a valid position, the written and corrected play requests issue the same events |
| Orchestrator.StopEvents | app/src/main/java/com/awsomefox/sprocket/playback/PlaybackManager.java:111-115 | a stop request first stops the backend with notification; the session is updated through the callback (when set) before the service stop and again after it; a stopped session never asks for a notification |
| Orchestrator.ReplayCall | app/src/main/java/com/awsomefox/sprocket/playback/PlaybackManager.java:237-263 | after a hand-over, a buffering, connecting or paused backend is paused; a playing one resumes the current chapter if asked to and there is one, is stopped if asked to and there is none, and is paused if not asked to resume; any other state is left alone. This is the corrected hand-over of the Findings row for lines 243-251 |
| Orchestrator.ReplayCallAsWritten | app/src/main/java/com/awsomefox/sprocket/playback/PlaybackManager.java:243-251 | the replay as written, reading the current chapter with List.get before testing resume: it raises exactly when the old state is playing and the position is outside the queue; otherwise it is ReplayCall's choice |
| Orchestrator.ReplayOnEmptyQueueRaises | app/src/main/java/com/awsomefox/sprocket/playback/PlaybackManager.java:243-251 | with the old state playing and an empty queue, the replay as written raises whether or not it is asked to resume, while the corrected replay stops or pauses |
| Orchestrator.ReplayAgreesOnNonEmptyQueue | app/src/main/java/com/awsomefox/sprocket/playback/PlaybackManager.java:243-251 | when the position is inside the queue, the replay as written gives the corrected replay of the current chapter |
| Orchestrator.HandOverEvents | app/src/main/java/com/awsomefox/sprocket/playback/PlaybackManager.java:227-236 | a hand-over stops the old backend without notification, then registers the callback on the new one, gives it the old current chapter, seeks it to the old position clamped at 0, and starts it |
| Orchestrator.NarrowToInt | app/src/main/java/com/awsomefox/sprocket/playback/PlaybackManager.java:354-357 | the cast to int yields a 32-bit value congruent to the long modulo 2^32, equal to it whenever it already fits |
| Orchestrator.TrackFromExtras | app/src/main/java/com/awsomefox/sprocket/playback/PlaybackManager.java:290-314 | a chapter played from a media id takes uri, key, parent key and library id from the extras, with the fixed defaults for missing ones; queue-item id 0, offset 0, one view, recent; thumb and source built from the uri |
| Orchestrator.SpeedPressesClimb | app/src/main/java/com/awsomefox/sprocket/playback/PlaybackManager.java:367-369 | from 0.5, each of the first twenty presses of the speed action adds exactly 0.1 |
| Orchestrator.SpeedAfterPresses | app/src/main/java/com/awsomefox/sprocket/playback/PlaybackManager.java:367-369 | the speed after n presses of the speed action on a head unit; SpeedPressesClimb, SpeedAfterPressesStep and SpeedPressesCycle state how it climbs by 0.1 from 0.5 to 2.5 and wraps back |
| Orchestrator.SpeedAfterPressesStep | app/src/main/java/com/awsomefox/sprocket/playback/PlaybackManager.java:367-369 | one more press adds 0.1 to the reached speed and wraps it |
| Orchestrator.SpeedPressesCycle | app/src/main/java/com/awsomefox/sprocket/playback/PlaybackManager.java:367-369 | twenty presses from 0.5 reach 2.5 and the twenty-first wraps back to 0.5 |
| Orchestrator.PlaybackManager.constructor | app/src/main/java/com/awsomefox/sprocket/playback/PlaybackManager.java:74-82 | the orchestrator registers itself as the backend's callback; the trace holds exactly that SetCallback call |
| Orchestrator.PlaybackManager.HandlePlayRequest | app/src/main/java/com/awsomefox/sprocket/playback/PlaybackManager.java:92-98 | issues exactly PlayEvents for the current chapter; with one, the backend plays it at the queue's speed; without one, the backend is untouched |
| Orchestrator.PlaybackManager.HandlePlayRequestWith | app/src/main/java/com/awsomefox/sprocket/playback/PlaybackManager.java:100-102 | a play request for a given chapter and speed goes straight to the service |
| Orchestrator.PlaybackManager.HandlePauseRequest | app/src/main/java/com/awsomefox/sprocket/playback/PlaybackManager.java:104-109 | while playing, the backend is paused at the queue's speed and the service is told; otherwise nothing happens |
| Orchestrator.PlaybackManager.HandleStopRequest | app/src/main/java/com/awsomefox/sprocket/playback/PlaybackManager.java:111-115 | the backend ends stopped, with position, chapter, speed and connection kept, and the trace gains exactly StopEvents |
| Orchestrator.PlaybackManager.UpdatePlaybackState | app/src/main/java/com/awsomefox/sprocket/playback/PlaybackManager.java:117-139 | publishes the session built from the backend and queue (SessionOf), with the notification when playing or paused. This is the corrected member of the Findings row for lines 141-173; StateEventsAsWritten models the raise |
| Orchestrator.PlaybackManager.GetQueueList | app/src/main/java/com/awsomefox/sprocket/playback/PlaybackManager.java:141-148 | the copied list is exactly the queue's up-next list, thumbless chapters included; QueueListAsWritten models the raise on those |
| Orchestrator.PlaybackManager.OnCompletion | app/src/main/java/com/awsomefox/sprocket/playback/PlaybackManager.java:195-204 | with a next chapter, the queue advances by one and that chapter plays; at the end of the queue, the position and published log are kept and the request ends in a stop |
| Orchestrator.PlaybackManager.OnPlaybackStatusChanged | app/src/main/java/com/awsomefox/sprocket/playback/PlaybackManager.java:206-210 | a backend status change republishes the session |
| Orchestrator.PlaybackManager.SetCurrentTrack | app/src/main/java/com/awsomefox/sprocket/playback/PlaybackManager.java:212-216 | a track reported by the backend becomes the queue's current chapter, selected in place or as a new one-chapter queue |
| Orchestrator.PlaybackManager.SwitchToPlayback | app/src/main/java/com/awsomefox/sprocket/playback/PlaybackManager.java:223-264 | the old backend is stopped and the new one takes over with the callback, the old chapter and the old position clamped at 0, followed by the replay ReplayCall chooses; the new backend plays the current chapter exactly when the replay is a play |
| Orchestrator.PlaybackManager.ReplayOnNewBackend | app/src/main/java/com/awsomefox/sprocket/playback/PlaybackManager.java:237-263 | on the new backend, issues exactly the call ReplayCall chooses, followed by the state update when that call is the stop |
| Orchestrator.PlaybackManager.OnPlay | app/src/main/java/com/awsomefox/sprocket/playback/PlaybackManager.java:284-287 | the session's play command is a play request for the current chapter |
| Orchestrator.PlaybackManager.OnPlayFromMediaId | app/src/main/java/com/awsomefox/sprocket/playback/PlaybackManager.java:290-314 | the chapter built from the extras is played at the extras' speed, 1.0 by default |
| Orchestrator.PlaybackManager.OnSkipToQueueItem | app/src/main/java/com/awsomefox/sprocket/playback/PlaybackManager.java:317-321 | the queue moves to the item's position and the current chapter is played |
| Orchestrator.PlaybackManager.OnPause | app/src/main/java/com/awsomefox/sprocket/playback/PlaybackManager.java:324-327 | the session's pause command pauses while playing and does nothing otherwise |
| Orchestrator.PlaybackManager.OnSkipToNext | app/src/main/java/com/awsomefox/sprocket/playback/PlaybackManager.java:330-334 | the queue advances as NextPosition says and the current chapter is played |
| Orchestrator.PlaybackManager.OnSkipToPrevious | app/src/main/java/com/awsomefox/sprocket/playback/PlaybackManager.java:337-345 | more than 1.5 s into a chapter, it restarts that chapter with the queue untouched; otherwise the queue steps back and the current chapter is played |
| Orchestrator.PlaybackManager.OnStop | app/src/main/java/com/awsomefox/sprocket/playback/PlaybackManager.java:348-351 | the session's stop command is a stop request |
| Orchestrator.PlaybackManager.OnSeekTo | app/src/main/java/com/awsomefox/sprocket/playback/PlaybackManager.java:354-357 | seeks the backend to the position narrowed to int, at the queue's speed, keeping state, playing and chapter |
| Orchestrator.PlaybackManager.OnCustomAction | app/src/main/java/com/awsomefox/sprocket/playback/PlaybackManager.java:360-378 | the speed action steps the speed by 0.1 with wrap-around (or, when not automatic, re-applies it unchanged) and sets it on the backend; back and forward seek 30 s either way from the current position; any other action does nothing |
| Timeline.TimelineState | app/src/main/java/com/awsomefox/sprocket/playback/TimelineManager.java:133-146 | only playing, paused and stopped pass the state filter, named "playing", "paused" and "stopped" |
| Timeline.CurrentOf | app/src/main/java/com/awsomefox/sprocket/playback/TimelineManager.java:127-131 | a queue snapshot yields a chapter exactly when the position is inside the queue, and then the chapter there |
| Timeline.Admit | app/src/main/java/com/awsomefox/sprocket/playback/TimelineManager.java:120-125 | the progress filter: a sample passes when it is more than 10000 past the watermark or below it; AdmissionExample shows both sides of it |
| Timeline.Admitted | app/src/main/java/com/awsomefox/sprocket/playback/TimelineManager.java:120-125 | the samples that pass the filter in turn, each passing sample becoming the new watermark; AdmittedSpaced and AdmittedSubsequence state that they are spaced or going back, and the samples with the filtered ones left out, in order |
| Timeline.AdmittedSpaced | app/src/main/java/com/awsomefox/sprocket/playback/TimelineManager.java:120-125 | every reported progress is more than ten seconds past the previous report, or behind it |
| Timeline.AdmittedSubsequence | app/src/main/java/com/awsomefox/sprocket/playback/TimelineManager.java:120-125 | the filter only drops samples: the reports are a subsequence of the samples (in sample order, with their multiplicity), so nothing reported was not sampled and there are never more reports than samples |
| Timeline.AdmissionExample | app/src/main/java/com/awsomefox/sprocket/playback/TimelineManager.java:120-125 | from watermark 0, samples 0, 21000, 3000 report 21000 and 3000; samples 5000, 10000, 10001 report only 10001 |
| Timeline.TimelineManager.constructor | app/src/main/java/com/awsomefox/sprocket/playback/TimelineManager.java:63-74 | a new timeline manager is idle, with watermark 0, the given preferences and nothing reported or stored |
| Timeline.TimelineManager.Stop | app/src/main/java/com/awsomefox/sprocket/playback/TimelineManager.java:148-150 | the subscription is dropped |
| Timeline.TimelineManager.Reset | app/src/main/java/com/awsomefox/sprocket/playback/TimelineManager.java:76-92 | the watermark is cleared and a fresh subscription starts with no state or progress, holding the relay's current chapter; nothing is reported |
| Timeline.TimelineManager.OnState | app/src/main/java/com/awsomefox/sprocket/playback/TimelineManager.java:133-146 | a state outside the filter, or arriving while idle, changes nothing; otherwise it becomes the latest state and a report follows once state, chapter and progress are all present |
| Timeline.TimelineManager.OnQueue | app/src/main/java/com/awsomefox/sprocket/playback/TimelineManager.java:127-131 | a snapshot whose position is outside its queue, or arriving while idle, changes nothing; otherwise its chapter becomes the latest and a report follows once all three are present |
| Timeline.TimelineManager.OnProgress | app/src/main/java/com/awsomefox/sprocket/playback/TimelineManager.java:120-125 | a sample the watermark filter rejects, or arriving while idle, changes nothing; otherwise it becomes the latest progress and a report follows once all three are present |
| Timeline.TimelineManager.Emit | app/src/main/java/com/awsomefox/sprocket/playback/TimelineManager.java:85-88 | once state, chapter and progress are all present exactly one report is made from them; before that nothing changes |
| Timeline.TimelineManager.UpdateTimeline | app/src/main/java/com/awsomefox/sprocket/playback/TimelineManager.java:94-111 | the progress and chapter location are persisted, the watermark becomes the reported time, one timeline request is sent and the chapter is stored with that offset |
| Timeline.TimelineManager.PersistCurrentTrack | app/src/main/java/com/awsomefox/sprocket/playback/TimelineManager.java:113-118 | the chapter's uri, key, parent key and library id are persisted and the stored progress is kept |
| TrackStore.UpsertAllSpec | app/src/main/java/com/awsomefox/sprocket/data/local/TrackDAO.java:20-21 | a replace-on-conflict insert keeps rows keyed by rating key, adds exactly the batch's keys, keeps every row the batch does not name, and leaves each key with the last batch row carrying it |
| TrackStore.UpsertAll | app/src/main/java/com/awsomefox/sprocket/data/local/TrackDAO.java:20-21 | the table after a replace-on-conflict insert of the batch, row by row; UpsertAllSpec states that the batch keys hold their last row, other rows stay, and the keys are the old ones plus the batch keys |
| TrackStore.TrackTable.constructor | app/src/main/java/com/awsomefox/sprocket/data/local/TrackDAO.java:17-18 | the table starts empty |
| TrackStore.TrackTable.AddTracks | app/src/main/java/com/awsomefox/sprocket/data/local/TrackDAO.java:20-21 | inserting row by row gives the same table as UpsertAll over the batch |
| TrackStore.TrackTable.UpdateTrack | app/src/main/java/com/awsomefox/sprocket/data/local/TrackDAO.java:35-36 | an update replaces the row with the same rating key and does nothing when there is none |
| TrackStore.TrackTable.Select | app/src/main/java/com/awsomefox/sprocket/data/local/TrackDAO.java:23-30 | a query returns exactly the rows matching its filter, each once |
| TrackStore.TrackTable.GetAllTracks | app/src/main/java/com/awsomefox/sprocket/data/local/TrackDAO.java:23-24 | all rows, each exactly once |
| TrackStore.TrackTable.GetTracksInProgress | app/src/main/java/com/awsomefox/sprocket/data/local/TrackDAO.java:26-27 | exactly the rows of the library with a positive offset, each key once |
| TrackStore.TrackTable.GetTracksForAlbum | app/src/main/java/com/awsomefox/sprocket/data/local/TrackDAO.java:29-30 | exactly the rows of the library and book title, each key once |
| TrackStore.DistinctKeysCover | app/src/main/java/com/awsomefox/sprocket/data/local/TrackDAO.java:23-24 | a duplicate-free listing of all rows has as many entries as the table has keys |
| TrackStore.DistinctImageSize | app/src/main/java/com/awsomefox/sprocket/data/local/TrackEntity.java:11-13 | rows with distinct rating keys have as many keys as rows |
| LocalRepository.EntityToItem | app/src/main/java/com/awsomefox/sprocket/data/repository/LocalMusicRepositoryImpl.java:130-157 | a row becomes a chapter item equal to the row's chapter except that it is recent when the caller marks it so |
| LocalRepository.TrackToEntity | app/src/main/java/com/awsomefox/sprocket/data/repository/LocalMusicRepositoryImpl.java:117-123 | a chapter as a table row; TrackRoundTrip and TrackToEntityInjective state that reading it back gives the chapter and that distinct chapters give distinct rows |
| LocalRepository.EntityToTrack | app/src/main/java/com/awsomefox/sprocket/data/repository/LocalMusicRepositoryImpl.java:169-196 | a table row as a chapter; EntityRoundTrip states that storing it back gives the row |
| LocalRepository.TrackRoundTrip | app/src/main/java/com/awsomefox/sprocket/data/repository/LocalMusicRepositoryImpl.java:117-123 | a chapter stored as a row and read back is the same chapter, and the row is keyed by its rating key |
| LocalRepository.EntityRoundTrip | app/src/main/java/com/awsomefox/sprocket/data/repository/LocalMusicRepositoryImpl.java:169-196 | a row read as a chapter and stored again is the same row |
| LocalRepository.TrackToEntityInjective | app/src/main/java/com/awsomefox/sprocket/data/repository/LocalMusicRepositoryImpl.java:117-123 | distinct chapters never become the same row |
| LocalRepository.ScrobbledEntity | app/src/main/java/com/awsomefox/sprocket/data/repository/LocalMusicRepositoryImpl.java:89-96 | scrobbling writes the chapter back with offset 0 and one more view |
| LocalRepository.UnscrobbledEntity | app/src/main/java/com/awsomefox/sprocket/data/repository/LocalMusicRepositoryImpl.java:98-105 | unscrobbling writes the chapter back with offset 0 and no views |
| LocalRepository.EntitiesToItems | app/src/main/java/com/awsomefox/sprocket/data/repository/LocalMusicRepositoryImpl.java:130-157 | the loop maps every row, in order, to its item |
| LocalRepository.EntitiesToTracks | app/src/main/java/com/awsomefox/sprocket/data/repository/LocalMusicRepositoryImpl.java:169-196 | the loop maps every row, in order, to its chapter |
| LocalRepository.TracksToEntities | app/src/main/java/com/awsomefox/sprocket/data/repository/LocalMusicRepositoryImpl.java:107-110 | every chapter, in order, becomes its row |
| LocalRepository.LocalMusicRepository.constructor | app/src/main/java/com/awsomefox/sprocket/data/repository/LocalMusicRepositoryImpl.java:39-41 | the local catalog reads the given table |
| LocalRepository.LocalMusicRepository.ChaptersInProgress | app/src/main/java/com/awsomefox/sprocket/data/repository/LocalMusicRepositoryImpl.java:72-75 | exactly the library's rows with a positive offset, as items marked recent |
| LocalRepository.LocalMusicRepository.BrowseLibrary | app/src/main/java/com/awsomefox/sprocket/data/repository/LocalMusicRepositoryImpl.java:51-54 | browsing a library lists the same items as its chapters in progress |
| LocalRepository.LocalMusicRepository.AlbumItems | app/src/main/java/com/awsomefox/sprocket/data/repository/LocalMusicRepositoryImpl.java:66-70 | exactly the rows of the book, as items keeping their own recent mark |
| LocalRepository.LocalMusicRepository.CreatePlayQueue | app/src/main/java/com/awsomefox/sprocket/data/repository/LocalMusicRepositoryImpl.java:82-87 | the queue is exactly the book's stored chapters and selects the given chapter's own queue-item id |
| LocalRepository.LocalMusicRepository.Scrobble | app/src/main/java/com/awsomefox/sprocket/data/repository/LocalMusicRepositoryImpl.java:89-96 | the stored row of the chapter becomes the scrobbled row; without one nothing changes |
| LocalRepository.LocalMusicRepository.Unscrobble | app/src/main/java/com/awsomefox/sprocket/data/repository/LocalMusicRepositoryImpl.java:98-105 | the stored row of the chapter becomes the unscrobbled row; without one nothing changes |
| LocalRepository.LocalMusicRepository.AddTracks | app/src/main/java/com/awsomefox/sprocket/data/repository/LocalMusicRepositoryImpl.java:107-110 | the table becomes the upsert of the chapters' rows, in order |
| RemoteRepository.Dirs | app/src/main/java/com/awsomefox/sprocket/data/repository/RemoteMusicRepositoryImpl.java:60-65 | a container's directory list, empty when missing |
| RemoteRepository.Songs | app/src/main/java/com/awsomefox/sprocket/data/repository/RemoteMusicRepositoryImpl.java:67-72 | a container's track list, empty when missing |
| RemoteRepository.ThumbUrl | app/src/main/java/com/awsomefox/sprocket/data/repository/RemoteMusicRepositoryImpl.java:262-272 | a thumbnail url exists exactly when the thumb is present and not blank, and is then the thumb path on the server uri |
| RemoteRepository.TrackMapper | app/src/main/java/com/awsomefox/sprocket/data/repository/RemoteMusicRepositoryImpl.java:299-318 | a server track becomes a chapter with its keys, titles, offset and views, the library and uri given, queue-item id 0 when missing, a thumb exactly when a non-blank one is present, and the part key as source |
| RemoteRepository.AlbumMapper | app/src/main/java/com/awsomefox/sprocket/data/repository/RemoteMusicRepositoryImpl.java:262-272 | a directory becomes a book with its rating key, title, author, library, uri and thumb |
| RemoteRepository.ArtistMapper | app/src/main/java/com/awsomefox/sprocket/data/repository/RemoteMusicRepositoryImpl.java:275-286 | a directory becomes an author with its rating key, title, library key and id, uri, transcoded art and thumb |
| RemoteRepository.LibraryMapper | app/src/main/java/com/awsomefox/sprocket/data/repository/RemoteMusicRepositoryImpl.java:289-296 | a section directory becomes a library with its uuid, key, title and the server uri |
| RemoteRepository.MapSongs | app/src/main/java/com/awsomefox/sprocket/data/repository/RemoteMusicRepositoryImpl.java:168-173 | every track, in order, becomes its chapter item |
| RemoteRepository.MapAlbums | app/src/main/java/com/awsomefox/sprocket/data/repository/RemoteMusicRepositoryImpl.java:161-166 | every directory, in order, becomes its book |
| RemoteRepository.MapArtists | app/src/main/java/com/awsomefox/sprocket/data/repository/RemoteMusicRepositoryImpl.java:154-159 | every directory, in order, becomes its author |
| RemoteRepository.Sections | app/src/main/java/com/awsomefox/sprocket/data/repository/RemoteMusicRepositoryImpl.java:81-88 | the libraries are the artist-type sections of the directory list, mapped, in server order and with their multiplicity: every library comes from an artist-type section, every artist-type section gives its library, a list of only artist-type sections maps element by element, and one with none gives no libraries |
| RemoteRepository.SectionsAppend | app/src/main/java/com/awsomefox/sprocket/data/repository/RemoteMusicRepositoryImpl.java:81-88 | the section filter distributes over concatenation of directory lists, so it keeps the server's order and each section's multiplicity |
| RemoteRepository.ChaptersInProgress | app/src/main/java/com/awsomefox/sprocket/data/repository/RemoteMusicRepositoryImpl.java:97-111 | the header "Chapters In Progress" followed by every on-deck track as a recent chapter, in order |
| RemoteRepository.BooksInProgress | app/src/main/java/com/awsomefox/sprocket/data/repository/RemoteMusicRepositoryImpl.java:113-125 | the header "Recent Books" followed by every recently listened book, in order |
| RemoteRepository.BrowseLibrary | app/src/main/java/com/awsomefox/sprocket/data/repository/RemoteMusicRepositoryImpl.java:91-95 | the chapters-in-progress section (header and recent chapters in order) followed by the recent-books section (header and books in order) |
| RemoteRepository.AlbumItems | app/src/main/java/com/awsomefox/sprocket/data/repository/RemoteMusicRepositoryImpl.java:223-228 | one chapter item per track of the book, in order: item i is track i of the book's container mapped with the book's library and uri and not marked recent |
| RemoteRepository.ArtistItems | app/src/main/java/com/awsomefox/sprocket/data/repository/RemoteMusicRepositoryImpl.java:193-206 | a "Popular" header and the popular chapters when there are any, then a "Books" header and the books when there are any; nothing when both are empty |
| RemoteRepository.CreatePlayQueue | app/src/main/java/com/awsomefox/sprocket/data/repository/RemoteMusicRepositoryImpl.java:231-239 | the queue is every track of the server's play queue, in order, with the server's selected item |
| RemoteRepository.BrowseRequest | app/src/main/java/com/awsomefox/sprocket/data/repository/RemoteMusicRepositoryImpl.java:131-137 | artists browse authors and albums browse books with the page size given; anything else browses tracks 50 to a page |
| RemoteRepository.BrowseItems | app/src/main/java/com/awsomefox/sprocket/data/repository/RemoteMusicRepositoryImpl.java:154-173 | the page's items are the mapped authors, books or chapters according to the media type |
| RemoteRepository.HeadersOfSpec | app/src/main/java/com/awsomefox/sprocket/data/repository/RemoteMusicRepositoryImpl.java:175-190 | the header map has exactly the running offsets as keys; each offset carries the title of the last group starting there; every value is a header |
| RemoteRepository.HeadersOf | app/src/main/java/com/awsomefox/sprocket/data/repository/RemoteMusicRepositoryImpl.java:175-190 | the first-character headers keyed by the offset where each bucket starts; HeadersOfSpec, HeadersDomain, HeadersLast and HeadersAreHeaders state its keys and values, and BrowseHeaders computes it with the source loop |
| RemoteRepository.HeadersDomain | app/src/main/java/com/awsomefox/sprocket/data/repository/RemoteMusicRepositoryImpl.java:182-186 | the header map's keys are exactly the running offsets |
| RemoteRepository.HeadersLast | app/src/main/java/com/awsomefox/sprocket/data/repository/RemoteMusicRepositoryImpl.java:182-186 | where groups share an offset, the last one's title wins |
| RemoteRepository.HeadersAreHeaders | app/src/main/java/com/awsomefox/sprocket/data/repository/RemoteMusicRepositoryImpl.java:182-186 | every entry of the header map is a header item |
| RemoteRepository.BrowseHeaders | app/src/main/java/com/awsomefox/sprocket/data/repository/RemoteMusicRepositoryImpl.java:175-190 | the loop with its running offset builds exactly HeadersOf |
| RemoteRepository.InterleavedSpec | app/src/main/java/com/awsomefox/sprocket/data/repository/RemoteMusicRepositoryImpl.java:139-151 | the page holds every item, in order, plus one header for each item whose absolute index has one, and that header sits just before the item |
| RemoteRepository.Interleaved | app/src/main/java/com/awsomefox/sprocket/data/repository/RemoteMusicRepositoryImpl.java:139-151 | the page with each item preceded by the header at its absolute offset; InterleavedSpec, InterleavedKeepsItems and KeepsLastItem state where each item and header lands, and Interleave computes it with the source loop |
| RemoteRepository.WithoutHeadersAppend | app/src/main/java/com/awsomefox/sprocket/data/repository/RemoteMusicRepositoryImpl.java:139-151 | removing headers distributes over concatenation |
| RemoteRepository.DropHeadersStep | app/src/main/java/com/awsomefox/sprocket/data/repository/RemoteMusicRepositoryImpl.java:143-149 | removing headers from one step of the loop (an optional header then an item) keeps just the item |
| RemoteRepository.InterleavedKeepsItems | app/src/main/java/com/awsomefox/sprocket/data/repository/RemoteMusicRepositoryImpl.java:139-151 | with the headers taken out again, the page is exactly the item list |
| RemoteRepository.KeepsLastItem | app/src/main/java/com/awsomefox/sprocket/data/repository/RemoteMusicRepositoryImpl.java:139-151 | each item the loop appends ends the header-free page |
| RemoteRepository.Interleave | app/src/main/java/com/awsomefox/sprocket/data/repository/RemoteMusicRepositoryImpl.java:139-151 | the zip loop builds exactly Interleaved |
| RemoteRepository.BrowseMediaType | app/src/main/java/com/awsomefox/sprocket/data/repository/RemoteMusicRepositoryImpl.java:128-152 | a media-type page is the mapped items with the first-character headers interleaved at their offsets |
| RemoteRepository.BrowseMediaTypeSpec | app/src/main/java/com/awsomefox/sprocket/data/repository/RemoteMusicRepositoryImpl.java:128-152 | a page without its headers is exactly the mapped items, and it is longer by the number of headers that land on it |
| CatalogMerge.MergeRemoteAndLocal | app/src/main/java/com/awsomefox/sprocket/data/repository/MusicRepositoryImpl.java:153-201 | the two loops into the linked map yield exactly Merge over remote then local |
| CatalogMerge.MergeKey | app/src/main/java/com/awsomefox/sprocket/data/repository/MusicRepositoryImpl.java:156-198 | the key each kind of item is put under: the media key, the rating key of authors, books and chapters, the header title and the library uuid; other items are not put |
| CatalogMerge.Merge | app/src/main/java/com/awsomefox/sprocket/data/repository/MusicRepositoryImpl.java:153-201 | the values of the insertion-ordered map after putting the remote then the local items; MergeRemoteAndLocal computes it with the source loops, and MergeDistinct, MergeCoversKeys, MergeLastWins and MergeFirstOrder state its keys, values and order |
| CatalogMerge.PutAllWf | app/src/main/java/com/awsomefox/sprocket/data/repository/MusicRepositoryImpl.java:153-201 | the linked map stays well formed (distinct keys, each key holding an item with that key) and has no more keys than items put |
| CatalogMerge.PutAllDomain | app/src/main/java/com/awsomefox/sprocket/data/repository/MusicRepositoryImpl.java:153-201 | the map's keys are exactly the merge keys of the items put |
| CatalogMerge.PutAllLastWins | app/src/main/java/com/awsomefox/sprocket/data/repository/MusicRepositoryImpl.java:153-201 | each key holds the last item put with that key |
| CatalogMerge.PutAllFirstOrder | app/src/main/java/com/awsomefox/sprocket/data/repository/MusicRepositoryImpl.java:153-201 | keys are ordered by where each key first occurs among the items |
| CatalogMerge.MergeDistinct | app/src/main/java/com/awsomefox/sprocket/data/repository/MusicRepositoryImpl.java:153-201 | merged items have pairwise distinct keys and are no more than the inputs |
| CatalogMerge.MergeCoversKeys | app/src/main/java/com/awsomefox/sprocket/data/repository/MusicRepositoryImpl.java:153-201 | a key occurs in the merge exactly when some keyed input item carries it |
| CatalogMerge.MergeLastWins | app/src/main/java/com/awsomefox/sprocket/data/repository/MusicRepositoryImpl.java:153-201 | every merged item is the last input item with its key, so a local item replaces a remote one |
| CatalogMerge.MergeFirstOrder | app/src/main/java/com/awsomefox/sprocket/data/repository/MusicRepositoryImpl.java:153-201 | merged items are ordered by the first occurrence of their keys |
| CatalogMerge.PutAllAppend | app/src/main/java/com/awsomefox/sprocket/data/repository/MusicRepositoryImpl.java:156-198 | putting two lists one after the other is putting their concatenation |
| CatalogMerge.PutAllOfValues | app/src/main/java/com/awsomefox/sprocket/data/repository/MusicRepositoryImpl.java:199 | putting a well-formed map's values, in order, into an empty map rebuilds that map |
| CatalogMerge.MergeFlattens | app/src/main/java/com/awsomefox/sprocket/data/repository/MusicRepositoryImpl.java:63-71 | merging a merge with a third list is merging the concatenation with it, as browseLibrary's nested merges do |
| CatalogMerge.MergeIdempotent | app/src/main/java/com/awsomefox/sprocket/data/repository/MusicRepositoryImpl.java:153-201 | merging a merged list again changes nothing |
| CatalogMerge.KeysPrefix | app/src/main/java/com/awsomefox/sprocket/data/repository/MusicRepositoryImpl.java:153-201 | the keys of a prefix come first, in the same order, in the keys of the whole |
| CatalogMerge.MediaTypeKeys | app/src/main/java/com/awsomefox/sprocket/data/repository/MusicRepositoryImpl.java:83-101 | the library page's media types are keyed "Browse Library", "8" and "9", in that order |
| CatalogMerge.MediaTypes | app/src/main/java/com/awsomefox/sprocket/data/repository/MusicRepositoryImpl.java:83-101 | the "Browse Library" header and the Authors (key "8") and Books (key "9") media types of the library; MediaTypeKeys states their keys |
| CatalogMerge.BrowseLibraryLeads | app/src/main/java/com/awsomefox/sprocket/data/repository/MusicRepositoryImpl.java:63-76 | a library page starts with the "Browse Library" header and the Authors and Books entries, and always holds the "Chapters In Progress" header |
| CatalogMerge.ChaptersInProgress | app/src/main/java/com/awsomefox/sprocket/data/repository/MusicRepositoryImpl.java:114-118 | the remote chapters in progress merged with the local ones; the Merge lemmas state its keys and order |
| CatalogMerge.ChaptersInProgressImpl | app/src/main/java/com/awsomefox/sprocket/data/repository/MusicRepositoryImpl.java:73-76 | the chapters in progress behind their "Chapters In Progress" header; ChaptersHeaderFirst states that the header comes first |
| CatalogMerge.ChaptersHeaderFirst | app/src/main/java/com/awsomefox/sprocket/data/repository/MusicRepositoryImpl.java:73-76 | the chapters-in-progress list is never empty and starts with the entry keyed by its header |
| CatalogMerge.MergeKeepsKey | app/src/main/java/com/awsomefox/sprocket/data/repository/MusicRepositoryImpl.java:153-201 | every key an item of the first list carries is carried by some item of the merged list |
| CatalogMerge.BrowseLibrary | app/src/main/java/com/awsomefox/sprocket/data/repository/MusicRepositoryImpl.java:63-71 | the fixed media types merged with the chapters in progress, merged with the recent books; BrowseLibraryLeads and MediaTypeKeyShared state what leads the page and how same-key entries collapse |
| CatalogMerge.MediaTypeKeyShared | app/src/main/java/com/awsomefox/sprocket/data/repository/MusicRepositoryImpl.java:63-101 | a chapter whose rating key is "8" takes the Authors entry's place on the library page, because both are keyed by "8" |
| CatalogMerge.DistinctByKeyBasics | app/src/main/java/com/awsomefox/sprocket/data/repository/MusicRepositoryImpl.java:45-49 | the distinct filter keeps libraries with pairwise distinct keys, none already seen, and no more than given |
| CatalogMerge.DistinctByKeyFirst | app/src/main/java/com/awsomefox/sprocket/data/repository/MusicRepositoryImpl.java:45-49 | each library kept is the first one with its key |
| CatalogMerge.DistinctByKeyCovers | app/src/main/java/com/awsomefox/sprocket/data/repository/MusicRepositoryImpl.java:45-49 | every key not already seen is kept |
| CatalogMerge.DistinctByKeyOrder | app/src/main/java/com/awsomefox/sprocket/data/repository/MusicRepositoryImpl.java:45-49 | the kept libraries keep their relative order |
| CatalogMerge.SectionsSpec | app/src/main/java/com/awsomefox/sprocket/data/repository/MusicRepositoryImpl.java:43-60 | the sections list is remote then local libraries, one per key, the first occurrence of each, in order, with every key covered |
| CatalogMerge.Sections | app/src/main/java/com/awsomefox/sprocket/data/repository/MusicRepositoryImpl.java:43-60 | the remote then the local libraries with each library key kept once; SectionsSpec states its keys, order and first-wins choice |
| CatalogMerge.DistinctByKey | app/src/main/java/com/awsomefox/sprocket/data/repository/MusicRepositoryImpl.java:45-49 | the libraries whose key is not yet seen, the first of each key kept; DistinctByKeyBasics, DistinctByKeyFirst, DistinctByKeyCovers and DistinctByKeyOrder state that |
| MediaIds.ExtensionKeepsPrefixFree | app/src/main/java/com/awsomefox/sprocket/browser/AutoMediaBrowserService.java:58-65 | an id built from one prefix never starts with a prefix that differs from it at a shared position, so the dispatch order cannot misroute an id |
| MediaIds.NotRoot | app/src/main/java/com/awsomefox/sprocket/browser/AutoMediaBrowserService.java:58-65 | no prefixed id equals the root id |
| MediaIds.AfterPrefix | app/src/main/java/com/awsomefox/sprocket/browser/AutoMediaBrowserService.java:115-141 | an id starts with its prefix and what follows the prefix is the key |
| MediaIds.DecodeEncode | app/src/main/java/com/awsomefox/sprocket/browser/AutoMediaBrowserService.java:111-142 | every id the service builds is routed back by onLoadChildren to the listing it names |
| MediaIds.EncodeDecode | app/src/main/java/com/awsomefox/sprocket/browser/AutoMediaBrowserService.java:111-142 | every id onLoadChildren routes is exactly the id of that route |
| MediaIds.DecodeRejectsForeignIds | app/src/main/java/com/awsomefox/sprocket/browser/AutoMediaBrowserService.java:111-142 | an id gets the empty result exactly when it is not the id of any route |
| MediaIds.Encode | app/src/main/java/com/awsomefox/sprocket/browser/AutoMediaBrowserService.java:58-65 | the media id of a route: the root name, or the level prefix followed by the argument; DecodeEncode and EncodeDecode state that it and Decode are inverse |
| MediaIds.Decode | app/src/main/java/com/awsomefox/sprocket/browser/AutoMediaBrowserService.java:111-142 | the dispatch of a parent id: the root name, then the prefixes in the order the source tries them; DecodeRejectsForeignIds states that an id with none of them gives nothing |
| MediaIds.LibraryRootFoldersSpec | app/src/main/java/com/awsomefox/sprocket/browser/AutoMediaBrowserService.java:175-224 | a library root lists exactly four browsable folders, in order authors, books, chapters in progress and books in progress, each routed to that listing of the library |
| MediaIds.LibraryRootFolders | app/src/main/java/com/awsomefox/sprocket/browser/AutoMediaBrowserService.java:175-224 | the four folders of a library; LibraryRootFoldersSpec states their order, flag and routes |
| MediaIds.ClassifyAllAppend | app/src/main/java/com/awsomefox/sprocket/browser/AutoMediaBrowserService.java:296-348 | classifying a concatenation classifies each part in turn |
| MediaIds.Classify | app/src/main/java/com/awsomefox/sprocket/browser/AutoMediaBrowserService.java:296-348 | an item has an entry exactly when it is a book, an author or a chapter; the entry plays exactly when the item is a chapter, in which case it carries the chapter's rating key and its uri, keys, library and the queue speed as extras. This is the corrected entry of the Findings row for the listing icons: an item without a thumb is listed without an icon |
| MediaIds.ListingAsWritten | app/src/main/java/com/awsomefox/sprocket/browser/AutoMediaBrowserService.java:296-348 | the listing as written, whose entries parse the item's thumb into an icon: it raises exactly when some book, author or chapter of the listing has no thumb, and otherwise sends exactly the corrected entries |
| MediaIds.ThumblessListingRaises | app/src/main/java/com/awsomefox/sprocket/browser/AutoMediaBrowserService.java:333-342 | a listing of one chapter without a thumb raises as written, where the corrected listing holds that chapter as a playable entry |
| MediaIds.ClassifyAll | app/src/main/java/com/awsomefox/sprocket/browser/AutoMediaBrowserService.java:296-348 | the entries of a listing in item order; ClassifyAllAppend and ListingResolves state that it distributes over concatenation and that every browsable entry resolves in the caches |
| MediaIds.CacheBooks | app/src/main/java/com/awsomefox/sprocket/browser/AutoMediaBrowserService.java:299-302 | the book cache after a listing, each listed book under its rating key, later ones replacing earlier; ListingResolves states that the cache stays keyed, keeps its old keys, and holds the book every listed book entry opens |
| MediaIds.CacheAuthors | app/src/main/java/com/awsomefox/sprocket/browser/AutoMediaBrowserService.java:311-315 | the author cache after a listing, each listed author under its rating key, later ones replacing earlier; ListingResolves states that the cache stays keyed, keeps its old keys, and holds the author every listed author entry opens |
| MediaIds.ListingResolves | app/src/main/java/com/awsomefox/sprocket/browser/AutoMediaBrowserService.java:296-348 | every book and author listed goes into its cache under the key its id carries, the caches only grow, and every listed browsable id resolves against them |
| MediaIds.RootFoldersResolve | app/src/main/java/com/awsomefox/sprocket/browser/AutoMediaBrowserService.java:145-167 | each library in the root listing has an id routed to its library root, and the library cache holds it under its uuid |
| MediaIds.RootEntry | app/src/main/java/com/awsomefox/sprocket/browser/AutoMediaBrowserService.java:157-162 | the root entry of a library: browsable, titled by its name, with the library-root id of its uuid; RootFoldersResolve states that the id decodes to that library |
| MediaIds.CacheLibraries | app/src/main/java/com/awsomefox/sprocket/browser/AutoMediaBrowserService.java:154-156 | the library cache after listing the roots, each library under its uuid; LibrariesCached states that every listed library is cached |
| MediaIds.LibrariesCached | app/src/main/java/com/awsomefox/sprocket/browser/AutoMediaBrowserService.java:145-167 | every listed library is in the cache under its own uuid |
| MediaIds.ListedLibraryBrowses | app/src/main/java/com/awsomefox/sprocket/browser/AutoMediaBrowserService.java:145-224 | every folder of a listed library's root decodes, and its look-up finds the library |
| MediaIds.FolderFound | app/src/main/java/com/awsomefox/sprocket/browser/AutoMediaBrowserService.java:175-224 | each of the four folders of a cached library decodes to a route whose look-up finds it |
| MediaIds.RequestFor | app/src/main/java/com/awsomefox/sprocket/browser/AutoMediaBrowserService.java:226-294 | the request each level makes: the book and author lists build a media type from the cached library and fail without one, the other look-ups pass an absent value on; ListedLibraryBrowses and FolderFound state that a listed library's folders find what they look up |
| MediaIds.AutoMediaBrowser.constructor | app/src/main/java/com/awsomefox/sprocket/browser/AutoMediaBrowserService.java:68-83 | the three caches start empty |
| MediaIds.AutoMediaBrowser.OnLoadChildren | app/src/main/java/com/awsomefox/sprocket/browser/AutoMediaBrowserService.java:111-142 | an unknown id gets the empty result; a known one gets the request of its route, looked up in the current caches |
| MediaIds.AutoMediaBrowser.GetRootFolders | app/src/main/java/com/awsomefox/sprocket/browser/AutoMediaBrowserService.java:145-167 | one browsable entry per library, in order, and each library cached by uuid |
| MediaIds.AutoMediaBrowser.AddPlexItemsToBrowserResult | app/src/main/java/com/awsomefox/sprocket/browser/AutoMediaBrowserService.java:296-348 | the listing is the classification of the items, and books and authors are added to their caches |
| ListenStatus.TrackTag | app/src/main/java/com/awsomefox/sprocket/ui/adapter/TrackViewHolder.java:53-68 | a chapter row is partly heard exactly when it has an offset, heard exactly when it has none but was viewed, and not heard otherwise; the recent-chapter row (`RecentViewHolder.java:63-78`) binds by the same chain |
| ListenStatus.OnClick | app/src/main/java/com/awsomefox/sprocket/ui/adapter/ClickableViewHolder.java:38-58 | without a bound position or a listener nothing happens; an untagged view opens the row; "partial" and "none" mark it finished, "full" marks it unstarted, and any other tag does nothing |
| ListenStatus.IconClickToggles | app/src/main/java/com/awsomefox/sprocket/ui/adapter/ClickableViewHolder.java:38-58 | a click on a bound status icon marks a heard chapter unstarted and any other chapter finished |
| ListenStatus.TagString | app/src/main/java/com/awsomefox/sprocket/ui/adapter/ClickableViewHolder.java:28-30 | the tag strings "none", "partial" and "full"; IconClickToggles and MarkThenRebind state that a click on an icon tagged with one of them picks the matching listener call |
| ListenStatus.ScrobbleShowsStatus | app/src/main/java/com/awsomefox/sprocket/data/repository/LocalMusicRepositoryImpl.java:89-105 | a scrobbled chapter shows as heard and an unscrobbled one as not heard |
| ListenStatus.MarkThenRebind | app/src/main/java/com/awsomefox/sprocket/ui/adapter/ClickableViewHolder.java:38-58 | after marking and rebinding, the icon's next click does the opposite |
| SignIn.Validate | app/src/main/java/com/awsomefox/sprocket/ui/LoginController.java:129-138 | a blank username is refused; otherwise a blank password or one under eight characters is refused; otherwise the input is accepted |
| SignIn.UsernameCheckedFirst | app/src/main/java/com/awsomefox/sprocket/ui/LoginController.java:129-138 | when both fields are invalid only the username is flagged |
| SignIn.LengthBoundary | app/src/main/java/com/awsomefox/sprocket/ui/LoginController.java:134-138 | an eight-character password is accepted and a seven-character one refused |
| SignIn.LoginForm.constructor | app/src/main/java/com/awsomefox/sprocket/ui/LoginController.java:100-105 | the form starts enabled, visible, without errors and with nothing sent |
| SignIn.LoginForm.EnableInput | app/src/main/java/com/awsomefox/sprocket/ui/LoginController.java:163-166 | both inputs take input |
| SignIn.LoginForm.DisableInput | app/src/main/java/com/awsomefox/sprocket/ui/LoginController.java:168-171 | neither input takes input |
| SignIn.LoginForm.Login | app/src/main/java/com/awsomefox/sprocket/ui/LoginController.java:123-143 | exactly one request is sent exactly when the input is accepted; a refused field gets its error and the inputs are enabled again; accepted input leaves the inputs disabled, hides the form and shows progress |

## Left out

- The reactive plumbing is not modelled: relays, backpressure, `combineLatest` threading, schedulers, `Single.zip`, and the timeouts and error handlers of the repositories. Each stream is a sequence of calls, and each timeline update completes before the next sample is filtered.
- The repositories' error paths are not modelled. A server error or timeout ends a stream with whatever was already emitted.
- Queue.WrapSpeed: does not model the rounding to five decimals of an in-range speed (`QueueManager.java:51`), because the model uses exact reals in place of 32-bit floats; for the same reason the 0.1 speed step is exact.
- Queue.QueueManager.SetCurrentTrack: the published snapshots are tied to the state only through `Synced` (the log's last entry matches the state), not listed one by one as in SetQueue and SetQueuePosition.
- Orchestrator.PlaybackManager.SwitchToPlayback: hands over with the corrected replay `ReplayCall`. With the old backend playing and an empty queue, the code raises at `PlaybackManager.java:244` instead; `ReplayCallAsWritten` models that raise (see Findings).
- Orchestrator.PlaybackManager.ReplayOnNewBackend: issues the corrected replay `ReplayCall`, for the same reason. The code raises on an empty queue in the playing case, as `ReplayCallAsWritten` models.
- Orchestrator.TrackFromExtras: the thumb test `Strings.isBlank("track.thumb")` (`PlaybackManager.java:307`) is on a fixed literal that is not blank, so the model takes it as false and always sets the thumb. Here `isBlank` is not a parameter.
- Orchestrator.PlaybackManager.OnPlayFromMediaId: the uri extra is kept as a string. Its parse by `HttpUrl.get` (`PlaybackManager.java:291`), which raises on a malformed URL, is not modelled.
- The up-next list is returned as a copy and the queue as a value, so the model does not capture aliasing. An example is `queue.set` writing into the list the caller passed to `setQueue`.
- Backend callbacks are not re-entered from inside the backend. The backend's signals are collected in order, and the callback a backend call makes (such as the state update during `stop`) is recorded right after that backend call.
- How a concrete backend (local audio or cast) moves between states is not modelled. Only the effects the backend contract documents are modelled, and the rest enters through `Report`, `Complete` and `ReportTrack`. `Playback.start` allocates nothing that the model keeps.
- Orchestrator.StateEvents: the corrected update publishes whatever the up-next list holds. As written, `getQueueList()` is evaluated before `onPlaybackStateUpdated` (`PlaybackManager.java:133-134`), so an up-next chapter without a thumb raises and nothing is published; `StateEventsAsWritten` models that raise (see Findings).
- Orchestrator.PlaybackManager.UpdatePlaybackState: publishes `StateEvents` even when an up-next chapter has no thumb, where the code raises at `PlaybackManager.java:168` through `getQueueList` (`:134`, `:144`). Every caller inherits that raise: HandleStopRequest, OnPlaybackStatusChanged, OnCompletion's stop branch, OnStop and ReplayOnNewBackend's stop branch. `StateEventsAsWritten` models it.
- Orchestrator.PlaybackManager.GetQueueList: copies chapters without a thumb, where `getDescriptionBuilder`'s `Uri.parse(Uri.decode(track.thumb()))` (`PlaybackManager.java:168`) raises; `QueueListAsWritten` models that raise.
- The session metadata and the display strings of the description builder are not modelled, nor are the notification, the Android service life cycle and the audio-focus handling.
- URL building, `Strings.isBlank` and the transcode helper are uninterpreted function parameters. The resource strings for the "Authors" and "Books" labels are parameters too.
- The network is not modelled. The remote scrobble and unscrobble are plain server calls, and the remote `addTracks` and `addLibraries` return null.
- The wall clock that `booksRecentlyListendTo` reads is not modelled.
- Time and string formatting are not modelled.
- The remote sections reach the merge as a list of libraries. The local library table, `getAllLibraries`, `addLibraries` and the library mapping are not modelled: the other local tables are schema only.
- The local `browseMediaType`, `artistItems` and `booksInProgress` return null, so there is no behaviour to model. The library-page functions of the merged catalog take the already-fetched lists as inputs.
- Shared preferences are a record of the five persisted values.
- MediaIds.Classify: lists a book, author or chapter without a thumb as an entry without an icon. The code builds the icon with `Uri.parse(Uri.decode(thumb))` (`AutoMediaBrowserService.java:307, 320, 339`), which raises on a missing thumb; `ListingAsWritten` models that raise (see Findings).
- MediaIds.AutoMediaBrowser.AddPlexItemsToBrowserResult: sends the corrected listing, for the same reason. As written, a thumbless item ends the handler before the listing is sent, after the books and authors before it (and a thumbless book or author itself) were cached; `ListingAsWritten` keeps only whether the listing is sent.
- SignIn.Validate: counts the password length in Dafny characters (Unicode scalar values), while `String.length()` (`LoginController.java:134`) counts UTF-16 code units. A password of four characters outside the Basic Multilingual Plane, such as four emoji, has length 8 in Java and is accepted there, but the model refuses it. The model has no UTF-16 encoding.
- SignIn.LengthBoundary: the eight-character boundary is stated in Dafny characters, for the same reason.
- The asynchronous sign-in result (`LoginController.java:144-160`) is not modelled: the stored token, navigation, and re-enabling the form on failure. The model stops at the one request sent.
- The icons, texts and colours of the rows and forms are not modelled. Only the tag and error flags are kept. The one effect of a listing or up-next icon that is modelled is the raise on a missing thumb (see Findings).

## Findings

| source | as written | input that shows it | evidently intended | confidence | as-written member | corrected member |
|---|---|---|---|---|---|---|
| app/src/main/java/com/awsomefox/sprocket/playback/PlaybackManager.java:92-98 | `handlePlayRequest` reads `queueManager.currentTrack()` and tests it against null, but `currentTrack` is `queue.get(position)` (`QueueManager.java:78-80`), which raises on an empty queue instead of returning null | the empty queue at position 0, as after construction or a failed `setQueue` | a play request with nothing queued does nothing | not executed | Orchestrator.PlayOnEmptyQueueRaises | Orchestrator.PlaybackManager.HandlePlayRequest |
| app/src/main/java/com/awsomefox/sprocket/playback/PlaybackManager.java:243-251 | in the playing case, `switchToPlayback` reads `queueManager.currentTrack()` before it tests `resumePlaying`, and then tests the chapter against null; `currentTrack` is `queue.get(position)` (`QueueManager.java:78-80`), which raises on an empty queue, so the `stop(true)` branch can never run | a hand-over while playing with the empty queue at position 0, with either value of resume | a hand-over while playing with nothing queued stops the new backend when asked to resume and pauses it otherwise | not executed | Orchestrator.ReplayOnEmptyQueueRaises | Orchestrator.ReplayCall |
| app/src/main/java/com/awsomefox/sprocket/browser/AutoMediaBrowserService.java:296-348 | every book, author and chapter entry sets its icon to `Uri.parse(Uri.decode(thumb()))`; the thumb is null whenever the server sent none or a blank one (`RemoteMusicRepositoryImpl.java:262-272`, `299-318`), `Uri.decode` passes null through and `Uri.parse` is documented to throw on a null string, so the listing is never sent | a listing holding one chapter whose thumb is missing | an item without a thumb is listed without an icon | not executed; rests on the documented contract of the Android `Uri` class | MediaIds.ThumblessListingRaises | MediaIds.Classify |
| app/src/main/java/com/awsomefox/sprocket/playback/PlaybackManager.java:141-173 | `updatePlaybackState` evaluates `getQueueList()` before it calls `onPlaybackStateUpdated` (`:133-134`), and each up-next entry sets its icon to `Uri.parse(Uri.decode(track.thumb()))` (`:168`); the up-next list starts at the current chapter, a chapter's thumb is null whenever the server sent none or a blank one (`RemoteMusicRepositoryImpl.java:299-318`), and `Uri.parse` is documented to throw on a null string, so no state update is published | a queue of one chapter whose thumb is missing, at position 0 | the session is published, with an up-next entry lacking an icon | not executed; rests on the documented contract of the Android `Uri` class | Orchestrator.ThumblessUpNextPublishesNothing | Orchestrator.PlaybackManager.UpdatePlaybackState |
