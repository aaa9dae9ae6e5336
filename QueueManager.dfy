/**
 * The play queue: an ordered list of chapters, the index of the current one
 * and the playback speed. Every change of the list or of the index is
 * published to a latest-value relay; the relay is modelled by the log of
 * every snapshot it has been given, the last one being what a new
 * subscriber receives.
 */
module Queue {
  import opened Types

  /** A published (queue, position) pair. */
  datatype Snapshot = Snapshot(tracks: seq<Track>, position: int)

  /**
   * The errors the client raises: `List.get` on an index outside the list,
   * and `Uri.parse` on a null string.
   */
  datatype Failure = IndexOutOfBounds | NullUri

  datatype Result<+T> = Ok(value: T) | Err(error: Failure)

  const MinSpeed: real := 0.5
  const MaxSpeed: real := 2.5
  const InitialSpeed: real := 1.0

  /** The speed rule of setSpeed: too fast wraps to the slowest, too slow to the fastest. */
  function WrapSpeed(v: real): (r: real)
    ensures MinSpeed <= r <= MaxSpeed
    ensures MinSpeed <= v <= MaxSpeed ==> r == v
    ensures v > MaxSpeed ==> r == MinSpeed
    ensures v < MinSpeed ==> r == MaxSpeed
  {
    if v > 2.5 then 0.5 else if v < 0.5 then 2.5 else v
  }

  /** The queue invariant: 0 for an empty queue, otherwise an index into it. */
  predicate ValidPosition(n: int, p: int)
  {
    if n <= 0 then p == 0 else 0 <= p < n
  }

  /** Queue-item ids identify one occurrence each. */
  ghost predicate UniqueIds(q: seq<Track>)
  {
    forall i, j :: 0 <= i < |q| && 0 <= j < |q| && q[i].queueItemId == q[j].queueItemId ==> i == j
  }

  /**
   * The search loop of getPositionFromQueueItem from index i on: the first
   * index at or after i whose queue-item id is `id`, or |q| if there is none.
   */
  function FindFrom(q: seq<Track>, id: int, i: nat): (r: nat)
    requires i <= |q|
    ensures i <= r <= |q|
    ensures r < |q| ==> q[r].queueItemId == id
    ensures forall j :: i <= j < r ==> q[j].queueItemId != id
    decreases |q| - i
  {
    if i == |q| then |q|
    else if q[i].queueItemId == id then i
    else FindFrom(q, id, i + 1)
  }

  /** getPositionFromQueueItem: the first matching index, or 0 when nothing matches. */
  function PositionFromQueueItem(q: seq<Track>, id: int): nat
  {
    var i := FindFrom(q, id, 0);
    if i == |q| then 0 else i
  }

  /** The lookup returns the first index carrying the id, and 0 when no entry carries it. */
  lemma PositionFromQueueItemSpec(q: seq<Track>, id: int)
    ensures ValidPosition(|q|, PositionFromQueueItem(q, id))
    ensures (exists j :: 0 <= j < |q| && q[j].queueItemId == id) ==>
              q[PositionFromQueueItem(q, id)].queueItemId == id &&
              forall j :: 0 <= j < PositionFromQueueItem(q, id) ==> q[j].queueItemId != id
    ensures (forall j :: 0 <= j < |q| ==> q[j].queueItemId != id) ==> PositionFromQueueItem(q, id) == 0
  {
    var i := FindFrom(q, id, 0);
    if exists j :: 0 <= j < |q| && q[j].queueItemId == id {
      var j :| 0 <= j < |q| && q[j].queueItemId == id;
      assert i <= j;
    }
  }

  /** With unique ids, looking up the id of the entry at k finds k. */
  lemma PositionOfOwnId(q: seq<Track>, k: int)
    requires 0 <= k < |q| && UniqueIds(q)
    ensures PositionFromQueueItem(q, q[k].queueItemId) == k
  {
    PositionFromQueueItemSpec(q, q[k].queueItemId);
  }

  /** next: one step forward, saturating at the last index (0 for an empty queue). */
  function NextPosition(p: int, n: int): (r: int)
    ensures ValidPosition(n, p) ==> ValidPosition(n, r)
    ensures ValidPosition(n, p) ==> (r == p + 1 <==> p + 1 < n)
    ensures ValidPosition(n, p) && p + 1 >= n ==> r == p
  {
    if p + 1 >= n then (if n - 1 > 0 then n - 1 else 0) else p + 1
  }

  /** previous: one step back, saturating at 0. */
  function PreviousPosition(p: int): (r: int)
    ensures forall n :: ValidPosition(n, p) ==> ValidPosition(n, r)
    ensures p >= 1 ==> r == p - 1
    ensures p <= 0 ==> r == 0
  {
    if p - 1 < 0 then 0 else p - 1
  }

  /** hasNext at a position. */
  predicate HasNextAt(q: seq<Track>, p: int)
  {
    p + 1 < |q|
  }

  /** The up-next list: the current chapter and everything after it. */
  function UpNextOf(q: seq<Track>, p: int): seq<Track>
    requires 0 <= p <= |q|
  {
    q[p..]
  }

  /**
   * Up-next starts with the current chapter, and there is a next chapter
   * exactly when up-next holds more than the current one; a step forward
   * then drops exactly the current chapter from it.
   */
  lemma UpNextAndHasNext(q: seq<Track>, p: int)
    requires ValidPosition(|q|, p)
    ensures |q| > 0 ==> UpNextOf(q, p)[0] == q[p]
    ensures HasNextAt(q, p) <==> |UpNextOf(q, p)| >= 2
    ensures HasNextAt(q, p) ==> UpNextOf(q, NextPosition(p, |q|)) == UpNextOf(q, p)[1..]
    ensures !HasNextAt(q, p) ==> UpNextOf(q, NextPosition(p, |q|)) == UpNextOf(q, p)
  {
  }

  /** The persisted-offset rule of setQueue. */
  predicate TakesPersistedOffset(own: int, persisted: int)
  {
    persisted != 0 && own != 0 && persisted > own
  }

  /**
   * setQueue's override of the selected chapter's offset with the persisted
   * one: only that chapter, only its offset, and never backwards.
   */
  function ApplyPersistedOffset(q: seq<Track>, pos: int, persisted: int): (r: seq<Track>)
    requires 0 <= pos < |q|
    ensures |r| == |q|
    ensures forall j :: 0 <= j < |q| && j != pos ==> r[j] == q[j]
    ensures r[pos] == q[pos].(viewOffset := r[pos].viewOffset)
    ensures r[pos].viewOffset >= q[pos].viewOffset
    ensures r[pos].viewOffset != q[pos].viewOffset <==> TakesPersistedOffset(q[pos].viewOffset, persisted)
  {
    if TakesPersistedOffset(q[pos].viewOffset, persisted)
    then q[pos := q[pos].(viewOffset := persisted)]
    else q
  }

  /**
   * List.get as the client calls it in currentTrack: it raises on an index
   * outside the list, so it never yields null.
   */
  function ListGet(q: seq<Track>, p: int): (r: Result<Track>)
    ensures r.Err? <==> !(0 <= p < |q|)
    ensures r.Ok? ==> r.value == q[p]
  {
    if 0 <= p < |q| then Ok(q[p]) else Err(IndexOutOfBounds)
  }

  class QueueManager {
    var queue: seq<Track>
    var position: int
    var speed: real
    /** Every value the relay has held, oldest first. */
    var published: seq<Snapshot>

    ghost predicate Valid()
      reads this
    {
      ValidPosition(|queue|, position) && ValidFields()
    }

    /** Everything but the position invariant, which setQueue breaks for a moment. */
    ghost predicate ValidFields()
      reads this
    {
      MinSpeed <= speed <= MaxSpeed && |published| > 0
    }

    /** What a new subscriber to the queue stream receives. */
    function Latest(): Snapshot
      reads this
      requires |published| > 0
    {
      published[|published| - 1]
    }

    /** The relay holds the current queue and position. */
    ghost predicate Synced()
      reads this
      requires |published| > 0
    {
      Latest() == Snapshot(queue, position)
    }

    constructor ()
      ensures Valid() && Synced()
      ensures queue == [] && position == 0 && speed == InitialSpeed
      ensures published == [Snapshot([], 0)]
    {
      queue := [];
      position := 0;
      speed := 1.0;
      published := [Snapshot([], 0)];
    }

    /** currentTrack, with the empty queue answered by None. */
    function CurrentTrack(): (r: Option<Track>)
      reads this
      ensures Valid() ==> (r.Some? <==> |queue| > 0)
      ensures r.Some? ==> 0 <= position < |queue| && r.value == queue[position]
    {
      if 0 <= position < |queue| then Some(queue[position]) else None
    }

    /** hasNext: there is a next chapter exactly when up-next holds more than the current one. */
    function HasNext(): (r: bool)
      reads this
      ensures Valid() ==> (r <==> |UpNext()| >= 2)
    {
      HasNextAt(queue, position)
    }

    /** getUpNextQueue: the current chapter and every chapter after it, in queue order. */
    function UpNext(): (r: seq<Track>)
      reads this
      requires Valid()
      ensures |r| == |queue| - position
      ensures forall i :: 0 <= i < |r| ==> r[i] == queue[position + i]
    {
      UpNextOf(queue, position)
    }

    method SetSpeed(v: real)
      requires Valid()
      modifies this`speed
      ensures Valid()
      ensures speed == WrapSpeed(v)
    {
      speed := WrapSpeed(v);
    }

    /** The index loop of getPositionFromQueueItem. */
    method GetPositionFromQueueItem(id: int) returns (p: int)
      ensures p == PositionFromQueueItem(queue, id)
    {
      var i := 0;
      while i < |queue|
        invariant 0 <= i <= |queue|
        invariant FindFrom(queue, id, i) == FindFrom(queue, id, 0)
      {
        if queue[i].queueItemId == id {
          return i;
        }
        i := i + 1;
      }
      return 0;
    }

    /** Moves to the entry with the given id; publishes only when the position changes. */
    method SetQueuePosition(id: int)
      requires ValidFields()
      modifies this`position, this`published
      ensures Valid()
      ensures position == PositionFromQueueItem(queue, id)
      ensures published == if position == old(position) then old(published)
                           else old(published) + [Snapshot(queue, position)]
      ensures old(Synced()) ==> Synced()
    {
      PositionFromQueueItemSpec(queue, id);
      var newPosition := GetPositionFromQueueItem(id);
      if newPosition != position {
        position := newPosition;
        NotifyQueue();
      }
    }

    /**
     * Replaces the queue and selects the entry with the given id. The offset
     * test reads `queue.get(position)` only after finding the persisted offset
     * non-zero, so an empty list raises only with a non-zero persisted
     * offset, after the list has been stored and the position set; `ok` is
     * false then and the final publish does not happen. An empty list with
     * offset 0 is stored and published like any other.
     */
    method SetQueue(q: seq<Track>, id: int, persisted: int) returns (ok: bool)
      requires Valid()
      modifies this`queue, this`position, this`published
      ensures Valid()
      ensures ok <==> |q| > 0 || persisted == 0
      ensures position == PositionFromQueueItem(q, id)
      ensures |q| > 0 ==> queue == ApplyPersistedOffset(q, position, persisted)
      ensures |q| == 0 ==> queue == [] && position == 0
      ensures published == old(published)
                           + (if position != old(position) then [Snapshot(q, position)] else [])
                           + (if ok then [Snapshot(queue, position)] else [])
      ensures ok ==> Synced()
    {
      queue := q;
      SetQueuePosition(id);
      PositionFromQueueItemSpec(q, id);
      if |queue| == 0 {
        if persisted != 0 {
          return false;
        }
        NotifyQueue();
        return true;
      }
      queue := ApplyPersistedOffset(queue, position, persisted);
      NotifyQueue();
      return true;
    }

    /**
     * Selects a chapter the backend reports: by its id when it is in the
     * queue (value equality), otherwise as a queue of its own.
     */
    method SetCurrentTrack(t: Track)
      requires Valid()
      modifies this`queue, this`position, this`published
      ensures Valid()
      ensures t in old(queue) ==> queue == old(queue) && position == PositionFromQueueItem(queue, t.queueItemId)
      ensures t !in old(queue) ==> queue == [t] && position == 0
      ensures CurrentTrack().Some? && CurrentTrack().value.queueItemId == t.queueItemId
      ensures t !in old(queue) || UniqueIds(old(queue)) ==> CurrentTrack() == Some(t)
      ensures old(Synced()) || t !in old(queue) ==> Synced()
    {
      if t in queue {
        ghost var k :| 0 <= k < |queue| && queue[k] == t;
        SetQueuePosition(t.queueItemId);
        PositionFromQueueItemSpec(queue, t.queueItemId);
        if UniqueIds(queue) {
          PositionOfOwnId(queue, k);
        }
      } else {
        var ok := SetQueue([t], t.queueItemId, 0);
      }
    }

    method Next()
      requires Valid()
      modifies this`position, this`published
      ensures Valid()
      ensures position == NextPosition(old(position), |queue|)
      ensures published == old(published) + [Snapshot(queue, position)]
      ensures Synced()
    {
      var newPosition := position;
      if newPosition + 1 >= |queue| {
        newPosition := if |queue| - 1 > 0 then |queue| - 1 else 0;
      } else {
        newPosition := newPosition + 1;
      }
      position := newPosition;
      NotifyQueue();
    }

    method Previous()
      requires Valid()
      modifies this`position, this`published
      ensures Valid()
      ensures position == PreviousPosition(old(position))
      ensures published == old(published) + [Snapshot(queue, position)]
      ensures Synced()
    {
      var newPosition := position;
      if newPosition - 1 < 0 {
        newPosition := 0;
      } else {
        newPosition := newPosition - 1;
      }
      position := newPosition;
      NotifyQueue();
    }

    method NotifyQueue()
      modifies this`published
      ensures published == old(published) + [Snapshot(queue, position)]
      ensures Synced()
    {
      published := published + [Snapshot(queue, position)];
    }
  }
}
