/** Bounded playback: one session advanced step by step while other clients do as they please. */
module ReplaySchedule {
  import opened Domain
  import opened Replay
  import opened ReplaySessions

  datatype Outcome = Complete | Stopped | StepLimit

  datatype Schedule = Schedule(row: Row, emitted: nat, outcome: Outcome)

  /**
   * What happens outside the loop: the saves other clients attempt before each step and inside it, when a stop is
   * requested, and the clock.
   */
  datatype Surroundings = Surroundings(
    before: nat -> seq<Attempt>, inside: nat -> seq<Attempt>, stopEarly: nat -> bool, stopLate: nat -> bool, clock: nat -> int)

  function BeforeStep(w: Surroundings, n: nat): seq<Attempt> {
    w.before(n)
  }

  function InsideStep(w: Surroundings, n: nat): seq<Attempt> {
    w.inside(n)
  }

  /** A stop is seen before step `n`: once before the first, twice before every later one. */
  predicate StopsAt(w: Surroundings, n: nat) {
    w.stopEarly(n) || (n > 0 && w.stopLate(n))
  }

  /** No other client attempts anything. */
  ghost predicate Quiet(w: Surroundings) {
    forall n: nat :: BeforeStep(w, n) == [] && InsideStep(w, n) == []
  }

  predicate ValidSchedule(candlesPerSecond: real, maximumSteps: int) {
    0.1 <= candlesPerSecond <= 100.0 && 1 <= maximumSteps <= 10000
  }

  /** The versions from `version` on belong to one playback: one cursor step each, from `start`. */
  ghost predicate Played(history: seq<int>, version: int, start: int, emitted: nat) {
    && 0 <= version && version + emitted < |history|
    && (forall v :: version <= v <= version + emitted ==> history[v] == start + (v - version))
  }

  lemma {:induction false} PlayedLater(h: seq<int>, later: seq<int>, version: int, start: int, emitted: nat)
    requires Played(h, version, start, emitted) && h <= later
    ensures Played(later, version, start, emitted)
  {
  }

  lemma {:induction false} PlayedNext(h: seq<int>, version: int, start: int, emitted: nat)
    requires Played(h, version, start, emitted) && |h| == version + emitted + 1
    ensures Played(h + [start + emitted + 1], version, start, emitted + 1)
  {
  }

  /** The frames are those of the candles from `start` on, each with the next index. */
  ghost predicate ConsecutiveFrames(frames: seq<Frame>, candles: seq<Candle>, start: int) {
    forall j :: 0 <= j < |frames| ==> FrameAt(frames[j], candles, start + j)
  }

  lemma {:induction false} FramesNext(frames: seq<Frame>, frame: Frame, candles: seq<Candle>, start: int)
    requires ConsecutiveFrames(frames, candles, start) && FrameAt(frame, candles, start + |frames|)
    ensures ConsecutiveFrames(frames + [frame], candles, start)
  {
    hide FrameAt;
  }

  /** Where a playback that has emitted some frames stands. */
  ghost predicate InPlay(rows: map<int, Row>, history: map<int, seq<int>>, session: int, first: Row, stored: Row,
                         frames: seq<Frame>, candles: seq<Candle>)
  {
    && session in rows && session in history
    && rows[session].checkpoint.dataset == first.checkpoint.dataset && rows[session].total == first.total
    && stored.version == first.version + |frames|
    && stored.checkpoint.nextIndex == first.checkpoint.nextIndex + |frames| && stored.total == first.total
    && Played(history[session], first.version, first.checkpoint.nextIndex, |frames|)
    && ConsecutiveFrames(frames, candles, first.checkpoint.nextIndex)
  }

  lemma {:induction false} StartPlay(rows: map<int, Row>, history: map<int, seq<int>>, session: int, candles: seq<Candle>)
    requires TableSound(rows, history) && session in rows
    ensures InPlay(rows, history, session, rows[session], rows[session], [], candles)
  {
    assert RowSound(rows[session], history[session]);
  }

  /** Interference leaves a playback where it was, or makes its version stale. */
  lemma {:induction false} PlayKept(
    a: map<int, Row>, ha: map<int, seq<int>>, z: map<int, Row>, hz: map<int, seq<int>>,
    session: int, first: Row, stored: Row, frames: seq<Frame>, candles: seq<Candle>)
    requires TableSound(a, ha) && TableSound(z, hz) && TableExtends(a, ha, z, hz)
    requires InPlay(a, ha, session, first, stored, frames, candles)
    ensures InPlay(z, hz, session, first, stored, frames, candles)
    ensures z[session].version == stored.version ==>
              && z[session].checkpoint == Checkpoint(first.checkpoint.dataset, stored.checkpoint.nextIndex)
              && |hz[session]| == stored.version + 1
  {
    hide ConsecutiveFrames, Played;
    PlayedLater(ha[session], hz[session], first.version, first.checkpoint.nextIndex, |frames|);
    assert RowSound(z[session], hz[session]);
    PlayedAt(hz[session], first.version, first.checkpoint.nextIndex, |frames|);
  }

  lemma {:induction false} PlayedAt(h: seq<int>, version: int, start: int, emitted: nat)
    requires Played(h, version, start, emitted)
    ensures 0 <= version && version + emitted < |h| && h[version + emitted] == start + emitted
  {
  }

  lemma {:induction false} PlayNext(
    rows: map<int, Row>, history: map<int, seq<int>>, before: seq<int>,
    session: int, first: Row, stored: Row, row: Row, frames: seq<Frame>, frame: Frame, candles: seq<Candle>)
    requires session in rows && session in history && rows[session] == row
    requires row == stored.(checkpoint := row.checkpoint, version := row.version, at := row.at,
                            instrument := row.instrument, timeframe := row.timeframe)
    requires row.version == stored.version + 1 && row.checkpoint.nextIndex == stored.checkpoint.nextIndex + 1
    requires row.checkpoint.dataset == first.checkpoint.dataset && stored.total == first.total
    requires stored.version == first.version + |frames| && stored.checkpoint.nextIndex == first.checkpoint.nextIndex + |frames|
    requires Played(before, first.version, first.checkpoint.nextIndex, |frames|) && |before| == stored.version + 1
    requires history[session] == before + [row.checkpoint.nextIndex]
    requires ConsecutiveFrames(frames, candles, first.checkpoint.nextIndex)
    requires FrameAt(frame, candles, stored.checkpoint.nextIndex)
    ensures InPlay(rows, history, session, first, row, frames + [frame], candles)
  {
    hide FrameAt, Played, ConsecutiveFrames;
    PlayedNext(before, first.version, first.checkpoint.nextIndex, |frames|);
    FramesNext(frames, frame, candles, first.checkpoint.nextIndex);
  }

  /** What a finished playback owes. */
  ghost predicate PlayedBack(s: Schedule, frames: seq<Frame>, first: Row, candles: seq<Candle>, history: seq<int>, maximumSteps: int,
                             w: Surroundings)
  {
    && |frames| == s.emitted == s.row.version - first.version
    && s.emitted == s.row.checkpoint.nextIndex - first.checkpoint.nextIndex <= maximumSteps
    && s.row.total == first.total
    && Played(history, first.version, first.checkpoint.nextIndex, s.emitted)
    && ConsecutiveFrames(frames, candles, first.checkpoint.nextIndex)
    && (s.outcome == Complete ==> s.row.checkpoint.nextIndex == s.row.total)
    && (s.outcome == StepLimit ==> s.emitted == maximumSteps && s.row.checkpoint.nextIndex < s.row.total)
    && (s.outcome == Stopped ==> StopsAt(w, s.emitted))
    && (forall n: nat :: n < s.emitted ==> !StopsAt(w, n))
  }

  /** The session stands where the playback left it, and can be restored. */
  ghost predicate OnOwn(library: Library, rows: map<int, Row>, session: int, stored: Row) {
    Restorable(library, rows, session) && session in rows && rows[session] == stored
  }

  lemma {:induction false} NothingAttempted(rows: map<int, Row>)
    ensures AfterAttempts(rows, []) == rows
  {
  }

  /** What a session's dataset must match never changes. */
  lemma {:induction false} RestorableKept(
    library: Library, a: map<int, Row>, ha: map<int, seq<int>>, z: map<int, Row>, hz: map<int, seq<int>>, session: int)
    requires a.Keys == ha.Keys && z.Keys == hz.Keys && TableExtends(a, ha, z, hz)
    ensures Restorable(library, a, session) ==> Restorable(library, z, session)
  {
    hide Accepts;
  }

  class ReplayScheduler {
    const coordinator: ReplayCoordinator

    constructor (coordinator: ReplayCoordinator)
      ensures this.coordinator == coordinator
    {
      this.coordinator := coordinator;
    }

    /** One round: others act, then the coordinator steps the session from the version last seen, while others act. */
    method Advance(session: int, stored: Row, at: int, before: seq<Attempt>, inside: seq<Attempt>,
                   ghost first: Row, ghost frames: seq<Frame>, ghost candles: seq<Candle>)
      returns (r: Result<Mutation, Error>)
      requires coordinator.table.Sound() && candles == Fetch(coordinator.library, first.checkpoint.dataset)
      requires InPlay(coordinator.table.rows, coordinator.table.history, session, first, stored, frames, candles)
      modifies coordinator.table
      ensures coordinator.table.Sound()
      ensures TableExtends(old(coordinator.table.rows), old(coordinator.table.history),
                           coordinator.table.rows, coordinator.table.history)
      ensures r.Success? && r.value.frame.None? ==>
                && stored.checkpoint.nextIndex == stored.total
                && InPlay(coordinator.table.rows, coordinator.table.history, session, first, stored, frames, candles)
      ensures r.Success? && r.value.frame.Some? ==>
                && InPlay(coordinator.table.rows, coordinator.table.history, session, first, r.value.row,
                          frames + [r.value.frame.value], candles)
                && r.value.row.checkpoint.nextIndex <= r.value.row.total
      ensures before == [] && inside == [] && OnOwn(coordinator.library, old(coordinator.table.rows), session, stored) ==>
                && r.Success?
                && OnOwn(coordinator.library, coordinator.table.rows, session, if r.value.frame.Some? then r.value.row else stored)
    {
      hide TableExtends, InPlay, Played, ConsecutiveFrames, FrameAt, RowSound, Restorable, Undisturbed, AfterAttempts;
      NothingAttempted(coordinator.table.rows);
      var table := coordinator.table;
      ghost var r0, h0 := table.rows, table.history;
      table.Interfere(before);
      ghost var r1, h1 := table.rows, table.history;
      PlayKept(r0, h0, r1, h1, session, first, stored, frames, candles);
      r := coordinator.Step(session, stored.version, at, inside);
      ExtendsTransitive(r0, h0, r1, h1, table.rows, table.history);
      PlayFacts(r1, h1, session, first, stored, frames, candles);
      QuietIsUndisturbed(r1, session);
      RestorableKept(coordinator.library, r1, h1, table.rows, table.history, session);
      if r.Success? && r.value.frame.None? {
        PlayKept(r1, h1, table.rows, table.history, session, first, stored, frames, candles);
      } else if r.Success? {
        SameEvidence(r1, h1, table.rows, table.history, session);
        PlayNext(table.rows, table.history, h1[session], session, first, stored, r.value.row, frames, r.value.frame.value, candles);
        CursorInRange(table.rows, table.history, session);
      }
    }

    /**
     * Playback under any interference either fails or returns exactly the consecutive frames it emitted, one version and
     * one cursor step each, with no other client's update among them; it is complete at the end of the data, and stops at
     * the step limit only short of it.
     */
    method Run(session: int, expectedVersion: int, candlesPerSecond: real, maximumSteps: int, w: Surroundings)
      returns (r: Result<Schedule, Error>, frames: seq<Frame>)
      requires coordinator.table.Sound()
      modifies coordinator.table
      ensures coordinator.table.Sound()
      ensures TableExtends(old(coordinator.table.rows), old(coordinator.table.history),
                           coordinator.table.rows, coordinator.table.history)
      ensures !ValidSchedule(candlesPerSecond, maximumSteps) ==> r == Failure(BadSchedule) && frames == []
      ensures r.Success? ==>
                && session in old(coordinator.table.rows) && session in coordinator.table.rows
                && old(coordinator.table.rows)[session].version == expectedVersion
                && var first := old(coordinator.table.rows)[session];
                   PlayedBack(r.value, frames, first, Fetch(coordinator.library, first.checkpoint.dataset),
                              coordinator.table.history[session], maximumSteps, w)
      ensures (&& Quiet(w) && ValidSchedule(candlesPerSecond, maximumSteps)
               && Restorable(coordinator.library, old(coordinator.table.rows), session)
               && old(coordinator.table.rows)[session].version == expectedVersion) ==> r.Success?
    {
      hide TableExtends, InPlay, Played, ConsecutiveFrames, RowSound, Restorable, BeforeStep, InsideStep, PlayedBack;
      frames := [];
      ExtendsSelf(coordinator.table.rows, coordinator.table.history);
      if !ValidSchedule(candlesPerSecond, maximumSteps) {
        return Failure(BadSchedule), frames;
      }
      var table := coordinator.table;
      var snapshot := coordinator.Snapshot(session);
      if snapshot.Failure? {
        return Failure(snapshot.error), frames;
      }
      var stored := snapshot.value.0;
      if stored.version != expectedVersion {
        return Failure(StaleVersion), frames;
      }
      ghost var first := stored;
      ghost var candles := Fetch(coordinator.library, first.checkpoint.dataset);
      StartPlay(table.rows, table.history, session, candles);
      var emitted: nat := 0;
      while emitted < maximumSteps
        invariant emitted <= maximumSteps && |frames| == emitted
        invariant table.Sound() && TableExtends(old(table.rows), old(table.history), table.rows, table.history)
        invariant InPlay(table.rows, table.history, session, first, stored, frames, candles)
        invariant emitted > 0 ==> stored.checkpoint.nextIndex < stored.total
        invariant forall n: nat :: n < emitted ==> !StopsAt(w, n)
        invariant Quiet(w) ==> OnOwn(coordinator.library, table.rows, session, stored)
      {
        hide OnOwn, Quiet;
        QuietAt(w, emitted);
        PlayFacts(table.rows, table.history, session, first, stored, frames, candles);
        PlayEnds(table.rows, table.history, session, first, stored, frames, candles, maximumSteps, w);
        if w.stopEarly(emitted) {
          return Success(Schedule(stored, emitted, Stopped)), frames;
        }
        if emitted > 0 && w.stopLate(emitted) {
          return Success(Schedule(stored, emitted, Stopped)), frames;
        }
        ghost var r0, h0 := table.rows, table.history;
        var mutation := Advance(session, stored, w.clock(emitted), BeforeStep(w, emitted), InsideStep(w, emitted), first, frames, candles);
        ExtendsTransitive(old(table.rows), old(table.history), r0, h0, table.rows, table.history);
        if mutation.Failure? {
          return Failure(mutation.error), frames;
        }
        if mutation.value.frame.None? {
          PlayEnds(table.rows, table.history, session, first, stored, frames, candles, maximumSteps, w);
          return Success(Schedule(stored, emitted, Complete)), frames;
        }
        stored := mutation.value.row;
        frames := frames + [mutation.value.frame.value];
        emitted := emitted + 1;
        PlayFacts(table.rows, table.history, session, first, stored, frames, candles);
        PlayEnds(table.rows, table.history, session, first, stored, frames, candles, maximumSteps, w);
        if stored.checkpoint.nextIndex == stored.total {
          return Success(Schedule(stored, emitted, Complete)), frames;
        }
      }
      PlayEnds(table.rows, table.history, session, first, stored, frames, candles, maximumSteps, w);
      return Success(Schedule(stored, emitted, StepLimit)), frames;
    }
  }

  lemma {:induction false} PlayFacts(rows: map<int, Row>, history: map<int, seq<int>>, session: int, first: Row, stored: Row,
                                     frames: seq<Frame>, candles: seq<Candle>)
    requires InPlay(rows, history, session, first, stored, frames, candles)
    ensures session in rows && session in history
    ensures rows[session].checkpoint.dataset == first.checkpoint.dataset && rows[session].total == first.total
    ensures stored.version == first.version + |frames|
    ensures stored.checkpoint.nextIndex == first.checkpoint.nextIndex + |frames| && stored.total == first.total
    ensures Played(history[session], first.version, first.checkpoint.nextIndex, |frames|)
    ensures ConsecutiveFrames(frames, candles, first.checkpoint.nextIndex)
  {
  }

  lemma {:induction false} ExtendsSelf(rows: map<int, Row>, history: map<int, seq<int>>)
    requires rows.Keys == history.Keys
    ensures TableExtends(rows, history, rows, history)
  {
  }

  /** The ways a playback ends where it stands. */
  lemma {:induction false} PlayEnds(rows: map<int, Row>, history: map<int, seq<int>>, session: int, first: Row, stored: Row,
                                    frames: seq<Frame>, candles: seq<Candle>, maximumSteps: int, w: Surroundings)
    requires InPlay(rows, history, session, first, stored, frames, candles) && |frames| <= maximumSteps
    requires forall n: nat :: n < |frames| ==> !StopsAt(w, n)
    ensures session in history
    ensures StopsAt(w, |frames|) ==>
              PlayedBack(Schedule(stored, |frames|, Stopped), frames, first, candles, history[session], maximumSteps, w)
    ensures stored.checkpoint.nextIndex == stored.total ==>
              PlayedBack(Schedule(stored, |frames|, Complete), frames, first, candles, history[session], maximumSteps, w)
    ensures |frames| == maximumSteps && stored.checkpoint.nextIndex < stored.total ==>
              PlayedBack(Schedule(stored, |frames|, StepLimit), frames, first, candles, history[session], maximumSteps, w)
  {
    hide Played, ConsecutiveFrames, StopsAt;
  }

  lemma {:induction false} QuietAt(w: Surroundings, n: nat)
    ensures Quiet(w) ==> BeforeStep(w, n) == [] && InsideStep(w, n) == []
  {
    hide BeforeStep, InsideStep;
  }

  lemma {:induction false} SameEvidence(
    a: map<int, Row>, ha: map<int, seq<int>>, z: map<int, Row>, hz: map<int, seq<int>>, session: int)
    requires a.Keys == ha.Keys && z.Keys == hz.Keys && TableExtends(a, ha, z, hz) && session in a
    ensures session in z && z[session].checkpoint.dataset == a[session].checkpoint.dataset && z[session].total == a[session].total
  {
  }

  lemma {:induction false} CursorInRange(rows: map<int, Row>, history: map<int, seq<int>>, session: int)
    requires TableSound(rows, history) && session in rows
    ensures 0 <= rows[session].checkpoint.nextIndex <= rows[session].total
  {
    assert RowSound(rows[session], history[session]);
  }
}
