/**
 * The per-download progress throttle of the backend (main.py, class
 * `ProgressManager` and the hook that `create_hook` returns).
 *
 * Clock readings are integer milliseconds supplied by the caller; both
 * `datetime.now()` readings of one hook call (main.py:132 and main.py:163)
 * are taken as the same instant. A scheduled broadcast
 * (`asyncio.create_task(...)`) is recorded in `scheduled`, not run.
 */
module Throttle {
  import opened Wrappers
  import opened Messages
  import ProgressHub

  /** `timedelta(milliseconds=100)` (main.py:128). */
  const UpdateIntervalMs: int := 100

  /**
   * The progress dictionary the media library passes to the hook. A key that is
   * absent reads as the default the code gives to `d.get`: "" for `status`, 0 otherwise.
   */
  datatype HookEvent = HookEvent(
    status: string,
    downloadedBytes: int,
    totalBytes: int,
    totalBytesEstimate: int,
    speed: real,
    eta: int)

  /** The interval check of main.py:132 lets this call through. */
  predicate Passes(lastUpdate: int, now: int)
  {
    now - lastUpdate >= UpdateIntervalMs
  }

  /** `d.get('total_bytes', 0) or d.get('total_bytes_estimate', 0)`: 0 is falsy in Python. */
  function Total(d: HookEvent): int
  {
    if d.totalBytes != 0 then d.totalBytes else d.totalBytesEstimate
  }

  /** What a call that passed the interval check sends (main.py:135-161). */
  function Admitted(videoId: string, d: HookEvent): Option<ProgressMessage>
  {
    if d.status == "downloading" then
      var total := Total(d);
      if total > 0
      then Some(Downloading(videoId, (d.downloadedBytes as real / total as real) * 100.0, d.speed, d.eta))
      else None
    else if d.status == "finished" then Some(Finished(videoId))
    else None
  }

  /** The new `_last_update` and the message scheduled, if any. */
  datatype Step = Step(lastUpdate: int, emitted: Option<ProgressMessage>)

  /** One call of the hook (main.py:131-163). */
  function HookStep(videoId: string, lastUpdate: int, now: int, d: HookEvent): Step
  {
    if !Passes(lastUpdate, now) then Step(lastUpdate, None)
    else Step(now, Admitted(videoId, d))
  }

  function OptionToSeq(o: Option<ProgressMessage>): seq<ProgressMessage>
  {
    if o.Some? then [o.value] else []
  }

  /** One hook call: when it happened and the dictionary it was given. */
  datatype Call = Call(at: int, event: HookEvent)

  /** After a run of calls: the final `_last_update`, the times of the calls let through, the messages sent. */
  datatype Trace = Trace(lastUpdate: int, admittedAt: seq<int>, emitted: seq<ProgressMessage>)

  /** The hook called once for each of `calls`, in order, from `_last_update == lastUpdate`. */
  function Run(videoId: string, lastUpdate: int, calls: seq<Call>): Trace
    decreases |calls|
  {
    if calls == [] then Trace(lastUpdate, [], [])
    else
      var c := calls[0];
      var s := HookStep(videoId, lastUpdate, c.at, c.event);
      var t := Run(videoId, s.lastUpdate, calls[1..]);
      Trace(t.lastUpdate,
            (if Passes(lastUpdate, c.at) then [c.at] else []) + t.admittedAt,
            OptionToSeq(s.emitted) + t.emitted)
  }

  /** Each admitted call is at least one interval after the previous one (or after `lastUpdate`). */
  ghost predicate Spaced(lastUpdate: int, times: seq<int>)
  {
    forall k :: 0 <= k < |times| ==> times[k] - (if k == 0 then lastUpdate else times[k - 1]) >= UpdateIntervalMs
  }

  // ---------------------------------------------------------------------
  // Properties of one call

  /** A call less than 100 ms after `_last_update` is ignored, whatever its status. */
  lemma IgnoredWithinInterval(videoId: string, lastUpdate: int, now: int, d: HookEvent)
    requires now - lastUpdate < UpdateIntervalMs
    ensures HookStep(videoId, lastUpdate, now, d) == Step(lastUpdate, None)
  {
  }

  /** The interval check comes first: a `finished` event 50 ms after the last update is lost. */
  lemma FinishedCanBeDropped(videoId: string, lastUpdate: int)
    ensures HookStep(videoId, lastUpdate, lastUpdate + 50, HookEvent("finished", 0, 0, 0, 0.0, 0)).emitted == None
  {
  }

  /** A call that passes the check moves `_last_update` to now, even when it sends nothing. */
  lemma PassingCallMovesLastUpdate(videoId: string, lastUpdate: int, now: int, d: HookEvent)
    requires Passes(lastUpdate, now)
    ensures HookStep(videoId, lastUpdate, now, d).lastUpdate == now
  {
  }

  /** A passing `downloading` call sends exactly when the total is positive, with the unclamped percentage. */
  lemma DownloadingSendsWhenTotalPositive(videoId: string, lastUpdate: int, now: int, d: HookEvent)
    requires Passes(lastUpdate, now) && d.status == "downloading"
    ensures var e := HookStep(videoId, lastUpdate, now, d).emitted;
      && (e.Some? <==> Total(d) > 0)
      && (e.Some? ==> e.value == Downloading(videoId, d.downloadedBytes as real * 100.0 / Total(d) as real, d.speed, d.eta))
  {
  }

  /** The total falls back to the estimate only when `total_bytes` is 0 or absent. */
  lemma TotalFallsBackToEstimate(d: HookEvent)
    ensures d.totalBytes == 0 ==> Total(d) == d.totalBytesEstimate
    ensures d.totalBytes != 0 ==> Total(d) == d.totalBytes
  {
  }

  /** The estimate is read exactly when `total_bytes` is 0: otherwise no estimate changes the total. */
  lemma EstimateReadOnlyWithoutTotal(d: HookEvent)
    ensures (forall x: int :: Total(d.(totalBytesEstimate := x)) == Total(d)) <==> d.totalBytes != 0
  {
    if d.totalBytes == 0 {
      assert Total(d.(totalBytesEstimate := d.totalBytesEstimate + 1)) != Total(d);
    }
  }

  /** A passing `downloading` report exceeds 100 exactly when more bytes arrived than the total. */
  lemma ProgressAboveHundredIffOverTotal(videoId: string, lastUpdate: int, now: int, d: HookEvent)
    requires Passes(lastUpdate, now) && d.status == "downloading" && Total(d) > 0
    ensures var e := HookStep(videoId, lastUpdate, now, d).emitted;
      e.Some? && (ProgressField(e.value) > 100.0 <==> d.downloadedBytes > Total(d))
  {
    var t := Total(d) as real;
    var p := (d.downloadedBytes as real / t) * 100.0;
    assert p * t == d.downloadedBytes as real * 100.0;
    assert p > 100.0 <==> p * t > 100.0 * t;
  }

  /** For instance, 300 bytes of an estimated 200 report 150. */
  lemma ProgressNotClamped(videoId: string)
    ensures HookStep(videoId, 0, 100, HookEvent("downloading", 300, 0, 200, 0.0, 0)).emitted
            == Some(Downloading(videoId, 150.0, 0.0, 0))
  {
  }

  /** A passing `finished` call sends a `finished` message with progress 100. */
  lemma FinishedSendsHundred(videoId: string, lastUpdate: int, now: int, d: HookEvent)
    requires Passes(lastUpdate, now) && d.status == "finished"
    ensures var e := HookStep(videoId, lastUpdate, now, d).emitted;
      e == Some(Finished(videoId)) && ProgressField(e.value) == 100.0
  {
  }

  /** Any other status, `error` included, sends nothing. */
  lemma OtherStatusSendsNothing(videoId: string, lastUpdate: int, now: int, d: HookEvent)
    requires d.status != "downloading" && d.status != "finished"
    ensures HookStep(videoId, lastUpdate, now, d).emitted == None
  {
  }

  // ---------------------------------------------------------------------
  // Properties of a run of calls

  /** Every message of a run is for this video, and none is an `error` message. */
  lemma {:induction false} RunNeverReportsError(videoId: string, lastUpdate: int, calls: seq<Call>)
    ensures forall k :: 0 <= k < |Run(videoId, lastUpdate, calls).emitted| ==>
              && Run(videoId, lastUpdate, calls).emitted[k].videoId == videoId
              && Status(Run(videoId, lastUpdate, calls).emitted[k]) != "error"
    decreases |calls|
  {
    if calls != [] {
      var c := calls[0];
      var s := HookStep(videoId, lastUpdate, c.at, c.event);
      RunNeverReportsError(videoId, s.lastUpdate, calls[1..]);
      var t := Run(videoId, s.lastUpdate, calls[1..]);
      var head := OptionToSeq(s.emitted);
      assert forall k :: 0 <= k < |head| ==> head[k].videoId == videoId && Status(head[k]) != "error";
      assert Run(videoId, lastUpdate, calls).emitted == head + t.emitted;
    }
  }

  /** Admitted calls are at least one interval apart, whatever order the clock readings come in. */
  lemma {:induction false} RunIsSpaced(videoId: string, lastUpdate: int, calls: seq<Call>)
    ensures Spaced(lastUpdate, Run(videoId, lastUpdate, calls).admittedAt)
    decreases |calls|
  {
    if calls != [] {
      var c := calls[0];
      var s := HookStep(videoId, lastUpdate, c.at, c.event);
      RunIsSpaced(videoId, s.lastUpdate, calls[1..]);
      var t := Run(videoId, s.lastUpdate, calls[1..]);
      if Passes(lastUpdate, c.at) {
        SpacedCons(lastUpdate, c.at, t.admittedAt);
        assert Run(videoId, lastUpdate, calls).admittedAt == [c.at] + t.admittedAt;
      } else {
        assert Run(videoId, lastUpdate, calls).admittedAt == t.admittedAt;
      }
    }
  }

  /**
   * A message is sent only by an admitted call, and the final `_last_update` is the
   * time of the last admitted call.
   */
  lemma {:induction false} RunLastUpdate(videoId: string, lastUpdate: int, calls: seq<Call>)
    ensures |Run(videoId, lastUpdate, calls).emitted| <= |Run(videoId, lastUpdate, calls).admittedAt| <= |calls|
    ensures Run(videoId, lastUpdate, calls).lastUpdate
            == if Run(videoId, lastUpdate, calls).admittedAt == [] then lastUpdate
               else Run(videoId, lastUpdate, calls).admittedAt[|Run(videoId, lastUpdate, calls).admittedAt| - 1]
    decreases |calls|
  {
    if calls != [] {
      var c := calls[0];
      var s := HookStep(videoId, lastUpdate, c.at, c.event);
      RunLastUpdate(videoId, s.lastUpdate, calls[1..]);
    }
  }

  lemma SpacedCons(lastUpdate: int, x: int, rest: seq<int>)
    requires x - lastUpdate >= UpdateIntervalMs && Spaced(x, rest)
    ensures Spaced(lastUpdate, [x] + rest)
  {
    var a := [x] + rest;
    forall k | 0 <= k < |a|
      ensures a[k] - (if k == 0 then lastUpdate else a[k - 1]) >= UpdateIntervalMs
    {
      if k > 0 {
        assert a[k] == rest[k - 1];
        assert rest[k - 1] - (if k - 1 == 0 then x else rest[k - 2]) >= UpdateIntervalMs;
      }
    }
  }

  /** A burst of calls all inside one 100 ms window sends at most one message. */
  lemma {:induction false} AtMostOnePerWindow(videoId: string, lastUpdate: int, calls: seq<Call>, start: int)
    requires forall k :: 0 <= k < |calls| ==> start <= calls[k].at < start + UpdateIntervalMs
    ensures |Run(videoId, lastUpdate, calls).admittedAt| <= 1
    ensures |Run(videoId, lastUpdate, calls).emitted| <= 1
    decreases |calls|
  {
    RunIsSpaced(videoId, lastUpdate, calls);
    RunLastUpdate(videoId, lastUpdate, calls);
    var t := Run(videoId, lastUpdate, calls);
    if |t.admittedAt| >= 2 {
      AdmittedAreCallTimes(videoId, lastUpdate, calls, 0);
      AdmittedAreCallTimes(videoId, lastUpdate, calls, 1);
      assert false;
    }
  }

  /** Every admitted time is the time of some call of the run. */
  lemma {:induction false} AdmittedAreCallTimes(videoId: string, lastUpdate: int, calls: seq<Call>, k: nat)
    requires k < |Run(videoId, lastUpdate, calls).admittedAt|
    ensures exists j :: 0 <= j < |calls| && calls[j].at == Run(videoId, lastUpdate, calls).admittedAt[k]
    decreases |calls|
  {
    var c := calls[0];
    var s := HookStep(videoId, lastUpdate, c.at, c.event);
    var t := Run(videoId, s.lastUpdate, calls[1..]);
    if Passes(lastUpdate, c.at) {
      if k > 0 {
        AdmittedAreCallTimes(videoId, s.lastUpdate, calls[1..], k - 1);
        var j :| 0 <= j < |calls[1..]| && calls[1..][j].at == t.admittedAt[k - 1];
        assert calls[j + 1].at == Run(videoId, lastUpdate, calls).admittedAt[k];
      } else {
        assert calls[0].at == Run(videoId, lastUpdate, calls).admittedAt[0];
      }
    } else {
      AdmittedAreCallTimes(videoId, s.lastUpdate, calls[1..], k);
      var j :| 0 <= j < |calls[1..]| && calls[1..][j].at == t.admittedAt[k];
      assert calls[j + 1].at == Run(videoId, lastUpdate, calls).admittedAt[k];
    }
  }

  // ---------------------------------------------------------------------
  // The object

  class ProgressManager {
    const manager: ProgressHub.WebSocketManager
    const clientId: string
    const videoId: string
    /** `_last_update`, in milliseconds. */
    var lastUpdate: int
    /** Broadcasts handed to `asyncio.create_task`, in the order the hook scheduled them. */
    var scheduled: seq<ProgressMessage>

    /** `__init__` (main.py:123-128): `_last_update` starts at construction time. */
    constructor (manager: ProgressHub.WebSocketManager, clientId: string, videoId: string, now: int)
      ensures this.manager == manager && this.clientId == clientId && this.videoId == videoId
      ensures lastUpdate == now && scheduled == []
    {
      this.manager := manager;
      this.clientId := clientId;
      this.videoId := videoId;
      lastUpdate := now;
      scheduled := [];
    }

    /** The closure returned by `create_hook` (main.py:130-165), called at time `now`. */
    method Hook(now: int, d: HookEvent)
      modifies this
      ensures var s := HookStep(videoId, old(lastUpdate), now, d);
        lastUpdate == s.lastUpdate && scheduled == old(scheduled) + OptionToSeq(s.emitted)
    {
      if now - lastUpdate < UpdateIntervalMs {
        return;
      }
      if d.status == "downloading" {
        var total := if d.totalBytes != 0 then d.totalBytes else d.totalBytesEstimate;
        if total > 0 {
          var progress := (d.downloadedBytes as real / total as real) * 100.0;
          scheduled := scheduled + [Downloading(videoId, progress, d.speed, d.eta)];
        }
      } else if d.status == "finished" {
        scheduled := scheduled + [Finished(videoId)];
      }
      lastUpdate := now;
    }
  }
}
