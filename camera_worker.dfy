/**
 * backend/app/camera_worker.py: the per-camera tracker registry (`get_tracker`) and one
 * iteration of `camera_loop`'s `while True` body: read a frame, publish it to the live
 * frame table, reload the identity cache when it is due, detect, track, and for each
 * confirmed track clamp its box, filter small crops, embed, match and, on acceptance,
 * write the snapshot, insert the detection record and send the alert.
 *
 * The capture device, the clocks, the detector, DeepSort, the embedder, the store and the
 * alert callback are oracles carried by `Tick` and `TrackContext`; what the source does
 * with their answers is recorded as a trace of `Effect`s in call order.
 */
module CameraWorker {
  import opened Wrappers
  import Decimal
  import Face
  import Mjpeg

  /** A DeepSort instance, with the configuration `get_tracker` gives it; its tracking state is an oracle. */
  class Tracker {
    const maxAge: nat
    const nInit: nat
    const maxCosineDistance: real

    constructor ()
      ensures maxAge == 30 && nInit == 1 && maxCosineDistance == 0.7
    {
      maxAge := 30;
      nInit := 1;
      maxCosineDistance := 0.7;
    }
  }

  /** The module-level `_trackers` dictionary: camera id to that camera's tracker. */
  class TrackerRegistry {
    var trackers: map<string, Tracker>

    constructor ()
      ensures trackers == map[]
    {
      trackers := map[];
    }

    /** `get_tracker`: create a tracker only for an absent camera id, and return the registered one. */
    method GetTracker(cameraId: string) returns (t: Tracker)
      modifies this
      ensures cameraId in trackers && trackers[cameraId] == t
      ensures cameraId in old(trackers) ==> t == old(trackers)[cameraId] && trackers == old(trackers)
      ensures cameraId !in old(trackers) ==>
        fresh(t) && trackers == old(trackers)[cameraId := t] &&
        t.maxAge == 30 && t.nInit == 1 && t.maxCosineDistance == 0.7
    {
      if cameraId !in trackers {
        var created := new Tracker();
        trackers := trackers[cameraId := created];
      }
      t := trackers[cameraId];
    }
  }

  /** A face from `detect_faces`: the integer box and the score, which `d.get("score", 0.9)` may find missing. */
  datatype Detection = Detection(x1: int, y1: int, x2: int, y2: int, score: Option<real>)

  /** One row `[x1, y1, x2, y2, conf, 0]` of the list handed to `update_tracks`. */
  datatype TrackerDetection = TrackerDetection(x1: real, y1: real, x2: real, y2: real, confidence: real, detectionClass: int)

  const DefaultScore: real := 0.9

  /** The tracker input for a list of detections, in detection order. */
  function TrackerInput(dets: seq<Detection>): (r: seq<TrackerDetection>)
    ensures |r| == |dets|
    ensures forall i :: 0 <= i < |dets| ==>
      && r[i].x1 == dets[i].x1 as real && r[i].y1 == dets[i].y1 as real
      && r[i].x2 == dets[i].x2 as real && r[i].y2 == dets[i].y2 as real
      && r[i].confidence == (if dets[i].score.Some? then dets[i].score.value else DefaultScore)
      && r[i].detectionClass == 0
  {
    seq(|dets|, i requires 0 <= i < |dets| =>
      TrackerDetection(dets[i].x1 as real, dets[i].y1 as real, dets[i].x2 as real, dets[i].y2 as real,
                       if dets[i].score.Some? then dets[i].score.value else DefaultScore, 0))
  }

  /** The loop that builds `ds_dets` by `append`. */
  method BuildTrackerInput(dets: seq<Detection>) returns (dsDets: seq<TrackerDetection>)
    ensures dsDets == TrackerInput(dets)
  {
    dsDets := [];
    for i := 0 to |dets|
      invariant dsDets == TrackerInput(dets)[..i]
    {
      var d := dets[i];
      var conf := if d.score.Some? then d.score.value else DefaultScore;
      dsDets := dsDets + [TrackerDetection(d.x1 as real, d.y1 as real, d.x2 as real, d.y2 as real, conf, 0)];
    }
  }

  /** A track from `update_tracks`: its id, `is_confirmed()`, and `to_ltrb()`. */
  datatype Track = Track(trackId: string, confirmed: bool, left: real, top: real, right: real, bottom: real)

  /** Python's `int(r)` on a real: truncation toward zero. */
  function Trunc(r: real): (t: int)
    ensures 0.0 <= r ==> t as real <= r < t as real + 1.0
    ensures r < 0.0 ==> t as real - 1.0 < r <= t as real
  {
    if r >= 0.0 then r.Floor else -((-r).Floor)
  }

  /** `x, y, w, h = int(l), int(t_y), int(r - l), int(b - t_y)`. */
  datatype Box = Box(x: int, y: int, w: int, h: int)

  function TrackBox(t: Track): Box {
    Box(Trunc(t.left), Trunc(t.top), Trunc(t.right - t.left), Trunc(t.bottom - t.top))
  }

  /** A crop `frame[y:y2, x:x2]`. */
  datatype Region = Region(x: int, y: int, x2: int, y2: int)

  function Max(a: int, b: int): int { if a >= b then a else b }
  function Min(a: int, b: int): int { if a <= b then a else b }

  /**
   * The clamp `x = max(0, x); y = max(0, y); x2 = min(w_frame-1, x2); y2 = min(h_frame-1, y2)`:
   * the result lies within the frame, and a coordinate moves only when it lay outside.
   */
  function Clamp(x: int, y: int, x2: int, y2: int, width: int, height: int): (r: Region)
    ensures 0 <= r.x && 0 <= r.y && r.x2 <= width - 1 && r.y2 <= height - 1
    ensures r.x == x || (x < 0 && r.x == 0)
    ensures r.y == y || (y < 0 && r.y == 0)
    ensures r.x2 == x2 || (x2 > width - 1 && r.x2 == width - 1)
    ensures r.y2 == y2 || (y2 > height - 1 && r.y2 == height - 1)
  {
    Region(Max(0, x), Max(0, y), Min(width - 1, x2), Min(height - 1, y2))
  }

  /** The minimum side of a crop, exclusive: `x2 - x <= 8 or y2 - y <= 8` is skipped. */
  const MinCropSide: int := 8

  predicate LargeEnough(r: Region) {
    r.x2 - r.x > MinCropSide && r.y2 - r.y > MinCropSide
  }

  /** A crop that passes the size filter lies inside the frame and is more than 8 pixels each way. */
  lemma LargeCropInsideFrame(t: Track, width: int, height: int)
    requires LargeEnough(CropOf(t, width, height))
    ensures var r := CropOf(t, width, height);
      0 <= r.x && r.x + MinCropSide < r.x2 <= width - 1 && 0 <= r.y && r.y + MinCropSide < r.y2 <= height - 1
  {
  }

  /** A person reference inside an alert: `{"id": ..., "name": ...}`. */
  datatype PersonRef = PersonRef(id: string, name: string)

  /** The arguments of `insert_detection`; `bbox` and `trackId` form its `raw_metadata`. */
  datatype DetectionRecord = DetectionRecord(
    personId: string, cameraId: string, timestamp: string, confidence: real,
    snapshotPath: string, bbox: seq<int>, trackId: string)

  /** The alert dictionary handed to `ALERT_CALLBACK`. */
  datatype Alert = Alert(
    cameraId: string, timestamp: string, person: PersonRef, confidence: real,
    snapshot: string, trackId: string)

  /** What one iteration does to the outside world, in the order it does it. */
  datatype Effect =
    | ReadRetried                                 // the read failed: sleep 1 s and read again
    | DetectErrorLogged                           // `detect_faces` raised: logged, no detections
    | EmbedRequested(region: Region)              // `get_embedding_from_face` on this crop
    | SnapshotWritten(path: string)               // `cv2.imwrite(path, frame)`
    | DetectionInserted(record: DetectionRecord)  // `insert_detection(...)` called
    | InsertErrorLogged                           // ... and it raised: logged
    | AlertSent(alert: Alert)                     // `await ALERT_CALLBACK(alert)`
    | CallbackErrorLogged                         // ... and it raised: logged

  /**
   * The answers the per-track code gets from outside for one frame. `isoTime(k)` and
   * `unixTime(k)` are the clock readings taken for the k-th track of the frame; `insertOk`
   * says whether `insert_detection` returns normally; `callback` is `ALERT_CALLBACK`
   * (`None` while unset), giving whether a call returns normally.
   */
  datatype TrackContext = TrackContext(
    cameraId: string,
    frameWidth: int,
    frameHeight: int,
    cache: seq<Face.Person>,
    distance: Face.DistanceOracle,
    threshold: real,
    embed: Region -> Option<Face.Embedding>,
    isoTime: nat -> string,
    unixTime: nat -> real,
    insertOk: DetectionRecord -> bool,
    callback: Option<Alert -> bool>)

  /** The acceptance rule `if best and dist <= SIMILARITY_THRESHOLD`. */
  predicate Accepts(m: Face.MatchResult, threshold: real) {
    m.best.Some? && m.distance <= threshold
  }

  const SnapshotDir: string := "snapshots"

  /** `f"{camera_id}_{int(time.time())}_{track_id}.jpg"`. */
  function SnapshotName(cameraId: string, secs: int, trackId: string): (n: string)
    ensures |n| == |cameraId| + |Decimal.IntToString(secs)| + |trackId| + 6
    ensures n[..|cameraId| + 1] == cameraId + "_"
    ensures n[|n| - |trackId| - 5..] == "_" + trackId + ".jpg"
  {
    cameraId + "_" + Decimal.IntToString(secs) + "_" + trackId + ".jpg"
  }

  /** `os.path.join(dir, name)` for POSIX paths: an absolute name replaces the directory. */
  function JoinPath(dir: string, name: string): (p: string)
    ensures |name| > 0 && name[0] == '/' ==> p == name
    ensures !(|name| > 0 && name[0] == '/') && |dir| > 0 && dir[|dir| - 1] != '/' ==> p == dir + "/" + name
  {
    if |name| > 0 && name[0] == '/' then name
    else if |dir| == 0 || dir[|dir| - 1] == '/' then dir + name
    else dir + "/" + name
  }

  /** The clamped crop of a track. */
  function CropOf(t: Track, width: int, height: int): Region {
    var b := TrackBox(t);
    Clamp(b.x, b.y, b.x + b.w, b.y + b.h, width, height)
  }

  /** The match for a track whose crop embedded to `e`. */
  function MatchFor(ctx: TrackContext, e: Face.Embedding): Face.MatchResult {
    Face.Match(Some(e), ctx.cache, ctx.distance)
  }

  /** The track goes all the way to a snapshot, a record and (if a callback is set) an alert. */
  predicate Accepted(ctx: TrackContext, t: Track) {
    var r := CropOf(t, ctx.frameWidth, ctx.frameHeight);
    && t.confirmed
    && LargeEnough(r)
    && ctx.embed(r).Some?
    && Accepts(MatchFor(ctx, ctx.embed(r).value), ctx.threshold)
  }

  /**
   * The row `insert_detection` writes: the person's id, the camera, the timestamp, the distance as
   * confidence and the snapshot name; the box has the clamped, hence non-negative, corner with
   * the unclamped width and height.
   */
  function RecordFor(ctx: TrackContext, k: nat, t: Track, person: Face.Person, dist: real): (rec: DetectionRecord)
    ensures rec.personId == person.id && rec.cameraId == ctx.cameraId && rec.confidence == dist
    ensures rec.timestamp == ctx.isoTime(k) && rec.trackId == t.trackId
    ensures rec.snapshotPath == SnapshotName(ctx.cameraId, Trunc(ctx.unixTime(k)), t.trackId)
    ensures |rec.bbox| == 4 && rec.bbox[0] >= 0 && rec.bbox[1] >= 0
    ensures rec.bbox[2] == TrackBox(t).w && rec.bbox[3] == TrackBox(t).h
  {
    var r := CropOf(t, ctx.frameWidth, ctx.frameHeight);
    var b := TrackBox(t);
    DetectionRecord(person.id, ctx.cameraId, ctx.isoTime(k), dist,
                    SnapshotName(ctx.cameraId, Trunc(ctx.unixTime(k)), t.trackId),
                    [r.x, r.y, b.w, b.h], t.trackId)
  }

  /** The alert for the same match: it carries what the stored record carries, plus the person's name. */
  function AlertFor(ctx: TrackContext, k: nat, t: Track, person: Face.Person, dist: real): (a: Alert)
    ensures var rec := RecordFor(ctx, k, t, person, dist);
      && a.cameraId == rec.cameraId && a.timestamp == rec.timestamp
      && a.person.id == rec.personId && a.person.name == person.name
      && a.confidence == rec.confidence && a.snapshot == rec.snapshotPath && a.trackId == rec.trackId
  {
    Alert(ctx.cameraId, ctx.isoTime(k), PersonRef(person.id, person.name), dist,
          SnapshotName(ctx.cameraId, Trunc(ctx.unixTime(k)), t.trackId), t.trackId)
  }

  /** Snapshot, then record, then alert; a failed insert is logged and the alert still goes out. */
  function AcceptedEffects(ctx: TrackContext, k: nat, t: Track, person: Face.Person, dist: real): seq<Effect> {
    var record := RecordFor(ctx, k, t, person, dist);
    var alert := AlertFor(ctx, k, t, person, dist);
    [SnapshotWritten(JoinPath(SnapshotDir, record.snapshotPath)), DetectionInserted(record)]
    + (if ctx.insertOk(record) then [] else [InsertErrorLogged])
    + (match ctx.callback
       case None => []
       case Some(ok) => [AlertSent(alert)] + (if ok(alert) then [] else [CallbackErrorLogged]))
  }

  /** The effects of the loop body for the k-th track of a frame. */
  function TrackEffects(ctx: TrackContext, k: nat, t: Track): seq<Effect> {
    if !t.confirmed then []
    else
      var r := CropOf(t, ctx.frameWidth, ctx.frameHeight);
      if !LargeEnough(r) then []
      else
        [EmbedRequested(r)] +
        match ctx.embed(r)
        case None => []
        case Some(e) =>
          var m := MatchFor(ctx, e);
          if Accepts(m, ctx.threshold) then AcceptedEffects(ctx, k, t, m.best.value, m.distance) else []
  }

  /** The effects of each track of a frame, separately. */
  function TrackParts(ctx: TrackContext, tracks: seq<Track>): seq<seq<Effect>> {
    seq(|tracks|, k requires 0 <= k < |tracks| => TrackEffects(ctx, k, tracks[k]))
  }

  /** The first n parts, one after the other. */
  function Flatten<T>(parts: seq<seq<T>>, n: nat): seq<T>
    requires n <= |parts|
  {
    if n == 0 then [] else Flatten(parts, n - 1) + parts[n - 1]
  }

  /** The effects of the first n tracks, track by track. */
  function TracksEffects(ctx: TrackContext, tracks: seq<Track>, n: nat): seq<Effect>
    requires n <= |tracks|
  {
    Flatten(TrackParts(ctx, tracks), n)
  }

  /** The body of `for t in tracks:` for one track, with the clamp done by reassignment. */
  method ProcessTrack(ctx: TrackContext, tracks: seq<Track>, k: nat) returns (effects: seq<Effect>)
    requires k < |tracks|
    ensures effects == TrackParts(ctx, tracks)[k]
  {
    var t := tracks[k];
    assert TrackParts(ctx, tracks)[k] == TrackEffects(ctx, k, t);
    effects := [];
    if !t.confirmed {
      return;
    }
    var trackId := t.trackId;
    var x, y, w, h := Trunc(t.left), Trunc(t.top), Trunc(t.right - t.left), Trunc(t.bottom - t.top);
    var x2 := x + w;
    var y2 := y + h;
    x := Max(0, x);
    y := Max(0, y);
    x2 := Min(ctx.frameWidth - 1, x2);
    y2 := Min(ctx.frameHeight - 1, y2);
    if x2 - x <= MinCropSide || y2 - y <= MinCropSide {
      return;
    }
    var crop := Region(x, y, x2, y2);
    assert crop == CropOf(t, ctx.frameWidth, ctx.frameHeight);
    effects := effects + [EmbedRequested(crop)];
    var emb := ctx.embed(crop);
    if emb.None? {
      return;
    }
    var best, dist := Face.MatchEmbedding(emb, ctx.cache, ctx.distance);
    ghost var m := MatchFor(ctx, emb.value);
    assert m == Face.MatchResult(best, dist);
    if best.Some? && dist <= ctx.threshold {
      var reported := ReportMatch(ctx, k, t, x, y, w, h, best.value, dist);
      effects := effects + reported;
    }
  }

  /**
   * The body of `if best and dist <= SIMILARITY_THRESHOLD:` for the k-th track, with
   * `x, y` the clamped corner and `w, h` the unclamped size: snapshot, insert, alert.
   */
  method ReportMatch(ctx: TrackContext, k: nat, t: Track, x: int, y: int, w: int, h: int,
                     person: Face.Person, dist: real) returns (effects: seq<Effect>)
    requires x == CropOf(t, ctx.frameWidth, ctx.frameHeight).x && y == CropOf(t, ctx.frameWidth, ctx.frameHeight).y
    requires w == TrackBox(t).w && h == TrackBox(t).h
    ensures effects == AcceptedEffects(ctx, k, t, person, dist)
  {
    var ts := ctx.isoTime(k);
    var fname := SnapshotName(ctx.cameraId, Trunc(ctx.unixTime(k)), t.trackId);
    effects := [SnapshotWritten(JoinPath(SnapshotDir, fname))];
    var record := DetectionRecord(person.id, ctx.cameraId, ts, dist, fname, [x, y, w, h], t.trackId);
    effects := effects + [DetectionInserted(record)];
    if !ctx.insertOk(record) {
      effects := effects + [InsertErrorLogged];
    }
    var alert := Alert(ctx.cameraId, ts, PersonRef(person.id, person.name), dist, fname, t.trackId);
    if ctx.callback.Some? {
      effects := effects + [AlertSent(alert)];
      if !ctx.callback.value(alert) {
        effects := effects + [CallbackErrorLogged];
      }
    }
    assert record == RecordFor(ctx, k, t, person, dist);
    assert alert == AlertFor(ctx, k, t, person, dist);
  }

  /** `for t in tracks:`: every track is processed, in order, whatever happened to the earlier ones. */
  method ProcessTracks(ctx: TrackContext, tracks: seq<Track>) returns (effects: seq<Effect>)
    ensures effects == TracksEffects(ctx, tracks, |tracks|)
  {
    effects := [];
    for k := 0 to |tracks|
      invariant effects == TracksEffects(ctx, tracks, k)
    {
      var e := ProcessTrack(ctx, tracks, k);
      assert TracksEffects(ctx, tracks, k + 1) == TracksEffects(ctx, tracks, k) + e;
      effects := effects + e;
    }
  }

  /** An unconfirmed track, or one whose clamped crop is 8 pixels or less either way, never reaches the embedder and has no effect. */
  lemma SkippedTrackHasNoEffect(ctx: TrackContext, k: nat, t: Track)
    requires !t.confirmed || !LargeEnough(CropOf(t, ctx.frameWidth, ctx.frameHeight))
    ensures TrackEffects(ctx, k, t) == []
  {
  }

  /**
   * The embedder is asked exactly for the confirmed tracks whose clamped crop passes the size
   * filter, once per track, as the first effect; a track that is not accepted does nothing more.
   */
  lemma EmbedderCalledIff(ctx: TrackContext, k: nat, t: Track)
    ensures var e := TrackEffects(ctx, k, t);
      && (e != [] <==> t.confirmed && LargeEnough(CropOf(t, ctx.frameWidth, ctx.frameHeight)))
      && (e != [] ==> e[0] == EmbedRequested(CropOf(t, ctx.frameWidth, ctx.frameHeight)))
      && (forall i :: 0 < i < |e| ==> !e[i].EmbedRequested?)
      && (!Accepted(ctx, t) ==> |e| <= 1)
  {
  }

  /**
   * An accepted track emits, in order: the embed request, the snapshot write, the detection
   * insert, the insert error (only if the insert raised), the alert (whenever a callback is
   * set, also after a failed insert) and the callback error (only if it raised).
   * Record and alert agree on camera id, timestamp, person id, confidence, snapshot name and
   * track id; the stored box is the clamped corner with the unclamped width and height.
   */
  lemma AcceptedTrackEffects(ctx: TrackContext, k: nat, t: Track)
    requires Accepted(ctx, t)
    ensures var e := TrackEffects(ctx, k, t);
      var r := CropOf(t, ctx.frameWidth, ctx.frameHeight);
      var m := MatchFor(ctx, ctx.embed(r).value);
      var rec := RecordFor(ctx, k, t, m.best.value, m.distance);
      var alert := AlertFor(ctx, k, t, m.best.value, m.distance);
      var a := if ctx.insertOk(rec) then 3 else 4;
      && |e| == a + (if ctx.callback.None? then 0 else if ctx.callback.value(alert) then 1 else 2)
      && e[0] == EmbedRequested(r)
      && e[1] == SnapshotWritten(JoinPath(SnapshotDir, rec.snapshotPath))
      && e[2] == DetectionInserted(rec)
      && (!ctx.insertOk(rec) ==> e[3] == InsertErrorLogged)
      && (ctx.callback.Some? ==> e[a] == AlertSent(alert))
      && (ctx.callback.Some? && !ctx.callback.value(alert) ==> e[a + 1] == CallbackErrorLogged)
      && rec.cameraId == alert.cameraId == ctx.cameraId
      && rec.timestamp == alert.timestamp
      && rec.personId == alert.person.id == m.best.value.id
      && alert.person.name == m.best.value.name
      && rec.confidence == alert.confidence == m.distance <= ctx.threshold
      && rec.snapshotPath == alert.snapshot == SnapshotName(ctx.cameraId, Trunc(ctx.unixTime(k)), t.trackId)
      && rec.trackId == alert.trackId == t.trackId
      && rec.bbox == [r.x, r.y, TrackBox(t).w, TrackBox(t).h]
  {
  }

  /**
   * The person an accepted track is reported as is the first cache entry of minimal distance
   * to the crop's embedding, and that distance is within the threshold and below 1.0.
   */
  lemma AcceptedPersonIsBestMatch(ctx: TrackContext, k: nat, t: Track)
    requires Accepted(ctx, t)
    ensures var e := ctx.embed(CropOf(t, ctx.frameWidth, ctx.frameHeight)).value;
      var m := MatchFor(ctx, e);
      && m.distance <= ctx.threshold
      && exists i :: Face.IsFirstMinimum(e, ctx.cache, ctx.distance, i, m.distance) && ctx.cache[i] == m.best.value
  {
    var e := ctx.embed(CropOf(t, ctx.frameWidth, ctx.frameHeight)).value;
    Face.MatchSound(e, ctx.cache, ctx.distance);
  }

  /**
   * A crop's embedding is accepted iff some usable cache entry lies within the threshold and
   * below the 1.0 sentinel: the best match is then one such entry.
   */
  lemma AcceptsIff(query: Face.Embedding, cache: seq<Face.Person>, distance: Face.DistanceOracle, threshold: real)
    ensures Accepts(Face.Match(Some(query), cache, distance), threshold) <==>
      exists j :: 0 <= j < |cache| && Face.EntryDistance(query, cache[j], distance).Some?
        && Face.EntryDistance(query, cache[j], distance).value <= threshold
        && Face.EntryDistance(query, cache[j], distance).value < 1.0
  {
    Face.MatchSound(query, cache, distance);
  }

  /**
   * The snapshot lands under `snapshots/` unless the camera id starts with `/`, in which case
   * `os.path.join` drops the directory and the file name is used as an absolute path.
   */
  lemma SnapshotPath(cameraId: string, secs: int, trackId: string)
    ensures var name := SnapshotName(cameraId, secs, trackId);
      && (|cameraId| > 0 && cameraId[0] == '/' ==> JoinPath(SnapshotDir, name) == name)
      && (!(|cameraId| > 0 && cameraId[0] == '/') ==> JoinPath(SnapshotDir, name) == SnapshotDir + "/" + name)
  {
    var name := SnapshotName(cameraId, secs, trackId);
    assert name[0] == (cameraId + "_")[0];
  }

  /** The first m parts are a prefix of the first n. */
  lemma {:induction false} FlattenPrefix<T>(parts: seq<seq<T>>, m: nat, n: nat)
    requires m <= n <= |parts|
    ensures |Flatten(parts, m)| <= |Flatten(parts, n)|
    ensures Flatten(parts, n)[..|Flatten(parts, m)|] == Flatten(parts, m)
    decreases n - m
  {
    if m < n {
      FlattenPrefix(parts, m, n - 1);
      var a := Flatten(parts, m);
      var b := Flatten(parts, n - 1);
      assert (b + parts[n - 1])[..|a|] == b[..|a|];
    }
  }

  /** Part k sits in the whole right after the parts before it. */
  lemma FlattenPart<T>(parts: seq<seq<T>>, k: nat)
    requires k < |parts|
    ensures var all := Flatten(parts, |parts|);
      var before := |Flatten(parts, k)|;
      var through := |Flatten(parts, k + 1)|;
      before <= through <= |all| && all[before..through] == parts[k]
  {
    FlattenPrefix(parts, k + 1, |parts|);
    var a := Flatten(parts, k);
    var all := Flatten(parts, |parts|);
    var through := Flatten(parts, k + 1);
    assert all[..|through|] == through;
    assert all[|a|..|through|] == through[|a|..];
  }

  /** The effects of the first m tracks are a prefix of those of the first n. */
  lemma TracksEffectsPrefix(ctx: TrackContext, tracks: seq<Track>, m: nat, n: nat)
    requires m <= n <= |tracks|
    ensures |TracksEffects(ctx, tracks, m)| <= |TracksEffects(ctx, tracks, n)|
    ensures TracksEffects(ctx, tracks, n)[..|TracksEffects(ctx, tracks, m)|] == TracksEffects(ctx, tracks, m)
  {
    FlattenPrefix(TrackParts(ctx, tracks), m, n);
  }

  /**
   * Error isolation across tracks: in the frame's trace, right after the effects of the tracks
   * before k come exactly the effects of track k, whatever earlier tracks did (skipped, failed
   * to embed, failed to insert).
   */
  lemma EveryTrackProcessed(ctx: TrackContext, tracks: seq<Track>, k: nat)
    requires k < |tracks|
    ensures var all := TracksEffects(ctx, tracks, |tracks|);
      var before := |TracksEffects(ctx, tracks, k)|;
      var through := |TracksEffects(ctx, tracks, k + 1)|;
      before <= through <= |all| && all[before..through] == TrackEffects(ctx, k, tracks[k])
  {
    FlattenPart(TrackParts(ctx, tracks), k);
  }

  /** A frame as read and decoded: its size (`frame.shape[:2]`) and its JPEG encoding for the live table. */
  datatype Frame = Frame(width: nat, height: nat, jpeg: seq<Mjpeg.byte>)

  /**
   * Everything one loop iteration learns from outside: the read (`None` when `ret` is false or the
   * frame is None), the clock at the reload check and after the reload, the reload result (`None`
   * when the store raised), the detector result (`None` when it raised), DeepSort's answer, and
   * the per-track oracles.
   */
  datatype Tick = Tick(
    frame: Option<Frame>,
    now: real,
    reload: Option<seq<Face.Person>>,
    reloadedAt: real,
    detections: Option<seq<Detection>>,
    updateTracks: (Tracker, seq<TrackerDetection>) -> seq<Track>,
    embed: Region -> Option<Face.Embedding>,
    isoTime: nat -> string,
    unixTime: nat -> real,
    insertOk: DetectionRecord -> bool,
    callback: Option<Alert -> bool>)

  /** Seconds between identity cache reloads (`time.time() - last_reload > 60`). */
  const ReloadInterval: real := 60.0

  predicate ReloadDue(lastReload: real, now: real) {
    now - lastReload > ReloadInterval
  }

  /** The detector result, with `dets = []` after a detector exception. */
  function DetectionsOf(tick: Tick): seq<Detection> {
    if tick.detections.Some? then tick.detections.value else []
  }

  /** The per-track context of a frame: its size, the current cache and the tick's oracles. */
  function ContextOf(cameraId: string, threshold: real, distance: Face.DistanceOracle,
                     cache: seq<Face.Person>, frame: Frame, tick: Tick): TrackContext
  {
    TrackContext(cameraId, frame.width, frame.height, cache, distance, threshold,
                 tick.embed, tick.isoTime, tick.unixTime, tick.insertOk, tick.callback)
  }

  /** The effects of tracking a frame: DeepSort on the tracker input, then every track in order. */
  function TrackingEffects(ctx: TrackContext, tick: Tick, tracker: Tracker): seq<Effect> {
    var tracks := tick.updateTracks(tracker, TrackerInput(DetectionsOf(tick)));
    TracksEffects(ctx, tracks, |tracks|)
  }

  /** The effects of a frame after publishing and the reload check: detection, tracking, then every track. */
  function FrameEffects(cameraId: string, threshold: real, distance: Face.DistanceOracle,
                        cache: seq<Face.Person>, frame: Frame, tick: Tick, tracker: Tracker): seq<Effect>
  {
    (if tick.detections.None? then [DetectErrorLogged] else []) +
    TrackingEffects(ContextOf(cameraId, threshold, distance, cache, frame, tick), tick, tracker)
  }

  /** `ds_dets = [...]`, `tracker.update_tracks(ds_dets, frame=frame)` and `for t in tracks:`. */
  method TrackFrame(ctx: TrackContext, tick: Tick, tracker: Tracker) returns (effects: seq<Effect>)
    ensures effects == TrackingEffects(ctx, tick, tracker)
  {
    var dsDets := BuildTrackerInput(DetectionsOf(tick));
    var tracks := tick.updateTracks(tracker, dsDets);
    effects := ProcessTracks(ctx, tracks);
  }

  /** The state `camera_loop` keeps across iterations, with the trace of what it has done. */
  class Worker {
    const cameraId: string
    const threshold: real
    const distance: Face.DistanceOracle
    var personsCache: seq<Face.Person>
    var lastReload: real
    var log: seq<Effect>
    /** Set once the loop has ended; no further pass can run. */
    var stopped: bool

    /** The start of `camera_loop`: the first cache load and its time. */
    constructor (cameraId: string, threshold: real, distance: Face.DistanceOracle,
                 initialCache: seq<Face.Person>, startedAt: real)
      ensures this.cameraId == cameraId && this.threshold == threshold && this.distance == distance
      ensures personsCache == initialCache && lastReload == startedAt && log == [] && !stopped
    {
      this.cameraId := cameraId;
      this.threshold := threshold;
      this.distance := distance;
      personsCache := initialCache;
      lastReload := startedAt;
      log := [];
      stopped := false;
    }

    /**
     * One pass of `while True`. Only an exception from the cache reload ends the loop
     * (`crashed`); a failed read retries, a detector error gives no detections, and per-track
     * failures are absorbed as `TrackEffects` shows.
     */
    method Iterate(tick: Tick, live: Mjpeg.LiveFrames, registry: TrackerRegistry) returns (crashed: bool)
      requires !stopped
      modifies this, live, registry
      ensures stopped == crashed
      ensures crashed <==> tick.frame.Some? && ReloadDue(old(lastReload), tick.now) && tick.reload.None?
      ensures tick.frame.None? ==>
        && log == old(log) + [ReadRetried]
        && personsCache == old(personsCache) && lastReload == old(lastReload)
        && live.latest == old(live.latest) && registry.trackers == old(registry.trackers)
      ensures tick.frame.Some? ==> live.latest == old(live.latest)[cameraId := tick.frame.value.jpeg]
      ensures crashed ==>
        && log == old(log) && personsCache == old(personsCache) && lastReload == old(lastReload)
        && registry.trackers == old(registry.trackers)
      ensures tick.frame.Some? && !crashed ==>
        && (if ReloadDue(old(lastReload), tick.now)
            then personsCache == tick.reload.value && lastReload == tick.reloadedAt
            else personsCache == old(personsCache) && lastReload == old(lastReload))
        && cameraId in registry.trackers
        && (cameraId in old(registry.trackers) ==> registry.trackers == old(registry.trackers))
        && (cameraId !in old(registry.trackers) ==>
              fresh(registry.trackers[cameraId]) &&
              registry.trackers == old(registry.trackers)[cameraId := registry.trackers[cameraId]])
        && log == old(log) + FrameEffects(cameraId, threshold, distance, personsCache, tick.frame.value,
                                          tick, registry.trackers[cameraId])
    {
      crashed := false;
      if tick.frame.None? {
        log := log + [ReadRetried];
      } else {
        var frame := tick.frame.value;
        live.UpdateFrame(cameraId, frame.jpeg);
        if tick.now - lastReload > ReloadInterval && tick.reload.None? {
          crashed := true;
          stopped := true;
        } else {
          if tick.now - lastReload > ReloadInterval {
            personsCache := tick.reload.value;
            lastReload := tick.reloadedAt;
          }
          var tracker := registry.GetTracker(cameraId);
          ProcessFrame(frame, tick, tracker);
        }
      }
    }

    /** The rest of the pass once the frame is published, the cache is current and the tracker is fetched: detect, track, and process every track. */
    method ProcessFrame(frame: Frame, tick: Tick, tracker: Tracker)
      modifies this`log
      ensures log == old(log) + FrameEffects(cameraId, threshold, distance, personsCache, frame, tick, tracker)
    {
      var logged := if tick.detections.None? then [DetectErrorLogged] else [];
      var effects := TrackFrame(ContextOf(cameraId, threshold, distance, personsCache, frame, tick), tick, tracker);
      log := log + (logged + effects);
    }
  }
}
