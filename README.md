# Cyber Servalence recognition pipeline: a Dafny model

This project models the decision code around the face-recognition pipeline of Cyber
Servalence. The system reads camera streams, tracks faces, matches them against an
identity cache, stores detections and snapshots, and pushes alerts to dashboards over a
WebSocket. The model covers six pieces:

- **Best-match selection** (`Face`): `match_embedding` scans the persons cache. It skips
  entries whose embedding is missing, empty or fails to decrypt or measure. It keeps a
  running minimum that starts at the 1.0 sentinel and changes only on a strictly smaller
  distance. Decryption and cosine distance are one oracle returning `Option<real>`.
- **Camera worker** (`CameraWorker`): the per-camera tracker registry `get_tracker`, and one
  pass of the `camera_loop` body. A pass reads a frame, publishes it, reloads the cache when
  more than 60 seconds have passed, detects and builds the tracker input. Then, for every
  confirmed track, it truncates and clamps the box, applies the strict `> 8` size filter,
  embeds, matches and accepts when `dist <= threshold`. An accepted track writes the
  snapshot, inserts the record and sends the alert, in that order. The capture device,
  clocks, detector, DeepSort, embedder, store and callback are oracles carried by `Tick` and
  `TrackContext`. Their use is recorded as a trace of `Effect`s.
- **WebSocket subscribers** (`Server`): `WSManager` as a class holding the client list, with
  `connect`, `disconnect` and `broadcast`, plus `alert_cb`'s message wrapping. Send failure
  is a predicate on clients.
- **Live frames and MJPEG framing** (`Mjpeg`): the last-value table from camera id to JPEG
  bytes, and the multipart part `--frame`, CRLF, `Content-Type: image/jpeg`,
  `Content-Length: N`, a blank line, the bytes and a CRLF. This is the body-part layout of
  section 5.1.1 of RFC 2046. A parser for one part makes the layout checkable as a round
  trip.
- **Role gate** (`Auth`): the decisions of `get_current_user` and `require_role`. JWT
  decoding and the user lookup are oracles.
- **Dashboard alert list** (`Dashboard`): the `onmessage` reducer (newest first, at most 100
  alerts), logout, and the camera-list fallback of `frontend/pages/index.js`.

`Decimal` renders integers as Python's `str` does; snapshot names and Content-Length use it.
`Wrappers` holds `Option`.

Behaviours of the code that the model keeps as they are:

- A failed cache reload is not caught: `load_persons_cache()` at
  backend/app/camera_worker.py:45 has no `try`, so an exception there ends `camera_loop`.
  `CameraWorker.Worker.Iterate` reports it as `crashed`.
- There is no camera supervisor and no per-track de-duplication of alerts.
  `add_camera_endpoint` schedules another loop (backend/app/main.py:125), and every accepted
  track of every frame produces an alert.
- `match_embedding` returns any best entry under 1.0. The threshold test is in the camera
  worker (`CameraWorker.Accepts`). `SIMILARITY_THRESHOLD` is not declared in
  backend/app/config.py, so the threshold is a parameter.

The media type in backend/app/main.py:135 declares `boundary=--frame`. Under section 5.1.1
of RFC 2046, the delimiter line would then be `----frame`. The model keeps the `--frame`
lines that the generator actually writes.

## Model

| member | source | states |
|---|---|---|
| `Face.MatchEmbedding` | backend/app/face.py:83-100 | The loop returns exactly `Match`: a `None` query gives `(None, 1.0)` without scanning; otherwise the scan in cache order with skips and strict-`<` replacement. |
| `Face.NoQueryNoMatch` | backend/app/face.py:86-87 | A `None` query returns `(None, 1.0)` for every cache. |
| `Face.MatchSound` | backend/app/face.py:84-100 | The result distance is at most 1.0 and at most every usable entry's distance. A best person exists iff the distance is below 1.0, and it is then the first cache entry of minimal distance, at that distance. With no best person the result is `(None, 1.0)`. |
| `Face.MatchComplete` | backend/app/face.py:88-100 | Conversely, the first entry of minimal distance below 1.0 is the one returned, at its distance. |
| `Face.NoMatchIff` | backend/app/face.py:84-100 | No person is returned iff every usable entry is at distance 1.0 or more, which includes an empty cache and one where every entry is skipped. |
| `Face.SkippedEntryIrrelevant` | backend/app/face.py:89-99 | Removing or inserting an entry whose embedding is missing or empty, or whose decrypt or distance raises, does not change the result. |
| `Face.ScanAppend` | backend/app/face.py:88-99 | Scanning `a + b` equals scanning `b` from the accumulator left by `a`. |
| `Face.TieGoesToEarliest` | backend/app/face.py:95-97 | Of two usable entries at equal distance, the later one is not returned, provided it is not equal to an earlier entry (`cache[j] !in cache[..j]`), because replacement needs a strictly smaller distance. |
| `Face.TwoIdentityExample` | backend/app/face.py:88-100 | With distances 0.5 and 0.2 the second identity is returned at 0.2. With 0.9 and 0.5 the second is returned at 0.5. |
| `CameraWorker.Tracker.constructor` | backend/app/camera_worker.py:24 | A new tracker has max_age 30, n_init 1 and max_cosine_distance 0.7. |
| `CameraWorker.TrackerRegistry.constructor` | backend/app/camera_worker.py:19 | The registry starts empty. |
| `CameraWorker.TrackerRegistry.GetTracker` | backend/app/camera_worker.py:21-25 | A new tracker (max_age 30, n_init 1, max_cosine_distance 0.7) is created only for an absent camera id. A present id returns the registered instance with the map unchanged, so repeated calls return the same tracker. Other cameras' entries never change. |
| `CameraWorker.TrackerInput` | backend/app/camera_worker.py:56-60 | One tracker row per detection, in order: the box as reals, the score or 0.9 when it is missing, and class 0. |
| `CameraWorker.BuildTrackerInput` | backend/app/camera_worker.py:56-60 | The `append` loop builds exactly `TrackerInput(dets)`. |
| `CameraWorker.Trunc` | backend/app/camera_worker.py:71 | `int()` on a real truncates toward zero: the result is within 1 of the value and on the same side of zero. |
| `CameraWorker.Clamp` | backend/app/camera_worker.py:72-76 | After clamping, `0 <= x`, `0 <= y`, `x2 <= w_frame-1` and `y2 <= h_frame-1`. A coordinate changes only when it lay outside, and it then moves to the frame edge. |
| `CameraWorker.LargeCropInsideFrame` | backend/app/camera_worker.py:72-79 | A crop that passes the size filter lies inside the frame and is more than 8 pixels wide and high. |
| `CameraWorker.SnapshotName` | backend/app/camera_worker.py:90 | The snapshot name is the camera id and `_`, then the `str` of the truncated clock, then `_`, the track id and `.jpg`: it starts with `camera_id_`, ends with `_track_id.jpg`, and is 6 characters longer than its three parts. |
| `CameraWorker.JoinPath` | backend/app/camera_worker.py:91 | POSIX `os.path.join` (`posixpath.join`): an absolute file name replaces the directory; otherwise, for a non-empty directory, the parts are joined with one `/`, added only when the directory does not already end in `/`. |
| `CameraWorker.SnapshotPath` | backend/app/camera_worker.py:90-92 | The snapshot path is `snapshots/` followed by the name, except for a camera id starting with `/`: `os.path.join` then drops the directory and the name is an absolute path. |
| `CameraWorker.RecordFor` | backend/app/camera_worker.py:96 | The inserted row carries the best person's id, the camera id, the timestamp, the distance as confidence, the snapshot name and the track id. Its bbox has four entries: the clamped, hence non-negative, corner, then the unclamped width and height. |
| `CameraWorker.AlertFor` | backend/app/camera_worker.py:101-108 | The alert carries the same camera id, timestamp, person id, confidence, snapshot name and track id as the inserted row, plus the person's name. |
| `CameraWorker.ProcessTrack` | backend/app/camera_worker.py:66-113 | The loop body for track k, with the clamp done by reassignment, produces exactly that track's part of the frame's effects (`TrackEffects`). |
| `CameraWorker.ReportMatch` | backend/app/camera_worker.py:87-113 | For an accepted track, the snapshot write, the insert (and its error log when the insert raised), then the alert and its error log when a callback is set, exactly as `AcceptedEffects` lists them. |
| `CameraWorker.ProcessTracks` | backend/app/camera_worker.py:66-113 | The loop over tracks produces the effects of every track, in track order. |
| `CameraWorker.SkippedTrackHasNoEffect` | backend/app/camera_worker.py:67-78 | An unconfirmed track, or one whose clamped crop is 8 pixels or less in width or height, has no effect: no embedding call, no record, no alert. |
| `CameraWorker.EmbedderCalledIff` | backend/app/camera_worker.py:67-87 | The embedder is called iff the track is confirmed and the crop passes the strict `> 8` filter. The call is the track's first effect and happens at most once. A track that is not accepted does nothing further. |
| `CameraWorker.AcceptedTrackEffects` | backend/app/camera_worker.py:87-113 | An accepted track emits, in order, the embed call, the snapshot write to `os.path.join("snapshots", fname)`, the insert, an insert error log if the insert raised, the alert whenever a callback is set (also after a failed insert), and a callback error log if the callback raised. Record and alert agree on camera id, timestamp, person id, confidence (equal to `dist`, which is within the threshold), snapshot `"{camera_id}_{secs}_{track_id}.jpg"` and track id. The stored bbox is the clamped x and y with the unclamped w and h. |
| `CameraWorker.AcceptsIff` | backend/app/camera_worker.py:86-87 | `best and dist <= threshold` holds iff some usable cache entry is within the threshold and below 1.0. |
| `CameraWorker.AcceptedPersonIsBestMatch` | backend/app/camera_worker.py:86-87 | The reported person is the first cache entry of minimal distance to the crop's embedding, at a distance within the threshold. |
| `CameraWorker.TracksEffectsPrefix` | backend/app/camera_worker.py:66-113 | The effects of the first m tracks are a prefix of the effects of the first n. |
| `CameraWorker.EveryTrackProcessed` | backend/app/camera_worker.py:80-84 | In a frame's trace, track k's own effects come right after those of the earlier tracks, whatever those did. So an embedding failure skips only its own track. |
| `CameraWorker.Worker.constructor` | backend/app/camera_worker.py:27-31 | A camera loop starts with the first cache load, its time as the last reload, no effects yet, and not stopped. |
| `CameraWorker.Worker.Iterate` | backend/app/camera_worker.py:33-115 | A failed read logs a retry and changes nothing else. A read frame is published to the live table first. The cache and reload time are replaced only when more than 60 s have passed. Only an exception from that reload ends the loop: the worker is then stopped, no later pass can run, and cache, trace and trackers are left as they were. Otherwise the camera's tracker is fetched or created, and the trace grows by exactly the frame's effects. |
| `CameraWorker.Worker.ProcessFrame` | backend/app/camera_worker.py:48-113 | A detector exception is logged and gives an empty detection list. The trace then grows by exactly the frame's effects under the current cache. |
| `CameraWorker.TrackFrame` | backend/app/camera_worker.py:56-113 | Building the tracker input, one DeepSort update and the loop over its tracks give exactly the tracking effects of the frame. |
| `Server.AlertMessage` | backend/app/main.py:65-66 | The broadcast message is `{"type": "detection", "data": alert}`. |
| `Server.RemoveFirst` | backend/app/main.py:45-47 | Removing an absent client is a no-op; removing a present one shortens the list by one. |
| `Server.RemoveFirstDropsOne` | backend/app/main.py:47 | Removing a present client drops exactly one of its occurrences, as a multiset, and no other client. |
| `Server.RemoveFirstTakesFirstOccurrence` | backend/app/main.py:47 | When position i holds the first occurrence, the list after removal is the list without position i: the first occurrence goes and the rest keeps its order. |
| `Server.WSManager.constructor` | backend/app/main.py:38-39 | A manager starts with no clients. |
| `Server.WSManager.Connect` | backend/app/main.py:41-43 | After `accept` returns, the client is appended at the end of the list. |
| `Server.WSManager.Disconnect` | backend/app/main.py:45-47 | One occurrence is removed if the client is present; otherwise nothing changes. |
| `Server.WSManager.Broadcast` | backend/app/main.py:49-60 | One send is attempted per client present at the start, in list order. Afterwards exactly the clients whose send succeeded remain, in their original relative order. Nothing is raised to the caller. |
| `Server.SendAll` | backend/app/main.py:50-55 | One attempt per client in list order, and `dead` holds exactly the clients whose send raised, in list order. |
| `Server.WSManager.RemoveAll` | backend/app/main.py:56-60 | The clients after removing each dead client in turn; a client already gone is skipped. |
| `Server.RemovingDeadLeavesSurvivors` | backend/app/main.py:56-60 | Removing the `dead` clients one by one leaves exactly the succeeding clients, in order. |
| `Server.SurvivorsAreTheSucceeding` | backend/app/main.py:50-60 | No failing client survives, and every client whose send succeeded survives. |
| `Server.SurvivorsAndDeadPartition` | backend/app/main.py:50-60 | Survivors plus dead are the original clients as a multiset: none is lost or duplicated. |
| `Server.AlertCallback` | backend/app/main.py:65-66 | Every subscriber present is sent exactly the wrapped detection message, and the failing subscribers are dropped. |
| `Mjpeg.LiveFrames.constructor` | backend/app/mjpeg.py:5 | The live table starts empty, so every camera reads as absent. |
| `Mjpeg.LiveFrames.UpdateFrame` | backend/app/mjpeg.py:7-9 | Only this camera's slot changes, and it now holds the new bytes. |
| `Mjpeg.ReplayLastWins` | backend/app/mjpeg.py:9 | After any sequence of updates, a lookup returns the bytes of the most recent update for that camera, or the earlier value if there was none. No history is kept. |
| `Mjpeg.ContentLength` | backend/app/mjpeg.py:19 | The Content-Length value is the canonical decimal byte length of the payload. |
| `Mjpeg.Chunk` | backend/app/mjpeg.py:16-23 | A part is 51 header bytes, the decimal length, 4 bytes of blank line, the payload and 2 bytes of CRLF, in that size. It ends with the unmodified payload followed by CR LF. |
| `Mjpeg.ChunkRoundTrip` | backend/app/mjpeg.py:16-23 | Reading a chunk back yields exactly the frame. The chunk is the `--frame` boundary, CRLF, the Content-Type header, the Content-Length header whose value is the payload length, a blank line, the unmodified payload and a trailing CRLF. |
| `Mjpeg.ParseChunkOnlyChunks` | backend/app/mjpeg.py:16-23 | Conversely, any bytes that read back as a frame are exactly the part built for that frame, so the reader and the layout determine each other. |
| `Mjpeg.StreamChunk` | backend/app/mjpeg.py:14-23 | A part is produced iff the frame is present and non-empty. It is then exactly `Chunk(frame)`, and it parses back to the frame. |
| `Mjpeg.LiveFrames.Get` | backend/app/mjpeg.py:14 | `_latest.get(camera_id)` is `None` exactly for a camera that never published, and otherwise its last bytes. |
| `Mjpeg.LiveFrames.NextChunk` | backend/app/mjpeg.py:13-24 | One generator pass reads the table and changes nothing. It yields exactly `Chunk` of the camera's current frame, which parses back to that frame, or nothing when the frame is absent or empty. |
| `Decimal.NatToString` | backend/app/mjpeg.py:19 | `str(n)`: at least one digit, digits only, no leading zero. |
| `Decimal.NatToStringRoundTrip` | backend/app/mjpeg.py:19 | Reading the rendered digits back gives n. |
| `Decimal.IntToString` | backend/app/camera_worker.py:90 | `str(i)` for any int: it is never empty, and a negative value has a leading `-` before the digits of its magnitude. |
| `Decimal.IntToStringRoundTrip` | backend/app/camera_worker.py:90 | The rendering starts with `-` iff the value is negative, the rest is digits, and reading it back gives the value. |
| `Auth.CurrentUser` | backend/app/utils.py:58-79 | The result is 401 when there is no bearer token, decoding fails, `sub` is missing, or no user has that email. Otherwise it is the looked-up user. |
| `Auth.RequireRole` | backend/app/utils.py:81-89 | An authentication failure passes through. An authenticated user passes iff their role is the required one or `"admin"`, and is then returned unchanged. Any other role, a missing one included, gets 403. |
| `Auth.AdminPassesEveryGate` | backend/app/utils.py:83 | A user with role `"admin"` passes `require_role(r)` for every `r`. |
| `Auth.GateOutcome` | backend/app/utils.py:58-89 | For a guarded endpoint: 401 for any authentication failure; 403 for an authenticated user without the role; otherwise the user from the store. |
| `Dashboard.OnMessage` | frontend/pages/index.js:35-42 | A `"detection"` message puts its `data` first, followed by the older alerts in order, and the list is cut to 100 by dropping the oldest. Any other message, or malformed JSON, leaves the list unchanged. |
| `Dashboard.AlertsAreLatestDetections` | frontend/pages/index.js:38-39 | Starting from an empty list, the alerts are exactly the (at most) 100 most recent detection payloads, newest first. |
| `Dashboard.AlertsBounded` | frontend/pages/index.js:39 | A list of at most 100 alerts never grows past 100, whatever messages arrive. |
| `Dashboard.Logout` | frontend/pages/index.js:105-108 | Logout empties the token and the alerts and leaves the camera list as it was. |
| `Dashboard.CamerasAfterFetch` | frontend/pages/index.js:19-29 | Without a token the camera list is left as it was. Otherwise the camera list is `res.data` when it is a list, and `[]` when it is falsy or the request fails. |

## Left out

- The cosine distance and its float arithmetic (backend/app/utils.py:26-29), including NaN comparisons: the distance is an oracle returning a real or a failure.
- Fernet decryption, bcrypt and JWT encoding and decoding: foreign crypto libraries. JWT decode is an oracle; the encoders and hashing are not modelled.
- InsightFace detection and embedding, and DeepSort tracking: foreign ML models, modelled as oracles. The tracker's internal state and the pixel contents passed to the embedder are not modelled.
- The Supabase calls (backend/app/db.py), `cv2.VideoCapture`, `cv2.imencode`, `cv2.imwrite` and `os.makedirs`: network and file I/O. A frame arrives already encoded as JPEG bytes, and a snapshot write is recorded only as an effect.
- Exceptions from calls that the source does not guard are not modelled, except the cache reload: `update_tracks`, `imencode`, `frame.shape` and the first `load_persons_cache` before the loop.
- Face.Person, RecordFor: a person row always has an `id` and a `name`. Without `id` the code would raise `KeyError` on `best["id"]` inside the `try` around `insert_detection`, log an insert error instead of inserting, and then alert with `id: None` (backend/app/camera_worker.py:95-98, 104).
- The `while True` loop of `camera_loop` is modelled as repeated calls of `Worker.Iterate`, one per pass, and not as one method. The sleeps (1 s after a failed read, 0.01 s per pass, 0.05 s in the stream generator) and event-loop scheduling are timing only.
- Concurrency. During an `await send_json`, another coroutine could connect or disconnect a client; `Broadcast` assumes the list does not change while it runs. Interleaving between camera loops is not modelled either.
- FastAPI routing, CORS, uploads, camera registration, the snapshot file endpoint and the WebSocket read loop (backend/app/main.py:26-34, 73-153). They are transport glue.
- run.py, models.py, config.py and the React components: launching, data shapes, settings and rendering, with no decision logic.
- The dashboard's login handler and the socket's open and close on token change: the model keeps only the state updates. A `res.data` that is truthy but not a list is not modelled.
- TrackBox, CropOf: the box is truncated from the exact real differences `r - l` and `b - t_y`. In the code (backend/app/camera_worker.py:71) these are float differences, and rounding can lift a value just below an integer up to it, so `int()` can differ by one.
- CamerasAfterFetch: the effect at frontend/pages/index.js:19-29 has no cleanup. A `/api/cameras` response to a request sent before logout still calls `setCameras` after logout. The model treats request and response as one step under one token.
- The snapshot name and the record's timestamp use separate clock readings (`isoTime(k)`, `unixTime(k)` for the k-th track of a frame). Their float values are not modelled beyond truncation.
