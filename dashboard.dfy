/**
 * frontend/pages/index.js: the state updates of the dashboard page. The alert list is
 * newest first and holds at most 100 entries; logging out clears the token and the alerts;
 * the camera list falls back to empty. An alert is any JSON value `A`, a camera any value `Cam`.
 */
module Dashboard {
  import opened Wrappers

  const MaxAlerts: nat := 100
  const DetectionType: string := "detection"

  /**
   * A WebSocket message as `socket.onmessage` sees it: `Unparsable` when `JSON.parse`
   * throws (or reading `.type` throws, as on `null`); otherwise its `type`, when that is a
   * string, and its `data`.
   */
  datatype Incoming<A> = Unparsable | Parsed(kind: Option<string>, data: A)

  predicate IsDetection<A>(msg: Incoming<A>) {
    msg.Parsed? && msg.kind == Some(DetectionType)
  }

  /** JavaScript's `s.slice(0, n)`: the first n elements, or all of them. */
  function Take<A>(s: seq<A>, n: nat): (r: seq<A>)
    ensures |r| == if |s| <= n then |s| else n
    ensures r == s[..|r|]
  {
    if |s| <= n then s else s[..n]
  }

  /**
   * The `setAlerts` update for one message: a detection's `data` goes in front and the list is
   * cut to 100, dropping the oldest; any other message, or one that does not parse, changes nothing.
   */
  function OnMessage<A>(alerts: seq<A>, msg: Incoming<A>): (r: seq<A>)
    ensures IsDetection(msg) ==>
      && |r| == (if |alerts| + 1 <= MaxAlerts then |alerts| + 1 else MaxAlerts)
      && r[0] == msg.data
      && r[1..] == alerts[..|r| - 1]
    ensures !IsDetection(msg) ==> r == alerts
  {
    if IsDetection(msg) then Take([msg.data] + alerts, MaxAlerts) else alerts
  }

  /** The alert list after a sequence of messages, oldest message first. */
  function Receive<A>(alerts: seq<A>, msgs: seq<Incoming<A>>): seq<A>
    decreases |msgs|
  {
    if msgs == [] then alerts else OnMessage(Receive(alerts, msgs[..|msgs| - 1]), msgs[|msgs| - 1])
  }

  /** The payloads of the detection messages, most recent first: what an unbounded list would hold. */
  function DetectionsNewestFirst<A>(msgs: seq<Incoming<A>>): seq<A>
    decreases |msgs|
  {
    if msgs == [] then []
    else
      var last := msgs[|msgs| - 1];
      (if IsDetection(last) then [last.data] else []) + DetectionsNewestFirst(msgs[..|msgs| - 1])
  }

  lemma TakeOfConsTake<A>(x: A, s: seq<A>, n: nat)
    requires n >= 1
    ensures Take([x] + Take(s, n), n) == Take([x] + s, n)
  {
    if |s| > n {
      assert ([x] + s[..n])[..n] == ([x] + s)[..n];
    }
  }

  /** Starting logged in with no alerts, the list is exactly the 100 most recent detections, newest first. */
  lemma {:induction false} AlertsAreLatestDetections<A>(msgs: seq<Incoming<A>>)
    ensures Receive([], msgs) == Take(DetectionsNewestFirst(msgs), MaxAlerts)
    decreases |msgs|
  {
    if msgs != [] {
      var prefix := msgs[..|msgs| - 1];
      AlertsAreLatestDetections(prefix);
      var last := msgs[|msgs| - 1];
      if IsDetection(last) {
        TakeOfConsTake(last.data, DetectionsNewestFirst(prefix), MaxAlerts);
      } else {
        assert DetectionsNewestFirst(msgs) == DetectionsNewestFirst(prefix);
      }
    }
  }

  /** From a list of at most 100 alerts, no sequence of messages makes it longer than 100. */
  lemma {:induction false} AlertsBounded<A>(alerts: seq<A>, msgs: seq<Incoming<A>>)
    requires |alerts| <= MaxAlerts
    ensures |Receive(alerts, msgs)| <= MaxAlerts
    decreases |msgs|
  {
    if msgs != [] {
      AlertsBounded(alerts, msgs[..|msgs| - 1]);
    }
  }

  /** The page state: `token`, `alerts`, `cameras`. */
  datatype DashboardState<A, Cam> = DashboardState(token: string, alerts: seq<A>, cameras: seq<Cam>)

  /** `loggedIn = !!token`. */
  predicate LoggedIn<A, Cam>(s: DashboardState<A, Cam>) {
    s.token != ""
  }

  /** The logout button: empty token and no alerts; the camera list is left as it was. */
  function Logout<A, Cam>(s: DashboardState<A, Cam>): (r: DashboardState<A, Cam>)
    ensures !LoggedIn(r)
    ensures r.token == "" && r.alerts == [] && r.cameras == s.cameras
  {
    s.(token := "", alerts := [])
  }

  /** The `/api/cameras` request: it failed, or it answered with a `data` that is falsy (`None`) or a list. */
  datatype CameraResponse<Cam> = RequestFailed | Responded(data: Option<seq<Cam>>)

  /**
   * The camera effect: no request without a token; otherwise `res.data || []`, and `[]` when
   * the request fails.
   */
  function CamerasAfterFetch<A, Cam>(s: DashboardState<A, Cam>, response: CameraResponse<Cam>): (r: seq<Cam>)
    ensures !LoggedIn(s) ==> r == s.cameras
    ensures LoggedIn(s) && response.Responded? && response.data.Some? ==> r == response.data.value
    ensures LoggedIn(s) && (response.RequestFailed? || response.data.None?) ==> r == []
  {
    if !LoggedIn(s) then s.cameras
    else
      match response
      case RequestFailed => []
      case Responded(data) => if data.Some? then data.value else []
  }
}
