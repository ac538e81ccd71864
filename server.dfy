/**
 * backend/app/main.py: the WebSocket subscriber list `WSManager` and the alert callback
 * `alert_cb` that wraps each camera alert into a `{"type": "detection", "data": alert}`
 * message and broadcasts it. A client is any value with equality (a WebSocket object);
 * whether a `send_json` raises is the predicate `sendFails`.
 */
module Server {
  import CameraWorker

  /** The JSON message `{"type": kind, "data": data}`. */
  datatype Message = Message(kind: string, data: CameraWorker.Alert)

  /** `alert_cb`: the message broadcast for a camera alert. */
  function AlertMessage(alert: CameraWorker.Alert): (m: Message)
    ensures m.kind == "detection" && m.data == alert
  {
    Message("detection", alert)
  }

  /** One `send_json` attempt and whether it raised. */
  datatype Attempt<C> = Attempt(client: C, message: Message, failed: bool)

  /** `list.remove(x)` where absence is a no-op (`disconnect`'s guard, `broadcast`'s `except: pass`). */
  function RemoveFirst<C(==)>(s: seq<C>, x: C): (r: seq<C>)
    ensures x !in s ==> r == s
    ensures x in s ==> |r| == |s| - 1
    decreases |s|
  {
    if s == [] then []
    else if s[0] == x then
      assert s == [s[0]] + s[1..];
      s[1..]
    else
      assert s == [s[0]] + s[1..];
      [s[0]] + RemoveFirst(s[1..], x)
  }

  /** Removing a present client drops exactly one of its occurrences and no other client. */
  lemma {:induction false} RemoveFirstDropsOne<C>(s: seq<C>, x: C)
    requires x in s
    ensures multiset(RemoveFirst(s, x)) == multiset(s) - multiset{x}
    decreases |s|
  {
    var t := s[1..];
    assert s == [s[0]] + t;
    if s[0] != x {
      assert x in t;
      RemoveFirstDropsOne(t, x);
    }
  }

  /**
   * What is removed is the first occurrence: if position i holds the first x, the list splits
   * around position i and nothing else moves.
   */
  lemma {:induction false} RemoveFirstTakesFirstOccurrence<C>(s: seq<C>, x: C, i: nat)
    requires i < |s| && s[i] == x && x !in s[..i]
    ensures RemoveFirst(s, x) == s[..i] + s[i + 1..]
    decreases i
  {
    if i == 0 {
      assert s[..0] + s[1..] == s[1..];
    } else {
      var t := s[1..];
      assert s[0] in s[..i];
      assert t[..i - 1] == s[1..i];
      assert x !in t[..i - 1];
      RemoveFirstTakesFirstOccurrence(t, x, i - 1);
      assert s[..i] == [s[0]] + t[..i - 1];
      assert s[i + 1..] == t[i..];
    }
  }

  /** The clients whose send succeeds, in their original order. */
  function Survivors<C>(s: seq<C>, sendFails: C -> bool): seq<C>
    decreases |s|
  {
    if s == [] then [] else (if sendFails(s[0]) then [] else [s[0]]) + Survivors(s[1..], sendFails)
  }

  /** The `dead` list: the clients whose send raised, in list order. */
  function Dead<C>(s: seq<C>, sendFails: C -> bool): seq<C>
    decreases |s|
  {
    if s == [] then [] else (if sendFails(s[0]) then [s[0]] else []) + Dead(s[1..], sendFails)
  }

  /** `for d in dead: clients.remove(d)`. */
  function RemoveEach<C(==)>(s: seq<C>, dead: seq<C>): seq<C>
    decreases |dead|
  {
    if dead == [] then s else RemoveEach(RemoveFirst(s, dead[0]), dead[1..])
  }

  lemma {:induction false} DeadAllFail<C>(s: seq<C>, sendFails: C -> bool)
    ensures forall i :: 0 <= i < |Dead(s, sendFails)| ==> sendFails(Dead(s, sendFails)[i])
    decreases |s|
  {
    if s != [] {
      DeadAllFail(s[1..], sendFails);
    }
  }

  /** Removing failing clients from a list that starts with a client that did not fail keeps that client in front. */
  lemma {:induction false} RemoveEachKeepsHead<C>(h: C, t: seq<C>, dead: seq<C>)
    requires h !in dead
    ensures RemoveEach([h] + t, dead) == [h] + RemoveEach(t, dead)
    decreases |dead|
  {
    if dead != [] {
      assert ([h] + t)[1..] == t;
      assert RemoveFirst([h] + t, dead[0]) == [h] + RemoveFirst(t, dead[0]);
      RemoveEachKeepsHead(h, RemoveFirst(t, dead[0]), dead[1..]);
    }
  }

  /** Removing the dead clients one by one leaves exactly the clients that did not fail, in order. */
  lemma {:induction false} RemovingDeadLeavesSurvivors<C>(s: seq<C>, sendFails: C -> bool)
    ensures RemoveEach(s, Dead(s, sendFails)) == Survivors(s, sendFails)
    decreases |s|
  {
    if s != [] {
      RemovingDeadLeavesSurvivors(s[1..], sendFails);
      if sendFails(s[0]) {
        assert Dead(s, sendFails) == [s[0]] + Dead(s[1..], sendFails);
      } else {
        DeadAllFail(s[1..], sendFails);
        assert s == [s[0]] + s[1..];
        assert s[0] !in Dead(s[1..], sendFails);
        assert Dead(s, sendFails) == Dead(s[1..], sendFails);
        assert Survivors(s, sendFails) == [s[0]] + Survivors(s[1..], sendFails);
        RemoveEachKeepsHead(s[0], s[1..], Dead(s[1..], sendFails));
      }
    }
  }

  /** No failing client survives, and every client whose send succeeded does. */
  lemma {:induction false} SurvivorsAreTheSucceeding<C>(s: seq<C>, sendFails: C -> bool)
    ensures forall i :: 0 <= i < |Survivors(s, sendFails)| ==> !sendFails(Survivors(s, sendFails)[i])
    ensures forall x :: x in s && !sendFails(x) ==> x in Survivors(s, sendFails)
    decreases |s|
  {
    if s != [] {
      SurvivorsAreTheSucceeding(s[1..], sendFails);
      assert s == [s[0]] + s[1..];
    }
  }

  /** Survivors and dead together are the original clients: none lost, none duplicated. */
  lemma {:induction false} SurvivorsAndDeadPartition<C>(s: seq<C>, sendFails: C -> bool)
    ensures multiset(Survivors(s, sendFails)) + multiset(Dead(s, sendFails)) == multiset(s)
    decreases |s|
  {
    if s != [] {
      SurvivorsAndDeadPartition(s[1..], sendFails);
      assert s == [s[0]] + s[1..];
    }
  }

  /** `WSManager`: the connected clients in connection order. */
  class WSManager<C(==)> {
    var clients: seq<C>

    constructor ()
      ensures clients == []
    {
      clients := [];
    }

    /** `connect`: append after `accept` returns normally; an `accept` that raises adds nothing. */
    method Connect(ws: C, accepted: bool)
      modifies this
      ensures clients == if accepted then old(clients) + [ws] else old(clients)
    {
      if accepted {
        clients := clients + [ws];
      }
    }

    /** `disconnect`: remove the first occurrence when present, else nothing. */
    method Disconnect(ws: C)
      modifies this
      ensures clients == RemoveFirst(old(clients), ws)
      ensures ws !in old(clients) ==> clients == old(clients)
    {
      if ws in clients {
        clients := RemoveFirst(clients, ws);
      }
    }

    /**
     * `broadcast`: one send per client present at the start, in list order; afterwards the
     * failing clients are gone and the others keep their order. Nothing is raised to the caller.
     */
    method Broadcast(msg: Message, sendFails: C -> bool) returns (attempts: seq<Attempt<C>>)
      modifies this
      ensures |attempts| == |old(clients)|
      ensures forall i :: 0 <= i < |attempts| ==>
        attempts[i] == Attempt(old(clients)[i], msg, sendFails(old(clients)[i]))
      ensures clients == Survivors(old(clients), sendFails)
    {
      var dead;
      attempts, dead := SendAll(clients, msg, sendFails);
      RemoveAll(dead);
      RemovingDeadLeavesSurvivors(old(clients), sendFails);
    }

    /** `for d in dead: clients.remove(d)`, each removal guarded by `except: pass`. */
    method RemoveAll(dead: seq<C>)
      modifies this
      ensures clients == RemoveEach(old(clients), dead)
    {
      ghost var start := clients;
      assert dead[0..] == dead;
      for i := 0 to |dead|
        invariant RemoveEach(clients, dead[i..]) == RemoveEach(start, dead)
      {
        assert dead[i..] == [dead[i]] + dead[i + 1..];
        clients := RemoveFirst(clients, dead[i]);
      }
      assert dead[|dead|..] == [];
    }
  }

  /**
   * The first loop of `broadcast`: one `send_json` per client, in list order, collecting the
   * clients whose send raised into `dead`.
   */
  method SendAll<C>(clients: seq<C>, msg: Message, sendFails: C -> bool)
    returns (attempts: seq<Attempt<C>>, dead: seq<C>)
    ensures |attempts| == |clients|
    ensures forall i :: 0 <= i < |attempts| ==> attempts[i] == Attempt(clients[i], msg, sendFails(clients[i]))
    ensures dead == Dead(clients, sendFails)
  {
    dead := [];
    attempts := [];
    for i := 0 to |clients|
      invariant |attempts| == i
      invariant forall j :: 0 <= j < i ==> attempts[j] == Attempt(clients[j], msg, sendFails(clients[j]))
      invariant dead == Dead(clients[..i], sendFails)
    {
      var c := clients[i];
      var failed := sendFails(c);
      attempts := attempts + [Attempt(c, msg, failed)];
      DeadAppend(clients[..i], c, sendFails);
      assert clients[..i + 1] == clients[..i] + [c];
      if failed {
        dead := dead + [c];
      }
    }
    assert clients[..|clients|] == clients;
  }

  lemma {:induction false} DeadAppend<C>(s: seq<C>, c: C, sendFails: C -> bool)
    ensures Dead(s + [c], sendFails) == Dead(s, sendFails) + (if sendFails(c) then [c] else [])
    decreases |s|
  {
    if s == [] {
      assert [] + [c] == [c];
    } else {
      var t := s[1..];
      assert (s + [c])[0] == s[0];
      assert (s + [c])[1..] == t + [c];
      DeadAppend(t, c, sendFails);
      assert Dead(s, sendFails) == (if sendFails(s[0]) then [s[0]] else []) + Dead(t, sendFails);
    }
  }

  /** `alert_cb`: broadcast exactly `{"type": "detection", "data": alert}`. */
  method AlertCallback<C(==)>(manager: WSManager<C>, alert: CameraWorker.Alert, sendFails: C -> bool)
    returns (attempts: seq<Attempt<C>>)
    modifies manager
    ensures |attempts| == |old(manager.clients)|
    ensures forall i :: 0 <= i < |attempts| ==>
      attempts[i] == Attempt(old(manager.clients)[i], AlertMessage(alert), sendFails(old(manager.clients)[i]))
    ensures manager.clients == Survivors(old(manager.clients), sendFails)
  {
    attempts := manager.Broadcast(AlertMessage(alert), sendFails);
  }
}
