/**
 * The management daemon's side of the live view (cmd/managementd/main.go):
 * the registry of viewer websockets, keyed by the client's uuid, kept
 * alive by heartbeats and culled when they stop; and the basic-auth gate in
 * front of the HTTP handlers.
 *
 * The registry is modelled sequentially: the lock around the map, the
 * per-socket send lock and the goroutines that send frames and close
 * dropped sockets are not part of the model. Instants are milliseconds of
 * a monotonic clock, passed in by the caller.
 */
module SocketRegistry {

  /** `socketTimeout`: a viewer silent this long is dropped. */
  const SocketTimeoutMillis := 7000

  /** A `WebsocketRegistration`; `socket` names the connection. */
  datatype Registration = Registration(atomicLock: int, socket: nat, lastHeartbeatAt: int)

  /** The JSON messages a viewer sends: `type`, `data` and `uuid`. */
  datatype Message = Message(msgType: string, data: string, uuid: int)

  /** `Inactive`: at least `socketTimeout` has passed since the last
      heartbeat. */
  predicate Inactive(r: Registration, now: int)
  {
    now - r.lastHeartbeatAt >= SocketTimeoutMillis
  }

  /** The map after a Register message: a fresh entry for the uuid, whether
      or not one was there. */
  function Registered(m: map<int, Registration>, uuid: int, socket: nat, now: int): map<int, Registration>
  {
    m[uuid := Registration(0, socket, now)]
  }

  /** The map after a Heartbeat message: only a known uuid is refreshed. */
  function Refreshed(m: map<int, Registration>, uuid: int, now: int): map<int, Registration>
  {
    if uuid in m then m[uuid := m[uuid].(lastHeartbeatAt := now)] else m
  }

  /** The map after the cull: the registrations that are still active. */
  function Culled(m: map<int, Registration>, now: int): map<int, Registration>
  {
    map u | u in m && !Inactive(m[u], now) :: m[u]
  }

  class Registry {
    var sockets: map<int, Registration>
    /** Whether the camera is connected (`connected`), read on register. */
    var cameraConnected: bool

    constructor (cameraConnected: bool)
      ensures sockets == map[] && this.cameraConnected == cameraConnected
    {
      sockets := map[];
      this.cameraConnected := cameraConnected;
    }

    /** A Register message: inserts or overwrites the uuid's entry with a
        fresh heartbeat time and a free send lock. Reports whether this is
        the first viewer (the frame sender is then woken) and whether the
        socket must be told "disconnected" because no camera is connected. */
    method Register(uuid: int, socket: nat, now: int) returns (firstSocket: bool, sendDisconnected: bool)
      modifies this
      ensures sockets == Registered(old(sockets), uuid, socket, now)
      ensures uuid in sockets && sockets[uuid] == Registration(0, socket, now)
      ensures forall u :: u in old(sockets) && u != uuid ==> u in sockets && sockets[u] == old(sockets)[u]
      ensures firstSocket <==> |old(sockets)| == 0
      ensures sendDisconnected <==> !cameraConnected
      ensures cameraConnected == old(cameraConnected)
    {
      firstSocket := |sockets| == 0;
      sockets := sockets[uuid := Registration(0, socket, now)];
      sendDisconnected := !cameraConnected;
    }

    /** A Heartbeat message: refreshes a registered uuid and ignores an
        unknown one. */
    method Heartbeat(uuid: int, now: int)
      modifies this
      ensures sockets == Refreshed(old(sockets), uuid, now)
      ensures uuid !in old(sockets) ==> sockets == old(sockets)
      ensures sockets.Keys == old(sockets).Keys
      ensures cameraConnected == old(cameraConnected)
    {
      if uuid in sockets {
        sockets := sockets[uuid := sockets[uuid].(lastHeartbeatAt := now)];
      }
    }

    /** One message from a viewer's socket: Register and Heartbeat act on
        the registry, every other type is ignored. */
    method Receive(msg: Message, socket: nat, now: int) returns (firstSocket: bool, sendDisconnected: bool)
      modifies this
      ensures msg.msgType == "Register" ==> sockets == Registered(old(sockets), msg.uuid, socket, now)
      ensures msg.msgType == "Heartbeat" ==> sockets == Refreshed(old(sockets), msg.uuid, now)
      ensures msg.msgType != "Register" && msg.msgType != "Heartbeat" ==> sockets == old(sockets)
      ensures firstSocket <==> msg.msgType == "Register" && |old(sockets)| == 0
      ensures sendDisconnected <==> msg.msgType == "Register" && !cameraConnected
      ensures cameraConnected == old(cameraConnected)
    {
      firstSocket, sendDisconnected := false, false;
      if msg.msgType == "Register" {
        firstSocket, sendDisconnected := Register(msg.uuid, socket, now);
      }
      if msg.msgType == "Heartbeat" {
        Heartbeat(msg.uuid, now);
      }
    }

    /** The cull after each frame: collects the inactive uuids, then deletes
        each of them. Returns the uuids dropped, whose sockets are then
        closed. */
    method Cull(now: int) returns (removed: seq<int>)
      modifies this
      ensures sockets == Culled(old(sockets), now)
      ensures forall u :: u in removed <==> u in old(sockets) && Inactive(old(sockets)[u], now)
      ensures cameraConnected == old(cameraConnected)
    {
      removed := [];
      var pending := sockets.Keys;
      while pending != {}
        invariant pending <= sockets.Keys
        invariant sockets == old(sockets) && cameraConnected == old(cameraConnected)
        invariant forall u :: u in removed <==> u in sockets && u !in pending && Inactive(sockets[u], now)
        decreases pending
      {
        SomeElement(pending);
        var u :| u in pending;
        if Inactive(sockets[u], now) {
          removed := removed + [u];
        }
        pending := pending - {u};
      }
      var i := 0;
      while i < |removed|
        invariant 0 <= i <= |removed|
        invariant forall u :: u in sockets <==> u in old(sockets) && u !in removed[..i]
        invariant forall u :: u in sockets ==> sockets[u] == old(sockets)[u]
        invariant forall u :: u in removed <==> u in old(sockets) && Inactive(old(sockets)[u], now)
        invariant cameraConnected == old(cameraConnected)
      {
        sockets := sockets - {removed[i]};
        i := i + 1;
      }
      assert removed[..i] == removed;
      CulledFrom(old(sockets), sockets, now);
    }
  }

  /** A map with exactly the active entries, unchanged, is the culled map. */
  lemma CulledFrom(m: map<int, Registration>, s: map<int, Registration>, now: int)
    requires forall u :: u in s <==> u in m && !Inactive(m[u], now)
    requires forall u :: u in s ==> s[u] == m[u]
    ensures s == Culled(m, now)
  {
    var c := Culled(m, now);
    forall u ensures u in s.Keys <==> u in c.Keys {
      assert u in s.Keys <==> u in s;
    }
    forall u | u in s ensures s[u] == c[u] {
      assert u in c.Keys;
    }
  }

  lemma SomeElement(s: set<int>)
    requires s != {}
    ensures exists x :: x in s
  {
    if forall x :: x !in s {
      assert false;
    }
  }

  /** A registration's entry survives every cull until `socketTimeout` has
      passed since it registered. */
  lemma RegisteredSurvivesCull(m: map<int, Registration>, uuid: int, socket: nat, t: int, now: int)
    requires now < t + SocketTimeoutMillis
    ensures uuid in Culled(Registered(m, uuid, socket, t), now)
    ensures Culled(Registered(m, uuid, socket, t), now)[uuid] == Registration(0, socket, t)
  {
  }

  /** A heartbeat keeps a registered viewer for another `socketTimeout`; an
      unknown uuid's heartbeat changes nothing. */
  lemma HeartbeatExtends(m: map<int, Registration>, uuid: int, t: int, now: int)
    requires now < t + SocketTimeoutMillis
    ensures uuid in m ==> uuid in Culled(Refreshed(m, uuid, t), now)
    ensures uuid !in m ==> Refreshed(m, uuid, t) == m
  {
  }

  /** Once inactive, a registration stays inactive until refreshed. */
  lemma InactiveStays(r: Registration, t: int, later: int)
    requires Inactive(r, t) && t <= later
    ensures Inactive(r, later)
  {
  }

  /** Culling twice at the same instant removes nothing more, and culling
      removes exactly the inactive entries while keeping the others as
      they were. */
  lemma CullExact(m: map<int, Registration>, now: int)
    ensures Culled(Culled(m, now), now) == Culled(m, now)
    ensures forall u :: u in m ==> (u in Culled(m, now) <==> !Inactive(m[u], now))
    ensures forall u :: u in Culled(m, now) ==> u in m && Culled(m, now)[u] == m[u]
  {
  }

  // -----------------------------------------------------------------------
  // basicAuth

  /** The base64 alphabet of section 4 of RFC 4648: A-Z, a-z, 0-9, '+'
      and '/'. */
  function Sextet(n: int): char
    requires 0 <= n < 64
  {
    if n < 26 then ('A' as int + n) as char
    else if n < 52 then ('a' as int + (n - 26)) as char
    else if n < 62 then ('0' as int + (n - 52)) as char
    else if n == 62 then '+' else '/'
  }

  predicate Octet(b: seq<int>)
  {
    forall i :: 0 <= i < |b| ==> 0 <= b[i] < 256
  }

  /** One group of one to three octets as four characters, padded with
      '=' (RFC 4648, section 4). */
  function EncodeGroup(g: seq<int>): (r: string)
    requires 1 <= |g| <= 3 && Octet(g)
    ensures |r| == 4
  {
    var b0 := g[0];
    var b1 := if |g| > 1 then g[1] else 0;
    var b2 := if |g| > 2 then g[2] else 0;
    [Sextet(b0 / 4), Sextet((b0 % 4) * 16 + b1 / 16),
     if |g| > 1 then Sextet((b1 % 16) * 4 + b2 / 64) else '=',
     if |g| > 2 then Sextet(b2 % 64) else '=']
  }

  /** Base64 encoding with padding (RFC 4648, section 4). */
  function Base64(b: seq<int>): (r: string)
    requires Octet(b)
  {
    if |b| == 0 then ""
    else if |b| <= 3 then EncodeGroup(b)
    else EncodeGroup(b[..3]) + Base64(b[3..])
  }

  /** Encoding proceeds group by group: a prefix of `n` whole groups
      encodes on its own. */
  lemma {:induction false} Base64Cons(g: seq<int>, rest: seq<int>, n: nat)
    requires |g| == 3 * n && Octet(g) && Octet(rest)
    ensures Octet(g + rest)
    ensures Base64(g + rest) == Base64(g) + Base64(rest)
  {
    if n == 0 {
      assert g + rest == rest;
    } else {
      assert (g + rest)[..3] == g[..3];
      assert (g + rest)[3..] == g[3..] + rest;
      Base64Cons(g[3..], rest, n - 1);
      if n == 1 {
        assert g[..3] == g;
      }
    }
  }

  /** The octets of an ASCII text. */
  function Octets(s: string): (r: seq<int>)
    requires forall i :: 0 <= i < |s| ==> s[i] as int < 256
    ensures |r| == |s| && Octet(r)
  {
    seq(|s|, i requires 0 <= i < |s| => s[i] as int)
  }

  /** The Authorization value of the Basic scheme (RFC 7617, section 2)
      for a user-id and an ASCII password. */
  function BasicCredentials(user: string, password: string): string
    requires forall i :: 0 <= i < |user + ":" + password| ==> (user + ":" + password)[i] as int < 256
  {
    "Basic " + Base64(Octets(user + ":" + password))
  }

  /** The credential compiled into the daemon is admin:feathers. */
  lemma CompiledCredential()
    ensures BasicCredentials("admin", "feathers") == "Basic " + "YWRtaW46ZmVhdGhlcnM="
  {
    assert "admin" + ":" + "feathers" == "admin:feathers";
    AdminFeathersBase64();
  }

  lemma AdminFeathersBase64()
    ensures Base64(Octets("admin:feathers")) == "YWRtaW46ZmVhdGhlcnM="
  {
    AdminFeathersOctets();
    FiveGroups([97, 100, 109], [105, 110, 58], [102, 101, 97], [116, 104, 101], [114, 115]);
    AdminGroups();
    FeathersGroups();
  }

  lemma AdminFeathersOctets()
    ensures Octets("admin:feathers")
            == [97, 100, 109] + ([105, 110, 58] + ([102, 101, 97] + ([116, 104, 101] + [114, 115])))
  {
  }

  /** Four whole groups and a last one encode group by group. */
  lemma FiveGroups(g0: seq<int>, g1: seq<int>, g2: seq<int>, g3: seq<int>, g4: seq<int>)
    requires |g0| == |g1| == |g2| == |g3| == 3
    requires Octet(g0) && Octet(g1) && Octet(g2) && Octet(g3) && Octet(g4)
    ensures Octet(g0 + (g1 + (g2 + (g3 + g4))))
    ensures Base64(g0 + (g1 + (g2 + (g3 + g4))))
            == Base64(g0) + (Base64(g1) + (Base64(g2) + (Base64(g3) + Base64(g4))))
  {
    Base64Cons(g3, g4, 1);
    Base64Cons(g2, g3 + g4, 1);
    Base64Cons(g1, g2 + (g3 + g4), 1);
    Base64Cons(g0, g1 + (g2 + (g3 + g4)), 1);
  }

  lemma AdminGroups()
    ensures Base64([97, 100, 109]) == "YWRt" && Base64([105, 110, 58]) == "aW46"
  {
    assert EncodeGroup([97, 100, 109]) == "YWRt";
    assert EncodeGroup([105, 110, 58]) == "aW46";
  }

  lemma FeathersGroups()
    ensures Base64([102, 101, 97]) == "ZmVh" && Base64([116, 104, 101]) == "dGhl" && Base64([114, 115]) == "cnM="
  {
    assert EncodeGroup([102, 101, 97]) == "ZmVh";
    assert EncodeGroup([116, 104, 101]) == "dGhl";
    assert EncodeGroup([114, 115]) == "cnM=";
  }

  datatype AuthOutcome = Forwarded | Refused(status: int, body: string)

  /** `basicAuth`: the request goes on to the wrapped handler iff its
      Authorization header is exactly the compiled credential; otherwise
      403 Forbidden. */
  function BasicAuth(authorization: string): (r: AuthOutcome)
    ensures r.Forwarded? <==> authorization == BasicCredentials("admin", "feathers")
    ensures r.Refused? ==> r == Refused(403, "Forbidden")
  {
    CompiledCredential();
    if authorization == "Basic " + "YWRtaW46ZmVhdGhlcnM=" then Forwarded else Refused(403, "Forbidden")
  }
}
