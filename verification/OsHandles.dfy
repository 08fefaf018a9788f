/** Operating-system handles on the dialling paths: who opens one, who closes it, and who
    is left owning it. */
module OsHandles {
  import opened Handles
  import opened Streams
  import opened Turns
  import opened Pumps

  // ------------------------------------------------------------- DialTcp

  /** How one resolved address behaves. `ms` is how long select() waited. */
  datatype Address =
    | NoSocket
    | Immediate
    | Refuses
    | SelectFails(ms: nat)
    | SelectTimesOut
    | Writable(ms: nat, connected: bool)

  predicate Connects(a: Address) {
    a.Immediate? || (a.Writable? && a.connected)
  }

  function Wait(a: Address, timeout: nat): (w: nat)
    ensures w <= timeout
  {
    match a
    case SelectTimesOut => timeout
    case SelectFails(ms) => if ms <= timeout then ms else timeout
    case Writable(ms, _) => if ms <= timeout then ms else timeout
    case _ => 0
  }

  datatype Dial = Connected(sock: nat, index: nat) | Unresolved | TimedOut | NotConnected

  /** DialTcp over the resolved addresses (none: resolution failed). The socket returned
      belongs to the first address that connects and is the only one left open; a failure
      leaves none; and the time spent in select() is bounded by the timeout per address. */
  method DialTcp(os: HandleTable, addrs: seq<Address>, timeout: nat) returns (r: Dial, waited: nat)
    requires os.Valid()
    modifies os
    ensures os.Valid()
    ensures match r
            case Connected(s, k) =>
              && s !in old(os.open) && os.open == old(os.open) + {s}
              && k < |addrs| && Connects(addrs[k]) && (forall j :: 0 <= j < k ==> !Connects(addrs[j]))
            case Unresolved => os.open == old(os.open) && addrs == []
            case TimedOut =>
              && os.open == old(os.open) && (forall j :: 0 <= j < |addrs| ==> !Connects(addrs[j]))
              && exists j :: 0 <= j < |addrs| && addrs[j].SelectTimesOut?
            case NotConnected =>
              && os.open == old(os.open) && addrs != []
              && forall j :: 0 <= j < |addrs| ==> !Connects(addrs[j]) && !addrs[j].SelectTimesOut?
    ensures waited <= |addrs| * timeout
  {
    waited := 0;
    if addrs == [] {
      return Unresolved, waited;
    }
    var timedOut := false;
    var i := 0;
    while i < |addrs|
      invariant i <= |addrs| && os.Valid() && os.open == old(os.open) && os.next >= old(os.next)
      invariant forall j :: 0 <= j < i ==> !Connects(addrs[j])
      invariant timedOut <==> exists j :: 0 <= j < i && addrs[j].SelectTimesOut?
      invariant waited <= i * timeout
    {
      var a := addrs[i];
      assert (i + 1) * timeout == i * timeout + timeout <= |addrs| * timeout;
      i := i + 1;
      if a.NoSocket? {
        continue;
      }
      var s := os.Open();
      assert old(os.open) + {s} - {s} == old(os.open);
      if a.Immediate? {
        return Connected(s, i - 1), waited;
      }
      if a.Refuses? {
        os.Close(s);
        continue;
      }
      waited := waited + Wait(a, timeout);
      if a.SelectFails? || a.SelectTimesOut? {
        timedOut := timedOut || a.SelectTimesOut?;
        os.Close(s);
        continue;
      }
      if !a.connected {
        os.Close(s);
        continue;
      }
      return Connected(s, i - 1), waited;
    }
    r := if timedOut then Dial.TimedOut else NotConnected;
  }

  // ----------------------------------------------------- Windows stream pair

  /** One inbound connection on the loopback listener, or the failure of Accept. */
  datatype Inbound = Peer(tcp: bool, loopback: bool, port: nat) | AcceptFails

  /** Which of the fallible calls before the accept loop succeed, our own source port, and
      the connections that then arrive. An exhausted list is the accept deadline. */
  datatype PairScript = PairScript(
    listens: bool, listenerTyped: bool, socket: bool, connects: bool, nodelay: bool,
    named: bool, nameTyped: bool, deadline: bool, mine: nat, inbound: seq<Inbound>)

  predicate Ready(p: PairScript) {
    p.listens && p.listenerTyped && p.socket && p.connects && p.nodelay && p.named && p.nameTyped && p.deadline
  }

  /** The gate: the peer is on loopback and comes from the port our raw end owns. */
  predicate IsOurs(p: PairScript, c: Inbound) {
    c.Peer? && c.tcp && c.loopback && c.port == p.mine
  }

  /** A connection that passes the gate arrives before Accept fails. */
  ghost predicate OursArrives(p: PairScript) {
    exists k :: 0 <= k < |p.inbound| && OursIs(p, k)
  }

  /** Connection `k` is ours, and every earlier one was somebody else's. */
  ghost predicate OursIs(p: PairScript, k: int)
    requires 0 <= k < |p.inbound|
  {
    IsOurs(p, p.inbound[k]) && forall j :: 0 <= j < k ==> p.inbound[j].Peer? && !IsOurs(p, p.inbound[j])
  }

  /** newPair on Windows. On success exactly the raw end and the one accepted connection
      that passed the gate are left open, every other accepted connection having been
      closed; on every failure path nothing is left open. It succeeds exactly when the
      setup does and a gated connection arrives before Accept fails. */
  method NewPair(os: HandleTable, p: PairScript) returns (ok: bool, raw: nat, conn: nat, ghost k: nat)
    requires os.Valid()
    modifies os
    ensures os.Valid() && os.next >= old(os.next)
    ensures ok <==> Ready(p) && OursArrives(p)
    ensures ok ==> old(os.next) <= raw < conn && os.open == old(os.open) + {raw, conn}
    ensures ok ==> k < |p.inbound| && OursIs(p, k)
    ensures !ok ==> os.open == old(os.open)
  {
    ok, raw, conn, k := false, 0, 0, 0;
    if !p.listens {
      return;
    }
    var ln := os.Open();
    if !p.listenerTyped {
      os.Close(ln);
      assert os.open == old(os.open);
      return;
    }
    if !p.socket {
      os.Close(ln);
      assert os.open == old(os.open);
      return;
    }
    var s := os.Open();
    assert os.open == old(os.open) + {ln, s};
    if !p.connects || !p.nodelay || !p.named || !p.nameTyped || !p.deadline {
      os.Close(s);
      os.Close(ln);
      assert os.open == old(os.open);
      return;
    }
    var i := 0;
    while i < |p.inbound| && p.inbound[i].Peer?
      invariant i <= |p.inbound| && os.Valid() && os.next > s
      invariant os.open == old(os.open) + {ln, s}
      invariant forall j :: 0 <= j < i ==> p.inbound[j].Peer? && !IsOurs(p, p.inbound[j])
    {
      var c := os.Open();
      if IsOurs(p, p.inbound[i]) {
        os.Close(ln);
        assert os.open == old(os.open) + {s, c};
        assert OursIs(p, i);
        return true, s, c, i;
      }
      os.Close(c);
      assert os.open == old(os.open) + {ln, s};
      i := i + 1;
    }
    os.Close(s);
    os.Close(ln);
    assert os.open == old(os.open);
    assert !OursArrives(p);
  }

  // ---------------------------------------------------- the mesh import path

  /** One mesh_dial: is the node up, how does the pair go, does the mesh answer. */
  datatype DialScript = DialScript(up: bool, pair: PairScript, answers: bool)

  ghost predicate Dials(d: DialScript) {
    d.up && Ready(d.pair) && OursArrives(d.pair) && d.answers
  }

  // ------------------------------------------------------------- the bridge

  /** What the mesh connection does with one chunk the bridge passes on to it. */
  datatype MeshWrite = Taken | WriteFails | WriteHangs

  /** What the mesh peer does next; `late` says that the pump has closed its end of the
      stream by then. */
  datatype MeshRead = Sends(late: bool) | PeerEnds | ReadFails

  /** The two copies of a bridge, up to some moment after the pump has closed its end:
      towards the mesh, one entry for each chunk; from the mesh, all the peer has done. */
  datatype BridgeScript = BridgeScript(up: seq<MeshWrite>, down: seq<MeshRead>)

  /** The copy towards the mesh ends with the stream, unless a write hangs before one fails. */
  ghost predicate UpEnds(up: seq<MeshWrite>) {
    forall i :: 0 <= i < |up| && up[i].WriteHangs? ==> exists j :: 0 <= j < i && up[j].WriteFails?
  }

  /** The copy from the mesh ends when the peer does, when reading fails, or when there is
      something to write and the pump's end is gone. A silent peer does not end it. */
  ghost predicate DownEnds(down: seq<MeshRead>) {
    exists i :: 0 <= i < |down| && down[i] != Sends(false)
  }

  ghost predicate Finishes(b: BridgeScript) {
    UpEnds(b.up) && DownEnds(b.down)
  }

  method CopyUp(up: seq<MeshWrite>) returns (ended: bool)
    ensures ended <==> UpEnds(up)
  {
    for i := 0 to |up|
      invariant forall j :: 0 <= j < i ==> up[j].Taken?
    {
      if !up[i].Taken? {
        return up[i].WriteFails?;
      }
    }
    ended := true;
  }

  method CopyDown(down: seq<MeshRead>) returns (ended: bool)
    ensures ended <==> DownEnds(down)
  {
    for i := 0 to |down|
      invariant forall j :: 0 <= j < i ==> down[j] == Sends(false)
    {
      if down[i] != Sends(false) {
        return true;
      }
    }
    ended := false;
  }

  // ------------------------------------------------------ accepted connections

  /** What the pump of one connection meets, and when it sees the flag cleared. */
  datatype Traffic = Traffic(
    clientIn: seq<Incoming>, clientOut: seq<Outgoing>, streamIn: seq<Incoming>, streamOut: seq<Outgoing>,
    selects: seq<Selected>, clears: bool, clearedAt: nat)

  datatype Service = Service(traffic: Traffic, bridge: BridgeScript)

  /** The handles of one forwarded connection: the accepted client and the C end of the
      pair belong to the pump, the Go end and the mesh connection to the bridge. */
  datatype Link = Link(client: nat, stream: nat, goEnd: nat, meshEnd: nat, service: Service)

  function HandlesOf(l: Link): set<nat> {
    {l.client, l.stream, l.goEnd, l.meshEnd}
  }

  predicate WellFormed(l: Link) {
    l.client < l.stream < l.goEnd < l.meshEnd
  }

  /** MeshForwarder::Pump on one link: it closes the two handles that are its own. */
  method PumpLink(os: HandleTable, l: Link)
    requires os.Valid() && WellFormed(l) && HandlesOf(l) <= os.open
    modifies os`open
    ensures os.Valid() && os.open == old(os.open) - {l.client, l.stream}
  {
    var t := l.service.traffic;
    var client := new Endpoint(os, l.client, false, t.clientIn, t.clientOut);
    var stream := new Endpoint(os, l.stream, false, t.streamIn, t.streamOut);
    var flag := new StopFlag(t.clears, t.clearedAt);
    ghost var turns := MeshPump(client, stream, t.selects, flag);
  }

  /** bridge on one link: nobody waits for it, and it closes its two handles only when both
      copies have ended. */
  method Bridge(os: HandleTable, l: Link) returns (ended: bool)
    requires os.Valid() && WellFormed(l) && {l.goEnd, l.meshEnd} <= os.open
    modifies os`open
    ensures os.Valid() && (ended <==> Finishes(l.service.bridge))
    ensures os.open == old(os.open) - if ended then {l.goEnd, l.meshEnd} else {}
  {
    var up := CopyUp(l.service.bridge.up);
    var down := CopyDown(l.service.bridge.down);
    ended := up && down;
    if ended {
      os.Close(l.goEnd);
      os.Close(l.meshEnd);
    }
  }

  /** mesh_dial. On success the caller owns `stream` and the bridge owns the other two; on
      every failure the pair is released and nothing is left behind. */
  method MeshDial(os: HandleTable, d: DialScript) returns (rc: int, stream: nat, goEnd: nat, meshEnd: nat)
    requires os.Valid()
    modifies os
    ensures os.Valid() && os.next >= old(os.next)
    ensures rc == 0 <==> Dials(d)
    ensures rc == 0 ==>
              && old(os.next) <= stream < goEnd < meshEnd < os.next
              && os.open == old(os.open) + {stream, goEnd, meshEnd}
    ensures rc != 0 ==> os.open == old(os.open)
  {
    rc, stream, goEnd, meshEnd := 1, 0, 0, 0;
    if !d.up {
      return;
    }
    var ok, raw, conn, k := NewPair(os, d.pair);
    if !ok {
      return;
    }
    if !d.answers {
      os.Close(raw);
      os.Close(conn);
      assert os.open == old(os.open);
      return;
    }
    var m := os.Open();
    assert os.open == old(os.open) + {raw, conn, m};
    return 0, raw, conn, m;
  }

  /** What the forwarder's accept loop meets in one turn. */
  datatype Arrival =
    | NothingYet                      // select() timed out or accept() failed
    | Late                            // accepted, but running_ is already false
    | Client(dial: DialScript, service: Service)

  /** The connections among arrivals[..i] that get a link: those the mesh answers. */
  ghost function Dialled(arrivals: seq<Arrival>, i: nat): seq<Service>
    requires i <= |arrivals|
  {
    if i == 0 then []
    else
      var a := arrivals[i - 1];
      Dialled(arrivals, i - 1) + if a.Client? && Dials(a.dial) then [a.service] else []
  }

  /** The arrivals the loop gets to: after one accepted too late it takes no more. */
  function UntilLate(arrivals: seq<Arrival>): (n: nat)
    ensures n <= |arrivals| && (n < |arrivals| ==> arrivals[n].Late?)
    ensures forall j :: 0 <= j < n ==> !arrivals[j].Late?
  {
    if arrivals == [] || arrivals[0].Late? then 0 else 1 + UntilLate(arrivals[1..])
  }

  ghost function Served(arrivals: seq<Arrival>): seq<Service> {
    Dialled(arrivals, UntilLate(arrivals))
  }

  function ServicesOf(links: seq<Link>): seq<Service> {
    seq(|links|, i requires 0 <= i < |links| => links[i].service)
  }

  /** All handles of links[from..]. */
  ghost function Held(links: seq<Link>, from: nat): set<nat>
    requires from <= |links|
    decreases |links| - from
  {
    if from == |links| then {} else HandlesOf(links[from]) + Held(links, from + 1)
  }

  /** The ends that the unfinished bridges among links[..i] keep. */
  ghost function Kept(links: seq<Link>, i: nat): set<nat>
    requires i <= |links|
  {
    if i == 0 then {}
    else
      var l := links[i - 1];
      Kept(links, i - 1) + if Finishes(l.service.bridge) then {} else {l.goEnd, l.meshEnd}
  }

  ghost predicate Ordered(links: seq<Link>, lo: nat, hi: nat) {
    && (forall i :: 0 <= i < |links| ==> WellFormed(links[i]) && lo <= links[i].client && links[i].meshEnd < hi)
    && (forall i, j :: 0 <= i < j < |links| ==> links[i].meshEnd < links[j].client)
  }

  lemma {:induction false} HeldAppend(links: seq<Link>, l: Link, from: nat)
    requires from <= |links|
    ensures Held(links + [l], from) == Held(links, from) + HandlesOf(l)
    decreases |links| - from
  {
    if from < |links| {
      HeldAppend(links, l, from + 1);
    } else {
      assert Held(links + [l], from + 1) == {};
    }
  }

  lemma {:induction false} HeldBounds(links: seq<Link>, lo: nat, hi: nat, from: nat)
    requires Ordered(links, lo, hi) && from <= |links|
    ensures forall h :: h in Held(links, from) ==> lo <= h < hi
    ensures from > 0 ==> forall h :: h in Held(links, from) ==> links[from - 1].meshEnd < h
    decreases |links| - from
  {
    if from < |links| {
      HeldBounds(links, lo, hi, from + 1);
    }
  }

  lemma {:induction false} KeptBounds(links: seq<Link>, lo: nat, hi: nat, i: nat)
    requires Ordered(links, lo, hi) && i <= |links|
    ensures forall h :: h in Kept(links, i) ==> lo <= h < hi
    ensures i < |links| ==> forall h :: h in Kept(links, i) ==> h < links[i].client
  {
    if i > 0 {
      KeptBounds(links, lo, hi, i - 1);
    }
  }

  lemma {:induction false} KeptEmpty(links: seq<Link>, i: nat)
    requires i <= |links|
    ensures Kept(links, i) == {} <==> forall j :: 0 <= j < i ==> Finishes(links[j].service.bridge)
  {
    if i > 0 {
      KeptEmpty(links, i - 1);
      if !Finishes(links[i - 1].service.bridge) {
        assert links[i - 1].goEnd in Kept(links, i);
      }
    }
  }

  /** One accepted client: dialled, or closed again when the dial fails. */
  method AcceptClient(os: HandleTable, dial: DialScript, service: Service) returns (ok: bool, l: Link)
    requires os.Valid()
    modifies os
    ensures os.Valid() && os.next >= old(os.next)
    ensures ok <==> Dials(dial)
    ensures ok ==> WellFormed(l) && old(os.next) <= l.client && l.meshEnd < os.next && l.service == service
    ensures os.open == old(os.open) + if ok then HandlesOf(l) else {}
  {
    var client := os.Open();
    assert os.open - {client} == old(os.open);
    var rc, stream, goEnd, meshEnd := MeshDial(os, dial);
    ok, l := rc == 0, Link(client, stream, goEnd, meshEnd, service);
    if rc != 0 {
      os.Close(client);
    }
  }

  lemma LinkAdded(links: seq<Link>, l: Link, lo: nat, hi: nat, hi': nat)
    requires Ordered(links, lo, hi) && WellFormed(l) && lo <= hi <= l.client && l.meshEnd < hi'
    ensures Ordered(links + [l], lo, hi') && Held(links + [l], 0) == Held(links, 0) + HandlesOf(l)
  {
    HeldAppend(links, l, 0);
  }

  lemma OrderedLater(links: seq<Link>, lo: nat, hi: nat, hi': nat)
    requires Ordered(links, lo, hi) && hi <= hi'
    ensures Ordered(links, lo, hi')
  {
  }

  /** One turn of the accept loop that is not the last. */
  method AcceptTurn(os: HandleTable, a: Arrival, links: seq<Link>, ghost base: set<nat>, ghost lo: nat)
    returns (links': seq<Link>)
    requires os.Valid() && !a.Late? && lo <= os.next && Ordered(links, lo, os.next) && os.open == base + Held(links, 0)
    modifies os
    ensures os.Valid() && lo <= os.next && Ordered(links', lo, os.next) && os.open == base + Held(links', 0)
    ensures ServicesOf(links') == ServicesOf(links) + if a.Client? && Dials(a.dial) then [a.service] else []
  {
    links' := links;
    if a.Client? {
      ghost var hi := os.next;
      var ok, l := AcceptClient(os, a.dial, a.service);
      if ok {
        LinkAdded(links, l, lo, hi, os.next);
        links' := links + [l];
        assert ServicesOf(links') == ServicesOf(links) + [a.service];
      } else {
        OrderedLater(links, lo, hi, os.next);
      }
    }
  }

  lemma {:induction false} UntilLateIs(arrivals: seq<Arrival>, n: nat)
    requires FirstLate(arrivals, n)
    ensures UntilLate(arrivals) == n
  {
    if n > 0 {
      UntilLateIs(arrivals[1..], n - 1);
    }
  }

  /** The first client that came too late, if any, is number `n`. */
  ghost predicate FirstLate(arrivals: seq<Arrival>, n: nat) {
    && n <= |arrivals| && (n < |arrivals| ==> arrivals[n].Late?)
    && forall j :: 0 <= j < n ==> !arrivals[j].Late?
  }

  /** The turns of the accept loop before a client comes too late. */
  method AcceptTurns(os: HandleTable, arrivals: seq<Arrival>) returns (links: seq<Link>, n: nat)
    requires os.Valid()
    modifies os
    ensures os.Valid() && old(os.next) <= os.next && Ordered(links, old(os.next), os.next)
    ensures os.open == old(os.open) + Held(links, 0)
    ensures FirstLate(arrivals, n)
    ensures ServicesOf(links) == Dialled(arrivals, n)
  {
    links, n := [], 0;
    ghost var base, lo := os.open, os.next;
    while n < |arrivals| && !arrivals[n].Late?
      invariant n <= |arrivals| && forall j :: 0 <= j < n ==> !arrivals[j].Late?
      invariant os.Valid() && lo <= os.next && Ordered(links, lo, os.next) && os.open == base + Held(links, 0)
      invariant ServicesOf(links) == Dialled(arrivals, n)
    {
      links := AcceptTurn(os, arrivals[n], links, base, lo);
      n := n + 1;
    }
  }

  /** MeshForwarder::AcceptLoop. Every client that was accepted is closed again or has
      become one link, with its four handles open and its own. */
  method AcceptLoop(os: HandleTable, arrivals: seq<Arrival>) returns (links: seq<Link>)
    requires os.Valid()
    modifies os
    ensures os.Valid() && Ordered(links, old(os.next), os.next) && old(os.next) <= os.next
    ensures os.open == old(os.open) + Held(links, 0)
    ensures ServicesOf(links) == Served(arrivals)
  {
    var n;
    links, n := AcceptTurns(os, arrivals);
    UntilLateIs(arrivals, n);
    if n < |arrivals| {
      ghost var hi := os.next;
      var client := os.Open();
      os.Close(client);
      OrderedLater(links, old(os.next), hi, os.next);
    }
  }

  /** A link's handles lie above everything older and below everything newer. */
  ghost predicate Between(l: Link, older: set<nat>, newer: set<nat>) {
    WellFormed(l) && (forall h :: h in older ==> h < l.client) && (forall h :: h in newer ==> l.meshEnd < h)
  }

  lemma {:induction false} LinkBetween(links: seq<Link>, i: nat, lo: nat, hi: nat)
    requires Ordered(links, lo, hi) && i < |links|
    ensures lo <= links[i].client && Between(links[i], Kept(links, i), Held(links, i + 1))
  {
    HeldBounds(links, lo, hi, i + 1);
    KeptBounds(links, lo, hi, i);
  }

  lemma Apart(l: Link, base: set<nat>, older: set<nat>, newer: set<nat>)
    requires Between(l, older, newer) && forall h :: h in base ==> h < l.client
    ensures HandlesOf(l) !! base + newer + older
  {
  }

  /** The end of one link: the pump, and the bridge as far as it gets. `others` is all that
      is open besides. */
  method EndLink(os: HandleTable, l: Link, ghost others: set<nat>)
    requires os.Valid() && WellFormed(l) && HandlesOf(l) !! others && os.open == others + HandlesOf(l)
    modifies os`open
    ensures os.Valid()
    ensures os.open == others + if Finishes(l.service.bridge) then {} else {l.goEnd, l.meshEnd}
  {
    PumpLink(os, l);
    assert os.open == others + {l.goEnd, l.meshEnd};
    var ended := Bridge(os, l);
  }

  lemma {:induction false} NothingKept(links: seq<Link>, services: seq<Service>, lo: nat, hi: nat)
    requires Ordered(links, lo, hi) && ServicesOf(links) == services
    ensures forall h :: h in Kept(links, |links|) ==> lo <= h
    ensures Kept(links, |links|) == {} <==> forall i :: 0 <= i < |services| ==> Finishes(services[i].bridge)
  {
    KeptBounds(links, lo, hi, |links|);
    KeptEmpty(links, |links|);
    assert |ServicesOf(links)| == |links|;
    forall i | 0 <= i < |links| ensures links[i].service == services[i] {
      assert ServicesOf(links)[i] == links[i].service;
    }
  }

  method EndLinks(os: HandleTable, links: seq<Link>, ghost base: set<nat>, ghost lo: nat, ghost hi: nat)
    requires os.Valid() && Ordered(links, lo, hi) && (forall h :: h in base ==> h < lo)
    requires os.open == base + Held(links, 0)
    modifies os`open
    ensures os.Valid() && os.open == base + Kept(links, |links|)
  {
    for i := 0 to |links|
      invariant os.Valid() && os.open == base + Held(links, i) + Kept(links, i)
    {
      LinkBetween(links, i, lo, hi);
      Apart(links[i], base, Kept(links, i), Held(links, i + 1));
      ghost var others := base + Held(links, i + 1) + Kept(links, i);
      assert os.open == others + HandlesOf(links[i]);
      EndLink(os, links[i], others);
      assert os.open == base + Held(links, i + 1) + Kept(links, i + 1);
    }
  }

  /** A whole mesh import, from the listening socket to the end of Close. Close waits for
      the accept loop and the pumps and closes the listener, but nobody waits for the
      bridges. For every sequence of arrivals, dial failures, streams and stops, the
      process is left with the handles it had before and exactly the two ends of each
      bridge that has not finished; so it is left as it was if and only if every bridge
      of a connection that was served has finished. */
  method ForwarderLifetime(os: HandleTable, arrivals: seq<Arrival>) returns (links: seq<Link>)
    requires os.Valid()
    modifies os
    ensures os.Valid() && Ordered(links, old(os.next), os.next) && ServicesOf(links) == Served(arrivals)
    ensures os.open == old(os.open) + Kept(links, |links|)
    ensures os.open == old(os.open) <==>
            forall i :: 0 <= i < |Served(arrivals)| ==> Finishes(Served(arrivals)[i].bridge)
  {
    var listener := os.Open();
    ghost var lo := os.next;
    links := AcceptLoop(os, arrivals);
    ghost var hi := os.next;
    EndLinks(os, links, old(os.open) + {listener}, lo, hi);
    NothingKept(links, Served(arrivals), lo, hi);
    os.Close(listener);
    assert Kept(links, |links|) !! old(os.open) + {listener};
    assert os.open == old(os.open) + Kept(links, |links|);
  }

  /** The input on which handles stay open: one client is served and disconnects, while the
      mesh peer keeps its connection and stays silent. */
  method SilentPeerKeepsHandles(os: HandleTable, dial: DialScript) returns (l: Link)
    requires os.Valid() && Dials(dial)
    modifies os
    ensures os.open == old(os.open) + {l.goEnd, l.meshEnd}
    ensures old(os.next) <= l.goEnd < l.meshEnd
  {
    var traffic := Traffic([End], [], [], [], [Readable(true, false)], false, 0);
    var arrivals := [Client(dial, Service(traffic, BridgeScript([], [])))];
    assert arrivals[1..] == [] && UntilLate(arrivals) == 1;
    assert Dialled(arrivals, 0) == [] && Served(arrivals) == [arrivals[0].service];
    var links := ForwarderLifetime(os, arrivals);
    assert |ServicesOf(links)| == |links| == 1 && ServicesOf(links)[0] == links[0].service;
    l := links[0];
    assert !DownEnds(l.service.bridge.down);
    assert Kept(links, 0) == {} && Kept(links, 1) == {l.goEnd, l.meshEnd};
  }
}
