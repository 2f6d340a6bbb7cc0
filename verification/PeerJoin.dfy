/** Joining the peer-to-peer network: a node connects to one member, learns of others
    from the peer list in the handshake, and works through them. */
module PeerJoin {
  import opened Basics

  datatype Addr = Addr(ip: nat, port: nat)

  /** 0.0.0.0, which a node without a configured public address announces. */
  const AnyIp: nat := 0

  /** `seenIp` is the address peers see a node's connections come from; `peers` is its
      peer list, `found` the addresses collected during the connection under way,
      `http` the download ports by peer, `dialed` the peers it has connected to. */
  datatype Peer = Peer(
    bind: Addr,
    advertised: Option<Addr>,
    seenIp: nat,
    httpPort: Option<nat>,
    peers: set<Addr>,
    found: set<Addr>,
    http: map<Addr, Option<nat>>,
    dialed: set<Addr>)

  type Net = map<Addr, Peer>

  /** The address a node sends in its handshake. */
  function Announced(p: Peer): Addr {
    if p.advertised.Some? then p.advertised.value else Addr(AnyIp, p.bind.port)
  }

  /** The address a node takes for its own when it filters what it has learnt. */
  function Local(p: Peer): Addr {
    if p.advertised.Some? then p.advertised.value else p.bind
  }

  /** A placeholder is replaced by the address the connection was seen to come from. */
  function Seen(announced: Addr, ip: nat): Addr {
    if announced.ip == AnyIp then Addr(ip, announced.port) else announced
  }

  /** The address under which others know a node. */
  function Public(p: Peer): Addr {
    Seen(Announced(p), p.seenIp)
  }

  datatype Handshake = Handshake(listen: Addr, peers: set<Addr>, httpPort: Option<nat>)

  /** Building the message puts the node's own address into its list. */
  function Building(p: Peer): Peer {
    p.(peers := p.peers + {Announced(p)})
  }

  function Message(p: Peer): Handshake {
    Handshake(Announced(p), Building(p).peers, p.httpPort)
  }

  function Corrected(msg: Handshake, ip: nat): Handshake {
    if msg.listen.ip == AnyIp then
      var fixed := Seen(msg.listen, ip);
      msg.(listen := fixed, peers := msg.peers - {msg.listen} + {fixed})
    else msg
  }

  /** What the node did not know yet, without itself and the sender. */
  function News(p: Peer, msg: Handshake): set<Addr> {
    msg.peers - p.peers - {Local(p)} - {msg.listen}
  }

  function Absorb(p: Peer, msg: Handshake): Peer {
    p.(peers := p.peers + {msg.listen},
       found := p.found + News(p, msg),
       http := p.http[msg.listen := msg.httpPort])
  }

  /** Both ends of a handshake between `me` and the node at `addr`. */
  function Shake(net: Net, me: Addr, addr: Addr): Net
    requires me in net && addr in net && me != addr
  {
    var a, b := net[me], net[addr];
    var a' := Absorb(Building(a), Corrected(Message(b), b.seenIp));
    var b' := Absorb(Building(b), Corrected(Message(a), a.seenIp));
    net[me := a'.(dialed := a.dialed + {addr})][addr := b']
  }

  /** Nodes are known under their public address, which is a real one. */
  ghost predicate Addressed(net: Net) {
    forall a :: a in net ==> Public(net[a]) == a && a.ip != AnyIp
  }

  /** Everyone but the node's own announced address. */
  function Others(p: Peer): set<Addr> {
    p.peers - {Announced(p)}
  }

  /** `p` lists exactly `s`, with the right download ports. */
  ghost predicate Knows(net: Net, p: Peer, s: set<Addr>) {
    && Others(p) == s
    && p.http.Keys == s
    && forall x :: x in s ==> x in net && p.http[x] == net[x].httpPort
  }

  /** Every member lists every other member. */
  ghost predicate FullMesh(net: Net) {
    forall a :: a in net ==> Knows(net, net[a], net.Keys - {a})
  }

  ghost predicate Newcomer(p: Peer) {
    p.peers <= {Announced(p)} && p.http == map[] && p.dialed == {}
  }

  /** While `me` joins the members `s` and is through with `done`. */
  ghost predicate Joining(net: Net, me: Addr, s: set<Addr>, done: set<Addr>) {
    && Addressed(net) && net.Keys == s + {me} && me !in s && done <= s
    && Knows(net, net[me], done) && net[me].dialed == done
    && forall m :: m in s ==> Knows(net, net[m], Due(me, s, done, m))
  }

  // ---------------------------------------------------------------- one handshake

  lemma AnnouncedIsOwn(net: Net, a: Addr, x: Addr)
    requires Addressed(net) && a in net && x in net && Announced(net[a]) == x
    ensures x == a
  {
  }

  /** The corrected message of a member lists what it knows, and itself. */
  lemma MessageOf(net: Net, b: Addr, s: set<Addr>)
    requires Addressed(net) && b in net && Knows(net, net[b], s) && b !in s
    ensures Corrected(Message(net[b]), net[b].seenIp) == Handshake(b, s + {b}, net[b].httpPort)
  {
    var p := net[b];
    var msg := Message(p);
    assert msg.peers == s + {Announced(p)};
    if msg.listen.ip == AnyIp {
      assert Announced(p) !in s;
      assert msg.peers - {msg.listen} + {b} == s + {b};
    } else {
      assert Announced(p) == b;
    }
  }

  /** Taking in the message of `x` adds exactly `x`. */
  lemma AbsorbAdds(net: Net, a: Addr, s: set<Addr>, x: Addr, peers: set<Addr>)
    requires Addressed(net) && a in net && x in net && x != a && Knows(net, net[a], s)
    ensures var p := Absorb(Building(net[a]), Handshake(x, peers, net[x].httpPort));
            Others(p) == s + {x} && p.http == net[a].http[x := net[x].httpPort]
  {
    if Announced(net[a]) == x {
      AnnouncedIsOwn(net, a, x);
    }
  }

  /** What a joining node learns from a member: all members it does not list yet,
      except the sender and whatever it takes for its own address. */
  lemma NewsFrom(net: Net, me: Addr, s: set<Addr>, done: set<Addr>, b: Addr)
    requires Joining(net, me, s, done) && b in s && b !in done
    ensures News(Building(net[me]), Corrected(Message(net[b]), net[b].seenIp)) == s - done - {b} - {Local(net[me])}
  {
    MessageOf(net, b, s - {b});
    var p := Building(net[me]);
    assert s - {b} + {b} == s;
    forall x | x in s ensures x in p.peers <==> x in done {
      if x == Announced(net[me]) {
        AnnouncedIsOwn(net, me, x);
      }
    }
  }

  /** The nodes and their download ports are the same on both sides. */
  ghost predicate SamePorts(net: Net, net': Net) {
    net'.Keys == net.Keys && forall x :: x in net ==> net'[x].httpPort == net[x].httpPort
  }

  /** Knowledge depends on a network only through those. */
  lemma KnowsFrame(net: Net, net': Net, p: Peer, s: set<Addr>)
    requires SamePorts(net, net') && Knows(net, p, s)
    ensures Knows(net', p, s)
  {
  }

  /** Handshakes change nobody's address or download port. */
  lemma ShakeKeeps(net: Net, me: Addr, b: Addr)
    requires me in net && b in net && me != b
    ensures SamePorts(net, Shake(net, me, b))
    ensures Addressed(net) ==> Addressed(Shake(net, me, b))
  {
  }

  /** After a handshake each side knows the other in addition. */
  lemma ShakeAdds(net: Net, me: Addr, s: set<Addr>, b: Addr, r: set<Addr>)
    requires Addressed(net) && me in net && b in net && me != b
    requires Knows(net, net[me], s) && me !in s && Knows(net, net[b], r) && b !in r
    ensures var net' := Shake(net, me, b);
            && Knows(net', net'[me], s + {b}) && net'[me].dialed == net[me].dialed + {b}
            && Knows(net', net'[b], r + {me})
  {
    MessageOf(net, b, r);
    MessageOf(net, me, s);
    AbsorbAdds(net, me, s, b, r + {b});
    AbsorbAdds(net, b, r, me, s + {me});
    ShakeKeeps(net, me, b);
    var net' := Shake(net, me, b);
    assert Knows(net, net'[me], s + {b});
    assert Knows(net, net'[b], r + {me});
    KnowsFrame(net, net', net'[me], s + {b});
    KnowsFrame(net, net', net'[b], r + {me});
  }

  /** What a member should know at this point of the join. */
  function Due(me: Addr, s: set<Addr>, done: set<Addr>, m: Addr): set<Addr> {
    if m in done then s - {m} + {me} else s - {m}
  }

  /** A handshake with a member that is still to come moves the join on by that member. */
  lemma ShakeJoins(net: Net, me: Addr, s: set<Addr>, done: set<Addr>, b: Addr)
    requires Joining(net, me, s, done) && b in s && b !in done
    ensures Joining(Shake(net, me, b), me, s, done + {b})
  {
    var net' := Shake(net, me, b);
    ShakeKeeps(net, me, b);
    ShakeAdds(net, me, done, b, s - {b});
    forall m | m in s ensures Knows(net', net'[m], Due(me, s, done + {b}, m)) {
      if m != b {
        assert Due(me, s, done + {b}, m) == Due(me, s, done, m);
        ShakeSpares(net, me, b, m, Due(me, s, done, m));
      }
    }
  }

  /** Third parties know what they knew. */
  lemma ShakeSpares(net: Net, me: Addr, b: Addr, m: Addr, r: set<Addr>)
    requires me in net && b in net && m in net && me != b && m != me && m != b && Knows(net, net[m], r)
    ensures Knows(Shake(net, me, b), Shake(net, me, b)[m], r)
  {
    ShakeKeeps(net, me, b);
    KnowsFrame(net, Shake(net, me, b), net[m], r);
  }

  /** Forgetting what was found last time leaves the join where it is. */
  lemma ClearedJoins(net: Net, me: Addr, s: set<Addr>, done: set<Addr>)
    requires Joining(net, me, s, done)
    ensures Joining(Cleared(net, me), me, s, done) && Local(Cleared(net, me)[me]) == Local(net[me])
  {
    var net' := Cleared(net, me);
    assert SamePorts(net, net');
    assert Knows(net, net'[me], done);
    KnowsFrame(net, net', net'[me], done);
    forall m | m in s ensures Knows(net', net'[m], Due(me, s, done, m)) {
      assert Knows(net, net[m], Due(me, s, done, m));
      KnowsFrame(net, net', net[m], Due(me, s, done, m));
    }
  }

  function Cleared(net: Net, me: Addr): Net
    requires me in net
  {
    net[me := net[me].(found := {})]
  }

  /** The whole of a successful dial: forget what was found before, shake hands, list
      the address. */
  function Dialed(net: Net, me: Addr, addr: Addr): Net
    requires me in net && addr in net && me != addr
  {
    var shaken := Shake(Cleared(net, me), me, addr);
    shaken[me := shaken[me].(peers := shaken[me].peers + {addr})]
  }

  lemma JoiningFacts(net: Net, me: Addr, s: set<Addr>, done: set<Addr>)
    requires Joining(net, me, s, done)
    ensures net.Keys == s + {me} && me !in s && net[me].dialed == done && done <= s
    ensures done <= net[me].peers
  {
  }

  lemma ListedAlready(net: Net, me: Addr, addr: Addr)
    requires me in net && addr in net[me].peers
    ensures net[me := net[me].(peers := net[me].peers + {addr})] == net
  {
    assert net[me].peers + {addr} == net[me].peers;
  }

  lemma DialedJoins(net: Net, me: Addr, s: set<Addr>, done: set<Addr>, b: Addr)
    requires Joining(net, me, s, done) && b in s && b !in done
    ensures var net' := Dialed(net, me, b);
            && Joining(net', me, s, done + {b})
            && Local(net'[me]) == Local(net[me])
            && net'[me].found == s - done - {b} - {Local(net[me])}
  {
    var clear := Cleared(net, me);
    ClearedJoins(net, me, s, done);
    NewsFrom(clear, me, s, done, b);
    ShakeJoins(clear, me, s, done, b);
    var shaken := Shake(clear, me, b);
    JoiningFacts(shaken, me, s, done + {b});
    ListedAlready(shaken, me, b);
  }

  /** A join that is through with everyone has kept the mesh full. */
  lemma JoinedIsMesh(net: Net, me: Addr, s: set<Addr>)
    requires Joining(net, me, s, s)
    ensures FullMesh(net)
  {
    forall a | a in net ensures Knows(net, net[a], net.Keys - {a}) {
      if a == me {
        assert net.Keys - {a} == s;
      } else {
        assert net.Keys - {a} == s - {a} + {me};
      }
    }
  }

  /** What is known stays known when a node is added. */
  lemma KnowsExtends(net: Net, me: Addr, p: Peer, q: Peer, s: set<Addr>)
    requires me !in net && Knows(net, q, s)
    ensures Knows(net[me := p], q, s)
  {
  }

  /** A newcomer next to a full mesh is a join that has not begun. */
  lemma NewcomerJoins(net: Net, me: Addr, p: Peer)
    requires Addressed(net) && FullMesh(net)
    requires me !in net && Public(p) == me && me.ip != AnyIp && Newcomer(p)
    ensures Joining(net[me := p], me, net.Keys, {})
  {
    var net' := net[me := p];
    forall m | m in net.Keys ensures Knows(net', net'[m], Due(me, net.Keys, {}, m)) {
      KnowsExtends(net, me, p, net[m], net.Keys - {m});
    }
    assert Knows(net', p, {});
  }

  // ---------------------------------------------------------------- the worklist

  /** Whom a join through `target` reaches: every member, but for one whose address the
      newcomer takes for its own. */
  function Reach(p: Peer, s: set<Addr>, target: Addr): set<Addr> {
    s - ({Local(p)} - {target})
  }

  // ---------------------------------------------------------------- the work list

  /** Addresses are kept in ordered sets: by host, then by port. */
  predicate Less(a: Addr, b: Addr) {
    a.ip < b.ip || (a.ip == b.ip && a.port < b.port)
  }

  ghost predicate IsGreatest(x: Addr, s: set<Addr>) {
    x in s && forall y :: y in s && y != x ==> Less(y, x)
  }

  predicate IsLeast(x: Addr, s: set<Addr>) {
    x in s && forall y :: y in s && y != x ==> Less(x, y)
  }

  lemma {:induction false} LeastExists(s: set<Addr>)
    requires s != {}
    ensures exists x :: IsLeast(x, s)
    decreases |s|
  {
    var a :| a in s;
    if s == {a} {
      assert IsLeast(a, s);
    } else {
      LeastExists(s - {a});
      var x :| IsLeast(x, s - {a});
      if Less(a, x) {
        assert forall y :: y in s && y != a ==> y == x || Less(x, y);
        assert IsLeast(a, s);
      } else {
        assert IsLeast(x, s);
      }
    }
  }

  /** The members of `s` in ascending order. */
  ghost predicate Listing(list: seq<Addr>, s: set<Addr>) {
    Elems(list) == s && forall i, j :: 0 <= i < j < |list| ==> Less(list[i], list[j])
  }

  /** Whom a join through `target` that reaches `goal` reports as failed: nobody if there
      is no one else, otherwise everyone but `target` and the greatest of the others. */
  ghost predicate FailedExactly(goal: set<Addr>, target: Addr, failed: set<Addr>) {
    if goal == {target} then failed == {}
    else exists x :: IsGreatest(x, goal - {target}) && failed == goal - {target, x}
  }

  lemma FailedCount(goal: set<Addr>, target: Addr, failed: set<Addr>)
    requires target in goal && FailedExactly(goal, target, failed)
    ensures |failed| == (if |goal| <= 2 then 0 else |goal| - 2) && target !in failed
  {
    if goal != {target} {
      var x :| IsGreatest(x, goal - {target}) && failed == goal - {target, x};
      assert failed == goal - {target} - {x};
    }
  }

  /** How far the work is. At first the list is just `target`; once connected to it, the
      list is everyone else in reach, in order. From the second connection, to `second`,
      on: whoever else has not failed yet is listed, twice as long as it is not done. */
  ghost predicate Stage(goal: set<Addr>, target: Addr, done: set<Addr>, failed: set<Addr>, list: seq<Addr>,
                        second: Option<Addr>)
  {
    && target in goal && done <= goal && failed <= done
    && match second
       case None =>
         failed == {} && if done == {} then list == [target] else done == {target} && Listing(list, goal - {target})
       case Some(x) =>
         && IsGreatest(x, goal - {target}) && {target, x} <= done && failed !! {target, x}
         && Elems(list) <= goal - {target, x}
         && forall z :: z in goal - {target, x} ==> z in failed || Copies(list, z) >= (if z in done then 1 else 2)
  }

  ghost function Copies(list: seq<Addr>, z: Addr): nat {
    multiset(list)[z]
  }

  lemma CopiesConcat(a: seq<Addr>, b: seq<Addr>, z: Addr)
    ensures Copies(a + b, z) == Copies(a, z) + Copies(b, z)
  {
  }

  lemma CopiesLast(list: seq<Addr>, z: Addr)
    requires list != []
    ensures Copies(list, z) == Copies(DropLast(list), z) + if z == Last(list) then 1 else 0
  {
    assert list == DropLast(list) + [Last(list)];
  }

  lemma CopiesListed(list: seq<Addr>, z: Addr)
    ensures Copies(list, z) > 0 <==> z in Elems(list)
  {
  }

  lemma ElemsLast(list: seq<Addr>)
    requires list != []
    ensures Elems(list) == Elems(DropLast(list)) + {Last(list)}
  {
    assert list == DropLast(list) + [Last(list)];
    ElemsConcat(DropLast(list), [Last(list)]);
  }

  lemma ListingLast(list: seq<Addr>, s: set<Addr>)
    requires Listing(list, s) && list != []
    ensures IsGreatest(Last(list), s) && Elems(DropLast(list)) == s - {Last(list)}
  {
    ElemsLast(list);
    forall y | y in s && y != Last(list) ensures Less(y, Last(list)) {
      var i :| 0 <= i < |list| && list[i] == y;
    }
  }

  /** The next address is one in reach. */
  lemma StageNext(goal: set<Addr>, target: Addr, done: set<Addr>, failed: set<Addr>, list: seq<Addr>,
                  second: Option<Addr>)
    requires Stage(goal, target, done, failed, list, second) && list != []
    ensures Last(list) in goal
  {
    assert Last(list) in Elems(list);
  }

  /** Dialing a connected address again takes it off the list and reports it. */
  lemma StageFails(goal: set<Addr>, target: Addr, done: set<Addr>, failed: set<Addr>, list: seq<Addr>,
                   second: Option<Addr>)
    requires Stage(goal, target, done, failed, list, second) && list != [] && Last(list) in done
    ensures Stage(goal, target, done, failed + {Last(list)}, DropLast(list), second)
  {
    assert Last(list) in Elems(list);
    ElemsLast(list);
    match second
    case None => assert false;
    case Some(x) =>
      forall z | z in goal - {target, x}
        ensures z in failed + {Last(list)} || Copies(DropLast(list), z) >= (if z in done then 1 else 2)
      {
        CopiesLast(list, z);
      }
  }

  /** A new connection takes one copy off and adds everyone still to come. */
  lemma StageMoves(goal: set<Addr>, target: Addr, done: set<Addr>, failed: set<Addr>, list: seq<Addr>,
                   second: Option<Addr>, more: seq<Addr>)
    requires Stage(goal, target, done, failed, list, second) && list != [] && Last(list) !in done
    requires Listing(more, goal - done - {Last(list)})
    ensures Stage(goal, target, done + {Last(list)}, failed, DropLast(list) + more,
                  if second.None? && done != {} then Some(Last(list)) else second)
  {
    var init, next := DropLast(list), Last(list);
    assert next in Elems(list);
    ElemsConcat(init, more);
    ElemsLast(list);
    if second.None? && done == {} {
      assert init + more == more && goal - done - {next} == goal - {target};
    } else if second.None? {
      SecondStage(goal, target, list, more);
      assert done + {next} == {target, next} && goal - done - {next} == goal - {target, next};
    } else {
      forall z | z in goal - {target, second.value}
        ensures z in failed || Copies(init + more, z) >= (if z in done + {next} then 1 else 2)
      {
        CopiesLast(list, z);
        CopiesConcat(init, more, z);
      }
    }
  }

  lemma SecondStage(goal: set<Addr>, target: Addr, list: seq<Addr>, more: seq<Addr>)
    requires target in goal && Listing(list, goal - {target}) && list != []
    requires Elems(more) == goal - {target} - {Last(list)}
    ensures IsGreatest(Last(list), goal - {target})
    ensures forall z :: z in goal - {target, Last(list)} ==> Copies(DropLast(list) + more, z) >= 2
  {
    ListingLast(list, goal - {target});
    forall z | z in goal - {target, Last(list)} ensures Copies(DropLast(list) + more, z) >= 2 {
      CopiesListed(DropLast(list), z);
      CopiesListed(more, z);
      CopiesConcat(DropLast(list), more, z);
    }
  }

  /** When the list is empty everyone in reach is connected, and it is known who failed. */
  lemma StageEnds(goal: set<Addr>, target: Addr, done: set<Addr>, failed: set<Addr>, second: Option<Addr>)
    requires Stage(goal, target, done, failed, [], second)
    ensures done == goal && FailedExactly(goal, target, failed)
  {
    match second
    case None => assert goal - {target} == {};
    case Some(x) =>
      assert forall z :: z in goal - {target, x} ==> z in failed;
      assert failed == goal - {target, x};
      assert x in goal && x != target;
  }

  class Network {
    var nodes: Net

    constructor (nodes: Net)
      ensures this.nodes == nodes
    {
      this.nodes := nodes;
    }

    /** Dial an address. It fails for an address nobody has, for the node's own, and
        for one it is connected to already. */
    method Connect(me: Addr, addr: Addr) returns (ok: bool)
      requires me in nodes
      modifies this
      ensures ok <==> addr in old(nodes) && addr != me && addr !in old(nodes)[me].dialed
      ensures nodes == if ok then Shake(old(nodes), me, addr) else old(nodes)
    {
      ok := addr in nodes && addr != me && addr !in nodes[me].dialed;
      if ok {
        nodes := Shake(nodes, me, addr);
      }
    }

    /** One address of the work list: dial it, note what was found on the way. The
        dialed address then goes into the list, where the handshake has put it. */
    method DialNext(me: Addr, next: Addr, ghost s: set<Addr>, ghost done: set<Addr>) returns (ok: bool, found: set<Addr>)
      requires Joining(nodes, me, s, done) && next in s
      modifies this
      ensures ok <==> next !in done
      ensures Joining(nodes, me, s, if ok then done + {next} else done)
      ensures me in old(nodes) && me in nodes && Local(nodes[me]) == Local(old(nodes)[me])
      ensures ok ==> found == s - done - {next} - {Local(old(nodes)[me])}
    {
      JoiningFacts(nodes, me, s, done);
      if next !in done {
        DialedJoins(nodes, me, s, done, next);
      }
      ClearedJoins(nodes, me, s, done);
      nodes := nodes[me := nodes[me].(found := {})];
      found := {};
      ok := Connect(me, next);
      if ok {
        found := nodes[me].found;
        nodes := nodes[me := nodes[me].(peers := nodes[me].peers + {next})];
        assert nodes == Dialed(old(nodes), me, next);
      } else {
        assert nodes == Cleared(old(nodes), me);
      }
    }

    /** Take the last address off the work list and push what connecting to it finds. */
    method WorkOne(me: Addr, list: seq<Addr>, ghost w: Work) returns (ok: bool, rest: seq<Addr>, ghost second: Option<Addr>)
      requires Working(nodes, me, w, list) && list != []
      modifies this
      ensures Working(nodes, me, Worked(w, Last(list), ok, second), rest)
      ensures if ok then Last(list) in w.s - w.done else Last(list) in w.done && |rest| < |list|
    {
      ghost var goal := Goal(w);
      StageNext(goal, w.target, w.done, w.failed, list, w.second);
      var found;
      ok, found := DialNext(me, Last(list), w.s, w.done);
      rest, second := DropLast(list), w.second;
      if ok {
        ghost var more;
        rest, more := PushAll(rest, found);
        FoundIs(goal, w.target, w.s, w.local, w.done, w.failed, list, w.second, found);
        StageMoves(goal, w.target, w.done, w.failed, list, w.second, more);
        second := if w.second.None? && w.done != {} then Some(Last(list)) else w.second;
      } else {
        StageFails(goal, w.target, w.done, w.failed, list, w.second);
      }
    }

    /** Connect to `addr`, then to everyone heard of on the way, one at a time. Everyone
        heard of twice is dialed twice, and the second time fails. */
    method DoConnect(me: Addr, addr: Addr, ghost s: set<Addr>)
      returns (connected: set<Addr>, failed: set<Addr>)
      requires Joining(nodes, me, s, {}) && addr in s
      modifies this
      ensures connected == Reach(old(nodes)[me], s, addr) && FailedExactly(connected, addr, failed)
      ensures |failed| == (if |connected| <= 2 then 0 else |connected| - 2) && addr !in failed
      ensures Joining(nodes, me, s, connected)
      ensures FullMesh(nodes) <==> Local(old(nodes)[me]) !in s - {addr}
    {
      connected, failed := {}, {};
      var toConnect := [addr];
      ghost var w := Work(s, Local(nodes[me]), addr, {}, {}, None);
      while toConnect != []
        invariant Working(nodes, me, w, toConnect) && w.done == connected && w.failed == failed
        invariant w.s == s && w.target == addr && w.local == Local(old(nodes)[me])
        decreases s - connected, |toConnect|
      {
        var next := Last(toConnect);
        var ok;
        ghost var second;
        ok, toConnect, second := WorkOne(me, toConnect, w);
        w := Worked(w, next, ok, second);
        if ok {
          connected := connected + {next};
        } else {
          failed := failed + {next};
        }
      }
      WorkDone(nodes, me, w);
    }
  }

  /** The join of `me` to the members `s` through `target`, as far as it has come. */
  datatype Work = Work(s: set<Addr>, local: Addr, target: Addr, done: set<Addr>, failed: set<Addr>, second: Option<Addr>)

  function Goal(w: Work): set<Addr> {
    w.s - ({w.local} - {w.target})
  }

  function Worked(w: Work, next: Addr, ok: bool, second: Option<Addr>): Work {
    if ok then w.(done := w.done + {next}, second := second) else w.(failed := w.failed + {next}, second := second)
  }

  ghost predicate Working(net: Net, me: Addr, w: Work, list: seq<Addr>) {
    && me in net && Local(net[me]) == w.local
    && Joining(net, me, w.s, w.done)
    && Stage(Goal(w), w.target, w.done, w.failed, list, w.second)
  }

  lemma WorkDone(net: Net, me: Addr, w: Work)
    requires Working(net, me, w, [])
    ensures w.done == Goal(w) && FailedExactly(w.done, w.target, w.failed) && Joining(net, me, w.s, w.done)
    ensures |w.failed| == (if |w.done| <= 2 then 0 else |w.done| - 2) && w.target !in w.failed
    ensures FullMesh(net) <==> w.local !in w.s - {w.target}
  {
    StageEnds(Goal(w), w.target, w.done, w.failed, w.second);
    FailedCount(w.done, w.target, w.failed);
    MeshIff(net, me, w.s, w.done, w.local, w.target);
  }

  lemma FoundIs(goal: set<Addr>, target: Addr, s: set<Addr>, local: Addr, done: set<Addr>, failed: set<Addr>,
                list: seq<Addr>, second: Option<Addr>, found: set<Addr>)
    requires Stage(goal, target, done, failed, list, second) && list != [] && goal == s - ({local} - {target})
    requires found == s - done - {Last(list)} - {local}
    ensures found == goal - done - {Last(list)}
  {
    assert target in done || Last(list) == target;
  }

  /** A node, its address, and the member it joins through. */
  datatype Joiner = Joiner(addr: Addr, peer: Peer, via: Addr)

  ghost predicate ComesNew(keys: set<Addr>, j: Joiner) {
    && j.addr !in keys && j.via in keys
    && Public(j.peer) == j.addr && j.addr.ip != AnyIp && Newcomer(j.peer)
  }

  /** No member but the one it joins through has the address it takes for its own. */
  ghost predicate CanJoin(keys: set<Addr>, j: Joiner) {
    ComesNew(keys, j) && Local(j.peer) !in keys - {j.via}
  }

  ghost predicate CanJoinInTurn(keys: set<Addr>, js: seq<Joiner>)
    decreases |js|
  {
    js == [] || (CanJoin(keys, js[0]) && CanJoinInTurn(keys + {js[0].addr}, js[1..]))
  }

  function Addrs(js: seq<Joiner>): set<Addr> {
    if js == [] then {} else {js[0].addr} + Addrs(js[1..])
  }

  lemma NextInTurn(keys: set<Addr>, js: seq<Joiner>, i: nat)
    requires i < |js| && CanJoinInTurn(keys, js[i..])
    ensures CanJoin(keys, js[i]) && CanJoinInTurn(keys + {js[i].addr}, js[i + 1..])
    ensures keys + Addrs(js[i..]) == keys + {js[i].addr} + Addrs(js[i + 1..])
  {
    assert js[i..][0] == js[i] && js[i..][1..] == js[i + 1..];
  }

  ghost predicate Meshed(net: Net) {
    Addressed(net) && FullMesh(net)
  }

  /** Nodes that join one after the other, each through any member it likes, keep the
      network a full mesh, of whatever size. */
  method JoinInTurn(net: Network, js: seq<Joiner>)
    requires Meshed(net.nodes) && CanJoinInTurn(net.nodes.Keys, js)
    modifies net
    ensures Meshed(net.nodes)
    ensures net.nodes.Keys == old(net.nodes).Keys + Addrs(js)
  {
    var i := 0;
    assert js[0..] == js;
    ghost var keys, all := net.nodes.Keys, net.nodes.Keys + Addrs(js);
    while i < |js|
      invariant 0 <= i <= |js| && keys == net.nodes.Keys
      invariant Meshed(net.nodes) && CanJoinInTurn(keys, js[i..])
      invariant keys + Addrs(js[i..]) == all
    {
      NextInTurn(keys, js, i);
      keys := keys + {js[i].addr};
      JoinOne(net, js[i]);
      i := i + 1;
    }
  }

  /** One join, of any newcomer: the mesh is full afterwards exactly if it can join. */
  method JoinOne(net: Network, j: Joiner)
    requires Meshed(net.nodes) && ComesNew(net.nodes.Keys, j)
    modifies net
    ensures Addressed(net.nodes) && net.nodes.Keys == old(net.nodes).Keys + {j.addr}
    ensures Meshed(net.nodes) <==> CanJoin(old(net.nodes).Keys, j)
  {
    NewcomerJoins(net.nodes, j.addr, j.peer);
    net.nodes := net.nodes[j.addr := j.peer];
    var _, _ := net.DoConnect(j.addr, j.via, old(net.nodes).Keys);
  }

  // Two members, and a newcomer behind an address translator who is bound, on its own
  // side, to the address that the second member has on this one.
  const First: Addr := Addr(10, 1)
  const Second: Addr := Addr(20, 2)
  const Outside: Addr := Addr(30, 2)

  function Member(own: Addr, other: Addr): Peer {
    Peer(own, Some(own), own.ip, None, {other}, {}, map[other := None], {})
  }

  function DoubleBound(): Joiner {
    Joiner(Outside, Peer(Second, None, Outside.ip, None, {}, {}, map[], {}), First)
  }

  lemma TwoAreMeshed()
    ensures Meshed(map[First := Member(First, Second), Second := Member(Second, First)])
  {
    var net := map[First := Member(First, Second), Second := Member(Second, First)];
    assert net.Keys - {First} == {Second} && net.Keys - {Second} == {First};
    assert Others(Member(First, Second)) == {Second} && Others(Member(Second, First)) == {First};
  }

  /** A join that leaves the mesh incomplete: the newcomer never dials the second member. */
  method AMemberCanBeMissed() returns (net: Network)
    ensures fresh(net) && net.nodes.Keys == {First, Second, Outside} && !FullMesh(net.nodes)
  {
    TwoAreMeshed();
    net := new Network(map[First := Member(First, Second), Second := Member(Second, First)]);
    assert Local(DoubleBound().peer) == Second;
    JoinOne(net, DoubleBound());
  }

  /** Add the members of a set to a work list, in ascending order. */
  method PushAll(list: seq<Addr>, more: set<Addr>) returns (r: seq<Addr>, ghost added: seq<Addr>)
    ensures r == list + added && Listing(added, more)
  {
    r, added := list, [];
    var todo := more;
    while todo != {}
      invariant todo <= more && r == list + added && Listing(added, more - todo)
      invariant forall i, y :: 0 <= i < |added| && y in todo ==> Less(added[i], y)
      decreases todo
    {
      LeastExists(todo);
      var x :| IsLeast(x, todo);
      ElemsConcat(added, [x]);
      r, added := r + [x], added + [x];
      todo := todo - {x};
    }
  }

  /** The mesh is full again exactly if nobody was left out. */
  lemma MeshIff(net: Net, me: Addr, s: set<Addr>, done: set<Addr>, local: Addr, target: Addr)
    requires Joining(net, me, s, done) && done == s - ({local} - {target})
    ensures FullMesh(net) <==> local !in s - {target}
  {
    if local !in s - {target} {
      assert done == s;
      JoinedIsMesh(net, me, s);
    } else {
      assert local in net && local !in done && net.Keys - {me} == s;
      assert Knows(net, net[me], done);
      assert !Knows(net, net[me], net.Keys - {me});
    }
  }
}
