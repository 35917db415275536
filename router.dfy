/** The router and its clients of Behavioral/Mediator/mediator.cpp.

    Clients never talk to each other directly: a client hands a packet to its
    router, which looks the destination up in its address table.  Both are
    classes; the console output of `receivePacket` is recorded in a ghost log
    of delivered packets per client. */
module Mediator {
  import opened Common
  import opened IPv4

  /** A packet as `receivePacket` gets it: the sender's address and the bytes. */
  datatype Packet = Packet(from: IPv4Address, data: seq<u8>)

  /** The address `firstAvailableAddress++` hands out after j earlier probes from
      start. */
  function Probe(start: IPv4Address, j: nat): (a: IPv4Address)
  {
    IPv4Address((start.address + j) % TWO_32)
  }

  /** Each `++` of the counter moves to the next probe. */
  lemma ProbeNext(start: IPv4Address, j: nat)
    ensures Probe(start, j + 1) == Increment(Probe(start, j))
  {
  }

  /** The first n probes from start. */
  ghost function Probed(start: IPv4Address, n: nat): set<IPv4Address>
  {
    set j | 0 <= j < n :: Probe(start, j)
  }

  /** Fewer than 2^32 probes never meet the same address twice. */
  lemma ProbesDistinct(start: IPv4Address, i: nat, j: nat)
    requires i < j < TWO_32
    ensures Probe(start, i) != Probe(start, j)
  {
  }

  /** Up to 2^32 probes meet exactly as many addresses. */
  lemma {:induction false} ProbedCount(start: IPv4Address, n: nat)
    requires n <= TWO_32
    ensures |Probed(start, n)| == n
    decreases n
  {
    if n > 0 {
      ProbedCount(start, n - 1);
      assert Probed(start, n) == Probed(start, n - 1) + {Probe(start, n - 1)};
      if Probe(start, n - 1) in Probed(start, n - 1) {
        var j :| 0 <= j < n - 1 && Probe(start, j) == Probe(start, n - 1);
        ProbesDistinct(start, j, n - 1);
      }
    }
  }

  /** A table that held every one of n probes holds at least n addresses. */
  lemma ProbesTaken(start: IPv4Address, n: nat, table: map<IPv4Address, Client>)
    requires n <= TWO_32
    requires forall j :: 0 <= j < n ==> Probe(start, j) in table
    ensures n <= |table|
  {
    ProbedCount(start, n);
    var probed := Probed(start, n);
    assert probed <= table.Keys;
    assert table.Keys == probed + (table.Keys - probed);
    assert |table.Keys| == |probed| + |table.Keys - probed|;
  }

  /** Probing from start took n steps: the first n - 1 probes were taken, the
      last one is the key found, and the counter has moved past it. */
  predicate ProbedTo(table: map<IPv4Address, Client>, start: IPv4Address, n: nat, key: IPv4Address, counter: IPv4Address)
  {
    && 1 <= n <= |table| + 1
    && key == Probe(start, n - 1) && counter == Probe(start, n)
    && (forall j :: 0 <= j < n - 1 ==> Probe(start, j) in table)
  }

  class Client {
    var address: IPv4Address
    var router: SimpleRouter?
    /** What `receivePacket` has been handed, oldest first. */
    ghost var received: seq<Packet>

    /** `Client(addr)`: not yet connected. */
    constructor (addr: IPv4Address)
      ensures address == addr && router == null && received == []
    {
      address := addr;
      router := null;
      received := [];
    }

    /** `connectToRouter`. */
    method ConnectToRouter(r: SimpleRouter?)
      modifies this
      ensures router == r && address == old(address) && received == old(received)
    {
      router := r;
    }

    /** `setAddress`. */
    method SetAddress(addr: IPv4Address)
      modifies this
      ensures address == addr && router == old(router) && received == old(received)
    {
      address := addr;
    }

    /** `receivePacket`: the packet is logged. */
    method ReceivePacket(from: IPv4Address, data: seq<u8>)
      modifies this
      ensures received == old(received) + [Packet(from, data)]
      ensures address == old(address) && router == old(router)
    {
      received := received + [Packet(from, data)];
    }

    /** `sendPacket`: without a router nothing happens; otherwise the router
        forwards the packet, sent from this client's own address. */
    method SendPacket(to: IPv4Address, data: seq<u8>)
      modifies if router != null && to in router.network then {router.network[to]} else {}
      ensures address == old(address) && router == old(router)
      ensures router != null && to in router.network ==>
        router.network[to].received == old(router.network[to].received) + [Packet(old(address), data)]
    {
      if router != null {
        router.ForwardPacket(address, to, data);
      }
    }
  }

  class SimpleRouter {
    /** `network`: who is reached at which address. */
    var network: map<IPv4Address, Client>
    var firstAvailableAddress: IPv4Address

    constructor ()
      ensures network == map[] && firstAvailableAddress == IPv4Address(1)
    {
      network := map[];
      firstAvailableAddress := IPv4Address(1);
    }

    /** `forwardPacket`: delivered to exactly the client registered under `to`,
        dropped when there is none. */
    method ForwardPacket(from: IPv4Address, to: IPv4Address, data: seq<u8>)
      modifies if to in network then {network[to]} else {}
      ensures to in network ==> network[to].received == old(network[to].received) + [Packet(from, data)]
      ensures to in network ==> network[to].address == old(network[to].address) && network[to].router == old(network[to].router)
    {
      if to in network {
        var destination := network[to];
        destination.ReceivePacket(from, data);
      }
    }

    /** `joinNetwork`: the client is registered under its own address when that
        is free, otherwise under the first free address the counter reaches; no
        entry is replaced and the client's own address is left alone.  The probe
        ends only while fewer than 2^32 addresses are taken. */
    method JoinNetwork(client: Client) returns (ghost key: IPv4Address)
      requires |network| < TWO_32
      modifies this, client
      ensures key !in old(network) && network == old(network)[key := client]
      ensures |network| == |old(network)| + 1
      ensures client.router == this && client.address == old(client.address)
      ensures client.received == old(client.received)
      ensures old(client.address) !in old(network) ==>
        key == old(client.address) && firstAvailableAddress == old(firstAvailableAddress)
      ensures old(client.address) in old(network) ==>
        exists n :: ProbedTo(old(network), old(firstAvailableAddress), n, key, firstAvailableAddress)
    {
      var address := client.address;
      ghost var start := firstAvailableAddress;
      ghost var n: nat := 0;
      while address in network
        invariant network == old(network) && unchanged(client)
        invariant firstAvailableAddress == Probe(start, n)
        invariant n == 0 ==> address == client.address
        invariant n > 0 ==> client.address in network
        invariant n > 0 ==> address == Probe(start, n - 1)
        invariant forall j :: 0 <= j < n - 1 ==> Probe(start, j) in network
        invariant n <= |network| + 1
        decreases |network| + 1 - n
      {
        if n > 0 {
          ProbesTaken(start, n, network);
        }
        address := firstAvailableAddress;
        firstAvailableAddress := Increment(firstAvailableAddress);
        ProbeNext(start, n);
        n := n + 1;
      }
      network := network[address := client];
      client.ConnectToRouter(this);
      key := address;
      if n > 0 {
        assert ProbedTo(old(network), start, n, key, firstAvailableAddress);
      }
    }
  }
}
