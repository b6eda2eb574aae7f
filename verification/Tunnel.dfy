/** server/app/main.py, `api_wireguard_register`: handing out tunnel addresses to registered clients. */
module Tunnel {
  import opened Text

  datatype Peer = Peer(pubkey: string, ip: string, addedAt: int)

  /** The stored `wireguard` section; `ready` says that the server's own private key exists. */
  datatype Pool = Pool(ready: bool, subnet: string, address: string, nextHost: nat, peers: map<string, Peer>)

  /** The section as `config.py` first writes it, with the key generated at startup. */
  function FirstPool(): Pool {
    Pool(true, "10.99.0.0/24", "10.99.0.1/24", 2, map[])
  }

  datatype Caller = Session | Client(id: string)

  datatype Response =
    | Assigned(ip: string)
    | Forbidden         // 403
    | ToolsMissing      // 501
    | BadKey            // 400
    | NotReady          // 503
    | ApplyFailed       // 502, after the peer has been saved

  /** `".".join(subnet.split(".")[:3])` */
  function Prefix(subnet: string): string {
    var parts := Split(subnet, '.');
    Join(if |parts| <= 3 then parts else parts[..3], '.')
  }

  function Address(subnet: string, host: nat): string {
    Prefix(subnet) + "." + Numeral(host, 10)
  }

  /** What a successful call leaves stored. */
  function Save(p: Pool, client: string, pubkey: string, now: int): Pool {
    if client in p.peers && p.peers[client].pubkey == pubkey then p
    else p.(peers := p.peers[client := Peer(pubkey, Address(p.subnet, p.nextHost), now)], nextHost := p.nextHost + 1)
  }

  class Registry {
    var pool: Pool

    constructor (pool: Pool)
      ensures this.pool == pool
    {
      this.pool := pool;
    }

    method Register(caller: Caller, toolsInstalled: bool, keyWellFormed: bool, pubkey: string, applies: bool, now: int)
      returns (r: Response)
      modifies this
      ensures r.Forbidden? <==> caller.Session?
      ensures r.ToolsMissing? <==> caller.Client? && !toolsInstalled
      ensures r.BadKey? <==> caller.Client? && toolsInstalled && !keyWellFormed
      ensures r.NotReady? <==> caller.Client? && toolsInstalled && keyWellFormed && !old(pool).ready
      ensures r.Assigned? || r.ApplyFailed? ==> pool == Save(old(pool), caller.id, pubkey, now) && (r.Assigned? <==> applies)
      ensures !r.Assigned? && !r.ApplyFailed? ==> pool == old(pool)
      ensures r.Assigned? ==> caller.id in pool.peers && pool.peers[caller.id].pubkey == pubkey && pool.peers[caller.id].ip == r.ip
      ensures r.Assigned? || r.ApplyFailed? ==>
        if caller.id in old(pool).peers && old(pool).peers[caller.id].pubkey == pubkey then pool == old(pool)
        else
          && pool.nextHost == old(pool).nextHost + 1 && caller.id in pool.peers
          && pool.peers[caller.id] == Peer(pubkey, Prefix(pool.subnet) + "." + Numeral(old(pool).nextHost, 10), now)
          && pool == old(pool).(nextHost := pool.nextHost, peers := old(pool).peers[caller.id := pool.peers[caller.id]])
    {
      if caller.Session? { return Forbidden; }
      if !toolsInstalled { return ToolsMissing; }
      if !keyWellFormed { return BadKey; }
      if !pool.ready { return NotReady; }
      var ip;
      if caller.id in pool.peers && pool.peers[caller.id].pubkey == pubkey {
        ip := pool.peers[caller.id].ip;
      } else {
        ip := Prefix(pool.subnet) + "." + Numeral(pool.nextHost, 10);
        pool := pool.(peers := pool.peers[caller.id := Peer(pubkey, ip, now)]);
        pool := pool.(nextHost := pool.nextHost + 1);
      }
      if !applies { return ApplyFailed; }
      return Assigned(ip);
    }
  }

  // ---------------------------------------------------- runs of registrations

  datatype Registration = Registration(client: string, pubkey: string, now: int)

  function AfterRun(p: Pool, rs: seq<Registration>): Pool {
    if rs == [] then p
    else
      var before := AfterRun(p, rs[..|rs| - 1]);
      var r := rs[|rs| - 1];
      Save(before, r.client, r.pubkey, r.now)
  }

  lemma AddressesDiffer(subnet: string, m: nat, n: nat)
    requires Address(subnet, m) == Address(subnet, n)
    ensures m == n
  {
    var k := |Prefix(subnet) + "."|;
    assert Address(subnet, m)[k..] == Numeral(m, 10);
    assert Address(subnet, n)[k..] == Numeral(n, 10);
    NumeralInjective(m, n, 10);
  }

  /** Every peer holds an allocated host number, and no two clients hold the same address string. */
  ghost predicate WellAllocated(p: Pool) {
    && (forall c :: c in p.peers ==> exists h: nat :: 2 <= h < p.nextHost && p.peers[c].ip == Address(p.subnet, h))
    && (forall c, d :: c in p.peers && d in p.peers && c != d ==> p.peers[c].ip != p.peers[d].ip)
  }

  lemma SaveKeepsAllocation(p: Pool, r: Registration)
    requires WellAllocated(p) && 2 <= p.nextHost
    ensures WellAllocated(Save(p, r.client, r.pubkey, r.now))
  {
    var q := Save(p, r.client, r.pubkey, r.now);
    var ip := Address(p.subnet, p.nextHost);
    if q != p {
      forall c | c in p.peers
        ensures p.peers[c].ip != ip
        ensures exists h: nat :: 2 <= h < q.nextHost && p.peers[c].ip == Address(p.subnet, h)
      {
        var h: nat :| 2 <= h < p.nextHost && p.peers[c].ip == Address(p.subnet, h);
        if p.peers[c].ip == ip { AddressesDiffer(p.subnet, h, p.nextHost); }
      }
      assert q.peers[r.client].ip == Address(q.subnet, p.nextHost);
    }
  }

  /** Over every run: distinct addresses, all below `next_host`, which never goes back. */
  lemma {:induction false} RunKeepsAllocation(p: Pool, rs: seq<Registration>)
    requires WellAllocated(p) && 2 <= p.nextHost
    ensures WellAllocated(AfterRun(p, rs))
    ensures p.nextHost <= AfterRun(p, rs).nextHost <= p.nextHost + |rs|
    ensures AfterRun(p, rs).subnet == p.subnet && AfterRun(p, rs).address == p.address
  {
    if rs != [] {
      var init := rs[..|rs| - 1];
      RunKeepsAllocation(p, init);
      SaveKeepsAllocation(AfterRun(p, init), rs[|rs| - 1]);
    }
  }

  /** Other clients' registrations leave a client's key and address alone, however many there are. */
  lemma {:induction false} OthersKeepTheirPeers(p: Pool, rs: seq<Registration>, client: string)
    requires forall r :: r in rs ==> r.client != client
    ensures client in AfterRun(p, rs).peers <==> client in p.peers
    ensures client in p.peers ==> AfterRun(p, rs).peers[client] == p.peers[client]
  {
    if rs != [] {
      var init := rs[..|rs| - 1];
      assert forall r :: r in init ==> r in rs;
      OthersKeepTheirPeers(p, init, client);
    }
  }

  /** Registering the same key again stores nothing and yields the address it already has. */
  lemma ReregisteringIsIdempotent(p: Pool, client: string, pubkey: string, first: int, again: int)
    ensures
      var once := Save(p, client, pubkey, first);
      Save(once, client, pubkey, again) == once
  {
  }

  /** A usable host of the /24: same first three octets, last octet neither network nor broadcast. */
  ghost predicate IsHost(subnet: string, ip: string) {
    var parts := Split(ip, '.');
    && |parts| == 4 && |Split(subnet, '.')| == 4
    && parts[..3] == Split(subnet, '.')[..3]
    && ParseNumeral(parts[3], 10).Some?
    && 1 <= ParseNumeral(parts[3], 10).value <= 254
  }

  lemma NoSeparatorInParts(s: string, sep: char)
    ensures forall p :: p in Split(s, sep) ==> sep !in p
  {
  }

  /** `next_host` is never checked against the subnet: the address issued is a host exactly up to 254. */
  lemma IssuedAddressIsHost(subnet: string, host: nat)
    requires |Split(subnet, '.')| == 4 && 1 <= host
    ensures IsHost(subnet, Address(subnet, host)) <==> host <= 254
  {
    var head := Split(subnet, '.')[..3];
    var last := Numeral(host, 10);
    var parts := head + [last];
    NoSeparatorInParts(subnet, '.');
    assert forall p :: p in head ==> p in Split(subnet, '.');
    JoinAppend(head, last, '.');
    SplitOfJoin(parts, '.');
    NumeralParses(host, 10);
  }

  lemma {:induction false} JoinAppend(parts: seq<string>, last: string, sep: char)
    requires parts != []
    ensures Join(parts + [last], sep) == Join(parts, sep) + [sep] + last
  {
    if |parts| > 1 {
      JoinAppend(parts[1..], last, sep);
      assert (parts + [last])[1..] == parts[1..] + [last];
    } else {
      assert (parts + [last])[1..] == [last];
    }
  }

  /** The server's own address, without its prefix length: `address.split("/")[0]`. */
  function OwnAddress(p: Pool): string {
    Split(p.address, '/')[0]
  }

  /** A pool over a dotted /24 whose own address is host 1. */
  ghost predicate Configured(p: Pool) {
    WellAllocated(p) && 2 <= p.nextHost && |Split(p.subnet, '.')| == 4 && OwnAddress(p) == Address(p.subnet, 1)
  }

  /**
   * After any run, as long as no more than 253 addresses have been handed out, every client's address is a host
   * of the subnet and none is the server's own.
   */
  lemma EveryPeerHasAHost(p: Pool, rs: seq<Registration>, client: string)
    requires Configured(p)
    requires AfterRun(p, rs).nextHost <= 255 && client in AfterRun(p, rs).peers
    ensures IsHost(p.subnet, AfterRun(p, rs).peers[client].ip)
    ensures AfterRun(p, rs).peers[client].ip != OwnAddress(AfterRun(p, rs))
  {
    RunKeepsAllocation(p, rs);
    var q := AfterRun(p, rs);
    var h: nat :| 2 <= h < q.nextHost && q.peers[client].ip == Address(q.subnet, h);
    IssuedAddressIsHost(p.subnet, h);
    if Address(p.subnet, h) == Address(p.subnet, 1) { AddressesDiffer(p.subnet, h, 1); }
  }

  /** An empty pool over `a.b.c.0`, of any prefix length, with the server at `a.b.c.1` starts such a run. */
  lemma DottedPoolIsConfigured(p: Pool, a: string, b: string, c: string, bits: string)
    requires '.' !in a && '.' !in b && '.' !in c && '.' !in bits && '/' !in a && '/' !in b && '/' !in c
    requires p.subnet == a + "." + b + "." + c + "." + ("0/" + bits) && p.address == a + "." + b + "." + c + "." + "1" + "/" + bits
    requires p.peers == map[] && p.nextHost == 2
    ensures Configured(p)
  {
    FourOctets(a, b, c, "0/" + bits);
    var own := a + "." + b + "." + c + "." + "1";
    SplitFirst(own, bits, '/');
    assert p.address == own + ['/'] + bits;
    assert Numeral(1, 10) == "1";
  }

  /** So does the pool of a new installation. */
  lemma FirstPoolIsConfigured() returns (p: Pool)
    ensures p == FirstPool() && Configured(p)
  {
    p := FirstPool();
    DottedPoolIsConfigured(p, "10", "99", "0", "24");
  }

  /** A subnet written as four octets meets the hypothesis above, and its prefix is the first three. */
  lemma FourOctets(a: string, b: string, c: string, d: string)
    requires '.' !in a && '.' !in b && '.' !in c && '.' !in d
    ensures
      var subnet := a + "." + b + "." + c + "." + d;
      |Split(subnet, '.')| == 4 && Prefix(subnet) == a + "." + b + "." + c
  {
    var subnet := a + "." + b + "." + c + "." + d;
    var three, four := [a, b, c], [a, b, c] + [d];
    assert Join([a], '.') == a;
    JoinAppend([a], b, '.');
    assert [a] + [b] == [a, b];
    JoinAppend([a, b], c, '.');
    assert [a, b] + [c] == three;
    JoinAppend(three, d, '.');
    assert Join(four, '.') == subnet;
    SplitOfJoin(four, '.');
    assert four[..3] == three;
  }
}
