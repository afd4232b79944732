/** PublicEndpoints: what peers report about our public addresses. Both tables - endpoints
    and reporting networks - are bounded, and the least relevant entries make room. */
module PublicEndpointsModel {
  import opened Basics
  import IP = BinaryIPAddressModel
  import VQ = VerificationQueueModel

  const MAX_ENDPOINTS: nat := 32
  const MAX_REPORTING_PEER_NETWORKS: nat := 32
  const MAX_PROTOCOLS_PER_ADDRESS: nat := 2
  const MAX_PORTS_PER_PROTOCOL: nat := 16
  const IPV4_CIDR: nat := 16
  const IPV6_CIDR: nat := 48

  datatype Addr = IPAddr(ip: IP.Address) | BTHAddr(bth: nat, family: nat)

  datatype Endpoint = Endpoint(addr: Addr, protocol: nat, port: nat)

  datatype Details = Details(
    ports: map<nat, set<nat>>, trusted: bool, dataVerified: bool, hopVerified: bool, networks: set<nat>, updated: nat)

  const NO_DETAILS: Details := Details(map[], false, false, false, {}, 0)

  predicate IsVerified(d: Details) { d.dataVerified && d.hopVerified && |d.networks| >= 3 }

  predicate DetailsOk(d: Details) {
    && |d.ports| <= MAX_PROTOCOLS_PER_ADDRESS && |d.networks| <= MAX_REPORTING_PEER_NETWORKS
    && forall p :: p in d.ports ==> |d.ports[p]| <= MAX_PORTS_PER_PROTOCOL
  }

  // A record only gains
  predicate Gains(d: Details, e: Details) {
    && (d.trusted ==> e.trusted) && (d.dataVerified ==> e.dataVerified) && (d.hopVerified ==> e.hopVerified)
    && d.networks <= e.networks
    && forall p :: p in d.ports ==> p in e.ports && d.ports[p] <= e.ports[p]
  }

  lemma GainsKeepVerified(d: Details, e: Details)
    requires Gains(d, e)
    ensures IsVerified(d) ==> IsVerified(e)
  {
    SubsetSize(d.networks, e.networks);
  }

  ghost predicate ThreeIn(s: set<nat>) { exists a, b, c :: a in s && b in s && c in s && a != b && a != c && b != c }

  lemma ThreeDiffer(s: set<nat>, a: nat, b: nat, c: nat)
    requires a in s && b in s && c in s && a != b && a != c && b != c
    ensures |s| >= 3
  {
    assert |{a, b, c}| == 3;
    SubsetSize({a, b, c}, s);
  }

  lemma PickThree(s: set<nat>)
    requires |s| >= 3
    ensures ThreeIn(s)
  {
    var a :| a in s;
    var t := s - {a};
    assert |t| == |s| - 1;
    var b :| b in t;
    assert |t - {b}| == |t| - 1;
    var c :| c in t - {b};
  }

  /** Verified means both verifications and at least three different reporting networks. */
  lemma VerifiedIff(d: Details)
    ensures IsVerified(d) <==> (d.dataVerified && d.hopVerified && ThreeIn(d.networks))
  {
    if ThreeIn(d.networks) {
      var a, b, c :| a in d.networks && b in d.networks && c in d.networks && a != b && a != c && b != c;
      ThreeDiffer(d.networks, a, b, c);
    }
    if |d.networks| >= 3 { PickThree(d.networks); }
  }

  // ---------------------------------------------------------------- relevance

  // The comparison that sorts endpoints: least trusted, least verified, least recent first
  predicate Before(a: Details, b: Details) {
    if !a.trusted && b.trusted then true
    else if a.trusted && !b.trusted then false
    else if !IsVerified(a) && IsVerified(b) then true
    else if IsVerified(a) && !IsVerified(b) then false
    else a.updated < b.updated
  }

  function Flag(b: bool): nat { if b then 1 else 0 }

  /** The comparison is the lexicographic order of (trusted, verified, last update), which makes
      it the strict weak order that sorting needs. */
  lemma BeforeIsLexicographic(a: Details, b: Details)
    ensures Before(a, b) <==>
              || Flag(a.trusted) < Flag(b.trusted)
              || (a.trusted == b.trusted && Flag(IsVerified(a)) < Flag(IsVerified(b)))
              || (a.trusted == b.trusted && IsVerified(a) == IsVerified(b) && a.updated < b.updated)
  {
  }

  lemma BeforeIsWeakOrder(a: Details, b: Details, c: Details)
    ensures !Before(a, a)
    ensures Before(a, b) && Before(b, c) ==> Before(a, c)
    ensures !Before(a, b) && !Before(b, c) ==> !Before(a, c)
  {
  }

  /** Any order that sorting may leave: entries that compare equal can come either way. */
  predicate SortedListing(m: map<Addr, Details>, s: seq<Addr>) {
    && |s| == |m|
    && (forall i :: 0 <= i < |s| ==> s[i] in m)
    && (forall a :: a in m ==> a in s)
    && (forall i, j :: 0 <= i < j < |s| ==> s[i] != s[j] && !Before(m[s[j]], m[s[i]]))
  }

  // m' is m without n entries, each ranking no higher than any that stays
  ghost predicate Evicts(m: map<Addr, Details>, m': map<Addr, Details>, n: nat) {
    && n <= |m| && |m'| == |m| - n
    && (forall a :: a in m' ==> a in m && m'[a] == m[a])
    && (forall gone, kept :: gone in m && gone !in m' && kept in m' ==> !Before(m[kept], m[gone]))
  }

  function First(s: seq<Addr>, n: nat): set<Addr>
    requires n <= |s|
  {
    set i | 0 <= i < n :: s[i]
  }

  lemma RemoveOne(m: map<Addr, Details>, s: seq<Addr>, k: nat)
    requires SortedListing(m, s) && k < |s|
    ensures (m - First(s, k)) - {s[k]} == m - First(s, k + 1)
    ensures |m - First(s, k + 1)| == |m - First(s, k)| - 1
  {
    assert First(s, k + 1) == First(s, k) + {s[k]};
    assert s[k] in m - First(s, k);
    assert (m - First(s, k + 1)).Keys == (m - First(s, k)).Keys - {s[k]};
  }

  lemma FirstAreLeast(m: map<Addr, Details>, s: seq<Addr>, n: nat)
    requires SortedListing(m, s) && n <= |s| && |m - First(s, n)| == |m| - n
    ensures Evicts(m, m - First(s, n), n)
  {
    var m' := m - First(s, n);
    forall gone, kept | gone in m && gone !in m' && kept in m' ensures !Before(m[kept], m[gone]) {
      var i :| 0 <= i < n && s[i] == gone;
      var j :| 0 <= j < |s| && s[j] == kept;
      assert n <= j;
    }
  }

  // ---------------------------------------------------------------- one report

  datatype Report = Report(pub: Endpoint, rep: Endpoint, inbound: bool, known: bool, trusted: bool, verified: bool, now: nat)

  /** Where memory runs out, if it does. */
  datatype Trouble = NoTrouble | AtNetwork | AtEviction | AtInsertion | AtProtocol | AtPort | AtHash

  // The network of the reporting peer, if the report is one to take into account
  function ReportingNetwork(r: Report, isPublic: IP.Address -> bool): Option<Addr> {
    match (r.pub.addr, r.rep.addr)
    case (IPAddr(pub), IPAddr(rep)) =>
      if pub.family == rep.family && isPublic(pub) && !rep.family.Unspecified? then
        var cidr := if rep.family.IPv4? then IPV4_CIDR else IPV6_CIDR;
        Some(IPAddr(IP.And(rep, IP.MaskOf(rep.family, cidr))))
      else None
    case (BTHAddr(_, f), BTHAddr(_, g)) => if f == g then Some(r.rep.addr) else None
    case _ => None
  }

  /** A report is taken into account just when both endpoints are of one kind and family, and
      for IP addresses the family is known and the address reported is a public one. */
  lemma ReportCountsIff(r: Report, isPublic: IP.Address -> bool)
    ensures ReportingNetwork(r, isPublic).Some? <==>
              || (r.pub.addr.IPAddr? && r.rep.addr.IPAddr? && r.pub.addr.ip.family == r.rep.addr.ip.family != IP.Unspecified
                  && isPublic(r.pub.addr.ip))
              || (r.pub.addr.BTHAddr? && r.rep.addr.BTHAddr? && r.pub.addr.family == r.rep.addr.family)
  {
  }

  /** Reports from one /16 or /48 count as one network, whatever the address. */
  lemma OneNetworkPerPrefix(r: Report, s: Report, isPublic: IP.Address -> bool)
    requires r.rep.addr.IPAddr? && s.rep.addr.IPAddr? && IP.Ok(r.rep.addr.ip) && IP.Ok(s.rep.addr.ip)
    requires r.rep.addr.ip.family == s.rep.addr.ip.family
    requires ReportingNetwork(r, isPublic).Some? && ReportingNetwork(s, isPublic).Some?
    ensures ReportingNetwork(r, isPublic) == ReportingNetwork(s, isPublic) <==>
              IP.SamePrefix(r.rep.addr.ip, s.rep.addr.ip, if r.rep.addr.ip.family.IPv4? then IPV4_CIDR else IPV6_CIDR)
  {
    IP.NetworkIsPrefix(r.rep.addr.ip, s.rep.addr.ip, if r.rep.addr.ip.family.IPv4? then IPV4_CIDR else IPV6_CIDR);
  }

  // What a report does to a record
  function Flagged(d: Details, r: Report): Details {
    d.(updated := r.now, trusted := d.trusted || r.trusted,
       dataVerified := d.dataVerified || r.verified, hopVerified := d.hopVerified || r.verified)
  }

  function Ports(d: Details, protocol: nat): set<nat> { if protocol in d.ports then d.ports[protocol] else {} }

  // Only a report from an inbound peer touches the ports, and only while there is room for
  // another protocol
  predicate TouchesPorts(d: Details, r: Report) { r.inbound && |d.ports| < MAX_PROTOCOLS_PER_ADDRESS }

  // Whether memory runs out at the protocol, which must be new for that, or at the port
  predicate ProtocolFails(d: Details, r: Report, trouble: Trouble) {
    TouchesPorts(d, r) && trouble.AtProtocol? && r.pub.protocol !in d.ports
  }

  predicate PortFails(d: Details, r: Report, trouble: Trouble) {
    TouchesPorts(d, r) && trouble.AtPort? && |Ports(d, r.pub.protocol)| < MAX_PORTS_PER_PROTOCOL
  }

  function WithPort(ports: set<nat>, port: nat, fails: bool): set<nat> {
    if |ports| < MAX_PORTS_PER_PROTOCOL && !fails then ports + {port} else ports
  }

  function PortAdded(d: Details, r: Report, trouble: Trouble): Details {
    if !TouchesPorts(d, r) || ProtocolFails(d, r, trouble) then d
    else d.(ports := d.ports[r.pub.protocol := WithPort(Ports(d, r.pub.protocol), r.pub.port, PortFails(d, r, trouble))])
  }

  function HashAdded(d: Details, hash: nat, fails: bool): Details {
    if |d.networks| < MAX_REPORTING_PEER_NETWORKS && !fails then d.(networks := d.networks + {hash}) else d
  }

  // Running out of memory ends it there: the network's hash comes last
  predicate HashFails(d: Details, r: Report, trouble: Trouble) {
    ProtocolFails(d, r, trouble) || PortFails(d, r, trouble) || trouble.AtHash?
  }

  function Merged(d: Details, r: Report, hash: nat, trouble: Trouble): Details {
    var e := Flagged(d, r);
    HashAdded(PortAdded(e, r, trouble), hash, HashFails(e, r, trouble))
  }

  lemma MergedGains(d: Details, r: Report, hash: nat, trouble: Trouble)
    requires DetailsOk(d)
    ensures DetailsOk(Merged(d, r, hash, trouble)) && Gains(d, Merged(d, r, hash, trouble))
  {
    var e := PortAdded(Flagged(d, r), r, trouble);
    PortsFit(Flagged(d, r), r, trouble);
    var fails := HashFails(Flagged(d, r), r, trouble);
    HashFits(e, hash, fails);
    GainsTwice(d, e, HashAdded(e, hash, fails));
  }

  lemma HashFits(d: Details, hash: nat, fails: bool)
    requires DetailsOk(d)
    ensures DetailsOk(HashAdded(d, hash, fails)) && Gains(d, HashAdded(d, hash, fails))
  {
  }

  lemma GainsTwice(a: Details, b: Details, c: Details)
    requires Gains(b, c) && (a.trusted ==> b.trusted) && (a.dataVerified ==> b.dataVerified) && (a.hopVerified ==> b.hopVerified)
    requires a.networks <= b.networks && forall p :: p in a.ports ==> p in b.ports && a.ports[p] <= b.ports[p]
    ensures Gains(a, c)
  {
  }

  lemma PortsFit(d: Details, r: Report, trouble: Trouble)
    requires DetailsOk(d)
    ensures DetailsOk(PortAdded(d, r, trouble)) && Gains(d, PortAdded(d, r, trouble))
  {
    assert d.ports[r.pub.protocol := {}].Keys == d.ports.Keys + {r.pub.protocol};
    assert PortAdded(d, r, trouble).ports.Keys <= d.ports.Keys + {r.pub.protocol};
    SubsetSize(PortAdded(d, r, trouble).ports.Keys, d.ports.Keys + {r.pub.protocol});
  }

  // ---------------------------------------------------------------- the tables

  datatype Tables = Tables(endpoints: map<Addr, Details>, networks: map<Addr, nat>)

  ghost predicate TablesOk(t: Tables) {
    && |t.endpoints| <= MAX_ENDPOINTS && |t.networks| <= MAX_REPORTING_PEER_NETWORKS
    && forall a :: a in t.endpoints ==> DetailsOk(t.endpoints[a])
  }

  /** What a call may do to the networks, but for one network it reports: entries go only to
      make room in a full table, and then a least recent one. */
  ghost predicate NetworksStep(n: map<Addr, nat>, n': map<Addr, nat>, reported: Addr) {
    && (forall a :: a in n' && a != reported ==> a in n && n'[a] == n[a])
    && (forall gone :: gone in n && gone !in n' && gone != reported ==>
          && |n| >= MAX_REPORTING_PEER_NETWORKS
          && (forall kept :: kept in n' && kept != reported ==> n[gone] <= n[kept])
          && (forall other :: other in n && other !in n' && other != reported ==> other == gone))
  }

  /** What a call may do to the endpoints, but for the one it reports, which only gains:
      entries go only to make room in a full table for a new one, and then a lowest-ranked one. */
  ghost predicate EndpointsStep(m: map<Addr, Details>, m': map<Addr, Details>, reported: Addr) {
    && (forall a :: a in m' && a != reported ==> a in m && m'[a] == m[a])
    && (reported in m ==> reported in m' && Gains(m[reported], m'[reported]))
    && (forall gone :: gone in m && gone !in m' ==>
          && |m| >= MAX_ENDPOINTS && reported !in m
          && (forall kept :: kept in m' && kept != reported ==> !Before(m[kept], m[gone]))
          && (forall other :: other in m && other !in m' ==> other == gone))
  }

  function Least(a: nat, b: nat): nat { if a < b then a else b }

  // There is no record for the address and none can be made
  predicate NoRecord(m: map<Addr, Details>, addr: Addr, trouble: Trouble) {
    addr !in m && (trouble.AtInsertion? || (trouble.AtEviction? && |m| >= MAX_ENDPOINTS))
  }

  // A known network is refused unless the reporter is trusted, a new one if it cannot be added
  predicate Refused(n: map<Addr, nat>, network: Addr, r: Report, trouble: Trouble) {
    if network in n then !r.trusted else trouble.AtNetwork?
  }

  /** None is failure; otherwise whether the report was taken into account and whether its
      address was new. */
  function Verdict(t: Tables, r: Report, network: Addr, trouble: Trouble): Option<(bool, bool)> {
    if Refused(t.networks, network, r, trouble) then Some((false, false))
    else if NoRecord(t.endpoints, r.pub.addr, trouble) then None
    else Some((true, r.pub.addr !in t.endpoints))
  }

  /** The networks after a report: a known one stays as it was or is forgotten, for a new one
      room is made first. */
  ghost predicate NetworkTaken(n: map<Addr, nat>, n': map<Addr, nat>, network: Addr, now: nat, stays: bool) {
    && NetworksStep(n, n', network)
    && (network in n ==> n' == if stays then n else n - {network})
    && (network !in n ==>
          && |n'| == Least(|n|, MAX_REPORTING_PEER_NETWORKS - 1) + (if stays then 1 else 0)
          && (if stays then network in n' && n'[network] == now else network !in n'))
  }

  // The endpoints once there is a record for the address, if one can be had
  ghost predicate EndpointFound(m: map<Addr, Details>, m': map<Addr, Details>, addr: Addr, trouble: Trouble) {
    && EndpointsStep(m, m', addr)
    && (addr in m ==> m' == m)
    && (addr !in m && NoRecord(m, addr, trouble) ==>
          && addr !in m' && |m'| == if trouble.AtEviction? then |m| else Least(|m|, MAX_ENDPOINTS - 1))
    && (addr !in m && !NoRecord(m, addr, trouble) ==>
          addr in m' && m'[addr] == NO_DETAILS && |m'| == Least(|m|, MAX_ENDPOINTS - 1) + 1)
  }

  /** What a report from a network does, in every case. */
  ghost predicate Taken(
    t: Tables, t': Tables, r: Report, network: Addr, hash: nat, trouble: Trouble, result: Option<(bool, bool)>)
  {
    && result == Verdict(t, r, network, trouble)
    && NetworkTaken(t.networks, t'.networks, network, r.now, result.Some? && (network in t.networks || result.value.0))
    && match result
       case Some((false, _)) => t'.endpoints == t.endpoints
       case None => EndpointFound(t.endpoints, t'.endpoints, r.pub.addr, trouble)
       case Some((true, _)) =>
         && r.pub.addr in t'.endpoints
         && exists mid :: EndpointFound(t.endpoints, mid, r.pub.addr, trouble) && r.pub.addr in mid
              && t'.endpoints == mid[r.pub.addr := Merged(mid[r.pub.addr], r, hash, trouble)]
  }

  /** A network is forgotten after a failure even if it was known before: just when the
      reporter is trusted and no record can be had for the address reported. */
  lemma KnownNetworkForgottenIff(
    t: Tables, t': Tables, r: Report, network: Addr, hash: nat, trouble: Trouble, result: Option<(bool, bool)>)
    requires network in t.networks && Taken(t, t', r, network, hash, trouble, result)
    ensures network !in t'.networks <==> r.trusted && NoRecord(t.endpoints, r.pub.addr, trouble)
    ensures network in t'.networks ==> t'.networks == t.networks
  {
  }

  // One known network, no endpoints, and no memory for the first
  lemma KnownNetworkCanBeForgotten(r: Report, network: Addr, hash: nat)
    requires r.trusted
    ensures var t := Tables(map[], map[network := 0]);
      TablesOk(t) && network in t.networks && Taken(t, Tables(map[], map[]), r, network, hash, AtInsertion, None)
  {
    var n := map[network := 0];
    assert n - {network} == map[];
  }

  /** What a report does to the record of its address. */
  lemma RecordIsMerged(t: Tables, t': Tables, r: Report, network: Addr, hash: nat, trouble: Trouble, result: Option<(bool, bool)>)
    requires Taken(t, t', r, network, hash, trouble, result) && result.Some? && result.value.0
    ensures r.pub.addr in t'.endpoints
    ensures var was := if r.pub.addr in t.endpoints then t.endpoints[r.pub.addr] else NO_DETAILS;
      t'.endpoints[r.pub.addr] == Merged(was, r, hash, trouble)
  {
  }

  /** What is said of a report: nothing but a known network whose reporter is not trusted, or no
      memory for a new one, keeps it from being taken into account; it fails just when its
      address is new and there is no memory to record it or to make room for it. */
  lemma VerdictOutcome(t: Tables, t': Tables, r: Report, network: Addr, hash: nat, trouble: Trouble, result: Option<(bool, bool)>)
    requires Taken(t, t', r, network, hash, trouble, result)
    ensures result == Some((false, false)) <==> if network in t.networks then !r.trusted else trouble == AtNetwork
    ensures result.None? <==>
              && (if network in t.networks then r.trusted else trouble != AtNetwork) && r.pub.addr !in t.endpoints
              && (trouble == AtInsertion || (trouble == AtEviction && |t.endpoints| >= 32))
    ensures result == Some((true, true)) ==> r.pub.addr !in t.endpoints
    ensures result == Some((true, false)) ==> r.pub.addr in t.endpoints
    ensures result.Some? && result.value.0 ==> r.pub.addr in t'.endpoints && network in t'.networks
    ensures result.Some? && result.value.1 ==> result.value.0
  {
  }

  // Whether memory gives out before the network's hash is recorded
  predicate GivesOut(was: Details, r: Report, trouble: Trouble) {
    || trouble == AtHash
    || (r.inbound && |was.ports| < 2 &&
         ((trouble == AtProtocol && r.pub.protocol !in was.ports) || (trouble == AtPort && |Ports(was, r.pub.protocol)| < 16)))
  }

  lemma FlagsMerged(was: Details, r: Report, hash: nat, trouble: Trouble)
    ensures var d := Merged(was, r, hash, trouble);
      && d.updated == r.now && (d.trusted <==> was.trusted || r.trusted)
      && (d.dataVerified <==> was.dataVerified || r.verified) && (d.hopVerified <==> was.hopVerified || r.verified)
  {
  }

  lemma PortsMerged(was: Details, r: Report, hash: nat, trouble: Trouble, protocol: nat, port: nat)
    ensures port in Ports(Merged(was, r, hash, trouble), protocol) <==>
              || port in Ports(was, protocol)
              || (protocol == r.pub.protocol && port == r.pub.port && r.inbound && |was.ports| < 2 && |Ports(was, protocol)| < 16
                  && trouble != AtPort && (trouble == AtProtocol ==> protocol in was.ports))
  {
    var d := Flagged(was, r);
    assert d.ports == was.ports;
    assert Merged(was, r, hash, trouble).ports == PortAdded(d, r, trouble).ports;
  }

  lemma HashMerged(was: Details, r: Report, hash: nat, trouble: Trouble)
    ensures Merged(was, r, hash, trouble).networks ==
              if |was.networks| < 32 && !GivesOut(was, r, trouble) then was.networks + {hash} else was.networks
  {
    var d := Flagged(was, r);
    assert d.ports == was.ports && PortAdded(d, r, trouble).networks == was.networks;
  }

  /** What a record says after a report that was taken into account: when, whether trusted and
      verified, the port an inbound peer came in on while there is room, and the network. */
  lemma RecordOutcome(t: Tables, t': Tables, r: Report, network: Addr, hash: nat, trouble: Trouble, result: Option<(bool, bool)>,
                      protocol: nat, port: nat)
    requires Taken(t, t', r, network, hash, trouble, result) && result.Some? && result.value.0
    ensures r.pub.addr in t'.endpoints
    ensures var was := if r.pub.addr in t.endpoints then t.endpoints[r.pub.addr] else NO_DETAILS;
      var d := t'.endpoints[r.pub.addr];
      && d.updated == r.now && (d.trusted <==> was.trusted || r.trusted)
      && (d.dataVerified <==> was.dataVerified || r.verified) && (d.hopVerified <==> was.hopVerified || r.verified)
      && (port in Ports(d, protocol) <==>
            || port in Ports(was, protocol)
            || (protocol == r.pub.protocol && port == r.pub.port && r.inbound && |was.ports| < 2 && |Ports(was, protocol)| < 16
                && trouble != AtPort && (trouble == AtProtocol ==> protocol in was.ports)))
      && d.networks == if |was.networks| < 32 && !GivesOut(was, r, trouble) then was.networks + {hash} else was.networks
  {
    var was := if r.pub.addr in t.endpoints then t.endpoints[r.pub.addr] else NO_DETAILS;
    RecordIsMerged(t, t', r, network, hash, trouble, result);
    FlagsMerged(was, r, hash, trouble);
    PortsMerged(was, r, hash, trouble, protocol, port);
    HashMerged(was, r, hash, trouble);
  }

  lemma RecordSteps(m: map<Addr, Details>, mid: map<Addr, Details>, a: Addr, d: Details)
    requires a in mid && EndpointsStep(m, mid, a) && Gains(mid[a], d) && (a in m ==> mid[a] == m[a])
    ensures EndpointsStep(m, mid[a := d], a)
  {
  }

  // With a record for the address, the endpoints keep their limits as it gains
  lemma RecordKeeps(m: map<Addr, Details>, mid: map<Addr, Details>, r: Report, hash: nat, trouble: Trouble)
    requires |m| <= MAX_ENDPOINTS && (forall a :: a in m ==> DetailsOk(m[a]))
    requires EndpointFound(m, mid, r.pub.addr, trouble) && r.pub.addr in mid
    ensures var m' := mid[r.pub.addr := Merged(mid[r.pub.addr], r, hash, trouble)];
      |m'| <= MAX_ENDPOINTS && (forall a :: a in m' ==> DetailsOk(m'[a])) && EndpointsStep(m, m', r.pub.addr)
  {
    FoundKeeps(m, mid, r.pub.addr, trouble);
    var d := Merged(mid[r.pub.addr], r, hash, trouble);
    MergedGains(mid[r.pub.addr], r, hash, trouble);
    RecordFits(mid, r.pub.addr, d);
    RecordSteps(m, mid, r.pub.addr, d);
  }

  lemma NetworkKeeps(n: map<Addr, nat>, n': map<Addr, nat>, network: Addr, now: nat, stays: bool)
    requires |n| <= MAX_REPORTING_PEER_NETWORKS && NetworkTaken(n, n', network, now, stays)
    ensures |n'| <= MAX_REPORTING_PEER_NETWORKS
  {
    KnownFits(n, network);
  }

  lemma Unchanged(m: map<Addr, Details>, a: Addr)
    ensures EndpointsStep(m, m, a)
  {
  }

  /** Any outcome keeps the tables' limits, evicts only as it should and only adds to the
      reported record. */
  lemma TakenKeeps(t: Tables, t': Tables, r: Report, network: Addr, hash: nat, trouble: Trouble, result: Option<(bool, bool)>)
    requires TablesOk(t) && Taken(t, t', r, network, hash, trouble, result)
    ensures TablesOk(t') && NetworksStep(t.networks, t'.networks, network) && EndpointsStep(t.endpoints, t'.endpoints, r.pub.addr)
  {
    NetworkKeeps(t.networks, t'.networks, network, r.now, result.Some? && (network in t.networks || result.value.0));
    match result {
      case None => FoundKeeps(t.endpoints, t'.endpoints, r.pub.addr, trouble);
      case Some((taken, _)) =>
        if taken {
          var mid :| EndpointFound(t.endpoints, mid, r.pub.addr, trouble) && r.pub.addr in mid
                     && t'.endpoints == mid[r.pub.addr := Merged(mid[r.pub.addr], r, hash, trouble)];
          RecordKeeps(t.endpoints, mid, r, hash, trouble);
        } else {
          Unchanged(t.endpoints, r.pub.addr);
        }
    }
  }

  lemma KnownFits(n: map<Addr, nat>, network: Addr)
    ensures |n - {network}| <= |n|
  {
    assert (n - {network}).Keys == n.Keys - {network};
    SubsetSize((n - {network}).Keys, n.Keys);
  }

  lemma FoundKeeps(m: map<Addr, Details>, m': map<Addr, Details>, addr: Addr, trouble: Trouble)
    requires |m| <= MAX_ENDPOINTS && (forall a :: a in m ==> DetailsOk(m[a])) && EndpointFound(m, m', addr, trouble)
    ensures |m'| <= MAX_ENDPOINTS && forall a :: a in m' ==> DetailsOk(m'[a])
  {
  }

  lemma GainsItself(d: Details)
    ensures Gains(d, d)
  {
  }

  lemma EvictsOne(m: map<Addr, Details>, m': map<Addr, Details>, x: Addr, y: Addr)
    requires Evicts(m, m', 1) && x in m && x !in m' && y in m && y !in m'
    ensures x == y
  {
    assert x != y ==> |m'.Keys + {x, y}| == |m'.Keys| + 2;
    SubsetSize(m'.Keys + {x, y}, m.Keys);
  }

  lemma EvictionStep(m: map<Addr, Details>, mid: map<Addr, Details>, m': map<Addr, Details>, reported: Addr, n: nat)
    requires reported !in m && Evicts(m, mid, n) && n <= 1 && (n == 1 ==> |m| >= MAX_ENDPOINTS)
    requires m' == mid || (reported in m' && m' == mid[reported := m'[reported]])
    ensures EndpointsStep(m, m', reported)
  {
    forall gone | gone in m && gone !in m'
      ensures n == 1
      ensures forall kept :: kept in m' && kept != reported ==> !Before(m[kept], m[gone])
      ensures forall other :: other in m && other !in m' ==> other == gone
    {
      if n == 0 { assert mid.Keys <= m.Keys; SubsetSize(mid.Keys, m.Keys); }
      forall other | other in m && other !in m' ensures other == gone { EvictsOne(m, mid, other, gone); }
    }
  }

  class PublicEndpoints {
    var m_Endpoints: map<Addr, Details>
    var m_ReportingNetworks: map<Addr, nat>
    const m_DataVerification: VQ.Verification<IP.Address>
    const m_HopVerification: VQ.Verification<IP.Address>
    const isPublic: IP.Address -> bool
    const hash: Addr -> nat

    ghost function View(): Tables
      reads this
    {
      Tables(m_Endpoints, m_ReportingNetworks)
    }

    constructor (isPublic: IP.Address -> bool, hash: Addr -> nat)
      ensures View() == Tables(map[], map[]) && TablesOk(View())
      ensures fresh(m_DataVerification) && fresh(m_HopVerification)
    {
      m_Endpoints, m_ReportingNetworks := map[], map[];
      m_DataVerification := new VQ.Verification();
      m_HopVerification := new VQ.Verification();
      this.isPublic, this.hash := isPublic, hash;
    }

    method AddReportingNetwork(network: Addr, trusted: bool, now: nat, fails: bool) returns (ok: bool)
      requires |m_ReportingNetworks| <= MAX_REPORTING_PEER_NETWORKS
      modifies this`m_ReportingNetworks
      ensures |m_ReportingNetworks| <= MAX_REPORTING_PEER_NETWORKS
      ensures ok <==> if network in old(m_ReportingNetworks) then trusted else !fails
      ensures network in old(m_ReportingNetworks) ==> m_ReportingNetworks == old(m_ReportingNetworks)
      ensures NetworkTaken(old(m_ReportingNetworks), m_ReportingNetworks, network, now, network in old(m_ReportingNetworks) || ok)
    {
      if network in m_ReportingNetworks {
        return trusted;
      }
      ghost var was := m_ReportingNetworks;
      while |m_ReportingNetworks| >= MAX_REPORTING_PEER_NETWORKS
        invariant |m_ReportingNetworks| <= MAX_REPORTING_PEER_NETWORKS && network !in m_ReportingNetworks
        invariant |m_ReportingNetworks| == MAX_REPORTING_PEER_NETWORKS ==> m_ReportingNetworks == was
        invariant |m_ReportingNetworks| >= Least(|was|, MAX_REPORTING_PEER_NETWORKS - 1)
        invariant NetworksStep(was, m_ReportingNetworks, network)
        decreases |m_ReportingNetworks|
      {
        LeastRecentExists(m_ReportingNetworks);
        var least :| least in m_ReportingNetworks && LeastRecent(m_ReportingNetworks, least);
        assert (m_ReportingNetworks - {least}).Keys == m_ReportingNetworks.Keys - {least};
        m_ReportingNetworks := m_ReportingNetworks - {least};
      }
      if fails {
        return false;
      }
      assert m_ReportingNetworks[network := now].Keys == m_ReportingNetworks.Keys + {network};
      m_ReportingNetworks := m_ReportingNetworks[network := now];
      ok := true;
    }

    method RemoveReportingNetwork(network: Addr)
      modifies this`m_ReportingNetworks
      ensures m_ReportingNetworks == old(m_ReportingNetworks) - {network}
    {
      m_ReportingNetworks := m_ReportingNetworks - {network};
    }

    method RemoveLeastRelevantEndpoints(num: nat, sorted: seq<Addr>, fails: bool) returns (ok: bool)
      requires SortedListing(m_Endpoints, sorted)
      modifies this`m_Endpoints
      ensures ok <==> !fails || old(m_Endpoints) == map[]
      ensures ok ==> Evicts(old(m_Endpoints), m_Endpoints, if num < |sorted| then num else |sorted|)
      ensures !ok ==> m_Endpoints == old(m_Endpoints)
    {
      if |m_Endpoints| > 0 {
        if fails {
          return false;
        }
        EraseFirst(sorted, if num > |sorted| then |sorted| else num);
      }
      ok := true;
    }

    method EraseFirst(sorted: seq<Addr>, n: nat)
      requires SortedListing(m_Endpoints, sorted) && n <= |sorted|
      modifies this`m_Endpoints
      ensures Evicts(old(m_Endpoints), m_Endpoints, n)
    {
      ghost var was := m_Endpoints;
      var i := 0;
      assert m_Endpoints == was - First(sorted, 0);
      while i < n
        invariant i <= n <= |sorted| && m_Endpoints == was - First(sorted, i) && |m_Endpoints| == |was| - i
      {
        RemoveOne(was, sorted, i);
        m_Endpoints := m_Endpoints - {sorted[i]};
        i := i + 1;
      }
      FirstAreLeast(was, sorted, n);
    }

    // Makes room for one more endpoint, if it can
    method MakeRoom(sorted: seq<Addr>, fails: bool) returns (n: nat)
      requires SortedListing(m_Endpoints, sorted) && |m_Endpoints| <= MAX_ENDPOINTS
      modifies this`m_Endpoints
      ensures Evicts(old(m_Endpoints), m_Endpoints, n) && n <= 1 && (n == 1 ==> |old(m_Endpoints)| >= MAX_ENDPOINTS)
      ensures n == if |old(m_Endpoints)| >= MAX_ENDPOINTS && !fails then 1 else 0
    {
      n := 0;
      if |m_Endpoints| >= MAX_ENDPOINTS {
        n := |m_Endpoints| - MAX_ENDPOINTS + 1;
        var ok := RemoveLeastRelevantEndpoints(n, sorted, fails);
        n := if ok then n else 0;
      }
    }

    method GetEndpointDetails(addr: Addr, sorted: seq<Addr>, trouble: Trouble) returns (found: bool, inserted: bool)
      requires SortedListing(m_Endpoints, sorted) && |m_Endpoints| <= MAX_ENDPOINTS
      modifies this`m_Endpoints
      ensures found <==> !NoRecord(old(m_Endpoints), addr, trouble)
      ensures inserted <==> found && addr !in old(m_Endpoints)
      ensures EndpointFound(old(m_Endpoints), m_Endpoints, addr, trouble)
    {
      if addr in m_Endpoints {
        GainsItself(m_Endpoints[addr]);
        return true, false;
      }
      inserted := AddRecord(addr, sorted, trouble);
      found := inserted;
    }

    // The second half, for an address without a record
    method AddRecord(addr: Addr, sorted: seq<Addr>, trouble: Trouble) returns (inserted: bool)
      requires SortedListing(m_Endpoints, sorted) && |m_Endpoints| <= MAX_ENDPOINTS && addr !in m_Endpoints
      modifies this`m_Endpoints
      ensures inserted <==> !NoRecord(old(m_Endpoints), addr, trouble)
      ensures EndpointFound(old(m_Endpoints), m_Endpoints, addr, trouble)
    {
      ghost var was := m_Endpoints;
      inserted := false;
      var n := MakeRoom(sorted, trouble.AtEviction?);
      ghost var mid := m_Endpoints;
      if |m_Endpoints| < MAX_ENDPOINTS && !trouble.AtInsertion? {
        assert m_Endpoints[addr := NO_DETAILS].Keys == m_Endpoints.Keys + {addr};
        m_Endpoints := m_Endpoints[addr := NO_DETAILS];
        inserted := true;
      }
      EvictionStep(was, mid, m_Endpoints, addr, n);
    }

    // The port an inbound peer came in on; whether memory lasts
    method AddPort(d: Details, r: Report, trouble: Trouble) returns (e: Details, ok: bool)
      ensures e == PortAdded(d, r, trouble)
      ensures ok == !(ProtocolFails(d, r, trouble) || PortFails(d, r, trouble))
    {
      e, ok := d, true;
      if r.inbound && |d.ports| < MAX_PROTOCOLS_PER_ADDRESS {
        if r.pub.protocol !in d.ports && trouble.AtProtocol? {
          return d, false;
        }
        var ports := Ports(d, r.pub.protocol);
        if |ports| < MAX_PORTS_PER_PROTOCOL {
          ok := !trouble.AtPort?;
          ports := if ok then ports + {r.pub.port} else ports;
        }
        e := d.(ports := d.ports[r.pub.protocol := ports]);
      }
    }

    // What is recorded of a report, once there is a record for it
    method Record(r: Report, network: Addr, trouble: Trouble)
      requires r.pub.addr in m_Endpoints
      modifies this`m_Endpoints
      ensures m_Endpoints == old(m_Endpoints)[r.pub.addr := Merged(old(m_Endpoints)[r.pub.addr], r, hash(network), trouble)]
    {
      var d := AddFlags(m_Endpoints[r.pub.addr], r);
      var ok;
      d, ok := AddPort(d, r, trouble);
      d := AddHash(d, hash(network), !ok || trouble.AtHash?);
      m_Endpoints := m_Endpoints[r.pub.addr := d];
    }

    method AddFlags(d: Details, r: Report) returns (e: Details)
      ensures e == Flagged(d, r)
    {
      e := d.(updated := r.now);
      if r.trusted {
        e := e.(trusted := true);
      }
      if r.verified {
        e := e.(dataVerified := true, hopVerified := true);
      }
    }

    method AddHash(d: Details, h: nat, fails: bool) returns (e: Details)
      ensures e == HashAdded(d, h, fails)
    {
      e := d;
      if |d.networks| < MAX_REPORTING_PEER_NETWORKS && !fails {
        e := d.(networks := d.networks + {h});
      }
    }

    // An unverified IP address gets its verifications, unless they are under way
    method StartVerifications(ip: IP.Address, d: Details, pushFails: bool)
      requires m_DataVerification != m_HopVerification
      modifies m_DataVerification, m_HopVerification
      ensures !d.dataVerified && !pushFails ==> ip in m_DataVerification.m_Set
      ensures !d.hopVerified && !pushFails ==> ip in m_HopVerification.m_Set
      ensures d.dataVerified ==> m_DataVerification.m_Set == old(m_DataVerification.m_Set)
      ensures d.hopVerified ==> m_HopVerification.m_Set == old(m_HopVerification.m_Set)
    {
      if !d.dataVerified {
        var ok := m_DataVerification.Add(ip, pushFails);
      }
      if !d.hopVerified {
        var ok := m_HopVerification.Add(ip, pushFails);
      }
    }

    method TakeReport(r: Report, network: Addr, sorted: seq<Addr>, trouble: Trouble) returns (result: Option<(bool, bool)>)
      requires TablesOk(View()) && SortedListing(m_Endpoints, sorted)
      modifies this
      ensures Taken(old(View()), View(), r, network, hash(network), trouble, result)
    {
      var added := AddReportingNetwork(network, r.trusted, r.now, trouble.AtNetwork?);
      if !added {
        return Some((false, false));
      }
      var found, inserted := GetEndpointDetails(r.pub.addr, sorted, trouble);
      ghost var mid := m_Endpoints;
      if found {
        Record(r, network, trouble);
        assert m_Endpoints == mid[r.pub.addr := Merged(mid[r.pub.addr], r, hash(network), trouble)];
        result := Some((true, inserted));
      } else {
        ghost var n := m_ReportingNetworks;
        RemoveReportingNetwork(network);
        NetworkRemoved(old(m_ReportingNetworks), n, network, r.now);
        result := None;
      }
    }

    method AddEndpoint(r: Report, sorted: seq<Addr>, trouble: Trouble, pushFails: bool) returns (result: Option<(bool, bool)>)
      requires TablesOk(View()) && SortedListing(m_Endpoints, sorted) && m_DataVerification != m_HopVerification
      modifies this, m_DataVerification, m_HopVerification
      ensures TablesOk(View())
      ensures Step(old(View()), EventOf(r, isPublic, hash, trouble, result), View())
      ensures !r.known || ReportingNetwork(r, isPublic).None? ==> result.None?
      ensures result.Some? && result.value.0 && r.pub.addr.IPAddr? && !pushFails ==>
                && r.pub.addr in m_Endpoints
                && (m_Endpoints[r.pub.addr].dataVerified || r.pub.addr.ip in m_DataVerification.m_Set)
                && (m_Endpoints[r.pub.addr].hopVerified || r.pub.addr.ip in m_HopVerification.m_Set)
    {
      var network := ReportingNetwork(r, isPublic);
      if !r.known || network.None? {
        return None;
      }
      result := TakeReport(r, network.value, sorted, trouble);
      TakenKeeps(old(View()), View(), r, network.value, hash(network.value), trouble, result);
      if result.Some? && result.value.0 && r.pub.addr.IPAddr? {
        StartVerifications(r.pub.addr.ip, m_Endpoints[r.pub.addr], pushFails);
      }
    }

    // What the workers do with an address whose verification succeeded
    method MarkVerified(ip: IP.Address, hop: bool)
      modifies this`m_Endpoints
      ensures Step(old(View()), Verification(ip, hop), View())
      ensures TablesOk(old(View())) ==> TablesOk(View())
      ensures m_Endpoints == if IPAddr(ip) in old(m_Endpoints) then Marked(old(m_Endpoints), IPAddr(ip), hop) else old(m_Endpoints)
    {
      if IPAddr(ip) in m_Endpoints {
        var d := m_Endpoints[IPAddr(ip)];
        d := if hop then d.(hopVerified := true) else d.(dataVerified := true);
        RecordFits(m_Endpoints, IPAddr(ip), d);
        m_Endpoints := m_Endpoints[IPAddr(ip) := d];
      }
    }
  }

  predicate LeastRecent(n: map<Addr, nat>, least: Addr)
    requires least in n
  {
    forall a :: a in n ==> n[least] <= n[a]
  }

  lemma {:induction false} LeastRecentExists(n: map<Addr, nat>)
    requires |n| > 0
    ensures exists least :: least in n && LeastRecent(n, least)
    decreases |n|
  {
    var x :| x in n;
    var rest := n - {x};
    assert rest.Keys == n.Keys - {x};
    if |rest| == 0 {
      assert n.Keys == {x};
      assert LeastRecent(n, x);
    } else {
      LeastRecentExists(rest);
      var y :| y in rest && LeastRecent(rest, y);
      assert n[y] == rest[y];
      forall a | a in n ensures n[if n[x] <= n[y] then x else y] <= n[a] {
        if a != x { assert a in rest && rest[a] == n[a]; }
      }
      assert LeastRecent(n, if n[x] <= n[y] then x else y);
    }
  }

  lemma RecordFits(m: map<Addr, Details>, a: Addr, d: Details)
    requires a in m
    ensures m[a := d].Keys == m.Keys && |m[a := d]| == |m|
  {
  }

  function Marked(m: map<Addr, Details>, a: Addr, hop: bool): map<Addr, Details>
    requires a in m
  {
    m[a := if hop then m[a].(hopVerified := true) else m[a].(dataVerified := true)]
  }

  // The network a failed report takes out again
  lemma NetworkRemoved(n: map<Addr, nat>, mid: map<Addr, nat>, network: Addr, now: nat)
    requires |n| <= MAX_REPORTING_PEER_NETWORKS && NetworkTaken(n, mid, network, now, true)
    ensures NetworkTaken(n, mid - {network}, network, now, false)
  {
    var n' := mid - {network};
    assert n'.Keys == mid.Keys - {network};
    assert network in mid && |n'| == |mid| - 1;
  }

  // ---------------------------------------------------------------- any sequence of reports

  /** What happens to the tables: reports that name a network or are ignored, and addresses
      that the workers found to be verified. */
  datatype Event =
    | Ignored
    | Reported(r: Report, network: Addr, hash: nat, trouble: Trouble, result: Option<(bool, bool)>)
    | Verification(ip: IP.Address, hop: bool)

  function EventOf(
    r: Report, isPublic: IP.Address -> bool, hash: Addr -> nat, trouble: Trouble, result: Option<(bool, bool)>): Event
  {
    var network := ReportingNetwork(r, isPublic);
    if !r.known || network.None? then Ignored else Reported(r, network.value, hash(network.value), trouble, result)
  }

  ghost predicate Step(t: Tables, e: Event, t': Tables) {
    match e
    case Ignored => t' == t
    case Reported(r, network, hash, trouble, result) => Taken(t, t', r, network, hash, trouble, result)
    case Verification(ip, hop) =>
      t' == if IPAddr(ip) in t.endpoints then t.(endpoints := Marked(t.endpoints, IPAddr(ip), hop)) else t
  }

  /** A verification that succeeds marks the address, if it has a record, and nothing else. */
  lemma VerificationOutcome(t: Tables, ip: IP.Address, hop: bool, t': Tables, a: Addr)
    requires Step(t, Verification(ip, hop), t')
    ensures t'.networks == t.networks && (a in t'.endpoints <==> a in t.endpoints)
    ensures a in t.endpoints && a != IPAddr(ip) ==> t'.endpoints[a] == t.endpoints[a]
    ensures a in t.endpoints && a == IPAddr(ip) ==>
              var d, e := t.endpoints[a], t'.endpoints[a];
              && (e.hopVerified <==> d.hopVerified || hop) && (e.dataVerified <==> d.dataVerified || !hop)
              && e == d.(hopVerified := e.hopVerified, dataVerified := e.dataVerified)
  {
  }

  // A report of the address that is taken into account, with memory enough
  ghost predicate Reports(t: Tables, t': Tables, ip: IP.Address, hash: nat) {
    exists e: Event :: e.Reported? && e.r.pub.addr == IPAddr(ip) && e.hash == hash && e.trouble == NoTrouble
      && e.result.Some? && e.result.value.0 && Step(t, e, t')
  }

  // The networks that reported the address
  function NetworksOf(t: Tables, ip: IP.Address): set<nat> {
    if IPAddr(ip) in t.endpoints then t.endpoints[IPAddr(ip)].networks else {}
  }

  lemma ReportCounts(t: Tables, t': Tables, ip: IP.Address, hash: nat)
    requires Reports(t, t', ip, hash) && |NetworksOf(t, ip)| < 32
    ensures IPAddr(ip) in t'.endpoints && NetworksOf(t', ip) == NetworksOf(t, ip) + {hash}
  {
    var e: Event :| e.Reported? && e.r.pub.addr == IPAddr(ip) && e.hash == hash && e.trouble == NoTrouble
      && e.result.Some? && e.result.value.0 && Step(t, e, t');
    RecordOutcome(t, t', e.r, e.network, e.hash, e.trouble, e.result, 0, 0);
  }

  lemma BothVerify(t: Tables, ip: IP.Address, t1: Tables, t2: Tables)
    requires Step(t, Verification(ip, false), t1) && Step(t1, Verification(ip, true), t2)
    requires IPAddr(ip) in t.endpoints && |NetworksOf(t, ip)| >= 3
    ensures IPAddr(ip) in t2.endpoints && IsVerified(t2.endpoints[IPAddr(ip)])
  {
    VerificationOutcome(t, ip, false, t1, IPAddr(ip));
    VerificationOutcome(t1, ip, true, t2, IPAddr(ip));
  }

  /** So an address becomes verified: by reports from three networks with different hashes, one
      after the other, and both verifications. */
  lemma BecomesVerified(ts: seq<Tables>, ip: IP.Address, a: nat, b: nat, c: nat)
    requires |ts| == 6 && |NetworksOf(ts[0], ip)| < 30 && a != b && a != c && b != c
    requires Reports(ts[0], ts[1], ip, a) && Reports(ts[1], ts[2], ip, b) && Reports(ts[2], ts[3], ip, c)
    requires Step(ts[3], Verification(ip, false), ts[4]) && Step(ts[4], Verification(ip, true), ts[5])
    ensures IPAddr(ip) in ts[5].endpoints && IsVerified(ts[5].endpoints[IPAddr(ip)])
  {
    ReportCounts(ts[0], ts[1], ip, a);
    ReportCounts(ts[1], ts[2], ip, b);
    ReportCounts(ts[2], ts[3], ip, c);
    ThreeDiffer(NetworksOf(ts[3], ip), a, b, c);
    BothVerify(ts[3], ip, ts[4], ts[5]);
  }

  // An endpoint goes only to make room for a new one, and then the lowest ranked
  ghost predicate EndpointGoes(t: Tables, e: Event, t': Tables, gone: Addr)
    requires gone in t.endpoints
  {
    && e.Reported? && |t.endpoints| == MAX_ENDPOINTS && e.r.pub.addr !in t.endpoints
    && (forall kept :: kept in t.endpoints && kept in t'.endpoints ==> !Before(t.endpoints[kept], t.endpoints[gone]))
    && (forall other :: other in t.endpoints && other !in t'.endpoints ==> other == gone)
  }

  // A network goes only to make room for a new one, and then the least recent, or if a
  // trusted report from it fails
  ghost predicate NetworkGoes(t: Tables, e: Event, t': Tables, gone: Addr)
    requires gone in t.networks
  {
    && e.Reported?
    && if gone == e.network then e.r.trusted && NoRecord(t.endpoints, e.r.pub.addr, e.trouble)
       else
         && |t.networks| == MAX_REPORTING_PEER_NETWORKS && e.network !in t.networks
         && (forall kept :: kept in t.networks && kept in t'.networks ==> t.networks[gone] <= t.networks[kept])
         && (forall other :: other in t.networks && other !in t'.networks ==> other == gone)
  }

  lemma StepKeeps(t: Tables, e: Event, t': Tables)
    requires TablesOk(t) && Step(t, e, t')
    ensures TablesOk(t')
  {
    if e.Reported? {
      TakenKeeps(t, t', e.r, e.network, e.hash, e.trouble, e.result);
    } else if e.Verification? && IPAddr(e.ip) in t.endpoints {
      RecordFits(t.endpoints, IPAddr(e.ip), t'.endpoints[IPAddr(e.ip)]);
    }
  }

  lemma StepEvicts(t: Tables, e: Event, t': Tables, gone: Addr)
    requires TablesOk(t) && Step(t, e, t')
    ensures gone in t.endpoints && gone !in t'.endpoints ==> EndpointGoes(t, e, t', gone)
    ensures gone in t.networks && gone !in t'.networks ==> NetworkGoes(t, e, t', gone)
  {
    if e.Reported? {
      TakenKeeps(t, t', e.r, e.network, e.hash, e.trouble, e.result);
      if e.network in t.networks {
        KnownNetworkForgottenIff(t, t', e.r, e.network, e.hash, e.trouble, e.result);
      }
    }
  }

  lemma StepGains(t: Tables, e: Event, t': Tables, a: Addr)
    requires TablesOk(t) && Step(t, e, t') && a in t.endpoints && a in t'.endpoints
    ensures Gains(t.endpoints[a], t'.endpoints[a])
  {
    GainsItself(t.endpoints[a]);
    if e.Reported? { TakenKeeps(t, t', e.r, e.network, e.hash, e.trouble, e.result); }
  }

  ghost predicate History(ts: seq<Tables>, es: seq<Event>) {
    && |ts| == |es| + 1 && ts[0] == Tables(map[], map[])
    && forall i :: 0 <= i < |es| ==> Step(ts[i], es[i], ts[i + 1])
  }

  // The address has a record all the time from i to j
  ghost predicate Alive(ts: seq<Tables>, a: Addr, i: nat, j: nat)
    requires i <= j < |ts|
  {
    forall k :: i <= k <= j ==> a in ts[k].endpoints
  }

  lemma {:induction false} LimitsHold(ts: seq<Tables>, es: seq<Event>, i: nat)
    requires History(ts, es) && i < |ts|
    ensures TablesOk(ts[i])
  {
    if i > 0 {
      LimitsHold(ts, es, i - 1);
      assert Step(ts[i - 1], es[i - 1], ts[i - 1 + 1]);
      StepKeeps(ts[i - 1], es[i - 1], ts[i]);
    }
  }

  // What is verified or trusted stays so
  predicate Holds(d: Details, e: Details) { (IsVerified(d) ==> IsVerified(e)) && (d.trusted ==> e.trusted) }

  lemma NextHolds(ts: seq<Tables>, es: seq<Event>, a: Addr, k: nat)
    requires History(ts, es) && k < |es| && a in ts[k].endpoints && a in ts[k + 1].endpoints
    ensures Holds(ts[k].endpoints[a], ts[k + 1].endpoints[a])
  {
    LimitsHold(ts, es, k);
    StepGains(ts[k], es[k], ts[k + 1], a);
    GainsKeepVerified(ts[k].endpoints[a], ts[k + 1].endpoints[a]);
  }

  lemma {:induction false} RecordsHold(ts: seq<Tables>, es: seq<Event>, a: Addr, i: nat, j: nat)
    requires History(ts, es) && i <= j < |ts| && Alive(ts, a, i, j)
    ensures Holds(ts[i].endpoints[a], ts[j].endpoints[a])
    decreases j
  {
    if i < j {
      assert a in ts[j - 1].endpoints && a in ts[j].endpoints;
      NextHolds(ts, es, a, j - 1);
      RecordsHold(ts, es, a, i, j - 1);
    }
  }

  /** Over any run of reports and verifications from empty tables: both tables and every
      record stay within their limits, whatever goes was the least relevant or least recent,
      and a record that is verified or trusted stays so for as long as it lives. */
  lemma TablesOverAnyRun(ts: seq<Tables>, es: seq<Event>, i: nat, j: nat, a: Addr)
    requires History(ts, es) && i <= j < |ts|
    ensures TablesOk(ts[i])
    ensures i < |es| && a in ts[i].endpoints && a !in ts[i + 1].endpoints ==> EndpointGoes(ts[i], es[i], ts[i + 1], a)
    ensures i < |es| && a in ts[i].networks && a !in ts[i + 1].networks ==> NetworkGoes(ts[i], es[i], ts[i + 1], a)
    ensures Alive(ts, a, i, j) ==> Holds(ts[i].endpoints[a], ts[j].endpoints[a])
  {
    LimitsHold(ts, es, i);
    if i < |es| { StepEvicts(ts[i], es[i], ts[i + 1], a); }
    if Alive(ts, a, i, j) { RecordsHold(ts, es, a, i, j); }
  }
}
