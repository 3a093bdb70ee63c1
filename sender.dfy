/** UdpSenderService: serialises a packet, chooses the destination endpoint and
    sends one datagram, with a single loopback-bound retry when the network
    reports that the destination is unreachable.

    What the network does is input: whether the destination string parses as a
    literal address (`parsed`; the source parses the same string before the
    first attempt and again in the fallback, so both see the same answer), what
    name resolution returns (`dns`), and how each send ends. */
module Sender {
  import opened Wrappers
  import opened Bytes
  import opened Net
  import opened Packet

  /** Serialize: allocate Marshal.SizeOf(data) bytes, write the struct image
      (StructureToPtr) and copy it into the array (Marshal.Copy). */
  method Serialize(data: UdpPacketData) returns (arr: array<Byte>)
    ensures fresh(arr)
    ensures arr.Length == PacketSize
    ensures arr[..] == Encode(data)
  {
    var size := PacketSize;
    arr := new Byte[size];
    var image := Encode(data);
    MarshalCopy(image, arr, size);
    assert arr[..] == arr[..size];
    assert image[..size] == image;
  }

  /** Marshal.Copy(ptr, arr, 0, length): the first `length` bytes of the
      unmanaged block go to the start of arr. */
  method MarshalCopy(source: seq<Byte>, arr: array<Byte>, length: nat)
    requires length <= |source| && length <= arr.Length
    modifies arr
    ensures arr[..length] == source[..length]
    ensures arr[length..] == old(arr[length..])
  {
    for i := 0 to length
      invariant arr[..i] == source[..i]
      invariant arr[length..] == old(arr[length..])
    {
      arr[i] := source[i];
    }
  }

  /** The index of the first IPv4 address, or |addresses| when there is none
      (what FirstOrDefault with the InterNetwork test finds). */
  function FirstInterNetwork(addresses: seq<IpAddress>): (k: nat)
    ensures k <= |addresses|
    ensures k < |addresses| ==> addresses[k].family == InterNetwork
    ensures forall j :: 0 <= j < k ==> addresses[j].family != InterNetwork
  {
    if addresses == [] then 0
    else if addresses[0].family == InterNetwork then 0
    else 1 + FirstInterNetwork(addresses[1..])
  }

  /** `FirstOrDefault(a => a.AddressFamily == InterNetwork) ?? addresses[0]`. */
  function ChooseAddress(addresses: seq<IpAddress>): (a: IpAddress)
    requires |addresses| > 0
    ensures a in addresses
    ensures (exists i :: 0 <= i < |addresses| && addresses[i].family == InterNetwork)
      ==> a.family == InterNetwork
    ensures (forall i :: 0 <= i < |addresses| ==> addresses[i].family != InterNetwork)
      ==> a == addresses[0]
    ensures exists k :: (0 <= k < |addresses| && addresses[k] == a
      && (a.family == InterNetwork || k == 0)
      && forall j :: 0 <= j < k ==> addresses[j].family != InterNetwork)
  {
    var k := FirstInterNetwork(addresses);
    if k < |addresses| then addresses[k] else addresses[0]
  }

  /** The message of the exception thrown when resolution finds nothing. */
  function UnresolvedMessage(ipAddress: string): string {
    "Could not resolve IP address: " + ipAddress
  }

  /** The endpoint computation inside the try block of SendPacketAsync. */
  function ResolveEndpoint(ipAddress: string, parsed: Option<IpAddress>,
                           dns: Result<seq<IpAddress>, Exception>, port: int): (r: Result<Endpoint, Exception>)
    // a literal address is used as it is, whatever resolution would say
    ensures parsed.Some? ==> r == IPEndPointOf(parsed.value, port)
    ensures parsed.None? && dns.Failure? ==> r == Failure(dns.error)
    ensures parsed.None? && dns.Success? && |dns.value| == 0
      ==> r == Failure(ArgumentException(UnresolvedMessage(ipAddress)))
    ensures parsed.None? && dns.Success? && |dns.value| > 0
      ==> r == IPEndPointOf(ChooseAddress(dns.value), port)
    ensures r.Success? ==> r.value.port == port && MinPort <= port <= MaxPort
  {
    match parsed
    case Some(address) => IPEndPointOf(address, port)
    case None =>
      match dns
      case Failure(e) => Failure(e)
      case Success(addresses) =>
        if |addresses| == 0 then Failure(ArgumentException(UnresolvedMessage(ipAddress)))
        else IPEndPointOf(ChooseAddress(addresses), port)
  }

  /** The condition of the first catch clause. */
  predicate IsUnreachable(e: Exception) {
    e.SocketException? && (e.socketError == HostUnreachable || e.socketError == NetworkUnreachable)
  }

  /** How the fallback block ends: the loopback-bound client could not be
      created, its send threw, or its send returned. */
  datatype FallbackOutcome = LoopbackBindFailed(bindError: Exception) | FallbackSendFailed(sendError: Exception) | FallbackSent

  /** The client a datagram went out on: the IPv4 client with TTL 1, or the
      client bound to the loopback interface. */
  datatype Route = DefaultClient | LoopbackClient

  datatype Attempt = Attempt(route: Route, endpoint: Endpoint, payload: seq<Byte>)

  /** The datagrams SendPacketAsync handed to the network, and whether it
      returned (Pass) or threw (Fail). */
  datatype SendReport = SendReport(attempts: seq<Attempt>, outcome: Outcome<Exception>)

  /** SendPacketAsync(ipAddress, port, data). `primary` is how the first
      SendAsync ends, `fallback` how the fallback block ends if it is entered. */
  function SendPacket(ipAddress: string, parsed: Option<IpAddress>, dns: Result<seq<IpAddress>, Exception>,
                      port: int, data: UdpPacketData,
                      primary: Outcome<Exception>, fallback: FallbackOutcome): (r: SendReport)
    // at most one primary attempt and one fallback attempt
    ensures |r.attempts| <= 2
    // the bytes are serialised once: every attempt carries the same payload
    ensures forall i :: 0 <= i < |r.attempts| ==> r.attempts[i].payload == Encode(data)
    // the primary attempt happens iff an endpoint was found
    ensures |r.attempts| >= 1 <==> ResolveEndpoint(ipAddress, parsed, dns, port).Success?
    ensures |r.attempts| >= 1 ==>
      r.attempts[0].route == DefaultClient && r.attempts[0].endpoint == ResolveEndpoint(ipAddress, parsed, dns, port).value
    // the fallback sends only for a literal address after an unreachable error, to the same endpoint
    ensures |r.attempts| == 2 ==>
      && parsed.Some? && primary.Fail? && IsUnreachable(primary.error)
      && r.attempts[1].route == LoopbackClient
      && r.attempts[1].endpoint == r.attempts[0].endpoint == Endpoint(parsed.value, port)
    ensures |r.attempts| == 2 <==>
      (ResolveEndpoint(ipAddress, parsed, dns, port).Success? && primary.Fail? && IsUnreachable(primary.error)
       && parsed.Some? && !fallback.LoopbackBindFailed?)
    // the call returns normally iff the primary send or the fallback send returned
    ensures r.outcome.Pass? <==>
      (ResolveEndpoint(ipAddress, parsed, dns, port).Success?
       && (primary.Pass? || (IsUnreachable(primary.error) && parsed.Some? && fallback.FallbackSent?)))
    // what escapes is the original exception, never the fallback's
    ensures r.outcome.Fail? ==>
      r.outcome.error == match ResolveEndpoint(ipAddress, parsed, dns, port)
                         case Failure(e) => e
                         case Success(_) => primary.error
  {
    var bytes := Encode(data);
    match ResolveEndpoint(ipAddress, parsed, dns, port)
    case Failure(e) => Recover(e, [], parsed, port, bytes, fallback)
    case Success(endpoint) =>
      var first := [Attempt(DefaultClient, endpoint, bytes)];
      match primary
      case Pass => SendReport(first, Pass)
      case Fail(e) => Recover(e, first, parsed, port, bytes, fallback)
  }

  /** The two catch clauses: only an unreachable error enters the fallback,
      which re-parses the destination and sends the same bytes once over the
      loopback-bound client; in every other case the exception is rethrown. */
  function Recover(e: Exception, attempts: seq<Attempt>, parsed: Option<IpAddress>, port: int,
                   bytes: seq<Byte>, fallback: FallbackOutcome): SendReport
  {
    if IsUnreachable(e) then
      if fallback.LoopbackBindFailed? then SendReport(attempts, Fail(e))
      else
        match parsed
        case None => SendReport(attempts, Fail(e))
        case Some(address) =>
          var retry := attempts + [Attempt(LoopbackClient, Endpoint(address, port), bytes)];
          if fallback.FallbackSent? then SendReport(retry, Pass) else SendReport(retry, Fail(e))
    else SendReport(attempts, Fail(e))
  }
}
