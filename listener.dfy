/** UdpListenerService: a two-state listener (the socket field null or not),
    its receive loop, and the decoding of received buffers.

    The socket is modelled by the port it is bound to; what the operating
    system does is input: whether binding fails, and what each ReceiveAsync
    returns. The loop runs to completion over the results it is given, with
    nothing else running beside it. */
module Listener {
  import opened Wrappers
  import opened Bytes
  import opened Net
  import opened Packet

  // ---------------------------------------------------------------------------
  // Decoding

  /** Deserialize<T>: PtrToStructure reads the first Marshal.SizeOf bytes of
      the pinned buffer. A shorter buffer would be read past its end, so the
      caller must check the length (ListenLoop does). */
  function Deserialize(data: seq<Byte>): UdpPacketData
    requires |data| >= PacketSize
  {
    UdpPacketData(
      DecodeInt32(data[PacketIdOffset..Pump1ValueOffset]),
      DecodeBits64(data[Pump1ValueOffset..Pump2ValueOffset]),
      DecodeBits64(data[Pump2ValueOffset..AlarmStateOffset]),
      DecodeInt32(data[AlarmStateOffset..Input1ValueOffset]),
      DecodeBits64(data[Input1ValueOffset..PacketSize]))
  }

  /** Every buffer of at least PacketSize bytes decodes to the packet whose
      encoding is its first PacketSize bytes: no byte pattern is rejected. */
  lemma EncodeDeserialize(data: seq<Byte>)
    requires |data| >= PacketSize
    ensures Encode(Deserialize(data)) == data[..PacketSize]
  {
    var a, b, c, d, e := data[0..4], data[4..12], data[12..20], data[20..24], data[24..32];
    Int32BytesRoundTrip(a);
    Bits64BytesRoundTrip(b);
    Bits64BytesRoundTrip(c);
    Int32BytesRoundTrip(d);
    Bits64BytesRoundTrip(e);
    ConcatOfSlices(data);
  }

  lemma ConcatOfSlices<T>(s: seq<T>)
    requires |s| >= 32
    ensures s[..32] == s[0..4] + s[4..12] + s[12..20] + s[20..24] + s[24..32]
  {
  }

  /** Decoding reads only the first PacketSize bytes: whatever follows an
      encoded packet is ignored. */
  lemma DeserializeEncode(p: UdpPacketData, tail: seq<Byte>)
    ensures |Encode(p) + tail| >= PacketSize
    ensures Deserialize(Encode(p) + tail) == p
  {
    var e := Encode(p);
    DeserializePrefix(e, tail);
    DeserializeImage(p);
  }

  /** Deserialize looks at the first PacketSize bytes only. */
  lemma DeserializePrefix(e: seq<Byte>, tail: seq<Byte>)
    requires |e| == PacketSize
    ensures Deserialize(e + tail) == Deserialize(e)
  {
    var data := e + tail;
    assert data[0..4] == e[0..4];
    assert data[4..12] == e[4..12];
    assert data[12..20] == e[12..20];
    assert data[20..24] == e[20..24];
    assert data[24..32] == e[24..32];
  }

  lemma DeserializeImage(p: UdpPacketData)
    ensures Deserialize(Encode(p)) == p
  {
    EncodeLayout(p);
    Int32RoundTrip(p.packetId);
    Bits64RoundTrip(p.pump1Value);
    Bits64RoundTrip(p.pump2Value);
    Int32RoundTrip(p.alarmState);
    Bits64RoundTrip(p.input1Value);
  }

  /** Encoding is one-to-one: distinct packets never share a wire image. */
  lemma EncodeInjective(p: UdpPacketData, q: UdpPacketData)
    ensures Encode(p) == Encode(q) ==> p == q
  {
    DeserializeEncode(p, []);
    DeserializeEncode(q, []);
    assert Encode(p) + [] == Encode(p);
    assert Encode(q) + [] == Encode(q);
  }

  /** The size test of ListenLoop followed by Deserialize. */
  function Decode(data: seq<Byte>): (r: Option<UdpPacketData>)
    ensures r.None? <==> |data| < PacketSize
    ensures r.Some? ==> Encode(r.value) == data[..PacketSize]
  {
    if |data| >= PacketSize then
      EncodeDeserialize(data);
      Some(Deserialize(data))
    else None
  }

  lemma DecodeEncode(p: UdpPacketData, tail: seq<Byte>)
    ensures Decode(Encode(p) + tail) == Some(p)
  {
    DeserializeEncode(p, tail);
  }

  // ---------------------------------------------------------------------------
  // The receive loop

  /** What one iteration sees: a datagram (and, when the packet is delivered,
      whether the event's handler threw), or an exception from ReceiveAsync. */
  datatype ReceiveResult =
    | Received(buffer: seq<Byte>, handlerError: Option<Exception>)
    | ReceiveThrew(error: Exception)

  /** The iteration leaves the loop: an OperationCanceledException reaches the
      first catch clause, whether ReceiveAsync or a handler threw it. */
  predicate EndsLoop(r: ReceiveResult) {
    match r
    case ReceiveThrew(e) => e == OperationCanceledException
    case Received(buffer, handlerError) =>
      |buffer| >= PacketSize && handlerError == Some(OperationCanceledException)
  }

  /** The index of the first result that ends the loop, or |results|. */
  function CancelPoint(results: seq<ReceiveResult>): (k: nat)
    ensures k <= |results|
    ensures k < |results| ==> EndsLoop(results[k])
    ensures forall j :: 0 <= j < k ==> !EndsLoop(results[j])
  {
    if results == [] then 0
    else if EndsLoop(results[0]) then 0
    else 1 + CancelPoint(results[1..])
  }

  /** The packets the data-received event is raised with for these results:
      the decodes of the buffers of at least PacketSize bytes, in order. */
  function Deliveries(results: seq<ReceiveResult>): seq<UdpPacketData> {
    if results == [] then []
    else
      var rest := Deliveries(results[1..]);
      match results[0]
      case Received(buffer, _) => if |buffer| >= PacketSize then [Deserialize(buffer)] + rest else rest
      case ReceiveThrew(_) => rest
  }

  lemma {:induction false} DeliveriesAppend(a: seq<ReceiveResult>, b: seq<ReceiveResult>)
    ensures Deliveries(a + b) == Deliveries(a) + Deliveries(b)
  {
    if a == [] {
      assert a + b == b;
    } else {
      assert (a + b)[0] == a[0];
      assert (a + b)[1..] == a[1..] + b;
      DeliveriesAppend(a[1..], b);
    }
  }

  /** A buffer shorter than PacketSize and a failed receive deliver nothing,
      wherever they occur. */
  lemma DroppedResults(a: seq<ReceiveResult>, r: ReceiveResult, b: seq<ReceiveResult>)
    requires r.ReceiveThrew? || |r.buffer| < PacketSize
    ensures Deliveries(a + [r] + b) == Deliveries(a + b)
  {
    DeliveriesAppend(a + [r], b);
    DeliveriesAppend(a, [r]);
    DeliveriesAppend(a, b);
    assert Deliveries([r]) == [];
  }

  /** Sender-to-listener: the encodings of ps, each followed by arbitrary
      trailing bytes, are delivered as exactly ps. */
  lemma {:induction false} DeliveriesOfEncoded(ps: seq<UdpPacketData>, tails: seq<seq<Byte>>, results: seq<ReceiveResult>)
    requires |tails| == |ps| == |results|
    requires forall i :: 0 <= i < |ps| ==> results[i].Received? && results[i].buffer == Encode(ps[i]) + tails[i]
    ensures Deliveries(results) == ps
  {
    if ps != [] {
      DeserializeEncode(ps[0], tails[0]);
      assert Deserialize(results[0].buffer) == ps[0];
      DeliveriesOfEncoded(ps[1..], tails[1..], results[1..]);
      assert ps == [ps[0]] + ps[1..];
    }
  }

  // ---------------------------------------------------------------------------
  // Lifecycle

  /** The CancellationTokenSource the listener creates on each start. */
  class CancellationTokenSource {
    var isCancellationRequested: bool
    var isDisposed: bool

    constructor ()
      ensures !isCancellationRequested && !isDisposed
    {
      isCancellationRequested, isDisposed := false, false;
    }

    /** Cancel() throws once the source is disposed. */
    method Cancel() returns (r: Outcome<Exception>)
      modifies this
      ensures r.Fail? <==> old(isDisposed)
      ensures r.Fail? ==> r.error.ObjectDisposedException?
      ensures isCancellationRequested == (old(isCancellationRequested) || !old(isDisposed))
      ensures isDisposed == old(isDisposed)
    {
      if isDisposed {
        return Fail(ObjectDisposedException("The CancellationTokenSource has been disposed."));
      }
      isCancellationRequested := true;
      r := Pass;
    }

    method Dispose()
      modifies this
      ensures isDisposed && isCancellationRequested == old(isCancellationRequested)
    {
      isDisposed := true;
    }
  }

  class UdpListenerService {
    /** `_udpClient`: None while stopped, the bound port while listening. */
    var client: Option<int>
    /** `_cts`: null until the first successful start; never reset to null. */
    var cts: CancellationTokenSource?
    /** How many sockets were bound and how many were closed. */
    var binds: nat
    var closes: nat
    /** The packets the data-received event was raised with, oldest first. */
    var delivered: seq<UdpPacketData>

    /** A listening service holds a live, uncancelled token source. */
    ghost predicate Valid()
      reads this, cts
    {
      client.Some? ==> cts != null && !cts.isCancellationRequested && !cts.isDisposed
    }

    predicate IsListening()
      reads this
    {
      client.Some?
    }

    constructor ()
      ensures Valid() && !IsListening()
      ensures cts == null && binds == 0 && closes == 0 && delivered == []
    {
      client, cts, binds, closes, delivered := None, null, 0, 0, [];
    }

    /** StartListening(port). `bindError` is the exception binding the socket
        raises, if any; a port outside 0..65535 is rejected by the socket
        constructor. A failure is caught: the service stays stopped. */
    method StartListening(port: int, bindError: Option<Exception>)
      requires Valid()
      modifies this
      ensures Valid()
      ensures delivered == old(delivered) && closes == old(closes)
      // already listening: nothing happens
      ensures old(client).Some? ==> client == old(client) && cts == old(cts) && binds == old(binds)
      // the socket cannot be created: still stopped, nothing else changes
      ensures old(client).None? && (port < MinPort || port > MaxPort || bindError.Some?) ==>
        client.None? && cts == old(cts) && binds == old(binds)
      // otherwise: listening on port with a fresh token source
      ensures old(client).None? && MinPort <= port <= MaxPort && bindError.None? ==>
        client == Some(port) && cts != null && fresh(cts) && binds == old(binds) + 1
    {
      if client.Some? {
        return;
      }
      if port < MinPort || port > MaxPort {
        // new UdpClient(port) throws ArgumentOutOfRangeException; logged
        return;
      }
      if bindError.Some? {
        // the bind throws; logged
        return;
      }
      client := Some(port);
      binds := binds + 1;
      cts := new CancellationTokenSource();
    }

    /** StopListening(): cancel the token source, close and forget the socket.
        Cancel throws when the source has been disposed, and then nothing
        after it runs. */
    method StopListening() returns (r: Outcome<Exception>)
      requires Valid()
      modifies this, cts
      ensures Valid()
      ensures cts == old(cts) && delivered == old(delivered) && binds == old(binds)
      ensures r.Fail? <==> (cts != null && old(cts.isDisposed))
      ensures r.Fail? ==> r.error.ObjectDisposedException? && client == old(client) && closes == old(closes)
      ensures r.Fail? ==> cts.isCancellationRequested == old(cts.isCancellationRequested)
      ensures r.Pass? ==> client.None? && closes == old(closes) + (if old(client).Some? then 1 else 0)
      ensures r.Pass? && cts != null ==> cts.isCancellationRequested
      ensures cts != null ==> cts.isDisposed == old(cts.isDisposed)
    {
      if cts != null {
        r := cts.Cancel();
        if r.Fail? {
          return;
        }
      }
      r := Pass;
      if client.Some? {
        closes := closes + 1;
      }
      client := None;
    }

    /** Dispose(): stop, then dispose the token source (which stays in `_cts`). */
    method Dispose() returns (r: Outcome<Exception>)
      requires Valid()
      modifies this, cts
      ensures Valid()
      ensures cts == old(cts) && delivered == old(delivered) && binds == old(binds)
      ensures r.Fail? <==> (cts != null && old(cts.isDisposed))
      ensures r.Fail? ==> r.error.ObjectDisposedException? && client == old(client) && closes == old(closes)
      ensures r.Fail? ==> cts.isDisposed && cts.isCancellationRequested == old(cts.isCancellationRequested)
      ensures r.Pass? ==> client.None? && closes == old(closes) + (if old(client).Some? then 1 else 0)
      ensures r.Pass? && cts != null ==> cts.isDisposed && cts.isCancellationRequested
    {
      r := StopListening();
      if r.Fail? {
        return;
      }
      if cts != null {
        cts.Dispose();
      }
    }

    /** Dispose made repeatable: the disposed source is also dropped, so a
        later StopListening or Dispose finds nothing to cancel. */
    method DisposeCorrected() returns (r: Outcome<Exception>)
      requires Valid()
      requires cts != null ==> !cts.isDisposed
      modifies this, cts
      ensures Valid()
      ensures r.Pass? && client.None? && cts == null
      ensures closes == old(closes) + (if old(client).Some? then 1 else 0)
      ensures old(cts) != null ==> old(cts).isDisposed && old(cts).isCancellationRequested
      ensures delivered == old(delivered) && binds == old(binds)
    {
      r := StopListening();
      if cts != null {
        cts.Dispose();
      }
      cts := null;
    }

    /** ListenLoop(token): while the token is not cancelled and the socket
        field is set, receive, deliver the decodes of buffers of at least
        PacketSize bytes, drop shorter ones, and survive every exception but
        OperationCanceledException. `exited` is false when the results run out
        with the loop still waiting in ReceiveAsync. */
    method ListenLoop(token: CancellationTokenSource, results: seq<ReceiveResult>) returns (consumed: nat, exited: bool)
      modifies this`delivered
      ensures consumed <= |results|
      ensures !token.isCancellationRequested && client.Some? ==>
        && exited == (CancelPoint(results) < |results|)
        && consumed == (if exited then CancelPoint(results) + 1 else |results|)
        && delivered == old(delivered) + Deliveries(results[..consumed])
      ensures token.isCancellationRequested || client.None? ==>
        exited && consumed == 0 && delivered == old(delivered)
    {
      consumed, exited := 0, false;
      while !token.isCancellationRequested && client.Some?
        invariant consumed <= CancelPoint(results)
        invariant token.isCancellationRequested || client.None? ==> consumed == 0
        invariant delivered == old(delivered) + Deliveries(results[..consumed])
        decreases |results| - consumed
      {
        if consumed == |results| {
          return;
        }
        var result := results[consumed];
        DeliveriesAppend(results[..consumed], [result]);
        assert results[..consumed + 1] == results[..consumed] + [result];
        consumed := consumed + 1;
        match result
        case ReceiveThrew(e) =>
          if e == OperationCanceledException {
            break;
          }
          // other exceptions are logged and the loop goes on
        case Received(buffer, handlerError) =>
          if |buffer| >= PacketSize {
            var packet := Deserialize(buffer);
            delivered := delivered + [packet];
            if handlerError == Some(OperationCanceledException) {
              break;
            }
          }
      }
      exited := true;
    }
  }

  /** Results that do not end the loop leave it running to the end. */
  lemma {:induction false} NoCancelPoint(results: seq<ReceiveResult>)
    requires forall i :: 0 <= i < |results| ==> !EndsLoop(results[i])
    ensures CancelPoint(results) == |results|
    decreases |results|
  {
    if results != [] {
      NoCancelPoint(results[1..]);
    }
  }

  /** A dropped result between two others leaves exactly their deliveries. */
  lemma DroppedBetween(r0: ReceiveResult, r1: ReceiveResult, r2: ReceiveResult)
    requires r1.ReceiveThrew? || |r1.buffer| < PacketSize
    ensures Deliveries([r0, r1, r2]) == Deliveries([r0]) + Deliveries([r2])
  {
    DroppedResults([r0], r1, [r2]);
    assert [r0] + [r1] + [r2] == [r0, r1, r2];
    DeliveriesAppend([r0], [r2]);
    assert [r0] + [r2] == [r0, r2];
  }

  /** One datagram holding an encoding is delivered as that packet. */
  lemma DeliveredEncoding(p: UdpPacketData, r: ReceiveResult)
    requires r == Received(Encode(p), None)
    ensures Deliveries([r]) == [p]
  {
    DeliveriesOfEncoded([p], [[]], [r]);
  }

  /** A corrupt datagram between two valid ones: exactly two deliveries, in
      order, and nothing in the sequence ends the loop. */
  lemma Resilience(p: UdpPacketData, q: UdpPacketData, garbage: seq<Byte>)
    requires |garbage| < PacketSize
    ensures var results := [Received(Encode(p), None), Received(garbage, None), Received(Encode(q), None)];
      Deliveries(results) == [p, q] && CancelPoint(results) == |results|
  {
    var r0, r1, r2 := Received(Encode(p), None), Received(garbage, None), Received(Encode(q), None);
    DeliveredEncoding(p, r0);
    DeliveredEncoding(q, r2);
    ResilienceOf(r0, r1, r2, p, q);
  }

  lemma ResilienceOf(r0: ReceiveResult, r1: ReceiveResult, r2: ReceiveResult, p: UdpPacketData, q: UdpPacketData)
    requires r0.Received? && r0.handlerError.None? && Deliveries([r0]) == [p]
    requires r1.Received? && r1.handlerError.None? && |r1.buffer| < PacketSize
    requires r2.Received? && r2.handlerError.None? && Deliveries([r2]) == [q]
    ensures Deliveries([r0, r1, r2]) == [p, q] && CancelPoint([r0, r1, r2]) == 3
  {
    DroppedBetween(r0, r1, r2);
    NoCancelPoint([r0, r1, r2]);
  }

  /** Start and stop are idempotent (one bind, one close), and a stopped
      service can start again. */
  method StartStopScenario()
  {
    var listener := new UdpListenerService();
    listener.StartListening(11000, None);
    listener.StartListening(11000, None);
    assert listener.binds == 1 && listener.IsListening();
    var r1 := listener.StopListening();
    var r2 := listener.StopListening();
    assert r1.Pass? && r2.Pass? && listener.closes == 1 && !listener.IsListening();
    listener.StartListening(11000, None);
    assert listener.IsListening() && listener.binds == 2;
  }

  /** A running loop fed [valid, garbage, valid] delivers two packets and
      keeps receiving. */
  method ListenerScenario(p: UdpPacketData, q: UdpPacketData, garbage: seq<Byte>)
    requires |garbage| < PacketSize
  {
    var listener := new UdpListenerService();
    listener.StartListening(11000, None);
    var r0, r1, r2 := Received(Encode(p), None), Received(garbage, None), Received(Encode(q), None);
    DeliveredEncoding(p, r0);
    DeliveredEncoding(q, r2);
    ResilienceOf(r0, r1, r2, p, q);
    var results := [r0, r1, r2];
    var consumed, exited := listener.ListenLoop(listener.cts, results);
    assert !exited && consumed == 3;
    assert results[..consumed] == results;
    assert listener.delivered == [p, q];
  }

  /** A second Dispose throws: the first one disposed `_cts` without clearing
      it, and StopListening cancels it again. */
  method SecondDisposeThrows() returns (first: Outcome<Exception>, second: Outcome<Exception>)
    ensures first.Pass?
    ensures second.Fail? && second.error.ObjectDisposedException?
  {
    var listener := new UdpListenerService();
    listener.StartListening(11000, None);
    first := listener.Dispose();
    assert listener.closes == 1 && listener.client.None?;
    second := listener.Dispose();
    assert listener.closes == 1;
  }

  /** With the corrected Dispose, a second Dispose and a later StopListening
      both return normally. */
  method SecondDisposeCorrectedSucceeds() returns (first: Outcome<Exception>, second: Outcome<Exception>, stop: Outcome<Exception>)
    ensures first.Pass? && second.Pass? && stop.Pass?
  {
    var listener := new UdpListenerService();
    listener.StartListening(11000, None);
    first := listener.DisposeCorrected();
    assert listener.closes == 1;
    second := listener.DisposeCorrected();
    stop := listener.StopListening();
    assert listener.closes == 1 && listener.client.None?;
  }
}
