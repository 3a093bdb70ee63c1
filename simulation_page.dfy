/** The Simulation page: the colour of a gauge, and the form that sends one
    telemetry packet through the sender service and reports the result. */
module SimulationPage {
  import opened Wrappers
  import opened Bytes
  import opened Net
  import opened Packet
  import opened Symbols
  import opened Sender
  import opened Text
  import SimulationService

  const Red: string := "#dc3545"
  const Yellow: string := "#ffc107"
  const Green: string := "#28a745"

  /** GetColor: red above 90, yellow above 75, green otherwise. The value is
      a double; it is a real number here. */
  function GetColor(v: real): (c: string)
    ensures c == Red <==> v > 90.0
    ensures c == Yellow <==> 75.0 < v <= 90.0
    ensures c == Green <==> v <= 75.0
  {
    if v > 90.0 then Red else if v > 75.0 then Yellow else Green
  }

  /** The three colours ranked by severity. */
  function Severity(c: string): int {
    if c == Red then 2 else if c == Yellow then 1 else 0
  }

  /** A higher value is never shown in a milder colour. */
  lemma GetColorMonotone(v: real, w: real)
    requires v <= w
    ensures Severity(GetColor(v)) <= Severity(GetColor(w))
  {
  }

  /** For the service's whole-number motor speed, the colour's severity is
      the service's alarm state. */
  lemma GetColorMatchesAlarm(speed: int)
    ensures Severity(GetColor(speed as real)) == SimulationService.AlarmFor(speed)
  {
  }

  /** `new Random().Next(1000)`. */
  type PacketIdDraw = d: int | 0 <= d < 1000


  /** The packet the form builds: the drawn id, the two pump values of the
      form, no alarm and input 0. */
  function FormPacket(id: PacketIdDraw, pump1: Bits64, pump2: Bits64): (d: UdpPacketData)
    ensures 0 <= d.packetId < 1000 && d.packetId == id
    ensures d.pump1Value == pump1 && d.pump2Value == pump2
    ensures d.alarmState == 0 && d.input1Value == ZeroDouble
  {
    UdpPacketData(id, pump1, pump2, 0, ZeroDouble)
  }

  function SentMessage(ip: string, port: int): string {
    "Paquet envoyé à " + ip + ":" + IntToString(port)
  }

  function ErrorMessage(e: Exception): string {
    "Erreur: " + e.Message()
  }

  const SendingMessage: string := "Envoi..."

  class Simulation {
    var udpIp: string
    var udpPort: int
    var udpPump1: Bits64
    var udpPump2: Bits64
    var udpStatus: string

    constructor ()
      ensures udpIp == "239.0.0.1" && udpPort == 11000
      ensures udpPump1 == Fifty && udpPump2 == Fifty && udpStatus == ""
    {
      udpIp, udpPort := "239.0.0.1", 11000;
      udpPump1, udpPump2 := Fifty, Fifty;
      udpStatus := "";
    }

    /** SendUdpPacket with the id draw and what the network answers. Every
        failure of the send is caught and shown in the status; the form's
        fields are left as they were. */
    method SendUdpPacket(idDraw: PacketIdDraw, parsed: Option<IpAddress>, dns: Result<seq<IpAddress>, Exception>,
                         primary: Outcome<Exception>, fallback: FallbackOutcome)
      returns (report: SendReport)
      modifies this
      ensures report == SendPacket(udpIp, parsed, dns, udpPort, FormPacket(idDraw, udpPump1, udpPump2), primary, fallback)
      ensures udpStatus == match report.outcome
                           case Pass => SentMessage(udpIp, udpPort)
                           case Fail(e) => ErrorMessage(e)
      ensures udpIp == old(udpIp) && udpPort == old(udpPort)
      ensures udpPump1 == old(udpPump1) && udpPump2 == old(udpPump2)
    {
      udpStatus := SendingMessage;
      var data := FormPacket(idDraw, udpPump1, udpPump2);
      report := SendPacket(udpIp, parsed, dns, udpPort, data, primary, fallback);
      match report.outcome
      case Pass =>
        udpStatus := SentMessage(udpIp, udpPort);
      case Fail(e) =>
        udpStatus := ErrorMessage(e);
    }
  }

  /** The status tells the outcome apart: a success text never reads as an
      error text, and neither reads as the text shown while sending. */
  lemma StatusShowsOutcome(ip: string, port: int, e: Exception)
    ensures SentMessage(ip, port) != ErrorMessage(e)
    ensures SentMessage(ip, port) != SendingMessage && ErrorMessage(e) != SendingMessage
  {
    assert SentMessage(ip, port)[0] == 'P' && ErrorMessage(e)[0] == 'E' && ErrorMessage(e)[1] == 'r';
    assert SendingMessage[0] == 'E' && SendingMessage[1] == 'n';
  }
}
