/** The twenty bytes of a request: where the client puts the service time and the priority,
    where the server reads them, and what comes back. */
module Payload {
  import opened Words
  import Arithmetic

  /** A received message follows a forty-byte header. */
  const HEADER: nat := 40
  const SIZE: nat := 20

  /** What the client writes, in place. Bytes 4 to 11 and from 14 on keep what they held. */
  method FillRequest(bufSend: array<Byte>, serviceTime: nat, priority: nat)
    requires bufSend.Length >= SIZE && priority < 0x1_0000
    modifies bufSend
    ensures WritesPriority(bufSend[..SIZE], priority)
    ensures bufSend[0] == serviceTime / 16 / 0x100 % 0x100 && bufSend[1] == serviceTime / 16 % 0x100
    ensures bufSend[2] == 0 && bufSend[3] == 255
    ensures PriorityIn(bufSend[..SIZE]) == priority
    ensures SleepIn(bufSend[..SIZE]) == 16 * (serviceTime / 16 % 0x1_0000)
    ensures !Terminates(bufSend[..SIZE])
    ensures forall k | 0 <= k < bufSend.Length && !(0 <= k < 4 || k == 12 || k == 13) ::
              bufSend[k] == old(bufSend[k])
  {
    var reqLat := serviceTime / 16;
    var latLower := reqLat % 0x100;
    var latUpper := reqLat / 0x100 % 0x100;
    bufSend[1] := latLower;
    bufSend[0] := latUpper;
    bufSend[2] := 0;
    bufSend[3] := 255;
    bufSend[12] := priority / 0x100 % 0x100;
    bufSend[13] := priority % 0x100;
    TwoBytes(reqLat);
  }

  /** The message that ends a run. Byte 10 is where an earlier format had the priority. */
  method FillStop(bufSend: array<Byte>)
    requires bufSend.Length >= SIZE
    modifies bufSend
    ensures bufSend[2] == 255 && bufSend[3] == 255
    ensures Terminates(bufSend[..SIZE]) && SleepIn(bufSend[..SIZE]) == 16
    ensures forall k | 4 <= k < bufSend.Length && k != 10 :: bufSend[k] == old(bufSend[k])
  {
    bufSend[1] := 1;
    bufSend[0] := 0;
    bufSend[2] := 255;
    bufSend[3] := 255;
    bufSend[10] := 0;
  }

  lemma TwoBytes(x: nat)
    ensures x % 0x100 + (x / 0x100 % 0x100) * 0x100 == x % 0x1_0000
  {
    var low, high := x % 0x100, x / 0x100;
    var q, middle := high / 0x100, high % 0x100;
    assert x == q * 0x1_0000 + (middle * 0x100 + low);
    Arithmetic.DivUnique(x, 0x1_0000, q, middle * 0x100 + low);
  }

  /** The fields of a message. */
  function PriorityIn(msg: seq<Byte>): nat
    requires |msg| >= SIZE
  {
    msg[13] as nat + msg[12] as nat * 0x100
  }

  /** The two bytes that carry a priority, high byte first. */
  predicate WritesPriority(msg: seq<Byte>, priority: nat)
    requires |msg| >= SIZE
  {
    msg[12] == priority / 0x100 && msg[13] == priority % 0x100
  }

  function SleepIn(msg: seq<Byte>): nat
    requires |msg| >= SIZE
  {
    (msg[1] as nat + msg[0] as nat * 0x100) * 16
  }

  predicate Terminates(msg: seq<Byte>)
    requires |msg| >= SIZE
  {
    msg[2] == 255 && msg[3] == 255
  }

  /** What the network puts into a receive buffer: a header of its own, then the message. */
  method Deliver(bufRecv: array<Byte>, header: seq<Byte>, msg: seq<Byte>)
    requires |header| == HEADER && |msg| == SIZE && bufRecv.Length >= HEADER + SIZE
    modifies bufRecv
    ensures bufRecv[HEADER..HEADER + SIZE] == msg
  {
    for k := 0 to HEADER
      modifies bufRecv
    {
      bufRecv[k] := header[k];
    }
    for k := 0 to SIZE
      invariant bufRecv[HEADER..HEADER + k] == msg[..k]
    {
      bufRecv[HEADER + k] := msg[k];
    }
  }

  /** The decoded priority of a receive buffer. */
  method ReadPriority(bufRecv: array<Byte>) returns (priority: nat)
    requires bufRecv.Length >= HEADER + SIZE
    ensures priority == PriorityIn(bufRecv[HEADER..HEADER + SIZE])
  {
    priority := bufRecv[53] as nat + bufRecv[52] as nat * 0x100;
  }

  /** How long the server will keep busy, or that it has been told to stop. */
  method ReadSleep(bufRecv: array<Byte>) returns (stop: bool, sleep: nat)
    requires bufRecv.Length >= HEADER + SIZE
    ensures stop == Terminates(bufRecv[HEADER..HEADER + SIZE])
    ensures stop <==> bufRecv[HEADER + 2] == 255 && bufRecv[HEADER + 3] == 255
    ensures sleep == SleepIn(bufRecv[HEADER..HEADER + SIZE])
  {
    stop := bufRecv[42] == 255 && bufRecv[43] == 255;
    sleep := (bufRecv[41] as nat + bufRecv[40] as nat * 0x100) * 16;
  }

  /** The echo: `count` bytes are copied, the rest of the send buffer stays. */
  method Echo(bufSend: array<Byte>, bufRecv: array<Byte>, count: nat)
    requires bufSend != bufRecv && count <= SIZE <= bufSend.Length && bufRecv.Length >= HEADER + SIZE
    modifies bufSend
    ensures bufSend[..count] == bufRecv[HEADER..HEADER + count]
    ensures bufSend[count..] == old(bufSend[count..])
  {
    for q := 0 to count
      invariant bufSend[..q] == bufRecv[HEADER..HEADER + q]
      invariant bufSend[count..] == old(bufSend[count..])
    {
      bufSend[q] := bufRecv[q + HEADER];
    }
  }

  /** A request goes out, is served and comes back. One server copies twenty bytes, the other
      nineteen; either way the priority and the service time survive the trip. */
  method RoundTrip(clientSend: array<Byte>, serverRecv: array<Byte>, serverSend: array<Byte>,
                   clientRecv: array<Byte>, there: seq<Byte>, back: seq<Byte>, copied: nat,
                   serviceTime: nat, priority: nat)
      returns (served: nat, stop: bool, sleep: nat, returned: nat)
    requires clientSend.Length >= SIZE && serverSend.Length >= SIZE
    requires serverRecv.Length >= HEADER + SIZE && clientRecv.Length >= HEADER + SIZE
    requires serverSend != serverRecv
    requires |there| == HEADER && |back| == HEADER && copied in {19, 20} && priority < 0x1_0000
    modifies clientSend, serverRecv, serverSend, clientRecv
    ensures served == priority && returned == priority
    ensures !stop && sleep == 16 * (serviceTime / 16 % 0x1_0000)
  {
    FillRequest(clientSend, serviceTime, priority);
    Deliver(serverRecv, there, clientSend[..SIZE]);
    served := ReadPriority(serverRecv);
    stop, sleep := ReadSleep(serverRecv);
    Echo(serverSend, serverRecv, copied);
    assert forall k | 0 <= k < copied :: serverSend[k] == serverSend[..copied][k];
    Deliver(clientRecv, back, serverSend[..SIZE]);
    returned := ReadPriority(clientRecv);
  }

  /** The last message stops the server. */
  method StopTrip(clientSend: array<Byte>, serverRecv: array<Byte>, there: seq<Byte>) returns (stop: bool)
    requires clientSend.Length >= SIZE && serverRecv.Length >= HEADER + SIZE && |there| == HEADER
    modifies clientSend, serverRecv
    ensures stop
  {
    FillStop(clientSend);
    Deliver(serverRecv, there, clientSend[..SIZE]);
    var sleep;
    stop, sleep := ReadSleep(serverRecv);
  }

  /** The sleep falls short of the service time by less than sixteen exactly for service times
      below a million or so; above, the upper bits are lost. */
  lemma SleepIsCloseIff(serviceTime: nat)
    ensures serviceTime - 15 <= 16 * (serviceTime / 16 % 0x1_0000) <= serviceTime
       <==> serviceTime < 0x10_0000
  {
    var x := serviceTime / 16;
    assert serviceTime == 16 * x + serviceTime % 16;
    assert x == (x / 0x1_0000) * 0x1_0000 + x % 0x1_0000;
  }
}
