/** The class under which a request is filed and served is the priority its client wrote. */
module GlobalStrictMessages {
  import opened Words
  import opened GlobalStrict
  import opened GlobalStrictBuffers
  import Payload

  /** What the network leaves of a message in a receive buffer: bytes 52 and 53 are bytes 12 and 13
      of the message, behind a header of forty. */
  function HeaderOf(msg: seq<Byte>, src: nat): Header
    requires |msg| >= Payload.SIZE
  {
    Header(msg[52 - Payload.HEADER], msg[53 - Payload.HEADER], src)
  }

  /** The server reads the priority that the client wrote. */
  lemma ReadsWrittenPriority(msg: seq<Byte>, p: nat, src: nat)
    requires |msg| >= Payload.SIZE && p < 0x1_0000 && Payload.WritesPriority(msg, p)
    ensures Priority(HeaderOf(msg, src)) == p
  {
    assert p == p / 0x100 * 0x100 + p % 0x100;
  }

  /** A request is served under that priority, and answered to its sender. */
  lemma ServedUnderWrittenPriority(cfg: Config, blocks: seq<set<nat>>, headers: seq<Header>, bufs: set<nat>,
                                   s: State, t: nat, msg: seq<Byte>, p: nat, src: nat)
    requires Setup(cfg, blocks, bufs)
    requires Reachable(cfg, blocks, headers, s) && t < |s.threads| && s.threads[t].pc.Serving?
    requires |msg| >= Payload.SIZE && p < 0x1_0000 && Payload.WritesPriority(msg, p)
    requires var b := s.threads[t].pc.x.bufID; b < |s.headers| && s.headers[b] == HeaderOf(msg, src)
    ensures s.threads[t].pc.c == p && s.threads[t].pc.x.srcQP == src
  {
    ServiceReadsItsRequest(cfg, blocks, headers, bufs, s, t);
    ReadsWrittenPriority(msg, p, src);
  }
}
