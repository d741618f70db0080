/** The scan benchmark: one byte is set, each iteration finds it, clears it and sets the next
    of 256. */
module TokenRing {
  import opened Words
  import opened WordScan

  const SIZE: nat := 256

  /** Which scan the program is built with. */
  datatype Scan = Scalar | Lanes | Bsr

  /** The vector with byte `at` set. */
  function Token(at: nat): (v: seq<Byte>)
    ensures |v| == SIZE
  {
    seq(SIZE, k requires 0 <= k < SIZE => if k == at then 255 else 0)
  }

  lemma RingIsWhole()
    ensures RoundUp(SIZE, 8) == SIZE && RoundUp(SIZE, 64) == SIZE
  {
  }

  lemma TokenIsOnly(v: seq<Byte>, at: nat)
    requires at < SIZE && v == Token(at)
    ensures |v| == SIZE && OnlySet(v, at)
  {
  }

  /** Each scan finds the token; those that do not swap find its flipped index. */
  method Find(scan: Scan, buf: array<Byte>, ghost at: nat) returns (connIndex: nat)
    requires at < SIZE && buf[..] == Token(at)
    ensures connIndex == at
  {
    hide *;
    RingIsWhole();
    TokenIsOnly(buf[..], at);
    assert buf[..] == buf[0..SIZE] == buf[..SIZE];
    var foundWork: bool;
    match scan {
      case Scalar =>
        foundWork, connIndex := FindByLzcnt(buf, 0, SIZE);
        ScansAgree(buf[..], at, connIndex);
      case Lanes =>
        foundWork, connIndex := FindByLanes(buf, 8, SIZE);
        ScansAgree(buf[..], at, connIndex);
        connIndex := Flip(connIndex);
      case Bsr =>
        foundWork, connIndex := FindByBsr(buf, SIZE);
        ScansAgree(buf[..], at, connIndex);
        connIndex := Flip(connIndex);
    }
  }

  lemma Move(at: nat)
    requires at < SIZE
    ensures Token(at)[at := 0][(at + 1) % SIZE := 255] == Token((at + 1) % SIZE)
  {
  }

  lemma NextPlace(x: nat)
    ensures (x % SIZE + 1) % SIZE == (x + 1) % SIZE
  {
  }

  /** Whichever scan is used, after `n` iterations exactly one byte is set, the one at
      `n` modulo 256, and the last scan found the one before. */
  method Circulate(scan: Scan, iterations: nat) returns (buf: array<Byte>, connIndex: nat)
    ensures buf[..] == Token(iterations % SIZE)
    ensures iterations > 0 ==> connIndex == (iterations - 1) % SIZE
  {
    buf := new Byte[SIZE](_ => 0);
    buf[0] := 255;
    connIndex := 0;
    assert buf[..] == Token(0);
    for x := 0 to iterations
      invariant buf[..] == Token(x % SIZE)
      invariant x > 0 ==> connIndex == (x - 1) % SIZE
    {
      connIndex := Find(scan, buf, x % SIZE);
      buf[connIndex] := 0;
      buf[(connIndex + 1) % SIZE] := 255;
      Move(connIndex);
      NextPlace(x);
    }
  }
}
