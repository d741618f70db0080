/** Joining sequences. */
module Sequences {

  lemma Assoc<T>(a: seq<T>, b: seq<T>, c: seq<T>)
    ensures (a + b) + c == a + (b + c)
  {
  }

  /** If what comes out and what stays make up what was there and what came in, in each of two
      stretches of a run, they do over both. */
  lemma Chain<T>(out: seq<T>, mid: seq<T>, start: seq<T>, came: seq<T>, out': seq<T>, end: seq<T>, came': seq<T>)
    requires out + mid == start + came && out' + end == mid + came'
    ensures (out + out') + end == start + (came + came')
  {
    Assoc(out, out', end);
    Assoc(start, came, came');
    Assoc(out, mid, came');
  }
}
