/**
 The bounded tail of a build's output (internal/engineclient/image.go:73-75 and
 :130-154): a fixed buffer that is shifted and overwritten in place.
 */
module Tail {

  const TAIL_LIMIT := 300

  /** The last k bytes. */
  function Last(s: seq<int>, k: nat): seq<int> {
    if |s| <= k then s else s[|s| - k..]
  }

  class TailWriter {
    const buf: array<int>
    var n: nat

    ghost predicate Valid()
      reads this
    {
      buf.Length == TAIL_LIMIT && n <= TAIL_LIMIT
    }

    function Contents(): seq<int>
      reads this, buf
      requires Valid()
    {
      buf[..n]
    }

    constructor ()
      ensures Valid() && fresh(buf) && Contents() == []
    {
      buf := new int[TAIL_LIMIT](_ => 0);
      n := 0;
    }

    method Write(p: seq<int>) returns (written: nat)
      requires Valid()
      modifies this, buf
      ensures Valid() && Contents() == Last(old(Contents()) + p, TAIL_LIMIT)
      ensures written == |p|
    {
      if |p| >= TAIL_LIMIT {
        Copy(0, p[|p| - TAIL_LIMIT..]);
        n := TAIL_LIMIT;
        return |p|;
      }
      var keep := TAIL_LIMIT - |p|;
      if n > keep {
        Copy(0, buf[n - keep..n]);
        n := keep;
      }
      Copy(n, p);
      n := n + |p|;
      return |p|;
    }

    /** Go's copy: the source is read before the destination is written. */
    method Copy(at: nat, src: seq<int>)
      requires at + |src| <= buf.Length
      modifies buf
      ensures buf[..] == old(buf[..at]) + src + old(buf[at + |src|..])
    {
      forall i | 0 <= i < |src| {
        buf[at + i] := src[i];
      }
      assert buf[..] == old(buf[..at]) + src + old(buf[at + |src|..]);
    }
  }

  function Concat(ps: seq<seq<int>>): seq<int> {
    if ps == [] then [] else Concat(ps[..|ps| - 1]) + ps[|ps| - 1]
  }

  /** What a sequence of writes leaves, each as `Write` says. */
  function Kept(ps: seq<seq<int>>, k: nat): seq<int> {
    if ps == [] then [] else Last(Kept(ps[..|ps| - 1], k) + ps[|ps| - 1], k)
  }

  lemma LastOfLast(s: seq<int>, p: seq<int>, k: nat)
    ensures Last(Last(s, k) + p, k) == Last(s + p, k)
  {
  }

  /** After any writes the buffer holds the last 300 bytes of all that was written. */
  lemma {:induction false} KeepsTheTail(ps: seq<seq<int>>, k: nat)
    ensures Kept(ps, k) == Last(Concat(ps), k)
  {
    if ps != [] {
      KeepsTheTail(ps[..|ps| - 1], k);
      LastOfLast(Concat(ps[..|ps| - 1]), ps[|ps| - 1], k);
    }
  }

  /** The same for the buffer itself. */
  method WriteAll(t: TailWriter, ps: seq<seq<int>>)
    requires t.Valid() && t.Contents() == []
    modifies t, t.buf
    ensures t.Valid() && t.Contents() == Last(Concat(ps), 300)
  {
    for i := 0 to |ps|
      invariant t.Valid() && t.Contents() == Kept(ps[..i], TAIL_LIMIT)
    {
      assert ps[..i + 1][..i] == ps[..i];
      var _ := t.Write(ps[i]);
    }
    assert ps[..|ps|] == ps;
    KeepsTheTail(ps, TAIL_LIMIT);
  }
}
