/** How httperf sends a request: the fragments of the request are given to writev, and after a
    partial write the fragment in which it stopped is shortened, with its original saved aside. */
module RequestWriter {

  /** IE_LEN: the elements of a request, with 4 places for additional headers. */
  const IE_LEN: nat := 13

  /** An iovec: `len` bytes of some memory, from `base` on. */
  datatype IoVec = IoVec(memory: string, base: nat, len: nat)

  predicate InMemory(v: IoVec) {
    v.base + v.len <= |v.memory|
  }

  function Bytes(v: IoVec): string
    requires InMemory(v)
  {
    v.memory[v.base..v.base + v.len]
  }

  predicate AllInMemory(vs: seq<IoVec>) {
    forall i :: 0 <= i < |vs| ==> InMemory(vs[i])
  }

  function Concat(vs: seq<IoVec>): string
    requires AllInMemory(vs)
  {
    if |vs| == 0 then "" else Bytes(vs[0]) + Concat(vs[1..])
  }

  /** A fragment without its first n bytes. */
  function Shortened(v: IoVec, n: nat): IoVec
    requires n <= v.len
  {
    v.(base := v.base + n, len := v.len - n)
  }

  class Request {
    const iov: array<IoVec>
    var iovIndex: nat
    var iovSaved: IoVec
    var size: nat
    /** What has gone over the wire since the request was queued. */
    ghost var wire: string
    /** The fragments as they were then. */
    ghost var original: seq<IoVec>
    /** How much of the current fragment has gone. */
    ghost var gone: nat

    ghost predicate Valid()
      reads this, iov
    {
      && iov.Length == |original| == IE_LEN && iovIndex <= IE_LEN && AllInMemory(original)
      && (forall i :: 0 <= i < IE_LEN && i != iovIndex ==> iov[i] == original[i])
      && (iovIndex < IE_LEN ==>
            iovSaved == original[iovIndex] && InMemory(iov[iovIndex])
            && gone <= original[iovIndex].len && iov[iovIndex] == Shortened(original[iovIndex], gone))
    }

    /** What is left to send. */
    function Rest(): string
      requires Valid()
      reads this, iov
    {
      Concat(iov[iovIndex..])
    }

    constructor (fragments: seq<IoVec>)
      requires |fragments| == IE_LEN && AllInMemory(fragments)
      ensures iov[..] == fragments && iov.Length == IE_LEN && fresh(iov)
    {
      iov := new IoVec[IE_LEN](i requires 0 <= i < IE_LEN => fragments[i]);
      iovIndex, iovSaved, size := 0, fragments[0], 0;
      wire, original, gone := "", fragments, 0;
    }

    /** The part of core_send that makes a request ready to be sent. */
    method Prepare()
      requires iov.Length == IE_LEN && AllInMemory(iov[..])
      modifies this
      ensures Valid() && original == iov[..] && wire == "" && size == 0 && Rest() == Concat(original)
    {
      iovIndex := 0;
      iovSaved := iov[0];
      wire, original, gone, size := "", iov[..], 0, 0;
      assert iov[0..] == iov[..];
    }

    /** The last writev ended inside the current fragment. */
    method Shorten(nsent: nat)
      requires Valid() && iovIndex < IE_LEN && nsent < iov[iovIndex].len
      modifies this`gone, iov
      ensures Valid() && Rest() == old(Rest())[nsent..] && Rest() != "" && iovIndex < IE_LEN
    {
      var before := iov[iovIndex];
      Unfold(iov[iovIndex..]);
      iov[iovIndex] := IoVec(before.memory, before.base + nsent, before.len - nsent);
      gone := gone + nsent;
      Unfold(iov[iovIndex..]);
      assert iov[iovIndex + 1..] == old(iov[iovIndex + 1..]);
      assert iov[iovIndex..][1..] == iov[iovIndex + 1..] && old(iov[iovIndex..])[1..] == old(iov[iovIndex + 1..]);
      assert Bytes(iov[iovIndex]) == Bytes(before)[nsent..];
    }

    /** The current fragment has been sent: its original is put back. */
    method Finish()
      requires Valid() && iovIndex < IE_LEN
      modifies this`iovIndex, this`iovSaved, this`gone, iov
      ensures Valid() && iovIndex == old(iovIndex) + 1 && Rest() == Concat(old(iov[iovIndex + 1..]))
    {
      iov[iovIndex] := iovSaved;
      iovIndex := iovIndex + 1;
      if iovIndex < IE_LEN {
        iovSaved := iov[iovIndex];
        gone := 0;
      }
      assert iov[iovIndex..] == old(iov[iovIndex + 1..]);
    }

    /** The part of do_send that follows a writev which has sent `nsent` bytes. */
    method Advance(nsent: nat) returns (done: bool)
      requires Valid() && nsent <= |Rest()|
      modifies this, iov
      ensures Valid() && original == old(original) && size == old(size) + nsent
      ensures wire == old(wire) + old(Rest())[..nsent] && Rest() == old(Rest())[nsent..]
      ensures done == (iovIndex == IE_LEN) == (nsent == |old(Rest())|)
    {
      var left := nsent;
      size := size + nsent;
      ghost var rest := Rest();
      wire := wire + rest[..nsent];
      while iovIndex < IE_LEN
        invariant Valid() && original == old(original) && size == old(size) + nsent && wire == old(wire) + rest[..nsent]
        invariant 0 <= left <= |Rest()| && rest[nsent..] == Rest()[left..]
        invariant iovIndex == IE_LEN ==> left == 0
        decreases IE_LEN - iovIndex
      {
        SplitRest();
        if left < iov[iovIndex].len {
          Shorten(left);
          return false;
        }
        DropPast(Bytes(iov[iovIndex]), Concat(iov[iovIndex + 1..]), left);
        left := left - iov[iovIndex].len;
        Finish();
      }
      done := true;
    }

    lemma SplitRest()
      requires Valid() && iovIndex < IE_LEN
      ensures AllInMemory(iov[iovIndex + 1..]) && Rest() == Bytes(iov[iovIndex]) + Concat(iov[iovIndex + 1..])
      ensures |Bytes(iov[iovIndex])| == iov[iovIndex].len
    {
      Unfold(iov[iovIndex..]);
      assert iov[iovIndex..][1..] == iov[iovIndex + 1..];
    }

    /** What has been sent is a prefix of the request, and the rest is still to be sent. */
    ghost predicate Sending()
      reads this, iov
    {
      Valid() && wire + Rest() == Concat(original)
    }

    /** When everything has been sent, the fragments are as they were. */
    lemma Restored()
      requires Sending() && iovIndex == IE_LEN
      ensures wire == Concat(original) && iov[..] == original
    {
      assert iov[IE_LEN..] == [];
    }

    /** One step of do_send: the socket takes as much as it has room for. */
    method Write(room: nat) returns (done: bool)
      requires Sending()
      modifies this, iov
      ensures Sending() && original == old(original) && (done ==> iovIndex == IE_LEN)
      ensures |wire| == Min(old(|wire|) + room, |Concat(original)|) && (done <==> |wire| == |Concat(original)|)
    {
      var nsent := Min(room, |Rest()|);
      ghost var rest := Rest();
      assert wire + rest[..nsent] + rest[nsent..] == wire + rest;
      done := Advance(nsent);
    }

    /** The steps of do_send for one request, as long as it is at the head of the queue: `room` is
        how much the socket takes at each of them; no room means that it is not ready. */
    method Send(room: seq<nat>) returns (done: bool)
      requires Sending()
      modifies this, iov
      ensures Sending() && original == old(original)
      ensures done ==> wire == Concat(original) && iov[..] == original
      ensures room != [] ==> (done <==> old(|wire|) + Sum(room) >= |Concat(original)|)
      ensures |wire| == Min(old(|wire|) + Sum(room), |Concat(original)|)
    {
      ghost var start, total := |wire|, |Concat(original)|;
      var i := 0;
      done := false;
      assert start <= total;
      while i < |room| && !done
        invariant i <= |room| && Sending() && original == old(original) && (done ==> iovIndex == IE_LEN)
        invariant |wire| == Min(start + Sum(room[..i]), total) && (i > 0 ==> (done <==> |wire| == total))
      {
        assert room[..i + 1][..i] == room[..i];
        done := Write(room[i]);
        i := i + 1;
      }
      SumPrefix(room, i);
      assert room[..|room|] == room;
      if done {
        Restored();
      }
    }
  }

  function Min(a: nat, b: nat): nat {
    if a < b then a else b
  }

  function Sum(s: seq<nat>): nat {
    if |s| == 0 then 0 else Sum(s[..|s| - 1]) + s[|s| - 1]
  }

  lemma {:induction false} SumPrefix(s: seq<nat>, n: nat)
    requires n <= |s|
    ensures Sum(s[..n]) <= Sum(s)
    decreases |s|
  {
    if n < |s| {
      SumPrefix(s[..|s| - 1], n);
      assert s[..|s| - 1][..n] == s[..n];
    } else {
      assert s[..n] == s;
    }
  }

  lemma DropPast(a: string, b: string, n: nat)
    requires |a| <= n <= |a + b|
    ensures (a + b)[n..] == b[n - |a|..]
  {
  }

  lemma Unfold(vs: seq<IoVec>)
    requires AllInMemory(vs) && |vs| > 0
    ensures Concat(vs) == Bytes(vs[0]) + Concat(vs[1..]) && |Bytes(vs[0])| == vs[0].len
  {
  }
}
