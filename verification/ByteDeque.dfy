/**
 The backlog as it is kept: a ring (`VecDeque<u8>`), and `drain_pass`'s inner
 loop on it (crates/ax25-interpose/src/state.rs). The loop offers the ring's
 first slice only, so a wrapped backlog goes out in two pieces; it refines popping
 bytes off the front of a sequence.
 */
module ByteDeque {
  import opened Bytes
  import opened RecvSpec
  import opened RecvPump

  lemma NothingWentOut(was: seq<byte>, wire: seq<byte>)
    ensures WentOut(was, was, wire, wire)
  {
    assert wire[|wire|..] + was == was;
  }

  class Ring {
    var data: array<byte>
    var head: nat
    var len: nat

    ghost predicate Valid()
      reads this
    {
      len <= data.Length && (head < data.Length || head == data.Length == 0)
    }

    /** The bytes in order, across the wrap. */
    ghost function Contents(): (s: seq<byte>)
      requires Valid()
      reads this, data
      ensures |s| == len
    {
      if head + len <= data.Length then data[head..head + len]
      else data[head..] + data[..head + len - data.Length]
    }

    constructor ()
      ensures Valid() && Contents() == [] && fresh(data)
    {
      data := new byte[0];
      head, len := 0, 0;
    }

    /** `as_slices().0`: the part of the contents before the wrap. */
    method FirstSlice() returns (s: seq<byte>)
      requires Valid()
      ensures s <= Contents()
      ensures Contents() != [] ==> s != []
    {
      s := if head + len <= data.Length then data[head..head + len] else data[head..];
    }

    /** `drain(..n)`: forgets the first `n` bytes. */
    method DropFront(n: nat)
      requires Valid() && n <= |Contents()|
      modifies this`head, this`len
      ensures Valid() && Contents() == old(Contents())[n..]
    {
      head := if head + n < data.Length then head + n
              else if head + n == data.Length then 0
              else head + n - data.Length;
      len := len - n;
    }

    /** Makes room for `more` further bytes, unwrapping the ring if it has to grow. */
    method Reserve(more: nat)
      requires Valid()
      modifies this`data, this`head
      ensures Valid() && Contents() == old(Contents())
      ensures data == old(data) || fresh(data)
      ensures len + more <= data.Length
    {
      if len + more <= data.Length {
        return;
      }
      var bigger := new byte[len + more + data.Length];
      ghost var was := Contents();
      var first := if head + len <= data.Length then len else data.Length - head;
      var i := 0;
      while i < len
        invariant i <= len && bigger.Length == len + more + data.Length && fresh(bigger)
        invariant Valid() && Contents() == was && data == old(data) && head == old(head)
        invariant bigger[..i] == was[..i]
      {
        bigger[i] := if i < first then data[head + i] else data[i - first];
        assert bigger[i] == was[i];
        i := i + 1;
      }
      data, head := bigger, 0;
    }

    /** `push_back`, given room. */
    method PushBack(b: byte)
      requires Valid() && len < data.Length
      modifies this`len, data
      ensures Valid() && Contents() == old(Contents()) + [b]
    {
      var at := if head + len < data.Length then head + len else head + len - data.Length;
      data[at] := b;
      len := len + 1;
    }

    /** `extend`: appends `more`, growing as needed. */
    method Extend(more: seq<byte>)
      requires Valid()
      modifies this, data
      ensures Valid() && Contents() == old(Contents()) + more
      ensures data == old(data) || fresh(data)
    {
      hide Contents;
      Reserve(|more|);
      ghost var was := Contents();
      assert was + more[..0] == was;
      var i := 0;
      while i < |more|
        invariant i <= |more| && Valid() && Contents() == was + more[..i]
        invariant len + (|more| - i) <= data.Length
        invariant data == old(data) || fresh(data)
      {
        PushBack(more[i]);
        assert was + more[..i + 1] == was + more[..i] + [more[i]];
        i := i + 1;
      }
      assert more[..|more|] == more;
    }

    /** One turn: offer the first slice, drop what the kernel took of it. */
    method OfferFront(k: Sockets, fd: Fd) returns (o: WriteOutcome, ghost moved: seq<byte>)
      requires Valid() && len > 0
      modifies this`head, this`len, k`wire, k`answers
      ensures Valid()
      ensures old(Contents()) == moved + Contents()
      ensures moved != [] <==> o.Wrote?
      ensures k.answers == old(k.answers)[fd := o]
      ensures OnWire(k.wire, fd) == old(OnWire(k.wire, fd)) + moved
      ensures forall f | f != fd :: OnWire(k.wire, f) == old(OnWire(k.wire, f))
    {
      var front := FirstSlice();
      o := k.NbWrite(fd, front);
      moved := Taken(o, front);
      if o.Wrote? {
        DropFront(o.n);
      }
    }

    /**
     `drain_pass`'s inner loop for one entry: what leaves the ring is what reached
     the socket. It terminates because the first slice of a non-empty ring is
     non-empty, so the kernel never answers `Wrote(0)`.
     */
    method DrainInto(k: Sockets, fd: Fd) returns (fatal: bool)
      requires Valid()
      modifies this`head, this`len, k`wire, k`answers
      ensures Valid()
      ensures WentOut(old(Contents()), Contents(), old(OnWire(k.wire, fd)), OnWire(k.wire, fd))
      ensures forall f | f != fd :: OnWire(k.wire, f) == old(OnWire(k.wire, f))
      ensures fatal ==> Contents() != [] && AnswerOn(k.answers, fd) == Some(Fatal)
      ensures !fatal && Contents() != [] ==> AnswerOn(k.answers, fd) == Some(WouldBlock)
    {
      fatal := false;
      ghost var was, w0 := Contents(), OnWire(k.wire, fd);
      NothingWentOut(was, w0);
      hide WentOut, OnWire;
      while len > 0
        invariant Valid() && WentOut(was, Contents(), w0, OnWire(k.wire, fd))
        invariant forall f | f != fd :: OnWire(k.wire, f) == old(OnWire(k.wire, f))
        decreases len
      {
        ghost var mid, w1 := Contents(), OnWire(k.wire, fd);
        var o, moved := OfferFront(k, fd);
        WentOutTwice(was, mid, Contents(), moved, w0, w1);
        if !o.Wrote? {
          fatal := o.Fatal?;
          break;
        }
      }
    }
  }
}
