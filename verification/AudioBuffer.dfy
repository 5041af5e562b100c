/**
 The buffer as the program holds it: a Go slice, that is a window onto a backing array with
 spare room after it. Appending reuses the spare room or moves to a larger array; dropping,
 taking and resetting only move the window. Each method is proved to do to the window's
 contents exactly what the operation on values in `Pacing` does, so bytes left behind in the
 array by earlier operations never come back.
 */
module AudioBuffers {
  import opened Basics
  import opened Pacing

  class AudioBuffer {
    var data: array<byte>
    var off: nat
    var len: nat
    const max: nat
    var dropped: nat

    // History, for the specification only.
    ghost var tape: Tape
    ghost var takes: seq<seq<byte>>

    ghost predicate Valid()
      reads this, data
    {
      && off + len <= data.Length
      && Agrees(max, World())
    }

    ghost function Contents(): Pacer
      reads this, data
      requires off + len <= data.Length
    {
      Pacer(data[off..off + len], dropped)
    }

    ghost function World(): World
      reads this, data
      requires off + len <= data.Length
    {
      Pacing.World(Contents(), tape, takes)
    }

    constructor (max: nat)
      ensures Valid() && fresh(data)
      ensures this.max == max && World() == START
    {
      this.max := max;
      data := new byte[0];
      off, len, dropped := 0, 0, 0;
      tape, takes := Tape([], []), [];
    }

    /** `append(buf, p...)`: in place while there is room, otherwise in a new array of any sufficient size. */
    method Append(p: seq<byte>)
      requires off + len <= data.Length
      modifies this`data, this`off, this`len, data
      ensures data == old(data) || fresh(data)
      ensures off + len <= data.Length
      ensures data[off..off + len] == old(data[off..off + len]) + p
    {
      if len + |p| <= data.Length - off {
        forall i | 0 <= i < |p| {
          data[off + len + i] := p[i];
        }
      } else {
        var slack: nat :| slack >= 0;
        var grown := new byte[len + |p| + slack];
        forall i | 0 <= i < len {
          grown[i] := data[off + i];
        }
        forall i | 0 <= i < |p| {
          grown[len + i] := p[i];
        }
        data, off := grown, 0;
      }
      len := len + |p|;
    }

    /** `buf = buf[over:]` when the cap is exceeded, with the count. */
    method DropOldest()
      requires off + len <= data.Length
      modifies this`off, this`len, this`dropped
      ensures off + len <= data.Length
      ensures Contents() == AfterWrite(max, old(Contents()), [])
    {
      ghost var all := data[off..off + len];
      assert all + [] == all;
      var over := len - max;
      if over > 0 {
        off, len := off + over, len - over;
        dropped := dropped + over;
        assert data[off..off + len] == all[over..];
      }
    }

    /** Both, one after the other. */
    method Store(p: seq<byte>)
      requires off + len <= data.Length
      modifies this`data, this`off, this`len, this`dropped, data
      ensures data == old(data) || fresh(data)
      ensures off + len <= data.Length
      ensures Contents() == AfterWrite(max, old(Contents()), p)
    {
      WriteInTwoSteps(max, Contents(), p);
      Append(p);
      DropOldest();
    }

    method Write(p: seq<byte>) returns (n: nat)
      requires Valid()
      modifies this, data
      ensures Valid() && (data == old(data) || fresh(data))
      ensures World() == Apply(max, 0, old(World()), Op.Write(p))
      ensures n == |p|
    {
      ghost var after := Apply(max, 0, World(), Op.Write(p));
      WriteAgrees(max, 0, World(), p);
      Store(p);
      tape := after.tape;
      assert World() == after;
      n := |p|;
    }

    /** `copy(dst, buf)`, then `buf = buf[n:]`. */
    method CopyOut(dst: array<byte>) returns (n: nat)
      requires off + len <= data.Length && dst != data
      modifies this`off, this`len, dst
      ensures off + len <= data.Length
      ensures n == |Taken(old(Contents()), dst.Length)| && n <= dst.Length
      ensures dst[..n] == Taken(old(Contents()), dst.Length)
      ensures Contents() == AfterTake(old(Contents()), dst.Length)
    {
      n := if dst.Length < len then dst.Length else len;
      forall i | 0 <= i < n {
        dst[i] := data[off + i];
      }
      off, len := off + n, len - n;
    }

    /** Silence from position `n` to the end. */
    static method FillUp(dst: array<byte>, n: nat, silence: byte)
      requires n <= dst.Length
      modifies dst
      ensures dst[..] == Frame(old(dst[..n]), dst.Length, silence)
    {
      for i := n to dst.Length
        invariant dst[..n] == old(dst[..n])
        invariant forall k :: n <= k < i ==> dst[k] == silence
      {
        dst[i] := silence;
      }
    }

    /** Both, one after the other: audio, then silence. */
    method Fill(dst: array<byte>, silence: byte) returns (n: nat)
      requires off + len <= data.Length && dst != data
      modifies this`off, this`len, dst
      ensures off + len <= data.Length
      ensures n == |Taken(old(Contents()), dst.Length)|
      ensures dst[..] == Frame(Taken(old(Contents()), dst.Length), dst.Length, silence)
      ensures Contents() == AfterTake(old(Contents()), dst.Length)
    {
      n := CopyOut(dst);
      FillUp(dst, n, silence);
    }

    /** Fill `dst`, an array of the caller's own, with buffered audio and then silence. */
    method Take(dst: array<byte>, silence: byte) returns (n: nat)
      requires Valid() && dst != data
      modifies this, dst
      ensures Valid() && data == old(data)
      ensures World() == Apply(max, dst.Length, old(World()), Tick)
      ensures n == |Taken(old(Contents()), dst.Length)|
      ensures dst[..] == Frame(Taken(old(Contents()), dst.Length), dst.Length, silence)
    {
      ghost var after := Apply(max, dst.Length, World(), Tick);
      TickAgrees(max, dst.Length, World());
      n := Fill(dst, silence);
      tape, takes := after.tape, after.takes;
      assert World() == after;
    }

    method Reset()
      requires Valid()
      modifies this
      ensures Valid() && data == old(data)
      ensures World() == Apply(max, 0, old(World()), Flush)
    {
      ghost var before := World();
      tape := Settle(tape, Fate.Flushed, len);
      len := 0;
      FlushAgrees(max, 0, before);
    }

    method Len() returns (n: nat)
      requires Valid()
      ensures n == |Contents().pending| && n <= max
    {
      n := len;
    }

    /** Bytes lost to overflow over the whole call: exactly those the ledger marks as dropped. */
    method Dropped() returns (n: nat)
      requires Valid()
      ensures n == Contents().dropped == Count(tape.settled, Fate.Dropped)
    {
      n := dropped;
    }
  }
}
