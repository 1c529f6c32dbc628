/** The in-order release loop shared by the MVBA and VABA commit buffers:
    starting at the next expected epoch, release the buffered entry for each
    consecutive epoch, delete it and advance, until an epoch is missing. */
module InOrder {

  datatype Flushed<B> = Flushed(out: seq<B>, rest: map<int, B>, next: int)

  function Flush<B>(buf: map<int, B>, idx: int): (f: Flushed<B>)
    decreases |buf|
  {
    if idx in buf then
      var f := Flush(buf - {idx}, idx + 1);
      Flushed([buf[idx]] + f.out, f.rest, f.next)
    else Flushed([], buf, idx)
  }

  /** The j-th released entry is the one buffered for epoch idx + j. */
  ghost predicate Released<B>(buf: map<int, B>, idx: int, out: seq<B>, j: int)
    requires 0 <= j < |out|
  {
    idx + j in buf && out[j] == buf[idx + j]
  }

  /** The released entries are those of epochs idx, idx+1, ... in order, the index
      advances by their number and stops at the first missing epoch, and exactly
      the released epochs are deleted. */
  lemma {:induction false} FlushSpec<B>(buf: map<int, B>, idx: int)
    ensures Flush(buf, idx).next == idx + |Flush(buf, idx).out|
    ensures forall j :: 0 <= j < |Flush(buf, idx).out| ==> Released(buf, idx, Flush(buf, idx).out, j)
    ensures Flush(buf, idx).next !in buf
    ensures forall e :: e in Flush(buf, idx).rest <==> e in buf && !(idx <= e < Flush(buf, idx).next)
    ensures forall e :: e in Flush(buf, idx).rest ==> Flush(buf, idx).rest[e] == buf[e]
    decreases |buf|
  {
    if idx in buf {
      var f' := Flush(buf - {idx}, idx + 1);
      FlushSpec(buf - {idx}, idx + 1);
      var f := Flush(buf, idx);
      assert f.out == [buf[idx]] + f'.out;
      forall j | 0 <= j < |f.out|
        ensures Released(buf, idx, f.out, j)
      {
        if j > 0 {
          assert Released(buf - {idx}, idx + 1, f'.out, j - 1);
          assert f.out[j] == f'.out[j - 1];
        }
      }
      assert forall j :: 0 <= j < |f.out| ==> Released(buf, idx, f.out, j);
    }
  }

  /** If every buffered epoch is at least the index, every epoch left after a
      flush is beyond the new index, and the index never decreases. */
  lemma FlushKeepsAhead<B>(buf: map<int, B>, idx: int)
    requires forall e :: e in buf ==> e >= idx
    ensures var f := Flush(buf, idx);
      f.next >= idx && forall e :: e in f.rest ==> e > f.next
  {
    FlushSpec(buf, idx);
  }

  /** Entries released by one flush never reappear: flushing the remainder at the
      new index releases nothing. */
  lemma FlushIdempotent<B>(buf: map<int, B>, idx: int)
    ensures var f := Flush(buf, idx);
      Flush(f.rest, f.next) == Flushed([], f.rest, f.next)
  {
    FlushSpec(buf, idx);
  }

  /** Buffering an entry at `epoch` (overwriting any earlier one) and flushing from
      `idx`: when `epoch` is the next expected one, it is released first and the index
      moves; when it lies ahead, nothing is released and the buffer is the update. */
  lemma InsertThenFlush<B>(buf: map<int, B>, idx: int, epoch: int, b: B)
    requires forall e :: e in buf ==> e > idx
    requires epoch >= idx
    ensures var f := Flush(buf[epoch := b], idx);
      && f.next == idx + |f.out|
      && (forall e :: e in f.rest ==> e > f.next)
      && (epoch == idx ==> |f.out| >= 1 && f.out[0] == b && f.next > idx)
      && (epoch > idx ==> f.out == [] && f.rest == buf[epoch := b] && f.next == idx)
  {
    var m := buf[epoch := b];
    FlushSpec(m, idx);
    FlushKeepsAhead(m, idx);
    var f := Flush(m, idx);
    if epoch > idx {
      assert idx !in m;
    } else {
      assert idx in m;
      assert Released(m, idx, f.out, 0);
    }
  }
}
