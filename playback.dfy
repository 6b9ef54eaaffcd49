/**
 * The output callback the stream runs on every device block: it walks the
 * block in frames of `channels` slots and fills each slot with the next
 * popped sample, or with silence once the buffer is empty.
 */
module Playback {
  import opened Wrappers
  import opened SampleQueue

  /**
   * One invocation of the callback on block `out`. Splitting the block into
   * frames of zero slots panics before anything is popped or written;
   * that outcome is `ok == false`.
   */
  method FillBlock(q: Queue, out: array<real>, channels: nat) returns (ok: bool)
    requires q.Valid() && out != q.slots
    modifies q, out
    ensures q.Valid()
    ensures ok <==> channels > 0
    ensures ok ==> out[..] == Block(old(q.Contents), out.Length)
    ensures ok ==> q.Contents == old(q.Contents)[Min(out.Length, |old(q.Contents)|)..]
    ensures !ok ==> out[..] == old(out[..]) && q.Contents == old(q.Contents)
  {
    if channels == 0 {
      return false;
    }
    ok := true;
    ghost var q0 := q.Contents;
    var c := 0;
    while c < out.Length
      invariant c <= out.Length
      invariant q.Valid()
      invariant forall i :: 0 <= i < c ==> out[i] == SlotValue(q0, i)
      invariant q.Contents == q0[Min(c, |q0|)..]
      decreases out.Length - c
    {
      // one frame: `channels` slots, fewer in a short last frame
      var frameEnd := Min(c + channels, out.Length);
      FillFrame(q, out, c, frameEnd, q0);
      c := frameEnd;
    }
    assert out[..] == Block(q0, out.Length);
  }

  /**
   * Fills slots `lo` up to `hi` of one frame in order, each with the next
   * popped sample or 0.0, continuing the block that started on queue `q0`.
   */
  method FillFrame(q: Queue, out: array<real>, lo: nat, hi: nat, ghost q0: seq<real>)
    requires lo <= hi <= out.Length
    requires q.Valid() && out != q.slots
    requires q.Contents == q0[Min(lo, |q0|)..]
    modifies q, out
    ensures q.Valid()
    ensures forall i :: 0 <= i < lo ==> out[i] == old(out[i])
    ensures forall i :: lo <= i < hi ==> out[i] == SlotValue(q0, i)
    ensures forall i :: hi <= i < out.Length ==> out[i] == old(out[i])
    ensures q.Contents == q0[Min(hi, |q0|)..]
  {
    var k := lo;
    while k < hi
      invariant lo <= k <= hi
      invariant q.Valid()
      invariant forall i :: lo <= i < k ==> out[i] == SlotValue(q0, i)
      invariant forall i :: 0 <= i < out.Length && !(lo <= i < k) ==> out[i] == old(out[i])
      invariant q.Contents == q0[Min(k, |q0|)..]
      decreases hi - k
    {
      PopAdvances(q0, k, q.Contents);
      var v := NextSample(q);
      out[k] := v;
      k := k + 1;
    }
  }

  /** One slot's value: the popped sample, or the default 0.0 when the buffer is empty. */
  method NextSample(q: Queue) returns (v: real)
    requires q.Valid()
    modifies q
    ensures q.Valid()
    ensures old(q.Contents) == [] ==> v == 0.0 && q.Contents == []
    ensures old(q.Contents) != [] ==> v == old(q.Contents)[0] && q.Contents == old(q.Contents)[1..]
  {
    var x := q.Pop();
    v := match x case Some(y) => y case None => 0.0;
  }

  /** What is left of a block's queue after k pops, and what the next pop yields. */
  lemma PopAdvances(q0: seq<real>, k: nat, rest: seq<real>)
    requires rest == q0[Min(k, |q0|)..]
    ensures rest == [] ==> SlotValue(q0, k) == 0.0 && rest == q0[Min(k + 1, |q0|)..]
    ensures rest != [] ==> SlotValue(q0, k) == rest[0] && rest[1..] == q0[Min(k + 1, |q0|)..]
  {
  }
}
