/** A GPU append buffer: a fixed array of slots and a hidden counter. The
    kernel appends at the counter; the CPU resets the counter, copies it out
    (`CopyCount`) and then reads that many slots back (`GetData`). */
module AppendBuffers {

  /** `slots` is the buffer's storage, so `|slots|` is its capacity. */
  datatype AppendBuffer<T> = AppendBuffer(slots: seq<T>, counter: int)

  datatype Option<T> = None | Some(value: T)

  function Capacity<T>(b: AppendBuffer<T>): nat {
    |b.slots|
  }

  /** `SetCounterValue(0)`: only the counter is touched, the old slots stay. */
  function ResetCounter<T>(b: AppendBuffer<T>): (r: AppendBuffer<T>)
    ensures r.slots == b.slots && r.counter == 0
  {
    b.(counter := 0)
  }

  /** One `Append` from the kernel: the element lands in the slot the counter
      names when that slot exists, and the counter moves on either way. */
  function Append<T>(b: AppendBuffer<T>, t: T): (r: AppendBuffer<T>)
    ensures r.counter == b.counter + 1
    ensures |r.slots| == |b.slots|
    ensures forall j :: 0 <= j < |b.slots| && j != b.counter ==> r.slots[j] == b.slots[j]
    ensures 0 <= b.counter < |b.slots| ==> r.slots[b.counter] == t
  {
    if 0 <= b.counter < |b.slots| then b.(slots := b.slots[b.counter := t], counter := b.counter + 1)
    else b.(counter := b.counter + 1)
  }

  /** A whole dispatch: the appends in the order the kernel issued them. */
  function AppendAll<T>(b: AppendBuffer<T>, ts: seq<T>): (r: AppendBuffer<T>)
    ensures r.counter == b.counter + |ts|
    ensures |r.slots| == |b.slots|
  {
    if ts == [] then b else Append(AppendAll(b, ts[..|ts| - 1]), ts[|ts| - 1])
  }

  /** `CopyCount` into a one-element buffer and `GetData` of that element. */
  function GetBufferCount<T>(b: AppendBuffer<T>): int {
    b.counter
  }

  /** `GetData(array, 0, 0, count)` into a fresh array of `count` elements:
      a negative count already fails when the array is allocated, and a count
      past the capacity is rejected by the copy. */
  function Readback<T>(b: AppendBuffer<T>, count: int): (r: Option<seq<T>>)
    ensures r.Some? <==> 0 <= count <= |b.slots|
    ensures r.Some? ==> |r.value| == count
    ensures r.Some? ==> forall j :: 0 <= j < count ==> r.value[j] == b.slots[j]
  {
    if 0 <= count <= |b.slots| then Some(b.slots[..count]) else None
  }

  /** Appends that fit land one after another from the counter on, and the
      slots below the counter keep their contents. */
  lemma {:induction false} AppendAllFills<T>(b: AppendBuffer<T>, ts: seq<T>)
    requires 0 <= b.counter && b.counter + |ts| <= |b.slots|
    ensures var r := AppendAll(b, ts);
            && (forall j :: 0 <= j < |ts| ==> r.slots[b.counter + j] == ts[j])
            && (forall j :: 0 <= j < b.counter ==> r.slots[j] == b.slots[j])
    decreases |ts|
  {
    if ts != [] {
      var n := |ts| - 1;
      var front := AppendAll(b, ts[..n]);
      AppendAllFills(b, ts[..n]);
      assert front.counter == b.counter + n;
      var r := Append(front, ts[n]);
      assert r == AppendAll(b, ts);
      forall j | 0 <= j < |ts|
        ensures r.slots[b.counter + j] == ts[j]
      {
        if j < n {
          assert ts[..n][j] == ts[j];
        }
      }
    }
  }

  /** The build protocol: reset, dispatch, read the count, read that many
      slots. It returns exactly this dispatch's elements, whatever the buffer
      held before, exactly when they fit. */
  lemma {:induction false} ReadbackAfterReset<T>(b: AppendBuffer<T>, ts: seq<T>)
    ensures var d := AppendAll(ResetCounter(b), ts);
            Readback(d, GetBufferCount(d)) == (if |ts| <= Capacity(b) then Some(ts) else None)
  {
    var d := AppendAll(ResetCounter(b), ts);
    if |ts| <= Capacity(b) {
      AppendAllFills(ResetCounter(b), ts);
      var got := Readback(d, GetBufferCount(d));
      assert got.Some?;
      assert got.value == ts;
    }
  }
}
