/** The vector as the code of src/common/twi_ts_vector.c:135-163, 190-209 and 335-365, with the array in place. */
module TsVectorCode {
  import opened TsVector

  /** The growth loop stops at the first capacity that suffices. */
  lemma {:induction false} CapacityTight(n: nat, need: nat)
    requires n > 0
    ensures n >= need ==> Capacity(n, need) == n
    ensures n < need ==> need <= Capacity(n, need) < ALLOC_MULTIPLIER * need
    decreases need - n
  {
    if n < need { CapacityTight(n * ALLOC_MULTIPLIER, need); }
  }

  class Vector {
    var size: nat
    var nalloc: nat
    var data: array<nat>

    ghost predicate Valid()
      reads this, data
    {
      0 < nalloc == data.Length && size <= nalloc
    }

    ghost function Contents(): seq<nat>
      requires Valid()
      reads this, data
    {
      data[..size]
    }

    constructor ()
      ensures Valid() && fresh(data) && Contents() == [] && nalloc == INIT_SIZE
    {
      size, nalloc := 0, INIT_SIZE;
      data := new nat[INIT_SIZE];
    }

    /** Moves the contents to a buffer that holds at least `need` items. */
    method Expand(need: nat)
      requires 0 < nalloc == data.Length
      modifies this`nalloc, this`data
      ensures nalloc == data.Length == Capacity(old(nalloc), need) && fresh(data)
      ensures data[..old(nalloc)] == old(data[..])
    {
      var newSize := nalloc;
      while newSize < need
        invariant newSize >= nalloc && Capacity(nalloc, need) == Capacity(newSize, need)
        decreases need - newSize
      {
        newSize := newSize * ALLOC_MULTIPLIER;
      }
      var bigger := new nat[newSize];
      var i := 0;
      while i < nalloc
        invariant i <= nalloc && nalloc == old(nalloc) && data == old(data) && bigger.Length == newSize
        invariant bigger[..i] == data[..i] && data[..] == old(data[..])
      {
        bigger[i] := data[i];
        i := i + 1;
      }
      data := bigger;
      nalloc := newSize;
    }

    /** Appends at the end; what was there stays. */
    method PushBack(x: nat)
      requires Valid()
      modifies this, data
      ensures Valid() && (data == old(data) || fresh(data))
      ensures Contents() == old(Contents()) + [x]
      ensures nalloc == Capacity(old(nalloc), old(size) + 1)
    {
      var idx := size;
      size := size + 1;
      if idx >= nalloc {
        Expand(idx + 1);
      }
      data[idx] := x;
    }

    /** Pushing a list appends it, however often the buffer has to grow. */
    method PushAll(xs: seq<nat>)
      requires Valid()
      modifies this, data
      ensures Valid() && (data == old(data) || fresh(data))
      ensures Contents() == old(Contents()) + xs
    {
      var i := 0;
      while i < |xs|
        invariant i <= |xs| && Valid() && (data == old(data) || fresh(data))
        invariant Contents() == old(Contents()) + xs[..i]
      {
        PushBack(xs[i]);
        assert xs[..i + 1] == xs[..i] + [xs[i]];
        i := i + 1;
      }
      assert xs[..i] == xs;
    }
  }
}
