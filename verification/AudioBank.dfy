/** The bank that cuts a stream of audio packages of any size into chunks of one buffer. */
module AudioBank {
  import opened Basics
  datatype Contents = Contents(store: seq<seq<int>>, item: seq<int>)

  datatype Op = Load(data: seq<int>) | Grab

  /** Loading into a bank with buffers of `size` bytes. */
  function Loaded(c: Contents, size: nat, data: seq<int>): Contents
    requires |c.item| <= size
  {
    if |data| > size then c
    else if c.item == [] then c.(item := data)
    else
      var n := Min(size - |c.item|, |data|);
      var full := c.item + data[..n];
      Released(if n < |data| then Contents(c.store + [full], data[n..]) else c.(item := full), size)
  }

  /** A full item becomes a chunk. */
  function Released(c: Contents, size: nat): Contents {
    if |c.item| == size then Contents(c.store + [c.item], []) else c
  }

  function Grabbed(c: Contents): (seq<int>, Contents) {
    if c.store == [] then ([], c) else (c.store[0], c.(store := c.store[1..]))
  }

  class AudioBank {
    const size: nat
    var store: seq<seq<int>>
    var item: seq<int>

    ghost predicate Valid()
      reads this
    {
      |item| <= size
    }

    function Now(): Contents
      reads this
    {
      Contents(store, item)
    }

    constructor (size: nat)
      ensures Valid() && this.size == size && Now() == Contents([], [])
    {
      this.size, store, item := size, [], [];
    }

    method Load(data: seq<int>)
      requires Valid()
      modifies this
      ensures Valid() && Now() == Loaded(old(Now()), size, data)
    {
      if |data| > size {
        return;
      }
      if item == [] {
        item := data;
        return;
      }
      var index := CopyData(data, 0);
      assert data[0..index] == data[..index];
      if index < |data| {
        store := store + [item];
        item := [];
        index := CopyData(data, index);
        assert item == data[Min(size - |old(item)|, |data|)..];
      }
      if |item| == size {
        store := store + [item];
        item := [];
      }
    }

    /** Fills the item up to the buffer size and tells where it stopped. */
    method CopyData(data: seq<int>, start: nat) returns (index: nat)
      requires Valid() && start <= |data|
      modifies this`item
      ensures Valid() && index == start + Min(size - |old(item)|, |data| - start)
      ensures item == old(item) + data[start..index]
    {
      index := start;
      while |item| < size
        invariant start <= index <= |data| && |item| <= size
        invariant item == old(item) + data[start..index]
      {
        if index >= |data| {
          break;
        }
        item := item + [data[index]];
        index := index + 1;
      }
    }

    /** The oldest chunk, or nothing when there is none. */
    method Grab() returns (data: seq<int>)
      requires Valid()
      modifies this`store
      ensures Valid() && (data, Now()) == Grabbed(old(Now()))
    {
      if store == [] {
        return [];
      }
      data := store[0];
      store := store[1..];
    }
  }

  // ----- Sequences of calls

  function Concat(chunks: seq<seq<int>>): seq<int> {
    if chunks == [] then [] else chunks[0] + Concat(chunks[1..])
  }

  lemma {:induction false} ConcatSnoc(chunks: seq<seq<int>>, c: seq<int>)
    ensures Concat(chunks + [c]) == Concat(chunks) + c
  {
    if chunks == [] {
      assert [c][1..] == [];
    } else {
      ConcatSnoc(chunks[1..], c);
      assert (chunks + [c])[1..] == chunks[1..] + [c];
    }
  }

  /** What the calls leave in the bank and what the grabs among them returned. */
  function Run(size: nat, ops: seq<Op>): (r: (Contents, seq<seq<int>>))
    ensures |r.0.item| <= size
  {
    if ops == [] then (Contents([], []), [])
    else
      var (c, out) := Run(size, ops[..|ops| - 1]);
      match ops[|ops| - 1]
      case Load(data) => (Loaded(c, size, data), out)
      case Grab => (Grabbed(c).1, out + [Grabbed(c).0])
  }

  /** The bytes of all packages that fit a buffer. */
  function Accepted(size: nat, ops: seq<Op>): seq<int> {
    if ops == [] then []
    else
      Accepted(size, ops[..|ops| - 1])
      + match ops[|ops| - 1]
        case Load(data) => if |data| <= size then data else []
        case Grab => []
  }

  predicate WholeChunks(chunks: seq<seq<int>>, size: nat) {
    forall i :: 0 <= i < |chunks| ==> |chunks[i]| == size
  }

  /** The bytes of the bank, in order. */
  function Held(c: Contents): seq<int> { Concat(c.store) + c.item }

  lemma ReleasedKeeps(c: Contents, size: nat)
    requires |c.item| <= size && WholeChunks(c.store, size)
    ensures Held(Released(c, size)) == Held(c)
    ensures WholeChunks(Released(c, size).store, size)
  {
    ConcatSnoc(c.store, c.item);
  }

  lemma LoadedKeeps(c: Contents, size: nat, data: seq<int>)
    requires |c.item| <= size && WholeChunks(c.store, size) && |data| <= size
    ensures Held(Loaded(c, size, data)) == Held(c) + data
    ensures WholeChunks(Loaded(c, size, data).store, size)
  {
    hide Concat, Released;
    if c.item != [] {
      var n := Min(size - |c.item|, |data|);
      var full := c.item + data[..n];
      var next := if n < |data| then Contents(c.store + [full], data[n..]) else c.(item := full);
      if n < |data| {
        ConcatSnoc(c.store, full);
      }
      assert data[..n] + data[n..] == data;
      assert Held(next) == Held(c) + data;
      ReleasedKeeps(next, size);
    }
  }

  lemma GrabbedKeeps(c: Contents, size: nat)
    requires WholeChunks(c.store, size)
    ensures Grabbed(c).0 + Held(Grabbed(c).1) == Held(c)
    ensures WholeChunks(Grabbed(c).1.store, size) && (c.store != [] ==> |Grabbed(c).0| == size)
  {
    if c.store != [] {
      assert c.store[0] + (Concat(c.store[1..]) + c.item) == Concat(c.store) + c.item;
    }
  }

  /** No byte of an accepted package is lost, repeated or moved, and every chunk is a whole
      buffer. */
  lemma {:induction false} Rechunks(size: nat, ops: seq<Op>)
    ensures var (c, out) := Run(size, ops);
            && Concat(out) + Concat(c.store) + c.item == Accepted(size, ops)
            && |c.item| <= size && WholeChunks(c.store, size)
            && forall i :: 0 <= i < |out| ==> out[i] == [] || |out[i]| == size
  {
    hide Loaded, Grabbed, Concat, WholeChunks;
    if ops == [] {
      NothingYet(size);
    } else {
      var k := |ops| - 1;
      var (c, out) := Run(size, ops[..k]);
      Rechunks(size, ops[..k]);
      assert Concat(out) + Held(c) == Accepted(size, ops[..k]);
      match ops[k] {
        case Load(data) =>
          if |data| <= size {
            LoadedKeeps(c, size, data);
            assert Concat(out) + (Held(c) + data) == Concat(out) + Held(c) + data;
          } else {
            TooLarge(c, size, data);
          }
        case Grab =>
          ConcatSnoc(out, Grabbed(c).0);
          GrabbedKeeps(c, size);
          NoChunk(c);
          assert Concat(out) + Grabbed(c).0 + Held(Grabbed(c).1) == Concat(out) + (Grabbed(c).0 + Held(Grabbed(c).1));
      }
      assert Concat(Run(size, ops).1) + Held(Run(size, ops).0) == Accepted(size, ops);
    }
  }

  lemma NothingYet(size: nat)
    ensures Concat([]) == [] && WholeChunks([], size)
  {
  }

  lemma NoChunk(c: Contents)
    ensures c.store == [] ==> Grabbed(c).0 == []
  {
  }

  lemma TooLarge(c: Contents, size: nat, data: seq<int>)
    requires |c.item| <= size < |data|
    ensures Loaded(c, size, data) == c
  {
  }

  lemma {:induction false} ChunkBytes(chunks: seq<seq<int>>, size: nat)
    requires WholeChunks(chunks, size)
    ensures |Concat(chunks)| == |chunks| * size
  {
    if chunks != [] {
      assert WholeChunks(chunks[1..], size);
      ChunkBytes(chunks[1..], size);
      assert |chunks| * size == size + (|chunks| - 1) * size;
    }
  }

  /** Is the last package that reached the bank a whole buffer, which found it without a part of
      one?  Such a package is kept back until the next one. */
  predicate KeptBack(size: nat, ops: seq<Op>)
    requires size > 0
  {
    if ops == [] then false
    else
      var before := ops[..|ops| - 1];
      match ops[|ops| - 1]
      case Grab => KeptBack(size, before)
      case Load(data) =>
        if |data| > size then KeptBack(size, before)
        else |data| == size && |Accepted(size, before)| % size == 0 && !KeptBack(size, before)
  }

  /** The item is a whole buffer exactly when the last package was kept back. */
  lemma {:induction false} ItemIsKeptBack(size: nat, ops: seq<Op>)
    requires size > 0
    ensures |Run(size, ops).0.item| == size <==> KeptBack(size, ops)
  {
    hide Grabbed;
    if ops != [] {
      var before := ops[..|ops| - 1];
      var (c, out) := Run(size, before);
      ItemIsKeptBack(size, before);
      ItemIsRest(size, before);
      match ops[|ops| - 1] {
        case Grab => GrabKeepsItem(c);
        case Load(data) => LoadedItem(c, size, data);
      }
    }
  }

  lemma GrabKeepsItem(c: Contents)
    ensures Grabbed(c).1.item == c.item
  {
  }

  lemma LoadedItem(c: Contents, size: nat, data: seq<int>)
    requires |c.item| <= size && size > 0
    ensures |Loaded(c, size, data).item| == size
            <==> if |data| > size then |c.item| == size else |data| == size && c.item == []
  {
  }

  /** The item is what is left of the accepted bytes behind whole buffers. */
  lemma {:induction false} ItemIsRest(size: nat, ops: seq<Op>)
    requires size > 0
    ensures var item := Run(size, ops).0.item;
            item == [] <==> |Accepted(size, ops)| % size == 0 && |item| != size
  {
    Rechunks(size, ops);
    hide Run, Accepted;
    var (c, out) := Run(size, ops);
    ChunkBytes(c.store, size);
    var whole := WholeBytes(size, out);
    Sum(size, whole, |c.store|);
    WholeOrRest(|Accepted(size, ops)|, size, whole + |c.store|, |c.item|);
  }

  lemma Sum(size: nat, a: nat, b: nat)
    ensures size * (a + b) == a * size + b * size
  {
  }

  lemma WholeOrRest(n: nat, size: nat, k: nat, rest: nat)
    requires size > 0 && n == size * k + rest && rest <= size
    ensures rest == 0 <==> n % size == 0 && rest != size
  {
    if rest < size {
      Remainder(n, size, k, rest);
    }
  }

  lemma {:induction false} WholeBytes(size: nat, out: seq<seq<int>>) returns (n: nat)
    requires forall i :: 0 <= i < |out| ==> out[i] == [] || |out[i]| == size
    ensures |Concat(out)| == n * size
  {
    if out == [] {
      n := 0;
    } else {
      n := WholeBytes(size, out[1..]);
      if out[0] != [] {
        assert (n + 1) * size == n * size + size;
        n := n + 1;
      }
    }
  }

  /** What the next grab gives: the next buffer of the accepted bytes when more than one is pending,
      nothing while less than one is, and just one unless it was kept back as it came. */
  lemma {:induction false} NextGrab(size: nat, ops: seq<Op>)
    requires size > 0
    ensures var (c, out) := Run(size, ops);
            var start := |Concat(out)|;
            var accepted := Accepted(size, ops);
            && start <= |accepted|
            && |accepted| - start == |c.store| * size + |c.item|
            && Grabbed(c).0
               == if start + size < |accepted| || (start + size == |accepted| && !KeptBack(size, ops))
                  then accepted[start..start + size] else []
  {
    Rechunks(size, ops);
    ItemIsKeptBack(size, ops);
    hide Run, Accepted, KeptBack;
    var (c, out) := Run(size, ops);
    FirstGrabbed(size, c, out, Accepted(size, ops));
  }

  lemma FirstGrabbed(size: nat, c: Contents, out: seq<seq<int>>, accepted: seq<int>)
    requires size > 0 && WholeChunks(c.store, size) && |c.item| <= size
    requires Concat(out) + Concat(c.store) + c.item == accepted
    ensures var start := |Concat(out)|;
            && |accepted| - start == |c.store| * size + |c.item|
            && (c.store == [] ==> |accepted| - start == |c.item| && Grabbed(c).0 == [])
            && (c.store != [] ==> start + size <= |accepted| && Grabbed(c).0 == accepted[start..start + size])
            && (c.store != [] && |accepted| == start + size ==> |c.item| == 0)
  {
    ChunkBytes(c.store, size);
    if c.store != [] {
      StoredBytes(|c.store|, size);
      assert accepted == Concat(out) + (c.store[0] + (Concat(c.store[1..]) + c.item));
    }
  }

  lemma StoredBytes(n: nat, size: nat)
    requires n > 0
    ensures n * size >= size
  {
  }
}
