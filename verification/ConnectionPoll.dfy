/** The table of polled sockets: slot 0 holds the listener, the others the clients, -1 is free. */
module ConnectionPoll {

  const FREE := -1
  const OFFSET := 1

  // ----- The client slots as a sequence

  /** The sockets in use, in order. */
  function Live(slots: seq<int>): seq<int> {
    if slots == [] then []
    else (if slots[0] == FREE then [] else [slots[0]]) + Live(slots[1..])
  }

  /** Every slot that holds `fd` is freed. */
  function Cleared(slots: seq<int>, fd: int): (r: seq<int>)
    ensures |r| == |slots|
  {
    if slots == [] then []
    else [if slots[0] == fd then FREE else slots[0]] + Cleared(slots[1..], fd)
  }

  /** One pass of `reposition_poll`: a free slot swaps with a used one behind it. */
  function Shifted(slots: seq<int>): (r: seq<int>)
    ensures |r| == |slots|
    decreases |slots|
  {
    if |slots| < 2 then slots
    else if slots[0] == FREE && slots[1] != FREE then [slots[1]] + Shifted([FREE] + slots[2..])
    else [slots[0]] + Shifted(slots[1..])
  }

  /** The number of slots before the first free one. */
  function Leading(slots: seq<int>): (n: nat)
    ensures n <= |slots|
  {
    if slots == [] || slots[0] == FREE then 0 else 1 + Leading(slots[1..])
  }

  /** How often `fd` occurs. */
  function Count(slots: seq<int>, fd: int): nat {
    if slots == [] then 0 else (if slots[0] == fd then 1 else 0) + Count(slots[1..], fd)
  }

  /** No used slot behind a free one. */
  predicate Dense(slots: seq<int>) {
    slots == [] || (if slots[0] == FREE then Live(slots) == [] else Dense(slots[1..]))
  }

  /** The free slots that have a used one behind them. */
  function Holes(slots: seq<int>): nat {
    if slots == [] then 0
    else (if slots[0] == FREE && Live(slots) != [] then 1 else 0) + Holes(slots[1..])
  }

  function Repeat(fd: int, n: nat): seq<int> { seq(n, _ => fd) }

  /** The table when the slots from `i` on have yet to be cleared ... */
  function ClearedFrom(table: seq<int>, i: nat, fd: int): seq<int>
    requires i <= |table|
  {
    table[..i] + Cleared(table[i..], fd)
  }

  /** ... and the sockets still to be closed. */
  function ToClose(table: seq<int>, i: nat, fd: int): seq<int>
    requires i <= |table|
  {
    Repeat(fd, Count(table[i..], fd))
  }

  lemma ClearNext(table: seq<int>, i: nat, fd: int)
    requires i < |table|
    ensures ToClose(table, i, fd) == (if table[i] == fd then [fd] else []) + ToClose(table, i + 1, fd)
    ensures ClearedFrom(table, i, fd) == ClearedFrom(if table[i] == fd then table[i := FREE] else table, i + 1, fd)
    ensures table[i := FREE][i + 1..] == table[i + 1..]
  {
    var next := if table[i] == fd then table[i := FREE] else table;
    assert table[i..][1..] == table[i + 1..] == next[i + 1..];
    assert next[..i + 1] == table[..i] + [next[i]];
  }

  lemma SameRest(a: seq<int>, b: seq<int>, i: nat, fd: int)
    requires i <= |a| == |b| && a[i..] == b[i..]
    ensures ToClose(a, i, fd) == ToClose(b, i, fd)
  {
  }

  lemma ClearEnds(table: seq<int>, fd: int)
    ensures ClearedFrom(table, |table|, fd) == table && ToClose(table, |table|, fd) == []
    ensures |table| > 0 ==> ClearedFrom(table, OFFSET, fd) == [table[0]] + Cleared(table[OFFSET..], fd)
  {
  }

  /** The table at the end of a pass that has come to slot `i`. */
  function ShiftedFrom(table: seq<int>, i: nat): (r: seq<int>)
    requires i <= |table|
  {
    table[..i] + Shifted(table[i..])
  }

  function SwapAt(table: seq<int>, i: nat): seq<int>
    requires i + 1 < |table|
  {
    if table[i] == FREE && table[i + 1] != FREE then table[i := table[i + 1]][i + 1 := FREE] else table
  }

  lemma ShiftNext(table: seq<int>, i: nat)
    requires i + 1 < |table|
    ensures ShiftedFrom(table, i) == ShiftedFrom(SwapAt(table, i), i + 1)
  {
    hide Shifted;
    var next := SwapAt(table, i);
    var slots := table[i..];
    ShiftHead(slots);
    assert next[..i + 1] == table[..i] + [next[i]];
    if slots[0] == FREE && slots[1] != FREE {
      assert next[i + 1..] == [FREE] + slots[2..];
    } else {
      assert next[i + 1..] == slots[1..];
    }
  }

  lemma ShiftHead(slots: seq<int>)
    requires |slots| > 1
    ensures Shifted(slots)
            == if slots[0] == FREE && slots[1] != FREE then [slots[1]] + Shifted([FREE] + slots[2..])
               else [slots[0]] + Shifted(slots[1..])
  {
  }

  lemma ShiftEnds(table: seq<int>, i: nat)
    requires |table| <= i + 1 && i <= |table|
    ensures ShiftedFrom(table, i) == table
  {
  }

  // ----- The object

  datatype Poll = Poll(slots: seq<int>, index: nat)

  function Added(p: Poll, fd: int): Poll {
    if p.index >= |p.slots| then p else Poll(p.slots[p.index := fd], p.index + 1)
  }

  function Removed(p: Poll, fd: int): Poll
    requires |p.slots| > 0
  {
    var clients := Shifted(Cleared(p.slots[OFFSET..], fd));
    Poll([p.slots[0]] + clients, OFFSET + Leading(clients))
  }

  class ConnectionPoll {
    const fds: array<int>
    var index: nat
    var closed: seq<int>

    function Now(): Poll
      reads this, fds
    {
      Poll(fds[..], index)
    }

    constructor (max: nat)
      requires max > 0
      ensures Now() == Poll(seq(max, _ => FREE), 0) && closed == [] && fresh(fds)
    {
      fds := new int[max];
      index, closed := 0, [];
      new;
      for i := index to fds.Length
        invariant forall k :: 0 <= k < i ==> fds[k] == FREE
        invariant index == 0 && closed == []
      {
        fds[i] := FREE;
      }
      assert fds[..] == seq(max, _ => FREE);
    }

    method AddSocket(fd: int) returns (added: bool)
      modifies this`index, fds
      ensures added <==> old(index) < fds.Length
      ensures Now() == Added(old(Now()), fd)
    {
      if index >= fds.Length {
        return false;
      }
      fds[index] := fd;
      index := index + 1;
      added := true;
    }

    /** Each slot that held the socket has it closed. */
    method RemoveSocket(fd: int)
      requires fds.Length > 0
      modifies this, fds
      ensures Now() == Removed(old(Now()), fd)
      ensures closed == old(closed) + ToClose(old(fds[..]), OFFSET, fd)
    {
      hide ClearedFrom, ToClose, Cleared, Shifted, Leading;
      ghost var before := fds[..];
      ghost var all := old(closed) + ToClose(before, OFFSET, fd);
      ClearEnds(before, fd);
      for i := OFFSET to fds.Length
        invariant ClearedFrom(fds[..], i, fd) == ClearedFrom(before, OFFSET, fd)
        invariant closed + ToClose(fds[..], i, fd) == all
      {
        ghost var table := fds[..];
        ClearNext(table, i, fd);
        if fds[i] == fd {
          closed := closed + [fds[i]];
          fds[i] := FREE;
          assert fds[..] == table[i := FREE];
          SameRest(table, fds[..], i + 1, fd);
        }
      }
      ClearEnds(fds[..], fd);
      RepositionPoll();
      CountPollIndex();
    }

    method RepositionPoll()
      requires fds.Length > 0
      modifies fds
      ensures fds[..] == ShiftedFrom(old(fds[..]), OFFSET)
    {
      hide ShiftedFrom;
      ghost var before := fds[..];
      for i := OFFSET to fds.Length
        invariant ShiftedFrom(fds[..], i) == ShiftedFrom(before, OFFSET)
      {
        if i == fds.Length - 1 {
          ShiftEnds(fds[..], i);
          return;
        }
        ghost var table := fds[..];
        ShiftNext(table, i);
        if fds[i] == FREE && fds[i + 1] != FREE {
          fds[i] := fds[i + 1];
          fds[i + 1] := FREE;
        }
        assert fds[..] == SwapAt(table, i);
      }
      ShiftEnds(fds[..], fds.Length);
    }

    method CountPollIndex()
      requires fds.Length > 0
      modifies this`index
      ensures index == OFFSET + Leading(fds[OFFSET..])
    {
      var count := OFFSET;
      for i := OFFSET to fds.Length
        invariant count == i && OFFSET + Leading(fds[OFFSET..]) == i + Leading(fds[i..])
      {
        if fds[i] == FREE {
          break;
        }
        count := count + 1;
      }
      index := count;
    }
  }

  // ----- One removal

  function Without(fds: seq<int>, fd: int): seq<int> {
    if fds == [] then []
    else (if fds[0] == fd then [] else [fds[0]]) + Without(fds[1..], fd)
  }

  lemma {:induction false} LiveShifted(slots: seq<int>)
    ensures Live(Shifted(slots)) == Live(slots)
    decreases |slots|
  {
    if |slots| >= 2 {
      if slots[0] == FREE && slots[1] != FREE {
        LiveShifted([FREE] + slots[2..]);
        assert slots[1..][1..] == slots[2..] == ([FREE] + slots[2..])[1..];
      } else {
        LiveShifted(slots[1..]);
      }
    }
  }

  lemma {:induction false} LiveCleared(slots: seq<int>, fd: int)
    ensures Live(Cleared(slots, fd)) == Without(Live(slots), fd)
  {
    if slots != [] {
      LiveCleared(slots[1..], fd);
      assert Cleared(slots, fd)[1..] == Cleared(slots[1..], fd);
      if slots[0] != FREE {
        assert Live(slots)[1..] == Live(slots[1..]);
      } else {
        assert Live(slots) == Live(slots[1..]);
        assert Live(Cleared(slots, fd)) == Live(Cleared(slots, fd)[1..]);
      }
    }
  }

  /** One pass closes one hole, not more. */
  lemma {:induction false} ShiftedDenseIff(slots: seq<int>)
    ensures Dense(Shifted(slots)) <==> Holes(slots) <= 1
    decreases |slots|
  {
    if |slots| >= 2 {
      ShiftHead(slots);
      var rest := slots[1..];
      if slots[0] == FREE && slots[1] != FREE {
        var moved := [FREE] + slots[2..];
        ShiftedDenseIff(moved);
        assert moved[1..] == slots[2..] == rest[1..];
        NoHoles(slots[2..]);
      } else {
        ShiftedDenseIff(rest);
        LiveShifted(rest);
        assert Shifted(slots)[1..] == Shifted(rest);
      }
    } else if slots != [] {
      assert slots[1..] == [] && Holes(slots[1..]) == 0 && Dense(slots[1..]);
      assert Live(slots[1..]) == [];
      assert Shifted(slots) == slots;
    }
  }

  lemma {:induction false} NoHoles(slots: seq<int>)
    ensures Live(slots) == [] ==> Holes(slots) == 0
  {
    if slots != [] {
      NoHoles(slots[1..]);
    }
  }

  function Frees(n: nat): (r: seq<int>)
    ensures |r| == n
  {
    seq(n, _ => FREE)
  }

  predicate AllUsed(fds: seq<int>) { forall i :: 0 <= i < |fds| ==> fds[i] != FREE }

  /** A dense table is its sockets followed by free slots. */
  lemma {:induction false} DenseShape(slots: seq<int>)
    ensures AllUsed(Live(slots)) && |Live(slots)| <= |slots|
    ensures Dense(slots) <==> slots == Live(slots) + Frees(|slots| - |Live(slots)|)
    ensures Dense(slots) ==> Leading(slots) == |Live(slots)|
  {
    if slots != [] {
      var rest := slots[1..];
      DenseShape(rest);
      var f := Frees(|rest| - |Live(rest)|);
      assert slots == [slots[0]] + rest;
      if slots[0] == FREE {
        if Live(slots) == [] {
          assert slots == Frees(|slots|);
        }
      } else {
        assert Live(slots) + f == [slots[0]] + (Live(rest) + f);
        assert slots == Live(slots) + f ==> slots[1..] == Live(rest) + f;
      }
    }
  }

  lemma {:induction false} LiveOfTable(fds: seq<int>, n: nat)
    requires AllUsed(fds)
    ensures Live(fds + Frees(n)) == fds && Dense(fds + Frees(n))
  {
    var slots := fds + Frees(n);
    if fds != [] {
      LiveOfTable(fds[1..], n);
      assert slots[1..] == fds[1..] + Frees(n);
    } else if n > 0 {
      LiveOfTable([], n - 1);
      assert slots[1..] == [] + Frees(n - 1);
    }
  }

  // ----- The table of a list of clients

  /** The listener, the clients in order of arrival, free slots. */
  function Table(max: nat, listener: int, clients: seq<int>): Poll
    requires |clients| < max
  {
    Poll([listener] + clients + Frees(max - 1 - |clients|), OFFSET + |clients|)
  }

  /** The occurrences of `fd` with another socket behind them. */
  function Inner(clients: seq<int>, fd: int): nat {
    if clients == [] then 0
    else (if clients[0] == fd && Without(clients[1..], fd) != [] then 1 else 0) + Inner(clients[1..], fd)
  }

  lemma {:induction false} HolesAreInner(slots: seq<int>, fd: int)
    requires Dense(slots)
    ensures Holes(Cleared(slots, fd)) == Inner(Live(slots), fd)
  {
    if slots != [] {
      if slots[0] == FREE {
        LiveCleared(slots, fd);
        NoHoles(Cleared(slots, fd));
      } else {
        HolesAreInner(slots[1..], fd);
        LiveCleared(slots[1..], fd);
        assert Live(slots)[1..] == Live(slots[1..]);
        assert Cleared(slots, fd)[1..] == Cleared(slots[1..], fd);
      }
    }
  }

  lemma {:induction false} WithoutShrinks(clients: seq<int>, fd: int)
    ensures |Without(clients, fd)| <= |clients|
    ensures AllUsed(clients) ==> AllUsed(Without(clients, fd))
    ensures forall x :: x in Without(clients, fd) <==> x in clients && x != fd
  {
    if clients != [] {
      WithoutShrinks(clients[1..], fd);
      assert clients == [clients[0]] + clients[1..];
    }
  }

  /** Removing a socket always keeps the other clients in order; the table is again the table of
      those clients exactly when at most one occurrence of the socket stands before another. */
  lemma {:induction false} RemoveExactIff(max: nat, listener: int, clients: seq<int>, fd: int)
    requires |clients| < max && AllUsed(clients)
    ensures var q := Removed(Table(max, listener, clients), fd);
            var rest := Without(clients, fd);
            && |rest| <= |clients|
            && Live(q.slots[OFFSET..]) == rest
            && (q == Table(max, listener, rest) <==> Inner(clients, fd) <= 1)
  {
    hide Live, Cleared, Shifted, Without, Dense, Holes, Inner, Leading, AllUsed, Frees;
    var rest := Without(clients, fd);
    WithoutShrinks(clients, fd);
    var slots := clients + Frees(max - 1 - |clients|);
    assert Table(max, listener, clients).slots[OFFSET..] == slots;
    LiveOfTable(clients, max - 1 - |clients|);
    LiveCleared(slots, fd);
    HolesAreInner(slots, fd);
    var after := Shifted(Cleared(slots, fd));
    LiveShifted(Cleared(slots, fd));
    ShiftedDenseIff(Cleared(slots, fd));
    DenseShape(after);
    var target := rest + Frees(max - 1 - |rest|);
    assert Removed(Table(max, listener, clients), fd).slots[OFFSET..] == after;
    assert Table(max, listener, rest).slots[OFFSET..] == target;
    assert [listener] + after == [listener] + rest + Frees(max - 1 - |rest|) <==> after == target;
  }

  // ----- Sequences of calls

  datatype Op = Add(fd: int) | Remove(fd: int)

  predicate Distinct(fds: seq<int>) {
    forall i, j :: 0 <= i < j < |fds| ==> fds[i] != fds[j]
  }

  lemma {:induction false} DistinctWithout(clients: seq<int>, fd: int)
    requires Distinct(clients)
    ensures Distinct(Without(clients, fd)) && Inner(clients, fd) <= 1
    ensures fd !in clients ==> Inner(clients, fd) == 0
  {
    if clients != [] {
      DistinctWithout(clients[1..], fd);
      WithoutShrinks(clients[1..], fd);
      assert clients[0] !in clients[1..];
    }
  }

  /** The clients after the calls: an addition is refused when the table is full. */
  function Clients(max: nat, ops: seq<Op>): (c: seq<int>)
    requires max > 0
    ensures |c| < max
  {
    if ops == [] then []
    else
      var c := Clients(max, ops[..|ops| - 1]);
      match ops[|ops| - 1]
      case Add(fd) => if |c| < max - 1 then c + [fd] else c
      case Remove(fd) => WithoutShrinks(c, fd); Without(c, fd)
  }

  function Run(max: nat, listener: int, ops: seq<Op>): (p: Poll)
    requires max > 0
    ensures |p.slots| == max
  {
    if ops == [] then Added(Poll(Frees(max), 0), listener)
    else
      var p := Run(max, listener, ops[..|ops| - 1]);
      match ops[|ops| - 1]
      case Add(fd) => Added(p, fd)
      case Remove(fd) => Removed(p, fd)
  }

  /** Sockets come from `accept`: valid, and not in the table while they are open. */
  predicate FreshAdds(max: nat, ops: seq<Op>)
    requires max > 0
  {
    forall k :: 0 <= k < |ops| && ops[k].Add? ==> ops[k].fd >= 0 && ops[k].fd !in Clients(max, ops[..k])
  }

  predicate UsedAdds(ops: seq<Op>) { forall k :: 0 <= k < |ops| && ops[k].Add? ==> ops[k].fd != FREE }

  /** Before each removal at most one occurrence of the socket stands before another socket. */
  predicate SimpleRemovals(max: nat, ops: seq<Op>)
    requires max > 0
  {
    forall k :: 0 <= k < |ops| && ops[k].Remove? ==> Inner(Clients(max, ops[..k]), ops[k].fd) <= 1
  }

  /** The table is that of the clients after each call: the listener, then the clients in order of
      arrival without gaps, the index one more than their number. */
  predicate AlwaysExact(max: nat, listener: int, ops: seq<Op>)
    requires max > 0
  {
    forall k :: 0 <= k <= |ops| ==> Run(max, listener, ops[..k]) == Table(max, listener, Clients(max, ops[..k]))
  }

  lemma {:induction false} ClientsUsed(max: nat, ops: seq<Op>)
    requires max > 0 && UsedAdds(ops)
    ensures AllUsed(Clients(max, ops))
  {
    hide Without;
    if ops != [] {
      var k := |ops| - 1;
      assert forall i :: 0 <= i < k ==> ops[..k][i] == ops[i];
      ClientsUsed(max, ops[..k]);
      if ops[k].Remove? {
        WithoutShrinks(Clients(max, ops[..k]), ops[k].fd);
      }
    }
  }

  /** For every capacity and every sequence of calls, duplicate sockets included, the table is exact
      throughout if and only if the removals are simple. */
  lemma {:induction false} AlwaysExactIff(max: nat, listener: int, ops: seq<Op>)
    requires max > 0 && UsedAdds(ops)
    ensures AlwaysExact(max, listener, ops) <==> SimpleRemovals(max, ops)
  {
    hide Removed, Without, Inner;
    if ops == [] {
      assert Frees(max)[0 := listener] == [listener] + Frees(max - 1);
      assert forall k :: 0 <= k <= |ops| ==> ops[..k] == ops;
    } else {
      var n := |ops| - 1;
      var before := ops[..n];
      assert ops[..n + 1] == ops;
      assert forall k :: 0 <= k < n ==> before[k] == ops[k];
      assert forall k :: 0 <= k <= n ==> before[..k] == ops[..k];
      AlwaysExactIff(max, listener, before);
      ClientsUsed(max, before);
      assert AlwaysExact(max, listener, ops) <==>
             AlwaysExact(max, listener, before) && Run(max, listener, ops) == Table(max, listener, Clients(max, ops));
      assert SimpleRemovals(max, ops) <==>
             SimpleRemovals(max, before) && (ops[n].Remove? ==> Inner(Clients(max, before), ops[n].fd) <= 1);
      if AlwaysExact(max, listener, before) {
        assert before[..n] == before;
        LastCall(max, listener, ops);
      }
    }
  }

  lemma LastCall(max: nat, listener: int, ops: seq<Op>)
    requires max > 0 && ops != []
    requires var before := ops[..|ops| - 1];
             Run(max, listener, before) == Table(max, listener, Clients(max, before)) && AllUsed(Clients(max, before))
    ensures var c, op := Clients(max, ops[..|ops| - 1]), ops[|ops| - 1];
            Run(max, listener, ops) == Table(max, listener, Clients(max, ops))
            <==> (op.Remove? ==> Inner(c, op.fd) <= 1)
  {
    hide Removed, Without, Inner;
    var c := Clients(max, ops[..|ops| - 1]);
    match ops[|ops| - 1] {
      case Add(fd) =>
        if |c| < max - 1 {
          AddedTable(max, listener, c, fd);
        }
      case Remove(fd) =>
        RemoveExactIff(max, listener, c, fd);
    }
  }

  /** Sockets that are fresh when they are added never leave a gap, so after every sequence of calls
      the table is that of the clients, and an addition fails exactly when it is full. */
  lemma {:induction false} TableHoldsClients(max: nat, listener: int, ops: seq<Op>)
    requires max > 0 && FreshAdds(max, ops)
    ensures Run(max, listener, ops) == Table(max, listener, Clients(max, ops))
    ensures Distinct(Clients(max, ops)) && AllUsed(Clients(max, ops))
    ensures var c, p := Clients(max, ops), Run(max, listener, ops);
            && |p.slots| == max && p.slots[0] == listener && p.index == 1 + |c|
            && (forall k :: 0 <= k < |c| ==> p.slots[1 + k] == c[k])
            && (forall k :: p.index <= k < max ==> p.slots[k] == -1)
            && (p.index >= max <==> |c| == max - 1)
  {
    hide Run, Clients, Inner, Table;
    forall k | 0 <= k <= |ops| ensures Distinct(Clients(max, ops[..k])) {
      assert forall i :: 0 <= i < k ==> ops[..k][i] == ops[i] && ops[..k][..i] == ops[..i];
      FreshMeansDistinct(max, ops[..k]);
    }
    forall k | 0 <= k < |ops| && ops[k].Remove? ensures Inner(Clients(max, ops[..k]), ops[k].fd) <= 1 {
      DistinctWithout(Clients(max, ops[..k]), ops[k].fd);
    }
    AlwaysExactIff(max, listener, ops);
    ClientsUsed(max, ops);
    assert ops[..|ops|] == ops;
    TableIndex(max, listener, Clients(max, ops));
  }

  lemma TableIndex(max: nat, listener: int, clients: seq<int>)
    requires |clients| < max
    ensures var p := Table(max, listener, clients);
            && |p.slots| == max && p.slots[0] == listener && p.index == 1 + |clients|
            && (forall k :: 0 <= k < |clients| ==> p.slots[1 + k] == clients[k])
            && (forall k :: p.index <= k < max ==> p.slots[k] == -1)
            && (p.index >= max <==> |clients| == max - 1)
  {
  }

  lemma {:induction false} FreshMeansDistinct(max: nat, ops: seq<Op>)
    requires max > 0 && FreshAdds(max, ops)
    ensures Distinct(Clients(max, ops))
  {
    hide Without, Inner;
    if ops != [] {
      var k := |ops| - 1;
      assert forall i :: 0 <= i < k ==> ops[..k][i] == ops[i] && ops[..k][..i] == ops[..i];
      FreshMeansDistinct(max, ops[..k]);
      if ops[k].Remove? {
        DistinctWithout(Clients(max, ops[..k]), ops[k].fd);
      }
    }
  }

  lemma AddedTable(max: nat, listener: int, clients: seq<int>, fd: int)
    requires |clients| + 1 < max
    ensures Added(Table(max, listener, clients), fd) == Table(max, listener, clients + [fd])
  {
    var n := max - 1 - |clients|;
    assert ([listener] + clients + Frees(n))[OFFSET + |clients| := fd] == [listener] + (clients + [fd]) + Frees(n - 1);
  }

  /** Removing a socket closes it once if it is a client's, and closes nothing otherwise. */
  lemma {:induction false} RemovalCloses(max: nat, listener: int, clients: seq<int>, fd: int)
    requires |clients| < max && Distinct(clients) && fd >= 0
    ensures ToClose(Table(max, listener, clients).slots, OFFSET, fd) == if fd in clients then [fd] else []
  {
    hide Count;
    var n := max - 1 - |clients|;
    assert Table(max, listener, clients).slots[OFFSET..] == clients + Frees(n);
    CountClients(clients, n, fd);
  }

  lemma {:induction false} CountClients(clients: seq<int>, n: nat, fd: int)
    requires Distinct(clients) && fd != FREE
    ensures Count(clients + Frees(n), fd) == if fd in clients then 1 else 0
    decreases |clients|, n
  {
    var slots := clients + Frees(n);
    if clients != [] {
      CountClients(clients[1..], n, fd);
      assert slots[1..] == clients[1..] + Frees(n);
      assert clients == [clients[0]] + clients[1..];
    } else if n > 0 {
      CountClients([], n - 1, fd);
      assert slots[1..] == [] + Frees(n - 1);
    }
  }

  /** A socket that is in the table twice leaves two holes: the next but one client overwrites
      the socket behind them. */
  lemma DuplicateLosesClient(max: nat, listener: int)
    requires max >= 5
    ensures var p := Removed(Table(max, listener, [5, 5, 7]), 5);
            && p.index == OFFSET && p.slots[OFFSET + 1] == 7
            && Added(Added(p, 8), 9).slots[OFFSET + 1] == 9
  {
    hide Shifted, Cleared;
    var slots := Table(max, listener, [5, 5, 7]).slots[OFFSET..];
    assert slots == [5, 5, 7] + Frees(max - 4);
    ClearedAt(slots, 5, 0);
    ClearedAt(slots, 5, 1);
    ClearedAt(slots, 5, 2);
    var holes := Cleared(slots, 5);
    ShiftHead(holes);
    ShiftHead(holes[1..]);
  }

  lemma {:induction false} ClearedAt(slots: seq<int>, fd: int, i: nat)
    requires i < |slots|
    ensures Cleared(slots, fd)[i] == if slots[i] == fd then FREE else slots[i]
  {
    if i > 0 {
      ClearedAt(slots[1..], fd, i - 1);
    }
  }
}
