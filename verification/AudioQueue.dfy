/** The single-producer, single-consumer audio queue, as interleaved memory steps.

    The queue is a linked list whose last node is an empty dummy.  Every load, store,
    dereference, allocation and deletion of `push`, `pop` and `empty` is one step here, and a
    schedule interleaves the steps of one producer and one consumer in any way.  A dereference
    or a deletion of a node that is not allocated is a memory fault (`None`). */
module AudioQueue {
  import opened Options

  type Ref = nat

  const NULL: Ref := 0

  type Package = seq<int>

  datatype Node = Node(package: Option<Package>, next: Ref)

  /** Where the producer stands inside `push`, with the locals it holds. */
  datatype Producer =
    | Resting
    | Allocated(package: Package, made: Ref)
    | TailLoaded(package: Package, made: Ref, oldTail: Ref)
    | Filled(package: Package, made: Ref, oldTail: Ref)
    | Linked(package: Package, made: Ref, oldTail: Ref)

  /** Where the consumer stands inside `pop` or `empty`. */
  datatype Consumer =
    | Ready
    | HeadLoaded(oldHead: Ref)
    | Compared(oldHead: Ref)
    | NextRead(oldHead: Ref, next: Ref)
    | Unlinked(oldHead: Ref)
    | PackageRead(oldHead: Ref, result: Option<Package>)
    | EmptyCheck(oldHead: Ref)

  /** What a finished consumer call returned. */
  datatype Outcome = Popped(package: Option<Package>) | Checked(empty: bool)

  datatype Call = Pop | Empty

  /** Memory, the two threads, and the history of both: `pushed` lists the packages of the
      completed pushes, `outcomes` the results of the completed consumer calls. */
  datatype State = State(
    heap: map<Ref, Node>, head: Ref, tail: Ref,
    producer: Producer, consumer: Consumer,
    pushed: seq<Package>, outcomes: seq<Outcome>,
    allocs: nat, frees: nat)

  /** The allocator chooses `made`: any non-null address not in use, deleted ones included. */
  datatype Step = Produce(package: Package, made: Ref) | Consume(call: Call)

  function Initial(first: Ref): State {
    State(map[first := Node(None, NULL)], first, first, Resting, Ready, [], [], 1, 0)
  }

  function ProducerStep(s: State, package: Package, made: Ref): Option<State> {
    match s.producer
    case Resting =>
      if made == NULL || made in s.heap then Some(s) // not an address the allocator returns
      else Some(s.(heap := s.heap[made := Node(None, NULL)],
                   producer := Allocated(package, made),
                   allocs := s.allocs + 1))
    case Allocated(p, f) => Some(s.(producer := TailLoaded(p, f, s.tail)))
    case TailLoaded(p, f, t) =>
      if t !in s.heap then None
      else Some(s.(heap := s.heap[t := s.heap[t].(package := Some(p))], producer := Filled(p, f, t)))
    case Filled(p, f, t) =>
      if t !in s.heap then None
      else Some(s.(heap := s.heap[t := s.heap[t].(next := f)], producer := Linked(p, f, t)))
    case Linked(p, f, t) =>
      Some(s.(tail := f, producer := Resting, pushed := s.pushed + [p]))
  }

  function ConsumerStep(s: State, call: Call): Option<State> {
    match s.consumer
    case Ready => Some(s.(consumer := if call == Pop then HeadLoaded(s.head) else EmptyCheck(s.head)))
    case HeadLoaded(h) =>
      if h == s.tail
      then Some(s.(consumer := Ready, outcomes := s.outcomes + [Popped(None)]))
      else Some(s.(consumer := Compared(h)))
    case Compared(h) =>
      if h !in s.heap then None else Some(s.(consumer := NextRead(h, s.heap[h].next)))
    case NextRead(h, n) => Some(s.(head := n, consumer := Unlinked(h)))
    case Unlinked(h) =>
      if h !in s.heap then None else Some(s.(consumer := PackageRead(h, s.heap[h].package)))
    case PackageRead(h, r) =>
      if h !in s.heap then None
      else Some(s.(heap := s.heap - {h}, consumer := Ready,
                   outcomes := s.outcomes + [Popped(r)], frees := s.frees + 1))
    case EmptyCheck(h) =>
      Some(s.(consumer := Ready, outcomes := s.outcomes + [Checked(h == s.tail)]))
  }

  function Do(s: State, step: Step): Option<State> {
    match step
    case Produce(p, f) => ProducerStep(s, p, f)
    case Consume(c) => ConsumerStep(s, c)
  }

  function RunFrom(s: State, schedule: seq<Step>): Option<State>
    decreases |schedule|
  {
    if schedule == [] then Some(s)
    else
      match Do(s, schedule[0])
      case None => None
      case Some(s') => RunFrom(s', schedule[1..])
  }

  /** Any interleaving, from the constructor's single dummy node. */
  function Run(first: Ref, schedule: seq<Step>): Option<State> {
    RunFrom(Initial(first), schedule)
  }

  // ----- The abstract queue a state stands for

  /** The nodes met by following `next` from `from`, before `to`, at most `bound` of them. */
  function Walk(heap: map<Ref, Node>, from: Ref, to: Ref, bound: nat): seq<Ref>
    decreases bound
  {
    if bound == 0 || from == to || from !in heap then []
    else [from] + Walk(heap, heap[from].next, to, bound - 1)
  }

  function Packages(heap: map<Ref, Node>, refs: seq<Ref>): seq<Package> {
    if refs == [] then []
    else
      (if refs[0] in heap && heap[refs[0]].package.Some? then [heap[refs[0]].package.value] else [])
      + Packages(heap, refs[1..])
  }

  /** The packages waiting in the list, oldest first. */
  function QueuedIn(heap: map<Ref, Node>, head: Ref, tail: Ref): seq<Package> {
    Packages(heap, Walk(heap, head, tail, |heap|))
  }

  function Queued(s: State): seq<Package> {
    QueuedIn(s.heap, s.head, s.tail)
  }

  /** The package of a pop that has unlinked its node and not yet returned. */
  function InFlight(s: State): seq<Package> {
    match s.consumer
    case Unlinked(h) => Packages(s.heap, [h])
    case PackageRead(_, Some(p)) => [p]
    case _ => []
  }

  /** The packages the consumer has been handed, in order. */
  function Delivered(outcomes: seq<Outcome>): seq<Package> {
    if outcomes == [] then []
    else
      var o := outcomes[|outcomes| - 1];
      Delivered(outcomes[..|outcomes| - 1])
      + if o.Popped? && o.package.Some? then [o.package.value] else []
  }

  /** The new dummy node that `push` has made and not yet published. */
  function ProducerOwned(producer: Producer): set<Ref> {
    if producer.Resting? then {} else {producer.made}
  }

  /** The node that `pop` has unlinked and not yet deleted. */
  function ConsumerOwned(consumer: Consumer): set<Ref> {
    if consumer.Unlinked? || consumer.PackageRead? then {consumer.oldHead} else {}
  }

  ghost function Nodes(chain: seq<Ref>): set<Ref> { set r | r in chain }

  // ----- The invariant

  /** `chain` lists distinct nodes from `head` to `tail`, each linked to the next and, but for
      the last, holding a package. */
  ghost predicate IsList(heap: map<Ref, Node>, head: Ref, tail: Ref, chain: seq<Ref>) {
    && |chain| >= 1
    && chain[0] == head
    && chain[|chain| - 1] == tail
    && (forall i, j :: 0 <= i < j < |chain| ==> chain[i] != chain[j])
    && (forall i :: 0 <= i < |chain| ==> chain[i] in heap)
    && (forall i :: 0 <= i < |chain| - 1 ==> heap[chain[i]].package.Some?)
    && (forall i, j :: 0 <= i < j < |chain| && j == i + 1 ==> heap[chain[i]].next == chain[j])
  }

  /** Every allocated node is on the list or held by exactly one thread. */
  ghost predicate Accounted(heap: map<Ref, Node>, chain: seq<Ref>, mine: set<Ref>, yours: set<Ref>) {
    && NULL !in heap
    && (forall r :: r in heap ==> r in chain || r in mine || r in yours)
    && (forall i :: 0 <= i < |chain| ==> chain[i] !in mine && chain[i] !in yours)
    && mine <= heap.Keys && yours <= heap.Keys && mine !! yours
  }

  /** The tail is an empty dummy, except while a push is filling it. */
  ghost predicate ProducerInv(heap: map<Ref, Node>, tail: Ref, producer: Producer) {
    && tail in heap
    && match producer
       case Resting => heap[tail] == Node(None, NULL)
       case Allocated(_, f) => f in heap && heap[f] == heap[tail] == Node(None, NULL)
       case TailLoaded(_, f, t) => t == tail && f in heap && heap[f] == heap[tail] == Node(None, NULL)
       case Filled(p, f, t) =>
         t == tail && f in heap && heap[f] == Node(None, NULL) && heap[tail] == Node(Some(p), NULL)
       case Linked(p, f, t) => t == tail && f in heap && heap[f] == Node(None, NULL) && heap[tail] == Node(Some(p), f)
  }

  /** Did the sole consumer last see the queue non-empty, with no pop since? */
  predicate SawItems(outcomes: seq<Outcome>) {
    |outcomes| > 0 && outcomes[|outcomes| - 1] == Checked(false)
  }

  ghost predicate ConsumerInv(heap: map<Ref, Node>, chain: seq<Ref>, consumer: Consumer, saw: bool)
    requires |chain| >= 1
  {
    match consumer
    case Ready => saw ==> |chain| >= 2
    case HeadLoaded(h) => h == chain[0] && (saw ==> |chain| >= 2)
    case EmptyCheck(h) => h == chain[0] && (saw ==> |chain| >= 2)
    case Compared(h) => h == chain[0] && |chain| >= 2
    case NextRead(h, n) => h == chain[0] && |chain| >= 2 && n == chain[1]
    case Unlinked(h) => h in heap && heap[h].package.Some?
    case PackageRead(h, r) => h in heap && r.Some?
  }

  /** After a check that answered "not empty", the next pop hands over a package. */
  ghost predicate NoNullAfterNonEmpty(outcomes: seq<Outcome>) {
    forall i, j :: 0 <= i < j < |outcomes| && j == i + 1 && outcomes[i] == Checked(false) && outcomes[j].Popped? ==>
      outcomes[j].package.Some?
  }

  ghost predicate Inv(s: State, chain: seq<Ref>) {
    && IsList(s.heap, s.head, s.tail, chain)
    && Accounted(s.heap, chain, ProducerOwned(s.producer), ConsumerOwned(s.consumer))
    && ProducerInv(s.heap, s.tail, s.producer)
    && ConsumerInv(s.heap, chain, s.consumer, SawItems(s.outcomes))
    && NoNullAfterNonEmpty(s.outcomes)
    && s.allocs == s.frees + |s.heap|
  }

  lemma {:induction false} DistinctFits(chain: seq<Ref>, bag: set<Ref>)
    requires forall i, j :: 0 <= i < j < |chain| ==> chain[i] != chain[j]
    requires forall r :: r in chain ==> r in bag
    ensures |chain| <= |bag|
  {
    if chain != [] {
      var last := chain[|chain| - 1];
      DistinctFits(chain[..|chain| - 1], bag - {last});
    }
  }

  /** Walking the pointers from any node of the chain visits the rest of the chain. */
  lemma {:induction false} WalkIsChain(heap: map<Ref, Node>, chain: seq<Ref>, tail: Ref, k: nat, bound: nat)
    requires |chain| >= 1 && IsList(heap, chain[0], tail, chain)
    requires k < |chain| && |chain| - 1 - k <= bound
    ensures Walk(heap, chain[k], tail, bound) == chain[k..|chain| - 1]
    decreases |chain| - k
  {
    if k < |chain| - 1 {
      assert chain[k] != chain[|chain| - 1];
      WalkIsChain(heap, chain, tail, k + 1, bound - 1);
    }
  }

  /** The abstract queue is the packages of the chain without its dummy. */
  lemma QueuedIsChain(heap: map<Ref, Node>, head: Ref, tail: Ref, chain: seq<Ref>)
    requires IsList(heap, head, tail, chain)
    ensures QueuedIn(heap, head, tail) == Packages(heap, chain[..|chain| - 1])
  {
    DistinctFits(chain, heap.Keys);
    WalkIsChain(heap, chain, tail, 0, |heap|);
  }

  lemma {:induction false} PackagesSnoc(heap: map<Ref, Node>, refs: seq<Ref>, r: Ref)
    ensures Packages(heap, refs + [r]) == Packages(heap, refs) + Packages(heap, [r])
  {
    if refs != [] {
      assert (refs + [r])[1..] == refs[1..] + [r];
      PackagesSnoc(heap, refs[1..], r);
    }
  }

  lemma PackagesOne(heap: map<Ref, Node>, r: Ref)
    requires r in heap && heap[r].package.Some?
    ensures Packages(heap, [r]) == [heap[r].package.value]
  {
    assert [r][1..] == [];
    assert Packages(heap, []) == [];
  }

  lemma {:induction false} PackagesFrame(heap: map<Ref, Node>, heap': map<Ref, Node>, refs: seq<Ref>)
    requires forall r :: r in refs ==> r in heap && r in heap' && heap[r].package == heap'[r].package
    ensures Packages(heap, refs) == Packages(heap', refs)
  {
    if refs != [] {
      PackagesFrame(heap, heap', refs[1..]);
    }
  }

  // ----- One step

  /** What one step may do to the abstract queue.  A push takes effect at its tail store, a
      successful pop at its head store, and no other step is visible. */
  ghost predicate FifoStep(s: State, step: Step, s': State) {
    if step.Produce? && s.producer.Linked? then
      && Queued(s') == Queued(s) + [s.producer.package]
      && s'.pushed == s.pushed + [s.producer.package]
      && InFlight(s') == InFlight(s) && s'.outcomes == s.outcomes
    else if step.Consume? && s.consumer.NextRead? then
      && Queued(s) == InFlight(s') + Queued(s') && |InFlight(s')| == 1
      && InFlight(s) == [] && s'.pushed == s.pushed && s'.outcomes == s.outcomes
    else
      && Queued(s') == Queued(s) && s'.pushed == s.pushed
      && Delivered(s'.outcomes) + InFlight(s') == Delivered(s.outcomes) + InFlight(s)
  }

  /** A null pop and an emptiness check both report the queue as it is at their tail load. */
  ghost predicate HonestAnswer(s: State, s': State) {
    |s'.outcomes| > |s.outcomes| ==>
      match s'.outcomes[|s.outcomes|]
      case Checked(empty) => empty == (Queued(s) == [])
      case Popped(None) => Queued(s) == []
      case Popped(Some(p)) => InFlight(s) == [p]
  }

  lemma ProducerKeeps(s: State, chain: seq<Ref>, p: Package, made: Ref)
    requires Inv(s, chain) && !s.producer.Linked?
    ensures ProducerStep(s, p, made).Some? && Inv(ProducerStep(s, p, made).value, chain)
  {
    ProducerLeavesConsumer(s, chain, p, made);
    ProducerAdvances(s, chain, p, made);
    ProducerLeavesList(s, chain, p, made);
    hide IsList, Accounted, ProducerInv, ConsumerInv, NoNullAfterNonEmpty, SawItems;
  }

  lemma ProducerAdvances(s: State, chain: seq<Ref>, p: Package, made: Ref)
    requires Inv(s, chain) && !s.producer.Linked?
    ensures ProducerStep(s, p, made).Some?
    ensures var s' := ProducerStep(s, p, made).value;
            ProducerInv(s'.heap, s'.tail, s'.producer) && s'.allocs == s'.frees + |s'.heap|
  {
    hide ConsumerInv, NoNullAfterNonEmpty, SawItems;
    assert s.tail == chain[|chain| - 1];
    assert !s.producer.Resting? ==> s.producer.made != s.tail;
    hide IsList, Accounted;
  }

  lemma ProducerLeavesList(s: State, chain: seq<Ref>, p: Package, made: Ref)
    requires Inv(s, chain) && !s.producer.Linked? && ProducerStep(s, p, made).Some?
    ensures var s' := ProducerStep(s, p, made).value;
            && IsList(s'.heap, s'.head, s'.tail, chain)
            && Accounted(s'.heap, chain, ProducerOwned(s'.producer), ConsumerOwned(s'.consumer))
  {
    assert s.tail == chain[|chain| - 1];
    assert s.tail in s.heap && (!s.producer.Resting? ==> s.producer.made in s.heap);
    hide ConsumerInv, NoNullAfterNonEmpty, SawItems, ProducerInv;
  }

  lemma ProducerLeavesConsumer(s: State, chain: seq<Ref>, p: Package, made: Ref)
    requires Inv(s, chain) && !s.producer.Linked?
    ensures ProducerStep(s, p, made).Some? && |chain| >= 1
    ensures var s' := ProducerStep(s, p, made).value;
            ConsumerInv(s'.heap, chain, s'.consumer, SawItems(s'.outcomes))
  {
    hide NoNullAfterNonEmpty, SawItems;
    assert s.tail == chain[|chain| - 1];
  }

  lemma PublishKeeps(s: State, chain: seq<Ref>, p: Package, made: Ref)
    requires Inv(s, chain) && s.producer.Linked?
    ensures Inv(ProducerStep(s, p, made).value, chain + [s.producer.made])
  {
  }

  lemma AnswerKeeps(outcomes: seq<Outcome>, o: Outcome)
    requires NoNullAfterNonEmpty(outcomes)
    requires SawItems(outcomes) && o.Popped? ==> o.package.Some?
    ensures NoNullAfterNonEmpty(outcomes + [o]) && SawItems(outcomes + [o]) == (o == Checked(false))
  {
  }

  lemma LookKeeps(s: State, chain: seq<Ref>, call: Call)
    requires Inv(s, chain) && !s.consumer.NextRead? && !s.consumer.PackageRead?
    ensures ConsumerStep(s, call).Some? && Inv(ConsumerStep(s, call).value, chain)
  {
    hide ProducerInv, NoNullAfterNonEmpty, SawItems;
    assert s.head == chain[0] && s.tail == chain[|chain| - 1];
    if s.consumer.HeadLoaded? {
      if s.head == s.tail {
        AnswerKeeps(s.outcomes, Popped(None));
      }
    } else if s.consumer.EmptyCheck? {
      AnswerKeeps(s.outcomes, Checked(s.head == s.tail));
    }
  }

  lemma UnlinkKeeps(s: State, chain: seq<Ref>, call: Call)
    requires Inv(s, chain) && s.consumer.NextRead?
    ensures Inv(ConsumerStep(s, call).value, chain[1..])
  {
  }

  lemma DeleteKeeps(s: State, chain: seq<Ref>, call: Call)
    requires Inv(s, chain) && s.consumer.PackageRead?
    ensures ConsumerStep(s, call).Some? && Inv(ConsumerStep(s, call).value, chain)
  {
    assert s.tail == chain[|chain| - 1];
    AnswerKeeps(s.outcomes, Popped(s.consumer.result));
    assert ConsumerStep(s, call).value.heap.Keys == s.heap.Keys - {s.consumer.oldHead};
  }

  // ----- What each step does to the abstract queue

  lemma ProducerEffect(s: State, chain: seq<Ref>, p: Package, made: Ref, s': State)
    requires Inv(s, chain) && !s.producer.Linked?
    requires ProducerStep(s, p, made) == Some(s') && IsList(s'.heap, s'.head, s'.tail, chain)
    ensures Queued(s') == Queued(s) && InFlight(s') == InFlight(s)
  {
    WaitingKept(s, chain, p, made, s');
    ListOf(s, chain);
    hide Inv, IsList, Packages, QueuedIn;
    QueuedIsChain(s.heap, s.head, s.tail, chain);
    QueuedIsChain(s'.heap, s'.head, s'.tail, chain);
    PackagesFrame(s.heap, s'.heap, chain[..|chain| - 1]);
    if s.consumer.Unlinked? {
      PackagesFrame(s.heap, s'.heap, [s.consumer.oldHead]);
    }
  }

  lemma WaitingKept(s: State, chain: seq<Ref>, p: Package, made: Ref, s': State)
    requires Inv(s, chain) && !s.producer.Linked? && ProducerStep(s, p, made) == Some(s')
    ensures |chain| >= 1
    ensures forall r :: r in chain[..|chain| - 1] || (s.consumer.Unlinked? && r == s.consumer.oldHead) ==>
              r in s.heap && r in s'.heap && s.heap[r].package == s'.heap[r].package
  {
    hide NoNullAfterNonEmpty, SawItems;
    assert s.tail == chain[|chain| - 1];
    assert s.tail !in chain[..|chain| - 1];
  }

  lemma ListOf(s: State, chain: seq<Ref>)
    requires Inv(s, chain)
    ensures IsList(s.heap, s.head, s.tail, chain) && |chain| >= 1
    ensures s.consumer.NextRead? ==> |chain| >= 2
  {
    hide Accounted, ProducerInv, NoNullAfterNonEmpty, SawItems;
  }

  lemma PublishEffect(s: State, chain: seq<Ref>, p: Package, made: Ref, s': State)
    requires Inv(s, chain) && s.producer.Linked?
    requires ProducerStep(s, p, made) == Some(s') && IsList(s'.heap, s'.head, s'.tail, chain + [s.producer.made])
    ensures Queued(s') == Queued(s) + [s.producer.package] && InFlight(s') == InFlight(s)
  {
    ListOf(s, chain);
    FilledTail(s, chain);
    hide Inv, Packages, QueuedIn;
    var chain' := chain + [s.producer.made];
    QueuedIsChain(s.heap, s.head, s.tail, chain);
    QueuedIsChain(s'.heap, s'.head, s'.tail, chain');
    assert chain'[..|chain'| - 1] == chain == chain[..|chain| - 1] + [s.tail];
    hide IsList;
    PackagesSnoc(s.heap, chain[..|chain| - 1], s.tail);
    PackagesOne(s.heap, s.tail);
  }

  /** Before it is published the tail already holds the package. */
  lemma FilledTail(s: State, chain: seq<Ref>)
    requires Inv(s, chain) && s.producer.Linked?
    ensures s.tail in s.heap && s.heap[s.tail].package == Some(s.producer.package)
  {
    hide IsList, Accounted, ConsumerInv, NoNullAfterNonEmpty, SawItems;
  }

  lemma UnlinkEffect(s: State, chain: seq<Ref>, call: Call, s': State)
    requires Inv(s, chain) && s.consumer.NextRead?
    requires ConsumerStep(s, call) == Some(s') && IsList(s'.heap, s'.head, s'.tail, chain[1..])
    ensures FifoStep(s, Consume(call), s') && HonestAnswer(s, s')
  {
    QueuedIsChain(s.heap, s.head, s.tail, chain);
    QueuedIsChain(s'.heap, s'.head, s'.tail, chain[1..]);
    assert chain[..|chain| - 1][1..] == chain[1..][..|chain[1..]| - 1];
    PackagesOne(s.heap, s.head);
    assert chain[..|chain| - 1][0] == s.head && s.heap[s.head].package.Some?;
  }

  lemma DeliveredSnoc(outcomes: seq<Outcome>, o: Outcome)
    ensures Delivered(outcomes + [o])
            == Delivered(outcomes) + if o.Popped? && o.package.Some? then [o.package.value] else []
  {
    assert (outcomes + [o])[..|outcomes|] == outcomes;
  }

  lemma LookEffect(s: State, chain: seq<Ref>, call: Call, s': State)
    requires Inv(s, chain) && !s.consumer.NextRead? && !s.consumer.PackageRead?
    requires ConsumerStep(s, call) == Some(s')
    ensures FifoStep(s, Consume(call), s') && HonestAnswer(s, s')
  {
    Looked(s, chain);
    hide Inv, FifoStep, HonestAnswer, Queued;
    if s.consumer.HeadLoaded? || s.consumer.EmptyCheck? {
      AnswerEffect(s, call, s');
    } else {
      QuietEffect(s, call, s');
    }
  }

  lemma QuietEffect(s: State, call: Call, s': State)
    requires s.consumer.Ready? || s.consumer.Compared? || s.consumer.Unlinked?
    requires ConsumerStep(s, call) == Some(s')
    requires var c := s.consumer;
             c.Unlinked? ==> c.oldHead in s.heap && s.heap[c.oldHead].package.Some?
    ensures FifoStep(s, Consume(call), s') && HonestAnswer(s, s')
  {
    hide QueuedIn, Delivered, Packages;
    if s.consumer.Unlinked? {
      PackagesOne(s.heap, s.consumer.oldHead);
    }
  }

  lemma AnswerEffect(s: State, call: Call, s': State)
    requires s.consumer.HeadLoaded? || s.consumer.EmptyCheck?
    requires ConsumerStep(s, call) == Some(s')
    requires s.head == s.tail <==> Queued(s) == []
    requires s.consumer.oldHead == s.head
    ensures FifoStep(s, Consume(call), s') && HonestAnswer(s, s')
  {
    hide QueuedIn, Delivered;
    DeliveredSnoc(s.outcomes, Popped(None));
    DeliveredSnoc(s.outcomes, Checked(s.head == s.tail));
  }

  /** What the consumer has looked at still holds. */
  lemma Looked(s: State, chain: seq<Ref>)
    requires Inv(s, chain)
    ensures s.head == s.tail <==> Queued(s) == []
    ensures s.consumer.HeadLoaded? || s.consumer.EmptyCheck? ==> s.consumer.oldHead == s.head
    ensures var c := s.consumer;
            c.Unlinked? ==> c.oldHead in s.heap && s.heap[c.oldHead].package.Some?
  {
    EmptyWhenEqual(s, chain);
    hide Accounted, ProducerInv, NoNullAfterNonEmpty, SawItems, Queued;
  }

  lemma DeleteEffect(s: State, chain: seq<Ref>, call: Call, s': State)
    requires Inv(s, chain) && s.consumer.PackageRead?
    requires ConsumerStep(s, call) == Some(s') && IsList(s'.heap, s'.head, s'.tail, chain)
    ensures FifoStep(s, Consume(call), s') && HonestAnswer(s, s')
  {
    QueuedIsChain(s.heap, s.head, s.tail, chain);
    QueuedIsChain(s'.heap, s'.head, s'.tail, chain);
    PackagesFrame(s.heap, s'.heap, chain[..|chain| - 1]);
    DeliveredSnoc(s.outcomes, Popped(s.consumer.result));
  }

  lemma ProduceKeeps(s: State, chain: seq<Ref>, p: Package, made: Ref) returns (chain': seq<Ref>)
    requires Inv(s, chain)
    ensures ProducerStep(s, p, made).Some? && Inv(ProducerStep(s, p, made).value, chain')
    ensures var s' := ProducerStep(s, p, made).value;
            FifoStep(s, Produce(p, made), s') && HonestAnswer(s, s')
  {
    hide Inv, IsList, Queued, InFlight;
    chain' := if s.producer.Linked? then chain + [s.producer.made] else chain;
    if s.producer.Linked? {
      PublishKeeps(s, chain, p, made);
      ListOf(ProducerStep(s, p, made).value, chain');
      PublishEffect(s, chain, p, made, ProducerStep(s, p, made).value);
    } else {
      ProducerKeeps(s, chain, p, made);
      ListOf(ProducerStep(s, p, made).value, chain');
      ProducerEffect(s, chain, p, made, ProducerStep(s, p, made).value);
    }
  }

  lemma ConsumeKeeps(s: State, chain: seq<Ref>, call: Call) returns (chain': seq<Ref>)
    requires Inv(s, chain)
    ensures ConsumerStep(s, call).Some? && Inv(ConsumerStep(s, call).value, chain')
    ensures var s' := ConsumerStep(s, call).value;
            FifoStep(s, Consume(call), s') && HonestAnswer(s, s')
  {
    ListOf(s, chain);
    chain' := if s.consumer.NextRead? then chain[1..] else chain;
    hide Inv, IsList, FifoStep, HonestAnswer;
    if s.consumer.NextRead? {
      UnlinkKeeps(s, chain, call);
      ListOf(ConsumerStep(s, call).value, chain');
      UnlinkEffect(s, chain, call, ConsumerStep(s, call).value);
    } else if s.consumer.PackageRead? {
      DeleteKeeps(s, chain, call);
      ListOf(ConsumerStep(s, call).value, chain');
      DeleteEffect(s, chain, call, ConsumerStep(s, call).value);
    } else {
      LookKeeps(s, chain, call);
      LookEffect(s, chain, call, ConsumerStep(s, call).value);
    }
  }

  /** No step of either thread faults, and each does to the abstract queue what `FifoStep` says. */
  lemma StepKeeps(s: State, chain: seq<Ref>, step: Step) returns (chain': seq<Ref>)
    requires Inv(s, chain)
    ensures Do(s, step).Some? && Inv(Do(s, step).value, chain')
    ensures FifoStep(s, step, Do(s, step).value) && HonestAnswer(s, Do(s, step).value)
  {
    hide Inv, FifoStep, HonestAnswer, ProducerStep, ConsumerStep;
    match step {
      case Produce(p, made) => chain' := ProduceKeeps(s, chain, p, made);
      case Consume(call) => chain' := ConsumeKeeps(s, chain, call);
    }
  }

  // ----- Every interleaving

  /** Nothing is lost, invented, duplicated or reordered. */
  ghost predicate Conserved(s: State) {
    Delivered(s.outcomes) + InFlight(s) + Queued(s) == s.pushed
  }

  lemma StepConserves(s: State, chain: seq<Ref>, step: Step)
    requires Inv(s, chain) && Conserved(s)
    ensures Do(s, step).Some? && Conserved(Do(s, step).value)
  {
    hide Inv, Do, Queued, InFlight, Delivered, HonestAnswer;
    var _ := StepKeeps(s, chain, step);
    var s' := Do(s, step).value;
    var d, f, q := Delivered(s.outcomes), InFlight(s), Queued(s);
    var d', f', q' := Delivered(s'.outcomes), InFlight(s'), Queued(s');
    if step.Consume? && s.consumer.NextRead? {
      assert d + f + (f' + q') == d' + f' + q';
    } else if step.Produce? && s.producer.Linked? {
      assert d + f + (q + [s.producer.package]) == d + f + q + [s.producer.package];
    }
  }

  lemma {:induction false} RunKeeps(s: State, chain: seq<Ref>, schedule: seq<Step>) returns (chain': seq<Ref>)
    requires Inv(s, chain) && Conserved(s)
    ensures RunFrom(s, schedule).Some?
    ensures Inv(RunFrom(s, schedule).value, chain') && Conserved(RunFrom(s, schedule).value)
    decreases |schedule|
  {
    hide Inv, Conserved, FifoStep, HonestAnswer, Do;
    if schedule == [] {
      chain' := chain;
    } else {
      StepConserves(s, chain, schedule[0]);
      var mid := StepKeeps(s, chain, schedule[0]);
      chain' := RunKeeps(Do(s, schedule[0]).value, mid, schedule[1..]);
    }
  }

  lemma InitialInv(first: Ref)
    requires first != NULL
    ensures Inv(Initial(first), [first]) && Conserved(Initial(first))
  {
  }

  /** In every interleaving: no step touches a deleted node, none is deleted twice, and what the
      consumer got, then holds, then finds in the list is what completed pushes put in, in order. */
  lemma {:induction false} FifoRefinement(first: Ref, schedule: seq<Step>)
    requires first != NULL
    ensures Run(first, schedule).Some?
    ensures Conserved(Run(first, schedule).value)
  {
    hide Inv, Conserved, RunFrom;
    InitialInv(first);
    var _ := RunKeeps(Initial(first), [first], schedule);
  }

  /** The linearisation points, at every step of every interleaving. */
  lemma {:induction false} LinearizationPoints(first: Ref, schedule: seq<Step>, step: Step)
    requires first != NULL
    ensures Run(first, schedule).Some?
    ensures var s := Run(first, schedule).value;
            && Do(s, step).Some?
            && FifoStep(s, step, Do(s, step).value)
            && HonestAnswer(s, Do(s, step).value)
  {
    hide Inv, Conserved, RunFrom, Do, FifoStep, HonestAnswer;
    InitialInv(first);
    var chain := RunKeeps(Initial(first), [first], schedule);
    var _ := StepKeeps(Run(first, schedule).value, chain, step);
  }

  lemma {:induction false} NodeCount(chain: seq<Ref>)
    requires forall i, j :: 0 <= i < j < |chain| ==> chain[i] != chain[j]
    ensures |Nodes(chain)| == |chain|
  {
    if chain != [] {
      var rest := chain[..|chain| - 1];
      NodeCount(rest);
      assert Nodes(chain) == Nodes(rest) + {chain[|chain| - 1]};
    }
  }

  lemma Census(heap: map<Ref, Node>, chain: seq<Ref>, mine: set<Ref>, yours: set<Ref>)
    requires Accounted(heap, chain, mine, yours)
    requires forall i :: 0 <= i < |chain| ==> chain[i] in heap
    requires forall i, j :: 0 <= i < j < |chain| ==> chain[i] != chain[j]
    ensures heap.Keys == Nodes(chain) + mine + yours
    ensures |heap| == |chain| + |mine| + |yours|
  {
    NodeCount(chain);
    assert heap.Keys == Nodes(chain) + mine + yours;
    assert Nodes(chain) !! mine && (Nodes(chain) + mine) !! yours;
    assert |heap| == |heap.Keys|;
  }

  /** Allocated minus deleted nodes are exactly the list from head to tail, the producer's
      unpublished dummy and the node the consumer has unlinked, all different. */
  lemma {:induction false} MemoryAccounting(first: Ref, schedule: seq<Step>)
    requires first != NULL
    ensures Run(first, schedule).Some?
    ensures var s := Run(first, schedule).value;
            var list := Walk(s.heap, s.head, s.tail, |s.heap|) + [s.tail];
            && s.heap.Keys == Nodes(list) + ProducerOwned(s.producer) + ConsumerOwned(s.consumer)
            && s.allocs - s.frees == |list| + |ProducerOwned(s.producer)| + |ConsumerOwned(s.consumer)|
  {
    hide Inv, Conserved, RunFrom;
    InitialInv(first);
    var chain := RunKeeps(Initial(first), [first], schedule);
    CountNodes(Run(first, schedule).value, chain);
  }

  lemma CountNodes(s: State, chain: seq<Ref>)
    requires Inv(s, chain)
    ensures var list := Walk(s.heap, s.head, s.tail, |s.heap|) + [s.tail];
            && s.heap.Keys == Nodes(list) + ProducerOwned(s.producer) + ConsumerOwned(s.consumer)
            && s.allocs - s.frees == |list| + |ProducerOwned(s.producer)| + |ConsumerOwned(s.consumer)|
  {
    hide ConsumerInv, ProducerInv, NoNullAfterNonEmpty;
    DistinctFits(chain, s.heap.Keys);
    WalkIsChain(s.heap, chain, s.tail, 0, |s.heap|);
    assert chain[0..|chain| - 1] + [s.tail] == chain;
    Census(s.heap, chain, ProducerOwned(s.producer), ConsumerOwned(s.consumer));
  }

  /** If `empty` answered false to the sole consumer, its next `pop` returns a package,
      whatever the producer does in between. */
  lemma {:induction false} PopAfterNonEmptySucceeds(first: Ref, schedule: seq<Step>, i: nat)
    requires first != NULL
    requires Run(first, schedule).Some?
    requires 0 < i < |Run(first, schedule).value.outcomes|
    requires Run(first, schedule).value.outcomes[i - 1] == Checked(false)
    requires Run(first, schedule).value.outcomes[i].Popped?
    ensures Run(first, schedule).value.outcomes[i].package.Some?
  {
    InitialInv(first);
    var _ := RunKeeps(Initial(first), [first], schedule);
  }

  // ----- Calls and their answers

  /** The calls that the consumer begins in a schedule, in order. */
  function Begun(s: State, schedule: seq<Step>): seq<Call>
    decreases |schedule|
  {
    if schedule == [] then []
    else
      (if schedule[0].Consume? && s.consumer.Ready? then [schedule[0].call] else [])
      + match Do(s, schedule[0])
        case None => []
        case Some(s') => Begun(s', schedule[1..])
  }

  /** Each finished call answered what it was asked, and the one in progress, if any, is under way
      to do so. */
  ghost predicate Answers(s: State, begun: seq<Call>) {
    && |begun| == |s.outcomes| + (if s.consumer.Ready? then 0 else 1)
    && (forall k :: 0 <= k < |s.outcomes| ==> (s.outcomes[k].Checked? <==> begun[k] == Empty))
    && (!s.consumer.Ready? ==> (s.consumer.EmptyCheck? <==> begun[|begun| - 1] == Empty))
  }

  lemma StepAnswers(s: State, begun: seq<Call>, step: Step)
    requires Answers(s, begun) && Do(s, step).Some?
    ensures Answers(Do(s, step).value,
                    begun + if step.Consume? && s.consumer.Ready? then [step.call] else [])
  {
  }

  lemma {:induction false} RunAnswers(s: State, begun: seq<Call>, schedule: seq<Step>)
    requires Answers(s, begun) && RunFrom(s, schedule).Some?
    ensures Answers(RunFrom(s, schedule).value, begun + Begun(s, schedule))
    decreases |schedule|
  {
    hide Answers, Do;
    if schedule == [] {
      assert begun + [] == begun;
    } else {
      var now := if schedule[0].Consume? && s.consumer.Ready? then [schedule[0].call] else [];
      var s' := Do(s, schedule[0]).value;
      StepAnswers(s, begun, schedule[0]);
      RunAnswers(s', begun + now, schedule[1..]);
      assert begun + now + Begun(s', schedule[1..]) == begun + (now + Begun(s', schedule[1..]));
    }
  }

  /** In every interleaving each finished call of `empty` is answered as a check and each finished
      call of `pop` as a pop, in the order in which they began; at most one is unfinished. */
  lemma {:induction false} AnswersMatchCalls(first: Ref, schedule: seq<Step>)
    requires first != NULL
    ensures Run(first, schedule).Some?
    ensures var s := Run(first, schedule).value;
            var begun := Begun(Initial(first), schedule);
            && |s.outcomes| <= |begun| <= |s.outcomes| + 1
            && forall k :: 0 <= k < |s.outcomes| ==>
                 && (begun[k] == Empty ==> s.outcomes[k].Checked?)
                 && (begun[k] == Call.Pop ==> s.outcomes[k].Popped?)
  {
    FifoRefinement(first, schedule);
    RunAnswers(Initial(first), [], schedule);
    hide RunFrom, Begun;
    assert [] + Begun(Initial(first), schedule) == Begun(Initial(first), schedule);
  }

  // ----- The object itself

  lemma RunCons(s: State, step: Step, s': State, rest: seq<Step>)
    requires Do(s, step) == Some(s')
    ensures RunFrom(s, [step] + rest) == RunFrom(s', rest)
  {
    assert ([step] + rest)[1..] == rest;
  }

  lemma RunNil(s: State)
    ensures RunFrom(s, []) == Some(s)
  {
  }

  /** The memory a whole push leaves behind. */
  function AfterPush(s: State, p: Package, made: Ref): State
    requires s.tail in s.heap
  {
    s.(heap := s.heap[made := Node(None, NULL)][s.tail := Node(Some(p), made)], tail := made,
       pushed := s.pushed + [p], allocs := s.allocs + 1)
  }

  /** The memory a whole pop of a non-empty queue leaves behind. */
  function AfterPop(s: State): State
    requires s.head in s.heap
  {
    s.(heap := s.heap - {s.head}, head := s.heap[s.head].next,
       outcomes := s.outcomes + [Popped(s.heap[s.head].package)], frees := s.frees + 1)
  }

  lemma PushPath(s: State, p: Package, made: Ref)
    requires s.producer.Resting? && made != NULL && made !in s.heap && s.tail in s.heap
    requires s.heap[s.tail] == Node(None, NULL)
    ensures var step := Produce(p, made);
            RunFrom(s, [step, step, step, step, step]) == Some(AfterPush(s, p, made))
  {
    RunNil(AfterPush(s, p, made));
    hide RunFrom;
    var step := Produce(p, made);
    var s1 := Do(s, step).value;
    var s2 := Do(s1, step).value;
    var s3 := Do(s2, step).value;
    var s4 := Do(s3, step).value;
    assert s4.heap == AfterPush(s, p, made).heap;
    RunCons(s4, step, AfterPush(s, p, made), []);
    RunCons(s3, step, s4, [step]);
    RunCons(s2, step, s3, [step, step]);
    RunCons(s1, step, s2, [step, step, step]);
    RunCons(s, step, s1, [step, step, step, step]);
  }

  lemma PopPath(s: State)
    requires s.consumer.Ready? && s.head in s.heap && s.head != s.tail
    ensures var step := Consume(Call.Pop);
            RunFrom(s, [step, step, step, step, step, step]) == Some(AfterPop(s))
  {
    RunNil(AfterPop(s));
    hide RunFrom;
    var step := Consume(Call.Pop);
    var s1 := Do(s, step).value;
    var s2 := Do(s1, step).value;
    var s3 := Do(s2, step).value;
    var s4 := Do(s3, step).value;
    var s5 := Do(s4, step).value;
    RunCons(s5, step, AfterPop(s), []);
    RunCons(s4, step, s5, [step]);
    RunCons(s3, step, s4, [step, step]);
    RunCons(s2, step, s3, [step, step, step]);
    RunCons(s1, step, s2, [step, step, step, step]);
    RunCons(s, step, s1, [step, step, step, step, step]);
  }

  lemma Cancel<T>(a: seq<T>, b: seq<T>, c: seq<T>)
    requires a + b == a + c
    ensures b == c
  {
    assert (a + b)[|a|..] == b && (a + c)[|a|..] == c;
  }

  /** Five producer steps in a row, with the consumer idle, are one enqueue. */
  lemma UninterruptedPush(s: State, chain: seq<Ref>, p: Package, made: Ref) returns (chain': seq<Ref>)
    requires Inv(s, chain) && Conserved(s) && s.producer.Resting? && s.consumer.Ready?
    requires made != NULL && made !in s.heap
    ensures var step := Produce(p, made);
            RunFrom(s, [step, step, step, step, step]) == Some(AfterPush(s, p, made))
    ensures Inv(AfterPush(s, p, made), chain') && Conserved(AfterPush(s, p, made))
    ensures Queued(AfterPush(s, p, made)) == Queued(s) + [p]
    ensures s.tail != made && s.tail in s.heap && s.heap[s.tail] == Node(None, NULL)
  {
    var step := Produce(p, made);
    PushPath(s, p, made);
    chain' := RunKeeps(s, chain, [step, step, step, step, step]);
    var d := Delivered(s.outcomes) + InFlight(s);
    assert d + Queued(AfterPush(s, p, made)) == d + (Queued(s) + [p]);
    Cancel(d, Queued(AfterPush(s, p, made)), Queued(s) + [p]);
  }

  lemma HeadHoldsPackage(s: State, chain: seq<Ref>)
    requires Inv(s, chain) && s.head != s.tail
    ensures s.head in s.heap && s.heap[s.head].package.Some?
  {
    assert s.head == chain[0];
  }

  /** Six consumer steps in a row, with the producer idle, are one dequeue of a non-empty queue. */
  lemma UninterruptedPop(s: State, chain: seq<Ref>) returns (chain': seq<Ref>)
    requires Inv(s, chain) && Conserved(s) && s.consumer.Ready? && s.head != s.tail
    ensures var step := Consume(Call.Pop);
            RunFrom(s, [step, step, step, step, step, step]) == Some(AfterPop(s))
    ensures Inv(AfterPop(s), chain') && Conserved(AfterPop(s))
    ensures s.head in s.heap && s.heap[s.head].package.Some?
    ensures Queued(s) == [s.heap[s.head].package.value] + Queued(AfterPop(s))
  {
    var step := Consume(Call.Pop);
    HeadHoldsPackage(s, chain);
    hide Inv, Queued, Delivered, RunFrom, Conserved, InFlight;
    PopPath(s);
    chain' := RunKeeps(s, chain, [step, step, step, step, step, step]);
    PopTakesFirst(s);
  }

  lemma PopTakesFirst(s: State)
    requires Conserved(s) && s.consumer.Ready?
    requires s.head in s.heap && s.heap[s.head].package.Some? && Conserved(AfterPop(s))
    ensures Queued(s) == [s.heap[s.head].package.value] + Queued(AfterPop(s))
  {
    hide Queued, Delivered;
    var p := s.heap[s.head].package;
    var d := Delivered(s.outcomes);
    DeliveredSnoc(s.outcomes, Popped(p));
    assert d + InFlight(s) == d;
    assert d + ([p.value] + Queued(AfterPop(s))) == d + [p.value] + InFlight(AfterPop(s)) + Queued(AfterPop(s));
    Cancel(d, [p.value] + Queued(AfterPop(s)), Queued(s));
  }

  lemma {:induction false} EmptyWhenEqual(s: State, chain: seq<Ref>)
    requires Inv(s, chain)
    ensures s.head == s.tail <==> Queued(s) == []
  {
    QueuedIsChain(s.heap, s.head, s.tail, chain);
    assert |chain| >= 2 ==> chain[..|chain| - 1][0] == s.head && s.heap[s.head].package.Some?;
  }

  lemma PushMemory(heap: map<Ref, Node>, t: Ref, p: Package, made: Ref)
    requires t in heap && t != made && heap[t] == Node(None, NULL)
    ensures var m := heap[made := Node(None, NULL)][t := Node(Some(p), NULL)];
            m[t := m[t].(next := made)] == heap[made := Node(None, NULL)][t := Node(Some(p), made)]
  {
  }

  lemma TwoSteps(s: State, step: Step, s': State, s'': State)
    requires Do(s, step) == Some(s') && Do(s', step) == Some(s'')
    ensures RunFrom(s, [step, step]) == Some(s'')
  {
    hide Do;
    RunNil(s'');
    RunCons(s', step, s'', []);
    RunCons(s, step, s', [step]);
  }

  /** Two consumer steps in a row, with the producer idle, are one pop of an empty queue ... */
  lemma UninterruptedNullPop(s: State, chain: seq<Ref>)
    requires Inv(s, chain) && Conserved(s) && s.consumer.Ready? && s.head == s.tail
    ensures var s' := s.(outcomes := s.outcomes + [Popped(None)]);
            && RunFrom(s, [Consume(Call.Pop), Consume(Call.Pop)]) == Some(s')
            && Inv(s', chain) && Conserved(s') && Queued(s') == Queued(s) == []
  {
    EmptyWhenEqual(s, chain);
    var step := Consume(Call.Pop);
    TwoSteps(s, step, s.(consumer := HeadLoaded(s.head)), s.(outcomes := s.outcomes + [Popped(None)]));
    var _ := RunKeeps(s, chain, [step, step]);
    DeliveredSnoc(s.outcomes, Popped(None));
    AnswerKeeps(s.outcomes, Popped(None));
  }

  /** ... or one check of any queue, which changes neither the list nor the memory. */
  lemma {:induction false} UninterruptedCheck(s: State, chain: seq<Ref>)
    requires Inv(s, chain) && Conserved(s) && s.consumer.Ready?
    ensures var s' := s.(outcomes := s.outcomes + [Checked(Queued(s) == [])]);
            && RunFrom(s, [Consume(Call.Empty), Consume(Call.Empty)]) == Some(s')
            && Inv(s', chain) && Conserved(s') && Queued(s') == Queued(s)
  {
    EmptyWhenEqual(s, chain);
    var step := Consume(Call.Empty);
    var answer := Checked(s.head == s.tail);
    TwoSteps(s, step, s.(consumer := EmptyCheck(s.head)), s.(outcomes := s.outcomes + [answer]));
    DeliveredSnoc(s.outcomes, answer);
    AnswerKeeps(s.outcomes, answer);
    ListOf(s, chain);
  }

  /** The queue between calls.  Its methods run `push`, `pop`, `empty` and the destructor without
      interruption; each is one schedule of the steps above. */
  class LockFreeAudioQueue {
    var heap: map<Ref, Node>
    var head: Ref
    var tail: Ref
    ghost var pushed: seq<Package>
    ghost var outcomes: seq<Outcome>
    ghost var allocs: nat
    ghost var frees: nat
    ghost var chain: seq<Ref>

    ghost function Now(): State
      reads this
    {
      State(heap, head, tail, Resting, Ready, pushed, outcomes, allocs, frees)
    }

    ghost predicate Valid()
      reads this
    {
      Inv(Now(), chain) && Conserved(Now())
    }

    constructor (first: Ref)
      requires first != NULL
      ensures Valid() && Now() == Initial(first) && Queued(Now()) == []
    {
      heap := map[first := Node(None, NULL)];
      head, tail := first, first;
      pushed, outcomes, allocs, frees, chain := [], [], 1, 0, [first];
      new;
      InitialInv(first);
    }

    method Push(package: Package, made: Ref)
      requires Valid() && made != NULL && made !in heap
      modifies this
      ensures Valid()
      ensures Queued(Now()) == old(Queued(Now())) + [package]
      ensures var step := Produce(package, made);
              RunFrom(old(Now()), [step, step, step, step, step]) == Some(Now())
    {
      hide Inv, Conserved, RunFrom, Queued;
      ghost var s := Now();
      ghost var list := UninterruptedPush(s, chain, package, made);
      heap := heap[made := Node(None, NULL)];
      var oldTail := tail;
      heap := heap[oldTail := heap[oldTail].(package := Some(package))];
      heap := heap[oldTail := heap[oldTail].(next := made)];
      tail := made;
      PushMemory(s.heap, oldTail, package, made);
      pushed, allocs, chain := pushed + [package], allocs + 1, list;
      assert Now() == AfterPush(s, package, made);
    }

    method Pop() returns (result: Option<Package>)
      requires Valid()
      modifies this
      ensures Valid()
      ensures result == None ==> old(Queued(Now())) == [] && Queued(Now()) == []
      ensures result.Some? ==> old(Queued(Now())) == [result.value] + Queued(Now())
      ensures var step := Consume(Call.Pop);
              RunFrom(old(Now()), if result == None then [step, step] else [step, step, step, step, step, step])
              == Some(Now())
    {
      hide Inv, Conserved, RunFrom, Queued;
      ghost var s := Now();
      EmptyWhenEqual(s, chain);
      var oldHead := head;
      if oldHead == tail {
        UninterruptedNullPop(s, chain);
        outcomes := outcomes + [Popped(None)];
        assert Now() == s.(outcomes := s.outcomes + [Popped(None)]);
        return None;
      }
      ghost var list := UninterruptedPop(s, chain);
      head := heap[oldHead].next;
      result := heap[oldHead].package;
      heap := heap - {oldHead};
      outcomes, frees, chain := outcomes + [Popped(result)], frees + 1, list;
      assert Now() == AfterPop(s);
    }

    method Empty() returns (result: bool)
      requires Valid()
      modifies this`outcomes
      ensures Valid()
      ensures result <==> Queued(Now()) == []
      ensures Now() == old(Now()).(outcomes := old(outcomes) + [Checked(result)])
      ensures RunFrom(old(Now()), [Consume(Call.Empty), Consume(Call.Empty)]) == Some(Now())
    {
      hide Inv, Conserved, RunFrom, Queued;
      ghost var s := Now();
      EmptyWhenEqual(s, chain);
      UninterruptedCheck(s, chain);
      result := head == tail;
      outcomes := outcomes + [Checked(result)];
      assert Now() == s.(outcomes := s.outcomes + [Checked(result)]);
    }

    /** Deletes every allocated node, each exactly once. */
    method Destroy() returns (ghost deleted: seq<Ref>)
      requires Valid()
      modifies this
      ensures heap == map[] && head == NULL
      ensures Nodes(deleted) == old(heap).Keys && |deleted| == |old(heap)|
      ensures frees == allocs
    {
      deleted := chain;
      Census(heap, deleted, {}, {});
      DeleteList(deleted);
    }

    method DeleteList(ghost list: seq<Ref>)
      requires IsList(heap, head, tail, list) && heap[tail].next == NULL && |heap| == |list|
      requires NULL !in heap
      modifies this`heap, this`head, this`frees
      ensures heap == map[] && head == NULL
      ensures frees == old(frees) + |list|
    {
      ghost var k, nodes := 0, heap;
      while head != NULL
        invariant k <= |list| && head == if k < |list| then list[k] else NULL
        invariant forall i :: k <= i < |list| ==> list[i] in heap && heap[list[i]] == nodes[list[i]]
        invariant |heap| == |list| - k && frees == old(frees) + k
        decreases |list| - k
      {
        var oldHead := head;
        assert k < |list| - 1 ==> list[k + 1] == nodes[oldHead].next;
        head := heap[oldHead].next;
        heap := heap - {oldHead};
        frees, k := frees + 1, k + 1;
      }
    }
  }
}
