/** The server's pool of client connections: a fixed table of descriptor
    slots, the descriptor sets handed to `select`, and the sweep over the
    ready descriptors that reads one line from each and answers it.

    The pool is first described as a value (`PoolState`) with the
    operations on it as functions; the class `Pool` then does the same
    work step by step on an array and is proved to agree with them. */
module ConnectionPool {
  import opened Wrappers
  import opened StockTree
  import opened Commands

  /** `FD_SETSIZE`: the number of slots, and the size of a descriptor set. */
  const FdSetSize := 1024

  /** The pool's fields other than the per-slot read buffers. A descriptor
      set is a `set<int>`. */
  datatype PoolState = PoolState(clientfd: seq<int>, maxi: int, maxfd: int,
                                 readSet: set<int>, readySet: set<int>, nready: int)

  /** What the pool keeps true between operations: the slot table has its
      fixed size, `maxi` is -1 or a slot index, every occupied slot (one
      holding a descriptor, not a negative number) lies at or below `maxi`
      and holds a descriptor no greater than `maxfd`, and every descriptor
      `select` is asked to watch is no greater than `maxfd`. The sweep looks
      at slots `0..maxi` only and `select` at descriptors below `maxfd + 1`
      only, so these bounds are what keep a connection from being ignored. */
  predicate Invariant(p: PoolState) {
    && |p.clientfd| == FdSetSize
    && -1 <= p.maxi < FdSetSize
    && (forall i :: 0 <= i < |p.clientfd| && p.clientfd[i] >= 0 ==>
          i <= p.maxi && p.clientfd[i] <= p.maxfd)
    && (forall fd :: fd in p.readSet ==> fd <= p.maxfd)
  }

  /** What `init_pool` leaves: no slot in use, `maxi` at -1, and only the
      listening descriptor watched. The ready set and `nready` are not
      touched. */
  function Init(p: PoolState, listenfd: int): PoolState {
    p.(clientfd := seq(FdSetSize, _ => -1), maxi := -1, maxfd := listenfd, readSet := {listenfd})
  }

  /** The lowest free slot (one holding a negative number), if any. */
  function FirstFree(slots: seq<int>): (r: Option<nat>)
    ensures r.Some? ==> r.value < |slots| && slots[r.value] < 0
                        && forall j :: 0 <= j < r.value ==> slots[j] >= 0
    ensures r.None? ==> forall j :: 0 <= j < |slots| ==> slots[j] >= 0
  {
    if slots == [] then None
    else if slots[0] < 0 then Some(0)
    else match FirstFree(slots[1..])
      case None => None
      case Some(k) => Some(k + 1)
  }

  /** What `add_client` leaves. It counts the listening descriptor as
      handled, then puts the new descriptor in the lowest free slot, asks
      `select` to watch it and raises `maxfd` and `maxi` where needed. With
      no free slot it changes nothing more; the server then stops with
      "Too many clients". */
  function Add(p: PoolState, connfd: int): PoolState {
    var q := p.(nready := p.nready - 1);
    match FirstFree(p.clientfd)
    case None => q
    case Some(k) =>
      q.(clientfd := p.clientfd[k := connfd],
         readSet := p.readSet + {connfd},
         maxfd := if connfd > p.maxfd then connfd else p.maxfd,
         maxi := if k > p.maxi then k else p.maxi)
  }

  /** A reply written back to a client. */
  datatype Write = Write(fd: int, text: string)

  /** The outcome of a sweep over the slots: the pool, the store, the
      replies in the order written, and the slot index the loop stopped at. */
  datatype Swept<S> = Swept(pool: PoolState, store: S, writes: seq<Write>, stop: int)

  /** Slot `i` is serviced by the sweep: it holds a descriptor above 0 that
      `select` reported ready. Descriptor 0 is never serviced. */
  predicate Ready(p: PoolState, i: int) {
    0 <= i < |p.clientfd| && p.clientfd[i] > 0 && p.clientfd[i] in p.readySet
  }

  /** Slot `i` is serviced and its client has closed the connection: reading
      gives end-of-file, modelled as the empty line. */
  predicate Closed(p: PoolState, i: int, incoming: int -> string) {
    Ready(p, i) && incoming(p.clientfd[i]) == []
  }

  /** The number of serviced slots among `lo..hi-1`. */
  function ReadyCount(p: PoolState, lo: int, hi: int): nat
    decreases hi - lo
  {
    if lo >= hi then 0 else (if Ready(p, lo) then 1 else 0) + ReadyCount(p, lo + 1, hi)
  }

  /** The descriptors of the slots among `lo..hi-1` whose clients closed. */
  function ClosedFds(p: PoolState, lo: int, hi: int, incoming: int -> string): set<int>
    decreases hi - lo
  {
    if lo >= hi then {}
    else (if Closed(p, lo, incoming) then {p.clientfd[lo]} else {})
         + ClosedFds(p, lo + 1, hi, incoming)
  }

  /** Slot `i` is serviced, its client sent a line, and the line is a buy
      or sell command whose two numbers parse: exactly the slots that get
      a reply. */
  predicate Answered(p: PoolState, i: int, incoming: int -> string) {
    Ready(p, i) && incoming(p.clientfd[i]) != [] && !Classify(incoming(p.clientfd[i])).NoCommand?
  }

  /** The descriptors of the answered slots among `lo..hi-1`, in slot order. */
  function AnsweredFds(p: PoolState, lo: int, hi: int, incoming: int -> string): seq<int>
    decreases hi - lo
  {
    if lo >= hi then []
    else (if Answered(p, lo, incoming) then [p.clientfd[lo]] else [])
         + AnsweredFds(p, lo + 1, hi, incoming)
  }

  /** The descriptors a sequence of replies goes to, in order. */
  function WriteFds(ws: seq<Write>): seq<int> {
    if ws == [] then [] else [ws[0].fd] + WriteFds(ws[1..])
  }

  /** One pass of the sweep's loop body, at slot `i`. A serviced slot
      lowers `nready`; its line is the one `incoming` gives for its
      descriptor. A non-empty line is classified and answered; end-of-file
      frees the slot and stops watching the descriptor, without lowering
      `maxi`. */
  function Visit<S>(p: PoolState, i: int, incoming: int -> string, root: Option<Tree>, store: S,
                    buy: (S, int, int) -> (S, bool), sell: (S, int, int) -> S)
    : (r: Swept<S>)
    requires 0 <= i < |p.clientfd|
    ensures r.pool.maxi == p.maxi && r.pool.maxfd == p.maxfd && r.pool.readySet == p.readySet
    ensures r.pool.clientfd == p.clientfd[i := if Closed(p, i, incoming) then -1 else p.clientfd[i]]
    ensures r.pool.nready == p.nready - (if Ready(p, i) then 1 else 0)
    ensures r.pool.readSet == p.readSet - (if Closed(p, i, incoming) then {p.clientfd[i]} else {})
    ensures |r.writes| <= (if Ready(p, i) then 1 else 0)
    ensures forall k :: 0 <= k < |r.writes| ==>
              && r.writes[k].fd == p.clientfd[i]
              && r.writes[k].text in {BuySuccess, NotEnoughStock, SellSuccess}
    ensures r.stop == i + 1
  {
    var fd := p.clientfd[i];
    if fd > 0 && fd in p.readySet then
      var q := p.(nready := p.nready - 1);
      var line := incoming(fd);
      if line != [] then
        var (after, reply) := Respond(Classify(line), root, store, buy, sell);
        var out := match reply case Some(text) => [Write(fd, text)] case None => [];
        Swept(q, after, out, i + 1)
      else
        Swept(q.(clientfd := p.clientfd[i := -1], readSet := p.readSet - {fd}), store, [], i + 1)
    else Swept(p, store, [], i + 1)
  }

  /** A slot gets a reply exactly when it is answered. */
  lemma VisitAnswers<S>(p: PoolState, i: int, incoming: int -> string, root: Option<Tree>, store: S,
                        buy: (S, int, int) -> (S, bool), sell: (S, int, int) -> S)
    requires 0 <= i < |p.clientfd|
    ensures |Visit(p, i, incoming, root, store, buy, sell).writes|
            == (if Answered(p, i, incoming) then 1 else 0)
  {
  }

  /** `check_clients` from slot `i` on: the loop runs while `i <= maxi` and
      `nready > 0`. */
  function Sweep<S>(p: PoolState, i: int, incoming: int -> string, root: Option<Tree>, store: S,
                    buy: (S, int, int) -> (S, bool), sell: (S, int, int) -> S): Swept<S>
    requires 0 <= i && p.maxi < |p.clientfd|
    decreases |p.clientfd| - i
  {
    if i <= p.maxi && p.nready > 0 then
      var v := Visit(p, i, incoming, root, store, buy, sell);
      var rest := Sweep(v.pool, i + 1, incoming, root, v.store, buy, sell);
      rest.(writes := v.writes + rest.writes)
    else Swept(p, store, [], i)
  }

  /** `init_pool` makes the invariant hold, whatever the pool held before. */
  lemma InitEstablishes(p: PoolState, listenfd: int)
    ensures var q := Init(p, listenfd);
      && Invariant(q)
      && (forall i :: 0 <= i < |q.clientfd| ==> q.clientfd[i] < 0)
      && FirstFree(q.clientfd) == Some(0)
  {
  }

  /** `add_client` with a free slot: the lowest free slot `k` takes the new
      descriptor, no other slot changes, the descriptor is watched, `maxfd`
      and `maxi` become the larger of their old value and the descriptor
      and slot, and `nready` drops by exactly one. */
  lemma AddTakesLowestFree(p: PoolState, connfd: int, k: nat)
    requires k < |p.clientfd| && p.clientfd[k] < 0
    requires forall j :: 0 <= j < k ==> p.clientfd[j] >= 0
    ensures var q := Add(p, connfd);
      && q.clientfd[k] == connfd
      && |q.clientfd| == |p.clientfd|
      && (forall j :: 0 <= j < |p.clientfd| && j != k ==> q.clientfd[j] == p.clientfd[j])
      && q.readSet == p.readSet + {connfd}
      && q.maxfd == (if connfd > p.maxfd then connfd else p.maxfd)
      && q.maxi == (if k > p.maxi then k else p.maxi)
      && q.readySet == p.readySet
      && q.nready == p.nready - 1
  {
  }

  /** `add_client` on a full pool overwrites no slot: only `nready` drops. */
  lemma AddToFullPool(p: PoolState, connfd: int)
    requires forall j :: 0 <= j < |p.clientfd| ==> p.clientfd[j] >= 0
    ensures Add(p, connfd) == p.(nready := p.nready - 1)
  {
  }

  /** `add_client` keeps the invariant, and the new connection lies where
      the sweep and `select` will look for it. */
  lemma AddPreservesInvariant(p: PoolState, connfd: int)
    requires Invariant(p)
    ensures Invariant(Add(p, connfd))
    ensures FirstFree(p.clientfd).Some? ==> connfd in Add(p, connfd).readSet
  {
  }

  /** Slots the loop has not reached and the ready set decide which slots
      are serviced and closed. */
  lemma {:induction false} ReadyCountFrame(p: PoolState, q: PoolState, lo: int, hi: int,
                                           incoming: int -> string)
    requires p.readySet == q.readySet
    requires |p.clientfd| == |q.clientfd|
    requires forall j :: lo <= j < hi && 0 <= j < |p.clientfd| ==> p.clientfd[j] == q.clientfd[j]
    ensures ReadyCount(p, lo, hi) == ReadyCount(q, lo, hi)
    ensures ClosedFds(p, lo, hi, incoming) == ClosedFds(q, lo, hi, incoming)
    decreases hi - lo
  {
    if lo < hi {
      ReadyCountFrame(p, q, lo + 1, hi, incoming);
    }
  }

  /** Likewise, those slots and the ready set decide which slots are answered. */
  lemma {:induction false} AnsweredFrame(p: PoolState, q: PoolState, lo: int, hi: int,
                                         incoming: int -> string)
    requires p.readySet == q.readySet
    requires |p.clientfd| == |q.clientfd|
    requires forall j :: lo <= j < hi && 0 <= j < |p.clientfd| ==> p.clientfd[j] == q.clientfd[j]
    ensures AnsweredFds(p, lo, hi, incoming) == AnsweredFds(q, lo, hi, incoming)
    decreases hi - lo
  {
    if lo < hi {
      AnsweredFrame(p, q, lo + 1, hi, incoming);
    }
  }

  /** What a sweep from slot `i` does to the pool. It keeps `maxi`, `maxfd`
      and the ready set; it stops at a slot index `stop` no earlier than
      `i` and, once it has run, no later than `maxi + 1`, and before
      `maxi + 1` only because `nready` ran out. `nready` drops by one per
      serviced slot among `i..stop-1`. A slot changes only if the sweep
      reached it, it was serviced and its client closed: it is then freed
      and its descriptor is no longer watched. */
  lemma {:induction false} SweepEffect<S>(p: PoolState, i: int, incoming: int -> string,
                                          root: Option<Tree>, store: S,
                                          buy: (S, int, int) -> (S, bool), sell: (S, int, int) -> S)
    requires 0 <= i && p.maxi < |p.clientfd|
    ensures var r := Sweep(p, i, incoming, root, store, buy, sell);
      && r.pool.maxi == p.maxi && r.pool.maxfd == p.maxfd && r.pool.readySet == p.readySet
      && i <= r.stop && (r.stop > i ==> r.stop <= p.maxi + 1)
      && (r.stop <= p.maxi ==> r.pool.nready <= 0)
      && (p.nready >= 0 ==> r.pool.nready >= 0)
      && r.pool.nready == p.nready - ReadyCount(p, i, r.stop)
      && |r.pool.clientfd| == |p.clientfd|
      && (forall j :: 0 <= j < |p.clientfd| ==>
            r.pool.clientfd[j] ==
              if i <= j < r.stop && Closed(p, j, incoming) then -1 else p.clientfd[j])
      && r.pool.readSet == p.readSet - ClosedFds(p, i, r.stop, incoming)
    decreases |p.clientfd| - i
  {
    if i <= p.maxi && p.nready > 0 {
      var v := Visit(p, i, incoming, root, store, buy, sell);
      var r := Sweep(v.pool, i + 1, incoming, root, v.store, buy, sell);
      SweepEffect(v.pool, i + 1, incoming, root, v.store, buy, sell);
      ReadyCountFrame(p, v.pool, i + 1, r.stop, incoming);
      assert forall j :: i < j < |p.clientfd| ==>
        (Closed(v.pool, j, incoming) <==> Closed(p, j, incoming));
    }
  }

  /** The replies a sweep writes: exactly one per answered slot the sweep
      reached, in slot order, and none to any other slot; so at most one per
      serviced slot, each to a descriptor `select` reported ready, and each
      one of the buy and sell replies; the stock listing is never sent. */
  lemma {:induction false} SweepWrites<S>(p: PoolState, i: int, incoming: int -> string,
                                          root: Option<Tree>, store: S,
                                          buy: (S, int, int) -> (S, bool), sell: (S, int, int) -> S)
    requires 0 <= i && p.maxi < |p.clientfd|
    ensures var r := Sweep(p, i, incoming, root, store, buy, sell);
      && WriteFds(r.writes) == AnsweredFds(p, i, r.stop, incoming)
      && |r.writes| == |AnsweredFds(p, i, r.stop, incoming)|
      && |r.writes| <= ReadyCount(p, i, r.stop)
      && forall k :: 0 <= k < |r.writes| ==>
           && r.writes[k].fd > 0 && r.writes[k].fd in p.readySet
           && r.writes[k].text in {BuySuccess, NotEnoughStock, SellSuccess}
    decreases |p.clientfd| - i
  {
    if i <= p.maxi && p.nready > 0 {
      var v := Visit(p, i, incoming, root, store, buy, sell);
      var r := Sweep(v.pool, i + 1, incoming, root, v.store, buy, sell);
      SweepWrites(v.pool, i + 1, incoming, root, v.store, buy, sell);
      SweepEffect(v.pool, i + 1, incoming, root, v.store, buy, sell);
      ReadyCountFrame(p, v.pool, i + 1, r.stop, incoming);
      AnsweredFrame(p, v.pool, i + 1, r.stop, incoming);
      VisitAnswers(p, i, incoming, root, store, buy, sell);
      WriteFdsAppend(v.writes, r.writes);
    }
  }

  lemma {:induction false} WriteFdsAppend(a: seq<Write>, b: seq<Write>)
    ensures WriteFds(a + b) == WriteFds(a) + WriteFds(b)
    ensures |WriteFds(a)| == |a|
  {
    if a == [] {
      assert a + b == b;
    } else {
      assert (a + b)[0] == a[0];
      assert (a + b)[1..] == a[1..] + b;
      WriteFdsAppend(a[1..], b);
    }
  }

  /** One step of the sweep, with the replies written so far in front. */
  lemma SweepUnfold<S>(p: PoolState, i: int, incoming: int -> string, root: Option<Tree>, store: S,
                       buy: (S, int, int) -> (S, bool), sell: (S, int, int) -> S, done: seq<Write>)
    requires 0 <= i <= p.maxi < |p.clientfd| && p.nready > 0
    ensures var v := Visit(p, i, incoming, root, store, buy, sell);
      var rest := Sweep(v.pool, i + 1, incoming, root, v.store, buy, sell);
      var r := Sweep(p, i, incoming, root, store, buy, sell);
      r.(writes := done + r.writes) == rest.(writes := (done + v.writes) + rest.writes)
  {
    var v := Visit(p, i, incoming, root, store, buy, sell);
    var rest := Sweep(v.pool, i + 1, incoming, root, v.store, buy, sell);
    assert done + (v.writes + rest.writes) == (done + v.writes) + rest.writes;
  }

  /** `check_clients` keeps the invariant: freeing a slot and no longer
      watching its descriptor never breaks it, and `maxi` is not lowered. */
  lemma SweepPreservesInvariant<S>(p: PoolState, incoming: int -> string,
                                   root: Option<Tree>, store: S,
                                   buy: (S, int, int) -> (S, bool), sell: (S, int, int) -> S)
    requires Invariant(p)
    ensures Invariant(Sweep(p, 0, incoming, root, store, buy, sell).pool)
  {
    SweepEffect(p, 0, incoming, root, store, buy, sell);
  }

  /** The server's `static pool`: the slot table is an array the methods
      update in place, the other fields are updated by assignment. The
      per-slot read buffers are left out. */
  class Pool {
    var maxfd: int
    var readSet: set<int>
    var readySet: set<int>
    var nready: int
    var maxi: int
    const clientfd: array<int>

    /** The fields as a value. */
    function State(): PoolState
      reads this, clientfd
    {
      PoolState(clientfd[..], maxi, maxfd, readSet, readySet, nready)
    }

    predicate Valid()
      reads this, clientfd
    {
      clientfd.Length == FdSetSize && Invariant(State())
    }

    /** Static storage: every field and slot starts at zero, and the sets empty. */
    constructor ()
      ensures fresh(clientfd)
      ensures State() == PoolState(seq(FdSetSize, _ => 0), 0, 0, {}, {}, 0)
    {
      maxfd, readSet, readySet, nready, maxi := 0, {}, {}, 0, 0;
      clientfd := new int[FdSetSize](_ => 0);
    }

    /** `init_pool`: frees every slot, then watches only `listenfd`. */
    method InitPool(listenfd: int)
      requires clientfd.Length == FdSetSize
      modifies this, clientfd
      ensures Valid()
      ensures State() == Init(old(State()), listenfd)
    {
      maxi := -1;
      var i := 0;
      while i < FdSetSize
        invariant 0 <= i <= FdSetSize
        invariant forall j :: 0 <= j < i ==> clientfd[j] == -1
        modifies clientfd
      {
        clientfd[i] := -1;
        i := i + 1;
      }
      maxfd := listenfd;
      readSet := {listenfd};
      assert clientfd[..] == seq(FdSetSize, _ => -1);
    }

    /** `add_client`: the slot chosen is the lowest free one, or none when
        the pool is full (the server then stops with an error). */
    method AddClient(connfd: int) returns (slot: Option<nat>)
      requires Valid()
      modifies this, clientfd
      ensures Valid()
      ensures slot == FirstFree(old(clientfd[..]))
      ensures State() == Add(old(State()), connfd)
    {
      nready := nready - 1;
      var i := 0;
      while i < FdSetSize
        invariant 0 <= i <= FdSetSize
        invariant forall j :: 0 <= j < i ==> clientfd[j] >= 0
        invariant State() == old(State()).(nready := old(nready) - 1)
      {
        if clientfd[i] < 0 {
          assert FirstFree(clientfd[..]) == Some(i);
          clientfd[i] := connfd;
          readSet := readSet + {connfd};
          if connfd > maxfd {
            maxfd := connfd;
          }
          if i > maxi {
            maxi := i;
          }
          slot := Some(i);
          assert clientfd[..] == old(clientfd[..])[i := connfd];
          AddPreservesInvariant(old(State()), connfd);
          return;
        }
        i := i + 1;
      }
      slot := None;
    }

    /** `check_clients`: one line from each ready client, answered; the
        reads and the reply functions are parameters. It does what `Sweep`
        says and keeps the pool valid. */
    method CheckClients<S>(incoming: int -> string, root: Option<Tree>, store: S,
                           buy: (S, int, int) -> (S, bool), sell: (S, int, int) -> S)
      returns (store': S, writes: seq<Write>)
      requires Valid()
      modifies this, clientfd
      ensures Valid()
      ensures var r := Sweep(old(State()), 0, incoming, root, store, buy, sell);
        State() == r.pool && store' == r.store && writes == r.writes
    {
      store', writes := store, [];
      var i := 0;
      while i <= maxi && nready > 0
        invariant 0 <= i && clientfd.Length == FdSetSize && maxi == old(maxi) && maxi < FdSetSize
        invariant var r := Sweep(State(), i, incoming, root, store', buy, sell);
          Sweep(old(State()), 0, incoming, root, store, buy, sell)
          == r.(writes := writes + r.writes)
        decreases FdSetSize - i
      {
        SweepUnfold(State(), i, incoming, root, store', buy, sell, writes);
        var out;
        store', out := ServeSlot(i, incoming, root, store', buy, sell);
        writes := writes + out;
        i := i + 1;
      }
      SweepPreservesInvariant(old(State()), incoming, root, store, buy, sell);
    }
  
    /** One pass of `check_clients`'s loop body, at slot `i`. */
    method ServeSlot<S>(i: int, incoming: int -> string, root: Option<Tree>, store: S,
                        buy: (S, int, int) -> (S, bool), sell: (S, int, int) -> S)
      returns (store': S, out: seq<Write>)
      requires 0 <= i < clientfd.Length
      modifies this, clientfd
      ensures var v := Visit(old(State()), i, incoming, root, store, buy, sell);
        State() == v.pool && store' == v.store && out == v.writes
    {
      store', out := store, [];
      var connfd := clientfd[i];
      if connfd > 0 && connfd in readySet {
        nready := nready - 1;
        var line := incoming(connfd);
        if line != [] {
          var reply;
          store', reply := ProcessLine(line, root, store, buy, sell);
          match reply {
            case Some(text) => out := [Write(connfd, text)];
            case None =>
          }
        } else {
          readSet := readSet - {connfd};
          clientfd[i] := -1;
        }
      }
    }
  }
}
