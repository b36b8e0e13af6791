/** The leader's read-index queue: requests wait until a majority has confirmed the leadership,
    and are then released in the order in which they came. */
module ReadIndex {
  import opened Types
  import opened Quorum

  type Ctx = seq<Byte>

  /** A read request; `from` is 0 for a local client. */
  datatype Request = Request(from: Id, ctx: Ctx)

  datatype Status = Status(req: Request, index: nat, acks: set<Id>)

  /** What a request is promised: the commit index at the moment it was accepted. */
  datatype Ticket = Ticket(req: Request, index: nat)

  function TicketOf(s: Status): Ticket { Ticket(s.req, s.index) }

  ghost predicate NoDuplicates(queue: seq<Ctx>) {
    forall i, j :: 0 <= i < j < |queue| ==> queue[i] != queue[j]
  }

  /** Queue and map hold the same contexts, each once and under its own name. */
  ghost predicate InStep(queue: seq<Ctx>, pending: map<Ctx, Status>) {
    && NoDuplicates(queue)
    && (forall c :: c in queue <==> c in pending)
    && forall c :: c in pending ==> pending[c].req.ctx == c
  }

  function Statuses(queue: seq<Ctx>, pending: map<Ctx, Status>): (ss: seq<Status>)
    requires forall c :: c in queue ==> c in pending
    ensures |ss| == |queue| && forall i {:trigger ss[i]} :: 0 <= i < |queue| ==> ss[i] == pending[queue[i]]
  {
    seq(|queue|, i requires 0 <= i < |queue| => pending[queue[i]])
  }

  function Tickets(ss: seq<Status>): (ts: seq<Ticket>)
    ensures |ts| == |ss| && forall i {:trigger ts[i]} :: 0 <= i < |ss| ==> ts[i] == TicketOf(ss[i])
  {
    seq(|ss|, i requires 0 <= i < |ss| => TicketOf(ss[i]))
  }

  ghost predicate InOrder(ts: seq<Ticket>) {
    forall i, j :: 0 <= i <= j < |ts| ==> ts[i].index <= ts[j].index
  }

  /** The map without the contexts of `front`. */
  function Without(pending: map<Ctx, Status>, front: seq<Ctx>): map<Ctx, Status> {
    map c | c in pending && c !in front :: pending[c]
  }

  /** Erases the released requests from the map one by one. */
  method Erase(pending: map<Ctx, Status>, rss: seq<Status>, ghost front: seq<Ctx>) returns (rest: map<Ctx, Status>)
    requires |front| == |rss| && forall i :: 0 <= i < |rss| ==> rss[i].req.ctx == front[i]
    ensures rest == Without(pending, front)
  {
    rest := pending;
    var k := 0;
    while k < |rss|
      invariant k <= |rss| && rest == Without(pending, front[..k])
    {
      assert front[..k + 1] == front[..k] + [rss[k].req.ctx];
      rest := rest - {rss[k].req.ctx};
      k := k + 1;
    }
    assert front[..k] == front;
  }

  /** Taking the first k contexts out of the queue, and those contexts out of the map. */
  lemma TakeFirst(queue: seq<Ctx>, pending: map<Ctx, Status>, rest: map<Ctx, Status>, k: nat)
    requires InStep(queue, pending) && k <= |queue|
    requires rest == Without(pending, queue[..k])
    ensures InStep(queue[k..], rest)
    ensures Statuses(queue[k..], rest) == Statuses(queue, pending)[k..]
  {
    forall c | c in queue[k..] ensures c in rest {
      var i :| 0 <= i < |queue[k..]| && queue[k..][i] == c;
      assert queue[k + i] == c && c in queue;
    }
    forall m | 0 <= m < k ensures queue[m] in queue[..k] { assert queue[..k][m] == queue[m]; }
    forall c | c in rest ensures c in queue[k..] {
      var i :| 0 <= i < |queue| && queue[i] == c;
      assert queue[k..][i - k] == c;
    }
  }

  /** Nothing is lost or reordered when the first k requests move from the queue to the answers. */
  lemma ReleaseKeeps(answered: seq<Ticket>, queue: seq<Ctx>, pending: map<Ctx, Status>, k: nat)
    requires InStep(queue, pending) && k <= |queue|
    ensures var rest := Without(pending, queue[..k]);
            && InStep(queue[k..], rest)
            && answered + Tickets(Statuses(queue, pending))
               == answered + Tickets(Statuses(queue, pending)[..k]) + Tickets(Statuses(queue[k..], rest))
  {
    var ss := Statuses(queue, pending);
    TakeFirst(queue, pending, Without(pending, queue[..k]), k);
    TicketsSplit(answered, ss, k);
  }

  lemma TicketsSplit(answered: seq<Ticket>, ss: seq<Status>, k: nat)
    requires k <= |ss|
    ensures answered + Tickets(ss) == answered + Tickets(ss[..k]) + Tickets(ss[k..])
  {
    assert Tickets(ss) == Tickets(ss[..k]) + Tickets(ss[k..]);
  }

  lemma PutLast(queue: seq<Ctx>, pending: map<Ctx, Status>, s: Status)
    requires InStep(queue, pending) && s.req.ctx !in pending
    ensures InStep(queue + [s.req.ctx], pending[s.req.ctx := s])
    ensures Statuses(queue + [s.req.ctx], pending[s.req.ctx := s]) == Statuses(queue, pending) + [s]
  {
    forall i | 0 <= i < |queue| ensures queue[i] != s.req.ctx { assert queue[i] in queue; }
  }

  /** An acknowledgement changes no ticket. */
  lemma AckKeeps(queue: seq<Ctx>, pending: map<Ctx, Status>, ctx: Ctx, from: Id)
    requires InStep(queue, pending) && ctx in pending
    ensures var acked := pending[ctx := pending[ctx].(acks := pending[ctx].acks + {from})];
            && InStep(queue, acked) && acked.Keys == pending.Keys
            && Tickets(Statuses(queue, acked)) == Tickets(Statuses(queue, pending))
  {
    var acked := pending[ctx := pending[ctx].(acks := pending[ctx].acks + {from})];
    assert acked.Keys == pending.Keys;
  }

  /** The leader's own vote of confidence makes the acknowledgements of q - 1 others a majority. */
  lemma AcksAreMajority(voters: set<Id>, leader: Id, acks: set<Id>)
    requires leader in voters && acks <= voters - {leader}
    ensures |acks| + 1 >= QuorumSize(voters) <==> 2 * |acks + {leader}| > |voters|
  {
  }

  class ReadOnly {
    var pending: map<Ctx, Status>
    var queue: seq<Ctx>

    /** Everything accepted and answered since the node became leader. */
    ghost var accepted: seq<Ticket>
    ghost var answered: seq<Ticket>

    /** In every run: the queue and the map are in step; what has been answered, followed by what
        waits, is what was accepted, each request once and in order; and the promised indexes
        never decrease. */
    ghost predicate Valid()
      reads this
    {
      InStep(queue, pending) && accepted == answered + Tickets(Statuses(queue, pending)) && InOrder(accepted)
    }

    /** No promised index is beyond this one. */
    ghost predicate Covered(index: nat)
      reads this
    {
      forall i :: 0 <= i < |accepted| ==> accepted[i].index <= index
    }

    constructor ()
      ensures Valid() && queue == [] && accepted == answered == []
    {
      pending, queue, accepted, answered := map[], [], [], [];
    }

    /** The node has lost or regained the leadership. */
    method Clear()
      modifies this
      ensures Valid() && queue == [] && accepted == answered == []
    {
      pending, queue, accepted, answered := map[], [], [], [];
    }

    /** A request under a context that is already waiting is ignored. */
    method AddRequest(index: nat, req: Request)
      requires Valid() && Covered(index)
      modifies this
      ensures Valid() && Covered(index) && answered == old(answered)
      ensures queue == if req.ctx in old(pending) then old(queue) else old(queue) + [req.ctx]
      ensures accepted == if req.ctx in old(pending) then old(accepted) else old(accepted) + [Ticket(req, index)]
    {
      if req.ctx in pending { return; }
      var s := Status(req, index, {});
      PutLast(queue, pending, s);
      ghost var ss := Statuses(queue, pending);
      assert Tickets(ss + [s]) == Tickets(ss) + [TicketOf(s)];
      pending := pending[req.ctx := s];
      queue := queue + [req.ctx];
      accepted := accepted + [Ticket(req, index)];
    }

    /** Counts the voters that have confirmed the request, the leader included. */
    method RecvAck(from: Id, ctx: Ctx) returns (count: nat)
      requires Valid()
      modifies this`pending
      ensures Valid() && pending.Keys == old(pending).Keys
      ensures count == if ctx in pending then |pending[ctx].acks| + 1 else 0
      ensures forall c :: c in pending ==>
                pending[c] == old(pending)[c].(acks := old(pending)[c].acks + if c == ctx then {from} else {})
    {
      if ctx !in pending { return 0; }
      AckKeeps(queue, pending, ctx, from);
      pending := pending[ctx := pending[ctx].(acks := pending[ctx].acks + {from})];
      count := |pending[ctx].acks| + 1;
    }

    /** Releases every request up to the confirmed one, in order.  When the context does not wait,
        all requests are handed out and none is removed.  The abort for a queued context without
        a pending request is never taken. */
    method Advance(ctx: Ctx) returns (rss: seq<Status>, fatal: bool)
      requires Valid()
      modifies this
      ensures Valid() && !fatal && accepted == old(accepted)
      ensures ctx in old(pending) ==>
                && ctx !in pending && rss != [] && rss[|rss| - 1].req.ctx == ctx && |rss| <= |old(queue)|
                && rss == Statuses(old(queue), old(pending))[..|rss|] && queue == old(queue)[|rss|..]
                && answered == old(answered) + Tickets(rss)
      ensures ctx !in old(pending) ==>
                && rss == Statuses(old(queue), old(pending))
                && queue == old(queue) && pending == old(pending) && answered == old(answered)
    {
      rss := [];
      var i := 0;
      var found := false;
      while i < |queue| && !found
        invariant i <= |queue| && Valid() && rss == Statuses(queue, pending)[..i]
        invariant queue == old(queue) && pending == old(pending) && answered == old(answered) && accepted == old(accepted)
        invariant found ==> i > 0 && queue[i - 1] == ctx
        invariant !found ==> ctx !in queue[..i]
        decreases |queue| - i, !found
      {
        var okctx := queue[i];
        assert okctx in queue;
        if okctx !in pending { return rss, true; }
        rss := rss + [pending[okctx]];
        i := i + 1;
        found := okctx == ctx;
      }
      fatal := false;
      if found { Release(i, rss); }
    }

    /** Takes the first i contexts out. */
    method Release(i: nat, rss: seq<Status>)
      requires Valid() && i <= |queue| && rss == Statuses(queue, pending)[..i]
      modifies this
      ensures Valid() && accepted == old(accepted) && answered == old(answered) + Tickets(rss)
      ensures queue == old(queue)[i..] && pending == Without(old(pending), old(queue)[..i])
    {
      ReleaseKeeps(answered, queue, pending, i);
      var rest := Erase(pending, rss, queue[..i]);
      answered := answered + Tickets(rss);
      queue := queue[i..];
      pending := rest;
    }

    /** A heartbeat response with a context: when it completes a majority, the requests up to that
        context are answered. */
    method OnHeartbeatResp(voters: set<Id>, from: Id, ctx: Ctx) returns (rss: seq<Status>)
      requires Valid() && voters != {}
      modifies this
      ensures Valid() && accepted == old(accepted) && answered == old(answered) + Tickets(rss)
      ensures rss != [] <==> ctx in old(pending) && 2 * (|old(pending)[ctx].acks + {from}| + 1) > |voters|
      ensures rss != [] ==> rss[|rss| - 1].req.ctx == ctx && |rss| <= |old(queue)| && queue == old(queue)[|rss|..]
      ensures rss == [] ==> queue == old(queue)
    {
      var count := RecvAck(from, ctx);
      if count < QuorumSize(voters) {
        assert Tickets([]) == [];
        return [];
      }
      var fatal;
      rss, fatal := Advance(ctx);
    }
  }
}
