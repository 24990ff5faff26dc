// The graph-execution request queue (src/services/graph_requests.cpp): a
// first-in first-out queue of requests, behind a lazily created singleton.
// Engine nodes are represented by integer handles; the mutexes are not
// modelled.
module GraphRequestQueue {
  import opened Wrappers
  import opened ExrOutput

  /** A request: the extra nodes to run and the kind of run. */
  datatype Request = Request(extraNodes: seq<int>, rtype: ExecutionType)

  /** `take` on the queue as a value: the front request and the rest, or
      nothing for an empty queue. */
  function Take(q: seq<Request>): (r: (Option<Request>, seq<Request>))
    ensures q == [] ==> r == (None, q)
    ensures q != [] ==> r.0 == Some(q[0]) && [q[0]] + r.1 == q
  {
    if q == [] then (None, q) else (Some(q[0]), q[1..])
  }

  /** First in, first out: adding at the back does not change what the
      next `take` returns from a non-empty queue, and the rest keeps the
      added request at its back. */
  lemma TakeAfterAdd(q: seq<Request>, r: Request)
    ensures q == [] ==> Take(q + [r]) == (Some(r), [])
    ensures q != [] ==> Take(q + [r]) == (Take(q).0, Take(q).1 + [r])
  {
    if q != [] {
      assert (q + [r])[1..] == q[1..] + [r];
    }
  }

  /** Taking `n` requests in turn returns the first `n` requests added, in
      the order they were added. */
  function TakeMany(q: seq<Request>, n: nat): (r: (seq<Option<Request>>, seq<Request>))
    decreases n
  {
    if n == 0 then ([], q)
    else
      var (first, rest) := Take(q);
      var (more, left) := TakeMany(rest, n - 1);
      ([first] + more, left)
  }

  lemma {:induction false} TakeManyInOrder(q: seq<Request>, n: nat)
    requires n <= |q|
    ensures |TakeMany(q, n).0| == n
    ensures forall i :: 0 <= i < n ==> TakeMany(q, n).0[i] == Some(q[i])
    ensures TakeMany(q, n).1 == q[n..]
    decreases n
  {
    if n > 0 {
      TakeManyInOrder(q[1..], n - 1);
      assert q[1..][n - 1..] == q[n..];
    }
  }

  class GraphRequests {
    /** `_execution_requests`. */
    var queue: seq<Request>

    constructor ()
      ensures queue == []
    {
      queue := [];
    }

    /** `add`: the request joins the back of the queue. */
    method Add(request: Request)
      modifies this
      ensures queue == old(queue) + [request]
    {
      queue := queue + [request];
    }

    /** `add_ui_run_with(terminal)`: a UI request whose only extra node is
        the terminal. */
    method AddUiRunWith(terminal: int)
      modifies this
      ensures queue == old(queue) + [Request([terminal], UI)]
    {
      Add(Request([terminal], UI));
    }

    /** `take`: the front request, removed; nothing, and no change, on an
        empty queue. */
    method TakeFront() returns (r: Option<Request>)
      modifies this
      ensures (r, queue) == Take(old(queue))
      ensures old(queue) == [] <==> r.None?
      ensures r.Some? ==> |queue| == |old(queue)| - 1
    {
      if queue == [] {
        return None;
      }
      r := Some(queue[0]);
      queue := queue[1..];
    }
  }

  /** The singleton slot behind `Get` and `Shutdown`. */
  class Singleton {
    var instance: GraphRequests?

    constructor ()
      ensures instance == null
    {
      instance := null;
    }

    /** `Get`: creates the queue on first use, then returns the same one
        until `Shutdown`. */
    method Get() returns (g: GraphRequests)
      modifies this
      ensures old(instance) != null ==> g == old(instance)
      ensures old(instance) == null ==> fresh(g) && g.queue == []
      ensures instance == g
    {
      if instance == null {
        instance := new GraphRequests();
      }
      g := instance;
    }

    /** `Shutdown`: drops the queue; the next `Get` makes a new one. */
    method Shutdown()
      modifies this
      ensures instance == null
    {
      instance := null;
    }
  }
}
