/** Queued requests and the one-shot results their callers wait for. */
module Futures {
  import opened Words

  /** A queued piece of work; its number stands for its future. */
  datatype Request<C> = Request(id: nat, content: C)

  type Futures<O> = map<nat, Option<O>>

  /** Set the outcome unless the future is done already. */
  function Resolve<O>(futures: Futures<O>, id: nat, outcome: O): Futures<O> {
    if id in futures && futures[id].None? then futures[id := Some(outcome)] else futures
  }

  /** The guarded `set_result` of both workers. */
  method Settle<O>(futures: Futures<O>, id: nat, outcome: O) returns (settled: Futures<O>)
    ensures settled == Resolve(futures, id, outcome)
  {
    settled := futures;
    if id in futures && futures[id].None? {
      settled := futures[id := Some(outcome)];
    }
  }

  function ResolveAll<O>(futures: Futures<O>, ids: seq<nat>, outcome: O): Futures<O> {
    if ids == [] then futures
    else Resolve(ResolveAll(futures, ids[..|ids| - 1], outcome), ids[|ids| - 1], outcome)
  }

  /** Draining resolves exactly the open futures among `ids`. */
  lemma {:induction false} ResolvedAll<O>(futures: Futures<O>, ids: seq<nat>, outcome: O, id: nat)
    ensures id in ResolveAll(futures, ids, outcome) <==> id in futures
    ensures id in futures ==>
              ResolveAll(futures, ids, outcome)[id] == if futures[id].None? && id in ids then Some(outcome) else futures[id]
  {
    if ids != [] {
      assert ids == ids[..|ids| - 1] + [ids[|ids| - 1]];
      ResolvedAll(futures, ids[..|ids| - 1], outcome, id);
    }
  }

  function Ids<C>(requests: seq<Request<C>>): (ids: seq<nat>)
    ensures |ids| == |requests|
  {
    seq(|requests|, i requires 0 <= i < |requests| => requests[i].id)
  }

  predicate Among<C>(requests: seq<Request<C>>, id: nat) {
    id in Ids(requests)
  }

  lemma AmongAppend<C>(requests: seq<Request<C>>, x: Request<C>, id: nat)
    ensures Among(requests + [x], id) <==> Among(requests, id) || x.id == id
  {
    assert Ids(requests + [x]) == Ids(requests) + [x.id];
  }

  lemma AmongTail<C>(requests: seq<Request<C>>, id: nat)
    requires requests != []
    ensures Among(requests, id) <==> requests[0].id == id || Among(requests[1..], id)
  {
    assert Ids(requests) == [requests[0].id] + Ids(requests[1..]);
  }
}
