/** The allocator of tags and fids: returned values are handed out again, last in first out, before new ones are
    made. */
module Pools {
  import opened Options

  datatype Ids = Ids(cache: seq<nat>, start: nat, limit: nat)

  /** None when everything up to the limit is in use. */
  function Take(p: Ids): Option<nat>
  {
    if p.cache != [] then Some(p.cache[|p.cache| - 1])
    else if p.start == p.limit then None
    else Some(p.start)
  }

  function Taken(p: Ids): Ids
  {
    if p.cache != [] then p.(cache := p.cache[..|p.cache| - 1])
    else if p.start == p.limit then p
    else p.(start := p.start + 1)
  }

  function Returned(p: Ids, v: nat): Ids
  {
    p.(cache := p.cache + [v])
  }

  class Pool {
    var cache: seq<nat>
    var start: nat
    const limit: nat

    function View(): Ids
      reads this
    {
      Ids(cache, start, limit)
    }

    constructor (start: nat, limit: nat)
      ensures View() == Ids([], start, limit)
    {
      cache, this.start, this.limit := [], start, limit;
    }

    method Get() returns (v: nat, ok: bool)
      modifies this
      ensures ok <==> Take(old(View())).Some?
      ensures ok ==> v == Take(old(View())).value
      ensures View() == Taken(old(View()))
    {
      if |cache| > 0 {
        v := cache[|cache| - 1];
        cache := cache[..|cache| - 1];
        return v, true;
      }
      if start == limit { return 0, false; }
      v, start, ok := start, start + 1, true;
    }

    method Put(v: nat)
      modifies this
      ensures View() == Returned(old(View()), v)
    {
      cache := cache + [v];
    }
  }

  /** Ids in use and ids in the cache are apart, each is there once, and all were made from `first` on. */
  ghost predicate Apart(p: Ids, first: nat, used: set<nat>)
  {
    && first <= p.start <= p.limit
    && (forall i | 0 <= i < |p.cache| :: first <= p.cache[i] < p.start && p.cache[i] !in used)
    && (forall i, j | 0 <= i < j < |p.cache| :: p.cache[i] != p.cache[j])
    && (forall v | v in used :: first <= v < p.start)
  }

  /** A value handed out is new to its user, within the limits, and never handed out again while in use. */
  lemma TakeApart(p: Ids, first: nat, used: set<nat>)
    requires Apart(p, first, used) && Take(p).Some?
    ensures var v := Take(p).value; first <= v < p.limit && v !in used && Apart(Taken(p), first, used + {v})
  {
    assert p.cache != [] ==> p.cache[|p.cache| - 1] in p.cache;
  }

  lemma ReturnApart(p: Ids, first: nat, used: set<nat>, v: nat)
    requires Apart(p, first, used) && v in used
    ensures Apart(Returned(p, v), first, used - {v})
  {
  }
}
