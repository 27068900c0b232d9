/** Requests of the server to its client: their ids and the handlers of the responses. */
module OutgoingQueue {
  import opened Options

  const MIN_ID: int := -0x8000_0000
  const MAX_ID: int := 0x7FFF_FFFF
  const IDS: int := 0x1_0000_0000

  /** The next 32-bit id; the counter wraps around when overflow is not checked. */
  function Following(id: int): int {
    if id == MAX_ID then MIN_ID else id + 1
  }

  /** The id given out after n others. */
  function IdAfter(n: nat): int {
    if n == 0 then 0 else Following(IdAfter(n - 1))
  }

  lemma {:induction false} IdAfterIs(n: nat)
    ensures IdAfter(n) == (n - MIN_ID) % IDS + MIN_ID
  {
    if n > 0 {
      IdAfterIs(n - 1);
    }
  }

  /** A number is so many rounds and a rest, in only one way. */
  lemma RestIs(x: int, rounds: int, rest: int)
    requires x == IDS * rounds + rest && 0 <= rest < IDS
    ensures x % IDS == rest
  {
  }

  /** Two ids given out are equal exactly when their numbers differ by whole rounds of the
      counter; so no id is used twice among any 2^32 in a row. */
  lemma SameIdIff(j: nat, k: nat)
    requires j <= k
    ensures IdAfter(j) == IdAfter(k) <==> (k - j) % IDS == 0
  {
    IdAfterIs(j);
    IdAfterIs(k);
    var a, b := j - MIN_ID, k - MIN_ID;
    var difference := b % IDS - a % IDS;
    if difference >= 0 {
      RestIs(k - j, b / IDS - a / IDS, difference);
    } else {
      RestIs(k - j, b / IDS - a / IDS - 1, difference + IDS);
    }
  }

  class Outgoing<H> {
    var nextId: int
    var pending: map<int, H>
    /** How many ids were given out. */
    ghost var given: nat

    ghost predicate Valid()
      reads this
    {
      && nextId == IdAfter(given)
      && forall id :: id in pending ==> exists k: nat :: k < given && IdAfter(k) == id
    }

    constructor ()
      ensures Valid() && pending == map[] && given == 0
    {
      nextId, pending, given := 0, map[], 0;
    }

    method AllocRequestId() returns (id: int)
      requires Valid()
      modifies `nextId, `given
      ensures Valid() && id == IdAfter(old(given)) && given == old(given) + 1
    {
      id := nextId;
      nextId := Following(nextId);
      given := given + 1;
    }

    /** Keeps the handler under a fresh id: no waiting handler is lost before the counter
        has gone round. */
    method Register(handler: H) returns (id: int)
      requires Valid()
      modifies this
      ensures Valid() && pending == old(pending)[id := handler]
      ensures old(given) < IDS ==> id !in old(pending)
    {
      ghost var before := given;
      id := AllocRequestId();
      forall k: nat | k < before && before < IDS ensures IdAfter(k) != id {
        SameIdIff(k, before);
      }
      pending := pending[id := handler];
      assert IdAfter(before) == id;
    }

    /** A response takes its handler; a second one with the same id finds none. */
    method Complete(id: int) returns (handler: Option<H>)
      requires Valid()
      modifies `pending
      ensures Valid() && pending == old(pending) - {id}
      ensures handler == if id in old(pending) then Some(old(pending)[id]) else None
    {
      handler := if id in pending then Some(pending[id]) else None;
      pending := pending - {id};
    }
  }
}
