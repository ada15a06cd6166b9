/** The ring of outstanding get requests of code/src/turbine/async_exec.c, and the part of the
    ADLB client it talks to. */
module AsyncRing {
  import opened Options
  import opened AsyncTasks

  /** Place `i` of a ring of `m` places that starts at `tail`. */
  function Place(tail: nat, i: nat, m: nat): nat {
    if tail + i < m then tail + i else tail + i - m
  }

  lemma PlaceIsMod(tail: nat, i: nat, m: nat)
    requires tail < m && i <= m
    ensures (tail + i) % m == Place(tail, i, m) && (i < m ==> Place(tail, i, m) < m)
  {
  }

  // ---------------------------------------------------------------- the ADLB client

  datatype GetCode = Success | Nothing | Shutdown | Failure

  /** A call of the client: for `n` new requests, or for the answer to request `r`. */
  datatype Call = More(n: nat, block: bool, code: GetCode) | Answer(r: nat, wait: bool, code: GetCode)

  /** Requests are numbered in the order in which they are issued, and answered in that order.
      Each has a payload buffer of its own until it is answered. */
  class Adlb {
    var next: nat                           // the number of the next request
    var payload: map<nat, Script>           // what the buffers hold
    var bufferOf: seq<nat>                  // the buffer of each request
    ghost var given: seq<Script>            // the work each answered request was given
    ghost var calls: seq<Call>              // all calls so far

    ghost predicate Valid()
      reads this
    {
      next == |bufferOf| && |given| <= next
    }

    /** A buffer is in use while its request is outstanding. */
    ghost predicate InUse(buffer: nat)
      reads this
    {
      exists r :: |given| <= r < |bufferOf| && bufferOf[r] == buffer
    }

    constructor ()
      ensures Valid() && bufferOf == [] && given == [] && calls == []
    {
      next, payload, bufferOf, given, calls := 0, map[], [], [], [];
    }

    /** `ADLB_Amget`: new requests, none of them into a buffer that is in use.  The call may
        block only when nothing is running. */
    method Amget(bufs: seq<nat>, block: bool, ghost running: nat) returns (code: GetCode)
      requires Valid() && (block ==> running == 0)
      requires forall i :: 0 <= i < |bufs| ==> !InUse(bufs[i])
      requires forall i, j :: 0 <= i < j < |bufs| ==> bufs[i] != bufs[j]
      modifies this
      ensures Valid() && given == old(given)
      ensures bufferOf == old(bufferOf) + if code.Failure? then [] else bufs
      ensures calls == old(calls) + [More(|bufs|, block, code)] && (code.Success? || code.Failure?)
    {
      var failed: bool := *;
      code := if failed then Failure else Success;
      calls := calls + [More(|bufs|, block, code)];
      if !failed {
        bufferOf := bufferOf + bufs;
        next := next + |bufs|;
      }
    }

    /** `ADLB_Aget_test` and `ADLB_Aget_wait` for the oldest request, `r`.  An answer fills its
        buffer.  The call may wait only when nothing is running. */
    method Aget(r: nat, wait: bool, ghost buffer: nat, ghost running: nat) returns (code: GetCode)
      requires Valid() && r == |given| && r < next && bufferOf[r] == buffer
      requires wait ==> running == 0
      modifies this
      ensures Valid() && bufferOf == old(bufferOf)
      ensures code.Nothing? ==> !wait
      ensures code.Success? ==> buffer in payload && given == old(given) + [payload[buffer]]
      ensures !code.Success? ==> given == old(given)
      ensures calls == old(calls) + [Answer(r, wait, code)]
    {
      code := *;
      if code.Nothing? && wait { code := Failure; }
      calls := calls + [Answer(r, wait, code)];
      if code.Success? {
        var work: Script := *;
        payload := payload[bufferOf[r] := work];
        given := given + [work];
      }
    }
  }

  // ---------------------------------------------------------------- the ring

  /** `get_req_state`. */
  class GetReqState {
    const max_reqs: nat
    const requests: array<nat>
    var nreqs: nat
    var head: nat
    var tail: nat

    ghost predicate Valid()
      reads this
    {
      && max_reqs >= 1 && requests.Length == max_reqs
      && nreqs <= max_reqs && head < max_reqs && tail < max_reqs
      && head == Place(tail, nreqs, max_reqs)
    }

    /** The outstanding requests, oldest first, stand at the places from the tail on, each with
        the buffer of its place. */
    ghost predicate Holds(adlb: Adlb)
      reads this, requests, adlb
    {
      && Valid() && adlb.Valid() && adlb.next == |adlb.given| + nreqs
      && Numbered(requests[..], |adlb.given|, tail, nreqs)
      && Buffered(adlb.bufferOf, |adlb.given|, tail, nreqs, max_reqs)
    }

    constructor (nbuffers: nat)
      requires nbuffers >= 1
      ensures Valid() && fresh(requests) && max_reqs == nbuffers && nreqs == head == tail == 0
    {
      max_reqs, requests := nbuffers, new nat[nbuffers];
      nreqs, head, tail := 0, 0, 0;
    }

    /** In the source's terms. */
    lemma HeadFollowsTail()
      requires Valid()
      ensures head == (tail + nreqs) % max_reqs
    {
    }

    /** The buffers for `extra` more requests; no outstanding request has one of them. */
    method FreeBuffers(ghost adlb: Adlb, extra: nat) returns (bufs: array<nat>)
      requires Holds(adlb) && nreqs + extra <= max_reqs
      ensures fresh(bufs) && bufs.Length == extra
      ensures forall k :: 0 <= k < extra ==> bufs[k] == Place(tail, nreqs + k, max_reqs)
    {
      bufs := new nat[extra];
      for i := 0 to extra
        invariant forall k :: 0 <= k < i ==> bufs[k] == Place(tail, nreqs + k, max_reqs)
      {
        PlaceIsMod(head, i, max_reqs);
        bufs[i] := (head + i) % max_reqs;
      }
    }

    /** One request goes to the head. */
    method Push(base: nat, n: nat)
      requires Numbered(requests[..], base, tail, n) && requests.Length == max_reqs && tail < max_reqs
      requires n < max_reqs && head == Place(tail, n, max_reqs) && head < max_reqs
      modifies this`head, requests
      ensures head < max_reqs && head == Place(tail, n + 1, max_reqs)
      ensures Numbered(requests[..], base, tail, n + 1)
    {
      NumberedMore(requests[..], base, tail, n);
      hide Numbered;
      requests[head] := base + n;
      PlaceIsMod(head, 1, max_reqs);
      head := (head + 1) % max_reqs;
    }

    /** Enter the new requests, numbered on from those in the ring. */
    method Enter(base: nat, extra: nat)
      requires Valid() && nreqs + extra <= max_reqs && Numbered(requests[..], base, tail, nreqs)
      modifies this, requests
      ensures Valid() && tail == old(tail) && nreqs == old(nreqs) + extra
      ensures Numbered(requests[..], base, tail, nreqs)
    {
      for i := 0 to extra
        invariant tail == old(tail) && nreqs == old(nreqs)
        invariant head < max_reqs && head == Place(tail, nreqs + i, max_reqs)
        invariant Numbered(requests[..], base, tail, nreqs + i)
      {
        hide Numbered, Place;
        Push(base, nreqs + i);
      }
      nreqs := nreqs + extra;
    }

    /** The requests `get_tasks` issues. */
    method Issue(adlb: Adlb, extra: nat, block: bool, ghost running: nat) returns (code: GetCode)
      requires Holds(adlb) && nreqs + extra <= max_reqs
      requires block ==> running == 0
      modifies this, requests, adlb
      ensures Holds(adlb) && adlb.given == old(adlb.given) && tail == old(tail)
      ensures nreqs == old(nreqs) + if code.Failure? then 0 else extra
      ensures |adlb.bufferOf| == |old(adlb.bufferOf)| + if code.Failure? then 0 else extra
      ensures adlb.calls == old(adlb.calls) + [More(extra, block, code)] && (code.Success? || code.Failure?)
    {
      hide Numbered, Buffered, Place, Adlb.InUse;
      var tmp := FreeBuffers(adlb, extra);
      var bufs := tmp[..];
      BuffersFree(adlb, tail, nreqs, bufs, max_reqs);
      BufferedMore(adlb.bufferOf, bufs, |adlb.given|, tail, nreqs, max_reqs);
      assert adlb.bufferOf + [] == adlb.bufferOf;
      code := adlb.Amget(bufs, block, running);
      if !code.Failure? {
        Enter(adlb.next - extra - nreqs, extra);
      }
    }

    /** The oldest request has been answered and still stands at the tail. */
    ghost predicate Answered(adlb: Adlb)
      reads this, requests, adlb
    {
      && Valid() && adlb.Valid() && nreqs > 0 && adlb.next == |adlb.given| + nreqs - 1
      && Numbered(requests[..], |adlb.given| - 1, tail, nreqs)
      && Buffered(adlb.bufferOf, |adlb.given| - 1, tail, nreqs, max_reqs)
    }

    /** Ask for the answer to the oldest request.  Its work is in the buffer of the tail. */
    method Ask(adlb: Adlb, wait: bool, ghost running: nat) returns (code: GetCode, work: Script)
      requires Holds(adlb) && nreqs > 0 && (wait ==> running == 0)
      modifies adlb
      ensures code.Success? ==> Answered(adlb) && adlb.given == old(adlb.given) + [work]
      ensures !code.Success? ==> Holds(adlb) && adlb.given == old(adlb.given)
      ensures code.Nothing? ==> !wait
      ensures adlb.calls == old(adlb.calls) + [Answer(|old(adlb.given)|, wait, code)]
      ensures adlb.bufferOf == old(adlb.bufferOf)
    {
      hide Numbered, Buffered, Place;
      OldestAtTail(requests[..], adlb.bufferOf, |adlb.given|, tail, nreqs, max_reqs);
      code := adlb.Aget(requests[tail], wait, tail, running);
      work := if code.Success? then adlb.payload[tail] else Script(None, false, false, None);
    }

    /** The request at the tail was answered and its work was run. */
    method Advance(adlb: Adlb)
      requires Answered(adlb)
      modifies this
      ensures Holds(adlb) && nreqs == old(nreqs) - 1
    {
      PlaceIsMod(tail, 1, max_reqs);
      NumberedNext(requests[..], |adlb.given| - 1, tail, nreqs);
      BufferedNext(adlb.bufferOf, |adlb.given| - 1, tail, nreqs, max_reqs);
      tail := (tail + 1) % max_reqs;
      nreqs := nreqs - 1;
    }
  }

  lemma {:induction false} OldestAtTail(requests: seq<nat>, bufferOf: seq<nat>, base: nat, tail: nat, n: nat, m: nat)
    requires Numbered(requests, base, tail, n) && Buffered(bufferOf, base, tail, n, m)
    requires |requests| == m && tail < m && n > 0
    ensures requests[tail] == base && base < |bufferOf| && bufferOf[base] == tail
  {
    assert requests[Place(tail, 0, m)] == base + 0;
    assert bufferOf[base + 0] == Place(tail, 0, m);
  }

  /** Requests `base` to `base + n - 1` stand at the places from the tail on. */
  ghost predicate Numbered(requests: seq<nat>, base: int, tail: nat, n: nat) {
    forall k :: 0 <= k < n ==>
      0 <= Place(tail, k, |requests|) < |requests| && requests[Place(tail, k, |requests|)] == base + k
  }

  /** Each of them has the buffer of its place. */
  ghost predicate Buffered(bufferOf: seq<nat>, base: int, tail: nat, n: nat, m: nat) {
    0 <= base && base + n <= |bufferOf| && forall k :: 0 <= k < n ==> bufferOf[base + k] == Place(tail, k, m)
  }

  lemma NumberedMore(requests: seq<nat>, base: nat, tail: nat, n: nat)
    requires Numbered(requests, base, tail, n) && tail < |requests| && n < |requests|
    ensures var p := Place(tail, n, |requests|);
      0 <= p < |requests| && Numbered(requests[p := base + n], base, tail, n + 1)
  {
  }

  lemma {:induction false} NumberedNext(requests: seq<nat>, base: int, tail: nat, n: nat)
    requires Numbered(requests, base, tail, n) && tail < |requests| && 0 < n <= |requests|
    ensures Numbered(requests, base + 1, Place(tail, 1, |requests|), n - 1)
  {
    forall k | 0 <= k < n - 1
      ensures Place(Place(tail, 1, |requests|), k, |requests|) == Place(tail, k + 1, |requests|) {}
  }

  lemma BufferedMore(bufferOf: seq<nat>, bufs: seq<nat>, base: nat, tail: nat, n: nat, m: nat)
    requires Buffered(bufferOf, base, tail, n, m) && |bufferOf| == base + n
    requires forall k :: 0 <= k < |bufs| ==> bufs[k] == Place(tail, n + k, m)
    ensures Buffered(bufferOf + bufs, base, tail, n + |bufs|, m)
  {
  }

  lemma {:induction false} BufferedNext(bufferOf: seq<nat>, base: int, tail: nat, n: nat, m: nat)
    requires Buffered(bufferOf, base, tail, n, m) && tail < m && 0 < n <= m
    ensures Buffered(bufferOf, base + 1, Place(tail, 1, m), n - 1, m)
  {
    forall k | 0 <= k < n - 1 ensures bufferOf[base + 1 + k] == Place(Place(tail, 1, m), k, m) {
      assert bufferOf[base + (k + 1)] == Place(tail, k + 1, m);
    }
  }

  lemma {:induction false} BuffersFree(adlb: Adlb, tail: nat, nreqs: nat, bufs: seq<nat>, m: nat)
    requires tail < m && nreqs + |bufs| <= m && adlb.Valid() && adlb.next == |adlb.given| + nreqs
    requires Buffered(adlb.bufferOf, |adlb.given|, tail, nreqs, m)
    requires forall k :: 0 <= k < |bufs| ==> bufs[k] == Place(tail, nreqs + k, m)
    ensures forall i :: 0 <= i < |bufs| ==> !adlb.InUse(bufs[i])
    ensures forall i, j :: 0 <= i < j < |bufs| ==> bufs[i] != bufs[j]
  {
    forall i | 0 <= i < |bufs| ensures !adlb.InUse(bufs[i]) {
      forall r | |adlb.given| <= r < |adlb.bufferOf| ensures adlb.bufferOf[r] != bufs[i] {
        var k := r - |adlb.given|;
        assert adlb.bufferOf[|adlb.given| + k] == Place(tail, k, m);
        PlaceApart(tail, k, nreqs + i, m);
      }
    }
    forall i, j | 0 <= i < j < |bufs| ensures bufs[i] != bufs[j] {
      PlaceApart(tail, nreqs + i, nreqs + j, m);
    }
  }

  lemma PlaceApart(tail: nat, i: nat, j: nat, m: nat)
    requires tail < m && i < j < m
    ensures Place(tail, i, m) != Place(tail, j, m)
  {
  }
}
