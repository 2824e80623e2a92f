/**
  The steering and follow-up queues. Every message ever enqueued is identified by
  its position in `given`, so that delivered once, still queued and cleared are
  three disjoint sets of positions, even when equal messages are queued twice.
*/
module PendingQueue {
  import opened AgentEvents
  import opened Wrappers

  datatype QueueMode = All | OneAtATime

  type Filter = Option<Message -> bool>

  predicate Allowed(allow: Filter, m: Message) {
    allow.None? || allow.value(m)
  }

  function At<T>(s: seq<T>, positions: seq<nat>): seq<T>
    requires forall i :: 0 <= i < |positions| ==> positions[i] < |s|
  {
    seq(|positions|, i requires 0 <= i < |positions| => s[positions[i]])
  }

  ghost predicate Increasing(s: seq<nat>) {
    forall i, j :: 0 <= i < j < |s| ==> s[i] < s[j]
  }

  /** What one drain may release and what it must keep, as positions in the queue. */
  ghost predicate IsDrain(queue: seq<Message>, mode: QueueMode, allow: Filter, out: seq<nat>, kept: seq<nat>) {
    && Increasing(out) && Increasing(kept)
    && (forall i :: 0 <= i < |out| ==> out[i] < |queue| && Allowed(allow, queue[out[i]]))
    && (forall i :: 0 <= i < |kept| ==> kept[i] < |queue|)
    && (forall p :: 0 <= p < |queue| ==> (p in out <==> p !in kept))
    && match mode
       case All => forall p :: 0 <= p < |queue| && p in kept ==> !Allowed(allow, queue[p])
       case OneAtATime =>
         && |out| <= 1
         && (out == [] ==> forall p :: 0 <= p < |queue| ==> !Allowed(allow, queue[p]))
         && (out != [] ==> forall p :: 0 <= p < out[0] ==> !Allowed(allow, queue[p]))
  }

  /** `s` lists the messages at `positions` of `given`. */
  ghost predicate Lists(s: seq<Message>, given: seq<Message>, positions: seq<nat>) {
    && |s| == |positions|
    && forall i :: 0 <= i < |s| ==> positions[i] < |given| && s[i] == given[positions[i]]
  }

  /** Each enqueued message is queued, delivered once, or cleared; the queue keeps its order. */
  ghost predicate Accounted(given: seq<Message>, slots: seq<nat>, taken: seq<nat>, cleared: set<nat>) {
    && Increasing(slots) && Distinct(taken)
    && (forall p :: p in slots ==> p < |given| && p !in taken && p !in cleared)
    && (forall p :: p in taken ==> p < |given| && p !in cleared)
    && (forall p :: p in cleared ==> p < |given|)
    && (forall p :: 0 <= p < |given| ==> p in slots || p in taken || p in cleared)
  }

  ghost predicate Distinct(s: seq<nat>) {
    forall i, j :: 0 <= i < j < |s| ==> s[i] != s[j]
  }

  ghost predicate ReleasedBy(before: seq<Message>, mode: QueueMode, allow: Filter, released: seq<Message>, after: seq<Message>) {
    exists out, kept ::
      IsDrain(before, mode, allow, out, kept) && released == At(before, out) && after == At(before, kept)
  }

  ghost predicate NoneDeliverable(queue: seq<Message>, allow: Filter) {
    forall p :: 0 <= p < |queue| ==> !Allowed(allow, queue[p])
  }

  // ----- A drain as a function of the queue -----

  datatype Drained = Drained(released: seq<Message>, kept: seq<Message>)

  /** The messages of a queue that may be delivered, or those that may not, in order. */
  ghost function Passing(queue: seq<Message>, allow: Filter, wanted: bool): seq<Message> {
    if queue == [] then []
    else
      var before, last := Passing(queue[..|queue|-1], allow, wanted), queue[|queue|-1];
      if Allowed(allow, last) == wanted then before + [last] else before
  }

  /** The position of the first message that may be delivered. */
  ghost function FirstPassing(queue: seq<Message>, allow: Filter): (n: nat)
    ensures n <= |queue| && (n < |queue| ==> Allowed(allow, queue[n]))
    ensures forall i :: 0 <= i < n ==> !Allowed(allow, queue[i])
  {
    if queue == [] || Allowed(allow, queue[0]) then 0
    else
      var n := FirstPassing(queue[1..], allow);
      assert forall i :: 0 < i < n + 1 ==> queue[i] == queue[1..][i - 1];
      n + 1
  }

  ghost function DrainOf(queue: seq<Message>, mode: QueueMode, allow: Filter): Drained {
    match mode
    case All => Drained(Passing(queue, allow, true), Passing(queue, allow, false))
    case OneAtATime =>
      var n := FirstPassing(queue, allow);
      if n == |queue| then Drained([], queue) else Drained([queue[n]], queue[..n] + queue[n + 1..])
  }

  lemma DrainReleases(queue: seq<Message>, mode: QueueMode, allow: Filter)
    ensures DrainOf(queue, mode, allow).released == [] <==> NoneDeliverable(queue, allow)
  {
    if mode.All? {
      NonePasses(queue, allow);
    }
  }

  lemma {:induction false} NonePasses(queue: seq<Message>, allow: Filter)
    ensures Passing(queue, allow, true) == [] <==> NoneDeliverable(queue, allow)
  {
    if queue != [] {
      var n := |queue| - 1;
      NonePasses(queue[..n], allow);
      assert NoneDeliverable(queue, allow) <==> NoneDeliverable(queue[..n], allow) && !Allowed(allow, queue[n]);
    }
  }

  /** Queue, mode and filter determine what a drain releases and what it keeps. */
  lemma DrainIsDetermined(queue: seq<Message>, mode: QueueMode, allow: Filter, released: seq<Message>, kept: seq<Message>)
    ensures ReleasedBy(queue, mode, allow, released, kept) ==> DrainOf(queue, mode, allow) == Drained(released, kept)
  {
    if ReleasedBy(queue, mode, allow, released, kept) {
      var out, stay :| IsDrain(queue, mode, allow, out, stay) && released == At(queue, out) && kept == At(queue, stay);
      if mode.All? {
        assert forall i :: 0 <= i < |out| ==> out[i] in out;
        PassingAt(queue, allow, out, true);
        PassingAt(queue, allow, stay, false);
      } else {
        DrainOne(queue, allow, out, stay);
      }
    }
  }

  lemma {:induction false} PassingAt(queue: seq<Message>, allow: Filter, positions: seq<nat>, wanted: bool)
    requires Increasing(positions) && forall i :: 0 <= i < |positions| ==> positions[i] < |queue|
    requires forall p :: 0 <= p < |queue| ==> (p in positions <==> Allowed(allow, queue[p]) == wanted)
    ensures At(queue, positions) == Passing(queue, allow, wanted)
  {
    var n := |queue| - 1;
    if n < 0 {
      assert forall i :: 0 <= i < |positions| ==> positions[i] < 0;
    } else if n in positions {
      var k := |positions| - 1;
      LastOfIncreasing(positions, n);
      PassingAt(queue[..n], allow, positions[..k], wanted);
      assert At(queue, positions) == At(queue[..n], positions[..k]) + [queue[n]];
    } else {
      assert forall i :: 0 <= i < |positions| ==> positions[i] in positions;
      PassingAt(queue[..n], allow, positions, wanted);
      assert At(queue, positions) == At(queue[..n], positions);
    }
  }

  lemma LastOfIncreasing(positions: seq<nat>, n: nat)
    requires Increasing(positions) && n in positions && forall i :: 0 <= i < |positions| ==> positions[i] <= n
    ensures positions[|positions|-1] == n
    ensures forall p: nat :: p in positions[..|positions|-1] <==> p in positions && p != n
  {
    var k := |positions| - 1;
    var i :| 0 <= i < |positions| && positions[i] == n;
    assert positions[k] == n;
    forall p: nat | p in positions && p != n ensures p in positions[..k] {
      var j :| 0 <= j < |positions| && positions[j] == p;
      assert positions[..k][j] == p;
    }
  }

  lemma {:induction false} SamePositions(a: seq<nat>, b: seq<nat>)
    requires Increasing(a) && Increasing(b) && forall p: nat :: p in a <==> p in b
    ensures a == b
  {
    if a == [] {
      assert forall i :: 0 <= i < |b| ==> b[i] in b;
    } else {
      var n, m := |a| - 1, |b| - 1;
      assert a[n] in a && a[n] in b && b[m] in b && b[m] in a;
      LastOfIncreasing(a, a[n]);
      LastOfIncreasing(b, a[n]);
      forall p: nat ensures p in a[..n] <==> p in b[..m] {
        assert p in a[..|a|-1] <==> p in a && p != a[n];
        assert p in b[..|b|-1] <==> p in b && p != a[n];
      }
      SamePositions(a[..n], b[..m]);
      assert a == a[..n] + [a[n]] && b == b[..m] + [b[m]];
    }
  }

  lemma DrainOne(queue: seq<Message>, allow: Filter, out: seq<nat>, kept: seq<nat>)
    requires IsDrain(queue, OneAtATime, allow, out, kept)
    ensures DrainOf(queue, OneAtATime, allow) == Drained(At(queue, out), At(queue, kept))
  {
    assert forall i :: 0 <= i < |kept| ==> kept[i] in kept;
    var n := FirstPassing(queue, allow);
    if out == [] {
      SamePositions(kept, Upto(|queue|));
      assert At(queue, kept) == queue;
    } else {
      assert out[0] in out && out[0] == n && out == [n];
      SamePositions(kept, AllBut(|queue|, n));
      assert At(queue, kept) == queue[..n] + queue[n + 1..];
    }
  }

  /** A drain releases something exactly when some message may be delivered, and otherwise keeps the queue as it is. */
  lemma ReleasesWhatMay(queue: seq<Message>, mode: QueueMode, allow: Filter, released: seq<Message>, after: seq<Message>)
    requires ReleasedBy(queue, mode, allow, released, after)
    ensures released == [] <==> NoneDeliverable(queue, allow)
    ensures released == [] ==> after == queue
  {
    var out, kept :| IsDrain(queue, mode, allow, out, kept) && released == At(queue, out) && after == At(queue, kept);
    if out != [] {
      assert out[0] in out && Allowed(allow, queue[out[0]]);
    } else {
      assert forall i :: 0 <= i < |kept| ==> kept[i] in kept;
      SamePositions(kept, Upto(|queue|));
    }
  }

  class PendingMessageQueue {
    var messages: seq<Message>
    var mode: QueueMode

    ghost var given: seq<Message>   // every message ever enqueued
    ghost var slots: seq<nat>       // where in `given` the queued messages stand
    ghost var taken: seq<nat>       // positions delivered, in delivery order
    ghost var cleared: set<nat>     // positions dropped by `clear`
    ghost var delivered: seq<Message>  // the messages at `taken`

    ghost predicate Valid()
      reads this
    {
      Lists(messages, given, slots) && Lists(delivered, given, taken) && Accounted(given, slots, taken, cleared)
    }

    constructor (mode: QueueMode)
      ensures Valid() && messages == given == [] && this.mode == mode && delivered == []
    {
      this.messages, this.mode := [], mode;
      given, slots, taken, cleared, delivered := [], [], [], {}, [];
    }

    method Enqueue(m: Message)
      requires Valid()
      modifies this
      ensures Valid()
      ensures messages == old(messages) + [m] && given == old(given) + [m]
      ensures mode == old(mode) && taken == old(taken) && cleared == old(cleared)
      ensures delivered == old(delivered)
    {
      assert forall i :: 0 <= i < |slots| ==> slots[i] in slots;
      assert forall i :: 0 <= i < |taken| ==> taken[i] in taken;
      messages := messages + [m];
      slots, given := slots + [|given|], given + [m];
      assert forall p :: p in slots <==> p in old(slots) || p == |given| - 1;
    }

    method Clear()
      requires Valid()
      modifies this
      ensures Valid()
      ensures messages == [] && given == old(given) && taken == old(taken) && mode == old(mode)
      ensures delivered == old(delivered)
      ensures cleared == old(cleared) + (set p | p in old(slots))
    {
      messages := [];
      cleared := cleared + set p | p in slots;
      slots := [];
    }

    /**
      Release what may be delivered now. Released messages are, in queue order, the
      positions `out`; the others stay queued in their order.
    */
    method Drain(allow: Filter) returns (released: seq<Message>, ghost out: seq<nat>, ghost kept: seq<nat>)
      requires Valid()
      modifies this
      ensures Valid()
      ensures IsDrain(old(messages), mode, allow, out, kept)
      ensures released == At(old(messages), out) && messages == At(old(messages), kept)
      ensures taken == old(taken) + At(old(slots), out) && slots == At(old(slots), kept)
      ensures given == old(given) && cleared == old(cleared) && mode == old(mode)
      ensures delivered == old(delivered) + released
    {
      released, out, kept := Take(allow);
      DrainAccounts(given, slots, taken, cleared, out, kept);
      taken, slots := taken + At(slots, out), At(slots, kept);
      delivered := delivered + released;
    }

    /** A drain, told as a function of the queue. */
    method Deliver(allow: Filter) returns (released: seq<Message>)
      requires Valid()
      modifies this
      ensures Valid() && mode == old(mode) && delivered == old(delivered) + released
      ensures Drained(released, messages) == DrainOf(old(messages), mode, allow)
      ensures released == [] <==> NoneDeliverable(old(messages), allow)
      ensures released == [] ==> messages == old(messages)
    {
      ghost var waiting, out, kept := messages, [], [];
      released, out, kept := Drain(allow);
      ReleasesWhatMay(waiting, mode, allow, released, messages);
      DrainIsDetermined(waiting, mode, allow, released, messages);
    }

    method Take(allow: Filter) returns (released: seq<Message>, ghost out: seq<nat>, ghost kept: seq<nat>)
      modifies this`messages
      ensures IsDrain(old(messages), mode, allow, out, kept)
      ensures released == At(old(messages), out) && messages == At(old(messages), kept)
    {
      ghost var n := |messages|;
      if mode == All {
        if allow.None? {
          released := messages;
          messages := [];
          out, kept := Upto(n), [];
        } else {
          released, out, kept := Partition(allow.value);
        }
      } else {
        var index := FirstAllowed(allow);
        if index == |messages| {
          released, out, kept := [], [], Upto(n);
          assert messages == At(messages, kept);
        } else {
          released := [messages[index]];
          out, kept := [index], AllBut(n, index);
          assert messages[..index] + messages[index + 1..] == At(messages, kept);
          messages := messages[..index] + messages[index + 1..];
        }
      }
    }

    /** The "all" mode under a filter: released and held messages, each in queue order. */
    method Partition(allow: Message -> bool) returns (released: seq<Message>, ghost out: seq<nat>, ghost kept: seq<nat>)
      modifies this`messages
      ensures IsDrain(old(messages), All, Some(allow), out, kept)
      ensures released == At(old(messages), out) && messages == At(old(messages), kept)
    {
      var held := [];
      released, out, kept := [], [], [];
      for i := 0 to |messages|
        invariant messages == old(messages)
        invariant Increasing(out) && Increasing(kept)
        invariant forall k :: 0 <= k < |out| ==> out[k] < i && allow(messages[out[k]])
        invariant forall k :: 0 <= k < |kept| ==> kept[k] < i && !allow(messages[kept[k]])
        invariant forall p :: 0 <= p < i ==> (p in out <==> p !in kept)
        invariant released == At(messages, out) && held == At(messages, kept)
      {
        if allow(messages[i]) {
          released, out := released + [messages[i]], out + [i];
        } else {
          held, kept := held + [messages[i]], kept + [i];
        }
      }
      messages := held;
    }

    method FirstAllowed(allow: Filter) returns (index: nat)
      ensures index <= |messages|
      ensures index < |messages| ==> Allowed(allow, messages[index])
      ensures forall p :: 0 <= p < index ==> !Allowed(allow, messages[p])
    {
      index := 0;
      while index < |messages| && !Allowed(allow, messages[index])
        invariant index <= |messages|
        invariant forall p :: 0 <= p < index ==> !Allowed(allow, messages[p])
      {
        index := index + 1;
      }
    }

    method SetMode(mode: QueueMode)
      modifies `mode
      ensures this.mode == mode
    {
      this.mode := mode;
    }

    /** Whether a drain with this filter would release something. */
    method HasDeliverable(allow: Filter) returns (b: bool)
      ensures b <==> exists p :: 0 <= p < |messages| && Allowed(allow, messages[p])
    {
      var index := FirstAllowed(allow);
      b := index < |messages|;
    }
  }

  ghost function Upto(n: nat): (all: seq<nat>)
    ensures |all| == n && Increasing(all)
    ensures forall p :: 0 <= p < n ==> all[p] == p && p in all
  {
    if n == 0 then [] else Upto(n - 1) + [n - 1]
  }

  ghost function AllBut(n: nat, index: nat): (kept: seq<nat>)
    requires index < n
    ensures |kept| == n - 1 && Increasing(kept)
    ensures forall i :: 0 <= i < n - 1 ==> kept[i] == if i < index then i else i + 1
    ensures forall p :: 0 <= p < n ==> (p in kept <==> p != index)
  {
    var kept := seq(n - 1, i requires 0 <= i < n - 1 => if i < index then i else i + 1);
    assert forall p {:trigger p in kept} :: 0 <= p < index ==> kept[p] == p;
    assert forall p {:trigger p in kept} :: index < p < n ==> kept[p - 1] == p;
    assert forall p :: p in kept ==> p != index;
    kept
  }

  /** Draining moves the released positions from the queue to the delivered ones. */
  lemma DrainAccounts(given: seq<Message>, slots: seq<nat>, taken: seq<nat>, cleared: set<nat>,
                      out: seq<nat>, kept: seq<nat>)
    requires Accounted(given, slots, taken, cleared)
    requires Increasing(out) && Increasing(kept)
    requires forall i :: 0 <= i < |out| ==> out[i] < |slots|
    requires forall i :: 0 <= i < |kept| ==> kept[i] < |slots|
    requires forall p :: 0 <= p < |slots| ==> (p in out <==> p !in kept)
    ensures Accounted(given, At(slots, kept), taken + At(slots, out), cleared)
  {
    SplitSlots(slots, out, kept, |slots|);
    var moved := At(slots, out);
    assert forall i :: 0 <= i < |moved| ==> moved[i] in moved;
    assert forall i :: 0 <= i < |taken| ==> taken[i] in taken;
    assert forall p :: p in taken + moved <==> p in taken || p in moved;
  }

  /** Splitting the queue's positions splits the slots they stand for. */
  lemma SplitSlots(slots: seq<nat>, out: seq<nat>, kept: seq<nat>, n: nat)
    requires Increasing(slots) && |slots| == n
    requires Increasing(out) && Increasing(kept)
    requires forall i :: 0 <= i < |out| ==> out[i] < n
    requires forall i :: 0 <= i < |kept| ==> kept[i] < n
    requires forall p :: 0 <= p < n ==> (p in out <==> p !in kept)
    ensures Increasing(At(slots, out)) && Increasing(At(slots, kept))
    ensures forall s :: s in slots <==> s in At(slots, out) || s in At(slots, kept)
    ensures forall s :: s in At(slots, out) ==> s !in At(slots, kept)
  {
    var a, b := At(slots, out), At(slots, kept);
    forall s | s in slots
      ensures s in a || s in b
    {
      var p :| 0 <= p < n && slots[p] == s;
      if p in out {
        var i :| 0 <= i < |out| && out[i] == p;
        assert a[i] == s;
      } else {
        var i :| 0 <= i < |kept| && kept[i] == p;
        assert b[i] == s;
      }
    }
    forall i, j | 0 <= i < |a| && 0 <= j < |b|
      ensures a[i] != b[j]
    {
      assert out[i] in out && kept[j] in kept;
    }
    forall s | s in a
      ensures s in slots && s !in b
    {
      var i :| 0 <= i < |a| && a[i] == s;
      assert slots[out[i]] == s;
    }
    forall s | s in b
      ensures s in slots
    {
      var j :| 0 <= j < |b| && b[j] == s;
      assert slots[kept[j]] == s;
    }
  }
}
