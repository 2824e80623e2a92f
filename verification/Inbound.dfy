/**
  The gate for inbound chat messages: it binds the first chat that gets through, accepts
  each message id once while the id is eligible, and remembers at most 4096 ids.
*/
module Inbound {
  import opened Wrappers

  const MESSAGE_MAX_AGE_MS := 600_000.0
  const MAX_CLOCK_SKEW_MS := 30_000.0
  const MAX_SEEN_MESSAGES: nat := 4096

  /** What the parsed content of an event amounts to. */
  datatype Content = NotJson | UnsupportedType | Body(text: string, imageKeys: seq<string>, files: seq<string>)

  /**
    An event after its fields were read; an id, chat or time that is missing or of the wrong
    type is None, and the text has the bot's mentions removed and is trimmed.
  */
  datatype Event = Event(
    id: Option<string>, chatId: Option<string>, fromBot: bool, createTime: Option<real>,
    direct: bool, mentionsBot: bool, content: Content)

  datatype Reason = Malformed | Stale | NotMentioned | Unsupported | Empty | OtherChat | Duplicate | RateLimit

  datatype Outcome = Accepted(id: string, chatId: string) | Ignored(reason: Reason)

  datatype Gate = Gate(seen: map<string, real>, boundChat: Option<string>, closed: bool)

  const OPEN := Gate(map[], None, false)

  predicate Named(name: Option<string>) { name.Some? && name.value != "" }

  /** Times below 10^12 are seconds. */
  function CreatedAt(timestamp: real): real {
    if timestamp < 1_000_000_000_000.0 then timestamp * 1000.0 else timestamp
  }

  predicate Eligible(createdAt: real, now: real) {
    createdAt > 0.0 && now - createdAt <= MESSAGE_MAX_AGE_MS && createdAt - now <= MAX_CLOCK_SKEW_MS
  }

  /** Why an event is turned away whatever ids the gate has seen. */
  function Objection(gate: Gate, e: Event, now: real): Option<Reason> {
    if gate.closed || !Named(e.id) || !Named(e.chatId) || e.fromBot then Some(Malformed)
    else if e.createTime.None? || !Eligible(CreatedAt(e.createTime.value), now) then Some(Stale)
    else if !e.direct && !e.mentionsBot then Some(NotMentioned)
    else if e.content.NotJson? then Some(Malformed)
    else if e.content.UnsupportedType? then Some(Unsupported)
    else if e.content.text == "" && e.content.imageKeys == [] && e.content.files == [] then Some(Empty)
    else if Named(gate.boundChat) && gate.boundChat != e.chatId then Some(OtherChat)
    else None
  }

  function Purged(seen: map<string, real>, now: real): map<string, real> {
    map id | id in seen && now <= seen[id] :: seen[id]
  }

  function Accept(gate: Gate, e: Event, now: real): (Gate, Outcome) {
    var objection := Objection(gate, e, now);
    if objection.Some? then (gate, Ignored(objection.value))
    else
      var purged := gate.(seen := Purged(gate.seen, now));
      if e.id.value in purged.seen then (purged, Ignored(Duplicate))
      else if |purged.seen| >= MAX_SEEN_MESSAGES then (purged, Ignored(RateLimit))
      else
        (Gate(purged.seen[e.id.value := CreatedAt(e.createTime.value) + MESSAGE_MAX_AGE_MS], e.chatId, false),
         Accepted(e.id.value, e.chatId.value))
  }

  // ----- What becomes of an event, told from the event and from what the gate remembers -----

  ghost predicate IsWellFormed(gate: Gate, e: Event) {
    && !gate.closed && !e.fromBot
    && e.id.Some? && e.id.value != "" && e.chatId.Some? && e.chatId.value != ""
  }

  /** At most ten minutes old and at most half a minute ahead, where a time below 10^12 is in seconds. */
  ghost predicate IsTimely(e: Event, now: real) {
    && e.createTime.Some?
    && var t := e.createTime.value;
       var created := if t < 1_000_000_000_000.0 then 1000.0 * t else t;
       0.0 < created && created - 30_000.0 <= now <= created + 600_000.0
  }

  ghost predicate IsAddressed(e: Event) { e.direct || e.mentionsBot }

  ghost predicate IsEmpty(content: Content) {
    content.Body? && content.text == "" && content.imageKeys == [] && content.files == []
  }

  ghost predicate IsForeign(gate: Gate, e: Event) {
    gate.boundChat.Some? && gate.boundChat.value != "" && gate.boundChat != e.chatId
  }

  /** Each objection is raised exactly when its cause is there and none that is looked for earlier. */
  lemma ObjectionExactly(gate: Gate, e: Event, now: real)
    ensures var objection := Objection(gate, e, now);
            var heard := IsWellFormed(gate, e) && IsTimely(e, now) && IsAddressed(e);
            && (objection == Some(Malformed) <==> !IsWellFormed(gate, e) || (heard && e.content.NotJson?))
            && (objection == Some(Stale) <==> IsWellFormed(gate, e) && !IsTimely(e, now))
            && (objection == Some(NotMentioned) <==> IsWellFormed(gate, e) && IsTimely(e, now) && !IsAddressed(e))
            && (objection == Some(Unsupported) <==> heard && e.content.UnsupportedType?)
            && (objection == Some(Empty) <==> heard && IsEmpty(e.content))
            && (objection == Some(OtherChat) <==> heard && e.content.Body? && !IsEmpty(e.content) && IsForeign(gate, e))
            && (objection == None <==> heard && e.content.Body? && !IsEmpty(e.content) && !IsForeign(gate, e))
  {
    IsTimelyExactly(e, now);
  }

  lemma IsTimelyExactly(e: Event, now: real)
    ensures IsTimely(e, now) <==> e.createTime.Some? && Eligible(CreatedAt(e.createTime.value), now)
  {
  }

  /** The ids whose windows are open. */
  ghost function OpenAt(seen: map<string, real>, now: real): set<string> {
    set id | id in seen && now <= seen[id]
  }

  /**
    An event without objection is a duplicate exactly when the window of its id is open, and
    accepted exactly when it is not and there is room among the open windows. Either way the gate
    forgets exactly the windows that have closed; an accepted event adds its own and binds the chat.
  */
  lemma AcceptExactly(gate: Gate, e: Event, now: real)
    ensures var (after, outcome) := Accept(gate, e, now);
            var objection, open := Objection(gate, e, now), OpenAt(gate.seen, now);
            if objection.Some? then outcome == Ignored(objection.value) && after == gate
            else
              && (outcome == Ignored(Duplicate) <==> e.id.value in open)
              && (outcome == Accepted(e.id.value, e.chatId.value) <==> e.id.value !in open && |open| < 4096)
              && (outcome == Ignored(RateLimit) <==> e.id.value !in open && |open| >= 4096)
              && (forall id :: id in open && id != e.id.value ==> id in after.seen && after.seen[id] == gate.seen[id])
              && (if outcome.Accepted? then
                    after.seen.Keys == open + {e.id.value} && after.boundChat == e.chatId && !after.closed
                    && var t := e.createTime.value;
                       after.seen[e.id.value] == (if t < 1_000_000_000_000.0 then 1000.0 * t else t) + 600_000.0
                  else after.seen.Keys == open && after.boundChat == gate.boundChat && after.closed == gate.closed)
  {
    var purged := Purged(gate.seen, now);
    assert purged.Keys == OpenAt(gate.seen, now) && |purged| == |purged.Keys|;
  }

  class LarkInboundGate {
    var seen: map<string, real>
    var boundChat: Option<string>
    var closed: bool

    ghost function View(): Gate
      reads this
    {
      Gate(seen, boundChat, closed)
    }

    constructor ()
      ensures View() == OPEN
    {
      seen, boundChat, closed := map[], None, false;
    }

    /** Deletes every id whose window has passed, one map entry after the other. */
    method Purge(now: real)
      modifies `seen
      ensures seen == Purged(old(seen), now)
    {
      var keys := seen.Keys;
      while keys != {}
        invariant keys <= old(seen).Keys && seen.Keys <= old(seen).Keys
        invariant forall id :: id in seen ==> seen[id] == old(seen)[id]
        invariant forall id :: id in old(seen) ==> (id in seen <==> id in keys || now <= old(seen)[id])
        decreases |keys|
      {
        var key :| key in keys;
        if now > seen[key] {
          seen := seen - {key};
        }
        keys := keys - {key};
      }
    }

    method AcceptEvent(e: Event, now: real) returns (outcome: Outcome)
      modifies this
      ensures (View(), outcome) == Accept(old(View()), e, now)
    {
      var objection := Objection(Gate(seen, boundChat, closed), e, now);
      if objection.Some? {
        return Ignored(objection.value);
      }
      Purge(now);
      var id := e.id.value;
      if id in seen {
        return Ignored(Duplicate);
      }
      if |seen| >= MAX_SEEN_MESSAGES {
        return Ignored(RateLimit);
      }
      seen := seen[id := CreatedAt(e.createTime.value) + MESSAGE_MAX_AGE_MS];
      boundChat := e.chatId;
      return Accepted(id, e.chatId.value);
    }

    method Close()
      modifies this
      ensures View() == Closed(old(View())) && seen == map[] && boundChat == None && closed
    {
      closed := true;
      boundChat := None;
      seen := map[];
    }
  }

  function Closed(gate: Gate): Gate { Gate(map[], None, true) }

  // ----- Runs -----

  datatype Step = Offer(event: Event, now: real) | Close

  function Run(steps: seq<Step>): Gate {
    if steps == [] then OPEN
    else
      var gate := Run(steps[..|steps| - 1]);
      match steps[|steps| - 1]
      case Offer(e, now) => Accept(gate, e, now).0
      case Close => Closed(gate)
  }

  /** The i-th step of the run accepts its event. */
  predicate AcceptedAt(steps: seq<Step>, i: nat)
    requires i < |steps|
  {
    steps[i].Offer? && Accept(Run(steps[..i]), steps[i].event, steps[i].now).1.Accepted?
  }

  ghost predicate ClockNeverGoesBack(steps: seq<Step>) {
    forall i, j :: 0 <= i < j < |steps| && steps[i].Offer? && steps[j].Offer? ==> steps[i].now <= steps[j].now
  }

  /** A message id comes with one creation time only. */
  ghost predicate CreationTimesFixed(steps: seq<Step>) {
    forall i, j :: 0 <= i < j < |steps| && steps[i].Offer? && steps[j].Offer? && steps[i].event.id == steps[j].event.id ==>
      steps[i].event.createTime == steps[j].event.createTime
  }

  /** When the window of the i-th event closes. */
  function Expiry(step: Step): real
    requires step.Offer? && step.event.createTime.Some?
  {
    CreatedAt(step.event.createTime.value) + MESSAGE_MAX_AGE_MS
  }

  /** Every accepted id whose window is open at time t is still remembered. */
  ghost predicate Remembered(steps: seq<Step>, gate: Gate, t: real) {
    forall i :: 0 <= i < |steps| && AcceptedAt(steps, i) ==>
      gate.closed || t > Expiry(steps[i])
      || (steps[i].event.id.value in gate.seen && gate.seen[steps[i].event.id.value] >= Expiry(steps[i]))
  }

  lemma AcceptedBefore(steps: seq<Step>, last: nat, i: nat)
    requires i < last <= |steps|
    ensures AcceptedAt(steps[..last], i) == AcceptedAt(steps, i)
  {
    assert steps[..last][..i] == steps[..i];
  }

  /** One step of the gate, seen from an id accepted earlier. */
  lemma StaysRemembered(gate: Gate, e: Event, now: real, id: string, expiry: real, t: real)
    requires !gate.closed && now <= t
    requires now > expiry || (id in gate.seen && gate.seen[id] >= expiry)
    ensures var after := Accept(gate, e, now).0;
            t > expiry || (id in after.seen && after.seen[id] >= expiry)
  {
  }

  lemma {:induction false} RunRemembers(steps: seq<Step>, t: real)
    requires ClockNeverGoesBack(steps)
    requires forall i :: 0 <= i < |steps| && steps[i].Offer? ==> steps[i].now <= t
    ensures Remembered(steps, Run(steps), t)
  {
    if steps != [] {
      var last := |steps| - 1;
      var before := steps[..last];
      if steps[last].Offer? {
        var e, now := steps[last].event, steps[last].now;
        RunRemembers(before, now);
        var gate := Run(before);
        forall i | 0 <= i < |steps| && AcceptedAt(steps, i)
          ensures Run(steps).closed || t > Expiry(steps[i])
                  || (steps[i].event.id.value in Run(steps).seen && Run(steps).seen[steps[i].event.id.value] >= Expiry(steps[i]))
        {
          if i < last {
            AcceptedBefore(steps, last, i);
            if !gate.closed {
              StaysRemembered(gate, e, now, steps[i].event.id.value, Expiry(steps[i]), t);
            }
          }
        }
      }
    }
  }

  lemma {:induction false} ClosedForGood(steps: seq<Step>, i: nat, j: nat)
    requires i < j <= |steps| && steps[i].Close?
    ensures Run(steps[..j]).closed
    decreases j
  {
    assert steps[..j][..j - 1] == steps[..j - 1];
    if j - 1 > i {
      ClosedForGood(steps, i, j - 1);
    }
  }

  /** Nothing is accepted after the gate was closed. */
  lemma NothingAfterClose(steps: seq<Step>, i: nat, j: nat)
    requires i < j < |steps| && steps[i].Close?
    ensures !AcceptedAt(steps, j)
  {
    ClosedForGood(steps, i, j);
  }

  /** No message id is ever accepted twice, over any run. */
  lemma NeverAcceptedTwice(steps: seq<Step>, i: nat, j: nat)
    requires ClockNeverGoesBack(steps) && CreationTimesFixed(steps)
    requires i < j < |steps| && AcceptedAt(steps, i) && AcceptedAt(steps, j)
    ensures steps[i].event.id != steps[j].event.id
  {
    if steps[i].event.id == steps[j].event.id {
      RunRemembers(steps[..j], steps[j].now);
      AcceptedBefore(steps, j, i);
    }
  }

  /** The ids that were accepted and whose windows are still open at time t. */
  ghost function OpenIds(steps: seq<Step>, t: real): set<string> {
    set i | 0 <= i < |steps| && AcceptedAt(steps, i) && t <= Expiry(steps[i]) :: steps[i].event.id.value
  }

  lemma {:induction false} SeenIsBounded(steps: seq<Step>)
    ensures |Run(steps).seen| <= MAX_SEEN_MESSAGES
  {
    if steps != [] {
      SeenIsBounded(steps[..|steps| - 1]);
      if steps[|steps| - 1].Offer? {
        PurgedIsSmaller(Run(steps[..|steps| - 1]).seen, steps[|steps| - 1].now);
      }
    }
  }

  lemma SubsetIsSmaller(a: set<string>, b: set<string>)
    requires a <= b
    ensures |a| <= |b|
  {
    if a != {} {
      var x :| x in a;
      SubsetIsSmaller(a - {x}, b - {x});
    }
  }

  lemma PurgedIsSmaller(seen: map<string, real>, now: real)
    ensures |Purged(seen, now)| <= |seen|
  {
    SubsetIsSmaller(Purged(seen, now).Keys, seen.Keys);
    assert |Purged(seen, now)| == |Purged(seen, now).Keys| && |seen| == |seen.Keys|;
  }

  /** At any time, until the gate is closed, at most 4096 accepted ids have an open window. */
  lemma OpenWindowsAreBounded(steps: seq<Step>, t: real)
    requires ClockNeverGoesBack(steps) && !Run(steps).closed
    requires forall i :: 0 <= i < |steps| && steps[i].Offer? ==> steps[i].now <= t
    ensures |OpenIds(steps, t)| <= MAX_SEEN_MESSAGES
  {
    RunRemembers(steps, t);
    SeenIsBounded(steps);
    var seen := Run(steps).seen;
    assert OpenIds(steps, t) <= seen.Keys;
    SubsetIsSmaller(OpenIds(steps, t), seen.Keys);
    assert |seen| == |seen.Keys|;
  }

  /** The gate is bound to the chat of the last accepted message. */
  lemma {:induction false} BoundToAccepted(steps: seq<Step>, i: nat, j: nat)
    requires i < j <= |steps| && AcceptedAt(steps, i)
    ensures Run(steps[..j]).closed || Run(steps[..j]).boundChat == steps[i].event.chatId
    decreases j
  {
    assert steps[..j][..j - 1] == steps[..j - 1];
    if i < j - 1 {
      BoundToAccepted(steps, i, j - 1);
    }
  }

  /** All messages that are ever accepted are from one chat. */
  lemma OneChat(steps: seq<Step>, i: nat, j: nat)
    requires i < j < |steps| && AcceptedAt(steps, i) && AcceptedAt(steps, j)
    ensures steps[i].event.chatId == steps[j].event.chatId
  {
    BoundToAccepted(steps, i, j);
  }

  // ----- Exactly when an id is accepted again -----

  /** The k-th step is an event without objection that comes after `expiry`: it makes the gate forget what expired. */
  ghost predicate Sweeps(steps: seq<Step>, k: nat, expiry: real)
    requires k < |steps|
  {
    && steps[k].Offer? && Objection(Run(steps[..k]), steps[k].event, steps[k].now).None?
    && steps[k].now > expiry
  }

  ghost predicate SweptBetween(steps: seq<Step>, i: nat, j: nat, expiry: real)
    requires j <= |steps|
  {
    exists k :: i < k < j && Sweeps(steps, k, expiry)
  }

  /** No event with this id is accepted strictly between i and j. */
  ghost predicate NotAcceptedBetween(steps: seq<Step>, id: string, i: nat, j: nat)
    requires j <= |steps|
  {
    forall k :: i < k < j && AcceptedAt(steps, k) ==> steps[k].event.id.value != id
  }

  lemma SweptLast(steps: seq<Step>, i: nat, j: nat, expiry: real)
    requires i < j < |steps|
    ensures SweptBetween(steps, i, j + 1, expiry) <==> SweptBetween(steps, i, j, expiry) || Sweeps(steps, j, expiry)
  {
  }

  /** One step later: the id stays remembered unless the step sweeps it away. */
  lemma RememberedNext(steps: seq<Step>, j: nat, id: string, expiry: real)
    requires j < |steps| && !Run(steps[..j + 1]).closed
    requires AcceptedAt(steps, j) ==> steps[j].event.id.value != id
    requires id in Run(steps[..j]).seen ==> Run(steps[..j]).seen[id] == expiry
    ensures !Run(steps[..j]).closed
    ensures id in Run(steps[..j + 1]).seen <==> id in Run(steps[..j]).seen && !Sweeps(steps, j, expiry)
    ensures id in Run(steps[..j + 1]).seen ==> Run(steps[..j + 1]).seen[id] == expiry
  {
    assert steps[..j + 1][..j] == steps[..j];
  }

  /**
    While the gate is open, an accepted id is remembered, with its own expiry, exactly
    until an event without objection comes after that expiry.
  */
  lemma {:induction false} RememberedExactly(steps: seq<Step>, i: nat, j: nat)
    requires i < j <= |steps| && AcceptedAt(steps, i) && !Run(steps[..j]).closed
    requires NotAcceptedBetween(steps, steps[i].event.id.value, i, j)
    ensures var id := steps[i].event.id.value;
            && (id in Run(steps[..j]).seen <==> !SweptBetween(steps, i, j, Expiry(steps[i])))
            && (id in Run(steps[..j]).seen ==> Run(steps[..j]).seen[id] == Expiry(steps[i]))
  {
    RememberedFor(steps, i, j, steps[i].event.id.value, Expiry(steps[i]));
  }

  lemma {:induction false} RememberedFor(steps: seq<Step>, i: nat, j: nat, id: string, expiry: real)
    requires i < j <= |steps| && AcceptedAt(steps, i) && !Run(steps[..j]).closed
    requires id == steps[i].event.id.value && expiry == Expiry(steps[i]) && NotAcceptedBetween(steps, id, i, j)
    ensures id in Run(steps[..j]).seen <==> !SweptBetween(steps, i, j, expiry)
    ensures id in Run(steps[..j]).seen ==> Run(steps[..j]).seen[id] == expiry
    decreases j
  {
    if j == i + 1 {
      JustAccepted(steps, i);
    } else {
      ClosedBefore(steps, j - 1);
      RememberedFor(steps, i, j - 1, id, expiry);
      RememberedNext(steps, j - 1, id, expiry);
      SweptLast(steps, i, j - 1, expiry);
    }
  }

  lemma JustAccepted(steps: seq<Step>, i: nat)
    requires i < |steps| && AcceptedAt(steps, i)
    ensures var id := steps[i].event.id.value;
            id in Run(steps[..i + 1]).seen && Run(steps[..i + 1]).seen[id] == Expiry(steps[i])
    ensures !SweptBetween(steps, i, i + 1, Expiry(steps[i]))
  {
    assert steps[..i + 1][..i] == steps[..i];
  }

  lemma ClosedBefore(steps: seq<Step>, j: nat)
    requires j < |steps| && !Run(steps[..j + 1]).closed
    ensures !Run(steps[..j]).closed
  {
    assert steps[..j + 1][..j] == steps[..j];
  }

  /**
    An id accepted at i comes again at j, and was not accepted in between. It is accepted
    again exactly when there is no objection, some event without objection after i, the
    one at j included, came after the expiry of i, and there is room.
  */
  lemma AcceptedAgainExactly(steps: seq<Step>, i: nat, j: nat)
    requires i < j < |steps| && AcceptedAt(steps, i) && steps[j].Offer? && steps[j].event.id == steps[i].event.id
    requires NotAcceptedBetween(steps, steps[i].event.id.value, i, j)
    ensures AcceptedAt(steps, j) <==>
            && Objection(Run(steps[..j]), steps[j].event, steps[j].now).None?
            && SweptBetween(steps, i, j + 1, Expiry(steps[i]))
            && |Purged(Run(steps[..j]).seen, steps[j].now)| < MAX_SEEN_MESSAGES
  {
    SweptLast(steps, i, j, Expiry(steps[i]));
    if !Run(steps[..j]).closed {
      RememberedExactly(steps, i, j);
    }
  }

  // ----- Both assumptions are needed -----

  function Message(id: string, created: real): Event {
    Event(Some(id), Some("chat"), false, Some(created), true, false, Body("hello", [], []))
  }

  lemma FirstMessage(id: string)
    requires id != ""
    ensures Accept(OPEN, Message(id, 1_000_000_000_000.0), 1_000_000_000_000.0)
         == (Gate(map[id := 1_000_000_600_000.0], Some("chat"), false), Accepted(id, "chat"))
  {
    assert Purged(map[], 1_000_000_000_000.0) == map[];
  }

  /** The same id with a new creation time, after its first window closed: accepted twice. */
  lemma NewCreationTimeIsAcceptedAgain(id: string)
    requires id != ""
    ensures var steps := [Offer(Message(id, 1_000_000_000_000.0), 1_000_000_000_000.0),
                          Offer(Message(id, 1_000_000_700_000.0), 1_000_000_700_000.0)];
            ClockNeverGoesBack(steps) && AcceptedAt(steps, 0) && AcceptedAt(steps, 1)
  {
    var steps := [Offer(Message(id, 1_000_000_000_000.0), 1_000_000_000_000.0),
                  Offer(Message(id, 1_000_000_700_000.0), 1_000_000_700_000.0)];
    assert steps[..0] == [] && steps[..1] == [steps[0]] && steps[..1][..0] == [];
    FirstMessage(id);
    assert Run(steps[..1]) == Accept(Run(steps[..1][..0]), steps[0].event, steps[0].now).0;
    assert Purged(map[id := 1_000_000_600_000.0], 1_000_000_700_000.0) == map[];
  }

  /** The clock runs ahead once, so the window of an id is forgotten, and goes back: accepted twice. */
  lemma ClockGoingBackIsAcceptedAgain(id: string, other: string)
    requires id != "" && other != "" && id != other
    ensures var early, late := 1_000_000_000_000.0, 1_000_000_700_000.0;
            var steps := [Offer(Message(id, early), early), Offer(Message(other, late), late), Offer(Message(id, early), early)];
            CreationTimesFixed(steps) && AcceptedAt(steps, 0) && AcceptedAt(steps, 2)
  {
    var early, late := 1_000_000_000_000.0, 1_000_000_700_000.0;
    var steps := [Offer(Message(id, early), early), Offer(Message(other, late), late), Offer(Message(id, early), early)];
    assert steps[..0] == [] && steps[..1] == [steps[0]] && steps[..1][..0] == [];
    assert steps[..2] == [steps[0], steps[1]] && steps[..2][..1] == steps[..1];
    FirstMessage(id);
    assert Run(steps[..1]) == Accept(Run(steps[..1][..0]), steps[0].event, steps[0].now).0;
    assert Purged(map[id := 1_000_000_600_000.0], late) == map[];
    assert Run(steps[..2]) == Accept(Run(steps[..1]), steps[1].event, steps[1].now).0;
    assert Run(steps[..2]).seen == map[other := 1_000_001_300_000.0];
    assert Purged(map[other := 1_000_001_300_000.0], early) == map[other := 1_000_001_300_000.0];
  }
}
