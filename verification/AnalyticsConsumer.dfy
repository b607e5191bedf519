/** The analytics batching consumer: one buffer shared by the claims of a session, flushed at 1000 or on a tick. */
module AnalyticsConsumer {
  import opened Wrappers

  const BATCH_SIZE := 1000

  datatype Event = Event(claim: nat, offset: nat, data: string)

  /** event is None when the message value is not a usage event. */
  datatype Message = Message(claim: nat, offset: nat, data: Option<string>)

  /** A batch given to the sink, and whether the sink took it. */
  datatype Handed = Handed(events: seq<Event>, ok: bool)

  datatype State = State(batch: seq<Event>, handed: seq<Handed>, marked: seq<Message>)

  const START := State([], [], [])

  /** One arm of a select, or a call of the session. Each is one atomic step. */
  datatype Step =
    | Setup
    | Receive(msg: Message, sinkOk: bool)
    | Tick(sinkOk: bool)
    | Close(claim: nat)
    | Cleanup(sinkOk: bool)

  function Flushed(s: State, sinkOk: bool): State {
    s.(handed := s.handed + [Handed(s.batch, sinkOk)], batch := [])
  }

  function EventOf(msg: Message): Event
    requires msg.data.Some?
  {
    Event(msg.claim, msg.offset, msg.data.value)
  }

  function Apply(s: State, step: Step): State {
    match step
    case Setup => s.(batch := [])
    case Receive(msg, sinkOk) =>
      var s' := s.(marked := s.marked + [msg]);
      if msg.data.None? then s'
      else
        var s'' := s'.(batch := s.batch + [EventOf(msg)]);
        if |s''.batch| >= BATCH_SIZE then Flushed(s'', sinkOk) else s''
    case Tick(sinkOk) => if |s.batch| > 0 then Flushed(s, sinkOk) else s
    case Close(_) => s
    case Cleanup(sinkOk) => if |s.batch| > 0 then Flushed(s, sinkOk) else s
  }

  function RunFrom(s: State, steps: seq<Step>): State {
    if steps == [] then s else Apply(RunFrom(s, steps[..|steps| - 1]), steps[|steps| - 1])
  }

  // ----- The handler

  class GroupHandler {
    var batch: seq<Event>
    var handed: seq<Handed>
    var marked: seq<Message>

    ghost function Seen(): State
      reads this
    {
      State(batch, handed, marked)
    }

    constructor ()
      ensures Seen() == START
    {
      batch, handed, marked := [], [], [];
    }

    method Setup()
      modifies this`batch
      ensures Seen() == Apply(old(Seen()), Step.Setup)
    {
      batch := [];
    }

    method Cleanup(sinkOk: bool)
      modifies this`batch, this`handed
      ensures Seen() == Apply(old(Seen()), Step.Cleanup(sinkOk))
      ensures batch == []
    {
      if |batch| > 0 {
        handed := handed + [Handed(batch, sinkOk)];
        batch := [];
      }
    }

    method Flush(sinkOk: bool)
      modifies this`batch, this`handed
      ensures Seen() == Flushed(old(Seen()), sinkOk)
    {
      handed := handed + [Handed(batch, sinkOk)];
      batch := [];
    }

    /** arms are the select arms this claim takes until its message channel is closed. */
    method ConsumeClaim(claim: nat, arms: seq<Step>)
      requires forall i :: 0 <= i < |arms| ==> arms[i].Tick? || (arms[i].Receive? && arms[i].msg.claim == claim)
      modifies this
      ensures Seen() == RunFrom(old(Seen()), arms + [Close(claim)])
    {
      var i := 0;
      while i < |arms|
        invariant 0 <= i <= |arms|
        invariant Seen() == RunFrom(old(Seen()), arms[..i])
      {
        assert arms[..i + 1][..i] == arms[..i];
        if arms[i].Receive? {
          var msg := arms[i].msg;
          if msg.data.None? {
            marked := marked + [msg];
          } else {
            batch := batch + [EventOf(msg)];
            marked := marked + [msg];
            if |batch| >= BATCH_SIZE {
              Flush(arms[i].sinkOk);
            }
          }
        } else if |batch| > 0 {
          Flush(arms[i].sinkOk);
        }
        i := i + 1;
      }
      assert (arms + [Close(claim)])[..|arms|] == arms[..i];
    }
  }

  // ----- What went in

  function Received(steps: seq<Step>): seq<Message> {
    if steps == [] then []
    else
      var last := steps[|steps| - 1];
      Received(steps[..|steps| - 1]) + if last.Receive? then [last.msg] else []
  }

  function Decoded(msgs: seq<Message>): seq<Event> {
    if msgs == [] then []
    else
      var last := msgs[|msgs| - 1];
      Decoded(msgs[..|msgs| - 1]) + if last.data.Some? then [EventOf(last)] else []
  }

  function OfClaim(events: seq<Event>, claim: nat): seq<Event> {
    if events == [] then []
    else
      var last := events[|events| - 1];
      OfClaim(events[..|events| - 1], claim) + if last.claim == claim then [last] else []
  }

  function MessagesOfClaim(msgs: seq<Message>, claim: nat): seq<Message> {
    if msgs == [] then []
    else
      var last := msgs[|msgs| - 1];
      MessagesOfClaim(msgs[..|msgs| - 1], claim) + if last.claim == claim then [last] else []
  }

  // ----- What came out

  /** The events of the batches, in order. */
  function EventsOf(handed: seq<Handed>): seq<Event> {
    if handed == [] then [] else EventsOf(handed[..|handed| - 1]) + handed[|handed| - 1].events
  }

  /** Everything given to the sink, in order, then what is still in the buffer. */
  function Output(s: State): seq<Event> {
    EventsOf(s.handed) + s.batch
  }

  ghost predicate WellSized(s: State) {
    |s.batch| < 1000 && forall i :: 0 <= i < |s.handed| ==> 1 <= |s.handed[i].events| <= 1000
  }

  // ----- Sessions: Setup, then the claims, then Cleanup

  /** Is a session open after these steps? None when the steps are not a run of sessions. */
  function Open(steps: seq<Step>): Option<bool> {
    if steps == [] then Some(false)
    else
      var before, last := Open(steps[..|steps| - 1]), steps[|steps| - 1];
      if before.None? || before.value == last.Setup? then None else Some(!last.Cleanup?)
  }

  lemma FlushedOutput(s: State, sinkOk: bool)
    ensures Output(Flushed(s, sinkOk)) == Output(s)
  {
    var s' := Flushed(s, sinkOk);
    assert s'.handed[..|s.handed|] == s.handed;
  }

  lemma ApplyOutput(s: State, step: Step)
    requires step.Setup? ==> s.batch == []
    ensures Output(Apply(s, step)) ==
            Output(s) + if step.Receive? && step.msg.data.Some? then [EventOf(step.msg)] else []
  {
    match step {
      case Receive(msg, sinkOk) =>
        if msg.data.Some? {
          var s' := s.(marked := s.marked + [msg], batch := s.batch + [EventOf(msg)]);
          FlushedOutput(s', sinkOk);
          assert Output(s') == Output(s) + [EventOf(msg)];
        }
      case Tick(sinkOk) => FlushedOutput(s, sinkOk);
      case Cleanup(sinkOk) => FlushedOutput(s, sinkOk);
      case _ =>
    }
  }

  /**
   In every interleaving of the claims of any run of sessions: what the sink was given, followed by the
   buffer, is exactly the decoded messages in order of receipt; batches have 1 to 1000 events, the buffer
   stays below 1000 and is empty between sessions; every message is marked once, in order.
   */
  lemma {:induction false} NothingLostOrReordered(steps: seq<Step>)
    requires Open(steps).Some?
    ensures
      var s := RunFrom(START, steps);
      && Output(s) == Decoded(Received(steps))
      && s.marked == Received(steps)
      && WellSized(s)
      && (!Open(steps).value ==> s.batch == [])
  {
    if steps != [] {
      var n := |steps| - 1;
      NothingLostOrReordered(steps[..n]);
      ApplyOutput(RunFrom(START, steps[..n]), steps[n]);
      ApplyMarks(RunFrom(START, steps[..n]), steps[n]);
      ReceivedStep(steps);
    }
  }

  lemma ApplyMarks(s: State, step: Step)
    requires WellSized(s)
    ensures Apply(s, step).marked == s.marked + (if step.Receive? then [step.msg] else [])
    ensures WellSized(Apply(s, step))
    ensures step.Cleanup? ==> Apply(s, step).batch == []
  {
  }

  lemma ReceivedStep(steps: seq<Step>)
    requires steps != []
    ensures
      var before, last := Received(steps[..|steps| - 1]), steps[|steps| - 1];
      && Received(steps) == before + (if last.Receive? then [last.msg] else [])
      && Decoded(Received(steps)) ==
         Decoded(before) + if last.Receive? && last.msg.data.Some? then [EventOf(last.msg)] else []
  {
    var before, last := Received(steps[..|steps| - 1]), steps[|steps| - 1];
    if last.Receive? {
      assert Received(steps)[..|before|] == before;
    } else {
      assert Received(steps) == before;
    }
  }

  /** After a tick or a Cleanup nothing is held back: the sink was given every decoded message so far. */
  lemma FlushedOnTick(steps: seq<Step>)
    requires Open(steps).Some? && steps != []
    requires steps[|steps| - 1].Tick? || steps[|steps| - 1].Cleanup?
    ensures
      var s := RunFrom(START, steps);
      s.batch == [] && EventsOf(s.handed) == Decoded(Received(steps))
  {
    NothingLostOrReordered(steps);
  }

  /** Does this step hand over a batch? A message does when it fills the buffer, a tick or Cleanup when it holds any. */
  predicate HandsOver(batch: seq<Event>, step: Step) {
    match step
    case Receive(msg, _) => msg.data.Some? && |batch| == 999
    case Tick(_) => batch != []
    case Cleanup(_) => batch != []
    case _ => false
  }

  /**
   In every run a step hands over the whole buffer, once, exactly then; so a batch of fewer than 1000
   events comes from a tick or a Cleanup alone. What the sink answers is recorded with it.
   */
  lemma HandedOverIff(steps: seq<Step>, step: Step)
    requires Open(steps).Some?
    ensures
      var s := RunFrom(START, steps);
      var s' := RunFrom(START, steps + [step]);
      if !HandsOver(s.batch, step) then s'.handed == s.handed
      else
        var whole := if step.Receive? then s.batch + [EventOf(step.msg)] else s.batch;
        && s'.batch == [] && s'.handed == s.handed + [Handed(whole, step.sinkOk)]
        && |s'.handed[|s.handed|].events| <= 1000
        && (|s'.handed[|s.handed|].events| == 1000 <==> step.Receive?)
  {
    NothingLostOrReordered(steps);
    assert (steps + [step])[..|steps|] == steps;
  }

  lemma {:induction false} OfClaimDecoded(msgs: seq<Message>, claim: nat)
    ensures OfClaim(Decoded(msgs), claim) == Decoded(MessagesOfClaim(msgs, claim))
  {
    if msgs != [] {
      var n := |msgs| - 1;
      OfClaimDecoded(msgs[..n], claim);
      var d, c := Decoded(msgs), MessagesOfClaim(msgs, claim);
      if msgs[n].data.Some? {
        assert d[..|d| - 1] == Decoded(msgs[..n]);
      } else {
        assert d == Decoded(msgs[..n]);
      }
      if msgs[n].claim == claim {
        assert c[..|c| - 1] == MessagesOfClaim(msgs[..n], claim);
      } else {
        assert c == MessagesOfClaim(msgs[..n], claim);
      }
    }
  }

  /** Sharing the buffer keeps each claim's own order. */
  lemma ClaimOrderKept(steps: seq<Step>, claim: nat)
    requires Open(steps).Some?
    ensures OfClaim(Output(RunFrom(START, steps)), claim) == Decoded(MessagesOfClaim(Received(steps), claim))
  {
    NothingLostOrReordered(steps);
    OfClaimDecoded(Received(steps), claim);
  }

  /**
   Setup empties the buffer, so opening a session over one that was never cleaned up drops exactly
   what was buffered: the lifecycle is needed.
   */
  lemma SetupDropsBuffer(s: State)
    ensures Output(s) == Output(Apply(s, Setup)) + s.batch
    ensures Output(Apply(s, Setup)) == Output(s) <==> s.batch == []
  {
    assert Apply(s, Setup).handed == s.handed;
  }

  // ----- Batches the sink refused

  function Taken(handed: seq<Handed>): seq<Event> {
    if handed == [] then []
    else
      var last := handed[|handed| - 1];
      Taken(handed[..|handed| - 1]) + if last.ok then last.events else []
  }

  function RefusedCount(handed: seq<Handed>): nat {
    if handed == [] then 0
    else
      var last := handed[|handed| - 1];
      RefusedCount(handed[..|handed| - 1]) + if last.ok then 0 else 1
  }

  lemma {:induction false} TakenCount(handed: seq<Handed>)
    requires forall i :: 0 <= i < |handed| ==> |handed[i].events| <= BATCH_SIZE
    ensures |Taken(handed)| <= |EventsOf(handed)| <= |Taken(handed)| + BATCH_SIZE * RefusedCount(handed)
  {
    if handed != [] {
      var n := |handed| - 1;
      TakenCount(handed[..n]);
    }
  }

  /** A refused batch is not tried again: the sink misses at most 1000 decoded events a refusal, and the buffer. */
  lemma LossBound(steps: seq<Step>)
    requires Open(steps).Some?
    ensures
      var s := RunFrom(START, steps);
      var missing := |Decoded(Received(steps))| - |Taken(s.handed)|;
      && |s.batch| <= missing <= |s.batch| + 1000 * RefusedCount(s.handed)
      && missing < 1000 * (RefusedCount(s.handed) + 1)
  {
    NothingLostOrReordered(steps);
    TakenCount(RunFrom(START, steps).handed);
  }
}
