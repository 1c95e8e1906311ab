/** What each act of a run does to the manager, and that runs do all their acts in order. */
module NestedActs {
  import Flowchart
  import opened NestedEvents
  import opened Wrappers

  /** The node is in no list any more; all other nodes keep their lists and their order. */
  predicate Gone(s: State, r: State, n: nat) {
    && |r.waiting| == |s.waiting| && (forall e | 0 <= e < |s.waiting| :: r.waiting[e] == Less(s.waiting[e], n))
    && |r.batches| == |s.batches| && (forall i | 0 <= i < |s.batches| :: r.batches[i] == Less(s.batches[i], n))
    && r.log == s.log + (if Linked(s, n) then [Unlinked(n)] else [])
    && r == s.(waiting := r.waiting, batches := r.batches, log := r.log)
  }

  /** The node has left the list it was in, and is the last one that waits for the event. */
  predicate Waited(s: State, r: State, n: nat, event: nat) {
    && event < |s.waiting| == |r.waiting|
    && r.waiting[event] == Less(s.waiting[event], n) + [n]
    && r.log != [] && r.log[|r.log| - 1] == Waits(n, event)
    && Gone(s, r.(waiting := r.waiting[event := Less(s.waiting[event], n)], log := r.log[..|r.log| - 1]), n)
  }

  lemma LessNothing(q: seq<nat>, n: nat)
    requires n !in q
    ensures Less(q, n) == q
  {
    Flowchart.WithoutNone(q, {n});
  }

  lemma UnlinkDoes(s: State, n: nat)
    ensures Gone(s, Unlink(s, n), n)
  {
    hide Less;
    if !Linked(s, n) {
      forall e | 0 <= e < |s.waiting|
        ensures Less(s.waiting[e], n) == s.waiting[e]
      {
        LessNothing(s.waiting[e], n);
      }
      forall i | 0 <= i < |s.batches|
        ensures Less(s.batches[i], n) == s.batches[i]
      {
        LessNothing(s.batches[i], n);
      }
    }
  }

  lemma WaitForDoes(s: State, n: nat, event: nat)
    ensures if event < |s.waiting| then Waited(s, WaitFor(s, n, event), n, event) else WaitFor(s, n, event) == s
  {
    hide Less, Unlink, Linked;
    UnlinkDoes(s, n);
  }

  /** What is left of a node that could not be run for lack of an executor: it waits for the
      start event, if there is one, and the event is queued. */
  predicate Postponed(s: State, r: State, n: nat, immediate: bool) {
    && r.queue == s.queue + [Queued(START_EVENT, immediate)]
    && if START_EVENT < |s.waiting| then Waited(s, r.(queue := s.queue), n, START_EVENT) else r == s.(queue := r.queue)
  }

  /** A node runs when an executor is left, and is postponed otherwise. */
  lemma RunOrWaitDoes(c: Limits, script: Script, s: State, n: nat, immediate: bool)
    requires Valid(c, s)
    ensures var r := RunOrWait(c, script, s, n, immediate);
            if |s.cursors| < c.stack then r == RunFlow(c, script, s, n).0 else Postponed(s, r, n, immediate)
  {
    hide RunFlow, Waited, Apart;
    WaitForDoes(s, n, START_EVENT);
    if |s.cursors| >= c.stack {
      assert RunFlow(c, script, s, n).0 == s;
    }
  }

  /** The owner of a subchart that returns is taken up again on the executor below, when it is
      the current node there: it leaves the list it is in, and nothing runs. Otherwise it is run,
      or postponed in front of the queue. */
  lemma ContinueDoes(c: Limits, script: Script, s: State, n: nat)
    requires Valid(c, s)
    ensures var r := ContinueFlow(c, script, s, n);
            if |s.cursors| > 1 && s.cursors[|s.cursors| - 2] == Some(n) then
              && r.log != [] && r.log[|r.log| - 1] == Continued(n, |s.cursors| - 2)
              && Gone(s, r.(log := r.log[..|r.log| - 1]), n)
            else if |s.cursors| < c.stack then r == RunFlow(c, script, s, n).0
            else Postponed(s, r, n, true)
  {
    hide RunFlow, RunOrWait, Apart, Unlink, Postponed, Less;
    UnlinkDoes(s, n);
    RunOrWaitDoes(c, script, s, n, true);
  }

  /** Every act has its effect: the executor turns to the node; a node leaves its list, or
      waits; an event is queued, or dispatched unless the frames are used up; a chart is started
      or its owner taken up again. */
  lemma ActsDo(c: Limits, script: Script, s: State, act: Act)
    requires Valid(c, s)
    ensures var r := Serve(c, script, s, act);
            match act
            case Enter(n) => r == s.(cursors := s.cursors[..|s.cursors| - 1] + [Some(n)])
            case Drop(n) => Gone(s, r, n)
            case Await(n, e) => if e < |s.waiting| then Waited(s, r, n, e) else r == s
            case Trigger(e, immediate) =>
              if e < |s.waiting| && s.waiting[e] != [] && s.frame >= c.frames then
                r == s.(queue := s.queue + [Queued(e, immediate)], log := s.log + [Refused(e, s.Depth())])
              else r == TriggerEvent(c, script, s, e).0
            case Raise(e, immediate) => r == s.(queue := s.queue + [Queued(e, immediate)])
            case Start(n) =>
              if |s.cursors| < c.stack then r == RunFlow(c, script, s, n).0 else Postponed(s, r, n, false)
            case Resume(n) => r == ContinueFlow(c, script, s, n)
  {
    hide RunFlow, RunOrWait, ContinueFlow, Apart, Steady, Sound, Unlink, WaitFor, Gone, Waited, Postponed;
    match act
    case Enter(n) =>
    case Drop(n) => UnlinkDoes(s, n);
    case Await(n, e) => WaitForDoes(s, n, e);
    case Trigger(e, immediate) => TriggerOrQueues(c, script, s, e, immediate);
    case Raise(e, immediate) =>
    case Start(n) => RunOrWaitDoes(c, script, s, n, false);
    case Resume(n) =>
  }

  lemma TriggerOrQueues(c: Limits, script: Script, s: State, event: nat, immediate: bool)
    requires Valid(c, s)
    ensures TriggerOrQueue(c, script, s, event, immediate) ==
            if event < |s.waiting| && s.waiting[event] != [] && s.frame >= c.frames then
              s.(queue := s.queue + [Queued(event, immediate)], log := s.log + [Refused(event, s.Depth())])
            else TriggerEvent(c, script, s, event).0
  {
    hide HandleBatch, Apart, Steady, Sound;
  }

  /** What a dispatch begins with: the waiting list is the innermost batch, the event is current,
      and all else is as before. */
  predicate Begins(s: State, t: State, event: nat, frame: nat) {
    && event < |s.waiting|
    && t == s.(waiting := s.waiting[event := []], batches := s.batches + [s.waiting[event]],
               current := Some(event), frame := frame)
  }

  /** A trigger is dispatched in a frame of its own with its event current, and an event from the
      queue without one; afterwards the batch is gone. */
  lemma DispatchBegins(c: Limits, script: Script, s: State, event: nat) returns (t: State, u: State)
    requires Valid(c, s) && event < |s.waiting| && s.waiting[event] != []
    ensures Begins(s, t, event, s.frame + 1) && Begins(s, u, event, s.frame)
    ensures Apart(t.waiting, t.batches) && Apart(u.waiting, u.batches)
    ensures s.frame < c.frames ==>
              TriggerEvent(c, script, s, event) ==
              (HandleBatch(c, script, t).Outer().(frame := s.frame, current := s.current), true)
    ensures HandleEvent(c, script, s, event) == HandleBatch(c, script, u).Outer()
  {
    hide HandleBatch, Apart, Steady, Sound;
    SwapKeeps(s, event);
    t := Swapped(s, event).(frame := s.frame + 1);
    u := Swapped(s, event);
  }

  /** Acts are done one after the other. */
  lemma {:induction false} ActsInOrder(c: Limits, script: Script, s: State, acts: seq<Act>, more: seq<Act>)
    requires Valid(c, s)
    ensures Perform(c, script, s, acts + more) == Perform(c, script, Perform(c, script, s, acts), more)
    ensures forall act :: Perform(c, script, s, [act]) == Serve(c, script, s, act)
    decreases |acts|
  {
    hide Serve, Apart, Steady, Sound;
    forall act
      ensures Perform(c, script, s, [act]) == Serve(c, script, s, act)
    {
      assert [act][1..] == [];
    }
    if acts == [] {
      assert [] + more == more;
    } else {
      ActsInOrder(c, script, Serve(c, script, s, acts[0]), acts[1..], more);
      assert (acts + more)[1..] == acts[1..] + more && (acts + more)[0] == acts[0];
    }
  }

  /** A run does all its acts on an executor of its own, and gives that back. */
  lemma RunsDoTheirActs(c: Limits, script: Script, s: State, n: nat)
    requires Valid(c, s) && |s.cursors| < c.stack
    ensures var u := s.(cursors := s.cursors + [None]);
            && Valid(c, u)
            && RunFlow(c, script, s, n).0 == Perform(c, script, u, script(s.log, n)).(cursors := s.cursors)
  {
    hide Perform, Apart, Sound;
  }
}
