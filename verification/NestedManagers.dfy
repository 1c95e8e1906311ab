/** The manager and its stack of executors as they run: nested dispatch on fields that change
    in place. Every method does what the function of the same purpose in NestedEvents says. */
module NestedManagers {
  import opened Flowchart
  import N = NestedEvents
  import opened Wrappers

  lemma BatchKeepsFrame(c: N.Limits, script: N.Script, s: N.State)
    requires N.Apart(s.waiting, s.batches) && 1 <= |s.cursors| <= c.stack && s.frame <= s.Depth() + 1 && s.batches != []
    ensures N.HandleBatch(c, script, s).frame == s.frame
  {
    hide N.HandleBatch, N.Apart, N.Sound;
  }

  class NestedManager {
    const limits: N.Limits
    var waiting: seq<seq<nat>>
    /** The lists that dispatches under way have swapped away. */
    var nodeLists: seq<seq<nat>>
    /** The current node of each executor up to the one in use. */
    var executors: seq<Option<nat>>
    var currentEventFrame: nat
    var currentEvent: Option<nat>
    var eventQueue: seq<N.Queued>
    var log: seq<N.Mark>

    ghost function View(): N.State
      reads this
    {
      N.State.State(waiting, nodeLists, executors, currentEventFrame, currentEvent, eventQueue, log)
    }

    constructor (limits: N.Limits, events: nat)
      ensures View() == N.Begin(events) && this.limits == limits
    {
      this.limits := limits;
      waiting, nodeLists, executors := seq(events, _ => []), [], [None];
      currentEventFrame, currentEvent, eventQueue, log := 0, None, [], [];
    }

    /** Unlinks a node from the list it is in, be it one that was swapped away. */
    method Unlink(n: nat)
      modifies this
      ensures View() == N.Unlink(old(View()), n)
    {
      if N.Linked(N.State.State(waiting, nodeLists, executors, currentEventFrame, currentEvent, eventQueue, log), n) {
        waiting, nodeLists, log := N.Strip(waiting, n), N.Strip(nodeLists, n), log + [N.Unlinked(n)];
      }
    }

    /** `Agent::WaitEvent` */
    method WaitEvent(n: nat, event: nat)
      modifies this
      ensures View() == N.WaitFor(old(View()), n, event)
    {
      if event >= |waiting| {
        return;
      }
      Unlink(n);
      waiting, log := waiting[event := waiting[event] + [n]], log + [N.Waits(n, event)];
    }

    /** `StackExecutor::RunFlow` */
    method RunFlow(script: N.Script, n: nat) returns (ok: bool)
      requires N.Apart(waiting, nodeLists) && 1 <= |executors| <= limits.stack && currentEventFrame <= |executors|
      modifies this
      ensures (View(), ok) == N.RunFlow(limits, script, old(View()), n)
      decreases limits.stack - |executors|, 0, 2 * |View().Batch()| + 1
    {
      hide N.Apart, N.Perform;
      var oldIndex := |executors|;
      if oldIndex >= limits.stack {
        return false;
      }
      var acts := script(log, n);
      executors := executors + [None];
      Perform(script, acts);
      executors := executors[..oldIndex];
      ok := true;
    }

    /** What happens in a run, in order. */
    method Perform(script: N.Script, acts: seq<N.Act>)
      requires N.Valid(limits, View())
      modifies this
      ensures View() == N.Perform(limits, script, old(View()), acts)
      decreases limits.stack - |executors|, 4, |acts|
    {
      hide N.Apart, N.Serve;
      ghost var s := View();
      for i := 0 to |acts|
        invariant N.Valid(limits, View()) && |executors| == |s.cursors|
        invariant N.Perform(limits, script, View(), acts[i..]) == N.Perform(limits, script, s, acts)
      {
        assert acts[i..][1..] == acts[i + 1..];
        Serve(script, acts[i]);
      }
    }

    method Serve(script: N.Script, act: N.Act)
      requires N.Valid(limits, View())
      modifies this
      ensures View() == N.Serve(limits, script, old(View()), act)
      decreases limits.stack - |executors|, 3, 0
    {
      hide N.Apart, N.TriggerOrQueue, N.RunOrWait, N.ContinueFlow, N.WaitFor, N.Unlink;
      match act
      case Enter(n) => executors := executors[|executors| - 1 := Some(n)];
      case Drop(n) => Unlink(n);
      case Await(n, e) => WaitEvent(n, e);
      case Trigger(e, immediate) => TriggerOrQueue(script, e, immediate);
      case Raise(e, immediate) => eventQueue := eventQueue + [N.Queued(e, immediate)];
      case Start(n) => RunOrWait(script, n, false);
      case Resume(n) => ContinueFlow(script, n);
    }

    /** `StackExecutor::ContinueFlow` */
    method ContinueFlow(script: N.Script, n: nat)
      requires N.Valid(limits, View())
      modifies this
      ensures View() == N.ContinueFlow(limits, script, old(View()), n)
      decreases limits.stack - |executors|, 2, 1
    {
      hide N.Apart, N.RunOrWait, N.Unlink, N.Steady;
      if |executors| > 1 && executors[|executors| - 2] == Some(n) {
        var previous := |executors| - 2;
        Unlink(n);
        log := log + [N.Continued(n, previous)];
      } else {
        RunOrWait(script, n, true);
      }
    }

    /** `Manager::Event` for an event to be triggered. */
    method TriggerOrQueue(script: N.Script, event: nat, immediate: bool)
      requires N.Valid(limits, View())
      modifies this
      ensures View() == N.TriggerOrQueue(limits, script, old(View()), event, immediate)
      decreases limits.stack - |executors|, 2, 0
    {
      hide N.Apart, N.TriggerEvent;
      var done := TriggerEvent(script, event);
      if !done {
        eventQueue, log := eventQueue + [N.Queued(event, immediate)], log + [N.Refused(event, |executors| - 1)];
      }
    }

    /** `Agent::StartChart` and `Chart::Return` */
    method RunOrWait(script: N.Script, n: nat, immediate: bool)
      requires N.Valid(limits, View())
      modifies this
      ensures View() == N.RunOrWait(limits, script, old(View()), n, immediate)
      decreases limits.stack - |executors|, 2, 0
    {
      hide N.Apart, N.RunFlow, N.WaitFor;
      var ok := RunFlow(script, n);
      if !ok {
        WaitEvent(n, N.START_EVENT);
        eventQueue := eventQueue + [N.Queued(N.START_EVENT, immediate)];
      }
    }

    /** `node_list.swap(*waiting_nodes)`, and the event is the current one. */
    method SwapAway(event: nat)
      requires event < |waiting|
      modifies this
      ensures View() == N.Swapped(old(View()), event)
    {
      nodeLists, waiting, currentEvent := nodeLists + [waiting[event]], waiting[event := []], Some(event);
    }

    /** `Manager::TriggerEvent` */
    method TriggerEvent(script: N.Script, event: nat) returns (done: bool)
      requires N.Valid(limits, View())
      modifies this
      ensures (View(), done) == N.TriggerEvent(limits, script, old(View()), event)
      decreases limits.stack - |executors|, 1, 0
    {
      hide N.Apart, N.HandleBatch, N.Steady, N.Sound;
      if event >= |waiting| || waiting[event] == [] {
        return true;
      }
      if currentEventFrame >= limits.frames {
        return false;
      }
      var prev := currentEvent;
      currentEventFrame := currentEventFrame + 1;
      SwapAndHandle(script, event);
      currentEventFrame := currentEventFrame - 1;
      currentEvent := prev;
      done := true;
    }

    /** Dispatches to a list that is swapped away before. */
    method SwapAndHandle(script: N.Script, event: nat)
      requires N.Apart(waiting, nodeLists) && 1 <= |executors| <= limits.stack && currentEventFrame <= |executors|
      requires event < |waiting|
      modifies this
      ensures N.Apart(N.Swapped(old(View()), event).waiting, N.Swapped(old(View()), event).batches)
      ensures View() == N.HandleBatch(limits, script, N.Swapped(old(View()), event)).Outer()
      ensures currentEventFrame == old(currentEventFrame)
      decreases limits.stack - |executors|, 0, 2 * |waiting[event]| + 2
    {
      hide N.Apart, N.HandleBatch, N.Sound, N.Steady;
      N.SwapKeeps(View(), event);
      BatchKeepsFrame(limits, script, N.Swapped(View(), event));
      SwapAway(event);
      HandleBatch(script);
      nodeLists := nodeLists[..|nodeLists| - 1];
    }

    /** Pops the first node of the list swapped away last. */
    method PopFirst() returns (n: nat)
      requires View().Batch() != [] && 1 <= |executors| <= limits.stack
      modifies this
      ensures n == old(View()).Batch()[0] && View() == N.Popped(limits, old(View()))
    {
      var last := |nodeLists| - 1;
      n := nodeLists[last][0];
      nodeLists := nodeLists[last := nodeLists[last][1..]];
      log := log + [if |executors| < limits.stack then N.Woken(n, |executors| - 1) else N.Lost(n, |executors| - 1)];
    }

    /** Pops and runs one node; whether it could be run is not looked at. */
    method WakeNext(script: N.Script)
      requires N.Apart(waiting, nodeLists) && 1 <= |executors| <= limits.stack && currentEventFrame <= |executors|
      requires View().Batch() != []
      modifies this
      ensures var v := old(View());
              && N.Apart(N.Popped(limits, v).waiting, N.Popped(limits, v).batches)
              && View() == N.RunFlow(limits, script, N.Popped(limits, v), v.Batch()[0]).0
              && N.HandleBatch(limits, script, v) == N.HandleBatch(limits, script, View())
      ensures N.Apart(waiting, nodeLists) && executors == old(executors) && currentEventFrame == old(currentEventFrame)
      ensures |nodeLists| == |old(nodeLists)| && |View().Batch()| < |old(View()).Batch()|
      decreases limits.stack - |executors|, 0, 2 * |View().Batch()|
    {
      ghost var v := View();
      N.PopKeeps(limits, v);
      N.WakingShortens(limits, script, v);
      hide N.Apart, N.RunFlow, N.Steady, N.Sound, N.HandleBatch, N.Popped;
      var n := PopFirst();
      var ok := RunFlow(script, n);
    }

    /** The loop of `Manager::_handleEvent` over the list swapped away last. */
    method HandleBatch(script: N.Script)
      requires N.Apart(waiting, nodeLists) && 1 <= |executors| <= limits.stack && currentEventFrame <= |executors|
      requires nodeLists != []
      modifies this
      ensures View() == N.HandleBatch(limits, script, old(View()))
      decreases limits.stack - |executors|, 0, 2 * |View().Batch()| + 1
    {
      ghost var s := View();
      hide N.Apart, N.RunFlow, N.Steady, N.Sound, N.Popped;
      while nodeLists[|nodeLists| - 1] != []
        invariant N.Apart(waiting, nodeLists) && executors == s.cursors && currentEventFrame == s.frame
        invariant |nodeLists| == |s.batches| && |View().Batch()| <= |s.Batch()|
        invariant N.HandleBatch(limits, script, View()) == N.HandleBatch(limits, script, s)
        decreases |View().Batch()|
      {
        WakeNext(script);
      }
      currentEvent := None;
    }

    /** `Manager::HandleEvent` */
    method HandleEvent(script: N.Script, event: nat)
      requires N.Valid(limits, View())
      modifies this
      ensures View() == N.HandleEvent(limits, script, old(View()), event)
    {
      hide N.Apart, N.HandleBatch, N.Steady, N.Sound;
      if event >= |waiting| || waiting[event] == [] {
        return;
      }
      SwapAndHandle(script, event);
    }
  }
}
