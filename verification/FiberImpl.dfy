/** The object of fiber.cc with its fields updated in place. Each method is one indivisible section of a member
  * function, proved against the function on field values that the steps of the protocol use. */
module FiberImpl {
  import opened Options
  import opened FiberTypes
  import opened FiberSteps

  class FiberImpl {
    const id: Fid
    var state: State
    var suspendState: State
    var waitReason: WaitReason
    var operating: bool
    var exception: bool
    var callback: Option<Body>
    var caller: Option<Stack>
    var context: Option<Stack>

    function View(): Impl
      reads this
    {
      Impl(state, suspendState, waitReason, operating, exception, callback, caller, context)
    }

    constructor (id: Fid, body: Body)
      ensures this.id == id && state == INIT && suspendState == INIT && waitReason == NoReason
      ensures !operating && !exception && callback == Some(body) && caller == None
      ensures context == Some(Stack(Some(id), Entry, 0))
      ensures View() == Constructed(id, body)
    {
      this.id := id;
      state, suspendState, waitReason := INIT, INIT, NoReason;
      operating, exception := false, false;
      callback, caller, context := Some(body), None, Some(FreshStack(id));
    }

    /** The OperationGuard constructor. */
    method TestAndSet() returns (was: bool)
      modifies this`operating
      ensures was == old(operating)
      ensures View() == old(View()).(operating := true)
    {
      was := operating;
      operating := true;
    }

    /** The critical section of `resume`: the two rejections release the guard, acceptance keeps it. */
    method BeginResume(current: Option<Fid>) returns (event: Event)
      modifies this`state, this`operating
      ensures event == (if old(state) != INIT && old(state) != READY then NotResumable(id)
                        else if old(context) == None then NoContext(id)
                        else Accepted(id))
      ensures event == Accepted(id) ==> state == EXEC && operating == old(operating)
      ensures event != Accepted(id) ==> !operating
      ensures event == ResumeStep(ResumeHeld(id), current, id, old(View())).event
      ensures View() == ResumeStep(ResumeHeld(id), current, id, old(View())).impl
    {
      if state != INIT && state != READY {
        operating := false;
        return NotResumable(id);
      }
      if context.None? {
        operating := false;
        return NoContext(id);
      }
      state := EXEC;
      event := Accepted(id);
    }

    /** `context = std::move(context).resume()`, once the switch has returned. */
    method SaveContext(prev: Option<Fid>, ret: Option<Stack>, current: Option<Fid>)
      modifies this`context
      ensures context == ret
      ensures View() == ResumeStep(ResumeBack(id, prev, ret), current, id, old(View())).impl
    {
      context := ret;
    }

    /** The critical section of `yield`. */
    method PublishYield(target: State, reason: WaitReason) returns (accepted: bool)
      modifies this`waitReason, this`suspendState, this`state
      ensures accepted <==> old(state == EXEC && caller.Some?)
      ensures accepted ==> waitReason == reason && suspendState == target && state == target
      ensures View() == if accepted then Yielded(old(View()), target, reason) else old(View())
    {
      if state != EXEC || caller.None? {
        return false;
      }
      waitReason := reason;
      suspendState := target;
      state := target;
      accepted := true;
    }

    method Wake() returns (woken: bool)
      modifies this`waitReason, this`state
      ensures woken <==> old(state) == WAITING
      ensures woken ==> state == READY && waitReason == NoReason
      ensures View() == if woken then Woken(old(View())) else old(View())
    {
      if state != WAITING {
        return false;
      }
      waitReason := NoReason;
      state := READY;
      woken := true;
    }

    /** The end of `run`, after a return or after the exception has been stored. */
    method Finish(terminal: State)
      modifies this`callback, this`waitReason, this`suspendState, this`state
      ensures callback == None && waitReason == NoReason && suspendState == terminal && state == terminal
      ensures View() == Ended(old(View()), terminal)
    {
      callback := None;
      waitReason := NoReason;
      suspendState := terminal;
      state := terminal;
    }

    /** `reset` with no other call between its stores: a rejection leaves every field as it was, and acceptance leaves
      * what the constructor would. */
    method Reset(current: Option<Fid>, body: Option<Body>) returns (event: Event)
      modifies this
      ensures event == (if old(operating) then AlreadyActive(id)
                        else if old(state) != TERM && old(state) != EXCEPT then NotFinished(id)
                        else if current == Some(id) then SelfReset(id)
                        else if body.None? then EmptyReset(id)
                        else WasReset(id, body.value))
      ensures View() == if event.WasReset? then Constructed(id, body.value) else old(View())
    {
      var was := TestAndSet();
      if was {
        return AlreadyActive(id);
      }
      if state != TERM && state != EXCEPT {
        event := NotFinished(id);
      } else if current == Some(id) {
        event := SelfReset(id);
      } else if body.None? {
        event := EmptyReset(id);
      } else {
        exception := false;
        callback, caller, context := body, None, Some(FreshStack(id));
        waitReason := NoReason;
        suspendState := INIT;
        state := INIT;
        event := WasReset(id, body.value);
      }
      operating := false;
    }
  }

  /** The thread-local `g_currentFiber` and the two guards' effect on it. */
  class ThreadLocal {
    var current: Option<Fid>

    constructor ()
      ensures current == None
    {
      current := None;
    }

    method Install(g: Fid) returns (previous: Option<Fid>)
      modifies this
      ensures previous == old(current) && current == Some(g)
    {
      previous := current;
      current := Some(g);
    }

    method Restore(previous: Option<Fid>)
      modifies this
      ensures current == previous
    {
      current := previous;
    }
  }

  /** The six reset steps of the protocol, taken without interruption, are the reset of the object. */
  lemma ResetStepsCompose(g: Fid, current: Option<Fid>, body: Body, i: Impl)
    requires Finished(i.state) && current != Some(g)
    ensures var l1 := ResetStep(ResetHeld(g, Some(body)), current, g, i.(operating := true));
            var l2 := ResetStep(l1.pc, current, g, l1.impl);
            var l3 := ResetStep(l2.pc, current, g, l2.impl);
            var l4 := ResetStep(l3.pc, current, g, l3.impl);
            var l5 := ResetStep(l4.pc, current, g, l4.impl);
            var l6 := ResetStep(l5.pc, current, g, l5.impl);
            l5.event == WasReset(g, body) && l6.pc == User && l6.impl == Constructed(g, body)
  {
  }
}
