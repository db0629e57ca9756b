/** The properties of the fiber protocol, for every run of any number of threads and fibers. */
module FiberTheorems {
  import opened Options
  import opened FiberTypes
  import opened FiberSteps
  import opened FiberInvariant
  import opened FiberPreservation
  import opened FiberRefinement

  // ---- Guards and Current ----

  /** The fibers whose stacks are nested on a thread, found by following callers (or, for a fiber whose destructor is
    * unwinding it, the destructor's stack) from the executed stack down to the thread's own. */
  ghost predicate NestFrom(s: Sys, owner: Option<Fid>, c: seq<Fid>)
    decreases |c|
  {
    if c == [] then owner == None
    else
      var g := c[|c| - 1];
      && owner == Some(g) && g in s.fibers && Below(s.fibers[g]).Some?
      && NestFrom(s, Below(s.fibers[g]).value.owner, c[..|c| - 1])
  }

  lemma {:induction false} NestIsUnique(s: Sys, owner: Option<Fid>, c: seq<Fid>, d: seq<Fid>)
    requires NestFrom(s, owner, c) && NestFrom(s, owner, d)
    ensures c == d
    decreases |c|
  {
    if c != [] && d != [] {
      NestIsUnique(s, Below(s.fibers[c[|c| - 1]]).value.owner, c[..|c| - 1], d[..|d| - 1]);
    }
  }

  lemma NestedOwner(s: Sys, log: seq<Event>, t: Tid, i: nat)
    requires Inv(s, log) && t in s.threads && i < |s.threads[t].chain|
    ensures var c := s.threads[t].chain;
            c[i] in s.fibers && Below(s.fibers[c[i]]).Some? && Below(s.fibers[c[i]]).value.owner == Top(c[..i])
  {
    assert ThreadOk(s, t) && Nested(s, t, i);
    assert FiberOk(s, log, s.threads[t].chain[i]);
  }

  lemma {:induction false} ChainIsNest(s: Sys, log: seq<Event>, t: Tid, n: nat)
    requires Inv(s, log) && t in s.threads && n <= |s.threads[t].chain|
    ensures NestFrom(s, Top(s.threads[t].chain[..n]), s.threads[t].chain[..n])
    decreases n
  {
    hide Inv, Below;
    var c := s.threads[t].chain;
    if n > 0 {
      NestedOwner(s, log, t, n - 1);
      ChainIsNest(s, log, t, n - 1);
      assert c[..n][..n - 1] == c[..n - 1];
    }
  }

  /** The frame under a nested fiber holds the guard that made the fiber current and saved the one beneath. */
  ghost predicate GuardBelow(s: Sys, c: seq<Fid>, i: nat)
    requires i < |c|
  {
    && c[i] in s.fibers && Below(s.fibers[c[i]]).Some?
    && Guard(Below(s.fibers[c[i]]).value.pc) == Some((c[i], if i == 0 then None else Some(c[i - 1])))
  }

  /** Live CurrentFiberGuards on a thread form a stack, and `g_currentFiber` is what the innermost one set. */
  ghost predicate GuardsNest(s: Sys, t: Tid, c: seq<Fid>)
    requires t in s.threads
  {
    var th := s.threads[t];
    && NestFrom(s, th.stack.owner, c)
    && (forall i :: 0 <= i < |c| ==> GuardBelow(s, c, i))
    && CurrentOk(th.stack.pc, th.current, if c == [] then None else Some(c[|c| - 1]))
  }

  lemma NestedGuard(s: Sys, log: seq<Event>, t: Tid, i: nat)
    requires Inv(s, log) && t in s.threads && i < |s.threads[t].chain|
    ensures GuardBelow(s, s.threads[t].chain, i)
  {
    assert ThreadOk(s, t) && Nested(s, t, i);
    var g := s.threads[t].chain[i];
    assert FiberOk(s, log, g);
    LinkGuard(s, g, s.fibers[g], s.threads[t].chain, i);
  }

  lemma LinkGuard(s: Sys, g: Fid, f: Fiber, c: seq<Fid>, i: nat)
    requires i < |c| && c[i] == g && g in s.fibers && s.fibers[g] == f && Linked(g, f, c, i)
    ensures GuardBelow(s, c, i)
  {
  }

  lemma GuardsAlwaysNest(threads: set<Tid>, actions: seq<Action>, t: Tid)
    requires t in Run(threads, actions).0.threads
    ensures var s := Run(threads, actions).0; GuardsNest(s, t, s.threads[t].chain)
  {
    var (s, log) := Run(threads, actions);
    Always(threads, actions);
    InvGuards(s, log, t);
  }

  lemma InvGuards(s: Sys, log: seq<Event>, t: Tid)
    requires Inv(s, log) && t in s.threads
    ensures GuardsNest(s, t, s.threads[t].chain)
  {
    assert ThreadOk(s, t);
    var c := s.threads[t].chain;
    ChainIsNest(s, log, t, |c|);
    assert c[..|c|] == c;
    forall i | 0 <= i < |c|
      ensures GuardBelow(s, c, i)
    {
      NestedGuard(s, log, t, i);
    }
  }

  /** Thread t is inside `resume`, `reset` or the destructor of g, or runs g's stack nested inside one of them. */
  ghost predicate Holds(s: Sys, t: Tid, g: Fid)
    requires t in s.threads
  {
    g in s.threads[t].chain || PcFiber(s.threads[t].stack.pc) == Some(g)
  }

  /** Fiber g is in at most one place: held by one thread, once in its chain, and not both nested and outside. */
  ghost predicate InOnePlace(s: Sys, g: Fid) {
    && (forall t, u :: t in s.threads && u in s.threads && Holds(s, t, g) && Holds(s, u, g) ==> t == u)
    && (forall t :: t in s.threads ==> OnceOn(s.threads[t], g))
  }

  ghost predicate OnceOn(th: Thread, g: Fid) {
    && (forall i, j :: 0 <= i < |th.chain| && 0 <= j < |th.chain| && th.chain[i] == g && th.chain[j] == g ==> i == j)
    && (PcFiber(th.stack.pc) == Some(g) ==> g !in th.chain)
  }

  /** The `operating` flag, or the destructor, of g is in use exactly while some thread is in an operation on g; and a
    * context that waits to be resumed has no live guard left on its stack, so resuming it elsewhere cannot restore
    * another thread's pointer. */
  ghost predicate FlagTells(s: Sys, g: Fid)
    requires g in s.fibers
  {
    var f := s.fibers[g];
    && (f.impl.operating || f.dying <==> exists t :: t in s.threads && Holds(s, t, g))
    && !(f.impl.operating && f.dying)
    && (f.impl.context.Some? ==> Guard(f.impl.context.value.pc) == None)
  }

  lemma HolderPlace(s: Sys, t: Tid, g: Fid)
    requires t in s.threads && ThreadOk(s, t) && g in s.fibers && Holds(s, t, g)
    ensures s.fibers[g].place != Nowhere && s.fibers[g].place.t == t
    ensures OnceOn(s.threads[t], g)
  {
    var c := s.threads[t].chain;
    forall i | 0 <= i < |c| && c[i] == g
      ensures s.fibers[g].place == InChain(t, i)
    {
      assert Nested(s, t, i);
    }
  }

  lemma PlaceHolds(s: Sys, log: seq<Event>, g: Fid)
    requires g in s.fibers && FiberOk(s, log, g)
    ensures s.fibers[g].place != Nowhere ==> s.fibers[g].place.t in s.threads && Holds(s, s.fibers[g].place.t, g)
    ensures s.fibers[g].impl.operating || s.fibers[g].dying <==> s.fibers[g].place != Nowhere
    ensures !(s.fibers[g].impl.operating && s.fibers[g].dying)
    ensures s.fibers[g].impl.context.Some? ==> Guard(s.fibers[g].impl.context.value.pc) == None
  {
  }

  lemma OperationsAreExclusive(threads: set<Tid>, actions: seq<Action>, g: Fid)
    requires g in Run(threads, actions).0.fibers
    ensures InOnePlace(Run(threads, actions).0, g) && FlagTells(Run(threads, actions).0, g)
  {
    Always(threads, actions);
    InvExclusive(Run(threads, actions).0, Run(threads, actions).1, g);
  }

  lemma InvExclusive(s: Sys, log: seq<Event>, g: Fid)
    requires Inv(s, log) && g in s.fibers
    ensures InOnePlace(s, g) && FlagTells(s, g)
  {
    hide FiberOk, ThreadOk, Holds, OnceOn, PcFiber, Guard;
    PlaceHolds(s, log, g);
    forall t | t in s.threads
      ensures Holds(s, t, g) ==> s.fibers[g].place != Nowhere && s.fibers[g].place.t == t
      ensures OnceOn(s.threads[t], g)
    {
      if Holds(s, t, g) {
        HolderPlace(s, t, g);
      } else {
        NotHeldOnce(s, t, g);
      }
    }
    if s.fibers[g].impl.operating || s.fibers[g].dying {
      assert Holds(s, s.fibers[g].place.t, g);
    }
  }

  lemma NotHeldOnce(s: Sys, t: Tid, g: Fid)
    requires t in s.threads && !Holds(s, t, g)
    ensures OnceOn(s.threads[t], g)
  {
  }

  // ---- Scripts ----

  /** Refinement to the script: the k-th resume accepted since construction or the last reset runs segment k, each
    * segment once and in order, and returns what that segment came to, whatever wakes have done since. */
  ghost predicate FollowsScript(h: History) {
    && h.body.Some?
    && |h.results| <= |h.segments| <= h.accepted <= |h.results| + 1
    && (forall k :: 0 <= k < |h.segments| ==> h.segments[k] == k)
    && (forall k :: 0 <= k < |h.results| ==>
          h.results[k] == Outcome(h.body.value(k)) && h.results[k] in {READY, WAITING, TERM, EXCEPT})
  }

  lemma ResumesFollowTheScript(threads: set<Tid>, actions: seq<Action>, g: Fid)
    requires g in Run(threads, actions).0.fibers
    ensures FollowsScript(Summary(Run(threads, actions).1, g))
  {
    Always(threads, actions);
    InvScript(Run(threads, actions).0, Run(threads, actions).1, g);
  }

  lemma InvScript(s: Sys, log: seq<Event>, g: Fid)
    requires Inv(s, log) && g in s.fibers
    ensures FollowsScript(Summary(log, g))
  {
    hide Placed, Summary, Balanced;
    assert FiberOk(s, log, g);
  }

  // ---- At rest ----

  /** What holds of a fiber on which no operation is in progress and no destruction has begun. */
  ghost predicate AtRest(i: Impl, h: History) {
    && (i.context.Some? <==> i.state == INIT || i.state == READY || i.state == WAITING)
    && (i.exception <==> i.state == EXCEPT)
    && i.state != EXEC
    && h.accepted == |h.segments| == |h.results|
    && (h.results != [] && i.state != h.results[|h.results| - 1] ==>
          i.state == READY && h.results[|h.results| - 1] == WAITING)
  }

  lemma FibersRest(threads: set<Tid>, actions: seq<Action>, g: Fid)
    requires var s := Run(threads, actions).0; g in s.fibers && !s.fibers[g].impl.operating && !s.fibers[g].dying
    ensures var (s, log) := Run(threads, actions); AtRest(s.fibers[g].impl, Summary(log, g))
  {
    Always(threads, actions);
    InvRest(Run(threads, actions).0, Run(threads, actions).1, g);
  }

  lemma InvRest(s: Sys, log: seq<Event>, g: Fid)
    requires Inv(s, log) && g in s.fibers && !s.fibers[g].impl.operating && !s.fibers[g].dying
    ensures AtRest(s.fibers[g].impl, Summary(log, g))
  {
    assert FiberOk(s, log, g);
  }

  /** Two rejections never happen: a resume never finds its context missing, and no fiber reaches the test that keeps it
    * from resetting itself. */
  lemma DeadRejections(threads: set<Tid>, actions: seq<Action>, g: Fid)
    ensures NoContext(g) !in Run(threads, actions).1
    ensures SelfReset(g) !in Run(threads, actions).1
  {
    var log := Run(threads, actions).1;
    RunsAreSequential(threads, actions, g);
    forall j | 0 <= j < |log|
      ensures log[j] != NoContext(g) && log[j] != SelfReset(g)
    {
      assert Legal(Summary(log[..j], g), g, log[j]);
    }
  }

  /** The event of a step, and the state that it was taken in. */
  lemma {:induction false} EventAt(threads: set<Tid>, actions: seq<Action>, i: nat)
    requires i < |actions|
    ensures i < |Run(threads, actions).1| == |actions|
    ensures Run(threads, actions).1[i] == Apply(Run(threads, actions[..i]).0, actions[i]).1
  {
    hide Apply;
    var front := actions[..|actions| - 1];
    if i < |front| {
      EventAt(threads, front, i);
      assert front[..i] == actions[..i];
    } else {
      assert actions[..i] == front;
      if front != [] {
        EventAt(threads, front, |front| - 1);
      }
    }
  }

  /** A call is turned away as overlapping only while some thread is inside an operation on that fiber, or runs it; and
    * that changes nothing. */
  lemma OverlapsAreReal(threads: set<Tid>, actions: seq<Action>, i: nat, g: Fid)
    requires i < |actions| && i < |Run(threads, actions).1| && Run(threads, actions).1[i] == AlreadyActive(g)
    ensures var s := Run(threads, actions[..i]).0;
            && (exists t :: t in s.threads && Holds(s, t, g))
            && (actions[i].Resume? || actions[i].Reset?) && actions[i].g == g
            && Apply(s, actions[i]).0 == s
  {
    hide Apply, Run, Holds;
    var s := Run(threads, actions[..i]).0;
    EventAt(threads, actions, i);
    ActiveEvent(s, actions[i], g);
    OperationsAreExclusive(threads, actions[..i], g);
  }

  lemma ActiveEvent(s: Sys, a: Action, g: Fid)
    requires Apply(s, a).1 == AlreadyActive(g)
    ensures g in s.fibers && s.fibers[g].impl.operating
    ensures (a.Resume? || a.Reset?) && a.g == g && Apply(s, a).0 == s
  {
  }

  /** A yield is rejected only when no script prescribes it. */
  lemma OnlyStrayYieldsAreRejected(threads: set<Tid>, actions: seq<Action>, i: nat)
    requires i < |actions| && i < |Run(threads, actions).1| && Run(threads, actions).1[i].YieldRejected?
    ensures actions[i].StrayYield?
  {
    hide Apply, Run;
    EventAt(threads, actions, i);
    Always(threads, actions[..i]);
    RejectedYield(Run(threads, actions[..i]).0, Run(threads, actions[..i]).1, actions[i]);
  }

  lemma RejectedYield(s: Sys, log: seq<Event>, a: Action)
    requires Inv(s, log) && Apply(s, a).1.YieldRejected?
    ensures a.StrayYield?
  {
    hide Inv;
    if a.EndSegment? {
      EndIsNoStray(s, log, a.t);
    }
  }

  lemma EndIsNoStray(s: Sys, log: seq<Event>, t: Tid)
    requires Inv(s, log) && t in s.threads && s.threads[t].stack.pc == User
    ensures !CallEnd(s, t, s.threads[t]).1.YieldRejected?
  {
    hide Told, Linked, Inv;
    UserCode(s, log, t);
    var th := s.threads[t];
    if th.stack.owner.Some? && !s.fibers[th.stack.owner.value].dying {
      var x := th.stack.owner.value;
      match s.fibers[x].impl.callback.value(th.stack.pos)
      case EndReady => YieldIs(s, t, x, ToReady);
      case EndHold(reason) => YieldIs(s, t, x, ToHold(reason));
      case EndReturn =>
      case EndThrow =>
    }
  }

  /** While any thread is still inside an operation on g, or runs g, a resume of g from anywhere is turned away and
    * changes nothing: a wake that comes before the first resume has saved the context cannot start it again. */
  lemma WindowIsClosed(threads: set<Tid>, actions: seq<Action>, t: Tid, u: Tid, g: Fid)
    requires var s := Run(threads, actions).0;
             && t in s.threads && u in s.threads && g in s.fibers && !s.fibers[g].dying && !s.halted
             && Holds(s, t, g) && s.threads[u].stack.pc == User
    ensures var s := Run(threads, actions).0; Apply(s, Resume(u, g)) == (s, AlreadyActive(g))
  {
    OperationsAreExclusive(threads, actions, g);
  }

  /** What `resume` and `reset` answer to a fiber at rest, when the calling thread takes its next two steps. */
  lemma Decisions(threads: set<Tid>, actions: seq<Action>, t: Tid, g: Fid, body: Option<Body>)
    requires var s := Run(threads, actions).0;
             && t in s.threads && g in s.fibers && !s.fibers[g].impl.operating && !s.fibers[g].dying && !s.halted
             && s.threads[t].stack.pc == User
    ensures var s := Run(threads, actions).0;
            var state := s.fibers[g].impl.state;
            var resumed := Apply(Apply(s, Resume(t, g)).0, Advance(t));
            var reset := Apply(Apply(s, Reset(t, g, body)).0, Advance(t));
            && (if state in {INIT, READY} then resumed.1 == Accepted(g) else resumed == (s, NotResumable(g)))
            && (if state !in {TERM, EXCEPT} then reset == (s, NotFinished(g))
                else if body.None? then reset == (s, EmptyReset(g))
                else reset.1 == Internal)
  {
    hide Run, Inv, Apply;
    Always(threads, actions);
    InvDecisions(Run(threads, actions).0, Run(threads, actions).1, t, g, body);
  }

  /** The two calls of `Decisions` on a fiber that is free. */
  lemma InvDecisions(s: Sys, log: seq<Event>, t: Tid, g: Fid, body: Option<Body>)
    requires Inv(s, log) && t in s.threads && g in s.fibers && !s.fibers[g].impl.operating && !s.fibers[g].dying
              && !s.halted
    requires s.threads[t].stack.pc == User
    ensures var state := s.fibers[g].impl.state;
            var resumed := Apply(Apply(s, Resume(t, g)).0, Advance(t));
            var reset := Apply(Apply(s, Reset(t, g, body)).0, Advance(t));
            && (if Resumable(state) then resumed.1 == Accepted(g) else resumed == (s, NotResumable(g)))
            && (if !Finished(state) then reset == (s, NotFinished(g))
                else if body.None? then reset == (s, EmptyReset(g))
                else reset.1 == Internal)
  {
    assert ThreadOk(s, t) && FiberOk(s, log, g);
    NotOperating(s, log, g);
    NotCurrent(s, log, t, g);
    ResumeDecision(s, t, g);
    ResetDecision(s, t, g, body);
  }

  lemma NotCurrent(s: Sys, log: seq<Event>, t: Tid, g: Fid)
    requires Inv(s, log) && t in s.threads && g in s.fibers && s.fibers[g].place == Nowhere
              && s.threads[t].stack.pc == User
    ensures s.threads[t].current != Some(g)
  {
    assert ThreadOk(s, t);
    var c := s.threads[t].chain;
    if c != [] {
      assert Nested(s, t, |c| - 1);
    }
  }

  lemma ResumeDecision(s: Sys, t: Tid, g: Fid)
    requires t in s.threads && g in s.fibers && !s.halted && s.threads[t].stack.pc == User
    requires var f := s.fibers[g];
             && f.place == Nowhere && !f.impl.operating && !f.dying
             && (Resumable(f.impl.state) ==> f.impl.context.Some?)
    ensures var resumed := Apply(Apply(s, Resume(t, g)).0, Advance(t));
            if Resumable(s.fibers[g].impl.state) then resumed.1 == Accepted(g) else resumed == (s, NotResumable(g))
  {
    var f := s.fibers[g];
    var held := f.impl.(operating := true);
    var s1 := Apply(s, Resume(t, g)).0;
    assert s1 == Put(s, t, At(s.threads[t], ResumeHeld(g)), g, f.(impl := held, place := AtTop(t)));
    var l := ResumeStep(ResumeHeld(g), s.threads[t].current, g, held);
    assert Apply(s1, Advance(t)) == PutLocal(s1, t, s1.threads[t], g, l);
    if !Resumable(f.impl.state) {
      assert l == Release(s.threads[t].current, held, NotResumable(g));
      PutBack(s, s1, t, g);
    }
  }

  lemma ResetDecision(s: Sys, t: Tid, g: Fid, body: Option<Body>)
    requires t in s.threads && g in s.fibers && !s.halted && s.threads[t].stack.pc == User
              && s.threads[t].current != Some(g)
    requires var f := s.fibers[g]; f.place == Nowhere && !f.impl.operating && !f.dying
    ensures var reset := Apply(Apply(s, Reset(t, g, body)).0, Advance(t));
            if !Finished(s.fibers[g].impl.state) then reset == (s, NotFinished(g))
            else if body.None? then reset == (s, EmptyReset(g))
            else reset.1 == Internal
  {
    var f := s.fibers[g];
    var held := f.impl.(operating := true);
    var s1 := Apply(s, Reset(t, g, body)).0;
    assert s1 == Put(s, t, At(s.threads[t], ResetHeld(g, body)), g, f.(impl := held, place := AtTop(t)));
    var l := ResetStep(ResetHeld(g, body), s.threads[t].current, g, held);
    assert Apply(s1, Advance(t)) == PutLocal(s1, t, s1.threads[t], g, l);
    PutBack(s, s1, t, g);
  }

  /** Releasing what was acquired restores the state. */
  lemma PutBack(s: Sys, s1: Sys, t: Tid, g: Fid)
    requires t in s.threads && g in s.fibers && s.threads[t].stack.pc == User
    requires s.fibers[g].place == Nowhere && !s.fibers[g].impl.operating
    requires exists pc :: s1 == Put(s, t, At(s.threads[t], pc), g,
                                    s.fibers[g].(impl := s.fibers[g].impl.(operating := true), place := AtTop(t)))
    ensures Put(s1, t, At(s1.threads[t], User).(current := s.threads[t].current), g,
                s1.fibers[g].(impl := s1.fibers[g].impl.(operating := false), place := Nowhere)) == s
  {
    var s2 := Put(s1, t, At(s1.threads[t], User).(current := s.threads[t].current), g,
                  s1.fibers[g].(impl := s1.fibers[g].impl.(operating := false), place := Nowhere));
    assert s2.fibers == s.fibers && s2.threads == s.threads;
  }

  // ---- Wakes ----

  /** Over the whole life of a fiber, resets included, hold suspensions exceed successful wakes by one while it waits
    * and not at all otherwise; and between critical sections it has a wait reason exactly while it waits. */
  lemma WakesAreConserved(threads: set<Tid>, actions: seq<Action>, g: Fid)
    requires g in Run(threads, actions).0.fibers
    ensures var (s, log) := Run(threads, actions);
            var i := s.fibers[g].impl;
            && Summary(log, g).holds - Summary(log, g).wakes == (if i.state == WAITING then 1 else 0)
            && (i.waitReason != NoReason <==> i.state == WAITING)
  {
    var (s, log) := Run(threads, actions);
    Always(threads, actions);
    assert FiberOk(s, log, g);
  }

  // ---- Destruction and counting ----

  /** The local objects of a suspended stack are destroyed with the dying fiber as the current one, and no yield from
    * there, nor from outside any fiber, nor without a reason, gets through. */
  lemma StrayYieldsAreRejected(threads: set<Tid>, actions: seq<Action>, t: Tid, kind: YieldKind)
    requires var s := Run(threads, actions).0; t in s.threads && s.threads[t].stack.pc == User && !s.halted
    requires var s := Run(threads, actions).0;
             var owner := s.threads[t].stack.owner;
             owner.None? || kind == ToHold(NoReason) || (owner.value in s.fibers && s.fibers[owner.value].dying)
    ensures var s := Run(threads, actions).0;
            && s.threads[t].current == s.threads[t].stack.owner
            && Apply(s, StrayYield(t, kind)) == (s, YieldRejected(s.threads[t].stack.owner))
  {
    hide Run, Inv;
    Always(threads, actions);
    InvStray(Run(threads, actions).0, Run(threads, actions).1, t, kind);
  }

  lemma InvStray(s: Sys, log: seq<Event>, t: Tid, kind: YieldKind)
    requires Inv(s, log) && t in s.threads && s.threads[t].stack.pc == User && !s.halted
    requires var owner := s.threads[t].stack.owner;
             owner.None? || kind == ToHold(NoReason) || (owner.value in s.fibers && s.fibers[owner.value].dying)
    ensures s.threads[t].current == s.threads[t].stack.owner
    ensures Apply(s, StrayYield(t, kind)) == (s, YieldRejected(s.threads[t].stack.owner))
  {
    hide Inv, InBody, CallYield;
    StrayRejected(s, log, t, kind);
    UserCode(s, log, t);
  }

  /** `TotalFibers` counts the fibers that exist. */
  lemma CountIsExact(threads: set<Tid>, actions: seq<Action>)
    ensures Run(threads, actions).0.count == |Run(threads, actions).0.fibers|
  {
    Always(threads, actions);
  }
}
