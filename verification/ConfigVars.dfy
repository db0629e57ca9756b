/** One configuration variable (config/config_var.h) under any number of threads. A setValue call is a lock section
  * that compares and stores, a lock section that copies the listeners, and then the callbacks, one after the other
  * and outside any lock; a callback may call setValue again and may throw. */
module ConfigVars {
  /** Values are only compared for equality. */
  type Value = int
  type Thread = nat
  type ListenerId = nat

  /** An activation of setValue. `write` numbers the stores of the run. */
  datatype Frame =
    | Setting(wanted: Value)
    | Notifying(write: nat, was: Value, now: Value)                                  // listeners not copied yet
    | Calling(write: nat, was: Value, now: Value, snapshot: seq<ListenerId>, next: nat)     // between two callbacks
    | InCallback(write: nat, was: Value, now: Value, snapshot: seq<ListenerId>, next: nat)  // inside callback `next`

  datatype State = State(value: Value, listeners: seq<ListenerId>, issued: set<ListenerId>,
                         threads: map<Thread, seq<Frame>>, stores: nat)

  datatype Action =
    | CallSetValue(thread: Thread, wanted: Value)
    | CompareAndStore(thread: Thread)
    | CopyListeners(thread: Thread)
    | EnterCallback(thread: Thread)
    | LeaveCallback(thread: Thread, threw: bool)
    | ReturnTrue(thread: Thread)
    | AddListener(id: ListenerId)   // NextListenerId never hands out an id twice; ids may be inserted in any order
    | RemoveListener(id: ListenerId)
    | ClearListeners

  datatype Event =
    | Silent
    | Unchanged
    | Stored(was: Value, now: Value)
    | Copied(write: nat, listeners: seq<ListenerId>)
    | Called(write: nat, call: Call)
    | Returned(write: nat)
    | Added(id: ListenerId)
    | Removed(id: ListenerId)
    | Cleared

  datatype Call = Call(id: ListenerId, was: Value, now: Value)

  function Stack(s: State, t: Thread): seq<Frame> {
    if t in s.threads then s.threads[t] else []
  }

  /** Pushing and replacing the top activation of a thread. */
  function WithStack(s: State, t: Thread, stack: seq<Frame>): State {
    s.(threads := s.threads[t := stack])
  }

  function Front<T>(s: seq<T>): seq<T>
    requires s != []
  {
    s[..|s| - 1]
  }

  function Last<T>(s: seq<T>): T
    requires s != []
  {
    s[|s| - 1]
  }

  /** The list without the first entry of that id. */
  function Without(listeners: seq<ListenerId>, id: ListenerId): seq<ListenerId> {
    if listeners == [] then []
    else if listeners[0] == id then listeners[1..]
    else [listeners[0]] + Without(listeners[1..], id)
  }

  /** The step of a thread whose innermost activation is `top`, with the callers `below`; nothing if it is not due. */
  function ThreadStep(s: State, t: Thread, below: seq<Frame>, top: Frame, action: Action): (State, Event) {
    match action
    case CompareAndStore(_) =>
      if !top.Setting? then (s, Silent)
      else if s.value == top.wanted then (WithStack(s, t, below), Unchanged)
      else (WithStack(s.(value := top.wanted, stores := s.stores + 1), t,
                      below + [Notifying(s.stores, s.value, top.wanted)]),
            Stored(s.value, top.wanted))
    case CopyListeners(_) =>
      if !top.Notifying? then (s, Silent)
      else (WithStack(s, t, below + [Calling(top.write, top.was, top.now, s.listeners, 0)]),
            Copied(top.write, s.listeners))
    case EnterCallback(_) =>
      if !top.Calling? || top.next >= |top.snapshot| then (s, Silent)
      else (WithStack(s, t, below + [InCallback(top.write, top.was, top.now, top.snapshot, top.next)]),
            Called(top.write, Call(top.snapshot[top.next], top.was, top.now)))
    case LeaveCallback(_, _) =>
      if !top.InCallback? then (s, Silent)
      else (WithStack(s, t, below + [Calling(top.write, top.was, top.now, top.snapshot, top.next + 1)]), Silent)
    case ReturnTrue(_) =>
      if !top.Calling? || top.next < |top.snapshot| then (s, Silent)
      else (WithStack(s, t, below), Returned(top.write))
    case _ => (s, Silent)
  }

  function Step(s: State, action: Action): (State, Event) {
    match action
    case AddListener(id) =>
      if id == 0 || id in s.issued then (s, Silent)
      else (s.(listeners := s.listeners + [id], issued := s.issued + {id}), Added(id))
    case RemoveListener(id) => (s.(listeners := Without(s.listeners, id)), Removed(id))
    case ClearListeners => (s.(listeners := []), Cleared)
    case CallSetValue(t, wanted) =>
      var stack := Stack(s, t);
      if stack == [] || Last(stack).InCallback? then (WithStack(s, t, stack + [Setting(wanted)]), Silent)
      else (s, Silent)
    case _ =>
      var stack := Stack(s, action.thread);
      if stack == [] then (s, Silent) else ThreadStep(s, action.thread, Front(stack), Last(stack), action)
  }

  function Start(initial: Value): State {
    State(initial, [], {}, map[], 0)
  }

  function Run(initial: Value, actions: seq<Action>): (State, seq<Event>) {
    if actions == [] then (Start(initial), [])
    else
      var (s, log) := Run(initial, Front(actions));
      var (next, event) := Step(s, Last(actions));
      (next, log + [event])
  }

  // ---- what the log says

  /** Everything that was logged about one store. */
  datatype Write = Write(was: Value, now: Value, copies: seq<seq<ListenerId>>, calls: seq<Call>, returned: nat)

  /** The stores in their order. */
  function Writes(log: seq<Event>): seq<Write> {
    if log == [] then [] else Account(Writes(Front(log)), Last(log))
  }

  function Account(writes: seq<Write>, event: Event): seq<Write> {
    match event
    case Stored(was, now) => writes + [Write(was, now, [], [], 0)]
    case Copied(k, listeners) =>
      if k < |writes| then writes[k := writes[k].(copies := writes[k].copies + [listeners])] else writes
    case Called(k, call) => if k < |writes| then writes[k := writes[k].(calls := writes[k].calls + [call])] else writes
    case Returned(k) => if k < |writes| then writes[k := writes[k].(returned := writes[k].returned + 1)] else writes
    case _ => writes
  }

  /** The listeners that the logged additions and removals leave. */
  function Registered(log: seq<Event>): seq<ListenerId> {
    if log == [] then []
    else
      var before := Registered(Front(log));
      match Last(log)
      case Added(id) => before + [id]
      case Removed(id) => Without(before, id)
      case Cleared => []
      case _ => before
  }

  /** The calls that a snapshot asks for, with the values of the store. */
  function CallsFor(snapshot: seq<ListenerId>, was: Value, now: Value): (calls: seq<Call>)
    ensures |calls| == |snapshot|
  {
    seq(|snapshot|, i requires 0 <= i < |snapshot| => Call(snapshot[i], was, now))
  }

  /** The value that the first `k` stores leave. */
  function ValueAfter(initial: Value, writes: seq<Write>, k: nat): Value
    requires k <= |writes|
  {
    if k == 0 then initial else writes[k - 1].now
  }

  /** The values before, between and after the stores link up. */
  ghost predicate Chain(initial: Value, writes: seq<Write>, current: Value) {
    && (forall k :: 0 <= k < |writes| ==> writes[k].was != writes[k].now)
    && (forall k :: 0 <= k < |writes| ==> writes[k].was == ValueAfter(initial, writes, k))
    && current == ValueAfter(initial, writes, |writes|)
  }

  /** At most one snapshot, called in its order from the front, each entry once; all of it before the return. */
  ghost predicate Delivers(write: Write) {
    && |write.copies| <= 1
    && write.returned <= 1
    && (write.copies == [] ==> write.calls == [] && write.returned == 0)
    && (write.copies != [] ==>
          && write.calls <= CallsFor(write.copies[0], write.was, write.now)
          && (write.returned == 1 ==> write.calls == CallsFor(write.copies[0], write.was, write.now)))
  }

  ghost predicate Distinct(ids: seq<ListenerId>) {
    forall i, j :: 0 <= i < j < |ids| ==> ids[i] != ids[j]
  }

  // ---- invariant

  /** What an activation knows is what the log says of its store. */
  predicate Carries(frame: Frame, writes: seq<Write>) {
    frame.Setting? ||
    (&& frame.write < |writes|
     && var w := writes[frame.write];
        && w.was == frame.was && w.now == frame.now && w.returned == 0
        && match frame
           case Notifying(_, _, _) => w.copies == [] && w.calls == []
           case Calling(_, was, now, snapshot, next) =>
             next <= |snapshot| && w.copies == [snapshot] && w.calls == CallsFor(snapshot, was, now)[..next]
           case InCallback(_, was, now, snapshot, next) =>
             next < |snapshot| && w.copies == [snapshot] && w.calls == CallsFor(snapshot, was, now)[..next + 1])
  }

  /** The activation at depth `d` of thread `t` is the one of store `k`. */
  predicate Holds(s: State, t: Thread, d: nat, k: nat) {
    d < |Stack(s, t)| && !Stack(s, t)[d].Setting? && Stack(s, t)[d].write == k
  }

  ghost predicate StacksOk(s: State, writes: seq<Write>) {
    && (forall t, d :: 0 <= d < |Stack(s, t)| ==> Carries(Stack(s, t)[d], writes))
    && (forall t, d :: 0 <= d < |Stack(s, t)| - 1 ==> Stack(s, t)[d].InCallback?)
  }

  /** Every store is in the hands of exactly one activation until it has been returned from, complete. */
  ghost predicate Owned(s: State, writes: seq<Write>) {
    && OneHolder(s)
    && (forall k :: 0 <= k < |writes| ==> Held(s, writes[k], k) && Delivers(writes[k]))
  }

  ghost predicate OneHolder(s: State) {
    forall t, d, t', d', k :: Holds(s, t, d, k) && Holds(s, t', d', k) ==> t == t' && d == d'
  }

  ghost predicate Held(s: State, write: Write, k: nat) {
    write.returned == 0 ==> exists t, d :: Holds(s, t, d, k)
  }

  ghost predicate Inv(initial: Value, s: State, log: seq<Event>) {
    var writes := Writes(log);
    && |writes| == s.stores
    && Chain(initial, writes, s.value)
    && StacksOk(s, writes)
    && Owned(s, writes)
    && s.listeners == Registered(log)
    && Distinct(s.listeners)
    && (forall id :: id in s.listeners ==> id in s.issued && id != 0)
    && (forall k :: 0 <= k < |writes| && writes[k].copies != [] ==> Distinct(writes[k].copies[0]))
  }

  // ---- every step keeps it

  lemma LogGrows(log: seq<Event>, event: Event)
    ensures Writes(log + [event]) == Account(Writes(log), event)
    ensures Front(log + [event]) == log && Last(log + [event]) == event
  {
    assert Front(log + [event]) == log;
  }

  lemma NewStack(s: State, t: Thread, stack: seq<Frame>)
    ensures forall t' :: Stack(WithStack(s, t, stack), t') == if t' == t then stack else Stack(s, t')
  {
  }

  /** The innermost activation of `t` gives way to `next`, or to nothing, and what the log says of store `k`, which was
    * its own or is new, changes with it. */
  lemma Exchange(s: State, t: Thread, below: seq<Frame>, top: Frame, next: seq<Frame>, k: nat, before: seq<Write>,
                 after: seq<Write>)
    requires StacksOk(s, before) && Owned(s, before) && Stack(s, t) == below + [top]
    requires if top.Setting? then k == |before| == |after| - 1 else k == top.write < |before| == |after|
    requires forall j :: 0 <= j < |before| && j != k ==> after[j] == before[j]
    requires Delivers(after[k])
    requires match |next|
             case 0 => after[k].returned == 1
             case 1 => !next[0].Setting? && next[0].write == k && Carries(next[0], after)
             case _ => false
    ensures StacksOk(WithStack(s, t, below + next), after) && Owned(WithStack(s, t, below + next), after)
  {
    hide Delivers, Carries, WithStack;
    var s' := WithStack(s, t, below + next);
    NewStack(s, t, below + next);
    forall t', d | 0 <= d < |Stack(s', t')|
      ensures Carries(Stack(s', t')[d], after)
      ensures d < |Stack(s', t')| - 1 ==> Stack(s', t')[d].InCallback?
    {
      hide Owned, Holds;
      if t' != t || d < |below| {
        assert Stack(s', t')[d] == Stack(s, t')[d];
      }
      Others(s, t, below, top, t', d, k, before, after);
    }
    forall t', d: nat, j: nat | Holds(s', t', d, j)
      ensures j != k ==> Holds(s, t', d, j)
      ensures j == k ==> t' == t && d == |below|
    {
      StillHolds(s, t, below, top, next, k, before, s', t', d, j);
    }
    forall j | 0 <= j < |after|
      ensures Held(s', after[j], j) && Delivers(after[j])
    {
      if j != k {
        StillHeld(s, t, below, top, k, s', below + next, after[j], j);
      } else if next != [] {
        assert Holds(s', t, |below|, k);
      }
    }
  }

  /** After an exchange, an activation holds what it held before, and the new one holds `k`. */
  lemma StillHolds(s: State, t: Thread, below: seq<Frame>, top: Frame, next: seq<Frame>, k: nat, before: seq<Write>,
                   s': State, t': Thread, d: nat, j: nat)
    requires StacksOk(s, before) && OneHolder(s) && Stack(s, t) == below + [top]
    requires if top.Setting? then k == |before| else k == top.write
    requires |next| <= 1 && (next != [] ==> !next[0].Setting? && next[0].write == k)
    requires forall u :: Stack(s', u) == if u == t then below + next else Stack(s, u)
    requires Holds(s', t', d, j)
    ensures j != k ==> Holds(s, t', d, j)
    ensures j == k ==> t' == t && d == |below|
  {
    hide Stack;
    if t' != t || d < |below| {
      assert Stack(s', t')[d] == Stack(s, t')[d];
      assert Holds(s, t', d, j) && Carries(Stack(s, t')[d], before);
      if !top.Setting? {
        assert Holds(s, t, |below|, k);
      }
    }
  }

  lemma StillHeld(s: State, t: Thread, below: seq<Frame>, top: Frame, k: nat, s': State, stack: seq<Frame>,
                  write: Write, j: nat)
    requires Held(s, write, j) && j != k && Stack(s, t) == below + [top] && (top.Setting? || top.write == k)
    requires forall u :: Stack(s', u) == if u == t then stack else Stack(s, u)
    requires below <= stack
    ensures Held(s', write, j)
  {
    if write.returned == 0 {
      var t', d: nat :| Holds(s, t', d, j);
      assert t' == t ==> d < |below|;
      assert Stack(s', t')[d] == Stack(s, t')[d];
      assert Holds(s', t', d, j);
    }
  }

  /** The other activations have other stores, about which nothing changes. */
  lemma Others(s: State, t: Thread, below: seq<Frame>, top: Frame, t': Thread, d: nat, k: nat, before: seq<Write>,
               after: seq<Write>)
    requires StacksOk(s, before) && Owned(s, before) && Stack(s, t) == below + [top]
    requires if top.Setting? then k == |before| == |after| - 1 else k == top.write < |before| == |after|
    requires forall j :: 0 <= j < |before| && j != k ==> after[j] == before[j]
    ensures d < |Stack(s, t')| && (t' != t || d < |below|) ==> Carries(Stack(s, t')[d], after)
  {
    if d < |Stack(s, t')| && (t' != t || d < |below|) {
      var frame := Stack(s, t')[d];
      assert Carries(frame, before);
      if !frame.Setting? && !top.Setting? {
        assert Holds(s, t', d, frame.write) && Holds(s, t, |below|, k);
      }
    }
  }

  /** Entering setValue, or leaving it without a store. */
  lemma SettingComesAndGoes(s: State, t: Thread, stack: seq<Frame>, wanted: Value, writes: seq<Write>)
    requires StacksOk(s, writes) && Owned(s, writes)
    requires || (Stack(s, t) == stack + [Setting(wanted)])
             || (stack == Stack(s, t) + [Setting(wanted)] && (Stack(s, t) == [] || Last(Stack(s, t)).InCallback?))
    ensures StacksOk(WithStack(s, t, stack), writes) && Owned(WithStack(s, t, stack), writes)
  {
    hide Delivers, Carries, WithStack;
    var s' := WithStack(s, t, stack);
    NewStack(s, t, stack);
    forall t', d | 0 <= d < |Stack(s', t')|
      ensures Carries(Stack(s', t')[d], writes)
      ensures d < |Stack(s', t')| - 1 ==> Stack(s', t')[d].InCallback?
    {
      hide Owned, Holds;
      if d < |Stack(s, t')| {
        assert Carries(Stack(s, t')[d], writes);
      } else {
        SettingCarries(wanted, writes);
      }
    }
    forall t', d: nat, k: nat
      ensures Holds(s', t', d, k) <==> Holds(s, t', d, k)
    {
    }
    forall k | 0 <= k < |writes|
      ensures Held(s', writes[k], k)
    {
      assert Held(s, writes[k], k);
      if writes[k].returned == 0 {
        var t', d: nat :| Holds(s, t', d, k);
        assert Holds(s', t', d, k);
      }
    }
  }

  lemma SettingCarries(wanted: Value, writes: seq<Write>)
    ensures Carries(Setting(wanted), writes)
  {
  }

  /** What an activation that does not compare and store, but goes on, makes of its store. */
  lemma GoesOn(s: State, t: Thread, below: seq<Frame>, top: Frame, action: Action, writes: seq<Write>)
    requires Carries(top, writes) && !top.Setting? && Delivers(writes[top.write])
    requires action.CopyListeners? || action.EnterCallback? || action.LeaveCallback? || action.ReturnTrue?
    requires ThreadStep(s, t, below, top, action) != (s, Silent)
    ensures var (s', event) := ThreadStep(s, t, below, top, action);
            var after := Account(writes, event);
            && |after| == |writes|
            && (forall j :: 0 <= j < |writes| && j != top.write ==> after[j] == writes[j])
            && after[top.write].was == writes[top.write].was && after[top.write].now == writes[top.write].now
            && Delivers(after[top.write])
            && (if action.ReturnTrue? then s' == WithStack(s, t, below) && after[top.write].returned == 1
                else exists next: Frame ::
                  && s' == WithStack(s, t, below + [next])
                  && !next.Setting? && next.write == top.write && Carries(next, after))
  {
    var (s', event) := ThreadStep(s, t, below, top, action);
    var after := Account(writes, event);
    if action.CopyListeners? {
      var next := Calling(top.write, top.was, top.now, s.listeners, 0);
      assert s' == WithStack(s, t, below + [next]) && Carries(next, after);
    } else if action.EnterCallback? {
      var next := InCallback(top.write, top.was, top.now, top.snapshot, top.next);
      var all := CallsFor(top.snapshot, top.was, top.now);
      assert all[..top.next + 1] == all[..top.next] + [all[top.next]];
      assert s' == WithStack(s, t, below + [next]) && Carries(next, after);
    } else if action.LeaveCallback? {
      var next := Calling(top.write, top.was, top.now, top.snapshot, top.next + 1);
      assert s' == WithStack(s, t, below + [next]) && Carries(next, after);
    } else {
      var all := CallsFor(top.snapshot, top.was, top.now);
      assert all[..|all|] == all;
    }
  }

  lemma GoesOnKeeps(initial: Value, s: State, log: seq<Event>, t: Thread, below: seq<Frame>, top: Frame, action: Action)
    requires Inv(initial, s, log) && Stack(s, t) == below + [top] && !top.Setting?
    requires action.CopyListeners? || action.EnterCallback? || action.LeaveCallback? || action.ReturnTrue?
    requires ThreadStep(s, t, below, top, action) != (s, Silent)
    ensures var (s', event) := ThreadStep(s, t, below, top, action); Inv(initial, s', log + [event])
  {
    hide Delivers, Carries, Holds, Distinct, Chain, Held, OneHolder;
    var writes := Writes(log);
    assert Carries(top, writes) by {
      assert Stack(s, t)[|below|] == top;
    }
    TopWrite(top, writes);
    GoesOn(s, t, below, top, action, writes);
    var (s', event) := ThreadStep(s, t, below, top, action);
    var after := Account(writes, event);
    LogGrows(log, event);
    if action.ReturnTrue? {
      assert below + [] == below;
      Exchange(s, t, below, top, [], top.write, writes, after);
    } else {
      var next: Frame :| s' == WithStack(s, t, below + [next]) && !next.Setting? && next.write == top.write
          && Carries(next, after);
      Exchange(s, t, below, top, [next], top.write, writes, after);
    }
    SnapshotsDistinct(s, t, below, top, action, writes);
    assert forall k :: 0 <= k < |after| ==> after[k].was == writes[k].was && after[k].now == writes[k].now;
    ChainKept(initial, writes, after, s.value);
  }

  lemma ChainKept(initial: Value, writes: seq<Write>, after: seq<Write>, current: Value)
    requires Chain(initial, writes, current) && |after| == |writes|
    requires forall k :: 0 <= k < |after| ==> after[k].was == writes[k].was && after[k].now == writes[k].now
    ensures Chain(initial, after, current)
  {
    assert forall k :: 0 <= k <= |after| ==> ValueAfter(initial, after, k) == ValueAfter(initial, writes, k);
  }

  lemma TopWrite(top: Frame, writes: seq<Write>)
    requires Carries(top, writes) && !top.Setting?
    ensures top.write < |writes|
  {
  }

  lemma SnapshotsDistinct(s: State, t: Thread, below: seq<Frame>, top: Frame, action: Action, writes: seq<Write>)
    requires Distinct(s.listeners) && Carries(top, writes)
    requires forall k :: 0 <= k < |writes| && writes[k].copies != [] ==> Distinct(writes[k].copies[0])
    requires !action.CompareAndStore?
    ensures var after := Account(writes, ThreadStep(s, t, below, top, action).1);
            forall k :: 0 <= k < |after| && after[k].copies != [] ==> Distinct(after[k].copies[0])
  {
    hide Distinct;
  }

  lemma StoreKeeps(initial: Value, s: State, log: seq<Event>, t: Thread, below: seq<Frame>, wanted: Value)
    requires Inv(initial, s, log) && Stack(s, t) == below + [Setting(wanted)]
    ensures var (s', event) := ThreadStep(s, t, below, Setting(wanted), CompareAndStore(t));
            Inv(initial, s', log + [event])
  {
    hide Holds, StacksOk, Owned, Chain, Distinct;
    var writes := Writes(log);
    var (s', event) := ThreadStep(s, t, below, Setting(wanted), CompareAndStore(t));
    LogGrows(log, event);
    if s.value == wanted {
      SettingComesAndGoes(s, t, below, wanted, writes);
    } else {
      var next := Notifying(s.stores, s.value, wanted);
      var write := Write(s.value, wanted, [], [], 0);
      FreshWrite(next, write, writes);
      Exchange(s, t, below, Setting(wanted), [next], s.stores, writes, writes + [write]);
      SameThreads(WithStack(s, t, below + [next]), s', writes + [write]);
      ChainGrows(initial, writes, s.value, write);
    }
  }

  lemma FreshWrite(next: Frame, write: Write, writes: seq<Write>)
    requires next == Notifying(|writes|, write.was, write.now) && write.copies == [] && write.calls == []
              && write.returned == 0
    ensures Carries(next, writes + [write]) && Delivers(write)
  {
  }

  lemma ChainGrows(initial: Value, writes: seq<Write>, current: Value, write: Write)
    requires Chain(initial, writes, current) && write.was == current != write.now
    ensures Chain(initial, writes + [write], write.now)
  {
    var all := writes + [write];
    assert forall k :: 0 <= k <= |writes| ==> ValueAfter(initial, all, k) == ValueAfter(initial, writes, k);
  }

  lemma SameThreads(s: State, s': State, writes: seq<Write>)
    requires s.threads == s'.threads && StacksOk(s, writes) && Owned(s, writes)
    ensures StacksOk(s', writes) && Owned(s', writes)
  {
    hide Delivers, Carries;
    assert forall t :: Stack(s', t) == Stack(s, t);
    assert forall t, d: nat, k: nat :: Holds(s', t, d, k) <==> Holds(s, t, d, k);
    forall k | 0 <= k < |writes|
      ensures Held(s', writes[k], k)
    {
      assert Held(s, writes[k], k);
      if writes[k].returned == 0 {
        var t, d: nat :| Holds(s, t, d, k);
        assert Holds(s', t, d, k);
      }
    }
  }

  lemma PrependDistinct(id: ListenerId, ids: seq<ListenerId>)
    requires Distinct(ids) && id !in ids
    ensures Distinct([id] + ids)
  {
    var all := [id] + ids;
    assert forall j :: 0 < j < |all| ==> all[j] == ids[j - 1] && all[j] in ids;
  }

  lemma {:induction false} WithoutKeeps(listeners: seq<ListenerId>, id: ListenerId)
    ensures forall x :: x in Without(listeners, id) ==> x in listeners
    ensures Distinct(listeners) ==> Distinct(Without(listeners, id)) && id !in Without(listeners, id)
    ensures forall x :: x in listeners && x != id ==> x in Without(listeners, id)
  {
    if listeners != [] && listeners[0] != id {
      var rest := listeners[1..];
      WithoutKeeps(rest, id);
      if Distinct(listeners) {
        assert forall i :: 0 <= i < |rest| ==> rest[i] == listeners[i + 1];
        PrependDistinct(listeners[0], Without(rest, id));
      }
    } else if listeners != [] && Distinct(listeners) {
      var rest := listeners[1..];
      assert forall i :: 0 <= i < |rest| ==> rest[i] == listeners[i + 1];
    }
  }

  lemma ListenersKeep(initial: Value, s: State, log: seq<Event>, action: Action)
    requires Inv(initial, s, log)
    requires action.AddListener? || action.RemoveListener? || action.ClearListeners?
    ensures var (s', event) := Step(s, action); Inv(initial, s', log + [event])
  {
    hide Delivers, Carries, Holds, StacksOk, Owned, Chain;
    var (s', event) := Step(s, action);
    LogGrows(log, event);
    SameThreads(s, s', Writes(log));
    if action.RemoveListener? {
      WithoutKeeps(s.listeners, action.id);
    }
  }

  lemma StepKeeps(initial: Value, s: State, log: seq<Event>, action: Action)
    requires Inv(initial, s, log)
    ensures var (s', event) := Step(s, action); Inv(initial, s', log + [event])
  {
    hide StacksOk, Owned, Chain, Distinct;
    LogGrows(log, Silent);
    if action.AddListener? || action.RemoveListener? || action.ClearListeners? {
      ListenersKeep(initial, s, log, action);
    } else if action.CallSetValue? {
      var stack := Stack(s, action.thread);
      if stack == [] || Last(stack).InCallback? {
        SettingComesAndGoes(s, action.thread, stack + [Setting(action.wanted)], action.wanted, Writes(log));
      }
    } else {
      var stack := Stack(s, action.thread);
      if stack != [] {
        var below, top := Front(stack), Last(stack);
        assert stack == below + [top];
        if ThreadStep(s, action.thread, below, top, action) != (s, Silent) {
          if top.Setting? {
            StoreKeeps(initial, s, log, action.thread, below, top.wanted);
          } else {
            GoesOnKeeps(initial, s, log, action.thread, below, top, action);
          }
        }
      }
    }
  }

  lemma StartIsGood(initial: Value)
    ensures Inv(initial, Start(initial), [])
  {
    assert forall t :: Stack(Start(initial), t) == [];
  }

  lemma {:induction false} Always(initial: Value, actions: seq<Action>)
    ensures Inv(initial, Run(initial, actions).0, Run(initial, actions).1)
  {
    if actions == [] {
      StartIsGood(initial);
    } else {
      Always(initial, Front(actions));
      var (s, log) := Run(initial, Front(actions));
      StepKeeps(initial, s, log, Last(actions));
    }
  }

  // ---- over every run

  /** The stores form an unbroken chain from the initial to the current value, and each changes the value. */
  lemma StoresFormAChain(initial: Value, actions: seq<Action>)
    ensures var (s, log) := Run(initial, actions);
            |Writes(log)| == s.stores && Chain(initial, Writes(log), s.value)
  {
    Always(initial, actions);
  }

  /** Each store is followed by one notification at most: one copy of the listeners, distinct ones, called in that
    * order with the values of that store, each once. A store that setValue has not returned from yet is in the hands
    * of exactly one activation; one that it has returned from has been delivered in full. */
  lemma StoresAreDelivered(initial: Value, actions: seq<Action>, k: nat)
    requires k < |Writes(Run(initial, actions).1)|
    ensures var (s, log) := Run(initial, actions);
            var write := Writes(log)[k];
            && Delivers(write)
            && (write.copies != [] ==> Distinct(write.copies[0]))
            && (write.returned == 0 <==> exists t, d :: Holds(s, t, d, k))
            && (forall t, d, t', d' :: Holds(s, t, d, k) && Holds(s, t', d', k) ==> t == t' && d == d')
  {
    Always(initial, actions);
    var (s, log) := Run(initial, actions);
    forall t, d: nat | Holds(s, t, d, k)
      ensures Writes(log)[k].returned == 0
    {
      assert Carries(Stack(s, t)[d], Writes(log));
    }
  }

  /** When no thread is inside setValue, every store has been delivered to all of its snapshot. */
  lemma QuietMeansDelivered(initial: Value, actions: seq<Action>, k: nat)
    requires k < |Writes(Run(initial, actions).1)|
    requires forall t :: Stack(Run(initial, actions).0, t) == []
    ensures var write := Writes(Run(initial, actions).1)[k];
            |write.copies| == 1 && write.calls == CallsFor(write.copies[0], write.was, write.now)
  {
    StoresAreDelivered(initial, actions, k);
    assert forall t, d :: !Holds(Run(initial, actions).0, t, d, k);
  }

  /** What a notification copies is the list that the additions and removals before it leave. */
  lemma {:induction false} SnapshotsAreCurrent(initial: Value, actions: seq<Action>, i: nat)
    requires i < |Run(initial, actions).1| && Run(initial, actions).1[i].Copied?
    ensures var log := Run(initial, actions).1;
            log[i].listeners == Registered(log[..i]) && log[i].write < |Writes(log[..i])|
  {
    var (s, log) := Run(initial, Front(actions));
    var whole := Run(initial, actions).1;
    assert whole[..|log|] == log;
    if i < |log| {
      SnapshotsAreCurrent(initial, Front(actions), i);
      assert whole[..i] == log[..i];
    } else {
      Always(initial, Front(actions));
      var action := Last(actions);
      var stack := Stack(s, action.thread);
      assert Carries(stack[|stack| - 1], Writes(log));
    }
  }

  lemma SearchStarts(listeners: seq<ListenerId>, id: ListenerId)
    ensures Without(listeners, id) == listeners[..0] + Without(listeners[0..], id)
  {
    assert listeners[0..] == listeners;
  }

  lemma SearchStep(listeners: seq<ListenerId>, id: ListenerId, i: nat)
    requires i < |listeners| && Without(listeners, id) == listeners[..i] + Without(listeners[i..], id)
    ensures Without(listeners, id) == if listeners[i] == id then listeners[..i] + listeners[i + 1..]
                                      else listeners[..i + 1] + Without(listeners[i + 1..], id)
  {
    assert listeners[i..][1..] == listeners[i + 1..];
  }

  lemma SearchEnds(listeners: seq<ListenerId>, id: ListenerId)
    ensures listeners[..|listeners|] + Without(listeners[|listeners|..], id) == listeners
  {
  }

  // ---- one notification, as one thread alone executes it

  function Perform(s: State, actions: seq<Action>): (State, seq<Event>)
    decreases |actions|
  {
    if actions == [] then (s, [])
    else
      var (next, event) := Step(s, actions[0]);
      var (last, events) := Perform(next, actions[1..]);
      (last, [event] + events)
  }

  /** Entering and leaving one callback after the other; `threw` tells which of them throw. */
  function Rounds(t: Thread, threw: seq<bool>): seq<Action> {
    if threw == [] then [] else [EnterCallback(t), LeaveCallback(t, threw[0])] + Rounds(t, threw[1..])
  }

  function CallsIn(events: seq<Event>): seq<Call> {
    if events == [] then []
    else (if events[0].Called? then [events[0].call] else []) + CallsIn(events[1..])
  }

  lemma CallsAfter(s: State, action: Action, rest: seq<Action>)
    ensures var (next, event) := Step(s, action);
            CallsIn(Perform(s, [action] + rest).1)
            == (if event.Called? then [event.call] else []) + CallsIn(Perform(next, rest).1)
  {
    hide Step;
    assert ([action] + rest)[1..] == rest;
    var (next, event) := Step(s, action);
    var events := Perform(next, rest).1;
    assert ([event] + events)[1..] == events;
  }

  lemma OneRound(s: State, t: Thread, below: seq<Frame>, write: nat, call: Call, snapshot: seq<ListenerId>, next: nat,
                 threw: bool)
    requires next < |snapshot| && call.id == snapshot[next]
    requires Stack(s, t) == below + [Calling(write, call.was, call.now, snapshot, next)]
    ensures var (inside, called) := Step(s, EnterCallback(t));
            var (after, left) := Step(inside, LeaveCallback(t, threw));
            && called == Called(write, call) && left == Silent
            && Stack(after, t) == below + [Calling(write, call.was, call.now, snapshot, next + 1)]
  {
    var inside := Step(s, EnterCallback(t)).0;
    assert Front(Stack(s, t)) == below;
    assert Front(Stack(inside, t)) == below;
  }

  lemma {:induction false} RoundsCall(s: State, t: Thread, below: seq<Frame>, write: nat, was: Value, now: Value,
                                      snapshot: seq<ListenerId>, next: nat, threw: seq<bool>)
    requires next + |threw| == |snapshot| && Stack(s, t) == below + [Calling(write, was, now, snapshot, next)]
    ensures CallsIn(Perform(s, Rounds(t, threw)).1) == CallsFor(snapshot, was, now)[next..]
    decreases |threw|
  {
    hide Step, Stack, Perform, CallsIn, Rounds;
    RoundsUnfold(t, threw);
    if threw == [] {
      NothingPerformed(s);
    } else {
      NextCall(snapshot, was, now, next);
      var inside := Step(s, EnterCallback(t)).0;
      var after := Step(inside, LeaveCallback(t, threw[0])).0;
      var rest := Rounds(t, threw[1..]);
      OneRound(s, t, below, write, Call(snapshot[next], was, now), snapshot, next, threw[0]);
      RoundsCall(after, t, below, write, was, now, snapshot, next + 1, threw[1..]);
      CallsAfter(s, EnterCallback(t), [LeaveCallback(t, threw[0])] + rest);
      CallsAfter(inside, LeaveCallback(t, threw[0]), rest);
    }
  }

  lemma RoundsUnfold(t: Thread, threw: seq<bool>)
    ensures threw == [] ==> Rounds(t, threw) == []
    ensures threw != [] ==>
              Rounds(t, threw) == [EnterCallback(t)] + ([LeaveCallback(t, threw[0])] + Rounds(t, threw[1..]))
  {
  }

  lemma NextCall(snapshot: seq<ListenerId>, was: Value, now: Value, next: nat)
    requires next < |snapshot|
    ensures CallsFor(snapshot, was, now)[next..]
         == [Call(snapshot[next], was, now)] + ([] + CallsFor(snapshot, was, now)[next + 1..])
  {
  }

  lemma NothingPerformed(s: State)
    ensures CallsIn(Perform(s, []).1) == []
  {
  }

  /** The steps of a notification that nothing interferes with call what the loop of the method calls. */
  lemma NotifySteps(s: State, t: Thread, below: seq<Frame>, write: nat, was: Value, now: Value, threw: seq<bool>)
    requires Stack(s, t) == below + [Notifying(write, was, now)] && |threw| == |s.listeners|
    ensures CallsIn(Perform(s, [CopyListeners(t)] + Rounds(t, threw)).1) == CallsFor(s.listeners, was, now)
  {
    hide Perform, Rounds;
    assert Front(Stack(s, t)) == below;
    var copied := Step(s, CopyListeners(t)).0;
    CallsAfter(s, CopyListeners(t), Rounds(t, threw));
    RoundsCall(copied, t, below, write, was, now, s.listeners, 0, threw);
  }

  // ---- a whole call of setValue that nothing interferes with

  /** Nothing but the activations of thread `t` may differ. */
  ghost predicate Alike(s: State, s': State, t: Thread) {
    && s'.value == s.value && s'.listeners == s.listeners && s'.stores == s.stores && s'.issued == s.issued
    && forall u :: u != t ==> Stack(s', u) == Stack(s, u)
  }

  lemma RoundKeeps(s: State, t: Thread, threw: bool)
    ensures var inside := Step(s, EnterCallback(t)).0; Alike(s, Step(inside, LeaveCallback(t, threw)).0, t)
  {
  }

  lemma PerformTwo(s: State, first: Action, second: Action, rest: seq<Action>)
    ensures Perform(s, [first] + ([second] + rest)).0 == Perform(Step(Step(s, first).0, second).0, rest).0
  {
    hide Step;
    assert ([first] + ([second] + rest))[1..] == [second] + rest;
    assert ([second] + rest)[1..] == rest;
  }

  /** After its rounds a notification stands before its return. */
  lemma {:induction false} RoundsEnd(s: State, t: Thread, below: seq<Frame>, write: nat, was: Value, now: Value,
                                     snapshot: seq<ListenerId>, next: nat, threw: seq<bool>)
    requires next + |threw| == |snapshot| && Stack(s, t) == below + [Calling(write, was, now, snapshot, next)]
    ensures var after := Perform(s, Rounds(t, threw)).0;
            Stack(after, t) == below + [Calling(write, was, now, snapshot, |snapshot|)] && Alike(s, after, t)
    decreases |threw|
  {
    hide Step, Stack, Rounds;
    RoundsUnfold(t, threw);
    if threw != [] {
      var inside := Step(s, EnterCallback(t)).0;
      var after := Step(inside, LeaveCallback(t, threw[0])).0;
      OneRound(s, t, below, write, Call(snapshot[next], was, now), snapshot, next, threw[0]);
      RoundKeeps(s, t, threw[0]);
      RoundsEnd(after, t, below, write, was, now, snapshot, next + 1, threw[1..]);
      PerformTwo(s, EnterCallback(t), LeaveCallback(t, threw[0]), Rounds(t, threw[1..]));
    }
  }

  lemma CopyKeeps(s: State, t: Thread, below: seq<Frame>, write: nat, was: Value, now: Value)
    requires Stack(s, t) == below + [Notifying(write, was, now)]
    ensures var copied := Step(s, CopyListeners(t)).0;
            Stack(copied, t) == below + [Calling(write, was, now, s.listeners, 0)] && Alike(s, copied, t)
  {
    assert Front(Stack(s, t)) == below;
  }

  /** The lock section, for whatever value there is by then. */
  lemma StoreDecides(s: State, t: Thread, below: seq<Frame>, wanted: Value)
    requires Stack(s, t) == below + [Setting(wanted)]
    ensures var (stored, told) := Step(s, CompareAndStore(t));
            if s.value == wanted then
              told == Unchanged && Stack(stored, t) == below && Alike(s, stored, t)
            else
              && told == Stored(s.value, wanted)
              && Stack(stored, t) == below + [Notifying(s.stores, s.value, wanted)]
              && Alike(s.(value := wanted, stores := s.stores + 1), stored, t)
  {
    assert Front(Stack(s, t)) == below;
  }

  /** setValue from a thread's own code or from a callback. An equal value is left as it is, with no call. Any other is
    * stored, the listeners that are registered are called with both values in their order, whichever of them throw, and
    * the call returns to where it was made. */
  lemma SetValueSteps(s: State, t: Thread, wanted: Value, threw: seq<bool>)
    requires |threw| == |s.listeners| && (Stack(s, t) != [] ==> Last(Stack(s, t)).InCallback?)
    ensures var asked := Step(s, CallSetValue(t, wanted)).0;
            var (stored, told) := Step(asked, CompareAndStore(t));
            if s.value == wanted then
              told == Unchanged && Stack(stored, t) == Stack(s, t) && Alike(s, stored, t)
            else
              var (called, events) := Perform(stored, [CopyListeners(t)] + Rounds(t, threw));
              var (done, last) := Step(called, ReturnTrue(t));
              && told == Stored(s.value, wanted) && last == Returned(s.stores)
              && CallsIn(events) == CallsFor(s.listeners, s.value, wanted)
              && Stack(done, t) == Stack(s, t)
              && Alike(s.(value := wanted, stores := s.stores + 1), done, t)
  {
    hide Perform, Rounds, CallsIn, Step, Stack;
    var below, write := Stack(s, t), s.stores;
    var asked := Step(s, CallSetValue(t, wanted)).0;
    var stored := Step(asked, CompareAndStore(t)).0;
    Asks(s, t, wanted);
    StoreDecides(asked, t, below, wanted);
    if s.value != wanted {
      NotifySteps(stored, t, below, write, s.value, wanted, threw);
      NotifyEnds(stored, t, below, write, s.value, wanted, threw);
      Finishes(Perform(stored, [CopyListeners(t)] + Rounds(t, threw)).0, t, below, write, s.value, wanted, s.listeners);
      AlikeAfter(s, asked, t, wanted, write + 1);
    }
  }

  lemma Asks(s: State, t: Thread, wanted: Value)
    requires Stack(s, t) != [] ==> Last(Stack(s, t)).InCallback?
    ensures var asked := Step(s, CallSetValue(t, wanted)).0;
            && Stack(asked, t) == Stack(s, t) + [Setting(wanted)] && Alike(s, asked, t)
            && asked.value == s.value && asked.listeners == s.listeners && asked.stores == s.stores
  {
  }

  lemma Finishes(s: State, t: Thread, below: seq<Frame>, write: nat, was: Value, now: Value, snapshot: seq<ListenerId>)
    requires Stack(s, t) == below + [Calling(write, was, now, snapshot, |snapshot|)]
    ensures var (done, last) := Step(s, ReturnTrue(t));
            last == Returned(write) && Stack(done, t) == below && Alike(s, done, t)
  {
    assert Front(Stack(s, t)) == below;
  }

  lemma AlikeAfter(s: State, a: State, t: Thread, value: Value, stores: nat)
    requires Alike(s, a, t)
    ensures Alike(s.(value := value, stores := stores), a.(value := value, stores := stores), t)
  {
    assert forall u :: Stack(a.(value := value, stores := stores), u) == Stack(a, u);
    assert forall u :: Stack(s.(value := value, stores := stores), u) == Stack(s, u);
  }

  lemma NotifyEnds(s: State, t: Thread, below: seq<Frame>, write: nat, was: Value, now: Value, threw: seq<bool>)
    requires Stack(s, t) == below + [Notifying(write, was, now)] && |threw| == |s.listeners|
    ensures var called := Perform(s, [CopyListeners(t)] + Rounds(t, threw)).0;
            Stack(called, t) == below + [Calling(write, was, now, s.listeners, |s.listeners|)] && Alike(s, called, t)
  {
    hide Step, Rounds, Stack;
    CopyKeeps(s, t, below, write, was, now);
    RoundsEnd(Step(s, CopyListeners(t)).0, t, below, write, was, now, s.listeners, 0, threw);
    assert ([CopyListeners(t)] + Rounds(t, threw))[1..] == Rounds(t, threw);
  }

  // ---- the members of the class: the lock sections, and the loop over a snapshot

  class ConfigVar {
    var value: Value
    var listeners: seq<ListenerId>
    var calls: seq<Call>   // the callbacks that were invoked

    constructor (initial: Value)
      ensures value == initial && listeners == [] && calls == []
    {
      value, listeners, calls := initial, [], [];
    }

    /** The lock section of setValue. */
    method CompareAndStore(wanted: Value) returns (stored: bool, was: Value)
      modifies this`value
      ensures was == old(value) && stored == (was != wanted)
      ensures value == wanted
      ensures forall s: State, t: Thread, below: seq<Frame> :: s.value == old(value) ==>
                var (next, event) := ThreadStep(s, t, below, Setting(wanted), Action.CompareAndStore(t));
                next.value == value && event == if stored then Stored(was, wanted) else Unchanged
    {
      was := value;
      if was == wanted {
        return false, was;
      }
      value := wanted;
      stored := true;
    }

    method AddListener(id: ListenerId)
      modifies this`listeners
      ensures listeners == old(listeners) + [id]
      ensures forall s: State :: s.listeners == old(listeners) && id != 0 && id !in s.issued ==>
                Step(s, Action.AddListener(id)).0.listeners == listeners
    {
      listeners := listeners + [id];
    }

    method RemoveListener(id: ListenerId)
      modifies this`listeners
      ensures listeners == Without(old(listeners), id)
      ensures forall s: State :: s.listeners == old(listeners) ==>
                Step(s, Action.RemoveListener(id)).0.listeners == listeners
    {
      hide Without;
      var i := 0;
      SearchStarts(listeners, id);
      while i < |listeners|
        invariant 0 <= i <= |listeners| && listeners == old(listeners)
        invariant Without(listeners, id) == listeners[..i] + Without(listeners[i..], id)
      {
        SearchStep(listeners, id, i);
        if listeners[i] == id {
          listeners := listeners[..i] + listeners[i + 1..];
          return;
        }
        i := i + 1;
      }
      SearchEnds(listeners, id);
    }

    method ClearListeners()
      modifies this`listeners
      ensures listeners == []
      ensures forall s: State :: Step(s, Action.ClearListeners).0.listeners == listeners
    {
      listeners := [];
    }

    /** notify: `threw` tells which callbacks throw; none of that stops the loop. */
    method Notify(was: Value, now: Value, threw: seq<bool>) returns (reported: nat)
      requires |threw| == |listeners|
      modifies this`calls
      ensures calls == old(calls) + CallsFor(listeners, was, now)
    {
      var snapshot := listeners;
      reported := 0;
      for i := 0 to |snapshot|
        invariant calls == old(calls) + CallsFor(listeners, was, now)[..i]
      {
        calls := calls + [Call(snapshot[i], was, now)];
        if threw[i] {
          reported := reported + 1;
        }
      }
    }
  }
}
