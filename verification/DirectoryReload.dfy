/** Reload skipping in config/config.cc: the loop body of LoadFromConfDir, one load call at a time, with files that are
  * edited at any moment. Every edit of a file gives it a time stamp that it has not had before. */
module DirectoryReload {
  import opened Options

  type Path = string
  type Stamp = int
  type Content = string

  datatype File = File(content: Content, stamp: Stamp)

  /** Where the loop body is: the file, the sampled time stamp and, while it matters, a content. */
  datatype Stage =
    | Idle
    | Sampled(file: Path, force: bool, stamp: Stamp, shown: Content)  // shown: on disk when the stamp was sampled
    | Erased(file: Path, stamp: Stamp)
    | HasRead(file: Path, stamp: Stamp, content: Content)
    | Loaded(file: Path, stamp: Stamp, content: Content)

  /** `loaded` is the map of time stamps of loaded files; `used` remembers every stamp a file has had. */
  datatype State = State(disk: map<Path, File>, used: set<(Path, Stamp)>, loaded: map<Path, Stamp>, stage: Stage)

  datatype Action =
    | Edit(path: Path, file: File)
    | Remove(path: Path)
    | Sample(path: Path, force: bool)
    | Check
    | Read
    | Load(success: bool)   // LoadFromYaml returns this, or throws: then it is false
    | Mark

  datatype Event =
    | Silent
    | Skipped(path: Path, content: Content)
    | Attempted(path: Path, read: Option<Content>, success: bool)

  /** One atomic step; an action that is not due changes nothing. */
  function Step(s: State, action: Action): (State, Event) {
    match action
    case Edit(path, file) =>
      if (path, file.stamp) in s.used then (s, Silent)
      else (s.(disk := s.disk[path := file], used := s.used + {(path, file.stamp)}), Silent)
    case Remove(path) => (s.(disk := s.disk - {path}), Silent)
    case Sample(path, force) =>
      if s.stage.Idle? && path in s.disk
      then (s.(stage := Sampled(path, force, s.disk[path].stamp, s.disk[path].content)), Silent)
      else (s, Silent)
    case Check =>
      if !s.stage.Sampled? then (s, Silent)
      else if !s.stage.force && s.stage.file in s.loaded && s.loaded[s.stage.file] == s.stage.stamp
      then (s.(stage := Idle), Skipped(s.stage.file, s.stage.shown))
      else (s.(loaded := s.loaded - {s.stage.file}, stage := Erased(s.stage.file, s.stage.stamp)), Silent)
    case Read =>
      if !s.stage.Erased? then (s, Silent)
      else if s.stage.file in s.disk
      then (s.(stage := HasRead(s.stage.file, s.stage.stamp, s.disk[s.stage.file].content)), Silent)
      else (s.(stage := Idle), Attempted(s.stage.file, None, false))
    case Load(success) =>
      if !s.stage.HasRead? then (s, Silent)
      else (s.(stage := if success then Loaded(s.stage.file, s.stage.stamp, s.stage.content) else Idle),
            Attempted(s.stage.file, Some(s.stage.content), success))
    case Mark =>
      if !s.stage.Loaded? then (s, Silent)
      else (s.(loaded := s.loaded[s.stage.file := s.stage.stamp], stage := Idle), Silent)
  }

  const START := State(map[], {}, map[], Idle)

  function Run(actions: seq<Action>): (State, seq<Event>) {
    if actions == [] then (START, [])
    else
      var (s, log) := Run(actions[..|actions| - 1]);
      var (next, event) := Step(s, actions[|actions| - 1]);
      (next, log + [event])
  }

  /** The last attempt to load a file, as the log tells it. */
  function LastAttempt(log: seq<Event>, path: Path): Option<Event> {
    if log == [] then None
    else
      var last := log[|log| - 1];
      if last.Attempted? && last.path == path then Some(last) else LastAttempt(log[..|log| - 1], path)
  }

  // ---- invariant

  /** If the file still has this stamp, it still has this content. */
  predicate Pinned(s: State, path: Path, stamp: Stamp, content: Content) {
    && (path, stamp) in s.used
    && (path in s.disk && s.disk[path].stamp == stamp ==> s.disk[path].content == content)
  }

  /** The last attempt succeeded with a content that the file has whenever it has the stamp. */
  predicate Vouched(s: State, log: seq<Event>, path: Path, stamp: Stamp) {
    var last := LastAttempt(log, path);
    && last.Some? && last.value.Attempted? && last.value.success && last.value.read.Some?
    && Pinned(s, path, stamp, last.value.read.value)
  }

  ghost predicate StageInv(s: State, log: seq<Event>) {
    match s.stage
    case Idle => true
    case Sampled(file, force, stamp, shown) =>
      && Pinned(s, file, stamp, shown)
      && (file in s.loaded && s.loaded[file] == stamp ==>
            LastAttempt(log, file) == Some(Attempted(file, Some(shown), true)))
    case Erased(file, stamp) => file !in s.loaded && (file, stamp) in s.used
    case HasRead(file, stamp, content) => file !in s.loaded && Pinned(s, file, stamp, content)
    case Loaded(file, stamp, content) => file !in s.loaded && Vouched(s, log, file, stamp)
  }

  ghost predicate Inv(s: State, log: seq<Event>) {
    && (forall path :: path in s.disk ==> (path, s.disk[path].stamp) in s.used)
    && (forall path :: path in s.loaded ==> Vouched(s, log, path, s.loaded[path]))
    && StageInv(s, log)
  }

  lemma LogGrows(log: seq<Event>, event: Event, path: Path)
    ensures LastAttempt(log + [event], path)
         == if event.Attempted? && event.path == path then Some(event) else LastAttempt(log, path)
  {
    assert (log + [event])[..|log|] == log;
  }

  lemma LastAttemptOf(log: seq<Event>, path: Path)
    ensures var last := LastAttempt(log, path); last.Some? ==> last.value.Attempted? && last.value.path == path
  {
  }

  /** What the log says of a file changes only with an attempt to load it, and that happens only to the file in hand. */
  lemma VouchedStays(s: State, log: seq<Event>, action: Action, path: Path, stamp: Stamp)
    requires forall p :: p in s.disk ==> (p, s.disk[p].stamp) in s.used
    requires Vouched(s, log, path, stamp)
    ensures var (next, event) := Step(s, action);
            !(event.Attempted? && event.path == path) ==> Vouched(next, log + [event], path, stamp)
  {
    hide LastAttempt;
    LogGrows(log, Step(s, action).1, path);
  }

  lemma LoadedStay(s: State, log: seq<Event>, action: Action, path: Path)
    requires Inv(s, log)
    ensures var (next, event) := Step(s, action);
            path in next.loaded ==> Vouched(next, log + [event], path, next.loaded[path])
  {
    hide LastAttempt;
    var (next, event) := Step(s, action);
    if path in s.loaded {
      VouchedStays(s, log, action, path, s.loaded[path]);
    }
    if action.Mark? && s.stage.Loaded? {
      VouchedStays(s, log, action, s.stage.file, s.stage.stamp);
    }
  }

  lemma StageStays(s: State, log: seq<Event>, action: Action)
    requires Inv(s, log)
    ensures var (next, event) := Step(s, action);
            && StageInv(next, log + [event])
            && (event.Skipped? ==>
                  LastAttempt(log, event.path) == Some(Attempted(event.path, Some(event.content), true)))
  {
    hide LastAttempt;
    var (next, event) := Step(s, action);
    if !s.stage.Idle? {
      LogGrows(log, event, s.stage.file);
    }
    if action.Sample? {
      LogGrows(log, event, action.path);
      LastAttemptOf(log, action.path);
    }
  }

  lemma StepKeeps(s: State, log: seq<Event>, action: Action)
    requires Inv(s, log)
    ensures var (next, event) := Step(s, action);
            && Inv(next, log + [event])
            && (event.Skipped? ==>
                  LastAttempt(log, event.path) == Some(Attempted(event.path, Some(event.content), true)))
  {
    hide LastAttempt, Vouched, StageInv;
    StageStays(s, log, action);
    var (next, event) := Step(s, action);
    forall path | path in next.loaded
      ensures Vouched(next, log + [event], path, next.loaded[path])
    {
      LoadedStay(s, log, action, path);
    }
  }

  lemma {:induction false} Always(actions: seq<Action>)
    ensures Inv(Run(actions).0, Run(actions).1) && |Run(actions).1| == |actions|
  {
    if actions != [] {
      Always(actions[..|actions| - 1]);
      var (s, log) := Run(actions[..|actions| - 1]);
      StepKeeps(s, log, actions[|actions| - 1]);
    }
  }

  /** Over every run: when a file is skipped, the last attempt to load it succeeded, and what that attempt read is what
    * the file held when its stamp was sampled. */
  lemma {:induction false} SkipsAreSafe(actions: seq<Action>, i: nat)
    requires i < |Run(actions).1| && Run(actions).1[i].Skipped?
    ensures var log := Run(actions).1;
            LastAttempt(log[..i], log[i].path) == Some(Attempted(log[i].path, Some(log[i].content), true))
  {
    var front := actions[..|actions| - 1];
    var (s, log) := Run(front);
    Always(front);
    assert Run(actions).1[..|log|] == log;
    if i < |log| {
      SkipsAreSafe(front, i);
      assert Run(actions).1[..i] == log[..i];
    } else {
      StepKeeps(s, log, actions[|actions| - 1]);
    }
  }

  lemma {:induction false} EventAt(actions: seq<Action>, i: nat)
    requires i < |actions|
    ensures i < |Run(actions).1|
    ensures Run(actions).1[i] == Step(Run(actions[..i]).0, actions[i]).1 && Run(actions).1[..i] == Run(actions[..i]).1
  {
    hide Step;
    var front := actions[..|actions| - 1];
    Always(front);
    assert Run(actions).1[..|front|] == Run(front).1;
    if i < |front| {
      EventAt(front, i);
      assert front[..i] == actions[..i];
      assert Run(actions).1[..i] == Run(front).1[..i];
    } else {
      assert actions[..i] == front;
    }
  }

  /** At the moment of the skip: if the file still has the sampled stamp, so that no edit came since, its content is
    * what the last attempt read. */
  lemma SkipsAreCurrent(actions: seq<Action>, i: nat)
    requires i < |actions| && i < |Run(actions).1| && Run(actions).1[i].Skipped?
    ensures var (s, log) := Run(actions[..i]);
            var (path, content) := (Run(actions).1[i].path, Run(actions).1[i].content);
            && LastAttempt(log, path) == Some(Attempted(path, Some(content), true))
            && s.stage.Sampled? && s.stage.file == path
            && path in s.loaded && s.loaded[path] == s.stage.stamp
            && (path in s.disk && s.disk[path].stamp == s.stage.stamp ==> s.disk[path].content == content)
  {
    EventAt(actions, i);
    Always(actions[..i]);
    var (s, log) := Run(actions[..i]);
    SkipStep(s, log, actions[i]);
  }

  lemma SkipStep(s: State, log: seq<Event>, action: Action)
    requires Inv(s, log) && Step(s, action).1.Skipped?
    ensures var (path, content) := (Step(s, action).1.path, Step(s, action).1.content);
            && LastAttempt(log, path) == Some(Attempted(path, Some(content), true))
            && s.stage.Sampled? && s.stage.file == path
            && path in s.loaded && s.loaded[path] == s.stage.stamp
            && (path in s.disk && s.disk[path].stamp == s.stage.stamp ==> s.disk[path].content == content)
  {
    hide LastAttempt;
    StepKeeps(s, log, action);
  }

  /** And a file that has been loaded is skipped as long as it keeps its stamp, unless the call forces it. */
  lemma LoadedIsSkipped(s: State, force: bool)
    requires s.stage.Loaded? && s.stage.file in s.disk && s.disk[s.stage.file].stamp == s.stage.stamp
    ensures var marked := Step(s, Mark).0;
            var sampled := Step(marked, Sample(s.stage.file, force)).0;
            var (next, event) := Step(sampled, Check);
            && (event == Skipped(s.stage.file, s.disk[s.stage.file].content) <==> !force)
            && (force ==> next.stage == Erased(s.stage.file, s.stage.stamp))
  {
  }

  // ---- a whole iteration

  /** An iteration, with the disk in any states `d1` at the check, `d2` at the read and `d3` at the end. It is skipped,
    * or else the record is dropped, what is there is read and loaded, and the sampled stamp is recorded iff that
    * succeeds; and after a success the next iteration that is not forced skips the file if it has that stamp. */
  lemma IterationDecides(s: State, path: Path, force: bool, success: bool, d1: map<Path, File>, d2: map<Path, File>,
                         d3: map<Path, File>)
    requires s.stage.Idle? && path in s.disk
    ensures var file := s.disk[path];
            var (checked, answer) := Step(Step(s, Sample(path, force)).0.(disk := d1), Check);
            var (read, outcome) := Step(checked.(disk := d2), Read);
            var (loaded, attempt) := Step(read, Load(success));
            var after := Step(loaded, Mark).0.(disk := d3);
            if !force && path in s.loaded && s.loaded[path] == file.stamp then
              answer == Skipped(path, file.content) && checked == s.(disk := d1)
            else if path !in d2 then
              && answer == Silent && outcome == Attempted(path, None, false)
              && read == s.(disk := d2, loaded := s.loaded - {path})
            else
              && answer == outcome == Silent && attempt == Attempted(path, Some(d2[path].content), success)
              && after == s.(disk := d3, loaded := if success then s.loaded[path := file.stamp] else s.loaded - {path})
              && (success && path in d3 && d3[path].stamp == file.stamp ==>
                    Step(Step(after, Sample(path, false)).0, Check) == (after, Skipped(path, d3[path].content)))
  {
    var file := s.disk[path];
    assert (s.loaded - {path})[path := file.stamp] == s.loaded[path := file.stamp];
  }

  // ---- the loop body as a method

  class LoadedFiles {
    var stamps: map<Path, Stamp>

    constructor ()
      ensures stamps == map[]
    {
      stamps := map[];
    }

    method IsFileUnmodified(path: Path, writeTime: Stamp) returns (unmodified: bool)
      ensures unmodified == (path in stamps && stamps[path] == writeTime)
    {
      unmodified := path in stamps && stamps[path] == writeTime;
    }

    method Erase(path: Path)
      modifies this
      ensures stamps == old(stamps) - {path}
    {
      stamps := stamps - {path};
    }

    method MarkFileAsLoaded(path: Path, writeTime: Stamp)
      modifies this
      ensures stamps == old(stamps)[path := writeTime]
    {
      stamps := stamps[path := writeTime];
    }

    /** One iteration: the file as sampled, as read later, and the result of loading that. What it leaves is what the
      * steps of the run leave, in their order, when the disk is edited in between. */
    method LoadFile(path: Path, force: bool, sampled: Option<File>, read: Option<File>, success: bool)
      returns (event: Event)
      modifies this
      ensures sampled == None ==> event == Silent && stamps == old(stamps)
      ensures sampled.Some? ==>
                var stamp, done := sampled.value.stamp, read.Some? && success;
                if !force && path in old(stamps) && old(stamps)[path] == stamp then
                  event == Skipped(path, sampled.value.content) && stamps == old(stamps)
                else
                  && event == Attempted(path, if read.Some? then Some(read.value.content) else None, done)
                  && stamps == if done then old(stamps)[path := stamp] else old(stamps) - {path}
      ensures (stamps, event) == Iteration(old(stamps), path, force, sampled, read, success)
    {
      if sampled.None? {
        return Silent;
      }
      var writeTime := sampled.value.stamp;
      var unmodified := IsFileUnmodified(path, writeTime);
      if !force && unmodified {
        return Skipped(path, sampled.value.content);
      }
      Erase(path);
      if read.None? {
        return Attempted(path, None, false);
      }
      if success {
        MarkFileAsLoaded(path, writeTime);
      }
      event := Attempted(path, Some(read.value.content), success);
    }
  }

  function DiskWith(disk: map<Path, File>, path: Path, file: Option<File>): map<Path, File> {
    if file.Some? then disk[path := file.value] else disk - {path}
  }

  /** The stamps and the telling event after the steps of one iteration. */
  function Iteration(loaded: map<Path, Stamp>, path: Path, force: bool, sampled: Option<File>, read: Option<File>,
                     success: bool): (map<Path, Stamp>, Event) {
    var s0 := State(DiskWith(map[], path, sampled), {}, loaded, Idle);
    var (s1, _) := Step(s0, Sample(path, force));
    var (s2, e2) := Step(s1, Check);
    var s3 := s2.(disk := DiskWith(s2.disk, path, read));
    var (s4, e4) := Step(s3, Read);
    var (s5, e5) := Step(s4, Load(success));
    var (s6, _) := Step(s5, Mark);
    (s6.loaded, if e2.Skipped? then e2 else if e4.Attempted? then e4 else e5)
  }
}
