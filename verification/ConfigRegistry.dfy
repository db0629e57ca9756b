/** The table of configuration variables (config/config.cc, config/config.h) under any number of threads. Looking up or
  * creating a variable is a shared-lock lookup, a construction outside any lock, and an exclusive-lock emplace. */
module ConfigRegistry {
  import opened Options
  import opened ConfigNames

  type Thread = nat
  type ObjectId = nat
  type TypeName = string

  datatype Variable = Variable(name: string, typeName: TypeName)

  datatype Stage =
    | Outside
    | Searching(name: string, typeName: TypeName)                // normalised and valid
    | Creating(name: string, typeName: TypeName)                 // the lookup found nothing
    | Inserting(name: string, typeName: TypeName, made: ObjectId)

  /** `datas` is the table; `objects` are all the variables ever constructed. */
  datatype State = State(datas: map<string, ObjectId>, objects: map<ObjectId, Variable>, stages: map<Thread, Stage>)

  datatype Action =
    | CallLookupOrCreate(thread: Thread, name: string, typeName: TypeName)
    | Find(thread: Thread)
    | Construct(thread: Thread, made: ObjectId, constructed: bool)
    | Emplace(thread: Thread)
    | LookupBase(name: string)
    | LookupTyped(name: string, typeName: TypeName)

  datatype Event =
    | Silent
    | Threw(name: string)
    | Returned(name: string, wanted: Option<TypeName>, result: Option<ObjectId>)  // wanted: the type asked for
    | Inserted(name: string, made: ObjectId, typeName: TypeName, result: Option<ObjectId>)  // and returned

  function StageOf(s: State, t: Thread): Stage {
    if t in s.stages then s.stages[t] else Outside
  }

  function WithStage(s: State, t: Thread, stage: Stage): State {
    s.(stages := s.stages[t := stage])
  }

  /** CheckType: a variable of another type is not handed out. */
  function CheckType(objects: map<ObjectId, Variable>, made: ObjectId, typeName: TypeName): Option<ObjectId> {
    if made in objects && objects[made].typeName == typeName then Some(made) else None
  }

  function Step(s: State, action: Action): (State, Event) {
    match action
    case CallLookupOrCreate(t, name, typeName) =>
      if !StageOf(s, t).Outside? then (s, Silent)
      else if !ValidName(Normal(name)) then (s, Threw(Normal(name)))
      else (WithStage(s, t, Searching(Normal(name), typeName)), Silent)
    case Find(t) =>
      var stage := StageOf(s, t);
      if !stage.Searching? then (s, Silent)
      else if stage.name in s.datas
      then (WithStage(s, t, Outside), Found(s, stage.name, Some(stage.typeName)))
      else (WithStage(s, t, Creating(stage.name, stage.typeName)), Silent)
    case Construct(t, made, constructed) =>
      var stage := StageOf(s, t);
      if !stage.Creating? || made in s.objects then (s, Silent)
      else if !constructed then (WithStage(s, t, Outside), Returned(stage.name, Some(stage.typeName), None))
      else (WithStage(s.(objects := s.objects[made := Variable(Normal(stage.name), stage.typeName)]), t,
                      Inserting(stage.name, stage.typeName, made)), Silent)
    case Emplace(t) =>
      var stage := StageOf(s, t);
      if !stage.Inserting? then (s, Silent)
      else if stage.name in s.datas
      then (WithStage(s, t, Outside), Found(s, stage.name, Some(stage.typeName)))
      else (WithStage(s.(datas := s.datas[stage.name := stage.made]), t, Outside),
            Inserted(stage.name, stage.made, stage.typeName, CheckType(s.objects, stage.made, stage.typeName)))
    case LookupBase(name) => (s, Found(s, Normal(name), None))
    case LookupTyped(name, typeName) => (s, Found(s, Normal(name), Some(typeName)))
  }

  /** What a lookup answers: the variable of that name, if it is there and of the type asked for. */
  function Found(s: State, name: string, wanted: Option<TypeName>): Event {
    Returned(name, wanted,
             if name !in s.datas then None
             else if wanted.None? then Some(s.datas[name])
             else CheckType(s.objects, s.datas[name], wanted.value))
  }

  const START := State(map[], map[], map[])

  function Run(actions: seq<Action>): (State, seq<Event>) {
    if actions == [] then (START, [])
    else
      var (s, log) := Run(actions[..|actions| - 1]);
      var (next, event) := Step(s, actions[|actions| - 1]);
      (next, log + [event])
  }

  // ---- what the log says

  /** The first insertion under a name. */
  function FirstInserted(log: seq<Event>, name: string): Option<Event> {
    if log == [] then None
    else
      FirstAfter(FirstInserted(log[..|log| - 1], name), log[|log| - 1], name)
  }

  function FirstAfter(before: Option<Event>, last: Event, name: string): Option<Event> {
    if before.None? && last.Inserted? && last.name == name then Some(last) else before
  }

  function Insertions(log: seq<Event>): nat {
    if log == [] then 0 else Insertions(log[..|log| - 1]) + if log[|log| - 1].Inserted? then 1 else 0
  }

  /** The type that the caller of an event asked for, if it asked for one. */
  function Wanted(event: Event): Option<TypeName> {
    if event.Returned? then event.wanted else if event.Inserted? then Some(event.typeName) else None
  }

  /** The variable that an event hands out under a name. */
  function Handed(event: Event): Option<ObjectId> {
    if event.Returned? || event.Inserted? then event.result else None
  }

  // ---- invariant

  ghost predicate Agrees(s: State, event: Event) {
    Handed(event).Some? ==>
      var made := Handed(event).value;
      && event.name in s.datas && s.datas[event.name] == made && made in s.objects
      && (Wanted(event).Some? ==> s.objects[made].typeName == Wanted(event).value)
  }

  ghost predicate StageOk(s: State, stage: Stage) {
    && (!stage.Outside? ==> ValidName(stage.name) && Normal(stage.name) == stage.name)
    && (stage.Inserting? ==> stage.made in s.objects && s.objects[stage.made] == Variable(stage.name, stage.typeName))
  }

  /** A key is the valid normal name of the variable stored under it, which is the one first inserted there. */
  ghost predicate KeyOk(s: State, log: seq<Event>, name: string)
    requires name in s.datas
  {
    var made, first := s.datas[name], FirstInserted(log, name);
    && ValidName(name) && Normal(name) == name
    && made in s.objects && s.objects[made].name == name
    && first == Some(Inserted(name, made, s.objects[made].typeName, Some(made)))
  }

  ghost predicate Inv(s: State, log: seq<Event>) {
    && (forall name :: name in s.datas ==> KeyOk(s, log, name))
    && (forall name :: name !in s.datas ==> FirstInserted(log, name).None?)
    && (forall t :: StageOk(s, StageOf(s, t)))
    && (forall i :: 0 <= i < |log| ==> Agrees(s, log[i]))
    && |s.datas| == Insertions(log)
  }

  lemma LogGrows(log: seq<Event>, event: Event)
    ensures forall name :: FirstInserted(log + [event], name) == FirstAfter(FirstInserted(log, name), event, name)
    ensures Insertions(log + [event]) == Insertions(log) + if event.Inserted? then 1 else 0
  {
    assert (log + [event])[..|log|] == log;
  }

  /** The table and the objects only grow. */
  lemma StepGrows(s: State, action: Action)
    ensures var s' := Step(s, action).0;
            && (forall name :: name in s.datas ==> name in s'.datas && s'.datas[name] == s.datas[name])
            && (forall made :: made in s.objects ==> made in s'.objects && s'.objects[made] == s.objects[made])
  {
  }

  /** The table changes only when an emplace inserts, and then it gains that entry. */
  lemma StepInserts(s: State, action: Action)
    ensures var (s', event) := Step(s, action);
            && s'.datas == (if event.Inserted? then s.datas[event.name := event.made] else s.datas)
            && (event.Inserted? ==>
                  && event.name !in s.datas && s'.objects == s.objects && action.Emplace?
                  && StageOf(s, action.thread) == Inserting(event.name, event.typeName, event.made)
                  && event.result == CheckType(s.objects, event.made, event.typeName))
  {
  }

  lemma StepKeeps(s: State, log: seq<Event>, action: Action)
    requires Inv(s, log)
    ensures var (s', event) := Step(s, action); Inv(s', log + [event])
  {
    hide Step, KeyOk, StageOk, Agrees;
    var (s', event) := Step(s, action);
    LogGrows(log, event);
    StepGrows(s, action);
    StepInserts(s, action);
    forall name | name in s'.datas
      ensures KeyOk(s', log + [event], name)
    {
      KeysStayOk(s, log, action, name);
    }
    forall t
      ensures StageOk(s', StageOf(s', t))
    {
      StagesStayOk(s, log, action, t);
    }
    forall i | 0 <= i < |log + [event]|
      ensures Agrees(s', (log + [event])[i])
    {
      if i < |log| {
        StillAgrees(s, s', log[i]);
      } else {
        HandsOutKeys(s, log, action);
      }
    }
    SizeGrows(s, action);
  }

  lemma KeysStayOk(s: State, log: seq<Event>, action: Action, name: string)
    requires Inv(s, log)
    ensures var (s', event) := Step(s, action); name in s'.datas ==> KeyOk(s', log + [event], name)
  {
    hide Step, Agrees;
    var (s', event) := Step(s, action);
    LogGrows(log, event);
    StepInserts(s, action);
    StepGrows(s, action);
    if name in s.datas {
      assert KeyOk(s, log, name);
    } else if event.Inserted? {
      assert StageOk(s, StageOf(s, action.thread));
    }
  }

  lemma StagesStayOk(s: State, log: seq<Event>, action: Action, t: Thread)
    requires Inv(s, log)
    ensures var s' := Step(s, action).0; StageOk(s', StageOf(s', t))
  {
    hide Agrees, KeyOk;
    assert StageOk(s, StageOf(s, t));
    if action.CallLookupOrCreate? {
      NormalIsNormal(action.name);
    }
  }

  lemma StillAgrees(s: State, s': State, event: Event)
    requires Agrees(s, event)
    requires forall name :: name in s.datas ==> name in s'.datas && s'.datas[name] == s.datas[name]
    requires forall made :: made in s.objects ==> made in s'.objects && s'.objects[made] == s.objects[made]
    ensures Agrees(s', event)
  {
  }

  lemma HandsOutKeys(s: State, log: seq<Event>, action: Action)
    requires Inv(s, log)
    ensures var (s', event) := Step(s, action); Agrees(s', event)
  {
    var event := Step(s, action).1;
    if event.Returned? && event.name in s.datas {
      assert KeyOk(s, log, event.name);
    }
  }

  lemma SizeGrows(s: State, action: Action)
    ensures var (s', event) := Step(s, action); |s'.datas| == |s.datas| + if event.Inserted? then 1 else 0
  {
    hide Step;
    StepInserts(s, action);
    var (s', event) := Step(s, action);
    if event.Inserted? {
      OneMore(s.datas, event.name, event.made);
    }
  }

  lemma OneMore(datas: map<string, ObjectId>, name: string, made: ObjectId)
    requires name !in datas
    ensures |datas[name := made]| == |datas| + 1
  {
    assert datas[name := made].Keys == datas.Keys + {name};
    assert |datas[name := made]| == |datas[name := made].Keys| && |datas| == |datas.Keys|;
  }

  lemma {:induction false} Always(actions: seq<Action>)
    ensures Inv(Run(actions).0, Run(actions).1)
  {
    if actions != [] {
      Always(actions[..|actions| - 1]);
      var (s, log) := Run(actions[..|actions| - 1]);
      StepKeeps(s, log, actions[|actions| - 1]);
    }
  }

  // ---- over every run

  /** A typed lookup hands out nothing of another type. */
  lemma {:induction false} TypesAreRespected(actions: seq<Action>, i: nat)
    requires i < |Run(actions).1| && Handed(Run(actions).1[i]).Some? && Wanted(Run(actions).1[i]).Some?
    ensures var (s, log) := Run(actions);
            Handed(log[i]).value in s.objects && s.objects[Handed(log[i]).value].typeName == Wanted(log[i]).value
  {
    Always(actions);
    assert Agrees(Run(actions).0, Run(actions).1[i]);
  }

  /** A lookup that comes back with nothing found no variable of that name or one of another type, or its own
    * construction failed. */
  lemma {:induction false} RefusalsAreJustified(actions: seq<Action>, i: nat)
    requires i < |actions| && i < |Run(actions).1| && Run(actions).1[i].Returned? && Run(actions).1[i].result == None
    ensures var (s, event) := (Run(actions[..i]).0, Run(actions).1[i]);
            || event.name !in s.datas
            || (event.wanted.Some? && s.datas[event.name] in s.objects
                && s.objects[s.datas[event.name]].typeName != event.wanted.value)
            || (actions[i].Construct? && !actions[i].constructed)
  {
    hide Step, Inv;
    var front := actions[..|actions| - 1];
    var (s, log) := Run(front);
    Always(front);
    LogLength(front);
    assert Run(actions).1[..|log|] == log;
    if i < |front| {
      assert Run(actions).1[i] == log[i];
      RefusalsAreJustified(front, i);
      assert front[..i] == actions[..i];
    } else {
      assert actions[..i] == front;
      StepJustified(s, log, actions[i]);
    }
  }

  lemma StepJustified(s: State, log: seq<Event>, action: Action)
    requires Inv(s, log)
    ensures var event := Step(s, action).1;
            event.Returned? && event.result == None ==>
              || event.name !in s.datas
              || (event.wanted.Some? && s.datas[event.name] in s.objects
                  && s.objects[s.datas[event.name]].typeName != event.wanted.value)
              || (action.Construct? && !action.constructed)
  {
    var event := Step(s, action).1;
    if event.Returned? && event.name in s.datas {
      assert KeyOk(s, log, event.name);
    }
  }

  lemma {:induction false} LogLength(actions: seq<Action>)
    ensures |Run(actions).1| == |actions|
  {
    if actions != [] {
      LogLength(actions[..|actions| - 1]);
    }
  }

  /** All the variables ever handed out under one normal name are the same object, the one that was inserted first, and
    * its type is the type that the first insertion asked for. */
  lemma LookupsAgree(actions: seq<Action>, i: nat, j: nat)
    requires var log := Run(actions).1;
             && i < |log| && j < |log|
             && Handed(log[i]).Some? && Handed(log[j]).Some? && log[i].name == log[j].name
    ensures var (s, log) := Run(actions);
            var made, first := Handed(log[i]).value, FirstInserted(log, log[i].name);
            && Handed(log[j]) == Some(made)
            && made in s.objects && s.objects[made].name == log[i].name
            && first == Some(Inserted(log[i].name, made, s.objects[made].typeName, Some(made)))
  {
    Always(actions);
    var (s, log) := Run(actions);
    assert Agrees(s, log[i]) && Agrees(s, log[j]) && KeyOk(s, log, log[i].name);
  }

  /** Every key is valid, normal and its variable's own name; the size counts the first insertions; and whatever happens
    * next, no entry is ever removed or replaced. */
  lemma TableOnlyGrows(actions: seq<Action>, more: seq<Action>)
    ensures var (s, log) := Run(actions);
            var later := Run(actions + more).0;
            && (forall name :: name in s.datas ==>
                  && ValidName(name) && Normal(name) == name
                  && s.datas[name] in s.objects && s.objects[s.datas[name]].name == name)
            && |s.datas| == Insertions(log)
            && (forall name :: name in s.datas ==> name in later.datas && later.datas[name] == s.datas[name])
            && (forall made :: made in s.objects ==> made in later.objects && later.objects[made] == s.objects[made])
    decreases |more|
  {
    Always(actions);
    var (s, log) := Run(actions);
    assert forall name :: name in s.datas ==> KeyOk(s, log, name);
    if more == [] {
      assert actions + more == actions;
    } else {
      var front := more[..|more| - 1];
      TableOnlyGrows(actions, front);
      assert (actions + more)[..|actions + more| - 1] == actions + front;
      StepGrows(Run(actions + front).0, more[|more| - 1]);
    }
  }

  // ---- what a lookup finds

  /** `spelling` is `name` with some of its letters in capitals. */
  predicate Spells(spelling: string, name: string) {
    && |spelling| == |name|
    && forall i :: 0 <= i < |name| ==>
         spelling[i] == name[i] || ('A' <= spelling[i] <= 'Z' && name[i] as int == spelling[i] as int + 32)
  }

  lemma SpellingNormal(spelling: string, name: string)
    requires Spells(spelling, name) && ValidName(name)
    ensures Normal(spelling) == name
  {
  }

  /** What is handed out for a registered name to a caller who asks for a type. */
  ghost function Answer(s: State, name: string, typeName: TypeName): Event
    requires name in s.datas && s.datas[name] in s.objects
  {
    var made := s.datas[name];
    Returned(name, Some(typeName), if s.objects[made].typeName == typeName then Some(made) else None)
  }

  /** Every registered name is found in every spelling, and nothing but registered names is. */
  lemma SpellingsMeet(actions: seq<Action>, name: string, spelling: string, typeName: TypeName)
    requires name in Run(actions).0.datas && Spells(spelling, name)
    ensures var s := Run(actions).0;
            && s.datas[name] in s.objects
            && Step(s, LookupBase(spelling)) == (s, Returned(name, None, Some(s.datas[name])))
            && Step(s, LookupTyped(spelling, typeName)) == (s, Answer(s, name, typeName))
  {
    hide Run;
    Always(actions);
    assert KeyOk(Run(actions).0, Run(actions).1, name);
    SpellingNormal(spelling, name);
  }

  lemma UnknownNames(actions: seq<Action>, spelling: string, typeName: TypeName)
    requires forall name :: name in Run(actions).0.datas ==> !Spells(spelling, name)
    ensures Step(Run(actions).0, LookupBase(spelling)).1.result == None
    ensures Step(Run(actions).0, LookupTyped(spelling, typeName)).1.result == None
  {
    hide Run, Inv;
    assert Spells(spelling, Normal(spelling));
  }

  // ---- what a call to look up or create comes to

  /** Steps of other threads, and lookups. */
  ghost predicate Others(more: seq<Action>, t: Thread) {
    forall i :: 0 <= i < |more| ==> more[i].LookupBase? || more[i].LookupTyped? || more[i].thread != t
  }

  lemma StepElsewhere(s: State, action: Action, t: Thread)
    requires action.LookupBase? || action.LookupTyped? || action.thread != t
    ensures StageOf(Step(s, action).0, t) == StageOf(s, t)
  {
  }

  lemma {:induction false} StageKept(actions: seq<Action>, more: seq<Action>, t: Thread)
    requires Others(more, t)
    ensures StageOf(Run(actions + more).0, t) == StageOf(Run(actions).0, t)
  {
    if more == [] {
      assert actions + more == actions;
    } else {
      var front := more[..|more| - 1];
      hide Step, StageOf;
      StageKept(actions, front, t);
      StepElsewhere(Run(actions + front).0, more[|more| - 1], t);
      assert (actions + more)[..|actions + more| - 1] == actions + front;
    }
  }

  /** One more step, and some steps after it. */
  function Later(actions: seq<Action>, action: Action, more: seq<Action>): seq<Action> {
    actions + [action] + more
  }

  lemma LaterStage(actions: seq<Action>, action: Action, more: seq<Action>, t: Thread)
    requires Others(more, t)
    ensures StageOf(Run(Later(actions, action, more)).0, t) == StageOf(Step(Run(actions).0, action).0, t)
  {
    hide Step;
    StageKept(actions + [action], more, t);
    assert (actions + [action])[..|actions|] == actions;
  }

  /** A call, with any steps of other threads between its own. It throws for an invalid name. It answers with the
    * variable that it finds, or that another thread has inserted in the meantime, if that is of the wanted type; and it
    * inserts and returns its own otherwise. */
  lemma CallsAnswer(actions: seq<Action>, t: Thread, name: string, typeName: TypeName, made: ObjectId,
                    more1: seq<Action>, more2: seq<Action>, more3: seq<Action>)
    requires StageOf(Run(actions).0, t).Outside? && Others(more1, t) && Others(more2, t) && Others(more3, t)
    ensures var call := CallLookupOrCreate(t, name, typeName);
            var n, called := Normal(name), Later(actions, call, more1);
            var finds := Run(called).0;
            if !ValidName(n) then Step(Run(actions).0, call) == (Run(actions).0, Threw(n))
            else if n in finds.datas then
              && finds.datas[n] in finds.objects
              && Step(finds, Find(t)).1 == Answer(finds, n, typeName)
            else
              var found := Later(called, Find(t), more2);
              made !in Run(found).0.objects ==>
                && Step(Run(found).0, Construct(t, made, false)).1 == Returned(n, Some(typeName), None)
                && var s := Run(Later(found, Construct(t, made, true), more3)).0;
                   if n in s.datas then
                     s.datas[n] in s.objects && Step(s, Emplace(t)).1 == Answer(s, n, typeName)
                   else
                     && Step(s, Emplace(t)).1 == Inserted(n, made, typeName, Some(made))
                     && Step(s, Emplace(t)).0.datas == s.datas[n := made]
  {
    hide Run, Later, Inv, Others;
    var call := CallLookupOrCreate(t, name, typeName);
    var called := Later(actions, call, more1);
    var found := Later(called, Find(t), more2);
    var made1 := Later(found, Construct(t, made, true), more3);
    LaterStage(actions, call, more1, t);
    LaterStage(called, Find(t), more2, t);
    LaterStage(found, Construct(t, made, true), more3, t);
    if ValidName(Normal(name)) {
      FindAnswers(called, t);
      if Normal(name) !in Run(called).0.datas && made !in Run(found).0.objects {
        EmplaceAnswers(made1, t);
      }
    }
  }

  lemma FindAnswers(actions: seq<Action>, t: Thread)
    requires StageOf(Run(actions).0, t).Searching?
    ensures var s, stage := Run(actions).0, StageOf(Run(actions).0, t);
            stage.name in s.datas ==>
              && s.datas[stage.name] in s.objects
              && Step(s, Find(t)).1 == Answer(s, stage.name, stage.typeName)
  {
    hide Run;
    Always(actions);
    var s, stage := Run(actions).0, StageOf(Run(actions).0, t);
    assert stage.name in s.datas ==> KeyOk(s, Run(actions).1, stage.name);
  }

  lemma EmplaceAnswers(actions: seq<Action>, t: Thread)
    requires StageOf(Run(actions).0, t).Inserting?
    ensures var s, stage := Run(actions).0, StageOf(Run(actions).0, t);
            var (s', event) := Step(s, Emplace(t));
            if stage.name in s.datas then
              s.datas[stage.name] in s.objects && event == Answer(s, stage.name, stage.typeName)
            else
              && event == Inserted(stage.name, stage.made, stage.typeName, Some(stage.made))
              && s'.datas == s.datas[stage.name := stage.made]
  {
    hide Run;
    Always(actions);
    var s, stage := Run(actions).0, StageOf(Run(actions).0, t);
    assert stage.name in s.datas ==> KeyOk(s, Run(actions).1, stage.name);
    assert StageOk(s, stage);
  }

  // ---- the functions, as one thread alone executes them

  /** What the steps of one call leave when no other thread comes in between, and the event that tells its outcome. */
  function Alone(datas: map<string, ObjectId>, objects: map<ObjectId, Variable>, name: string, typeName: TypeName,
                 made: ObjectId, constructed: bool): (map<string, ObjectId>, map<ObjectId, Variable>, Event) {
    var s0 := State(datas, objects, map[]);
    var (s1, e1) := Step(s0, CallLookupOrCreate(0, name, typeName));
    var (s2, e2) := Step(s1, Find(0));
    var (s3, e3) := Step(s2, Construct(0, made, constructed));
    var (s4, e4) := Step(s3, Emplace(0));
    (s4.datas, s4.objects, if e1 != Silent then e1 else if e2 != Silent then e2 else if e3 != Silent then e3 else e4)
  }

  class Registry {
    var datas: map<string, ObjectId>
    var objects: map<ObjectId, Variable>

    constructor ()
      ensures datas == map[] && objects == map[]
    {
      datas, objects := map[], map[];
    }

    method LookupFromMap(name: string) returns (found: Option<ObjectId>)
      ensures found == if name in datas then Some(datas[name]) else None
    {
      found := if name in datas then Some(datas[name]) else None;
    }

    /** The exclusive-lock section is the emplace step of any thread that stands before it: what is there is kept. */
    method EmplaceVariable(name: string, made: ObjectId) returns (stored: ObjectId, inserted: bool)
      modifies this`datas
      ensures name in datas && stored == datas[name]
      ensures inserted <==> name !in old(datas)
      ensures forall s: State, t: Thread, typeName: TypeName ::
                s.datas == old(datas) && StageOf(s, t) == Inserting(name, typeName, made) ==>
                Step(s, Emplace(t)).0.datas == datas && Step(s, Emplace(t)).1.Inserted? == inserted
    {
      inserted := name !in datas;
      if inserted {
        datas := datas[name := made];
      }
      stored := datas[name];
    }

    /** A new object `made` is constructed unless that fails. The call does what its steps do; it throws exactly on an
      * invalid name, a name that is there already is answered by type, and otherwise the table gains the new
      * variable. */
    method LookupOrCreate(name: string, typeName: TypeName, made: ObjectId, constructed: bool) returns (event: Event)
      requires made !in objects
      modifies this
      ensures (datas, objects, event) == Alone(old(datas), old(objects), name, typeName, made, constructed)
      ensures event.Threw? <==> !ValidName(Normal(name))
      ensures !event.Threw? && Normal(name) in old(datas) ==>
                var stored := old(datas)[Normal(name)];
                event == Returned(Normal(name), Some(typeName),
                                  if stored in old(objects) && old(objects)[stored].typeName == typeName
                                  then Some(stored) else None)
      ensures !event.Threw? && Normal(name) !in old(datas) ==>
                event == if constructed then Inserted(Normal(name), made, typeName, Some(made))
                         else Returned(Normal(name), Some(typeName), None)
      ensures Handed(event).Some? ==> Normal(name) in datas && datas[Normal(name)] == Handed(event).value
      ensures event.Threw? || Normal(name) in old(datas) || !constructed ==> datas == old(datas)
      ensures event.Inserted? ==> datas == old(datas)[Normal(name) := made] && Handed(event) == Some(made)
    {
      NormalIsNormal(name);
      var normalized := NormalizeConfigName(name);
      if !ValidName(normalized) {
        return Threw(normalized);
      }
      var found := LookupFromMap(normalized);
      if found.Some? {
        return Returned(normalized, Some(typeName), CheckType(objects, found.value, typeName));
      }
      if !constructed {
        return Returned(normalized, Some(typeName), None);
      }
      objects := objects[made := Variable(Normal(normalized), typeName)];
      var stored, inserted := EmplaceVariable(normalized, made);
      var result := CheckType(objects, stored, typeName);
      event := if inserted then Inserted(normalized, made, typeName, result)
               else Returned(normalized, Some(typeName), result);
      assert datas == old(datas)[normalized := made] by {
        var s := State(old(datas), objects, map[0 := Inserting(normalized, typeName, made)]);
        assert Step(s, Emplace(0)).0.datas == datas;
      }
    }
  }
}
