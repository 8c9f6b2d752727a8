/**
 Runs of the virtual machine under the account-access recorder.

 A run is a sequence of hooks. The machine below executes it with a plain storage semantics:
 every frame takes a checkpoint when it is entered and the storage is rolled back to it when the
 frame ends in a revert or in an exceptional halt. Next to the storage it drives the recorder.

 A run that opens and closes its frames in a nested way is a `Trace`. The theorems speak about
 the hooks of an arbitrary trace, executed in the frame in which recording was started.
 */
module StateDiffTrace {
  import opened Wrappers
  import opened StateDiffRecorder

  datatype Key = Key(account: Address, slot: Word)
  type Storage = map<Key, Word>

  function Read(st: Storage, k: Key): (w: Word)
  {
    if k in st then st[k] else 0
  }

  /* ---------- The machine ---------- */

  datatype Hook =
    | OnStep(op: Op)
    | OnEnter(input: FrameInput)
    | OnLeave(outcome: Outcome, after: Aftermath)

  datatype Machine = Machine(storage: Storage, checkpoints: seq<Storage>, depth: nat, stack: Stack)

  function KeyOf(op: Op): (k: Key)
    requires op.SLoad? || op.SStore?
  {
    Key(op.account, op.slot)
  }

  function Present(st: Storage, op: Op): (w: Word)
  {
    if op.SLoad? || op.SStore? then Read(st, KeyOf(op)) else 0
  }

  function Effect(st: Storage, op: Op): (st': Storage)
  {
    if op.SStore? then st[KeyOf(op) := op.value] else st
  }

  /** One hook; None when a frame that was never entered ends, or when the recorder panics. */
  function StepMachine(m: Machine, h: Hook): (r: Option<Machine>)
  {
    match h
    case OnStep(op) =>
      Some(m.(storage := Effect(m.storage, op),
              stack := StepStack(m.stack, op, m.depth, Present(m.storage, op))))
    case OnEnter(input) =>
      Some(Machine(m.storage, m.checkpoints + [m.storage], m.depth + 1,
                   EnterStack(m.stack, input, m.depth)))
    case OnLeave(outcome, after) =>
      if m.checkpoints == [] || m.depth == 0 then None else
      var st := if outcome.Success? then m.storage else Last(m.checkpoints);
      var left := LeaveStack(m.stack, outcome, m.depth - 1, after);
      if left.None? then None
      else Some(Machine(st, Front(m.checkpoints), m.depth - 1, left.value))
  }

  function Run(m: Machine, hooks: seq<Hook>): (r: Option<Machine>)
    decreases |hooks|
  {
    if hooks == [] then Some(m) else
    var m' := StepMachine(m, hooks[0]);
    if m'.None? then None else Run(m'.value, hooks[1..])
  }

  lemma {:induction false} RunConcat(m: Machine, a: seq<Hook>, b: seq<Hook>)
    ensures Run(m, a + b) == if Run(m, a).None? then None else Run(Run(m, a).value, b)
    decreases |a|
  {
    if a == [] {
      assert a + b == b;
    } else {
      assert (a + b)[1..] == a[1..] + b;
      var m' := StepMachine(m, a[0]);
      if m'.Some? {
        RunConcat(m'.value, a[1..], b);
      }
    }
  }

  lemma RunFirst(m: Machine, h: Hook, rest: seq<Hook>)
    ensures Run(m, [h] + rest) ==
            if StepMachine(m, h).None? then None else Run(StepMachine(m, h).value, rest)
  {
    assert ([h] + rest)[1..] == rest;
  }

  /* ---------- Balanced runs are traces ---------- */

  datatype Trace =
    | Done
    | Step(op: Op, next: Trace)
    | Frame(input: FrameInput, body: Trace, outcome: Outcome, after: Aftermath, next: Trace)

  function Hooks(t: Trace): (hooks: seq<Hook>)
  {
    match t
    case Done => []
    case Step(op, next) => [OnStep(op)] + Hooks(next)
    case Frame(input, body, outcome, after, next) =>
      [OnEnter(input)] + Hooks(body) + [OnLeave(outcome, after)] + Hooks(next)
  }

  lemma HooksOfFrame(input: FrameInput, body: Trace, outcome: Outcome, after: Aftermath,
                     next: Trace)
    ensures Hooks(Frame(input, body, outcome, after, next)) ==
            [OnEnter(input)] + (Hooks(body) + ([OnLeave(outcome, after)] + Hooks(next)))
  {
    Assoc([OnEnter(input)], Hooks(body), [OnLeave(outcome, after)]);
    Assoc([OnEnter(input)] + Hooks(body), [OnLeave(outcome, after)], Hooks(next));
    Assoc([OnEnter(input)], Hooks(body), [OnLeave(outcome, after)] + Hooks(next));
  }

  /** With `open` frames open, the hooks close exactly those and every frame they open. */
  predicate Balanced(hooks: seq<Hook>, open: nat)
  {
    if hooks == [] then open == 0 else
    match hooks[0]
    case OnStep(_) => Balanced(hooks[1..], open)
    case OnEnter(_) => Balanced(hooks[1..], open + 1)
    case OnLeave(_, _) => open > 0 && Balanced(hooks[1..], open - 1)
  }

  /** Splits a balanced run at the first end hook that closes a frame it did not open. */
  lemma {:induction false} Parse(hooks: seq<Hook>, open: nat) returns (t: Trace, rest: seq<Hook>)
    requires Balanced(hooks, open)
    ensures hooks == Hooks(t) + rest
    ensures Balanced(rest, open)
    ensures if open == 0 then rest == [] else rest != [] && rest[0].OnLeave?
    decreases |hooks|
  {
    if hooks == [] || hooks[0].OnLeave? {
      t, rest := Done, hooks;
      assert [] + hooks == hooks;
    } else {
      var first, later := hooks[0], hooks[1..];
      assert hooks == [first] + later;
      if first.OnStep? {
        t, rest := Parse(later, open);
        Assoc([first], Hooks(t), rest);
        t := Step(first.op, t);
      } else {
        var body, rest1 := Parse(later, open + 1);
        var leave := rest1[0];
        assert rest1 == [leave] + rest1[1..];
        t, rest := Parse(rest1[1..], open);
        HooksOfFrame(first.input, body, leave.outcome, leave.after, t);
        Regroup([first], Hooks(body), [leave], Hooks(t), rest);
        t := Frame(first.input, body, leave.outcome, leave.after, t);
      }
    }
  }

  /** Every balanced run is the hook sequence of a trace, so theorems on traces cover them all. */
  lemma BalancedRunIsTrace(hooks: seq<Hook>)
    requires Balanced(hooks, 0)
    ensures exists t :: Hooks(t) == hooks
  {
    var t, rest := Parse(hooks, 0);
    assert Hooks(t) + [] == Hooks(t);
  }

  /* ---------- What a trace does to the storage and to the vector of its frame ---------- */

  function Exec(t: Trace, st: Storage): (st': Storage)
  {
    match t
    case Done => st
    case Step(op, next) => Exec(next, Effect(st, op))
    case Frame(_, body, outcome, _, next) =>
      Exec(next, if outcome.Success? then Exec(body, st) else st)
  }

  function GrowStep(v: Vector, op: Op, depth: nat, present: Word): (r: Vector)
  {
    match op
    case SLoad(_, _) | SStore(_, _, _) => AppendStorageAccess(v, Observed(op, present), depth)
    case Inspect(_, _, _, _, _) => v + [InspectRecord(op, depth)]
    case Destruct(_, _, _, _, _) => if v == [] then v else v + [DestructRecord(op, depth)]
  }

  lemma GrowStepKeepsHead(v: Vector, op: Op, depth: nat, present: Word)
    requires v != []
    ensures var r := GrowStep(v, op, depth, present);
            r != [] && r[0].depth == v[0].depth && |r| >= |v|
  {}

  /** The vector of a frame running at `depth` after it executed `t`. */
  function Grow(v: Vector, t: Trace, st: Storage, depth: nat): (r: Vector)
    ensures v != [] ==> r != [] && r[0].depth == v[0].depth && |r| >= |v|
    decreases t
  {
    match t
    case Done => v
    case Step(op, next) =>
      assert v != [] ==> GrowStep(v, op, depth, Present(st, op)) != [] by {
        if v != [] { GrowStepKeepsHead(v, op, depth, Present(st, op)); }
      }
      Grow(GrowStep(v, op, depth, Present(st, op)), next, Effect(st, op), depth)
    case Frame(input, body, outcome, after, next) =>
      var child := Grow([Opening(input, depth)], body, st, depth + 1);
      Grow(v + Close(child, outcome, depth, after), next,
           if outcome.Success? then Exec(body, st) else st, depth)
  }

  /** The stack whose top vector is `v`; in the recording frame an empty vector is absent. */
  function Stacked(below: Stack, v: Vector): (s: Stack)
  {
    if v == [] then below else below + [v]
  }

  lemma StackedTop(below: Stack, v: Vector)
    requires v != []
    ensures Stacked(below, v) != []
    ensures Front(Stacked(below, v)) == below && Last(Stacked(below, v)) == v
  {}

  lemma StepTop(below: Stack, v: Vector, op: Op, depth: nat, present: Word)
    requires v == [] ==> below == []
    ensures StepStack(Stacked(below, v), op, depth, present) ==
            Stacked(below, GrowStep(v, op, depth, present))
  {
    if v != [] {
      StackedTop(below, v);
    } else {
      var w := GrowStep(v, op, depth, present);
      assert below + [w] == [w];
      if op.Inspect? {
        assert v + [InspectRecord(op, depth)] == [InspectRecord(op, depth)];
      }
    }
  }

  lemma LeaveTop(below: Stack, v: Vector, child: Vector, outcome: Outcome, depth: nat,
                 after: Aftermath)
    requires v == [] ==> below == []
    requires child != []
    ensures LeaveStack(Stacked(below, v) + [child], outcome, depth, after) ==
            Some(Stacked(below, v + Close(child, outcome, depth, after)))
  {
    var s := Stacked(below, v);
    assert Front(s + [child]) == s && Last(s + [child]) == child;
    if v != [] {
      StackedTop(below, v);
    } else {
      var closed := Close(child, outcome, depth, after);
      assert v + closed == closed && below + [closed] == [closed];
    }
  }

  /** Running a trace changes the storage and the top vector, and nothing else. */
  lemma {:induction false} RunTrace(m: Machine, t: Trace, below: Stack, v: Vector)
    requires m.stack == Stacked(below, v)
    requires v == [] ==> below == []
    ensures Run(m, Hooks(t)) ==
            Some(m.(storage := Exec(t, m.storage),
                    stack := Stacked(below, Grow(v, t, m.storage, m.depth))))
    decreases t, 0
  {
    match t
    case Done =>
    case Step(op, next) =>
      var stepped, grown := RunStep(m, op, next, below, v);
      RunTrace(stepped, next, below, grown);
    case Frame(input, body, outcome, after, next) =>
      var back, merged := RunFrame(m, input, body, outcome, after, next, below, v);
      RunTrace(back, next, below, merged);
  }

  /** Executing one recorded opcode. */
  lemma RunStep(m: Machine, op: Op, next: Trace, below: Stack, v: Vector)
      returns (stepped: Machine, grown: Vector)
    requires m.stack == Stacked(below, v)
    requires v == [] ==> below == []
    ensures grown == GrowStep(v, op, m.depth, Present(m.storage, op))
    ensures grown == [] ==> below == []
    ensures stepped == m.(storage := Effect(m.storage, op), stack := Stacked(below, grown))
    ensures Run(m, Hooks(Step(op, next))) == Run(stepped, Hooks(next))
  {
    var present := Present(m.storage, op);
    grown := GrowStep(v, op, m.depth, present);
    stepped := m.(storage := Effect(m.storage, op), stack := Stacked(below, grown));
    StepTop(below, v, op, m.depth, present);
    RunFirst(m, OnStep(op), Hooks(next));
    if v != [] {
      GrowStepKeepsHead(v, op, m.depth, present);
    }
  }

  /** Entering a frame, running its body and leaving it again. */
  lemma {:induction false} RunFrame(m: Machine, input: FrameInput, body: Trace, outcome: Outcome,
                                    after: Aftermath, next: Trace, below: Stack, v: Vector)
      returns (back: Machine, merged: Vector)
    requires m.stack == Stacked(below, v)
    requires v == [] ==> below == []
    ensures merged == v + Close(Grow([Opening(input, m.depth)], body, m.storage, m.depth + 1),
                                outcome, m.depth, after)
    ensures merged != []
    ensures back == m.(storage := if outcome.Success? then Exec(body, m.storage) else m.storage,
                       stack := Stacked(below, merged))
    ensures Run(m, Hooks(Frame(input, body, outcome, after, next))) == Run(back, Hooks(next))
    decreases body, 2
  {
    var inside, child, ended := RunBody(m, input, body);
    merged := v + Close(child, outcome, m.depth, after);
    back := LeaveFrame(m, below, v, child, ended.storage, outcome, after);
    RunBracket(m, OnEnter(input), inside, Hooks(body), ended, OnLeave(outcome, after),
               back, Hooks(next));
    HooksOfFrame(input, body, outcome, after, next);
  }

  /** Entering a frame and running its body: the vector it has grown is on top. */
  lemma {:induction false} RunBody(m: Machine, input: FrameInput, body: Trace)
      returns (inside: Machine, child: Vector, ended: Machine)
    ensures child == Grow([Opening(input, m.depth)], body, m.storage, m.depth + 1) && child != []
    ensures StepMachine(m, OnEnter(input)) == Some(inside)
    ensures Run(inside, Hooks(body)) == Some(ended)
    ensures ended == Machine(Exec(body, m.storage), m.checkpoints + [m.storage], m.depth + 1,
                             m.stack + [child])
    decreases body, 1
  {
    var opening := [Opening(input, m.depth)];
    inside := Machine(m.storage, m.checkpoints + [m.storage], m.depth + 1, m.stack + [opening]);
    RunTrace(inside, body, m.stack, opening);
    child := Grow(opening, body, m.storage, m.depth + 1);
    ended := inside.(storage := Exec(body, m.storage), stack := m.stack + [child]);
  }

  /** Leaving a frame whose vector is `child`, back to the frame whose vector is `v`. */
  lemma LeaveFrame(m: Machine, below: Stack, v: Vector, child: Vector, st: Storage,
                   outcome: Outcome, after: Aftermath) returns (back: Machine)
    requires m.stack == Stacked(below, v)
    requires v == [] ==> below == []
    requires child != []
    ensures back == m.(storage := if outcome.Success? then st else m.storage,
                       stack := Stacked(below, v + Close(child, outcome, m.depth, after)))
    ensures StepMachine(Machine(st, m.checkpoints + [m.storage], m.depth + 1, m.stack + [child]),
                        OnLeave(outcome, after)) == Some(back)
  {
    LeaveTop(below, v, child, outcome, m.depth, after);
    back := StepLeave(m, child, st, outcome, after,
                      Stacked(below, v + Close(child, outcome, m.depth, after)));
  }

  lemma StepLeave(m: Machine, child: Vector, st: Storage, outcome: Outcome, after: Aftermath,
                  left: Stack) returns (back: Machine)
    requires LeaveStack(m.stack + [child], outcome, m.depth, after) == Some(left)
    ensures back == m.(storage := if outcome.Success? then st else m.storage, stack := left)
    ensures StepMachine(Machine(st, m.checkpoints + [m.storage], m.depth + 1, m.stack + [child]),
                        OnLeave(outcome, after)) == Some(back)
  {
    PushFrontLast(m.checkpoints, m.storage);
    back := m.(storage := if outcome.Success? then st else m.storage, stack := left);
  }

  /** A bracketed run: an enter hook, a body, a leave hook, and the rest. */
  lemma RunBracket(m: Machine, enter: Hook, inside: Machine, body: seq<Hook>, ended: Machine,
                   leave: Hook, back: Machine, rest: seq<Hook>)
    requires StepMachine(m, enter) == Some(inside)
    requires Run(inside, body) == Some(ended)
    requires StepMachine(ended, leave) == Some(back)
    ensures Run(m, [enter] + (body + ([leave] + rest))) == Run(back, rest)
  {
    RunFirst(m, enter, body + ([leave] + rest));
    RunConcat(inside, body, [leave] + rest);
    RunFirst(ended, leave, rest);
  }

  /** A recording started at `depth`: everything recorded by the hooks of `t`, in order. */
  function Recorded(t: Trace, st: Storage, depth: nat): (v: Vector)
  {
    Grow([], t, st, depth)
  }

  /** The recorder never panics, and what `stopAndReturnStateDiff` flattens is `Recorded`. */
  lemma RecordingRun(t: Trace, st: Storage, checkpoints: seq<Storage>, depth: nat)
    ensures var r := Run(Machine(st, checkpoints, depth, []), Hooks(t));
            && r.Some?
            && r.value.storage == Exec(t, st)
            && r.value.checkpoints == checkpoints && r.value.depth == depth
            && Flat(r.value.stack) == Recorded(t, st, depth)
  {
    var m := Machine(st, checkpoints, depth, []);
    RunTrace(m, t, [], []);
    var v := Recorded(t, st, depth);
    var s := Stacked([], v);
    if v != [] {
      assert Front(s) == [] && Last(s) == v;
      assert Flat(s) == [] + v;
    }
  }
}
