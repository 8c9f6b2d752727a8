/**
 The recorder in the middle of a run, with any number of frames still open: which account records and
 which storage accesses it holds, in which order, and with which flags.
 */
module StateDiffOpenFrames {
  import opened Wrappers
  import opened StateDiffRecorder
  import opened StateDiffTrace
  import opened StateDiffMarking
  import opened StateDiffRecords
  import opened StateDiffFlags

  /* ---------- Nested runs are spines ---------- */

  /** With `open` frames open, no hook ends a frame that was not opened. */
  predicate Nested(hooks: seq<Hook>, open: nat)
  {
    if hooks == [] then true else
    match hooks[0]
    case OnStep(_) => Nested(hooks[1..], open)
    case OnEnter(_) => Nested(hooks[1..], open + 1)
    case OnLeave(_, _) => open > 0 && Nested(hooks[1..], open - 1)
  }

  /**
   A run that may stop inside frames: what the outermost frame has done so far, and then the frame
   it has opened and not ended, if any.
   */
  datatype Spine =
    | Top(done: Trace)
    | Inside(done: Trace, input: FrameInput, inner: Spine)

  function SpineHooks(sp: Spine): (hooks: seq<Hook>)
  {
    match sp
    case Top(t) => Hooks(t)
    case Inside(t, input, inner) => Hooks(t) + ([OnEnter(input)] + SpineHooks(inner))
  }

  function WithDone(sp: Spine, t: Trace): (sp': Spine)
  {
    match sp
    case Top(_) => Top(t)
    case Inside(_, input, inner) => Inside(t, input, inner)
  }

  lemma HooksAfterStep(op: Op, sp: Spine)
    ensures SpineHooks(WithDone(sp, Step(op, sp.done))) == [OnStep(op)] + SpineHooks(sp)
  {
    if sp.Inside? {
      Assoc([OnStep(op)], Hooks(sp.done), [OnEnter(sp.input)] + SpineHooks(sp.inner));
    }
  }

  lemma HooksAfterFrame(input: FrameInput, body: Trace, outcome: Outcome, after: Aftermath, sp: Spine)
    ensures SpineHooks(WithDone(sp, Frame(input, body, outcome, after, sp.done))) ==
            [OnEnter(input)] + (Hooks(body) + ([OnLeave(outcome, after)] + SpineHooks(sp)))
  {
    HooksOfFrame(input, body, outcome, after, sp.done);
    if sp.Inside? {
      var rest := [OnEnter(sp.input)] + SpineHooks(sp.inner);
      Assoc([OnLeave(outcome, after)], Hooks(sp.done), rest);
      Assoc(Hooks(body), [OnLeave(outcome, after)] + Hooks(sp.done), rest);
      Assoc([OnEnter(input)], Hooks(body) + ([OnLeave(outcome, after)] + Hooks(sp.done)), rest);
    }
  }

  /** Splits a nested run at the first end hook that closes a frame it did not open. */
  lemma {:induction false} ParseSpine(hooks: seq<Hook>, open: nat) returns (sp: Spine, rest: seq<Hook>)
    requires Nested(hooks, open)
    ensures hooks == SpineHooks(sp) + rest
    ensures rest != [] ==> open > 0 && sp.Top? && rest[0].OnLeave? && Nested(rest, open)
    decreases |hooks|, 0
  {
    if hooks == [] || hooks[0].OnLeave? {
      sp, rest := Top(Done), hooks;
      assert [] + hooks == hooks;
    } else {
      var first, later := hooks[0], hooks[1..];
      assert hooks == [first] + later;
      if first.OnStep? {
        sp, rest := ParseSpine(later, open);
        HooksAfterStep(first.op, sp);
        Assoc([first], SpineHooks(sp), rest);
        sp := WithDone(sp, Step(first.op, sp.done));
      } else {
        sp, rest := ParseFrame(first.input, later, open);
      }
    }
  }

  lemma {:induction false} ParseFrame(input: FrameInput, later: seq<Hook>, open: nat)
      returns (sp: Spine, rest: seq<Hook>)
    requires Nested(later, open + 1)
    ensures [OnEnter(input)] + later == SpineHooks(sp) + rest
    ensures rest != [] ==> open > 0 && sp.Top? && rest[0].OnLeave? && Nested(rest, open)
    decreases |later|, 1
  {
    var inner, rest1 := ParseSpine(later, open + 1);
    if rest1 == [] {
      sp, rest := Inside(Done, input, inner), [];
      assert SpineHooks(inner) + [] == SpineHooks(inner);
      assert [] + ([OnEnter(input)] + later) == [OnEnter(input)] + later;
      assert SpineHooks(sp) + [] == SpineHooks(sp);
    } else {
      var leave := rest1[0];
      assert rest1 == [leave] + rest1[1..];
      sp, rest := ParseSpine(rest1[1..], open);
      HooksAfterFrame(input, inner.done, leave.outcome, leave.after, sp);
      Regroup([OnEnter(input)], Hooks(inner.done), [leave], SpineHooks(sp), rest);
      sp := WithDone(sp, Frame(input, inner.done, leave.outcome, leave.after, sp.done));
    }
  }

  /** Every nested run is the hook sequence of a spine, so the theorems on spines cover them all. */
  lemma NestedRunIsSpine(hooks: seq<Hook>) returns (sp: Spine)
    requires Nested(hooks, 0)
    ensures SpineHooks(sp) == hooks
  {
    var rest;
    sp, rest := ParseSpine(hooks, 0);
    assert SpineHooks(sp) + [] == SpineHooks(sp);
  }

  /* ---------- What a spine leaves in the recorder ---------- */

  /** The vectors of the running frame and of the frames opened inside it, one after the other. */
  function SpineVector(v: Vector, sp: Spine, st: Storage, depth: nat): (r: Vector)
    decreases sp
  {
    match sp
    case Top(t) => Grow(v, t, st, depth)
    case Inside(t, input, inner) =>
      Grow(v, t, st, depth) + SpineVector([Opening(input, depth)], inner, Exec(t, st), depth + 1)
  }

  lemma FlatStacked(below: Stack, v: Vector)
    ensures Flat(Stacked(below, v)) == Flat(below) + v
  {
    if v != [] {
      StackedTop(below, v);
    }
  }

  /** What a frame has done: the machine then, and the vector it has grown. */
  lemma RunDone(m: Machine, t: Trace, below: Stack, v: Vector) returns (done: Machine, grown: Vector)
    requires m.stack == Stacked(below, v)
    requires v == [] ==> below == []
    ensures Run(m, Hooks(t)) == Some(done) && grown == Grow(v, t, m.storage, m.depth)
    ensures done.depth == m.depth && done.storage == Exec(t, m.storage)
    ensures Flat(done.stack) == Flat(below) + grown
  {
    RunTrace(m, t, below, v);
    grown := Grow(v, t, m.storage, m.depth);
    done := m.(storage := Exec(t, m.storage), stack := Stacked(below, grown));
    FlatStacked(below, grown);
  }

  lemma EnterFrame(done: Machine, input: FrameInput) returns (inside: Machine, opening: Vector)
    ensures opening == [Opening(input, done.depth)]
    ensures StepMachine(done, OnEnter(input)) == Some(inside)
    ensures inside.stack == Stacked(done.stack, opening)
    ensures inside.storage == done.storage && inside.depth == done.depth + 1
  {
    opening := [Opening(input, done.depth)];
    inside := Machine(done.storage, done.checkpoints + [done.storage], done.depth + 1,
                      done.stack + [opening]);
  }

  /** Running a nested run never panics, and flattens to the vectors of the open frames. */
  lemma {:induction false} RunSpine(m: Machine, sp: Spine, below: Stack, v: Vector) returns (m': Machine)
    requires m.stack == Stacked(below, v)
    requires v == [] ==> below == []
    ensures Run(m, SpineHooks(sp)) == Some(m')
    ensures Flat(m'.stack) == Flat(below) + SpineVector(v, sp, m.storage, m.depth)
    decreases sp, 0
  {
    var done, grown := RunDone(m, sp.done, below, v);
    match sp
    case Top(_) =>
      m' := done;
    case Inside(t, input, inner) =>
      var vector;
      m', vector := RunInside(done, input, inner);
      RunConcat(m, Hooks(t), [OnEnter(input)] + SpineHooks(inner));
      Assoc(Flat(below), grown, vector);
  }

  lemma {:induction false} RunInside(done: Machine, input: FrameInput, inner: Spine)
      returns (m': Machine, vector: Vector)
    ensures Run(done, [OnEnter(input)] + SpineHooks(inner)) == Some(m')
    ensures vector == SpineVector([Opening(input, done.depth)], inner, done.storage, done.depth + 1)
    ensures Flat(m'.stack) == Flat(done.stack) + vector
    decreases inner, 1
  {
    var inside, opening := EnterFrame(done, input);
    m' := RunSpine(inside, inner, done.stack, opening);
    vector := SpineVector(opening, inner, done.storage, done.depth + 1);
    RunFirst(done, OnEnter(input), SpineHooks(inner));
  }

  /* ---------- Against the trace ---------- */

  /**
   The account records of a spine: those of each open frame in turn. Inside what a frame has done the
   flags are handed down from the frames that have ended; the open frames hand down none.
   */
  function SpineRecords(sp: Spine, depth: nat, tail: Tail, owner: Option<AccountAccess>)
    : (hs: seq<AccountAccess>)
  {
    match sp
    case Top(t) => RecordLog(t, depth, tail, owner, false)
    case Inside(t, input, inner) =>
      var opening := Opening(input, depth);
      RecordLog(t, depth, tail, owner, false)
      + ([opening] + SpineRecords(inner, depth + 1, Entry, Some(opening)))
  }

  /** The storage accesses of a spine, in the same way. */
  function SpineStorage(sp: Spine, st: Storage, owned: bool): (sas: seq<StorageAccess>)
  {
    match sp
    case Top(t) => StorageLog(t, st, owned, false)
    case Inside(t, _, inner) =>
      StorageLog(t, st, owned, false) + SpineStorage(inner, Exec(t, st), true)
  }

  lemma OpeningFramed(input: FrameInput, depth: nat)
    ensures var opening := Opening(input, depth);
            && Framed([opening], depth + 1, Some(opening)) && TailOf([opening], true) == Entry
            && InFrame([opening], depth + 1, true)
            && Listed(false, [opening]) == [opening] && Accesses([opening]) == []
  {
    var opening := Opening(input, depth);
    assert Listed(false, [opening]) == [FlagHeader(false, Header(opening))] + Listed(false, []);
    AccessesPush([], opening);
    assert [] + [opening] == [opening];
  }

  lemma {:induction false} SpineRecordsOrder(v: Vector, sp: Spine, st: Storage, depth: nat,
                                             owner: Option<AccountAccess>)
    requires Framed(v, depth, owner)
    ensures Listed(false, SpineVector(v, sp, st, depth)) ==
            Listed(false, v) + SpineRecords(sp, depth, TailOf(v, owner.Some?), owner)
    decreases sp, 0
  {
    match sp
    case Top(t) =>
      RecordOrder(v, t, st, depth, owner, false);
    case Inside(t, input, inner) =>
      RecordOrder(v, t, st, depth, owner, false);
      var vector, records := InnerRecords(input, inner, Exec(t, st), depth);
      ListedConcat(false, Grow(v, t, st, depth), vector);
      Assoc(Listed(false, v), RecordLog(t, depth, TailOf(v, owner.Some?), owner, false), records);
  }

  lemma {:induction false} InnerRecords(input: FrameInput, inner: Spine, st: Storage, depth: nat)
      returns (vector: Vector, records: seq<AccountAccess>)
    ensures vector == SpineVector([Opening(input, depth)], inner, st, depth + 1)
    ensures records == [Opening(input, depth)]
                       + SpineRecords(inner, depth + 1, Entry, Some(Opening(input, depth)))
    ensures Listed(false, vector) == records
    decreases inner, 1
  {
    var opening := Opening(input, depth);
    vector := SpineVector([opening], inner, st, depth + 1);
    records := [opening] + SpineRecords(inner, depth + 1, Entry, Some(opening));
    OpeningFramed(input, depth);
    SpineRecordsOrder([opening], inner, st, depth + 1, Some(opening));
  }

  lemma {:induction false} SpineStorageOrder(v: Vector, sp: Spine, st: Storage, depth: nat, owned: bool)
    requires InFrame(v, depth, owned)
    ensures Accesses(SpineVector(v, sp, st, depth)) == Accesses(v) + SpineStorage(sp, st, owned)
    decreases sp, 0
  {
    match sp
    case Top(t) =>
      StorageOrder(v, t, st, depth, owned, false);
    case Inside(t, input, inner) =>
      StorageOrder(v, t, st, depth, owned, false);
      var vector, sas := InnerStorage(input, inner, Exec(t, st), depth);
      AccessesConcat(Grow(v, t, st, depth), vector);
      Assoc(Accesses(v), StorageLog(t, st, owned, false), sas);
  }

  lemma {:induction false} InnerStorage(input: FrameInput, inner: Spine, st: Storage, depth: nat)
      returns (vector: Vector, sas: seq<StorageAccess>)
    ensures vector == SpineVector([Opening(input, depth)], inner, st, depth + 1)
    ensures sas == SpineStorage(inner, st, true) && Accesses(vector) == sas
    decreases inner, 1
  {
    var opening := Opening(input, depth);
    vector := SpineVector([opening], inner, st, depth + 1);
    sas := SpineStorage(inner, st, true);
    OpeningFramed(input, depth);
    SpineStorageOrder([opening], inner, st, depth + 1, true);
  }

  /**
   A recording stopped at any moment, whatever frames are open. It has not panicked, and what it
   hands out are exactly the account records and the storage accesses of the run so far, in
   chronological order, each marked if and only if a recorded frame around it has already ended in a
   revert.
   */
  lemma OpenRecordingIsExact(st: Storage, checkpoints: seq<Storage>, base: nat, hooks: seq<Hook>)
      returns (sp: Spine)
    requires Nested(hooks, 0)
    ensures SpineHooks(sp) == hooks
    ensures var r := Run(Machine(st, checkpoints, base, []), hooks);
            && r.Some?
            && Listed(false, Flat(r.value.stack)) == SpineRecords(sp, base, Nothing, None)
            && Accesses(Flat(r.value.stack)) == SpineStorage(sp, st, false)
  {
    sp := NestedRunIsSpine(hooks);
    var m' := RunSpine(Machine(st, checkpoints, base, []), sp, [], []);
    assert Flat([]) + SpineVector([], sp, st, base) == SpineVector([], sp, st, base);
    SpineRecordsOrder([], sp, st, base, None);
    SpineStorageOrder([], sp, st, base, false);
  }

  /* ---------- Against a storage that runs without the recorder ---------- */

  /** Storage accesses without their flags, which an end hook may still change. */
  function Unmark(sas: seq<StorageAccess>): (r: seq<StorageAccess>)
  {
    if sas == [] then [] else [sas[0].(reverted := false)] + Unmark(sas[1..])
  }

  lemma {:induction false} UnmarkConcat(a: seq<StorageAccess>, b: seq<StorageAccess>)
    ensures Unmark(a + b) == Unmark(a) + Unmark(b)
  {
    if a == [] {
      assert a + b == b;
    } else {
      assert (a + b)[1..] == a[1..] + b;
      UnmarkConcat(a[1..], b);
      Assoc([a[0].(reverted := false)], Unmark(a[1..]), Unmark(b));
    }
  }

  /**
   The storage accesses in frames opened while recording, hook by hook as they happen, executed on a
   storage with checkpoints and nothing else; `open` counts those frames.
   */
  function Executed(st: Storage, checkpoints: seq<Storage>, open: nat, hooks: seq<Hook>)
    : (sas: seq<StorageAccess>)
    decreases |hooks|
  {
    if hooks == [] then [] else
    match hooks[0]
    case OnStep(op) =>
      Seen(op, Present(st, op), open > 0, false) + Executed(Effect(st, op), checkpoints, open, hooks[1..])
    case OnEnter(_) =>
      Executed(st, checkpoints + [st], open + 1, hooks[1..])
    case OnLeave(outcome, _) =>
      if checkpoints == [] || open == 0 then [] else
      Executed(if outcome.Success? then st else Last(checkpoints), Front(checkpoints), open - 1,
               hooks[1..])
  }

  lemma ExecutedStep(st: Storage, checkpoints: seq<Storage>, open: nat, op: Op, rest: seq<Hook>)
    ensures Executed(st, checkpoints, open, [OnStep(op)] + rest) ==
            Seen(op, Present(st, op), open > 0, false)
            + Executed(Effect(st, op), checkpoints, open, rest)
  {
    assert ([OnStep(op)] + rest)[1..] == rest;
  }

  lemma ExecutedEnter(st: Storage, checkpoints: seq<Storage>, open: nat, input: FrameInput,
                      rest: seq<Hook>)
    ensures Executed(st, checkpoints, open, [OnEnter(input)] + rest) ==
            Executed(st, checkpoints + [st], open + 1, rest)
  {
    assert ([OnEnter(input)] + rest)[1..] == rest;
  }

  lemma ExecutedLeave(st: Storage, before: Storage, checkpoints: seq<Storage>, open: nat,
                      outcome: Outcome, after: Aftermath, rest: seq<Hook>)
    ensures Executed(st, checkpoints + [before], open + 1, [OnLeave(outcome, after)] + rest) ==
            Executed(if outcome.Success? then st else before, checkpoints, open, rest)
  {
    PushFrontLast(checkpoints, before);
    assert ([OnLeave(outcome, after)] + rest)[1..] == rest;
  }

  lemma UnmarkSeen(op: Op, present: Word, owned: bool, up: bool)
    ensures Unmark(Seen(op, present, owned, up)) == Seen(op, present, owned, false)
  {
    var seen := Seen(op, present, owned, up);
    if seen != [] { assert seen[1..] == []; }
  }

  /** What a frame has done, executed; `up` only sets flags. */
  lemma {:induction false} ExecutedTrace(st: Storage, checkpoints: seq<Storage>, open: nat, t: Trace,
                                         up: bool, rest: seq<Hook>)
    ensures Executed(st, checkpoints, open, Hooks(t) + rest) ==
            Unmark(StorageLog(t, st, open > 0, up)) + Executed(Exec(t, st), checkpoints, open, rest)
    decreases t, 0
  {
    match t
    case Done =>
      assert [] + rest == rest;
    case Step(op, next) =>
      var log := StorageLog(next, Effect(st, op), open > 0, up);
      Assoc([OnStep(op)], Hooks(next), rest);
      ExecutedStep(st, checkpoints, open, op, Hooks(next) + rest);
      ExecutedTrace(Effect(st, op), checkpoints, open, next, up, rest);
      UnmarkSeen(op, Present(st, op), open > 0, up);
      UnmarkConcat(Seen(op, Present(st, op), open > 0, up), log);
      Assoc(Seen(op, Present(st, op), open > 0, false), Unmark(log),
            Executed(Exec(t, st), checkpoints, open, rest));
    case Frame(input, body, outcome, after, next) =>
      var st' := if outcome.Success? then Exec(body, st) else st;
      var inner := StorageLog(body, st, true, up || outcome.Revert?);
      var log := StorageLog(next, st', open > 0, up);
      HooksOfFrame(input, body, outcome, after, next);
      Regroup([OnEnter(input)], Hooks(body), [OnLeave(outcome, after)], Hooks(next), rest);
      ExecutedFrame(st, checkpoints, open, input, body, outcome, after, up, Hooks(next) + rest);
      ExecutedTrace(st', checkpoints, open, next, up, rest);
      UnmarkConcat(inner, log);
      Assoc(Unmark(inner), Unmark(log), Executed(Exec(t, st), checkpoints, open, rest));
  }

  lemma {:induction false} ExecutedFrame(
    st: Storage, checkpoints: seq<Storage>, open: nat, input: FrameInput, body: Trace,
    outcome: Outcome, after: Aftermath, up: bool, rest: seq<Hook>)
    ensures Executed(st, checkpoints, open,
                     [OnEnter(input)] + (Hooks(body) + ([OnLeave(outcome, after)] + rest))) ==
            Unmark(StorageLog(body, st, true, up || outcome.Revert?))
            + Executed(if outcome.Success? then Exec(body, st) else st, checkpoints, open, rest)
    decreases body, 1
  {
    ExecutedEnter(st, checkpoints, open, input, Hooks(body) + ([OnLeave(outcome, after)] + rest));
    ExecutedTrace(st, checkpoints + [st], open + 1, body, up || outcome.Revert?,
                  [OnLeave(outcome, after)] + rest);
    ExecutedLeave(Exec(body, st), st, checkpoints, open, outcome, after, rest);
  }

  lemma {:induction false} ExecutedSpine(st: Storage, checkpoints: seq<Storage>, open: nat, sp: Spine)
    ensures Executed(st, checkpoints, open, SpineHooks(sp)) == Unmark(SpineStorage(sp, st, open > 0))
    decreases sp
  {
    match sp
    case Top(t) =>
      ExecutedTrace(st, checkpoints, open, t, false, []);
      assert Hooks(t) + [] == Hooks(t);
      assert Unmark(StorageLog(t, st, open > 0, false)) + [] == Unmark(StorageLog(t, st, open > 0, false));
    case Inside(t, input, inner) =>
      var st' := Exec(t, st);
      ExecutedTrace(st, checkpoints, open, t, false, [OnEnter(input)] + SpineHooks(inner));
      ExecutedEnter(st', checkpoints, open, input, SpineHooks(inner));
      ExecutedSpine(st', checkpoints + [st'], open + 1, inner);
      UnmarkConcat(StorageLog(t, st, open > 0, false), SpineStorage(inner, st', true));
  }

  /** A recording stopped at any moment holds the storage accesses in the order of the hooks. */
  lemma RecordingIsChronological(st: Storage, checkpoints: seq<Storage>, base: nat, hooks: seq<Hook>)
    requires Nested(hooks, 0)
    ensures var r := Run(Machine(st, checkpoints, base, []), hooks);
            r.Some? && Unmark(Accesses(Flat(r.value.stack))) == Executed(st, checkpoints, 0, hooks)
  {
    var sp := OpenRecordingIsExact(st, checkpoints, base, hooks);
    ExecutedSpine(st, checkpoints, 0, sp);
  }

  /* ---------- Exactly when the recorder panics ---------- */

  /** A frame ends before any record was made. */
  predicate EndsUnrecorded(hooks: seq<Hook>)
  {
    hooks != [] &&
    match hooks[0]
    case OnStep(op) => !op.Inspect? && EndsUnrecorded(hooks[1..])
    case OnEnter(_) => false
    case OnLeave(_, _) => true
  }

  /** Some record has been made: the stack is not empty, and neither is any of its vectors. */
  predicate Occupied(s: Stack)
  {
    s != [] && forall i :: 0 <= i < |s| ==> s[i] != []
  }

  lemma OccupiedReplace(s: Stack, v: Vector)
    requires (forall i :: 0 <= i < |s| ==> s[i] != []) && v != []
    ensures Occupied(s + [v])
  {}

  lemma OccupiedLeave(s: Stack, outcome: Outcome, depth: nat, after: Aftermath)
    requires Occupied(s)
    ensures LeaveStack(s, outcome, depth, after).Some?
    ensures Occupied(LeaveStack(s, outcome, depth, after).value)
  {
    assert Last(s) != [];
    var closed, rest := Close(Last(s), outcome, depth, after), Front(s);
    if rest == [] {
      assert Occupied([closed]);
    } else {
      OccupiedReplace(Front(rest), Last(rest) + closed);
    }
  }

  lemma OccupiedStep(s: Stack, op: Op, depth: nat, present: Word)
    requires Occupied(s)
    ensures Occupied(StepStack(s, op, depth, present))
  {
    assert Last(s) != [];
    GrowStepKeepsHead(Last(s), op, depth, present);
    OccupiedReplace(Front(s), GrowStep(Last(s), op, depth, present));
  }

  lemma OccupiedHook(m: Machine, h: Hook) returns (m': Machine)
    requires Occupied(m.stack)
    requires h.OnLeave? ==> m.depth > 0 && m.checkpoints != []
    ensures StepMachine(m, h) == Some(m') && Occupied(m'.stack)
    ensures m'.depth == m.depth + (if h.OnEnter? then 1 else if h.OnLeave? then -1 else 0)
    ensures |m'.checkpoints| - m'.depth == |m.checkpoints| - m.depth
  {
    match h {
      case OnStep(op) =>
        OccupiedStep(m.stack, op, m.depth, Present(m.storage, op));
      case OnEnter(input) =>
        OccupiedReplace(m.stack, [Opening(input, m.depth)]);
      case OnLeave(outcome, after) =>
        OccupiedLeave(m.stack, outcome, m.depth - 1, after);
    }
    m' := StepMachine(m, h).value;
  }

  lemma {:induction false} OccupiedNeverPanics(m: Machine, hooks: seq<Hook>, open: nat)
    requires Occupied(m.stack) && Nested(hooks, open)
    requires open <= m.depth && open <= |m.checkpoints|
    ensures Run(m, hooks).Some?
    decreases |hooks|
  {
    if hooks != [] {
      var m' := OccupiedHook(m, hooks[0]);
      var open' := match hooks[0]
        case OnStep(_) => open
        case OnEnter(_) => open + 1
        case OnLeave(_, _) => open - 1;
      OccupiedNeverPanics(m', hooks[1..], open');
    }
  }

  /**
   A recording that may outlive frames opened before it, other than the root call: with `open` such
   frames on the call stack, the recorder panics if and only if one of them ends before any record
   was made.
   */
  lemma {:induction false} PanicsIff(m: Machine, hooks: seq<Hook>, open: nat)
    requires m.stack == [] && Nested(hooks, open)
    requires open < m.depth && open <= |m.checkpoints|
    ensures Run(m, hooks).None? <==> EndsUnrecorded(hooks)
    decreases |hooks|
  {
    if hooks != [] {
      match hooks[0]
      case OnLeave(_, _) =>
      case OnEnter(input) =>
        var m' := StepMachine(m, hooks[0]).value;
        OccupiedReplace([], [Opening(input, m.depth)]);
        OccupiedNeverPanics(m', hooks[1..], open + 1);
      case OnStep(op) =>
        var m' := StepMachine(m, hooks[0]).value;
        if op.Inspect? {
          OccupiedNeverPanics(m', hooks[1..], open);
        } else {
          PanicsIff(m', hooks[1..], open);
        }
    }
  }

  /** A helper that starts recording and returns before anything is recorded. */
  lemma EarlyReturnPanics(st: Storage, checkpoints: seq<Storage>, depth: nat)
    requires depth > 1 && checkpoints != []
    ensures Run(Machine(st, checkpoints, depth, []), [OnLeave(Success, NothingLoaded)]).None?
  {}
}
