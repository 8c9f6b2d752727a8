/**
 `pauseGasMetering`: a stack of paused gas values that keeps every frame's gas constant while
 metering is paused, however calls are nested.
 */
module GasPausing {
  import opened Wrappers

  datatype Gas = Gas(limit: nat, remaining: nat, refunded: int)

  function NewGas(limit: nat): (g: Gas)
  {
    Gas(limit, limit, 0)
  }

  function Spent(g: Gas): (n: int)
  {
    g.limit - g.remaining
  }

  datatype Metering = Metering(paused: bool, touched: bool, reset: bool, pausedFrames: seq<Gas>)

  const IDLE := Metering(false, false, false, [])

  /* ---------- The inspector's hooks and cheatcodes ---------- */

  function PauseMetering(m: Metering): (m': Metering)
  {
    m.(paused := true)
  }

  function ResumeMetering(m: Metering): (m': Metering)
  {
    m.(paused := false, touched := m.touched || m.paused, pausedFrames := [])
  }

  function ResetMetering(m: Metering): (m': Metering)
  {
    Metering(false, true, true, [])
  }

  function EnterFrame(m: Metering, gas: Gas): (m': Metering)
  {
    if m.paused then m.(pausedFrames := m.pausedFrames + [gas]) else m
  }

  /** The step hook: the new state and the gas the interpreter goes on with. */
  function BeforeOpcode(m: Metering, gas: Gas): (r: (Metering, Gas))
  {
    var m1 := if m.paused && m.pausedFrames == [] then m.(pausedFrames := [gas]) else m;
    var g1 := if m.paused then Last(m1.pausedFrames) else gas;
    (m1.(reset := false), if m.reset then NewGas(g1.limit) else g1)
  }

  /** The step_end hook, told whether the frame exits and with which gas. */
  function AfterOpcode(m: Metering, gas: Gas, exits: bool): (r: (Metering, Gas))
  {
    (if m.paused && exits && m.pausedFrames != [] then m.(pausedFrames := Front(m.pausedFrames))
     else m,
     if m.touched && exits && Spent(gas) < gas.refunded then NewGas(gas.limit) else gas)
  }

  class GasMeter {
    var paused: bool
    var touched: bool
    var reset: bool
    var pausedFrames: seq<Gas>

    ghost function State(): Metering
      reads this
    {
      Metering(paused, touched, reset, pausedFrames)
    }

    constructor ()
      ensures State() == IDLE
    {
      paused, touched, reset, pausedFrames := false, false, false, [];
    }

    method Pause()
      modifies this
      ensures State() == PauseMetering(old(State()))
    {
      paused := true;
    }

    method Resume()
      modifies this
      ensures State() == ResumeMetering(old(State()))
    {
      if paused {
        paused := false;
        touched := true;
      }
      pausedFrames := [];
    }

    method Reset()
      modifies this
      ensures State() == ResetMetering(old(State()))
    {
      paused := false;
      touched := true;
      reset := true;
      pausedFrames := [];
    }

    method InitializeInterp(gas: Gas)
      modifies this
      ensures State() == EnterFrame(old(State()), gas)
    {
      if paused {
        pausedFrames := pausedFrames + [gas];
      }
    }

    method Step(gas: Gas) returns (gas': Gas)
      modifies this
      ensures (State(), gas') == BeforeOpcode(old(State()), gas)
    {
      gas' := gas;
      if paused {
        if pausedFrames != [] {
          gas' := Last(pausedFrames);
        } else {
          pausedFrames := [gas];
        }
      }
      if reset {
        gas' := NewGas(gas'.limit);
        reset := false;
      }
    }

    method StepEnd(gas: Gas, exits: bool) returns (gas': Gas)
      modifies this
      ensures (State(), gas') == AfterOpcode(old(State()), gas, exits)
    {
      gas' := gas;
      if paused && exits && pausedFrames != [] {
        pausedFrames := Front(pausedFrames);
      }
      if touched && exits && Spent(gas) < gas.refunded {
        gas' := NewGas(gas.limit);
      }
    }
  }

  /* ---------- Runs ---------- */

  /**
   One event of a run. `Opcode` is a whole instruction of the running frame: the gas it finds,
   the gas it leaves, and whether it exits the frame. `Stopped` is an instruction that the `step`
   hook itself ends with a revert, as `expectSafeMemory` does: the instruction is not executed, the
   frame is over, and its `step_end` never comes.
   */
  datatype Event =
    | Pause | Resume | Reset
    | Enter(gas: Gas)
    | Opcode(gas: Gas, left: Gas, exits: bool)
    | Stopped(gas: Gas)

  /** The events at which the running frame reaches its `step` hook. */
  predicate Steps(e: Event)
  {
    e.Opcode? || e.Stopped?
  }

  function Apply(m: Metering, e: Event): (m': Metering)
  {
    match e
    case Pause => PauseMetering(m)
    case Resume => ResumeMetering(m)
    case Reset => ResetMetering(m)
    case Enter(gas) => EnterFrame(m, gas)
    case Opcode(gas, left, exits) => AfterOpcode(BeforeOpcode(m, gas).0, left, exits).0
    case Stopped(gas) => BeforeOpcode(m, gas).0
  }

  /** The gas each instruction of a run finds after its `step` hook. */
  function Observed(m: Metering, events: seq<Event>): (gs: seq<Gas>)
    decreases |events|
  {
    if events == [] then [] else
    (if Steps(events[0]) then [BeforeOpcode(m, events[0].gas).1] else [])
    + Observed(Apply(m, events[0]), events[1..])
  }

  /** Instructions are executed by some frame, with `open` frames on the call stack. */
  predicate WellNested(events: seq<Event>, open: nat)
    decreases |events|
  {
    if events == [] then true else
    match events[0]
    case Pause | Resume | Reset => WellNested(events[1..], open)
    case Enter(_) => WellNested(events[1..], open + 1)
    case Opcode(_, _, exits) =>
      open > 0 && WellNested(events[1..], if exits then open - 1 else open)
    case Stopped(_) => open > 0 && WellNested(events[1..], open - 1)
  }

  /** No frame is stopped by its `step` hook while metering is paused. */
  predicate EndsStep(events: seq<Event>, paused: bool)
    decreases |events|
  {
    if events == [] then true else
    match events[0]
    case Pause => EndsStep(events[1..], true)
    case Resume | Reset => EndsStep(events[1..], false)
    case Enter(_) | Opcode(_, _, _) => EndsStep(events[1..], paused)
    case Stopped(_) => !paused && EndsStep(events[1..], paused)
  }

  /* ---------- Reference: a gas cell for each frame ---------- */

  /**
   The reference gives every frame of the call stack a cell of its own, empty or holding the gas
   first seen for that frame in the current pause.
   */
  datatype Reference = Reference(paused: bool, reset: bool, cells: seq<Option<Gas>>)

  function Blank(n: nat): (cells: seq<Option<Gas>>)
    ensures |cells| == n
  {
    seq(n, i => None)
  }

  function Recall(r: Reference, gas: Gas): (g: Gas)
    requires r.cells != []
  {
    if r.paused && Last(r.cells).Some? then Last(r.cells).value else gas
  }

  function Refer(r: Reference, e: Event): (r': Reference)
    requires Steps(e) ==> r.cells != []
  {
    match e
    case Pause => r.(paused := true)
    case Resume => Reference(false, r.reset, Blank(|r.cells|))
    case Reset => Reference(false, true, Blank(|r.cells|))
    case Enter(gas) => r.(cells := r.cells + [if r.paused then Some(gas) else None])
    case Opcode(gas, _, exits) =>
      var mine := if r.paused then Some(Recall(r, gas)) else Last(r.cells);
      Reference(r.paused, false, Front(r.cells) + if exits then [] else [mine])
    case Stopped(_) => Reference(r.paused, false, Front(r.cells))
  }

  function Expected(r: Reference, events: seq<Event>): (gs: seq<Gas>)
    requires WellNested(events, |r.cells|)
    decreases |events|
  {
    if events == [] then [] else
    (if Steps(events[0])
     then [if r.reset then NewGas(Recall(r, events[0].gas).limit) else Recall(r, events[0].gas)]
     else [])
    + Expected(Refer(r, events[0]), events[1..])
  }

  /** The top of the paused stack belongs to the running frame, and so on downwards. */
  predicate Matches(m: Metering, r: Reference)
  {
    && m.paused == r.paused && m.reset == r.reset
    && |m.pausedFrames| <= |r.cells|
    && (!m.paused ==> m.pausedFrames == [])
    && forall i :: 0 <= i < |r.cells| ==>
         r.cells[i] == if i < |r.cells| - |m.pausedFrames| then None
                       else Some(m.pausedFrames[i - (|r.cells| - |m.pausedFrames|)])
  }

  lemma MatchesRecall(m: Metering, r: Reference, gas: Gas)
    requires Matches(m, r) && r.cells != []
    ensures BeforeOpcode(m, gas).1 ==
            if r.reset then NewGas(Recall(r, gas).limit) else Recall(r, gas)
  {
    assert r.cells[|r.cells| - 1] == Last(r.cells);
  }

  lemma MatchesEnter(m: Metering, r: Reference, gas: Gas)
    requires Matches(m, r)
    ensures Matches(Apply(m, Enter(gas)), Refer(r, Enter(gas)))
  {}

  /** After the `step` hook the running frame has its cell filled, if metering is paused. */
  lemma MatchesBefore(m: Metering, r: Reference, gas: Gas) returns (r': Reference)
    requires Matches(m, r) && r.cells != []
    ensures var mine := if r.paused then Some(Recall(r, gas)) else Last(r.cells);
            r' == Reference(r.paused, false, Front(r.cells) + [mine])
    ensures Matches(BeforeOpcode(m, gas).0, r')
  {
    assert r.cells[|r.cells| - 1] == Last(r.cells);
    r' := Reference(r.paused, false,
                    Front(r.cells) + [if r.paused then Some(Recall(r, gas)) else Last(r.cells)]);
  }

  /** An exit pops the running frame on both sides. */
  lemma MatchesAfter(m: Metering, r: Reference, left: Gas, exits: bool)
    requires Matches(m, r) && r.cells != []
    requires m.paused ==> m.pausedFrames != []
    ensures Matches(AfterOpcode(m, left, exits).0, if exits then r.(cells := Front(r.cells)) else r)
  {}

  lemma MatchesOpcode(m: Metering, r: Reference, gas: Gas, left: Gas, exits: bool)
    requires Matches(m, r) && r.cells != []
    ensures Matches(Apply(m, Opcode(gas, left, exits)), Refer(r, Opcode(gas, left, exits)))
  {
    var r' := MatchesBefore(m, r, gas);
    MatchesAfter(BeforeOpcode(m, gas).0, r', left, exits);
    PushFrontLast(Front(r.cells), Last(r'.cells));
    assert Front(r.cells) + [] == Front(r.cells);
  }

  lemma MatchesApply(m: Metering, r: Reference, e: Event)
    requires Matches(m, r) && !e.Stopped?
    requires e.Opcode? ==> r.cells != []
    ensures Matches(Apply(m, e), Refer(r, e))
  {
    match e
    case Pause =>
    case Resume =>
    case Reset =>
    case Enter(gas) => MatchesEnter(m, r, gas);
    case Opcode(gas, left, exits) => MatchesOpcode(m, r, gas, left, exits);
  }

  /** A frame that its `step` hook stops leaves the stack in order exactly when nothing is paused. */
  lemma MatchesStopped(m: Metering, r: Reference, gas: Gas)
    requires Matches(m, r) && r.cells != []
    ensures Matches(Apply(m, Stopped(gas)), Refer(r, Stopped(gas))) <==> !m.paused
  {
    var m', r' := Apply(m, Stopped(gas)), Refer(r, Stopped(gas));
    if m.paused && |m'.pausedFrames| <= |r'.cells| {
      // One gas value more than frames that have one: the lowest of them has no frame.
      assert r.cells[|r'.cells| - |m'.pausedFrames|] == r'.cells[|r'.cells| - |m'.pausedFrames|] == None;
    }
  }

  /** The stack of paused gas is the cells of the frames after every event of a run. */
  predicate AlwaysMatches(m: Metering, r: Reference, events: seq<Event>)
    requires WellNested(events, |r.cells|)
    decreases |events|
  {
    && Matches(m, r)
    && (events != [] ==> AlwaysMatches(Apply(m, events[0]), Refer(r, events[0]), events[1..]))
  }

  /**
   The top of the paused stack belongs to the running frame throughout a run if and only if no
   frame is stopped by its `step` hook while metering is paused.
   */
  lemma {:induction false} StackBelongsToFramesIff(m: Metering, r: Reference, events: seq<Event>)
    requires Matches(m, r) && WellNested(events, |r.cells|)
    ensures AlwaysMatches(m, r, events) <==> EndsStep(events, m.paused)
    decreases |events|
  {
    if events != [] {
      var e := events[0];
      if e.Stopped? {
        MatchesStopped(m, r, e.gas);
      } else {
        MatchesApply(m, r, e);
      }
      if !(e.Stopped? && m.paused) {
        StackBelongsToFramesIff(Apply(m, e), Refer(r, e), events[1..]);
      }
    }
  }

  /**
   In every run whose frames all end through `step_end` while metering is paused, each instruction
   executes with the gas that the per-frame cells prescribe: while metering is paused, the gas first
   recorded for its own frame in that pause.
   */
  lemma {:induction false} PausedStackIsPerFrame(m: Metering, r: Reference, events: seq<Event>)
    requires Matches(m, r)
    requires WellNested(events, |r.cells|) && EndsStep(events, m.paused)
    ensures Observed(m, events) == Expected(r, events)
    decreases |events|
  {
    if events != [] {
      if Steps(events[0]) {
        MatchesRecall(m, r, events[0].gas);
      }
      if events[0].Stopped? {
        MatchesStopped(m, r, events[0].gas);
      } else {
        MatchesApply(m, r, events[0]);
      }
      PausedStackIsPerFrame(Apply(m, events[0]), Refer(r, events[0]), events[1..]);
    }
  }

  lemma PausedRun(events: seq<Event>)
    requires WellNested(events, 0) && EndsStep(events, false)
    ensures Observed(IDLE, events) == Expected(Reference(false, false, []), events)
  {
    PausedStackIsPerFrame(IDLE, Reference(false, false, []), events);
  }

  /* ---------- One frame over one pause ---------- */

  function Run(m: Metering, events: seq<Event>): (m': Metering)
    decreases |events|
  {
    if events == [] then m else Run(Apply(m, events[0]), events[1..])
  }

  /**
   The running frame and its callees go on, the frame does not exit, callees end through `step_end`,
   and the pause is not ended.
   */
  predicate WithinFrame(events: seq<Event>, above: nat)
    decreases |events|
  {
    if events == [] then above == 0 else
    match events[0]
    case Pause => WithinFrame(events[1..], above)
    case Resume | Reset | Stopped(_) => false
    case Enter(_) => WithinFrame(events[1..], above + 1)
    case Opcode(_, _, exits) =>
      (exits ==> above > 0) && WithinFrame(events[1..], if exits then above - 1 else above)
  }

  lemma {:induction false} FramesBelowKept(m: Metering, events: seq<Event>, kept: seq<Gas>,
                                           above: nat)
    requires m.paused && !m.reset
    requires kept != [] && |m.pausedFrames| == |kept| + above && kept <= m.pausedFrames
    requires WithinFrame(events, above)
    ensures var m' := Run(m, events);
            m'.paused && !m'.reset && m'.pausedFrames == kept
    decreases |events|
  {
    if events != [] {
      var e := events[0];
      var m1 := Apply(m, e);
      var above1 := match e
        case Enter(_) => above + 1
        case Opcode(_, _, exits) => if exits then above - 1 else above
        case _ => above;
      assert m1.paused && !m1.reset && |m1.pausedFrames| == |kept| + above1;
      assert kept <= m1.pausedFrames;
      FramesBelowKept(m1, events[1..], kept, above1);
    }
  }

  /**
   Two instructions of one frame within one pause execute with the same gas, whatever the frame
   and its callees did in between and whatever gas the interpreter arrives with.
   */
  lemma PausedGasIsConstant(m: Metering, first: Event, between: seq<Event>, second: Event)
    requires m.paused && !m.reset
    requires first.Opcode? && !first.exits && second.Opcode?
    requires WithinFrame(between, 0)
    ensures BeforeOpcode(Run(Apply(m, first), between), second.gas).1 ==
            BeforeOpcode(m, first.gas).1
  {
    var m1 := Apply(m, first);
    FramesBelowKept(m1, between, m1.pausedFrames, 0);
  }

  /* ---------- A run in which the caller goes on with its callee's gas ---------- */

  /** A paused frame calls another, which its `step` hook stops, and goes on. */
  function LeakingRun(own: Gas, callee: Gas): (events: seq<Event>)
  {
    [Enter(own), Pause, Opcode(own, own, false), Enter(callee), Stopped(callee),
     Opcode(own, own, false)]
  }

  lemma ObservedFirst(m: Metering, e: Event, rest: seq<Event>)
    ensures Observed(m, [e] + rest) ==
            (if Steps(e) then [BeforeOpcode(m, e.gas).1] else []) + Observed(Apply(m, e), rest)
  {
    assert ([e] + rest)[1..] == rest;
  }

  lemma ExpectedFirst(r: Reference, e: Event, rest: seq<Event>)
    requires Steps(e) ==> r.cells != []
    requires WellNested(rest, |Refer(r, e).cells|)
    ensures WellNested([e] + rest, |r.cells|)
    ensures Expected(r, [e] + rest) ==
            (if !Steps(e) then []
             else if r.reset then [NewGas(Recall(r, e.gas).limit)] else [Recall(r, e.gas)])
            + Expected(Refer(r, e), rest)
  {
    assert ([e] + rest)[1..] == rest;
  }

  /** From the caller's first instruction on, the frame's own gas being the first one recorded. */
  lemma LeakAfterPause(own: Gas, callee: Gas)
    ensures var rest := [Enter(callee), Stopped(callee), Opcode(own, own, false)];
            && Observed(Metering(true, false, false, [own]), rest) == [callee, callee]
            && WellNested(rest, 1)
            && Expected(Reference(true, false, [Some(own)]), rest) == [callee, own]
  {
    var last := Opcode(own, own, false);
    var two, three := [Stopped(callee)] + [last], [Enter(callee)] + ([Stopped(callee)] + [last]);
    assert three == [Enter(callee), Stopped(callee), last] && [last] + [] == [last];
    ObservedFirst(Metering(true, false, false, [own]), Enter(callee), two);
    ObservedFirst(Metering(true, false, false, [own] + [callee]), Stopped(callee), [last]);
    ObservedFirst(Metering(true, false, false, [own] + [callee]), last, []);
    ExpectedFirst(Reference(true, false, [Some(own)]), last, []);
    assert Front([Some(own), Some(callee)]) == [Some(own)];
    ExpectedFirst(Reference(true, false, [Some(own), Some(callee)]), Stopped(callee), [last]);
    assert [Some(own)] + [Some(callee)] == [Some(own), Some(callee)];
    ExpectedFirst(Reference(true, false, [Some(own)]), Enter(callee), two);
  }

  lemma LeakObserved(own: Gas, first: Event, rest: seq<Event>)
    requires first == Opcode(own, own, false)
    ensures Observed(IDLE, [Enter(own)] + ([Pause] + ([first] + rest))) ==
            [own] + Observed(Metering(true, false, false, [own]), rest)
  {
    ObservedFirst(IDLE, Enter(own), [Pause] + ([first] + rest));
    ObservedFirst(IDLE, Pause, [first] + rest);
    ObservedFirst(IDLE.(paused := true), first, rest);
  }

  lemma LeakExpected(own: Gas, first: Event, rest: seq<Event>)
    requires first == Opcode(own, own, false) && WellNested(rest, 1)
    ensures WellNested([Enter(own)] + ([Pause] + ([first] + rest)), 0)
    ensures Expected(Reference(false, false, []), [Enter(own)] + ([Pause] + ([first] + rest))) ==
            [own] + Expected(Reference(true, false, [Some(own)]), rest)
  {
    var blank: seq<Option<Gas>> := [None];
    assert [] + blank == blank && Front(blank) + [Some(own)] == [Some(own)];
    ExpectedFirst(Reference(true, false, blank), first, rest);
    ExpectedFirst(Reference(false, false, blank), Pause, [first] + rest);
    ExpectedFirst(Reference(false, false, []), Enter(own), [Pause] + ([first] + rest));
  }

  /** The caller's last instruction executes with the callee's gas in place of its own. */
  lemma StoppedFrameLeaksGas(own: Gas, callee: Gas)
    ensures WellNested(LeakingRun(own, callee), 0)
    ensures Observed(IDLE, LeakingRun(own, callee)) == [own, callee, callee]
    ensures Expected(Reference(false, false, []), LeakingRun(own, callee)) == [own, callee, own]
  {
    var rest := [Enter(callee), Stopped(callee), Opcode(own, own, false)];
    var first := Opcode(own, own, false);
    assert LeakingRun(own, callee) == [Enter(own)] + ([Pause] + ([first] + rest));
    LeakAfterPause(own, callee);
    LeakObserved(own, first, rest);
    LeakExpected(own, first, rest);
  }
}
