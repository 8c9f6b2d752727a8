/**
 `startSnapshotGas` and `stopSnapshotGas`: a list of gas records, the marker of the active
 snapshot, and the metering of the gas spent by the instructions of the snapshotting frame.
 */
module GasSnapshots {
  import opened Wrappers
  import Bytes

  const U64_MAX: nat := Bytes.U64_MODULUS - 1

  datatype GasRecord = GasRecord(group: string, name: string, gasUsed: nat, depth: nat)

  datatype State = State(
    recording: bool,
    active: Option<(string, string)>,
    lastGasUsed: nat,
    records: seq<GasRecord>,
    snapshots: map<(string, string), nat>)

  const EMPTY := State(false, None, 0, [], map[])

  function SaturatingSub(a: nat, b: nat): (r: nat)
  {
    if a >= b then a - b else 0
  }

  function SaturatingAdd(a: nat, b: nat): (r: nat)
  {
    if a + b > U64_MAX then U64_MAX else a + b
  }

  /* ---------- Starting and stopping ---------- */

  datatype Error =
    | AlreadyStarted(group: string, name: string)
    | NotStarted(group: string, name: string)
    /** The source unwraps the active snapshot and panics when there is none. */
    | Panic

  /** Group and name of a new snapshot; `running` is the name of the running contract. */
  function DeriveName(running: string, group: Option<string>, name: Option<string>)
    : (id: (string, string))
  {
    (if group.Some? then group.value else running, if name.Some? then name.value else "default")
  }

  function Start(s: State, running: string, group: Option<string>, name: Option<string>, depth: nat)
    : (r: Result<State, Error>)
  {
    if s.active.Some? then Err(AlreadyStarted(s.active.value.0, s.active.value.1)) else
    var id := DeriveName(running, group, name);
    Ok(s.(records := s.records + [GasRecord(id.0, id.1, 0, depth)], active := Some(id),
          recording := true))
  }

  /** The index of the first record with the given group and name, or the number of records. */
  function Find(records: seq<GasRecord>, group: string, name: string): (i: nat)
    ensures i <= |records|
    ensures i < |records| ==> records[i].group == group && records[i].name == name
    ensures forall j :: 0 <= j < i ==> !(records[j].group == group && records[j].name == name)
  {
    if records == [] || (records[0].group == group && records[0].name == name) then 0
    else
      var i := Find(records[1..], group, name);
      assert forall j :: 1 <= j < i + 1 ==> records[j] == records[1..][j - 1];
      1 + i
  }

  /** The records that differ from the given group and also from the given name. */
  function Retain(records: seq<GasRecord>, group: string, name: string): (r: seq<GasRecord>)
  {
    if records == [] then []
    else (if records[0].group != group && records[0].name != name then [records[0]] else [])
         + Retain(records[1..], group, name)
  }

  /** The gas the cheatcode itself takes, which is not part of the measurement. */
  const OVERHEAD: nat := 171

  function Stop(s: State, group: Option<string>, name: Option<string>)
    : (r: Result<(State, nat), Error>)
  {
    if (group.None? || name.None?) && s.active.None? then Err(Panic) else
    var id := if group.Some? && name.Some? then (group.value, name.value) else s.active.value;
    var i := Find(s.records, id.0, id.1);
    if i == |s.records| then Err(NotStarted(id.0, id.1)) else
    var value := SaturatingSub(s.records[i].gasUsed, OVERHEAD);
    Ok((s.(snapshots := s.snapshots[id := value],
           recording := false,
           records := Retain(s.records, id.0, id.1),
           active := if s.active == Some(id) then None else s.active),
        value))
  }

  /** One instruction, at `depth`, that has spent `spent` gas in its frame when it starts. */
  function Meter(s: State, depth: nat, spent: nat, continues: bool): (s': State)
  {
    if !s.recording || !continues then s else MeterFrom(s, 0, depth, spent)
  }

  /** The loop over the records, from record `i` on. */
  function MeterFrom(s: State, i: nat, depth: nat, spent: nat): (s': State)
    requires i <= |s.records|
    ensures |s'.records| == |s.records|
    decreases |s.records| - i
  {
    if i == |s.records| then s
    else if s.records[i].depth != depth then MeterFrom(s, i + 1, depth, spent)
    else
      var r := s.records[i];
      var used := if s.lastGasUsed != 0
                  then SaturatingAdd(r.gasUsed, SaturatingSub(spent, s.lastGasUsed))
                  else r.gasUsed;
      MeterFrom(s.(records := s.records[i := r.(gasUsed := used)], lastGasUsed := spent),
                i + 1, depth, spent)
  }

  class SnapshotMeter {
    var recording: bool
    var active: Option<(string, string)>
    var lastGasUsed: nat
    var records: seq<GasRecord>
    var snapshots: map<(string, string), nat>

    ghost function Value(): State
      reads this
    {
      State(recording, active, lastGasUsed, records, snapshots)
    }

    constructor ()
      ensures Value() == EMPTY
    {
      recording, active, lastGasUsed, records, snapshots := false, None, 0, [], map[];
    }

    method StartSnapshot(running: string, group: Option<string>, name: Option<string>, depth: nat)
        returns (ok: bool)
      modifies this
      ensures var r := Start(old(Value()), running, group, name, depth);
              ok == r.Ok? && Value() == if ok then r.value else old(Value())
    {
      if active.Some? {
        return false;
      }
      var id := DeriveName(running, group, name);
      records := records + [GasRecord(id.0, id.1, 0, depth)];
      active := Some(id);
      recording := true;
      return true;
    }

    method StopSnapshot(group: Option<string>, name: Option<string>)
        returns (result: Result<nat, Error>)
      modifies this
      ensures var r := Stop(old(Value()), group, name);
              if r.Ok? then result == Ok(r.value.1) && Value() == r.value.0
              else result == Err(r.error) && Value() == old(Value())
    {
      if (group.None? || name.None?) && active.None? {
        return Err(Panic);
      }
      var id := if group.Some? && name.Some? then (group.value, name.value) else active.value;
      var i := Find(records, id.0, id.1);
      if i == |records| {
        return Err(NotStarted(id.0, id.1));
      }
      var value := SaturatingSub(records[i].gasUsed, OVERHEAD);
      snapshots := snapshots[id := value];
      recording := false;
      records := Retain(records, id.0, id.1);
      if active == Some(id) {
        active := None;
      }
      return Ok(value);
    }

    method MeterGasRecord(depth: nat, spent: nat, continues: bool)
      modifies this
      ensures Value() == Meter(old(Value()), depth, spent, continues)
    {
      if recording && continues {
        ghost var start := Value();
        for i := 0 to |records|
          invariant |records| == |start.records|
          invariant MeterFrom(Value(), i, depth, spent) == MeterFrom(start, 0, depth, spent)
        {
          if records[i].depth == depth {
            if lastGasUsed != 0 {
              var diff := SaturatingSub(spent, lastGasUsed);
              records := records[i := records[i].(gasUsed := SaturatingAdd(records[i].gasUsed, diff))];
            } else {
              assert records[i := records[i].(gasUsed := records[i].gasUsed)] == records;
            }
            lastGasUsed := spent;
          }
        }
      }
    }
  }

  /* ---------- At most one snapshot, in every run ---------- */

  datatype Event =
    | StartEvent(running: string, group: Option<string>, name: Option<string>, depth: nat)
    | StopEvent(group: Option<string>, name: Option<string>)
    | MeterEvent(depth: nat, spent: nat, continues: bool)

  function Apply(s: State, e: Event): (s': State)
  {
    match e
    case StartEvent(running, group, name, depth) =>
      var r := Start(s, running, group, name, depth);
      if r.Ok? then r.value else s
    case StopEvent(group, name) =>
      var r := Stop(s, group, name);
      if r.Ok? then r.value.0 else s
    case MeterEvent(depth, spent, continues) => Meter(s, depth, spent, continues)
  }

  function Run(s: State, events: seq<Event>): (s': State)
    decreases |events|
  {
    if events == [] then s else Run(Apply(s, events[0]), events[1..])
  }

  /** Recording, having an active snapshot and holding just its record are the same thing. */
  predicate OneSnapshot(s: State)
  {
    && (s.recording <==> s.active.Some?)
    && (s.active.None? ==> s.records == [])
    && (s.active.Some? ==> |s.records| == 1 && s.records[0].group == s.active.value.0
                           && s.records[0].name == s.active.value.1)
  }

  lemma {:induction false} MeterKeepsNames(s: State, i: nat, depth: nat, spent: nat)
    requires i <= |s.records|
    ensures var s' := MeterFrom(s, i, depth, spent);
            && s'.recording == s.recording && s'.active == s.active
            && forall j :: 0 <= j < |s.records| ==>
                 s'.records[j].group == s.records[j].group && s'.records[j].name == s.records[j].name
    decreases |s.records| - i
  {
    if i < |s.records| {
      var r := s.records[i];
      if r.depth != depth {
        MeterKeepsNames(s, i + 1, depth, spent);
      } else {
        var used := if s.lastGasUsed != 0
                    then SaturatingAdd(r.gasUsed, SaturatingSub(spent, s.lastGasUsed))
                    else r.gasUsed;
        MeterKeepsNames(s.(records := s.records[i := r.(gasUsed := used)], lastGasUsed := spent),
                        i + 1, depth, spent);
      }
    }
  }

  lemma RetainNothing(r: GasRecord)
    ensures Retain([r], r.group, r.name) == []
  {
    assert [r][1..] == [];
  }

  lemma ApplyKeepsOneSnapshot(s: State, e: Event)
    requires OneSnapshot(s)
    ensures OneSnapshot(Apply(s, e))
  {
    if e.StopEvent? && s.records != [] {
      assert s.records == [s.records[0]];
      RetainNothing(s.records[0]);
    } else if e.MeterEvent? {
      MeterKeepsNames(s, 0, e.depth, e.spent);
    }
  }

  lemma {:induction false} AlwaysOneSnapshot(s: State, events: seq<Event>)
    requires OneSnapshot(s)
    ensures OneSnapshot(Run(s, events))
    decreases |events|
  {
    if events != [] {
      ApplyKeepsOneSnapshot(s, events[0]);
      AlwaysOneSnapshot(Apply(s, events[0]), events[1..]);
    }
  }

  /**
   In every reachable state the broad removal of `stopSnapshotGas` removes the one record of the
   active snapshot: a stop succeeds exactly when a snapshot is active and is not asked for another
   one, and leaves nothing behind.
   */
  lemma StopEndsTheActiveSnapshot(events: seq<Event>, group: Option<string>, name: Option<string>)
    ensures var s := Run(EMPTY, events);
            var r := Stop(s, group, name);
            && (r.Ok? <==>
                s.active.Some? && (group.Some? && name.Some? ==>
                                   s.active.value == (group.value, name.value)))
            && (r.Ok? ==>
                && r.value.0.records == [] && r.value.0.active.None? && !r.value.0.recording
                && s.active.value in r.value.0.snapshots
                && r.value.0.snapshots[s.active.value] == r.value.1
                && r.value.1 == SaturatingSub(s.records[0].gasUsed, OVERHEAD))
  {
    var s := Run(EMPTY, events);
    AlwaysOneSnapshot(EMPTY, events);
    ApplyKeepsOneSnapshot(s, StopEvent(group, name));
    if s.active.Some? {
      assert Find(s.records, s.active.value.0, s.active.value.1) == 0;
    }
  }

  /* ---------- What a snapshot measures ---------- */

  function Meters(s: State, depth: nat, spents: seq<nat>): (s': State)
    decreases |spents|
  {
    if spents == [] then s else Meters(Meter(s, depth, spents[0], true), depth, spents[1..])
  }

  predicate NonDecreasing(spents: seq<nat>)
  {
    forall i, j :: 0 <= i < j < |spents| ==> spents[i] <= spents[j]
  }

  /** The gas counted from: the first instruction, or the last one an earlier snapshot metered. */
  function Baseline(s: State, first: nat): (b: nat)
  {
    if s.lastGasUsed != 0 && s.lastGasUsed < first then s.lastGasUsed else first
  }

  lemma MeterOne(s: State, depth: nat, spent: nat)
    requires OneSnapshot(s) && s.recording && s.records[0].depth == depth
    ensures var r := s.records[0];
            var used := if s.lastGasUsed != 0
                        then SaturatingAdd(r.gasUsed, SaturatingSub(spent, s.lastGasUsed))
                        else r.gasUsed;
            Meter(s, depth, spent, true) ==
            s.(records := [r.(gasUsed := used)], lastGasUsed := spent)
  {
    var r := s.records[0];
    var used := if s.lastGasUsed != 0
                then SaturatingAdd(r.gasUsed, SaturatingSub(spent, s.lastGasUsed))
                else r.gasUsed;
    assert s.records[0 := r.(gasUsed := used)] == [r.(gasUsed := used)];
    var s1 := s.(records := s.records[0 := r.(gasUsed := used)], lastGasUsed := spent);
    assert MeterFrom(s1, 1, depth, spent) == s1;
  }

  /**
   The gas counted between readings: every rise from a reading that is not zero. A reading of zero
   stands for none.
   */
  function Rises(last: nat, spents: seq<nat>): (n: nat)
    decreases |spents|
  {
    if spents == [] then 0
    else (if last != 0 then SaturatingSub(spents[0], last) else 0) + Rises(spents[0], spents[1..])
  }

  /** Whatever the readings, the record grows by the sum of their rises, up to the largest word. */
  lemma {:induction false} GasIsSumOfRises(s: State, depth: nat, spents: seq<nat>)
    requires OneSnapshot(s) && s.recording && s.records[0].depth == depth
    requires s.records[0].gasUsed <= U64_MAX
    ensures var s' := Meters(s, depth, spents);
            && |s'.records| == 1
            && s'.records[0].gasUsed == SaturatingAdd(s.records[0].gasUsed, Rises(s.lastGasUsed, spents))
    decreases |spents|
  {
    if spents != [] {
      MeterOne(s, depth, spents[0]);
      GasIsSumOfRises(Meter(s, depth, spents[0], true), depth, spents[1..]);
    }
  }

  /** Readings that never fall: the rises telescope to the last reading minus the baseline. */
  lemma {:induction false} RisesTelescope(last: nat, spents: seq<nat>)
    requires spents != [] && NonDecreasing(spents) && spents[0] > 0
    ensures Rises(last, spents) ==
            Last(spents) - (if last != 0 && last < spents[0] then last else spents[0])
    decreases |spents|
  {
    var rest := spents[1..];
    if rest == [] {
      assert Rises(spents[0], rest) == 0;
    } else {
      assert rest[0] == spents[1] && Last(rest) == Last(spents);
      assert spents[0] <= spents[1];
      assert NonDecreasing(rest);
      RisesTelescope(spents[0], rest);
    }
  }

  /**
   Over the instructions of one frame whose readings never fall the record grows by the telescoped
   difference between the last gas spent and the baseline.
   */
  lemma GasTelescopes(s: State, depth: nat, spents: seq<nat>)
    requires OneSnapshot(s) && s.recording && s.records[0].depth == depth
    requires s.records[0].gasUsed <= U64_MAX
    requires spents != [] && NonDecreasing(spents) && spents[0] > 0
    ensures var s' := Meters(s, depth, spents);
            && |s'.records| == 1
            && s'.records[0].gasUsed ==
               SaturatingAdd(s.records[0].gasUsed, Last(spents) - Baseline(s, spents[0]))
  {
    GasIsSumOfRises(s, depth, spents);
    RisesTelescope(s.lastGasUsed, spents);
  }

  /**
   A new snapshot counts exactly the rises of its own readings, from the first metered one on, if
   and only if no smaller reading is left over from an earlier snapshot, or the count has reached
   the largest word anyway: starting a snapshot does not clear the reading.
   */
  lemma SnapshotMeasuresOwnGas(s: State, running: string, group: Option<string>,
                               name: Option<string>, depth: nat, spents: seq<nat>)
    requires OneSnapshot(s) && s.active.None? && spents != []
    ensures var started := Start(s, running, group, name, depth).value;
            var metered := Meters(started, depth, spents);
            var own := Rises(0, spents);
            && |metered.records| == 1
            && (metered.records[0].gasUsed == SaturatingAdd(0, own) <==>
                s.lastGasUsed == 0 || s.lastGasUsed >= spents[0] || own >= U64_MAX)
  {
    var started := Start(s, running, group, name, depth).value;
    ApplyKeepsOneSnapshot(s, StartEvent(running, group, name, depth));
    GasIsSumOfRises(started, depth, spents);
  }

  /** A second snapshot in one frame also counts the gas spent between the two. */
  lemma LeftoverReadingIsCounted()
    ensures var s1 := Run(EMPTY, [StartEvent("T", None, Some("a"), 1), MeterEvent(1, 1000, true),
                                  StopEvent(None, None), StartEvent("T", None, Some("b"), 1),
                                  MeterEvent(1, 5000, true)]);
            s1.records == [GasRecord("T", "b", 4000, 1)]
  {
    var s1 := Apply(EMPTY, StartEvent("T", None, Some("a"), 1));
    assert s1 == State(true, Some(("T", "a")), 0, [GasRecord("T", "a", 0, 1)], map[]);
    MeterOne(s1, 1, 1000);
    var s2 := Apply(s1, MeterEvent(1, 1000, true));
    ApplyKeepsOneSnapshot(s2, StopEvent(None, None));
    var s3 := Apply(s2, StopEvent(None, None));
    assert s3.lastGasUsed == 1000 && s3.active.None?;
    var s4 := Apply(s3, StartEvent("T", None, Some("b"), 1));
    assert s4.records == [GasRecord("T", "b", 0, 1)];
    MeterOne(s4, 1, 5000);
    var events := [StartEvent("T", None, Some("a"), 1), MeterEvent(1, 1000, true),
                   StopEvent(None, None), StartEvent("T", None, Some("b"), 1),
                   MeterEvent(1, 5000, true)];
    RunFive(EMPTY, events[0], events[1], events[2], events[3], events[4]);
  }

  /** Stopping by name alone ends the active snapshot, whatever it is called. */
  lemma StopIgnoresLoneName()
    ensures var s := Run(EMPTY, [StartEvent("T", None, Some("a"), 1)]);
            var r := Stop(s, None, Some("b"));
            && r.Ok? && r.value.0.active.None?
            && ("T", "a") in r.value.0.snapshots && ("T", "b") !in r.value.0.snapshots
  {
    var start := StartEvent("T", None, Some("a"), 1);
    RunFirst(EMPTY, start, []);
    assert [start] + [] == [start];
    StopEndsTheActiveSnapshot([start], None, Some("b"));
  }

  lemma RunFive(s: State, a: Event, b: Event, c: Event, d: Event, e: Event)
    ensures Run(s, [a, b, c, d, e]) == Apply(Apply(Apply(Apply(Apply(s, a), b), c), d), e)
  {
    RunFirst(s, a, [b, c, d, e]);
    RunFirst(Apply(s, a), b, [c, d, e]);
    RunFirst(Apply(Apply(s, a), b), c, [d, e]);
    RunFirst(Apply(Apply(Apply(s, a), b), c), d, [e]);
    RunFirst(Apply(Apply(Apply(Apply(s, a), b), c), d), e, []);
    assert [a] + [b, c, d, e] == [a, b, c, d, e];
    assert [b] + [c, d, e] == [b, c, d, e];
    assert [c] + [d, e] == [c, d, e];
    assert [d] + [e] == [d, e];
    assert [e] + [] == [e];
  }

  lemma RunFirst(s: State, e: Event, rest: seq<Event>)
    ensures Run(s, [e] + rest) == Run(Apply(s, e), rest)
  {
    assert ([e] + rest)[1..] == rest;
  }
}
