/**
 The per-slot summary that `getStateDiff` builds from the recorded accesses, and its relation to
 what the run really did to the storage.
 */
module StateDiffSummary {
  import opened Wrappers
  import opened StateDiffRecorder
  import opened StateDiffTrace
  import opened StateDiffMarking
  import opened StateDiffFlags

  datatype SlotStateDiff = SlotStateDiff(previousValue: Word, newValue: Word)

  datatype BalanceDiff = BalanceDiff(previousValue: Word, newValue: Word)

  datatype AccountStateDiffs = AccountStateDiffs(
    name: Option<string>, balanceDiff: Option<BalanceDiff>, stateDiff: map<Word, SlotStateDiff>)

  type Diffs = map<Address, AccountStateDiffs>
  type Labels = map<Address, string>

  /* ---------- Building the summary ---------- */

  /** The entry of an account, created with its label when it is missing. */
  function EntryFor(diffs: Diffs, labels: Labels, account: Address): (d: AccountStateDiffs)
  {
    if account in diffs then diffs[account]
    else AccountStateDiffs(if account in labels then Some(labels[account]) else None, None, map[])
  }

  function AddBalance(diffs: Diffs, labels: Labels, r: AccountAccess): (diffs': Diffs)
  {
    if r.oldBalance == r.newBalance then diffs else
    var d := EntryFor(diffs, labels, r.account);
    var first := if d.balanceDiff.Some? then d.balanceDiff.value.previousValue else r.oldBalance;
    diffs[r.account := d.(balanceDiff := Some(BalanceDiff(first, r.newBalance)))]
  }

  function AddSlot(diffs: Diffs, labels: Labels, sa: StorageAccess): (diffs': Diffs)
  {
    if !sa.isWrite || sa.reverted then diffs else
    var d := EntryFor(diffs, labels, sa.account);
    var first := if sa.slot in d.stateDiff then d.stateDiff[sa.slot].previousValue
                 else sa.previousValue;
    diffs[sa.account := d.(stateDiff := d.stateDiff[sa.slot := SlotStateDiff(first, sa.newValue)])]
  }

  function AddSlots(diffs: Diffs, labels: Labels, sas: seq<StorageAccess>): (diffs': Diffs)
    decreases |sas|
  {
    if sas == [] then diffs else AddSlots(AddSlot(diffs, labels, sas[0]), labels, sas[1..])
  }

  function Summarise(diffs: Diffs, labels: Labels, v: Vector): (diffs': Diffs)
    decreases |v|
  {
    if v == [] then diffs
    else Summarise(AddSlots(AddBalance(diffs, labels, v[0]), labels, v[0].storageAccesses),
                   labels, v[1..])
  }

  lemma {:induction false} AddSlotsSnoc(diffs: Diffs, labels: Labels, sas: seq<StorageAccess>,
                                        sa: StorageAccess)
    ensures AddSlots(diffs, labels, sas + [sa]) == AddSlot(AddSlots(diffs, labels, sas), labels, sa)
    decreases |sas|
  {
    if sas == [] {
      assert (sas + [sa])[1..] == [];
    } else {
      assert (sas + [sa])[1..] == sas[1..] + [sa];
      AddSlotsSnoc(AddSlot(diffs, labels, sas[0]), labels, sas[1..], sa);
    }
  }

  lemma {:induction false} SummariseSnoc(diffs: Diffs, labels: Labels, v: Vector, r: AccountAccess)
    ensures Summarise(diffs, labels, v + [r]) ==
            AddSlots(AddBalance(Summarise(diffs, labels, v), labels, r), labels, r.storageAccesses)
    decreases |v|
  {
    if v == [] {
      assert (v + [r])[1..] == [];
    } else {
      assert (v + [r])[1..] == v[1..] + [r];
      SummariseSnoc(AddSlots(AddBalance(diffs, labels, v[0]), labels, v[0].storageAccesses),
                    labels, v[1..], r);
    }
  }

  method GetRecordedStateDiffs(recorded: Option<Stack>, labels: Labels) returns (diffs: Diffs)
    ensures diffs == if recorded.None? then map[]
                     else Summarise(map[], labels, Flat(recorded.value))
  {
    diffs := map[];
    if recorded.None? {
      return;
    }
    var records := Flat(recorded.value);
    for i := 0 to |records|
      invariant diffs == Summarise(map[], labels, records[..i])
    {
      var r := records[i];
      ghost var before := diffs;
      if r.storageAccesses != [] || r.oldBalance != r.newBalance {
        if r.oldBalance != r.newBalance {
          var d := EntryFor(diffs, labels, r.account);
          if d.balanceDiff.Some? {
            d := d.(balanceDiff := Some(d.balanceDiff.value.(newValue := r.newBalance)));
          } else {
            d := d.(balanceDiff := Some(BalanceDiff(r.oldBalance, r.newBalance)));
          }
          diffs := diffs[r.account := d];
        }
        assert diffs == AddBalance(before, labels, r);
        diffs := AddStorageDiffs(diffs, labels, r.storageAccesses);
      }
      SummariseSnoc(map[], labels, records[..i], r);
      assert records[..i] + [r] == records[..i + 1];
    }
    assert records[..|records|] == records;
  }

  /** The inner loop: one account access's storage accesses. */
  method AddStorageDiffs(start: Diffs, labels: Labels, sas: seq<StorageAccess>)
      returns (diffs: Diffs)
    ensures diffs == AddSlots(start, labels, sas)
  {
    diffs := start;
    for k := 0 to |sas|
      invariant diffs == AddSlots(start, labels, sas[..k])
    {
      var sa := sas[k];
      ghost var before := diffs;
      if sa.isWrite && !sa.reverted {
        var d := EntryFor(diffs, labels, sa.account);
        if sa.slot !in d.stateDiff {
          d := d.(stateDiff := d.stateDiff[sa.slot := SlotStateDiff(sa.previousValue, sa.newValue)]);
        } else {
          var slot := d.stateDiff[sa.slot];
          d := d.(stateDiff := d.stateDiff[sa.slot := slot.(newValue := sa.newValue)]);
        }
        diffs := diffs[sa.account := d];
      }
      assert diffs == AddSlot(before, labels, sa);
      AddSlotsSnoc(start, labels, sas[..k], sa);
      assert sas[..k] + [sa] == sas[..k + 1];
    }
    assert sas[..|sas|] == sas;
  }

  /* ---------- One slot of the summary ---------- */

  function SlotOf(diffs: Diffs, k: Key): (d: Option<SlotStateDiff>)
  {
    if k.account in diffs && k.slot in diffs[k.account].stateDiff
    then Some(diffs[k.account].stateDiff[k.slot]) else None
  }

  predicate IsLive(sa: StorageAccess, k: Key)
  {
    sa.isWrite && !sa.reverted && sa.account == k.account && sa.slot == k.slot
  }

  /** The unmarked writes to a slot. */
  function Live(sas: seq<StorageAccess>, k: Key): (live: seq<StorageAccess>)
  {
    if sas == [] then []
    else (if IsLive(sas[0], k) then [sas[0]] else []) + Live(sas[1..], k)
  }

  lemma {:induction false} LiveConcat(a: seq<StorageAccess>, b: seq<StorageAccess>, k: Key)
    ensures Live(a + b, k) == Live(a, k) + Live(b, k)
  {
    if a == [] {
      assert a + b == b;
    } else {
      assert (a + b)[1..] == a[1..] + b;
      LiveConcat(a[1..], b, k);
      Assoc(if IsLive(a[0], k) then [a[0]] else [], Live(a[1..], k), Live(b, k));
    }
  }

  /** The first previous value and the last new value of some writes, after what is known. */
  function Extend(known: Option<SlotStateDiff>, live: seq<StorageAccess>): (d: Option<SlotStateDiff>)
  {
    if live == [] then known else
    Some(SlotStateDiff(if known.Some? then known.value.previousValue else live[0].previousValue,
                       Last(live).newValue))
  }

  lemma ExtendTwice(known: Option<SlotStateDiff>, a: seq<StorageAccess>, b: seq<StorageAccess>)
    ensures Extend(Extend(known, a), b) == Extend(known, a + b)
  {
    if b == [] {
      assert a + b == a;
    } else {
      assert Last(a + b) == Last(b);
    }
  }

  lemma {:induction false} SlotOfAddSlots(diffs: Diffs, labels: Labels, sas: seq<StorageAccess>,
                                          k: Key)
    ensures SlotOf(AddSlots(diffs, labels, sas), k) == Extend(SlotOf(diffs, k), Live(sas, k))
    decreases |sas|
  {
    if sas != [] {
      var one := if IsLive(sas[0], k) then [sas[0]] else [];
      assert SlotOf(AddSlot(diffs, labels, sas[0]), k) == Extend(SlotOf(diffs, k), one);
      SlotOfAddSlots(AddSlot(diffs, labels, sas[0]), labels, sas[1..], k);
      ExtendTwice(SlotOf(diffs, k), one, Live(sas[1..], k));
    }
  }

  /** A slot of the summary is the first previous and last new value of its unmarked writes. */
  lemma {:induction false} SlotOfSummary(diffs: Diffs, labels: Labels, v: Vector, k: Key)
    ensures SlotOf(Summarise(diffs, labels, v), k) == Extend(SlotOf(diffs, k), Live(Accesses(v), k))
    decreases |v|
  {
    if v != [] {
      var diffs1 := AddBalance(diffs, labels, v[0]);
      var diffs2 := AddSlots(diffs1, labels, v[0].storageAccesses);
      assert SlotOf(diffs1, k) == SlotOf(diffs, k);
      SlotOfAddSlots(diffs1, labels, v[0].storageAccesses, k);
      SlotOfSummary(diffs2, labels, v[1..], k);
      ExtendTwice(SlotOf(diffs, k), Live(v[0].storageAccesses, k), Live(Accesses(v[1..]), k));
      LiveConcat(v[0].storageAccesses, Accesses(v[1..]), k);
    }
  }

  /* ---------- Replaying the run ---------- */

  /** The frame in which recording was started does not store to the slot itself. */
  predicate NoOwnStore(t: Trace, k: Key)
  {
    match t
    case Done => true
    case Step(op, next) => !(op.SStore? && KeyOf(op) == k) && NoOwnStore(next, k)
    case Frame(_, _, _, _, next) => NoOwnStore(next, k)
  }

  /**
   The last unmarked write to a slot: there is none; it was kept; or it was a phantom, undone by
   an exceptional halt that put back the value `before`.
   */
  datatype LastWrite = NoWrite | Kept(value: Word) | Phantom(value: Word, before: Word)

  function LastLive(t: Trace, st: Storage, k: Key, owned: bool): (w: LastWrite)
    decreases t, 0
  {
    match t
    case Done => NoWrite
    case Step(op, next) =>
      var later := LastLive(next, Effect(st, op), k, owned);
      if !later.NoWrite? then later
      else if owned && op.SStore? && KeyOf(op) == k then Kept(op.value)
      else NoWrite
    case Frame(_, body, outcome, _, next) =>
      var later := LastLive(next, if outcome.Success? then Exec(body, st) else st, k, owned);
      if !later.NoWrite? then later else FrameWrite(body, outcome, st, k)
  }

  /** The last unmarked write of a frame that ended with `outcome`. */
  function FrameWrite(body: Trace, outcome: Outcome, st: Storage, k: Key): (w: LastWrite)
    decreases body, 1
  {
    var inner := LastLive(body, st, k, true);
    if outcome.Revert? || inner.NoWrite? then NoWrite
    else if outcome.Halt? then Phantom(inner.value, Read(st, k))
    else inner
  }

  lemma {:induction false} MarkedIsDead(t: Trace, st: Storage, owned: bool, k: Key)
    ensures Live(StorageLog(t, st, owned, true), k) == []
    decreases t
  {
    match t
    case Done =>
    case Step(op, next) =>
      MarkedIsDead(next, Effect(st, op), owned, k);
      LiveConcat(Seen(op, Present(st, op), owned, true),
                 StorageLog(next, Effect(st, op), owned, true), k);
    case Frame(_, body, outcome, _, next) =>
      var st' := if outcome.Success? then Exec(body, st) else st;
      MarkedIsDead(body, st, true, k);
      MarkedIsDead(next, st', owned, k);
      LiveConcat(StorageLog(body, st, true, true), StorageLog(next, st', owned, true), k);
  }

  /** What the unmarked writes to a slot say about the storage before and after the run. */
  predicate Replays(live: seq<StorageAccess>, before: Word, after: Word, last: LastWrite)
  {
    match last
    case NoWrite => live == [] && after == before
    case Kept(v) =>
      live != [] && live[0].previousValue == before && Last(live).newValue == v && after == v
    case Phantom(v, restored) =>
      live != [] && live[0].previousValue == before && Last(live).newValue == v && after == restored
  }

  /** Two runs in a row: the later unmarked writes win. */
  lemma ReplaysThen(a: seq<StorageAccess>, b: seq<StorageAccess>, x: Word, y: Word, z: Word,
                    first: LastWrite, later: LastWrite)
    requires Replays(a, x, y, first) && Replays(b, y, z, later)
    ensures Replays(a + b, x, z, if later.NoWrite? then first else later)
  {
    if b == [] {
      assert a + b == a;
    } else {
      assert Last(a + b) == Last(b);
    }
  }

  lemma ReplayStep(op: Op, st: Storage, k: Key, owned: bool)
    requires owned || !(op.SStore? && KeyOf(op) == k)
    ensures Replays(Live(Seen(op, Present(st, op), owned, false), k),
                    Read(st, k), Read(Effect(st, op), k),
                    if owned && op.SStore? && KeyOf(op) == k then Kept(op.value) else NoWrite)
  {
    var seen := Seen(op, Present(st, op), owned, false);
    if seen != [] {
      assert seen[1..] == [];
      assert Live(seen, k) == if IsLive(seen[0], k) then [seen[0]] else [];
    }
  }

  lemma {:induction false} Replay(t: Trace, st: Storage, k: Key, owned: bool)
    requires owned || NoOwnStore(t, k)
    ensures Replays(Live(StorageLog(t, st, owned, false), k), Read(st, k), Read(Exec(t, st), k),
                    LastLive(t, st, k, owned))
    decreases t, 0
  {
    match t
    case Done =>
    case Step(op, next) =>
      var st' := Effect(st, op);
      var seen := Seen(op, Present(st, op), owned, false);
      var rest := StorageLog(next, st', owned, false);
      ReplayStep(op, st, k, owned);
      Replay(next, st', k, owned);
      LiveConcat(seen, rest, k);
      ReplaysThen(Live(seen, k), Live(rest, k), Read(st, k), Read(st', k), Read(Exec(t, st), k),
                  if owned && op.SStore? && KeyOf(op) == k then Kept(op.value) else NoWrite,
                  LastLive(next, st', k, owned));
    case Frame(_, body, outcome, _, next) =>
      var st' := if outcome.Success? then Exec(body, st) else st;
      var inner := StorageLog(body, st, true, outcome.Revert?);
      var rest := StorageLog(next, st', owned, false);
      ReplayFrame(body, outcome, st, k);
      Replay(next, st', k, owned);
      LiveConcat(inner, rest, k);
      ReplaysThen(Live(inner, k), Live(rest, k), Read(st, k), Read(st', k), Read(Exec(t, st), k),
                  FrameWrite(body, outcome, st, k), LastLive(next, st', k, owned));
  }

  lemma {:induction false} ReplayFrame(body: Trace, outcome: Outcome, st: Storage, k: Key)
    ensures Replays(Live(StorageLog(body, st, true, outcome.Revert?), k), Read(st, k),
                    Read(if outcome.Success? then Exec(body, st) else st, k),
                    FrameWrite(body, outcome, st, k))
    decreases body, 1
  {
    if outcome.Revert? {
      MarkedIsDead(body, st, true, k);
    } else {
      Replay(body, st, k, true);
    }
  }

  /**
   The summary of a slot against the storage before and after the run, for every run and every
   slot that the recording frame does not store to itself. A slot absent from the summary is
   unchanged. A slot in it starts from its value at the start of the recording, and ends at its
   value at the end, unless its last unmarked write was undone by an exceptional halt: then the
   summary still reports that write, while the slot holds what it held before the halted frame.
   */
  lemma StateDiffIsRealEffect(t: Trace, st: Storage, depth: nat, labels: Labels, k: Key)
    requires NoOwnStore(t, k)
    ensures var slot := SlotOf(Summarise(map[], labels, Recorded(t, st, depth)), k);
            var start, end := Read(st, k), Read(Exec(t, st), k);
            match LastLive(t, st, k, false)
            case NoWrite => slot == None && end == start
            case Kept(v) => slot == Some(SlotStateDiff(start, v)) && end == v
            case Phantom(v, before) => slot == Some(SlotStateDiff(start, v)) && end == before
  {
    StorageMarkingIsExact(t, st, depth);
    SlotOfSummary(map[], labels, Recorded(t, st, depth), k);
    Replay(t, st, k, false);
  }

  /**
   Without stores of the recording frame, the state diff of a slot is its real effect if and only
   if its last unmarked write was not undone by a halt that put back another value.
   */
  lemma OnlyPhantomsMislead(t: Trace, st: Storage, depth: nat, labels: Labels, k: Key)
    requires NoOwnStore(t, k)
    ensures var slot := SlotOf(Summarise(map[], labels, Recorded(t, st, depth)), k);
            var start, end := Read(st, k), Read(Exec(t, st), k);
            var last := LastLive(t, st, k, false);
            slot == (if last.NoWrite? then None else Some(SlotStateDiff(start, end)))
            <==> !(last.Phantom? && last.value != last.before)
  {
    StateDiffIsRealEffect(t, st, depth, labels, k);
  }

  lemma {:induction false} CoveredHaltsLeaveNoPhantom(t: Trace, st: Storage, k: Key, owned: bool)
    requires HaltsCovered(t, false)
    ensures !LastLive(t, st, k, owned).Phantom?
    decreases t
  {
    match t
    case Done =>
    case Step(op, next) =>
      CoveredHaltsLeaveNoPhantom(next, Effect(st, op), k, owned);
    case Frame(_, body, outcome, _, next) =>
      CoveredHaltsLeaveNoPhantom(next, if outcome.Success? then Exec(body, st) else st, k, owned);
      if outcome.Success? {
        CoveredHaltsLeaveNoPhantom(body, st, k, true);
      }
  }

  /** The state diff is the real effect whenever no halt is left outside a reverting frame. */
  lemma StateDiffWithoutStrayHalts(t: Trace, st: Storage, depth: nat, labels: Labels, k: Key)
    requires NoOwnStore(t, k)
    requires HaltsCovered(t, false)
    ensures var slot := SlotOf(Summarise(map[], labels, Recorded(t, st, depth)), k);
            TellsEffect(slot, Read(st, k), Read(Exec(t, st), k))
  {
    StateDiffIsRealEffect(t, st, depth, labels, k);
    CoveredHaltsLeaveNoPhantom(t, st, k, false);
  }

  /* ---------- Every slot, whoever stores to it ---------- */

  /** The value that the first unmarked write to a slot found there. */
  function FirstFound(t: Trace, st: Storage, k: Key, owned: bool): (w: Option<Word>)
    decreases t
  {
    match t
    case Done => None
    case Step(op, next) =>
      if owned && op.SStore? && KeyOf(op) == k then Some(Read(st, k))
      else FirstFound(next, Effect(st, op), k, owned)
    case Frame(_, body, outcome, _, next) =>
      var inner := if outcome.Revert? then None else FirstFound(body, st, k, true);
      if inner.Some? then inner
      else FirstFound(next, if outcome.Success? then Exec(body, st) else st, k, owned)
  }

  /** The unmarked writes to a slot start from `first` and end with `last`. */
  predicate Spans(live: seq<StorageAccess>, first: Option<Word>, last: LastWrite)
  {
    if live == [] then first.None? && last.NoWrite?
    else first == Some(live[0].previousValue) && !last.NoWrite? && last.value == Last(live).newValue
  }

  lemma SpansThen(a: seq<StorageAccess>, b: seq<StorageAccess>, first: Option<Word>,
                  last: LastWrite, first': Option<Word>, last': LastWrite)
    requires Spans(a, first, last) && Spans(b, first', last')
    ensures Spans(a + b, if first.Some? then first else first',
                  if last'.NoWrite? then last else last')
  {
    if b == [] {
      assert a + b == a;
    } else {
      assert Last(a + b) == Last(b);
    }
  }

  lemma SpansStep(op: Op, st: Storage, k: Key, owned: bool)
    ensures var stores := owned && op.SStore? && KeyOf(op) == k;
            Spans(Live(Seen(op, Present(st, op), owned, false), k),
                  if stores then Some(Read(st, k)) else None,
                  if stores then Kept(op.value) else NoWrite)
  {
    var seen := Seen(op, Present(st, op), owned, false);
    if seen != [] {
      assert seen[1..] == [];
      assert Live(seen, k) == if IsLive(seen[0], k) then [seen[0]] else [];
    }
  }

  lemma {:induction false} LiveSpans(t: Trace, st: Storage, k: Key, owned: bool)
    ensures Spans(Live(StorageLog(t, st, owned, false), k), FirstFound(t, st, k, owned),
                  LastLive(t, st, k, owned))
    decreases t, 0
  {
    match t
    case Done =>
    case Step(op, next) =>
      var st' := Effect(st, op);
      var seen := Seen(op, Present(st, op), owned, false);
      var stores := owned && op.SStore? && KeyOf(op) == k;
      SpansStep(op, st, k, owned);
      LiveSpans(next, st', k, owned);
      LiveConcat(seen, StorageLog(next, st', owned, false), k);
      SpansThen(Live(seen, k), Live(StorageLog(next, st', owned, false), k),
                if stores then Some(Read(st, k)) else None, if stores then Kept(op.value) else NoWrite,
                FirstFound(next, st', k, owned), LastLive(next, st', k, owned));
    case Frame(_, body, outcome, _, next) =>
      var st' := if outcome.Success? then Exec(body, st) else st;
      var inner := StorageLog(body, st, true, outcome.Revert?);
      FrameSpans(body, outcome, st, k);
      LiveSpans(next, st', k, owned);
      LiveConcat(inner, StorageLog(next, st', owned, false), k);
      SpansThen(Live(inner, k), Live(StorageLog(next, st', owned, false), k),
                if outcome.Revert? then None else FirstFound(body, st, k, true),
                FrameWrite(body, outcome, st, k),
                FirstFound(next, st', k, owned), LastLive(next, st', k, owned));
  }

  lemma {:induction false} FrameSpans(body: Trace, outcome: Outcome, st: Storage, k: Key)
    ensures Spans(Live(StorageLog(body, st, true, outcome.Revert?), k),
                  if outcome.Revert? then None else FirstFound(body, st, k, true),
                  FrameWrite(body, outcome, st, k))
    decreases body, 1
  {
    if outcome.Revert? {
      MarkedIsDead(body, st, true, k);
    } else {
      LiveSpans(body, st, k, true);
    }
  }

  /** The value of a slot after its last unmarked write, from the value `start`. */
  function EndValue(last: LastWrite, start: Word): (w: Word)
  {
    match last
    case NoWrite => start
    case Kept(v) => v
    case Phantom(_, before) => before
  }

  /**
   The summary of every slot of every run: from the value the first unmarked write found to the
   value the last one wrote. The storage instead ends at the last write of any frame, the recording
   frame included.
   */
  lemma SummaryOfSlot(t: Trace, st: Storage, depth: nat, labels: Labels, k: Key)
    ensures var slot := SlotOf(Summarise(map[], labels, Recorded(t, st, depth)), k);
            var first, last := FirstFound(t, st, k, false), LastLive(t, st, k, false);
            && (first.None? <==> last.NoWrite?)
            && slot == if last.NoWrite? then None else Some(SlotStateDiff(first.value, last.value))
    ensures Read(Exec(t, st), k) == EndValue(LastLive(t, st, k, true), Read(st, k))
  {
    StorageMarkingIsExact(t, st, depth);
    SlotOfSummary(map[], labels, Recorded(t, st, depth), k);
    LiveSpans(t, st, k, false);
    Replay(t, st, k, true);
  }

  /** A summary that tells the real effect: absent means unchanged, else from start to end. */
  predicate TellsEffect(slot: Option<SlotStateDiff>, start: Word, end: Word)
  {
    if slot.None? then end == start else slot.value == SlotStateDiff(start, end)
  }

  /**
   For every run and every slot, the summary tells the real effect if and only if either no unmarked
   write was recorded and the last write of all leaves the value of the start, or the first recorded
   write found that value and the last write of all leaves what the last recorded one wrote.
   */
  lemma StateDiffIsRealIff(t: Trace, st: Storage, depth: nat, labels: Labels, k: Key)
    ensures var slot := SlotOf(Summarise(map[], labels, Recorded(t, st, depth)), k);
            var start := Read(st, k);
            var first, last := FirstFound(t, st, k, false), LastLive(t, st, k, false);
            var end := EndValue(LastLive(t, st, k, true), start);
            TellsEffect(slot, start, Read(Exec(t, st), k)) <==>
              if last.NoWrite? then end == start else first == Some(start) && end == last.value
  {
    SummaryOfSlot(t, st, depth, labels, k);
  }

  /* ---------- Runs in which the promise fails ---------- */

  const CHAIN := ChainInfo(0, 1)

  function CallTo(target: Address): (input: FrameInput)
  {
    CallFrame(CHAIN, 1, target, SchemeCall, None, 0, [])
  }

  /** A frame that stores 7 to a slot and runs out of gas. */
  const HALTED_STORE: Trace :=
    Frame(CallTo(2), Step(SStore(2, 0, 7), Done), Halt, NothingLoaded, Done)

  /** The summary reports a write that the virtual machine rolled back. */
  lemma HaltedStoreIsReported(depth: nat)
    ensures SlotOf(Summarise(map[], map[], Recorded(HALTED_STORE, map[], depth)), Key(2, 0)) ==
            Some(SlotStateDiff(0, 7))
    ensures Read(Exec(HALTED_STORE, map[]), Key(2, 0)) == 0
    ensures !HaltsCovered(HALTED_STORE, false)
  {
    var k := Key(2, 0);
    var body := Step(SStore(2, 0, 7), Done);
    assert LastLive(body, map[], k, true) == Kept(7);
    assert LastLive(HALTED_STORE, map[], k, false) == Phantom(7, 0);
    StateDiffIsRealEffect(HALTED_STORE, map[], depth, map[], k);
  }

  /** A recording frame that stores to a slot itself, after calling a frame that stored to it. */
  const OWN_STORE: Trace :=
    Frame(CallTo(2), Step(SStore(2, 0, 7), Done), Success, NothingLoaded,
          Step(SStore(2, 0, 9), Done))

  /** The recording frame's own store is missing from the summary. */
  lemma OwnStoreIsMissed(depth: nat)
    ensures SlotOf(Summarise(map[], map[], Recorded(OWN_STORE, map[], depth)), Key(2, 0)) ==
            Some(SlotStateDiff(0, 7))
    ensures Read(Exec(OWN_STORE, map[]), Key(2, 0)) == 9
    ensures !NoOwnStore(OWN_STORE, Key(2, 0))
  {
    var k := Key(2, 0);
    var t, st: Storage := OWN_STORE, map[];
    StorageMarkingIsExact(t, st, depth);
    SlotOfSummary(map[], map[], Recorded(t, st, depth), k);
    var body := Step(SStore(2, 0, 7), Done);
    var inner := StorageLog(body, st, true, false);
    var rest := StorageLog(t.next, Exec(body, st), false, false);
    assert rest == [];
    assert StorageLog(t, st, false, false) == inner + rest;
    LiveConcat(inner, rest, k);
    Replay(body, st, k, true);
    assert LastLive(body, st, k, true) == Kept(7);
  }
}
