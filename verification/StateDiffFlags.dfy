/**
 The `reverted` flags of the account records, against flags handed down from the enclosing frames,
 and against what the virtual machine really rolled back.
 */
module StateDiffFlags {
  import opened Wrappers
  import opened StateDiffRecorder
  import opened StateDiffTrace
  import opened StateDiffMarking
  import opened StateDiffRecords

  function Header(r: AccountAccess): (h: AccountAccess)
  {
    r.(storageAccesses := [])
  }

  function FlagHeader(up: bool, r: AccountAccess): (h: AccountAccess)
  {
    if up then r.(reverted := true) else r
  }

  /** The records of a vector without their storage accesses, marked when `up` holds. */
  function Listed(up: bool, v: Vector): (hs: seq<AccountAccess>)
    ensures |hs| == |v|
  {
    if v == [] then [] else [FlagHeader(up, Header(v[0]))] + Listed(up, v[1..])
  }

  lemma {:induction false} ListedConcat(up: bool, a: Vector, b: Vector)
    ensures Listed(up, a + b) == Listed(up, a) + Listed(up, b)
  {
    if a == [] {
      assert a + b == b;
    } else {
      assert (a + b)[1..] == a[1..] + b;
      ListedConcat(up, a[1..], b);
      Assoc([FlagHeader(up, Header(a[0]))], Listed(up, a[1..]), Listed(up, b));
    }
  }

  lemma ListedPush(up: bool, v: Vector, r: AccountAccess)
    ensures Listed(up, v + [r]) == Listed(up, v) + [FlagHeader(up, Header(r))]
  {
    ListedConcat(up, v, [r]);
    assert Listed(up, [r]) == [FlagHeader(up, Header(r))] + Listed(up, []);
  }

  lemma {:induction false} ListedMark(up: bool, v: Vector)
    ensures Listed(up, MarkReverted(v)) == Listed(true, v)
  {
    if v != [] {
      assert MarkReverted(v)[1..] == MarkReverted(v[1..]);
      ListedMark(up, v[1..]);
    }
  }

  lemma ListedClose(up: bool, v: Vector, outcome: Outcome, depth: nat, after: Aftermath)
    requires v != []
    ensures Listed(up, Close(v, outcome, depth, after)) ==
            [Patch(FlagHeader(up || outcome.Revert?, Header(v[0])), depth, after)]
            + Listed(up || outcome.Revert?, v[1..])
  {
    var closed := Close(v, outcome, depth, after);
    var marked := MarkIf(outcome.Revert?, v);
    assert closed[1..] == marked[1..];
    if outcome.Revert? {
      assert marked[1..] == MarkReverted(v[1..]);
      ListedMark(up, v[1..]);
    }
  }

  /** The records a step adds to the vector of its frame. */
  function NewRecords(op: Op, depth: nat, tail: Tail, owner: Option<AccountAccess>, up: bool)
    : (hs: seq<AccountAccess>)
  {
    match op
    case SLoad(_, _) | SStore(_, _, _) =>
      if owner.Some? && tail.Other? then [FlagHeader(up, ResumeHeader(owner.value))] else []
    case Inspect(_, _, _, _, _) => [FlagHeader(up, InspectRecord(op, depth))]
    case Destruct(_, _, _, _, _) =>
      if tail.Nothing? then [] else [FlagHeader(up, DestructRecord(op, depth))]
  }

  /**
   The account records of a trace in chronological order, with the flag handed down from the
   enclosing frames: `up` says that the frame `owner` belongs to, or a recorded frame around it,
   ends in a revert.
   */
  function RecordLog(t: Trace, depth: nat, tail: Tail, owner: Option<AccountAccess>, up: bool)
    : (hs: seq<AccountAccess>)
    decreases t, 0
  {
    match t
    case Done => []
    case Step(op, next) =>
      NewRecords(op, depth, tail, owner, up)
      + RecordLog(next, depth, StepTail(tail, op, owner.Some?), owner, up)
    case Frame(input, body, outcome, after, next) =>
      FrameLog(input, body, outcome, after, depth, up)
      + RecordLog(next, depth, JoinTail(TailAfter(body, Entry, true), owner.Some?), owner, up)
  }

  /** The records of one frame: its opening record, and then those of its body. */
  function FrameLog(input: FrameInput, body: Trace, outcome: Outcome, after: Aftermath,
                    depth: nat, up: bool) : (hs: seq<AccountAccess>)
    decreases body, 1
  {
    var opening := Opening(input, depth);
    [Patch(FlagHeader(up || outcome.Revert?, opening), depth, after)]
    + RecordLog(body, depth + 1, Entry, Some(opening), up || outcome.Revert?)
  }

  predicate Framed(v: Vector, depth: nat, owner: Option<AccountAccess>)
  {
    && InFrame(v, depth, owner.Some?) && Deep(v, owner.Some?)
    && (owner.Some? ==> Header(v[0]) == owner.value)
  }

  lemma FramedStep(v: Vector, op: Op, depth: nat, present: Word, owner: Option<AccountAccess>)
    requires Framed(v, depth, owner)
    ensures var v' := GrowStep(v, op, depth, present);
            && Framed(v', depth, owner)
            && TailOf(v', owner.Some?) == StepTail(TailOf(v, owner.Some?), op, owner.Some?)
  {
    FrameStep(v, op, depth, present, owner.Some?);
  }

  lemma ListedStep(v: Vector, op: Op, depth: nat, present: Word, owner: Option<AccountAccess>,
                   up: bool)
    requires Framed(v, depth, owner)
    ensures Listed(up, GrowStep(v, op, depth, present)) ==
            Listed(up, v) + NewRecords(op, depth, TailOf(v, owner.Some?), owner, up)
  {
    match op
    case SLoad(_, _) | SStore(_, _, _) =>
      ListedAppend(v, Observed(op, present), depth, owner, up);
    case Inspect(_, _, _, _, _) =>
      ListedPush(up, v, InspectRecord(op, depth));
    case Destruct(_, _, _, _, _) =>
      if v != [] { ListedPush(up, v, DestructRecord(op, depth)); }
  }

  lemma ListedAppend(v: Vector, sa: StorageAccess, depth: nat, owner: Option<AccountAccess>,
                     up: bool)
    requires Framed(v, depth, owner)
    ensures Listed(up, AppendStorageAccess(v, sa, depth)) ==
            Listed(up, v) +
            if owner.Some? && TailOf(v, true).Other?
            then [FlagHeader(up, ResumeHeader(owner.value))] else []
  {
    if owner.Some? {
      if |v| == 1 || Last(v).kind.Resume? {
        FrontLast(v);
        ListedPush(up, Front(v), Last(v));
        ListedPush(up, Front(v), AddStorage(Last(v), sa));
      } else {
        ListedPush(up, v, AddStorage(ResumeHeader(v[0]), sa));
      }
    }
  }

  lemma {:induction false} RecordOrder(v: Vector, t: Trace, st: Storage, depth: nat,
                                       owner: Option<AccountAccess>, up: bool)
    requires Framed(v, depth, owner)
    ensures Listed(up, Grow(v, t, st, depth)) ==
            Listed(up, v) + RecordLog(t, depth, TailOf(v, owner.Some?), owner, up)
    decreases t, 0
  {
    var tail := TailOf(v, owner.Some?);
    match t
    case Done =>
    case Step(op, next) =>
      var grown := RecordStep(v, op, st, depth, owner, up);
      RecordOrder(grown, next, Effect(st, op), depth, owner, up);
      Assoc(Listed(up, v), NewRecords(op, depth, tail, owner, up),
            RecordLog(next, depth, StepTail(tail, op, owner.Some?), owner, up));
    case Frame(input, body, outcome, after, next) =>
      var merged := RecordFrame(v, input, body, outcome, after, st, depth, owner, up);
      RecordOrder(merged, next, if outcome.Success? then Exec(body, st) else st, depth, owner, up);
      Assoc(Listed(up, v), FrameLog(input, body, outcome, after, depth, up),
            RecordLog(next, depth, JoinTail(TailAfter(body, Entry, true), owner.Some?), owner, up));
  }

  lemma RecordStep(v: Vector, op: Op, st: Storage, depth: nat, owner: Option<AccountAccess>, up: bool)
      returns (grown: Vector)
    requires Framed(v, depth, owner)
    ensures grown == GrowStep(v, op, depth, Present(st, op)) && Framed(grown, depth, owner)
    ensures TailOf(grown, owner.Some?) == StepTail(TailOf(v, owner.Some?), op, owner.Some?)
    ensures Listed(up, grown) ==
            Listed(up, v) + NewRecords(op, depth, TailOf(v, owner.Some?), owner, up)
  {
    var present := Present(st, op);
    grown := GrowStep(v, op, depth, present);
    FramedStep(v, op, depth, present, owner);
    ListedStep(v, op, depth, present, owner, up);
  }

  lemma {:induction false} RecordFrame(
    v: Vector, input: FrameInput, body: Trace, outcome: Outcome, after: Aftermath,
    st: Storage, depth: nat, owner: Option<AccountAccess>, up: bool)
      returns (merged: Vector)
    requires Framed(v, depth, owner)
    ensures merged == v + Close(Grow([Opening(input, depth)], body, st, depth + 1),
                                outcome, depth, after)
    ensures Framed(merged, depth, owner)
    ensures TailOf(merged, owner.Some?) == JoinTail(TailAfter(body, Entry, true), owner.Some?)
    ensures Listed(up, merged) == Listed(up, v) + FrameLog(input, body, outcome, after, depth, up)
    decreases body, 2
  {
    var opening, child := RecordChild(input, body, st, depth, up || outcome.Revert?);
    merged := FramedFrame(v, input, body, outcome, after, st, depth, owner);
    ListedFrame(v, opening, child, outcome, depth, after, up,
                RecordLog(body, depth + 1, Entry, Some(opening), up || outcome.Revert?));
  }

  lemma {:induction false} RecordChild(input: FrameInput, body: Trace, st: Storage, depth: nat,
                                       up: bool)
      returns (opening: AccountAccess, child: Vector)
    ensures opening == Opening(input, depth) && opening.storageAccesses == []
    ensures child == Grow([opening], body, st, depth + 1) && child != []
    ensures Listed(up, child) ==
            Listed(up, [opening]) + RecordLog(body, depth + 1, Entry, Some(opening), up)
    decreases body, 1
  {
    opening := Opening(input, depth);
    child := Grow([opening], body, st, depth + 1);
    RecordOrder([opening], body, st, depth + 1, Some(opening), up);
  }

  lemma FramedFrame(v: Vector, input: FrameInput, body: Trace, outcome: Outcome, after: Aftermath,
                    st: Storage, depth: nat, owner: Option<AccountAccess>)
      returns (merged: Vector)
    requires Framed(v, depth, owner)
    ensures merged == v + Close(Grow([Opening(input, depth)], body, st, depth + 1),
                                outcome, depth, after)
    ensures Framed(merged, depth, owner)
    ensures TailOf(merged, owner.Some?) == JoinTail(TailAfter(body, Entry, true), owner.Some?)
  {
    merged := v + Close(Grow([Opening(input, depth)], body, st, depth + 1), outcome, depth, after);
    TailFrame(v, input, body, outcome, after, st, depth, owner.Some?);
  }

  lemma ListedFrame(v: Vector, opening: AccountAccess, child: Vector, outcome: Outcome,
                    depth: nat, after: Aftermath, up: bool, log: seq<AccountAccess>)
    requires child != [] && opening.storageAccesses == []
    requires Listed(up || outcome.Revert?, child) ==
             Listed(up || outcome.Revert?, [opening]) + log
    ensures Listed(up, v + Close(child, outcome, depth, after)) ==
            Listed(up, v) + ([Patch(FlagHeader(up || outcome.Revert?, opening), depth, after)] + log)
  {
    ListedChild(up || outcome.Revert?, child, opening, log);
    ListedClose(up, child, outcome, depth, after);
    ListedConcat(up, v, Close(child, outcome, depth, after));
  }

  lemma ListedChild(up: bool, child: Vector, opening: AccountAccess, log: seq<AccountAccess>)
    requires child != [] && opening.storageAccesses == []
    requires Listed(up, child) == Listed(up, [opening]) + log
    ensures FlagHeader(up, Header(child[0])) == FlagHeader(up, opening)
    ensures Listed(up, child[1..]) == log
  {
    assert Listed(up, [opening]) == [FlagHeader(up, opening)] + Listed(up, []);
    assert Listed(up, child)[0] == FlagHeader(up, Header(child[0]));
    assert Listed(up, child)[1..] == Listed(up, child[1..]);
    assert (Listed(up, [opening]) + log)[1..] == log;
  }

  /**
   The recorded accounts are exactly those of the trace, in chronological order, Resume records
   included, each marked reverted if and only if the frame it belongs to, or a recorded frame
   around that frame, ended in a revert.
   */
  lemma RecordMarkingIsExact(t: Trace, st: Storage, depth: nat)
    ensures Listed(false, Recorded(t, st, depth)) == RecordLog(t, depth, Nothing, None, false)
  {
    RecordOrder([], t, st, depth, None, false);
  }

  /* ---------- Marked and rolled back ---------- */

  predicate OpensFrame(kind: AccessKind)
  {
    kind.Call? || kind.DelegateCall? || kind.CallCode? || kind.StaticCall? || kind.Create?
  }

  /** The flags of the records that open a frame. */
  function OpeningFlags(hs: seq<AccountAccess>): (flags: seq<bool>)
  {
    if hs == [] then []
    else (if OpensFrame(hs[0].kind) then [hs[0].reverted] else []) + OpeningFlags(hs[1..])
  }

  lemma {:induction false} OpeningFlagsConcat(a: seq<AccountAccess>, b: seq<AccountAccess>)
    ensures OpeningFlags(a + b) == OpeningFlags(a) + OpeningFlags(b)
  {
    if a == [] {
      assert a + b == b;
    } else {
      assert (a + b)[1..] == a[1..] + b;
      OpeningFlagsConcat(a[1..], b);
      Assoc(if OpensFrame(a[0].kind) then [a[0].reverted] else [], OpeningFlags(a[1..]), OpeningFlags(b));
    }
  }

  /** For each frame in order of entry: it, or a frame around it, ended in a revert. */
  function RevertFlags(t: Trace, up: bool): (flags: seq<bool>)
  {
    match t
    case Done => []
    case Step(_, next) => RevertFlags(next, up)
    case Frame(_, body, outcome, _, next) =>
      [up || outcome.Revert?] + RevertFlags(body, up || outcome.Revert?) + RevertFlags(next, up)
  }

  /** For each frame in order of entry: its effects were rolled back. */
  function RollbackFlags(t: Trace, up: bool): (flags: seq<bool>)
  {
    match t
    case Done => []
    case Step(_, next) => RollbackFlags(next, up)
    case Frame(_, body, outcome, _, next) =>
      [up || !outcome.Success?] + RollbackFlags(body, up || !outcome.Success?)
      + RollbackFlags(next, up)
  }

  /** Every frame that halts exceptionally lies inside a frame that ends in a revert. */
  predicate HaltsCovered(t: Trace, up: bool)
  {
    match t
    case Done => true
    case Step(_, next) => HaltsCovered(next, up)
    case Frame(_, body, outcome, _, next) =>
      && (outcome.Halt? ==> up)
      && HaltsCovered(body, up || outcome.Revert?)
      && HaltsCovered(next, up)
  }

  lemma {:induction false} FlagsSameLength(t: Trace, up: bool, up': bool)
    ensures |RevertFlags(t, up)| == |RollbackFlags(t, up')|
  {
    match t
    case Done =>
    case Step(_, next) => FlagsSameLength(next, up, up');
    case Frame(_, body, outcome, _, next) =>
      FlagsSameLength(body, up || outcome.Revert?, up' || !outcome.Success?);
      FlagsSameLength(next, up, up');
  }

  lemma {:induction false} FlagsAgree(t: Trace, up: bool)
    ensures RevertFlags(t, up) == RollbackFlags(t, up) <==> HaltsCovered(t, up)
  {
    match t
    case Done =>
    case Step(_, next) => FlagsAgree(next, up);
    case Frame(_, body, outcome, _, next) =>
      var marked, rolled := up || outcome.Revert?, up || !outcome.Success?;
      FlagsSameLength(body, marked, rolled);
      SplitEqual([marked] + RevertFlags(body, marked), RevertFlags(next, up),
                 [rolled] + RollbackFlags(body, rolled), RollbackFlags(next, up));
      SplitEqual([marked], RevertFlags(body, marked), [rolled], RollbackFlags(body, rolled));
      FlagsAgree(body, marked);
      FlagsAgree(next, up);
  }

  lemma {:induction false} OpeningFlagsOfLog(t: Trace, depth: nat, tail: Tail,
                                             owner: Option<AccountAccess>, up: bool)
    ensures OpeningFlags(RecordLog(t, depth, tail, owner, up)) == RevertFlags(t, up)
    decreases t, 0
  {
    match t
    case Done =>
    case Step(op, next) =>
      OpeningFlagsOfLog(next, depth, StepTail(tail, op, owner.Some?), owner, up);
      NewRecordsOpenNothing(op, depth, tail, owner, up);
      OpeningFlagsConcat(NewRecords(op, depth, tail, owner, up),
                         RecordLog(next, depth, StepTail(tail, op, owner.Some?), owner, up));
    case Frame(input, body, outcome, after, next) =>
      var join := JoinTail(TailAfter(body, Entry, true), owner.Some?);
      OpeningFlagsOfFrame(input, body, outcome, after, depth, up);
      OpeningFlagsOfLog(next, depth, join, owner, up);
      OpeningFlagsConcat(FrameLog(input, body, outcome, after, depth, up),
                         RecordLog(next, depth, join, owner, up));
  }

  lemma NewRecordsOpenNothing(op: Op, depth: nat, tail: Tail, owner: Option<AccountAccess>,
                              up: bool)
    ensures OpeningFlags(NewRecords(op, depth, tail, owner, up)) == []
  {
    var added := NewRecords(op, depth, tail, owner, up);
    if added != [] {
      assert added[1..] == [] && !OpensFrame(added[0].kind);
    }
  }

  lemma {:induction false} OpeningFlagsOfFrame(input: FrameInput, body: Trace, outcome: Outcome,
                                               after: Aftermath, depth: nat, up: bool)
    ensures OpeningFlags(FrameLog(input, body, outcome, after, depth, up)) ==
            [up || outcome.Revert?] + RevertFlags(body, up || outcome.Revert?)
    decreases body, 1
  {
    var marked := up || outcome.Revert?;
    var first := FrameHeader(input, depth, after, marked);
    OpeningFlagsOfLog(body, depth + 1, Entry, Some(Opening(input, depth)), marked);
    OpeningFlagsOfOpening(first, RecordLog(body, depth + 1, Entry, Some(Opening(input, depth)), marked));
  }

  /** The record that opens a frame keeps its kind and carries the frame's flag. */
  lemma FrameHeader(input: FrameInput, depth: nat, after: Aftermath, marked: bool)
    returns (first: AccountAccess)
    ensures first == Patch(FlagHeader(marked, Opening(input, depth)), depth, after)
    ensures OpensFrame(first.kind) && first.reverted == marked
  {
    first := Patch(FlagHeader(marked, Opening(input, depth)), depth, after);
  }

  lemma OpeningFlagsOfOpening(first: AccountAccess, rest: seq<AccountAccess>)
    requires OpensFrame(first.kind)
    ensures OpeningFlags([first] + rest) == [first.reverted] + OpeningFlags(rest)
  {
    assert ([first] + rest)[1..] == rest;
  }

  /**
   A frame is marked reverted exactly when its effects were rolled back, for every frame of the
   run, if and only if every frame that halts exceptionally lies inside a reverting one: the
   recorder asks for an explicit revert, and an out-of-gas frame is not one.
   */
  lemma MarkedIffRolledBack(t: Trace, st: Storage, depth: nat)
    ensures OpeningFlags(Listed(false, Recorded(t, st, depth))) == RollbackFlags(t, false) <==>
            HaltsCovered(t, false)
  {
    RecordMarkingIsExact(t, st, depth);
    OpeningFlagsOfLog(t, depth, Nothing, None, false);
    FlagsAgree(t, false);
  }
}
