/**
 The storage accesses the recorder holds, against a log computed straight from the trace: which ones,
 in which order, with which values and with which `reverted` flag.
 */
module StateDiffMarking {
  import opened Wrappers
  import opened StateDiffRecorder
  import opened StateDiffTrace

  /* ---------- Storage accesses: order, content and flags ---------- */

  function Accesses(v: Vector): (sas: seq<StorageAccess>)
  {
    if v == [] then [] else v[0].storageAccesses + Accesses(v[1..])
  }

  lemma {:induction false} AccessesConcat(a: Vector, b: Vector)
    ensures Accesses(a + b) == Accesses(a) + Accesses(b)
  {
    if a == [] {
      assert a + b == b;
    } else {
      assert (a + b)[1..] == a[1..] + b;
      AccessesConcat(a[1..], b);
    }
  }

  lemma AccessesPush(v: Vector, r: AccountAccess)
    ensures Accesses(v + [r]) == Accesses(v) + r.storageAccesses
  {
    AccessesConcat(v, [r]);
    assert Accesses([r]) == r.storageAccesses + Accesses([]);
  }

  function FlagStorage(up: bool, sas: seq<StorageAccess>): (r: seq<StorageAccess>)
  {
    if up then MarkStorage(sas) else sas
  }

  lemma FlagConcat(up: bool, a: seq<StorageAccess>, b: seq<StorageAccess>)
    ensures FlagStorage(up, a + b) == FlagStorage(up, a) + FlagStorage(up, b)
  {
    MarkStorageConcat(a, b);
  }

  lemma {:induction false} MarkStorageTwice(a: seq<StorageAccess>)
    ensures MarkStorage(MarkStorage(a)) == MarkStorage(a)
  {
    if a != [] {
      MarkStorageTwice(a[1..]);
      assert MarkStorage(a)[1..] == MarkStorage(a[1..]);
    }
  }

  lemma FlagTwice(up: bool, up': bool, a: seq<StorageAccess>)
    ensures FlagStorage(up, FlagStorage(up', a)) == FlagStorage(up || up', a)
  {
    MarkStorageTwice(a);
  }

  lemma {:induction false} AccessesMark(up: bool, v: Vector)
    ensures Accesses(MarkIf(up, v)) == FlagStorage(up, Accesses(v))
  {
    if up && v != [] {
      AccessesMark(up, v[1..]);
      assert MarkReverted(v)[1..] == MarkReverted(v[1..]);
      FlagConcat(up, v[0].storageAccesses, Accesses(v[1..]));
    }
  }

  lemma AccessesClose(v: Vector, outcome: Outcome, depth: nat, after: Aftermath)
    requires v != []
    ensures Accesses(Close(v, outcome, depth, after)) == FlagStorage(outcome.Revert?, Accesses(v))
  {
    var marked := MarkIf(outcome.Revert?, v);
    assert Close(v, outcome, depth, after)[1..] == marked[1..];
    AccessesMark(outcome.Revert?, v);
  }

  lemma AccessesAppend(v: Vector, sa: StorageAccess, depth: nat)
    ensures Accesses(AppendStorageAccess(v, sa, depth)) ==
            Accesses(v) + if v != [] && v[0].depth < depth then [sa] else []
  {
    if v != [] && v[0].depth < depth {
      if |v| == 1 || Last(v).kind.Resume? {
        FrontLast(v);
        AccessesPush(Front(v), Last(v));
        AccessesPush(Front(v), AddStorage(Last(v), sa));
        Assoc(Accesses(Front(v)), Last(v).storageAccesses, [sa]);
      } else {
        AccessesPush(v, AddStorage(ResumeHeader(v[0]), sa));
      }
    }
  }

  /**
   The storage accesses of a trace in chronological order. `owned` says that the executing frame
   was opened while recording; `up` that it, or a recorded frame around it, ends in a revert.
   */
  function StorageLog(t: Trace, st: Storage, owned: bool, up: bool): (log: seq<StorageAccess>)
  {
    match t
    case Done => []
    case Step(op, next) =>
      Seen(op, Present(st, op), owned, up) + StorageLog(next, Effect(st, op), owned, up)
    case Frame(_, body, outcome, _, next) =>
      StorageLog(body, st, true, up || outcome.Revert?)
      + StorageLog(next, if outcome.Success? then Exec(body, st) else st, owned, up)
  }

  predicate InFrame(v: Vector, depth: nat, owned: bool)
  {
    if owned then v != [] && v[0].depth < depth else v == [] || v[0].depth == depth
  }

  lemma InFrameStep(v: Vector, op: Op, depth: nat, present: Word, owned: bool)
    requires InFrame(v, depth, owned)
    ensures InFrame(GrowStep(v, op, depth, present), depth, owned)
  {}

  lemma InFrameClose(v: Vector, child: Vector, outcome: Outcome, depth: nat, after: Aftermath,
                     owned: bool)
    requires InFrame(v, depth, owned)
    requires child != [] && child[0].depth == depth
    ensures InFrame(v + Close(child, outcome, depth, after), depth, owned)
  {}

  lemma AccessesStep(v: Vector, op: Op, depth: nat, present: Word, owned: bool)
    requires InFrame(v, depth, owned)
    ensures Accesses(GrowStep(v, op, depth, present)) ==
            Accesses(v) + Seen(op, present, owned, false)
  {
    var v' := GrowStep(v, op, depth, present);
    if op.SLoad? || op.SStore? {
      AccessesAppend(v, Observed(op, present), depth);
    } else if v' != v {
      AccessesPush(v, Last(v'));
    }
  }

  /** The storage access that a step of a recorded frame adds to the log. */
  function Seen(op: Op, present: Word, owned: bool, up: bool): (sas: seq<StorageAccess>)
  {
    if owned && (op.SLoad? || op.SStore?) then [Observed(op, present).(reverted := up)] else []
  }

  lemma FlagSeen(up: bool, before: seq<StorageAccess>, op: Op, present: Word, owned: bool)
    ensures FlagStorage(up, before + Seen(op, present, owned, false)) ==
            FlagStorage(up, before) + Seen(op, present, owned, up)
  {
    var seen := Seen(op, present, owned, false);
    FlagConcat(up, before, seen);
    if seen != [] {
      assert seen[1..] == [];
    }
  }

  lemma {:induction false} StorageOrder(v: Vector, t: Trace, st: Storage, depth: nat, owned: bool,
                                        up: bool)
    requires InFrame(v, depth, owned)
    ensures FlagStorage(up, Accesses(Grow(v, t, st, depth))) ==
            FlagStorage(up, Accesses(v)) + StorageLog(t, st, owned, up)
    decreases t, 0
  {
    match t
    case Done =>
    case Step(op, next) =>
      var present := Present(st, op);
      InFrameStep(v, op, depth, present, owned);
      AccessesStep(v, op, depth, present, owned);
      StorageOrder(GrowStep(v, op, depth, present), next, Effect(st, op), depth, owned, up);
      FlagSeen(up, Accesses(v), op, present, owned);
      Assoc(FlagStorage(up, Accesses(v)), Seen(op, present, owned, up),
            StorageLog(next, Effect(st, op), owned, up));
    case Frame(input, body, outcome, after, next) =>
      var merged := StorageOrderFrame(v, input, body, outcome, after, st, depth, owned, up);
      var st' := if outcome.Success? then Exec(body, st) else st;
      StorageOrder(merged, next, st', depth, owned, up);
      Assoc(FlagStorage(up, Accesses(v)), StorageLog(body, st, true, up || outcome.Revert?),
            StorageLog(next, st', owned, up));
  }

  lemma {:induction false} StorageOrderFrame(
    v: Vector, input: FrameInput, body: Trace, outcome: Outcome, after: Aftermath,
    st: Storage, depth: nat, owned: bool, up: bool)
      returns (merged: Vector)
    requires InFrame(v, depth, owned)
    ensures merged == v + Close(Grow([Opening(input, depth)], body, st, depth + 1),
                                outcome, depth, after)
    ensures InFrame(merged, depth, owned)
    ensures FlagStorage(up, Accesses(merged)) ==
            FlagStorage(up, Accesses(v)) + StorageLog(body, st, true, up || outcome.Revert?)
    decreases body, 1
  {
    var opening := Opening(input, depth);
    var child := Grow([opening], body, st, depth + 1);
    merged := v + Close(child, outcome, depth, after);
    StorageOrder([opening], body, st, depth + 1, true, up || outcome.Revert?);
    StorageFrame(v, opening, child, outcome, depth, after, up,
                 StorageLog(body, st, true, up || outcome.Revert?));
    InFrameClose(v, child, outcome, depth, after, owned);
  }

  lemma StorageFrame(v: Vector, opening: AccountAccess, child: Vector, outcome: Outcome,
                     depth: nat, after: Aftermath, up: bool, log: seq<StorageAccess>)
    requires opening.storageAccesses == []
    requires child != []
    requires FlagStorage(up || outcome.Revert?, Accesses(child)) ==
             FlagStorage(up || outcome.Revert?, Accesses([opening])) + log
    ensures FlagStorage(up, Accesses(v + Close(child, outcome, depth, after))) ==
            FlagStorage(up, Accesses(v)) + log
  {
    var closed := Close(child, outcome, depth, after);
    AccessesPush([], opening);
    assert [] + [opening] == [opening];
    AccessesClose(child, outcome, depth, after);
    AccessesConcat(v, closed);
    FlagConcat(up, Accesses(v), Accesses(closed));
    FlagTwice(up, outcome.Revert?, Accesses(child));
    assert FlagStorage(up, Accesses(closed)) == log;
  }

  /**
   The recorded storage accesses are exactly those of the frames opened while recording, in
   chronological order, each marked reverted if and only if its frame or a recorded frame around
   it ended in a revert.
   */
  lemma StorageMarkingIsExact(t: Trace, st: Storage, depth: nat)
    ensures Accesses(Recorded(t, st, depth)) == StorageLog(t, st, false, false)
  {
    StorageOrder([], t, st, depth, false, false);
  }
}
