/**
 In whose record each storage access sits, against the frame that executed it.
 */
module StateDiffRecords {
  import opened Wrappers
  import opened StateDiffRecorder
  import opened StateDiffTrace
  import opened StateDiffMarking

  /** What identifies the frame of a record: the accounts of its context and its depth. */
  datatype Identity = Identity(accessor: Address, account: Address, depth: nat)

  function IdentityOf(r: AccountAccess): (id: Identity)
  {
    Identity(r.accessor, r.account, r.depth)
  }

  /* ---------- What the last record of a frame's vector is ---------- */

  /**
   The state that decides where the next storage access of a frame goes: the vector is absent,
   holds only the opening record, or ends in a Resume record of this frame, in a Resume record
   that a returned child frame left behind, or in any other record.
   */
  datatype Tail = Nothing | Entry | OwnResume | ForeignResume | Other

  function StepTail(tail: Tail, op: Op, owned: bool): (r: Tail)
  {
    match op
    case SLoad(_, _) | SStore(_, _, _) => if owned && tail.Other? then OwnResume else tail
    case Inspect(_, _, _, _, _) => Other
    case Destruct(_, _, _, _, _) => if tail.Nothing? then tail else Other
  }

  function JoinTail(child: Tail, owned: bool): (r: Tail)
  {
    if owned && (child.OwnResume? || child.ForeignResume?) then ForeignResume else Other
  }

  function TailAfter(t: Trace, tail: Tail, owned: bool): (r: Tail)
    decreases t
  {
    match t
    case Done => tail
    case Step(op, next) => TailAfter(next, StepTail(tail, op, owned), owned)
    case Frame(_, body, _, _, next) =>
      TailAfter(next, JoinTail(TailAfter(body, Entry, true), owned), owned)
  }

  function TailOf(v: Vector, owned: bool): (r: Tail)
  {
    if v == [] then Nothing
    else if !owned then Other
    else if |v| == 1 then Entry
    else if !Last(v).kind.Resume? then Other
    else if Last(v).depth == v[0].depth then OwnResume
    else ForeignResume
  }

  /** A record that a frame with opening record `entry` can hold. */
  predicate Fits(r: AccountAccess, entry: AccountAccess, owned: bool)
  {
    && r.depth >= entry.depth
    && (owned && r.kind.Resume? && r.depth == entry.depth ==> IdentityOf(r) == IdentityOf(entry))
  }

  predicate Deep(v: Vector, owned: bool)
  {
    && (owned ==> v != [] && !v[0].kind.Resume?)
    && forall i :: 0 <= i < |v| ==> Fits(v[i], v[0], owned)
  }

  lemma TailStep(v: Vector, op: Op, depth: nat, present: Word, owned: bool)
    requires InFrame(v, depth, owned) && Deep(v, owned)
    ensures var v' := GrowStep(v, op, depth, present);
            Deep(v', owned) && TailOf(v', owned) == StepTail(TailOf(v, owned), op, owned)
  {}

  lemma {:induction false} MarkKeeps(v: Vector, i: nat)
    requires i < |v|
    ensures MarkReverted(v)[i] == MarkRecord(v[i])
  {
    if i > 0 {
      MarkKeeps(v[1..], i - 1);
    }
  }

  lemma CloseKeeps(v: Vector, outcome: Outcome, depth: nat, after: Aftermath, i: nat)
    requires i < |v|
    ensures var c := Close(v, outcome, depth, after);
            |c| == |v| && c[i].depth == v[i].depth && c[i].kind == v[i].kind
            && c[i].accessor == v[i].accessor && c[i].account == v[i].account
  {
    MarkKeeps(v, i);
  }

  lemma TailJoin(v: Vector, child: Vector, outcome: Outcome, depth: nat, after: Aftermath,
                 owned: bool)
    requires InFrame(v, depth, owned) && Deep(v, owned)
    requires InFrame(child, depth + 1, true) && Deep(child, true) && child[0].depth == depth
    ensures var v' := v + Close(child, outcome, depth, after);
            && Deep(v', owned)
            && TailOf(v', owned) == JoinTail(TailOf(child, true), owned)
  {
    forall i | 0 <= i < |child|
      ensures Close(child, outcome, depth, after)[i].depth >= depth
    {
      assert Fits(child[i], child[0], true);
      CloseKeeps(child, outcome, depth, after, i);
    }
    CloseKeeps(child, outcome, depth, after, |child| - 1);
  }

  lemma {:induction false} TailGrow(v: Vector, t: Trace, st: Storage, depth: nat, owned: bool)
    requires InFrame(v, depth, owned) && Deep(v, owned)
    ensures var r := Grow(v, t, st, depth);
            && InFrame(r, depth, owned) && Deep(r, owned)
            && TailOf(r, owned) == TailAfter(t, TailOf(v, owned), owned)
    decreases t
  {
    match t
    case Done =>
    case Step(op, next) =>
      var present := Present(st, op);
      InFrameStep(v, op, depth, present, owned);
      TailStep(v, op, depth, present, owned);
      TailGrow(GrowStep(v, op, depth, present), next, Effect(st, op), depth, owned);
    case Frame(input, body, outcome, after, next) =>
      var child := Grow([Opening(input, depth)], body, st, depth + 1);
      TailGrow([Opening(input, depth)], body, st, depth + 1, true);
      InFrameClose(v, child, outcome, depth, after, owned);
      TailJoin(v, child, outcome, depth, after, owned);
      TailGrow(v + Close(child, outcome, depth, after), next,
               if outcome.Success? then Exec(body, st) else st, depth, owned);
  }

  function Self(v: Vector, owned: bool): (self: Option<Identity>)
    requires owned ==> v != []
  {
    if owned then Some(IdentityOf(v[0])) else None
  }

  lemma TailFrame(v: Vector, input: FrameInput, body: Trace, outcome: Outcome, after: Aftermath,
                  st: Storage, depth: nat, owned: bool)
    requires InFrame(v, depth, owned) && Deep(v, owned)
    ensures var opening := [Opening(input, depth)];
            var child := Grow(opening, body, st, depth + 1);
            var v' := v + Close(child, outcome, depth, after);
            && InFrame(opening, depth + 1, true) && Deep(opening, true)
            && InFrame(v', depth, owned) && Deep(v', owned)
            && TailOf(v', owned) == JoinTail(TailAfter(body, Entry, true), owned)
            && Self(v', owned) == Self(v, owned)
  {
    var opening := [Opening(input, depth)];
    var child := Grow(opening, body, st, depth + 1);
    TailGrow(opening, body, st, depth + 1, true);
    InFrameClose(v, child, outcome, depth, after, owned);
    TailJoin(v, child, outcome, depth, after, owned);
  }

  /* ---------- In whose record a storage access sits ---------- */

  function Repeat(id: Identity, n: nat): (ids: seq<Identity>)
    ensures |ids| == n
  {
    if n == 0 then [] else Repeat(id, n - 1) + [id]
  }

  /** For each storage access of a vector, in order, the record that holds it. */
  function Holders(v: Vector): (ids: seq<Identity>)
  {
    if v == [] then []
    else Repeat(IdentityOf(v[0]), |v[0].storageAccesses|) + Holders(v[1..])
  }

  /** For each storage access of a trace, in order, the frame that executes it. */
  function Executors(t: Trace, depth: nat, self: Option<Identity>): (ids: seq<Identity>)
    decreases t
  {
    match t
    case Done => []
    case Step(op, next) =>
      (if self.Some? && (op.SLoad? || op.SStore?) then [self.value] else [])
      + Executors(next, depth, self)
    case Frame(input, body, _, _, next) =>
      Executors(body, depth + 1, Some(IdentityOf(Opening(input, depth))))
      + Executors(next, depth, self)
  }

  /**
   No frame accesses storage right after a child frame left a Resume record behind. In the other
   case the recorder takes the child's Resume record for one of the running frame.
   */
  predicate AttributionSafe(t: Trace, tail: Tail, owned: bool)
    decreases t
  {
    match t
    case Done => true
    case Step(op, next) =>
      && (owned && (op.SLoad? || op.SStore?) ==> !tail.ForeignResume?)
      && AttributionSafe(next, StepTail(tail, op, owned), owned)
    case Frame(_, body, _, _, next) =>
      && AttributionSafe(body, Entry, true)
      && AttributionSafe(next, JoinTail(TailAfter(body, Entry, true), owned), owned)
  }

  lemma {:induction false} HoldersConcat(a: Vector, b: Vector)
    ensures Holders(a + b) == Holders(a) + Holders(b)
  {
    if a == [] {
      assert a + b == b;
    } else {
      assert (a + b)[1..] == a[1..] + b;
      HoldersConcat(a[1..], b);
      Assoc(Repeat(IdentityOf(a[0]), |a[0].storageAccesses|), Holders(a[1..]), Holders(b));
    }
  }

  lemma HoldersPush(v: Vector, r: AccountAccess)
    ensures Holders(v + [r]) == Holders(v) + Repeat(IdentityOf(r), |r.storageAccesses|)
  {
    HoldersConcat(v, [r]);
    assert Holders([r]) == Repeat(IdentityOf(r), |r.storageAccesses|) + Holders([]);
  }

  /** The record that receives a storage access of a frame whose vector is `v`. */
  function Receiver(v: Vector): (r: AccountAccess)
    requires v != []
  {
    if |v| == 1 || Last(v).kind.Resume? then Last(v) else v[0]
  }

  lemma RepeatNext(id: Identity, n: nat)
    ensures Repeat(id, n + 1) == Repeat(id, n) + [id]
  {}

  /** One more storage access in the last record. */
  lemma HoldersAddLast(v: Vector, sa: StorageAccess)
    requires v != []
    ensures Holders(Front(v) + [AddStorage(Last(v), sa)]) == Holders(v) + [IdentityOf(Last(v))]
  {
    var r := Last(v);
    var n := |r.storageAccesses|;
    FrontLast(v);
    HoldersPush(Front(v), r);
    HoldersPush(Front(v), AddStorage(r, sa));
    RepeatNext(IdentityOf(r), n);
    Assoc(Holders(Front(v)), Repeat(IdentityOf(r), n), [IdentityOf(r)]);
  }

  /** One storage access in a new Resume record. */
  lemma HoldersAddResume(v: Vector, sa: StorageAccess)
    requires v != []
    ensures Holders(v + [AddStorage(ResumeHeader(v[0]), sa)]) == Holders(v) + [IdentityOf(v[0])]
  {
    HoldersPush(v, AddStorage(ResumeHeader(v[0]), sa));
    RepeatNext(IdentityOf(v[0]), 0);
  }

  lemma HoldersAppend(v: Vector, sa: StorageAccess, depth: nat)
    requires v != [] && v[0].depth < depth
    ensures Holders(AppendStorageAccess(v, sa, depth)) == Holders(v) + [IdentityOf(Receiver(v))]
  {
    if |v| == 1 || Last(v).kind.Resume? {
      HoldersAddLast(v, sa);
    } else {
      HoldersAddResume(v, sa);
    }
  }

  lemma {:induction false} HoldersMark(up: bool, v: Vector)
    ensures Holders(MarkIf(up, v)) == Holders(v)
  {
    if up && v != [] {
      assert MarkReverted(v)[1..] == MarkReverted(v[1..]);
      HoldersMark(up, v[1..]);
    }
  }

  lemma HoldersClose(v: Vector, outcome: Outcome, depth: nat, after: Aftermath)
    requires v != []
    ensures Holders(Close(v, outcome, depth, after)) == Holders(v)
  {
    var marked := MarkIf(outcome.Revert?, v);
    assert Close(v, outcome, depth, after)[1..] == marked[1..];
    HoldersMark(outcome.Revert?, v);
  }

  lemma FrameStep(v: Vector, op: Op, depth: nat, present: Word, owned: bool)
    requires InFrame(v, depth, owned) && Deep(v, owned)
    ensures var v' := GrowStep(v, op, depth, present);
            && InFrame(v', depth, owned) && Deep(v', owned)
            && TailOf(v', owned) == StepTail(TailOf(v, owned), op, owned)
            && Self(v', owned) == Self(v, owned)
  {
    InFrameStep(v, op, depth, present, owned);
    TailStep(v, op, depth, present, owned);
  }

  lemma ReceiverIsOwn(v: Vector)
    requires Deep(v, true)
    ensures IdentityOf(Receiver(v)) == IdentityOf(v[0]) <==> !TailOf(v, true).ForeignResume?
  {
    assert Fits(Last(v), v[0], true);
  }

  /** One step: the holder it adds, if any, is the executing frame unless the tail is foreign. */
  lemma AttributeStep(v: Vector, op: Op, depth: nat, present: Word, owned: bool)
      returns (added: seq<Identity>)
    requires InFrame(v, depth, owned) && Deep(v, owned)
    ensures Holders(GrowStep(v, op, depth, present)) == Holders(v) + added
    ensures |added| == if owned && (op.SLoad? || op.SStore?) then 1 else 0
    ensures added != [] ==>
              (added == [IdentityOf(v[0])] <==> !TailOf(v, owned).ForeignResume?)
  {
    added := [];
    var v' := GrowStep(v, op, depth, present);
    if op.SLoad? || op.SStore? {
      if owned {
        HoldersAppend(v, Observed(op, present), depth);
        added := [IdentityOf(Receiver(v))];
        ReceiverIsOwn(v);
      }
    } else if v' != v {
      HoldersPush(v, Last(v'));
    }
  }

  lemma SplitEqual<T>(a: seq<T>, b: seq<T>, c: seq<T>, d: seq<T>)
    requires |a| == |c|
    ensures a + b == c + d <==> a == c && b == d
  {
    if a + b == c + d {
      assert a == (a + b)[..|a|] && c == (c + d)[..|a|];
      assert b == (a + b)[|a|..] && d == (c + d)[|a|..];
    }
  }

  lemma {:induction false} Attribution(v: Vector, t: Trace, st: Storage, depth: nat, owned: bool)
      returns (added: seq<Identity>)
    requires InFrame(v, depth, owned) && Deep(v, owned)
    ensures Holders(Grow(v, t, st, depth)) == Holders(v) + added
    ensures |added| == |Executors(t, depth, Self(v, owned))|
    ensures added == Executors(t, depth, Self(v, owned)) <==>
            AttributionSafe(t, TailOf(v, owned), owned)
    decreases t, 0
  {
    match t
    case Done =>
      added := [];
    case Step(op, next) =>
      var present := Present(st, op);
      var v' := GrowStep(v, op, depth, present);
      FrameStep(v, op, depth, present, owned);
      var now := AttributeStep(v, op, depth, present, owned);
      var later := Attribution(v', next, Effect(st, op), depth, owned);
      added := now + later;
      Assoc(Holders(v), now, later);
      var self := Self(v, owned);
      SplitEqual(now, later,
                 if self.Some? && (op.SLoad? || op.SStore?) then [self.value] else [],
                 Executors(next, depth, self));
    case Frame(input, body, outcome, after, next) =>
      var merged, inner := AttributeFrame(v, input, body, outcome, after, st, depth, owned);
      var later := Attribution(merged, next, if outcome.Success? then Exec(body, st) else st,
                               depth, owned);
      added := inner + later;
      Assoc(Holders(v), inner, later);
      SplitEqual(inner, later,
                 Executors(body, depth + 1, Some(IdentityOf(Opening(input, depth)))),
                 Executors(next, depth, Self(v, owned)));
  }

  lemma HoldersFrame(v: Vector, opening: AccountAccess, child: Vector, outcome: Outcome,
                     depth: nat, after: Aftermath, inner: seq<Identity>)
    requires opening.storageAccesses == []
    requires child != []
    requires Holders(child) == Holders([opening]) + inner
    ensures Holders(v + Close(child, outcome, depth, after)) == Holders(v) + inner
  {
    assert Holders([opening]) == [] + Holders([]);
    HoldersClose(child, outcome, depth, after);
    HoldersConcat(v, Close(child, outcome, depth, after));
  }

  /** The vector of a child frame, and what its storage accesses are filed under. */
  lemma {:induction false} AttributeChild(input: FrameInput, body: Trace, st: Storage, depth: nat)
      returns (child: Vector, inner: seq<Identity>)
    ensures child == Grow([Opening(input, depth)], body, st, depth + 1) && child != []
    ensures Holders(child) == Holders([Opening(input, depth)]) + inner
    ensures var executors := Executors(body, depth + 1, Some(IdentityOf(Opening(input, depth))));
            && |inner| == |executors|
            && (inner == executors <==> AttributionSafe(body, Entry, true))
    decreases body, 1
  {
    child := Grow([Opening(input, depth)], body, st, depth + 1);
    inner := Attribution([Opening(input, depth)], body, st, depth + 1, true);
  }

  /** The shape of a vector after a child frame was merged into it. */
  lemma MergedFrame(v: Vector, input: FrameInput, body: Trace, outcome: Outcome, after: Aftermath,
                    st: Storage, depth: nat, owned: bool) returns (merged: Vector)
    requires InFrame(v, depth, owned) && Deep(v, owned)
    ensures merged == v + Close(Grow([Opening(input, depth)], body, st, depth + 1),
                                outcome, depth, after)
    ensures InFrame(merged, depth, owned) && Deep(merged, owned)
    ensures TailOf(merged, owned) == JoinTail(TailAfter(body, Entry, true), owned)
    ensures Self(merged, owned) == Self(v, owned)
  {
    merged := v + Close(Grow([Opening(input, depth)], body, st, depth + 1), outcome, depth, after);
    TailFrame(v, input, body, outcome, after, st, depth, owned);
  }

  lemma {:induction false} AttributeFrame(
    v: Vector, input: FrameInput, body: Trace, outcome: Outcome, after: Aftermath,
    st: Storage, depth: nat, owned: bool)
      returns (merged: Vector, inner: seq<Identity>)
    requires InFrame(v, depth, owned) && Deep(v, owned)
    ensures merged == v + Close(Grow([Opening(input, depth)], body, st, depth + 1),
                                outcome, depth, after)
    ensures InFrame(merged, depth, owned) && Deep(merged, owned)
    ensures TailOf(merged, owned) == JoinTail(TailAfter(body, Entry, true), owned)
    ensures Self(merged, owned) == Self(v, owned)
    ensures Holders(merged) == Holders(v) + inner
    ensures var executors := Executors(body, depth + 1, Some(IdentityOf(Opening(input, depth))));
            && |inner| == |executors|
            && (inner == executors <==> AttributionSafe(body, Entry, true))
    decreases body, 2
  {
    var child;
    merged := MergedFrame(v, input, body, outcome, after, st, depth, owned);
    child, inner := AttributeChild(input, body, st, depth);
    HoldersFrame(v, Opening(input, depth), child, outcome, depth, after, inner);
  }

  /**
   Every storage access sits in a record opened or resumed for the frame executing it, if and
   only if no frame accesses storage right after a child that left a Resume record behind.
   */
  lemma AttributionIsExact(t: Trace, st: Storage, depth: nat)
    ensures Holders(Recorded(t, st, depth)) == Executors(t, depth, None) <==>
            AttributionSafe(t, Nothing, false)
  {
    var added := Attribution([], t, st, depth, false);
    assert Holders([]) + added == added;
  }

  /* ---------- A run in which a storage access is misplaced ---------- */

  function CallAs(caller: Address, target: Address): (input: FrameInput)
  {
    CallFrame(ChainInfo(0, 1), caller, target, SchemeCall, None, 0, [])
  }

  /** A callee that inspects an account, then loads a slot, and ends in a revert. */
  function RevertingChild(next: Trace): (t: Trace)
  {
    Frame(CallAs(2, 3),
          Step(Inspect(ChainInfo(0, 1), 3, 4, BALANCE, None), Step(SLoad(3, 0), Done)),
          Revert, NothingLoaded, next)
  }

  /** A frame that calls that callee and then stores to a slot of its own. */
  const STALE_RESUME: Trace :=
    Frame(CallAs(1, 2), RevertingChild(Step(SStore(2, 0, 7), Done)), Success, NothingLoaded, Done)

  /** The caller's store is filed under the Resume record of the callee that reverted. */
  lemma StaleResumeTakesStore(st: Storage, depth: nat)
    ensures !AttributionSafe(STALE_RESUME, Nothing, false)
    ensures Holders(Recorded(STALE_RESUME, st, depth)) != Executors(STALE_RESUME, depth, None)
  {
    var child := RevertingChild(Done).body;
    assert TailAfter(child.next, Other, true) == OwnResume;
    assert TailAfter(child, Entry, true) == OwnResume;
    assert !AttributionSafe(Step(SStore(2, 0, 7), Done), ForeignResume, true);
    assert !AttributionSafe(STALE_RESUME.body, Entry, true);
    AttributionIsExact(STALE_RESUME, st, depth);
  }
}
