/**
 The account-access recorder behind `startStateDiffRecording`: a stack of vectors of account
 accesses, one vector for each call frame opened since recording began.

 The functions give the effect of each hook on the stack as a value; the class `Cheatcodes`
 performs the same effect in place on its field.
 */
module StateDiffRecorder {
  import opened Wrappers

  type Address = nat

  /** A 256-bit word. The recorder only stores and compares words, except in a self-destruct. */
  type Word = nat

  const WORD_MODULUS: nat :=
    0x1_0000_0000_0000_0000_0000_0000_0000_0000_0000_0000_0000_0000_0000_0000_0000_0000

  type Bytes = seq<nat>

  datatype ChainInfo = ChainInfo(forkId: Word, chainId: Word)

  datatype AccessKind =
    | Call | DelegateCall | CallCode | StaticCall | Create | SelfDestruct | Resume
    | Balance | Extcodesize | Extcodehash | Extcodecopy

  datatype StorageAccess = StorageAccess(
    account: Address, slot: Word, isWrite: bool,
    previousValue: Word, newValue: Word, reverted: bool)

  datatype AccountAccess = AccountAccess(
    chainInfo: ChainInfo, accessor: Address, account: Address, kind: AccessKind,
    initialized: bool, oldBalance: Word, newBalance: Word, value: Word, data: Bytes,
    reverted: bool, deployedCode: Bytes, storageAccesses: seq<StorageAccess>, depth: nat)

  type Vector = seq<AccountAccess>
  type Stack = seq<Vector>

  /* ---------- What the virtual machine reports to the hooks ---------- */

  datatype CallScheme =
    | SchemeCall | SchemeCallCode | SchemeDelegateCall | SchemeStaticCall
    | SchemeExtCall | SchemeExtStaticCall | SchemeExtDelegateCall

  /** Status and balance of an account, absent when the database fails to load it. */
  datatype AccountInfo = AccountInfo(initialized: bool, balance: Word)

  /** Inputs of a call or create that opens a frame. */
  datatype FrameInput =
    | CallFrame(chain: ChainInfo, caller: Address, bytecodeAddress: Address, scheme: CallScheme,
                target: Option<AccountInfo>, value: Word, data: Bytes)
    | CreateFrame(chain: ChainInfo, caller: Address, created: Address, value: Word, data: Bytes)

  /** How a frame ended: successfully, by an explicit revert, or by an exceptional halt. */
  datatype Outcome = Success | Revert | Halt

  /** What the end hook learns about the account: nothing, a balance, or a balance and code. */
  datatype Aftermath =
    | NothingLoaded
    | Called(balance: Word)
    | Created(balance: Word, code: Bytes)

  datatype ExtOpcode = EXTCODECOPY | EXTCODESIZE | EXTCODEHASH | BALANCE

  /** The opcodes that `record_state_diffs` reacts to, with the operands it peeks at. */
  datatype Op =
    | SLoad(account: Address, slot: Word)
    | SStore(account: Address, slot: Word, value: Word)
    | Inspect(chain: ChainInfo, accessor: Address, account: Address, opcode: ExtOpcode,
              target: Option<AccountInfo>)
    | Destruct(chain: ChainInfo, accessor: Address, beneficiary: Address,
               target: Option<AccountInfo>, balance: Word)

  /* ---------- The records the hooks build ---------- */

  function SchemeKind(s: CallScheme): (k: AccessKind)
  {
    match s
    case SchemeCall | SchemeExtCall => Call
    case SchemeCallCode => CallCode
    case SchemeDelegateCall | SchemeExtDelegateCall => DelegateCall
    case SchemeStaticCall | SchemeExtStaticCall => StaticCall
  }

  function ExtKind(opcode: ExtOpcode): (k: AccessKind)
  {
    match opcode
    case EXTCODECOPY => Extcodecopy
    case EXTCODESIZE => Extcodesize
    case EXTCODEHASH => Extcodehash
    case BALANCE => Balance
  }

  /** The record pushed when a frame is opened from a frame running at `depth`. */
  function Opening(input: FrameInput, depth: nat): (r: AccountAccess)
  {
    match input
    case CallFrame(chain, caller, bytecodeAddress, scheme, target, value, data) =>
      AccountAccess(chain, caller, bytecodeAddress, SchemeKind(scheme),
                    target.Some? && target.value.initialized,
                    if target.Some? then target.value.balance else 0,
                    0, value, data, false, [], [], depth)
    case CreateFrame(chain, caller, created, value, data) =>
      AccountAccess(chain, caller, created, Create, true, 0, 0, value, data, false, [], [], depth)
  }

  function InspectRecord(op: Op, depth: nat): (r: AccountAccess)
    requires op.Inspect?
  {
    var balance := if op.target.Some? then op.target.value.balance else 0;
    AccountAccess(op.chain, op.accessor, op.account, ExtKind(op.opcode),
                  op.target.Some? && op.target.value.initialized,
                  balance, balance, 0, [], false, [], [], depth)
  }

  function DestructRecord(op: Op, depth: nat): (r: AccountAccess)
    requires op.Destruct?
  {
    var before := if op.target.Some? then op.target.value.balance else 0;
    AccountAccess(op.chain, op.accessor, op.beneficiary, SelfDestruct,
                  op.target.Some? && op.target.value.initialized,
                  before, (before + op.balance) % WORD_MODULUS, op.balance, [], false, [], [], depth)
  }

  /** The record that resumes the frame opened by `entry`, without its storage accesses. */
  function ResumeHeader(entry: AccountAccess): (r: AccountAccess)
  {
    AccountAccess(entry.chainInfo, entry.accessor, entry.account, Resume, entry.initialized,
                  0, 0, 0, [], entry.reverted, [], [], entry.depth)
  }

  function AddStorage(r: AccountAccess, sa: StorageAccess): (r': AccountAccess)
  {
    r.(storageAccesses := r.storageAccesses + [sa])
  }

  /** The storage access recorded for a load or store that found `present` in the slot. */
  function Observed(op: Op, present: Word): (sa: StorageAccess)
    requires op.SLoad? || op.SStore?
  {
    StorageAccess(op.account, op.slot, op.SStore?, present,
                  if op.SStore? then op.value else present, false)
  }

  /* ---------- One vector ---------- */

  function AppendStorageAccess(v: Vector, sa: StorageAccess, depth: nat): (r: Vector)
  {
    if v != [] && v[0].depth < depth then
      if |v| == 1 || Last(v).kind.Resume? then
        Front(v) + [AddStorage(Last(v), sa)]
      else
        v + [AddStorage(ResumeHeader(v[0]), sa)]
    else
      v
  }

  function MarkStorage(sas: seq<StorageAccess>): (r: seq<StorageAccess>)
    ensures |r| == |sas|
  {
    if sas == [] then [] else [sas[0].(reverted := true)] + MarkStorage(sas[1..])
  }

  function MarkRecord(r: AccountAccess): (r': AccountAccess)
  {
    r.(reverted := true, storageAccesses := MarkStorage(r.storageAccesses))
  }

  function MarkReverted(v: Vector): (r: Vector)
    ensures |r| == |v|
  {
    if v == [] then [] else [MarkRecord(v[0])] + MarkReverted(v[1..])
  }

  function MarkIf(reverted: bool, v: Vector): (r: Vector)
  {
    if reverted then MarkReverted(v) else v
  }

  /** Post-call state of the account, written to the opening record at the matching depth. */
  function Patch(entry: AccountAccess, depth: nat, after: Aftermath): (r: AccountAccess)
  {
    if entry.depth != depth then entry else
    match after
    case NothingLoaded => entry
    case Called(balance) => entry.(newBalance := balance)
    case Created(balance, code) => entry.(newBalance := balance, deployedCode := code)
  }

  /** A popped vector, ready to be merged into the vector below it. */
  function Close(v: Vector, outcome: Outcome, depth: nat, after: Aftermath): (r: Vector)
    requires v != []
  {
    var marked := MarkIf(outcome.Revert?, v);
    [Patch(marked[0], depth, after)] + marked[1..]
  }

  /* ---------- The whole stack ---------- */

  function PushTop(s: Stack, r: AccountAccess): (s': Stack)
    requires s != []
  {
    Front(s) + [Last(s) + [r]]
  }

  /** The effect of `record_state_diffs`; `present` is the value found in an accessed slot. */
  function StepStack(s: Stack, op: Op, depth: nat, present: Word): (s': Stack)
  {
    match op
    case SLoad(_, _) | SStore(_, _, _) =>
      if s == [] then s else Front(s) + [AppendStorageAccess(Last(s), Observed(op, present), depth)]
    case Inspect(_, _, _, _, _) =>
      if s == [] then [[InspectRecord(op, depth)]] else PushTop(s, InspectRecord(op, depth))
    case Destruct(_, _, _, _, _) =>
      if s == [] then s else PushTop(s, DestructRecord(op, depth))
  }

  function EnterStack(s: Stack, input: FrameInput, depth: nat): (s': Stack)
  {
    s + [[Opening(input, depth)]]
  }

  /** The pop and merge of an end hook; None where the source's `expect` would panic. */
  function LeaveStack(s: Stack, outcome: Outcome, depth: nat, after: Aftermath): (r: Option<Stack>)
  {
    if s == [] || Last(s) == [] then None else
    var closed := Close(Last(s), outcome, depth, after);
    var rest := Front(s);
    Some(if rest == [] then [closed] else Front(rest) + [Last(rest) + closed])
  }

  function Flat(s: Stack): (v: Vector)
  {
    if s == [] then [] else Flat(Front(s)) + Last(s)
  }

  /* ---------- The inspector ---------- */

  class Cheatcodes {
    var recorded: Option<Stack>

    constructor ()
      ensures recorded == None
    {
      recorded := None;
    }

    method StartStateDiffRecording()
      modifies this
      ensures recorded == Some([])
    {
      recorded := Some([]);
    }

    /** Hands out everything recorded, in order, and goes on recording from an empty stack. */
    method StopAndReturnStateDiff() returns (diff: Vector)
      modifies this
      ensures diff == if old(recorded).Some? then Flat(old(recorded).value) else []
      ensures recorded == Some([])
    {
      diff := [];
      if recorded.Some? {
        var stack := recorded.value;
        for i := 0 to |stack|
          invariant diff == Flat(stack[..i])
        {
          assert stack[..i + 1] == stack[..i] + [stack[i]];
          assert Front(stack[..i + 1]) == stack[..i];
          diff := diff + stack[i];
        }
        assert stack[..|stack|] == stack;
      }
      recorded := Some([]);
    }

    /** The recording part of the call and create hooks. */
    method Enter(input: FrameInput, depth: nat)
      modifies this
      ensures recorded == if old(recorded).None? then None
                          else Some(EnterStack(old(recorded).value, input, depth))
    {
      if recorded.Some? {
        recorded := Some(recorded.value + [[Opening(input, depth)]]);
      }
    }

    /** The recording part of the end hooks; the root call, at depth 0, is never recorded. */
    method Leave(outcome: Outcome, depth: nat, after: Aftermath)
      requires recorded.Some? && depth > 0 ==>
                 recorded.value != [] && Last(recorded.value) != []
      modifies this
      ensures recorded == if old(recorded).None? || depth == 0 then old(recorded)
                          else LeaveStack(old(recorded).value, outcome, depth, after)
    {
      if recorded.Some? && depth > 0 {
        var stack := recorded.value;
        var last := Last(stack);
        stack := Front(stack);
        if outcome == Revert {
          last := MarkAll(last);
        }
        last := last[0 := Patch(last[0], depth, after)];
        assert last == Close(Last(old(recorded).value), outcome, depth, after);
        if stack != [] {
          stack := Front(stack) + [Last(stack) + last];
        } else {
          stack := [last];
        }
        recorded := Some(stack);
      }
    }

    method RecordStateDiffs(op: Op, depth: nat, loaded: Option<Word>)
      modifies this
      ensures recorded ==
                if old(recorded).None? then None
                else Some(StepStack(old(recorded).value, op, depth,
                                    if loaded.Some? then loaded.value else 0))
    {
      if recorded.None? {
        return;
      }
      var stack := recorded.value;
      match op {
        case Destruct(_, _, _, _, _) =>
          if stack == [] { return; }
          recorded := Some(PushTop(stack, DestructRecord(op, depth)));
        case SLoad(_, _) | SStore(_, _, _) =>
          if stack == [] { return; }
          var previous := 0;
          if loaded.Some? {
            previous := loaded.value;
          }
          recorded := Some(Front(stack) +
                           [AppendStorageAccess(Last(stack), Observed(op, previous), depth)]);
        case Inspect(_, _, _, _, _) =>
          if stack != [] {
            recorded := Some(PushTop(stack, InspectRecord(op, depth)));
          } else {
            recorded := Some([[InspectRecord(op, depth)]]);
          }
      }
    }
  }

  lemma {:induction false} MarkStorageConcat(a: seq<StorageAccess>, b: seq<StorageAccess>)
    ensures MarkStorage(a + b) == MarkStorage(a) + MarkStorage(b)
  {
    if a == [] {
      assert a + b == b;
    } else {
      MarkStorageConcat(a[1..], b);
      assert (a + b)[1..] == a[1..] + b;
      Assoc([a[0].(reverted := true)], MarkStorage(a[1..]), MarkStorage(b));
    }
  }

  lemma {:induction false} MarkConcat(a: Vector, b: Vector)
    ensures MarkReverted(a + b) == MarkReverted(a) + MarkReverted(b)
  {
    if a == [] {
      assert a + b == b;
    } else {
      MarkConcat(a[1..], b);
      assert (a + b)[1..] == a[1..] + b;
      Assoc([MarkRecord(a[0])], MarkReverted(a[1..]), MarkReverted(b));
    }
  }

  /** The nested loop that marks a popped vector and all its storage accesses. */
  method MarkAll(v: Vector) returns (r: Vector)
    ensures r == MarkReverted(v)
  {
    r := [];
    for i := 0 to |v|
      invariant r == MarkReverted(v[..i])
    {
      var before := v[i].storageAccesses;
      var sas: seq<StorageAccess> := [];
      for k := 0 to |before|
        invariant sas == MarkStorage(before[..k])
      {
        assert before[..k + 1] == before[..k] + [before[k]];
        MarkStorageConcat(before[..k], [before[k]]);
        sas := sas + [before[k].(reverted := true)];
      }
      assert before[..|before|] == before;
      assert v[..i + 1] == v[..i] + [v[i]];
      MarkConcat(v[..i], [v[i]]);
      r := r + [v[i].(reverted := true, storageAccesses := sas)];
    }
    assert v[..|v|] == v;
  }
}
