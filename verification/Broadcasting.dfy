/**
 `broadcast`, `startBroadcast` and `stopBroadcast`: swapping `tx.origin` for the calls of a script,
 queueing them as transactions with nonces, and putting the origin back.
 */
module Broadcasting {
  import opened Wrappers

  type Address = nat

  datatype Broadcast = Broadcast(
    newOrigin: Address, originalCaller: Address, originalOrigin: Address, depth: nat,
    singleCall: bool)

  /** A queued transaction; a create has no destination. */
  datatype Tx = Tx(from: Address, to: Option<Address>, nonce: nat)

  /**
   A call or create whose end hook is due. It was ended at once, or it opened a frame; then these
   are the accounts that created from inside, whose nonces are put back if the frame reverts.
   */
  datatype Pending = Ended | Open(creators: seq<Address>)

  /**
   The journal depth of the running frame, `tx.origin`, the active broadcast, the account nonces,
   the queue, and the calls and creates whose end hooks are due.
   */
  datatype State = State(
    depth: nat, origin: Address, broadcast: Option<Broadcast>, nonces: map<Address, nat>,
    queue: seq<Tx>, due: seq<Pending>)

  function NonceOf(nonces: map<Address, nat>, a: Address): (n: nat)
  {
    if a in nonces then nonces[a] else 0
  }

  function Bump(nonces: map<Address, nat>, a: Address): (nonces': map<Address, nat>)
  {
    nonces[a := NonceOf(nonces, a) + 1]
  }

  /* ---------- Cheatcodes ---------- */

  /** The wallets of a script: a configured sender and the signers. */
  datatype Wallets = Wallets(provided: Option<Address>, signers: seq<Address>)

  /** The sender of a broadcast: given, configured, the only signer, or the current origin. */
  function Sender(given: Option<Address>, wallets: Wallets, origin: Address): (a: Address)
  {
    if given.Some? then given.value
    else if wallets.provided.Some? then wallets.provided.value
    else if |wallets.signers| == 1 then wallets.signers[0]
    else origin
  }

  /** None while a prank or another broadcast is active. */
  function Start(s: State, caller: Address, given: Option<Address>, wallets: Wallets, pranked: bool,
                 singleCall: bool) : (r: Option<State>)
  {
    if pranked || s.broadcast.Some? then None
    else
      var sender := Sender(given, wallets, s.origin);
      Some(s.(broadcast := Some(Broadcast(sender, caller, s.origin, s.depth, singleCall))))
  }

  /** None when there is no broadcast to stop. */
  function Stop(s: State): (r: Option<State>)
  {
    if s.broadcast.None? then None else Some(s.(broadcast := None))
  }

  /* ---------- Hooks ---------- */

  predicate AppliesToCall(s: State, caller: Address)
  {
    s.broadcast.Some? && s.depth == s.broadcast.value.depth
    && caller == s.broadcast.value.originalCaller
  }

  predicate AppliesToCreate(s: State, caller: Address)
  {
    s.broadcast.Some? && s.depth >= s.broadcast.value.depth
    && caller == s.broadcast.value.originalCaller
  }

  /** The broadcasting part of the call hook, and whether it ends the call at once. */
  function CallHook(s: State, caller: Address, target: Address, isStatic: bool, loads: bool)
    : (r: (State, bool))
  {
    if !AppliesToCall(s, caller) then (s, false) else
    var b := s.broadcast.value;
    var swapped := s.(origin := b.newOrigin);
    if isStatic then (swapped, b.singleCall)
    else if !loads then (swapped, true)
    else (swapped.(queue := s.queue + [Tx(b.newOrigin, Some(target), NonceOf(s.nonces, b.newOrigin))],
                   nonces := Bump(s.nonces, b.newOrigin)),
          false)
  }

  /** The account that creates: the broadcast's sender at the broadcast depth. */
  function Creator(s: State, caller: Address): (a: Address)
  {
    if AppliesToCreate(s, caller) && s.depth == s.broadcast.value.depth
    then s.broadcast.value.newOrigin else caller
  }

  /** The broadcasting part of the create hook, and whether it ends the create at once. */
  function CreateHook(s: State, caller: Address, loads: bool): (r: (State, bool))
  {
    if !AppliesToCreate(s, caller) then (s, false) else
    var b := s.broadcast.value;
    if !loads then (s, true) else
    (s.(origin := b.newOrigin,
        queue := if s.depth == b.depth
                 then s.queue + [Tx(b.newOrigin, None, NonceOf(s.nonces, b.newOrigin))]
                 else s.queue),
     false)
  }

  /** The broadcasting part of both end hooks; end hooks of cheatcode calls skip it. */
  function EndHook(s: State): (s': State)
  {
    if s.broadcast.None? || s.depth != s.broadcast.value.depth then s else
    s.(origin := s.broadcast.value.originalOrigin,
       broadcast := if s.broadcast.value.singleCall then None else s.broadcast)
  }

  class Inspector {
    var origin: Address
    var broadcast: Option<Broadcast>
    var nonces: map<Address, nat>
    var queue: seq<Tx>

    ghost function Value(depth: nat, due: seq<Pending>): State
      reads this
    {
      State(depth, origin, broadcast, nonces, queue, due)
    }

    constructor (origin: Address)
      ensures forall depth, due :: Value(depth, due) == State(depth, origin, None, map[], [], due)
    {
      this.origin, broadcast, nonces, queue := origin, None, map[], [];
    }

    method StartBroadcast(caller: Address, given: Option<Address>, wallets: Wallets, pranked: bool,
                          singleCall: bool, depth: nat)
        returns (ok: bool)
      modifies this
      ensures forall due ::
                var r := Start(old(Value(depth, due)), caller, given, wallets, pranked, singleCall);
                ok == r.Some? && Value(depth, due) == if ok then r.value else old(Value(depth, due))
    {
      if pranked || broadcast.Some? {
        return false;
      }
      var newOrigin := given;
      if newOrigin.None? {
        if wallets.provided.Some? {
          newOrigin := wallets.provided;
        } else if |wallets.signers| == 1 {
          newOrigin := Some(wallets.signers[0]);
        }
      }
      var sender := if newOrigin.Some? then newOrigin.value else origin;
      broadcast := Some(Broadcast(sender, caller, origin, depth, singleCall));
      return true;
    }

    method StopBroadcast(ghost depth: nat) returns (ok: bool)
      modifies this
      ensures forall due :: var r := Stop(old(Value(depth, due)));
                ok == r.Some? && Value(depth, due) == if ok then r.value else old(Value(depth, due))
    {
      ok := broadcast.Some?;
      broadcast := None;
    }

    method Call(caller: Address, target: Address, isStatic: bool, loads: bool, depth: nat)
        returns (early: bool)
      modifies this
      ensures forall due :: (Value(depth, due), early) ==
                            CallHook(old(Value(depth, due)), caller, target, isStatic, loads)
    {
      early := false;
      if broadcast.Some? {
        var b := broadcast.value;
        if depth == b.depth && caller == b.originalCaller {
          origin := b.newOrigin;
          if !isStatic {
            if !loads {
              return true;
            }
            queue := queue + [Tx(b.newOrigin, Some(target), NonceOf(nonces, b.newOrigin))];
            nonces := Bump(nonces, b.newOrigin);
          } else if b.singleCall {
            return true;
          }
        }
      }
    }

    method Create(caller: Address, loads: bool, depth: nat) returns (early: bool)
      modifies this
      ensures forall due :: (Value(depth, due), early) ==
                            CreateHook(old(Value(depth, due)), caller, loads)
    {
      early := false;
      if broadcast.Some? {
        var b := broadcast.value;
        if depth >= b.depth && caller == b.originalCaller {
          if !loads {
            return true;
          }
          origin := b.newOrigin;
          if depth == b.depth {
            queue := queue + [Tx(b.newOrigin, None, NonceOf(nonces, b.newOrigin))];
          }
        }
      }
    }

    method End(depth: nat)
      modifies this
      ensures forall due :: Value(depth, due) == EndHook(old(Value(depth, due)))
    {
      if broadcast.Some? {
        var b := broadcast.value;
        if depth == b.depth {
          origin := b.originalOrigin;
          if b.singleCall {
            broadcast := None;
          }
        }
      }
    }
  }

  /* ---------- Runs ---------- */

  /**
   What the machine does with a create: it refuses it for lack of balance or depth, it increments the
   nonce and then finds the address taken, or it increments the nonce and starts the frame.
   */
  datatype Verdict = Refused | Collided | Started

  datatype Event =
    | StartEvent(caller: Address, given: Option<Address>, wallets: Wallets, pranked: bool,
                 singleCall: bool)
    | StopEvent
    | CallEvent(caller: Address, target: Address, isStatic: bool, loads: bool, starts: bool)
    | CreateEvent(caller: Address, loads: bool, verdict: Verdict)
    | EndEvent(reverts: bool)

  /** The call or create opens a frame, unless its hook or the machine ended it at once. */
  function Enter(s: State, opens: bool): (s': State)
  {
    s.(depth := if opens then s.depth + 1 else s.depth, due := s.due + [if opens then Open([]) else Ended])
  }

  /** The journal of the running frame takes up that some accounts created. */
  function Journal(due: seq<Pending>, creators: seq<Address>): (due': seq<Pending>)
  {
    if due == [] || Last(due).Ended? then due
    else Front(due) + [Open(Last(due).creators + creators)]
  }

  /** A reverting frame takes back the nonce increments of the creates in it. */
  function Undo(nonces: map<Address, nat>, creators: seq<Address>): (nonces': map<Address, nat>)
    decreases |creators|
  {
    if creators == [] then nonces else
    var n := NonceOf(nonces, creators[0]);
    Undo(nonces[creators[0] := if n > 0 then n - 1 else 0], creators[1..])
  }

  /** A frame ends: the creates in it are undone, or are up to the frame around it. */
  function Close(s: State, creators: seq<Address>, reverts: bool): (s': State)
    requires s.due != []
  {
    s.(depth := if s.depth > 0 then s.depth - 1 else 0,
       due := if reverts then Front(s.due) else Journal(Front(s.due), creators),
       nonces := if reverts then Undo(s.nonces, creators) else s.nonces)
  }

  /** A create that goes ahead increments the nonce of its creator, in the journal. */
  function Increment(s: State, creator: Address): (s': State)
  {
    s.(nonces := Bump(s.nonces, creator), due := Journal(s.due, [creator]))
  }

  /**
   One event of a script without isolation. The nonce increment of a create belongs to the frame
   that creates and is undone with it; the one for a broadcast call is not in the journal. Cheatcodes
   run in a frame, not while the end hook of an ended call is due.
   */
  function Apply(s: State, e: Event): (s': State)
  {
    match e
    case StartEvent(caller, given, wallets, pranked, singleCall) =>
      var r := Start(s, caller, given, wallets, pranked, singleCall);
      if r.Some? then r.value else s
    case StopEvent =>
      var r := Stop(s);
      if r.Some? then r.value else s
    case CallEvent(caller, target, isStatic, loads, starts) =>
      var r := CallHook(s, caller, target, isStatic, loads);
      Enter(r.0, !r.1 && starts)
    case CreateEvent(caller, loads, verdict) =>
      var r := CreateHook(s, caller, loads);
      if r.1 || verdict.Refused? then Enter(r.0, false)
      else Enter(Increment(r.0, Creator(s, caller)), verdict.Started?)
    case EndEvent(reverts) =>
      if s.due == [] then s
      else match Last(s.due)
        case Ended => EndHook(s.(due := Front(s.due)))
        case Open(creators) => EndHook(Close(s, creators, reverts))
  }

  /** The running frame executes: no call that was ended at once still awaits its end hook. */
  predicate Running(s: State)
  {
    s.due == [] || Last(s.due).Open?
  }

  /** Only an end hook can follow a call that was ended at once. */
  predicate Possible(s: State, e: Event)
  {
    Running(s) || e.EndEvent?
  }

  /* ---------- The origin ---------- */

  /** Calls that were ended at once open no frame, so at most the last one is due. */
  predicate Staged(due: seq<Pending>)
  {
    forall i :: 0 <= i < |due| - 1 ==> due[i].Open?
  }

  /**
   Outside the calls made at the broadcast depth, and always without a broadcast, `tx.origin` is
   the script's own origin `home`.
   */
  predicate OriginHome(s: State, home: Address)
  {
    && Staged(s.due) && |s.due| <= (if Running(s) then s.depth else s.depth + 1)
    && match s.broadcast
       case None => s.origin == home
       case Some(b) =>
         && b.originalOrigin == home
         && (s.depth < b.depth || (s.depth == b.depth && Running(s)) ==> s.origin == home)
  }

  lemma StagedFront(due: seq<Pending>)
    requires Staged(due) && due != []
    ensures Staged(Front(due)) && (Front(due) == [] || Last(Front(due)).Open?)
  {}

  lemma StagedJournal(due: seq<Pending>, creators: seq<Address>)
    requires Staged(due)
    ensures Staged(Journal(due, creators)) && |Journal(due, creators)| == |due|
    ensures due != [] ==> (Last(Journal(due, creators)).Open? <==> Last(due).Open?)
  {}

  /** A stop keeps the origin home if and only if the origin is home when it is executed. */
  lemma StopKeepsOriginHome(s: State, home: Address)
    requires OriginHome(s, home) && Running(s) && s.broadcast.Some?
    ensures OriginHome(Apply(s, StopEvent), home) <==> s.origin == home
    ensures s.depth <= s.broadcast.value.depth ==> OriginHome(Apply(s, StopEvent), home)
  {}

  lemma EndKeepsOriginHome(s: State, reverts: bool, home: Address)
    requires OriginHome(s, home)
    ensures OriginHome(Apply(s, EndEvent(reverts)), home)
  {
    if s.due != [] {
      StagedFront(s.due);
      if Last(s.due).Open? {
        StagedJournal(Front(s.due), Last(s.due).creators);
      }
    }
  }

  lemma EnterKeepsOriginHome(s: State, opens: bool, home: Address)
    requires Staged(s.due) && Running(s) && |s.due| <= s.depth
    requires s.broadcast.None? ==> s.origin == home
    requires s.broadcast.Some? ==>
               && s.broadcast.value.originalOrigin == home
               && (s.depth < s.broadcast.value.depth ==> s.origin == home)
    ensures OriginHome(Enter(s, opens), home)
  {}

  lemma CallKeepsOriginHome(s: State, caller: Address, target: Address, isStatic: bool, loads: bool,
                            starts: bool, home: Address)
    requires OriginHome(s, home) && Running(s)
    ensures OriginHome(Apply(s, CallEvent(caller, target, isStatic, loads, starts)), home)
  {
    var r := CallHook(s, caller, target, isStatic, loads);
    EnterKeepsOriginHome(r.0, !r.1 && starts, home);
  }

  lemma CreateKeepsOriginHome(s: State, caller: Address, loads: bool, verdict: Verdict, home: Address)
    requires OriginHome(s, home) && Running(s)
    ensures OriginHome(Apply(s, CreateEvent(caller, loads, verdict)), home)
  {
    var r := CreateHook(s, caller, loads);
    if r.1 || verdict.Refused? {
      EnterKeepsOriginHome(r.0, false, home);
    } else {
      StagedJournal(r.0.due, [Creator(s, caller)]);
      EnterKeepsOriginHome(Increment(r.0, Creator(s, caller)), verdict.Started?, home);
    }
  }

  lemma EventKeepsOriginHome(s: State, e: Event, home: Address)
    requires OriginHome(s, home) && Possible(s, e)
    requires e.StopEvent? ==> s.origin == home || s.broadcast.None?
    ensures OriginHome(Apply(s, e), home)
  {
    match e
    case StartEvent(_, _, _, _, _) =>
    case StopEvent =>
    case CallEvent(caller, target, isStatic, loads, starts) =>
      CallKeepsOriginHome(s, caller, target, isStatic, loads, starts, home);
    case CreateEvent(caller, loads, verdict) =>
      CreateKeepsOriginHome(s, caller, loads, verdict, home);
    case EndEvent(reverts) =>
      EndKeepsOriginHome(s, reverts, home);
  }

  ghost predicate AlwaysHome(s: State, events: seq<Event>, home: Address)
    decreases |events|
  {
    && OriginHome(s, home)
    && (events != [] ==> AlwaysHome(Apply(s, events[0]), events[1..], home))
  }

  predicate PossibleRun(s: State, events: seq<Event>)
    decreases |events|
  {
    events == [] || (Possible(s, events[0]) && PossibleRun(Apply(s, events[0]), events[1..]))
  }

  /** Every stop is executed with the origin unswapped, as at the broadcast depth it always is. */
  predicate StopsAtHome(s: State, events: seq<Event>, home: Address)
    decreases |events|
  {
    events == [] ||
    (&& (events[0].StopEvent? && s.broadcast.Some? ==> s.origin == home)
     && StopsAtHome(Apply(s, events[0]), events[1..], home))
  }

  /**
   The origin is put back after every call of a script, for the whole run, if and only if every
   broadcast is stopped while the origin is unswapped: at its own depth, or anywhere if the sender
   is the script's own origin.
   */
  lemma {:induction false} OriginAlwaysRestored(s: State, events: seq<Event>, home: Address)
    requires OriginHome(s, home) && PossibleRun(s, events)
    ensures AlwaysHome(s, events, home) <==> StopsAtHome(s, events, home)
    decreases |events|
  {
    if events != [] {
      var e := events[0];
      if e.StopEvent? && s.broadcast.Some? {
        StopKeepsOriginHome(s, home);
      }
      if !(e.StopEvent? && s.broadcast.Some?) || s.origin == home {
        EventKeepsOriginHome(s, e, home);
        OriginAlwaysRestored(Apply(s, e), events[1..], home);
      }
    }
  }

  /** A broadcast stopped one call deeper: the script goes on with the sender as its origin. */
  lemma StopInsideCallKeepsSender()
    ensures var s0 := State(1, 7, None, map[], [], [Open([])]);
            var s1 := Apply(s0, StartEvent(3, Some(9), Wallets(None, []), false, false));
            var s2 := Apply(s1, CallEvent(3, 4, false, true, true));
            var s3 := Apply(Apply(s2, StopEvent), EndEvent(false));
            OriginHome(s0, 7) && s3.depth == 1 && s3.broadcast.None? && s3.origin == 9
  {}

  /* ---------- Nonces ---------- */

  /** The queued nonces of one sender, in queue order. */
  function NoncesFrom(queue: seq<Tx>, from: Address): (ns: seq<int>)
  {
    if queue == [] then []
    else (if queue[0].from == from then [queue[0].nonce] else []) + NoncesFrom(queue[1..], from)
  }

  lemma {:induction false} NoncesFromPush(queue: seq<Tx>, tx: Tx, from: Address)
    ensures NoncesFrom(queue + [tx], from) ==
            NoncesFrom(queue, from) + if tx.from == from then [tx.nonce] else []
  {
    if queue == [] {
      assert queue + [tx] == [tx];
      assert [tx][1..] == [];
    } else {
      assert (queue + [tx])[1..] == queue[1..] + [tx];
      NoncesFromPush(queue[1..], tx, from);
      Assoc(if queue[0].from == from then [queue[0].nonce] else [], NoncesFrom(queue[1..], from),
            if tx.from == from then [tx.nonce] else []);
    }
  }

  predicate Consecutive(ns: seq<int>, first: int)
  {
    forall i :: 0 <= i < |ns| ==> ns[i] == first + i
  }

  /** A create by the account itself, outside its own broadcast, that increments its nonce. */
  predicate Unqueued(s: State, e: Event, from: Address)
  {
    && e.CreateEvent? && !CreateHook(s, e.caller, e.loads).1 && !e.verdict.Refused?
    && Creator(s, e.caller) == from
    && !(AppliesToCreate(s, e.caller) && s.depth == s.broadcast.value.depth)
  }

  /** A create of the account that is queued but refused by the machine. */
  predicate Unpaid(s: State, e: Event, from: Address)
  {
    e.CreateEvent? && e.verdict.Refused? && Queues(s, e, from)
  }

  function Count(creators: seq<Address>, from: Address): (n: nat)
  {
    if creators == [] then 0
    else (if creators[0] == from then 1 else 0) + Count(creators[1..], from)
  }

  lemma {:induction false} CountConcat(a: seq<Address>, b: seq<Address>, from: Address)
    ensures Count(a + b, from) == Count(a, from) + Count(b, from)
  {
    if a == [] {
      assert a + b == b;
    } else {
      assert (a + b)[1..] == a[1..] + b;
      CountConcat(a[1..], b, from);
    }
  }

  /** The creates of the account that the event undoes. */
  function Undone(s: State, e: Event, from: Address): (n: nat)
  {
    if e.EndEvent? && e.reverts && s.due != [] && Last(s.due).Open?
    then Count(Last(s.due).creators, from) else 0
  }

  /** The event queues a transaction of the account. */
  predicate Queues(s: State, e: Event, from: Address)
  {
    match e
    case CallEvent(caller, _, isStatic, loads, _) =>
      AppliesToCall(s, caller) && !isStatic && loads && s.broadcast.value.newOrigin == from
    case CreateEvent(caller, loads, _) =>
      AppliesToCreate(s, caller) && s.depth == s.broadcast.value.depth && loads
      && s.broadcast.value.newOrigin == from
    case _ => false
  }

  function Run(s: State, events: seq<Event>): (s': State)
    decreases |events|
  {
    if events == [] then s else Run(Apply(s, events[0]), events[1..])
  }

  /** The creates of the account that open frames may still undo. */
  function Standing(due: seq<Pending>, from: Address): (n: nat)
  {
    if due == [] then 0
    else Standing(Front(due), from)
         + if Last(due).Open? then Count(Last(due).creators, from) else 0
  }

  /** The account's nonce covers the increments that may still be undone. */
  predicate Backed(s: State, from: Address)
  {
    Standing(s.due, from) <= NonceOf(s.nonces, from)
  }

  lemma StandingPush(due: seq<Pending>, p: Pending, from: Address)
    ensures Standing(due + [p], from) ==
            Standing(due, from) + if p.Open? then Count(p.creators, from) else 0
  {
    PushFrontLast(due, p);
  }

  lemma StandingJournal(due: seq<Pending>, creators: seq<Address>, from: Address)
    ensures Standing(Journal(due, creators), from) ==
            Standing(due, from)
            + if due == [] || Last(due).Ended? then 0 else Count(creators, from)
  {
    if due != [] && Last(due).Open? {
      StandingPush(Front(due), Open(Last(due).creators + creators), from);
      CountConcat(Last(due).creators, creators, from);
    }
  }

  lemma {:induction false} UndoCounts(nonces: map<Address, nat>, creators: seq<Address>, from: Address)
    requires Count(creators, from) <= NonceOf(nonces, from)
    ensures NonceOf(Undo(nonces, creators), from) == NonceOf(nonces, from) - Count(creators, from)
    decreases |creators|
  {
    if creators != [] {
      var n := NonceOf(nonces, creators[0]);
      UndoCounts(nonces[creators[0] := if n > 0 then n - 1 else 0], creators[1..], from);
    }
  }

  /** By how much the event moves the nonce of the account away from its queue. */
  function Drift(s: State, e: Event, from: Address): (d: int)
  {
    (if Unqueued(s, e, from) then 1 else 0) - (if Unpaid(s, e, from) then 1 else 0) - Undone(s, e, from)
  }

  /** What one event does to the nonce of an account. */
  lemma EventCounts(s: State, e: Event, from: Address)
    requires Backed(s, from)
    ensures Backed(Apply(s, e), from)
    ensures NonceOf(Apply(s, e).nonces, from) ==
            NonceOf(s.nonces, from) + (if Queues(s, e, from) then 1 else 0) + Drift(s, e, from)
  {
    match e
    case StartEvent(_, _, _, _, _) =>
    case StopEvent =>
    case CallEvent(caller, target, isStatic, loads, starts) =>
      CallCounts(s, caller, target, isStatic, loads, starts, from);
    case CreateEvent(caller, loads, verdict) =>
      CreateCounts(s, caller, loads, verdict, from);
    case EndEvent(reverts) =>
      EndCounts(s, reverts, from);
  }

  lemma EnterCounts(s: State, opens: bool, from: Address)
    ensures Standing(Enter(s, opens).due, from) == Standing(s.due, from)
  {
    StandingPush(s.due, if opens then Open([]) else Ended, from);
  }

  lemma CallCounts(s: State, caller: Address, target: Address, isStatic: bool, loads: bool,
                   starts: bool, from: Address)
    requires Backed(s, from)
    ensures var e := CallEvent(caller, target, isStatic, loads, starts);
            && Backed(Apply(s, e), from)
            && NonceOf(Apply(s, e).nonces, from) ==
               NonceOf(s.nonces, from) + if Queues(s, e, from) then 1 else 0
  {
    var r := CallHook(s, caller, target, isStatic, loads);
    EnterCounts(r.0, !r.1 && starts, from);
  }

  lemma IncrementCounts(s: State, creator: Address, from: Address)
    ensures Standing(Increment(s, creator).due, from) <=
            Standing(s.due, from) + if creator == from then 1 else 0
    ensures NonceOf(Increment(s, creator).nonces, from) ==
            NonceOf(s.nonces, from) + if creator == from then 1 else 0
  {
    StandingJournal(s.due, [creator], from);
    assert [creator][1..] == [];
  }

  /** What a create does to the nonce, in terms of its creator. */
  lemma IncrementAndEnter(s: State, creator: Address, opens: bool, from: Address) returns (s': State)
    requires Backed(s, from)
    ensures s' == Enter(Increment(s, creator), opens) && Backed(s', from)
    ensures NonceOf(s'.nonces, from) == NonceOf(s.nonces, from) + if creator == from then 1 else 0
  {
    s' := Enter(Increment(s, creator), opens);
    IncrementCounts(s, creator, from);
    EnterCounts(Increment(s, creator), opens, from);
  }

  /** A create that goes ahead counts for its creator: it is queued, or it is not. */
  lemma CreatorCounts(s: State, caller: Address, loads: bool, verdict: Verdict, from: Address)
    requires !CreateHook(s, caller, loads).1 && !verdict.Refused?
    ensures var e := CreateEvent(caller, loads, verdict);
            (if Creator(s, caller) == from then 1 else 0) ==
            (if Queues(s, e, from) then 1 else 0) + Drift(s, e, from)
  {}

  lemma CreateHookKeeps(s: State, caller: Address, loads: bool) returns (s': State)
    ensures s' == CreateHook(s, caller, loads).0 && s'.nonces == s.nonces && s'.due == s.due
  {
    s' := CreateHook(s, caller, loads).0;
  }

  lemma CreateCounts(s: State, caller: Address, loads: bool, verdict: Verdict, from: Address)
    requires Backed(s, from)
    ensures var e := CreateEvent(caller, loads, verdict);
            && Backed(Apply(s, e), from)
            && NonceOf(Apply(s, e).nonces, from) ==
               NonceOf(s.nonces, from) + (if Queues(s, e, from) then 1 else 0) + Drift(s, e, from)
  {
    var hooked := CreateHookKeeps(s, caller, loads);
    if CreateHook(s, caller, loads).1 || verdict.Refused? {
      EnterCounts(hooked, false, from);
    } else {
      var s' := IncrementAndEnter(hooked, Creator(s, caller), verdict.Started?, from);
      CreatorCounts(s, caller, loads, verdict, from);
    }
  }

  lemma EndHookCounts(s: State)
    ensures EndHook(s).nonces == s.nonces && EndHook(s).due == s.due
  {}

  lemma CloseCounts(s: State, creators: seq<Address>, reverts: bool, from: Address)
    requires Backed(s, from) && s.due != [] && Last(s.due) == Open(creators)
    ensures Backed(Close(s, creators, reverts), from)
    ensures NonceOf(Close(s, creators, reverts).nonces, from) ==
            NonceOf(s.nonces, from) - if reverts then Count(creators, from) else 0
  {
    assert Standing(s.due, from) == Standing(Front(s.due), from) + Count(creators, from);
    if reverts {
      UndoCounts(s.nonces, creators, from);
    } else {
      StandingJournal(Front(s.due), creators, from);
    }
  }

  lemma EndCounts(s: State, reverts: bool, from: Address)
    requires Backed(s, from)
    ensures Backed(Apply(s, EndEvent(reverts)), from)
    ensures NonceOf(Apply(s, EndEvent(reverts)).nonces, from) ==
            NonceOf(s.nonces, from) - Undone(s, EndEvent(reverts), from)
  {
    if s.due != [] {
      match Last(s.due)
      case Ended =>
        EndHookCounts(s.(due := Front(s.due)));
      case Open(creators) =>
        CloseCounts(s, creators, reverts, from);
        EndHookCounts(Close(s, creators, reverts));
    }
  }

  /** What one event does to the queue: a queued transaction carries the nonce of its sender. */
  lemma EventQueues(s: State, e: Event, from: Address)
    ensures NoncesFrom(Apply(s, e).queue, from) ==
            NoncesFrom(s.queue, from) + if Queues(s, e, from) then [NonceOf(s.nonces, from)] else []
  {
    match e
    case StartEvent(_, _, _, _, _) =>
    case StopEvent =>
    case CallEvent(caller, target, isStatic, loads, starts) =>
      CallQueues(s, caller, target, isStatic, loads, starts, from);
    case CreateEvent(caller, loads, verdict) =>
      CreateQueues(s, caller, loads, verdict, from);
    case EndEvent(reverts) =>
      assert Apply(s, e).queue == s.queue;
  }

  lemma CallQueues(s: State, caller: Address, target: Address, isStatic: bool, loads: bool,
                   starts: bool, from: Address)
    ensures var e := CallEvent(caller, target, isStatic, loads, starts);
            NoncesFrom(Apply(s, e).queue, from) ==
            NoncesFrom(s.queue, from) + if Queues(s, e, from) then [NonceOf(s.nonces, from)] else []
  {
    if AppliesToCall(s, caller) && !isStatic && loads {
      var sender := s.broadcast.value.newOrigin;
      NoncesFromPush(s.queue, Tx(sender, Some(target), NonceOf(s.nonces, sender)), from);
    }
  }

  lemma CreateQueues(s: State, caller: Address, loads: bool, verdict: Verdict, from: Address)
    ensures var e := CreateEvent(caller, loads, verdict);
            NoncesFrom(Apply(s, e).queue, from) ==
            NoncesFrom(s.queue, from) + if Queues(s, e, from) then [NonceOf(s.nonces, from)] else []
  {
    if AppliesToCreate(s, caller) && s.depth == s.broadcast.value.depth && loads {
      var sender := s.broadcast.value.newOrigin;
      NoncesFromPush(s.queue, Tx(sender, None, NonceOf(s.nonces, sender)), from);
    }
  }

  /* ---------- Exactly when the nonces are consecutive ---------- */

  /**
   What an event means for one account: whether it queues a transaction of it, and by how much its
   nonce then runs ahead of its queue. A create outside the broadcast adds one. A queued create that
   the machine refuses takes one away, and so does a create that is undone, since its transaction
   stays queued.
   */
  datatype Tick = Tick(queues: bool, drift: int)

  function TickOf(s: State, e: Event, from: Address): (t: Tick)
  {
    Tick(Queues(s, e, from), Drift(s, e, from))
  }

  function Ticks(s: State, events: seq<Event>, from: Address): (ts: seq<Tick>)
    decreases |events|
  {
    if events == [] then []
    else [TickOf(s, events[0], from)] + Ticks(Apply(s, events[0]), events[1..], from)
  }

  /** Whenever a transaction is queued, the drift so far, from `drift` on, is balanced. */
  predicate Balanced(ts: seq<Tick>, drift: int)
  {
    ts == [] || ((ts[0].queues ==> drift == 0) && Balanced(ts[1..], drift + ts[0].drift))
  }

  /** The nonces handed out, from the given nonce on. */
  function Issued(ts: seq<Tick>, nonce: int): (ns: seq<int>)
    decreases |ts|
  {
    if ts == [] then []
    else if ts[0].queues then [nonce] + Issued(ts[1..], nonce + 1 + ts[0].drift)
    else Issued(ts[1..], nonce + ts[0].drift)
  }

  /** Everything one event does to the nonce and the queued nonces of an account. */
  lemma EventEffect(s: State, e: Event, from: Address) returns (s': State, t: Tick)
    requires Backed(s, from)
    ensures s' == Apply(s, e) && t == TickOf(s, e, from) && Backed(s', from)
    ensures NoncesFrom(s'.queue, from) ==
            NoncesFrom(s.queue, from) + if t.queues then [NonceOf(s.nonces, from)] else []
    ensures NonceOf(s'.nonces, from) ==
            NonceOf(s.nonces, from) + (if t.queues then 1 else 0) + t.drift
  {
    s', t := Apply(s, e), TickOf(s, e, from);
    EventCounts(s, e, from);
    EventQueues(s, e, from);
  }

  /** In every run the queue grows by the nonces handed out. */
  lemma {:induction false} RunIssues(s: State, events: seq<Event>, from: Address)
    requires Backed(s, from)
    ensures NoncesFrom(Run(s, events).queue, from) ==
            NoncesFrom(s.queue, from) + Issued(Ticks(s, events, from), NonceOf(s.nonces, from))
    decreases |events|
  {
    if events != [] {
      var s', t := EventEffect(s, events[0], from);
      RunIssues(s', events[1..], from);
      var later := Issued(Ticks(s', events[1..], from), NonceOf(s'.nonces, from));
      IssuedFirst(t, Ticks(s', events[1..], from), NonceOf(s.nonces, from));
      Assoc(NoncesFrom(s.queue, from), if t.queues then [NonceOf(s.nonces, from)] else [], later);
    }
  }

  lemma NothingBefore(a: seq<int>, b: seq<int>)
    requires a == []
    ensures a + b == b
  {}

  lemma IssuedFirst(t: Tick, rest: seq<Tick>, nonce: int)
    ensures Issued([t] + rest, nonce) ==
            (if t.queues then [nonce] else [])
            + Issued(rest, nonce + (if t.queues then 1 else 0) + t.drift)
  {
    assert ([t] + rest)[1..] == rest;
  }

  lemma ConsecutiveConcat(a: seq<int>, b: seq<int>, first: int)
    ensures Consecutive(a + b, first) <==> Consecutive(a, first) && Consecutive(b, first + |a|)
  {
    if Consecutive(a + b, first) {
      assert forall i :: 0 <= i < |a| ==> a[i] == (a + b)[i];
      assert forall i :: 0 <= i < |b| ==> b[i] == (a + b)[|a| + i];
    }
  }

  lemma {:induction false} IssuedConsecutive(ts: seq<Tick>, nonce: int, next: int)
    ensures Consecutive(Issued(ts, nonce), next) <==> Balanced(ts, nonce - next)
    decreases |ts|
  {
    if ts != [] {
      if ts[0].queues {
        IssuedConsecutive(ts[1..], nonce + 1 + ts[0].drift, next + 1);
        ConsecutiveConcat([nonce], Issued(ts[1..], nonce + 1 + ts[0].drift), next);
        assert [nonce][0] == nonce;
      } else {
        IssuedConsecutive(ts[1..], nonce + ts[0].drift, next);
      }
    }
  }

  /**
   The queued nonces of a sender are consecutive after a run if and only if they were before and the
   drift was balanced whenever one of its transactions was queued.
   */
  lemma NoncesAreConsecutiveIff(s: State, events: seq<Event>, from: Address, first: nat)
    requires Backed(s, from)
    ensures var queued := NoncesFrom(s.queue, from);
            Consecutive(NoncesFrom(Run(s, events).queue, from), first) <==>
              && Consecutive(queued, first)
              && Balanced(Ticks(s, events, from), NonceOf(s.nonces, from) - first - |queued|)
  {
    var queued, ts := NoncesFrom(s.queue, from), Ticks(s, events, from);
    RunIssues(s, events, from);
    ConsecutiveConcat(queued, Issued(ts, NonceOf(s.nonces, from)), first);
    IssuedConsecutive(ts, NonceOf(s.nonces, from), first + |queued|);
  }

  /**
   A script that starts with an empty queue and nothing to undo: the queued nonces of a sender are
   consecutive from its own nonce on if and only if the drift is balanced at every queueing.
   */
  lemma BroadcastNonces(s: State, events: seq<Event>, from: Address)
    requires s.queue == [] && Standing(s.due, from) == 0
    ensures Consecutive(NoncesFrom(Run(s, events).queue, from), NonceOf(s.nonces, from)) <==>
            Balanced(Ticks(s, events, from), 0)
  {
    var nonce := NonceOf(s.nonces, from);
    RunIssues(s, events, from);
    IssuedConsecutive(Ticks(s, events, from), nonce, nonce);
    NothingBefore(NoncesFrom(s.queue, from), Issued(Ticks(s, events, from), nonce));
  }

  predicate NoDrift(ts: seq<Tick>)
  {
    ts == [] || (ts[0].drift == 0 && NoDrift(ts[1..]))
  }

  lemma {:induction false} NoDriftIsBalanced(ts: seq<Tick>)
    requires NoDrift(ts)
    ensures Balanced(ts, 0)
  {
    if ts != [] {
      NoDriftIsBalanced(ts[1..]);
    }
  }

  /**
   In particular they are consecutive when the sender creates nothing outside its broadcast, nothing
   in a frame that reverts, and nothing that the machine refuses.
   */
  lemma NoncesWithoutDrift(s: State, events: seq<Event>, from: Address)
    requires s.queue == [] && Standing(s.due, from) == 0 && NoDrift(Ticks(s, events, from))
    ensures Consecutive(NoncesFrom(Run(s, events).queue, from), NonceOf(s.nonces, from))
  {
    NoDriftIsBalanced(Ticks(s, events, from));
    BroadcastNonces(s, events, from);
  }

  /** The broadcast of the run below, and its state around a create at the broadcast depth. */
  const SENDING := Broadcast(9, 3, 7, 2, false)

  function Around(depth: nat, origin: Address, nonce: nat, queue: seq<Tx>, due: seq<Pending>): (s: State)
  {
    State(depth, origin, Some(SENDING), map[9 := nonce], queue, due)
  }

  lemma CreateAtDepth(nonce: nat, queue: seq<Tx>)
    ensures Apply(Around(2, 7, nonce, queue, [Open([]), Open([])]), CreateEvent(3, true, Started)) ==
            Around(3, 9, nonce + 1, queue + [Tx(9, None, nonce)], [Open([]), Open([9]), Open([])])
  {
    var due := [Open([]), Open([])];
    assert [] + [9] == [9] && Front(due) == [Open([])];
    assert Journal(due, [9]) == [Open([]), Open([9])];
  }

  lemma EndOfCreate(nonce: nat, queue: seq<Tx>)
    ensures Apply(Around(3, 9, nonce, queue, [Open([]), Open([9]), Open([])]), EndEvent(false)) ==
            Around(2, 7, nonce, queue, [Open([]), Open([9])])
  {
    var due := [Open([]), Open([9])];
    assert Front([Open([]), Open([9]), Open([])]) == due && Front(due) == [Open([])];
    assert [9] + [] == [9];
    assert Journal(due, []) == due;
  }

  lemma RevertAround(nonce: nat, queue: seq<Tx>)
    ensures Apply(Around(2, 7, nonce + 1, queue, [Open([]), Open([9])]), EndEvent(true)) ==
            Around(1, 7, nonce, queue, [Open([])])
  {
    assert Front([Open([]), Open([9])]) == [Open([])];
    assert [9][1..] == [];
    assert Undo(map[9 := nonce + 1], [9]) == map[9 := nonce];
  }

  /**
   A frame creates while broadcasting and then reverts. The transaction stays queued, the nonce goes
   back, and the next create is queued with the same nonce.
   */
  lemma RevertedCreateRepeatsNonce(nonce: nat)
    ensures var s0 := Around(2, 7, nonce, [], [Open([]), Open([])]);
            var s1 := Run(s0, [CreateEvent(3, true, Started), EndEvent(false), EndEvent(true)]);
            var s2 := Run(s1, [CallEvent(5, 3, false, true, true), CreateEvent(3, true, Started)]);
            s2.queue == [Tx(9, None, nonce), Tx(9, None, nonce)]
  {
    CreatedAndReverted(nonce);
    CreatedAgain(nonce);
  }

  /** A create that is queued and refused leaves its nonce to the next one. */
  lemma RefusedCreateRepeatsNonce(nonce: nat)
    ensures var s0 := Around(2, 7, nonce, [], [Open([]), Open([])]);
            var s1 := Run(s0, [CreateEvent(3, true, Refused), EndEvent(true)]);
            Apply(s1, CreateEvent(3, true, Started)).queue == [Tx(9, None, nonce), Tx(9, None, nonce)]
  {
    var s0 := Around(2, 7, nonce, [], [Open([]), Open([])]);
    var tx := Tx(9, None, nonce);
    var refused := Around(2, 9, nonce, [tx], [Open([]), Open([]), Ended]);
    assert Apply(s0, CreateEvent(3, true, Refused)) == refused;
    assert Front(refused.due) == [Open([]), Open([])];
    RunTwo(s0, CreateEvent(3, true, Refused), EndEvent(true));
    CreateAtDepth(nonce, [tx]);
  }

  lemma CreatedAndReverted(nonce: nat)
    ensures Run(Around(2, 7, nonce, [], [Open([]), Open([])]),
                [CreateEvent(3, true, Started), EndEvent(false), EndEvent(true)]) ==
            Around(1, 7, nonce, [Tx(9, None, nonce)], [Open([])])
  {
    CreateAtDepth(nonce, []);
    EndOfCreate(nonce + 1, [Tx(9, None, nonce)]);
    RevertAround(nonce, [Tx(9, None, nonce)]);
    RunThree(Around(2, 7, nonce, [], [Open([]), Open([])]),
             CreateEvent(3, true, Started), EndEvent(false), EndEvent(true));
  }

  lemma CreatedAgain(nonce: nat)
    ensures Run(Around(1, 7, nonce, [Tx(9, None, nonce)], [Open([])]),
                [CallEvent(5, 3, false, true, true), CreateEvent(3, true, Started)]).queue ==
            [Tx(9, None, nonce), Tx(9, None, nonce)]
  {
    var s1 := Around(1, 7, nonce, [Tx(9, None, nonce)], [Open([])]);
    assert Apply(s1, CallEvent(5, 3, false, true, true)) ==
           Around(2, 7, nonce, [Tx(9, None, nonce)], [Open([]), Open([])]);
    CreateAtDepth(nonce, [Tx(9, None, nonce)]);
    RunTwo(s1, CallEvent(5, 3, false, true, true), CreateEvent(3, true, Started));
  }

  lemma RunFirst(s: State, e: Event, rest: seq<Event>)
    ensures Run(s, [e] + rest) == Run(Apply(s, e), rest)
  {
    assert ([e] + rest)[1..] == rest;
  }

  lemma RunTwo(s: State, e: Event, f: Event)
    ensures Run(s, [e, f]) == Apply(Apply(s, e), f)
  {
    RunFirst(s, e, [f]);
    RunFirst(Apply(s, e), f, []);
    assert [e] + [f] == [e, f] && [f] + [] == [f];
  }

  lemma RunThree(s: State, e: Event, f: Event, g: Event)
    ensures Run(s, [e, f, g]) == Apply(Apply(Apply(s, e), f), g)
  {
    RunFirst(s, e, [f, g]);
    RunTwo(Apply(s, e), f, g);
    assert [e] + [f, g] == [e, f, g];
  }
}
