/**
 The two consumers of block notifications that report logs: the websocket subscription, which is
 polled for one log at a time, and the polled filter, which drains everything at once.
 */
module LogStreams {
  import opened Wrappers
  import opened FilterLogs

  /** The accessor for stored blocks and receipts. */
  datatype Storage = Storage(blocks: map<Word, Block>, receipts: map<Word, seq<Receipt>>)

  predicate Known(st: Storage, hash: Word)
  {
    hash in st.blocks && hash in st.receipts
  }

  /** Every stored block has a transaction for each receipt. */
  predicate Sound(st: Storage)
  {
    forall hash :: hash in st.blocks && hash in st.receipts ==>
      |st.receipts[hash]| <= |st.blocks[hash].transactions|
  }

  /** How a consumer looks up a notified block: its matching logs, or nothing when it is gone. */
  type Lookup = Word -> Option<seq<Log>>

  function LookupIn(st: Storage, filter: Filter): (look: Lookup)
    requires Sound(st)
  {
    (hash: Word) =>
      if Known(st, hash) then Some(Expected(st.blocks[hash], st.receipts[hash], filter)) else None
  }

  /** The two look-ups in storage and, when both succeed, the filtering of the block. */
  method Fetch(st: Storage, filter: Filter, hash: Word) returns (logs: Option<seq<Log>>)
    requires Sound(st)
    ensures logs == LookupIn(st, filter)(hash)
  {
    if hash in st.blocks && hash in st.receipts {
      var matching := FilterBlock(st.blocks[hash], st.receipts[hash], filter);
      return Some(matching);
    }
    return None;
  }

  /** The logs of a notified block; none when it is gone. */
  function LogsOf(look: Lookup, hash: Word): (logs: seq<Log>)
  {
    if look(hash).Some? then look(hash).value else []
  }

  /** What a consumer owes its client for a list of notifications. */
  function Delivered(look: Lookup, hashes: seq<Word>): (logs: seq<Log>)
  {
    if hashes == [] then []
    else Delivered(look, Front(hashes)) + LogsOf(look, Last(hashes))
  }

  lemma NilPlus<T>(s: seq<T>)
    ensures [] + s == s && s + [] == s
  {}

  /* ---------- The subscription ---------- */

  datatype Poll<T> = Ready(value: Option<T>) | Pending

  /**
   The receiving end of the notification channel and the logs not yet sent. `armed` says that the
   receiver holds the poller's waker, which it takes only when it is polled while empty and open.
   */
  datatype Subscription = Subscription(
    blocks: seq<Word>, closed: bool, armed: bool, queued: seq<Log>)

  /** A waker is held only by an empty, open channel: whatever arrives takes it. */
  predicate Idle(s: Subscription)
  {
    s.armed ==> s.blocks == [] && !s.closed
  }

  function Notify(s: Subscription, hash: Word): (s': Subscription)
  {
    if s.closed then s else s.(blocks := s.blocks + [hash], armed := false)
  }

  function Close(s: Subscription): (s': Subscription)
  {
    s.(closed := true, armed := false)
  }

  function PollLogs(look: Lookup, s: Subscription): (r: (Subscription, Poll<Log>))
    decreases |s.blocks|
  {
    if s.queued != [] then
      (s.(queued := s.queued[1..]), Ready(Some(s.queued[0])))
    else if s.blocks == [] then
      if s.closed then (s, Ready(None)) else (s.(armed := true), Pending)
    else
      var rest := s.(blocks := s.blocks[1..]);
      var logs := LogsOf(look, s.blocks[0]);
      if look(s.blocks[0]).None? then (rest, Pending)
      else if logs == [] then PollLogs(look, rest)
      else (rest.(queued := logs[1..]), Ready(Some(logs[0])))
  }

  class LogsSubscription {
    const storage: Storage
    const filter: Filter
    var blocks: seq<Word>
    var closed: bool
    var armed: bool
    var queued: seq<Log>

    constructor (storage: Storage, filter: Filter)
      ensures this.storage == storage && this.filter == filter
      ensures State() == Subscription([], false, false, [])
    {
      this.storage, this.filter := storage, filter;
      blocks, closed, armed, queued := [], false, false, [];
    }

    function State(): (s: Subscription)
      reads this
    {
      Subscription(blocks, closed, armed, queued)
    }

    method PollNext() returns (r: Poll<Log>)
      requires Sound(storage)
      modifies this
      ensures (State(), r) == PollLogs(LookupIn(storage, filter), old(State()))
    {
      while true
        invariant PollLogs(LookupIn(storage, filter), State()) == PollLogs(LookupIn(storage, filter), old(State()))
        decreases |blocks|
      {
        if queued != [] {
          r := Ready(Some(queued[0]));
          queued := queued[1..];
          return;
        }
        if blocks == [] {
          if closed {
            return Ready(None);
          }
          armed := true;
          return Pending;
        }
        var hash := blocks[0];
        blocks := blocks[1..];
        var logs := Fetch(storage, filter, hash);
        if logs.Some? {
          if logs.value == [] {
            continue;
          }
          queued := queued + logs.value;
          NilPlus(logs.value);
        }
        if queued == [] {
          return Pending;
        }
      }
    }
  }

  /* ---------- When a poll returns what ---------- */

  /** A stored block without a matching log: the poll goes on to the next one. */
  predicate Silent(look: Lookup, hash: Word)
  {
    look(hash) == Some([])
  }

  /** The first `k` blocks are silent and the next one, if any, is not. */
  predicate StopsAt(look: Lookup, hashes: seq<Word>, k: nat)
    requires k <= |hashes|
  {
    && (forall i :: 0 <= i < k ==> Silent(look, hashes[i]))
    && (k < |hashes| ==> !Silent(look, hashes[k]))
  }

  /** The answer of a poll with nothing queued that finds `k` silent blocks. */
  function Answer(look: Lookup, s: Subscription, k: nat): (r: (Subscription, Poll<Log>))
    requires k <= |s.blocks|
    requires StopsAt(look, s.blocks, k)
  {
    if k == |s.blocks| then
      if s.closed then (s.(blocks := []), Ready(None)) else (s.(blocks := [], armed := true), Pending)
    else
      var logs := LogsOf(look, s.blocks[k]);
      var rest := s.(blocks := s.blocks[k + 1..]);
      if look(s.blocks[k]).None? then (rest, Pending)
      else (rest.(queued := logs[1..]), Ready(Some(logs[0])))
  }

  /** One more silent block in front changes nothing but the count. */
  lemma AnswerPastSilent(look: Lookup, s: Subscription, k: nat)
    requires s.blocks != [] && Silent(look, s.blocks[0])
    requires k < |s.blocks| && StopsAt(look, s.blocks[1..], k)
    ensures StopsAt(look, s.blocks, k + 1)
    ensures Answer(look, s.(blocks := s.blocks[1..]), k) == Answer(look, s, k + 1)
  {
    var rest := s.blocks[1..];
    assert forall i :: 0 < i < |s.blocks| ==> s.blocks[i] == rest[i - 1];
    if k < |rest| {
      assert rest[k + 1..] == s.blocks[k + 2..];
    }
  }

  lemma {:induction false} PollAnswers(look: Lookup, s: Subscription) returns (k: nat)
    requires s.queued == []
    ensures k <= |s.blocks| && StopsAt(look, s.blocks, k)
    ensures PollLogs(look, s) == Answer(look, s, k)
    decreases |s.blocks|
  {
    k := 0;
    if s.blocks != [] && Silent(look, s.blocks[0]) {
      var k' := PollAnswers(look, s.(blocks := s.blocks[1..]));
      AnswerPastSilent(look, s, k');
      k := k' + 1;
    }
  }

  /** A missing block comes up before any matching log. */
  ghost predicate MissingFirst(look: Lookup, s: Subscription)
  {
    && s.queued == []
    && exists k: nat ::
         && k < |s.blocks| && look(s.blocks[k]).None?
         && forall i :: 0 <= i < k ==> Silent(look, s.blocks[i])
  }

  /**
   A poll that returns pending has handed its waker to the channel exactly when no missing block
   comes up first. Otherwise nothing will wake the poller, although the channel may hold more blocks.
   */
  lemma PendingIsArmed(look: Lookup, s: Subscription)
    requires Idle(s)
    ensures var (s', r) := PollLogs(look, s);
            && Idle(s')
            && (MissingFirst(look, s) <==> r.Pending? && !s'.armed)
            && (r.Pending? && s'.armed ==> s'.blocks == [] && s'.queued == [] && !s'.closed)
  {
    if s.queued == [] {
      var k := PollAnswers(look, s);
      if k < |s.blocks| && look(s.blocks[k]).Some? {
        assert LogsOf(look, s.blocks[k]) != [];
      }
    }
  }

  /** Nothing wakes a poller that was left without a waker, whatever is announced to it. */
  predicate Stalled(s: Subscription)
  {
    s.queued == [] && !s.armed && s.blocks != []
  }

  /** Two notifications, the first of a block that is gone: the poll is pending, the second waits. */
  lemma MissingBlockStalls(look: Lookup, gone: Word, next: Word)
    requires look(gone).None?
    ensures var s := Notify(Notify(Subscription([], false, true, []), gone), next);
            var (s', r) := PollLogs(look, s);
            r == Pending && Stalled(s') && s'.blocks == [next]
  {
    var s := Notify(Notify(Subscription([], false, true, []), gone), next);
    assert s.blocks == [gone, next];
    assert s.blocks[1..] == [next];
  }

  /* ---------- The polled filter ---------- */

  datatype FilterState = FilterState(blocks: seq<Word>, closed: bool, historic: Option<seq<Log>>)

  function Historic(f: FilterState): (logs: seq<Log>)
  {
    if f.historic.Some? then f.historic.value else []
  }

  class LogsFilter {
    const storage: Storage
    const filter: Filter
    var blocks: seq<Word>
    var closed: bool
    var historic: Option<seq<Log>>

    constructor (storage: Storage, filter: Filter, historic: Option<seq<Log>>)
      ensures this.storage == storage && this.filter == filter
      ensures State() == FilterState([], false, historic)
    {
      this.storage, this.filter, this.historic := storage, filter, historic;
      blocks, closed := [], false;
    }

    function State(): (s: FilterState)
      reads this
    {
      FilterState(blocks, closed, historic)
    }

    method PollAll() returns (logs: seq<Log>)
      requires Sound(storage)
      modifies this
      ensures State() == old(State()).(blocks := [], historic := None)
      ensures logs == old(Historic(State())) + Delivered(LookupIn(storage, filter), old(blocks))
    {
      ghost var look := LookupIn(storage, filter);
      ghost var first, all := Historic(State()), blocks;
      ghost var n := 0;
      logs := if historic.Some? then historic.value else [];
      historic := None;
      while blocks != []
        invariant n <= |all| && blocks == all[n..]
        invariant logs == first + Delivered(look, all[..n])
        invariant closed == old(closed) && historic == None
        decreases |blocks|
      {
        var hash := blocks[0];
        blocks := blocks[1..];
        assert hash == all[n] && blocks == all[n + 1..];
        DeliveredNext(look, first, all, n);
        var more := Fetch(storage, filter, hash);
        assert more == look(hash);
        if more.Some? {
          logs := logs + more.value;
        } else {
          NilPlus(logs);
        }
        n := n + 1;
      }
      assert all[..n] == all;
    }
  }

  lemma DeliveredPush(look: Lookup, hashes: seq<Word>, hash: Word)
    ensures Delivered(look, hashes + [hash])
            == Delivered(look, hashes) + LogsOf(look, hash)
  {
    PushFrontLast(hashes, hash);
  }

  lemma DeliveredNext(look: Lookup, before: seq<Log>, hashes: seq<Word>, n: nat)
    requires n < |hashes|
    ensures before + Delivered(look, hashes[..n + 1])
            == (before + Delivered(look, hashes[..n])) + LogsOf(look, hashes[n])
  {
    DeliveredPush(look, hashes[..n], hashes[n]);
    assert hashes[..n] + [hashes[n]] == hashes[..n + 1];
    Assoc(before, Delivered(look, hashes[..n]), LogsOf(look, hashes[n]));
  }

  lemma {:induction false} DeliveredConcat(look: Lookup, a: seq<Word>, b: seq<Word>)
    ensures Delivered(look, a + b) == Delivered(look, a) + Delivered(look, b)
  {
    if b == [] {
      assert a + b == a;
    } else {
      FrontLast(b);
      assert a + b == (a + Front(b)) + [Last(b)];
      DeliveredPush(look, a + Front(b), Last(b));
      DeliveredConcat(look, a, Front(b));
      Assoc(Delivered(look, a), Delivered(look, Front(b)), LogsOf(look, Last(b)));
    }
  }

  /* ---------- Runs ---------- */

  datatype Event = Announce(hash: Word) | Shutdown | PollSubscription | PollFilter

  /** Both consumers of the same notifications, and what each has handed out so far. */
  datatype World = World(
    notified: seq<Word>,
    sub: Subscription, emitted: seq<Log>,
    fil: FilterState, returned: seq<Log>)

  function Initial(historic: Option<seq<Log>>): (w: World)
  {
    World([], Subscription([], false, false, []), [], FilterState([], false, historic), [])
  }

  function Step(look: Lookup, w: World, e: Event): (w': World)
  {
    match e
    case Announce(hash) =>
      w.(notified := if w.sub.closed then w.notified else w.notified + [hash],
         sub := Notify(w.sub, hash),
         fil := if w.fil.closed then w.fil else w.fil.(blocks := w.fil.blocks + [hash]))
    case Shutdown =>
      w.(sub := Close(w.sub), fil := w.fil.(closed := true))
    case PollSubscription =>
      var (s, r) := PollLogs(look, w.sub);
      w.(sub := s,
         emitted := w.emitted + Output(r))
    case PollFilter =>
      w.(fil := w.fil.(blocks := [], historic := None),
         returned := w.returned + (Historic(w.fil) + Delivered(look, w.fil.blocks)))
  }

  function Run(look: Lookup, w: World, events: seq<Event>): (w': World)
  {
    if events == [] then w
    else Step(look, Run(look, w, Front(events)), Last(events))
  }

  /** What the subscription has sent and still holds are the logs of what it has consumed. */
  predicate SubscriptionConserves(look: Lookup, notified: seq<Word>, sub: Subscription,
                                  emitted: seq<Log>, consumed: seq<Word>)
  {
    && notified == consumed + sub.blocks
    && emitted + sub.queued == Delivered(look, consumed)
    && Idle(sub)
  }

  /** What the filter has returned are the earlier logs, then those of what it has consumed. */
  predicate FilterConserves(look: Lookup, notified: seq<Word>, fil: FilterState,
                            returned: seq<Log>, before: seq<Log>, consumed: seq<Word>)
  {
    && notified == consumed + fil.blocks
    && returned + Historic(fil) == before + Delivered(look, consumed)
    && (fil.historic.Some? ==> consumed == [] && returned == [])
  }

  /** Nothing is lost, repeated or reordered, on either side. */
  predicate Conserved(look: Lookup, w: World, before: seq<Log>,
                      bySub: seq<Word>, byFil: seq<Word>)
  {
    && SubscriptionConserves(look, w.notified, w.sub, w.emitted, bySub)
    && FilterConserves(look, w.notified, w.fil, w.returned, before, byFil)
    && w.sub.closed == w.fil.closed
  }

  /** The logs a poll hands out: one or none. */
  function Output(r: Poll<Log>): (out: seq<Log>)
  {
    if r.Ready? && r.value.Some? then [r.value.value] else []
  }

  lemma {:induction false} SilentDeliverNothing(look: Lookup, hashes: seq<Word>, k: nat)
    requires k <= |hashes|
    requires forall i :: 0 <= i < k ==> Silent(look, hashes[i])
    ensures Delivered(look, hashes[..k]) == []
  {
    if k > 0 {
      SilentDeliverNothing(look, hashes, k - 1);
      DeliveredNext(look, [], hashes, k - 1);
      assert Silent(look, hashes[k - 1]);
    }
  }

  /** The blocks up to the first that is not silent deliver just the logs of that one. */
  lemma StopDelivers(look: Lookup, hashes: seq<Word>, k: nat)
    requires k < |hashes| && StopsAt(look, hashes, k)
    ensures Delivered(look, hashes[..k + 1]) == LogsOf(look, hashes[k])
  {
    SilentDeliverNothing(look, hashes, k);
    DeliveredNext(look, [], hashes, k);
  }

  lemma TakeDrop<T>(s: seq<T>, k: nat)
    requires k <= |s|
    ensures s[..k] + s[k..] == s
  {}

  lemma HeadTail<T>(s: seq<T>)
    requires s != []
    ensures [s[0]] + s[1..] == s
  {}

  /** The poll finds only silent blocks: it takes them all and hands out nothing. */
  lemma ExhaustedConserves(look: Lookup, s: Subscription)
    returns (s': Subscription, r: Poll<Log>)
    requires s.queued == [] && StopsAt(look, s.blocks, |s.blocks|)
    ensures Answer(look, s, |s.blocks|) == (s', r)
    ensures s'.blocks == [] && s'.queued == [] && s'.closed == s.closed && Output(r) == []
    ensures Delivered(look, s.blocks) == []
  {
    SilentDeliverNothing(look, s.blocks, |s.blocks|);
    assert s.blocks[..|s.blocks|] == s.blocks;
    s' := s.(blocks := [], armed := s.closed ==> s.armed);
    r := if s.closed then Ready(None) else Pending;
  }

  /** The poll stops at a block: it takes the blocks up to it and owes its logs. */
  lemma StoppedConserves(look: Lookup, s: Subscription, k: nat)
    returns (s': Subscription, r: Poll<Log>)
    requires s.queued == [] && k < |s.blocks| && StopsAt(look, s.blocks, k)
    ensures Answer(look, s, k) == (s', r)
    ensures s'.blocks == s.blocks[k + 1..] && s'.closed == s.closed
    ensures Output(r) + s'.queued == LogsOf(look, s.blocks[k])
  {
    var logs := LogsOf(look, s.blocks[k]);
    s', r := s.(blocks := s.blocks[k + 1..]), Pending;
    if look(s.blocks[k]).Some? {
      HeadTail(logs);
      s', r := s'.(queued := logs[1..]), Ready(Some(logs[0]));
    }
  }

  /** What one poll of the subscription takes from the channel and hands out. */
  lemma PollConserves(look: Lookup, s: Subscription)
    returns (s': Subscription, r: Poll<Log>, taken: seq<Word>)
    ensures PollLogs(look, s) == (s', r)
    ensures s.blocks == taken + s'.blocks && s'.closed == s.closed
    ensures s.queued + Delivered(look, taken) == Output(r) + s'.queued
  {
    if s.queued != [] {
      s', r, taken := s.(queued := s.queued[1..]), Ready(Some(s.queued[0])), [];
      HeadTail(s.queued);
      NilPlus(s.queued);
    } else {
      var k := PollAnswers(look, s);
      if k == |s.blocks| {
        taken := s.blocks;
        NilPlus(s.blocks);
        s', r := ExhaustedConserves(look, s);
      } else {
        taken := s.blocks[..k + 1];
        TakeDrop(s.blocks, k + 1);
        NilPlus(LogsOf(look, s.blocks[k]));
        StopDelivers(look, s.blocks, k);
        s', r := StoppedConserves(look, s, k);
      }
    }
  }

  lemma SubscriptionStep(look: Lookup, notified: seq<Word>, s: Subscription,
                         emitted: seq<Log>, consumed: seq<Word>)
    returns (s': Subscription, r: Poll<Log>, consumed': seq<Word>)
    requires SubscriptionConserves(look, notified, s, emitted, consumed)
    ensures PollLogs(look, s) == (s', r) && s'.closed == s.closed
    ensures SubscriptionConserves(look, notified, s', emitted + Output(r), consumed')
  {
    var taken;
    PendingIsArmed(look, s);
    s', r, taken := PollConserves(look, s);
    consumed' := consumed + taken;
    DeliveredConcat(look, consumed, taken);
    Assoc(consumed, taken, s'.blocks);
    Assoc(emitted, s.queued, Delivered(look, taken));
    Assoc(emitted, Output(r), s'.queued);
  }

  lemma FilterStep(look: Lookup, notified: seq<Word>, f: FilterState,
                   returned: seq<Log>, before: seq<Log>, consumed: seq<Word>)
    requires FilterConserves(look, notified, f, returned, before, consumed)
    ensures FilterConserves(look, notified, f.(blocks := [], historic := None),
                            returned + (Historic(f) + Delivered(look, f.blocks)),
                            before, notified)
  {
    DeliveredConcat(look, consumed, f.blocks);
    Assoc(returned, Historic(f), Delivered(look, f.blocks));
    Assoc(before, Delivered(look, consumed), Delivered(look, f.blocks));
  }

  lemma {:induction false} RunConserves(look: Lookup, historic: Option<seq<Log>>,
                                        events: seq<Event>)
    returns (bySub: seq<Word>, byFil: seq<Word>)
    ensures Conserved(look, Run(look, Initial(historic), events),
                      Historic(Initial(historic).fil), bySub, byFil)
  {
    bySub, byFil := [], [];
    if events != [] {
      var before := Historic(Initial(historic).fil);
      bySub, byFil := RunConserves(look, historic, Front(events));
      var w := Run(look, Initial(historic), Front(events));
      match Last(events)
      case Announce(hash) =>
        Assoc(bySub, w.sub.blocks, [hash]);
        Assoc(byFil, w.fil.blocks, [hash]);
      case Shutdown =>
      case PollSubscription =>
        var s', r;
        s', r, bySub := SubscriptionStep(look, w.notified, w.sub, w.emitted, bySub);
      case PollFilter =>
        FilterStep(look, w.notified, w.fil, w.returned, before, byFil);
        byFil := w.notified;
    }
  }

  /**
   Whatever the order of notifications and polls: once both consumers have taken every notification
   and the subscription has sent what it holds, both have reported the same logs in the same order,
   the filter after the logs that existed before it.
   */
  lemma ConsumersAgree(look: Lookup, historic: Option<seq<Log>>, events: seq<Event>)
    ensures var w := Run(look, Initial(historic), events);
            w.sub.blocks == [] && w.sub.queued == [] && w.fil.blocks == [] && w.fil.historic.None? ==>
              && w.emitted == Delivered(look, w.notified)
              && w.returned == Historic(Initial(historic).fil) + w.emitted
  {
    var bySub, byFil := RunConserves(look, historic, events);
    var w := Run(look, Initial(historic), events);
    if w.sub.blocks == [] && w.sub.queued == [] && w.fil.blocks == [] && w.fil.historic.None? {
      assert bySub + w.sub.blocks == bySub && byFil + w.fil.blocks == byFil;
      assert w.emitted + w.sub.queued == w.emitted;
      assert w.returned + Historic(w.fil) == w.returned;
    }
  }
}
