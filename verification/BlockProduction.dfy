/**
 Block production in the node service: the miner feeds sets of transactions, the producer mines one
 block at a time with the one backend it owns, and the service drives both whenever it is polled.
 */
module BlockProduction {
  import opened Wrappers

  type Transaction = nat
  type Batch = seq<Transaction>

  /** A block of the chain, and whether this producer mined it. */
  datatype Block = Block(transactions: Batch, ours: bool)

  /**
   The chain as the producer last saw it, genesis first. The producer mines one block at a time, but
   the backend is shared: others may put blocks on the chain as well.
   */
  datatype Backend = Backend(chain: seq<Block>)

  datatype Outcome = Outcome(number: nat, transactions: Batch)

  /** The job that mines a batch; it owns the backend until it is done. */
  datatype Task = Task(backend: Backend, transactions: Batch)

  datatype Producer = Producer(idle: Option<Backend>, mining: Option<Task>, queued: seq<Batch>)

  /** The answer of a mining job: not done yet, or done after others put `others` on the chain. */
  datatype Answer = Busy | Done(others: seq<Batch>)

  function Foreign(batches: seq<Batch>): (blocks: seq<Block>)
    ensures |blocks| == |batches|
  {
    if batches == [] then [] else Foreign(Front(batches)) + [Block(Last(batches), false)]
  }

  function Mine(b: Backend, others: seq<Batch>, transactions: Batch): (r: (Outcome, Backend))
  {
    (Outcome(|b.chain| + |others|, transactions),
     Backend((b.chain + Foreign(others)) + [Block(transactions, true)]))
  }

  function Start(p: Producer): (p': Producer)
  {
    if p.queued != [] && p.idle.Some? then
      Producer(None, Some(Task(p.idle.value, p.queued[0])), p.queued[1..])
    else p
  }

  /** `answer` is what the mining job says, if one is polled. */
  function PollNext(p: Producer, answer: Answer): (r: (Producer, Option<Outcome>))
  {
    var started := Start(p);
    if started.mining.Some? && answer.Done? then
      var task := started.mining.value;
      var (outcome, backend) := Mine(task.backend, answer.others, task.transactions);
      (Producer(Some(backend), None, started.queued), Some(outcome))
    else (started, None)
  }

  /** The one backend is idle or mining, never both and never gone. */
  predicate Exclusive(p: Producer)
  {
    p.idle.Some? <==> p.mining.None?
  }

  /** The batches of the blocks this producer mined. */
  function Ours(chain: seq<Block>): (batches: seq<Batch>)
  {
    if chain == [] then []
    else Ours(Front(chain)) + if Last(chain).ours then [Last(chain).transactions] else []
  }

  function Chain(p: Producer): (chain: seq<Block>)
    requires Exclusive(p)
  {
    if p.mining.Some? then p.mining.value.backend.chain else p.idle.value.chain
  }

  /** The batch being mined and those that wait. */
  function Ahead(p: Producer): (batches: seq<Batch>)
  {
    (if p.mining.Some? then [p.mining.value.transactions] else []) + p.queued
  }

  /** Every batch the producer has been given, in the order of mining. */
  function Backlog(p: Producer): (batches: seq<Batch>)
    requires Exclusive(p)
  {
    Ours(Chain(p)) + Ahead(p)
  }

  /** The batches in flight and in the queue. */
  function Work(p: Producer): (n: nat)
  {
    |p.queued| + if p.mining.Some? then 1 else 0
  }

  /* ---------- One poll of the producer ---------- */

  lemma StartKeeps(p: Producer)
    requires Exclusive(p)
    ensures Exclusive(Start(p)) && Chain(Start(p)) == Chain(p)
    ensures Ahead(Start(p)) == Ahead(p) && Work(Start(p)) == Work(p)
    ensures Start(p).queued != [] ==> Start(p).mining.Some?
    ensures Start(p).mining.Some? <==> Work(p) > 0
  {
    if p.queued != [] && p.idle.Some? {
      assert p.queued == [p.queued[0]] + p.queued[1..];
    }
  }

  lemma OursPush(chain: seq<Block>, block: Block)
    ensures Ours(chain + [block]) == Ours(chain) + if block.ours then [block.transactions] else []
  {
    PushFrontLast(chain, block);
  }

  lemma {:induction false} OursForeign(chain: seq<Block>, others: seq<Batch>)
    ensures Ours(chain + Foreign(others)) == Ours(chain)
    ensures Outcomes(chain + Foreign(others)) == Outcomes(chain)
  {
    if others == [] {
      assert chain + [] == chain;
    } else {
      var block := Block(Last(others), false);
      Assoc(chain, Foreign(Front(others)), [block]);
      OursForeign(chain, Front(others));
      OursPush(chain + Foreign(Front(others)), block);
      OutcomesPush(chain + Foreign(Front(others)), block);
    }
  }

  /** What the pool has to be told about a chain: the heights and batches of our own blocks. */
  function Outcomes(chain: seq<Block>): (r: seq<Outcome>)
  {
    if chain == [] then []
    else Outcomes(Front(chain))
         + if Last(chain).ours then [Outcome(|chain| - 1, Last(chain).transactions)] else []
  }

  lemma OutcomesPush(chain: seq<Block>, block: Block)
    ensures Outcomes(chain + [block]) ==
            Outcomes(chain) + if block.ours then [Outcome(|chain|, block.transactions)] else []
  {
    PushFrontLast(chain, block);
  }

  /** A block that is mined moves its batch to the chain and is reported with its height. */
  lemma MineKeeps(chain: seq<Block>, others: seq<Batch>, transactions: Batch) returns (chain': seq<Block>)
    ensures Mine(Backend(chain), others, transactions) ==
            (Outcome(|chain| + |others|, transactions), Backend(chain'))
    ensures Ours(chain') == Ours(chain) + [transactions]
    ensures Outcomes(chain') == Outcomes(chain) + [Outcome(|chain| + |others|, transactions)]
    ensures chain' == chain + (Foreign(others) + [Block(transactions, true)])
  {
    var before, block := chain + Foreign(others), Block(transactions, true);
    chain' := before + [block];
    OursForeign(chain, others);
    OursPush(before, block);
    OutcomesPush(before, block);
    Assoc(chain, Foreign(others), [block]);
  }

  /** A poll that mines nothing: at most it has started the batch at the front of the queue. */
  lemma PollPending(p: Producer, answer: Answer)
    requires Exclusive(p) && !(answer.Done? && Work(p) > 0)
    ensures PollNext(p, answer) == (Start(p), None)
    ensures Exclusive(Start(p)) && Backlog(Start(p)) == Backlog(p)
  {
    StartKeeps(p);
  }

  /** A poll that mines: the backend is idle again, and one batch fewer is ahead. */
  lemma PollMines(p: Producer, answer: Answer) returns (chain: seq<Block>, batch: Batch, rest: seq<Batch>)
    requires Exclusive(p) && answer.Done? && Work(p) > 0
    ensures PollNext(p, answer) ==
            (Producer(Some(Backend(chain)), None, rest),
             Some(Outcome(|Chain(p)| + |answer.others|, batch)))
    ensures Ahead(p) == [batch] + rest && |rest| == Work(p) - 1
    ensures Ours(chain) == Ours(Chain(p)) + [batch]
    ensures Outcomes(chain) == Outcomes(Chain(p)) + [Outcome(|Chain(p)| + |answer.others|, batch)]
    ensures chain == Chain(p) + (Foreign(answer.others) + [Block(batch, true)])
  {
    StartKeeps(p);
    var started := Start(p);
    batch, rest := started.mining.value.transactions, started.queued;
    chain := MineKeeps(Chain(p), answer.others, batch);
  }

  /** A mined batch moves from the front of the backlog to the end of the chain, and is reported. */
  lemma PollKeeps(p: Producer, answer: Answer) returns (p': Producer, r: Option<Outcome>)
    requires Exclusive(p)
    ensures PollNext(p, answer) == (p', r) && Exclusive(p')
    ensures Backlog(p') == Backlog(p)
    ensures r.Some? <==> answer.Done? && Work(p) > 0
    ensures r.None? ==> p' == Start(p)
    ensures Work(p') == Work(p) - if r.Some? then 1 else 0
    ensures Outcomes(Chain(p')) == Outcomes(Chain(p)) + if r.Some? then [r.value] else []
  {
    if answer.Done? && Work(p) > 0 {
      var chain, batch, rest := PollMines(p, answer);
      p' := Producer(Some(Backend(chain)), None, rest);
      r := Some(Outcome(|Chain(p)| + |answer.others|, batch));
      Assoc(Ours(Chain(p)), [batch], rest);
      assert Ahead(p') == [] + rest == rest;
    } else {
      StartKeeps(p);
      PollPending(p, answer);
      p', r := Start(p), None;
    }
  }

  /* ---------- One poll of the service ---------- */

  /** The environment of a run: how the mining job answers its n-th poll. */
  type Clock = nat -> Answer

  datatype Progress = Progress(producer: Producer, time: nat, mined: seq<Outcome>)

  /** Polls the producer until it is pending. */
  function Drain(s: Progress, ready: Clock): (s': Progress)
    decreases Work(s.producer)
  {
    var (p, r) := PollNext(s.producer, ready(s.time));
    if r.None? then Progress(p, s.time + 1, s.mined)
    else Drain(Progress(p, s.time + 1, s.mined + [r.value]), ready)
  }

  lemma DrainFirst(s: Progress, ready: Clock, p: Producer, r: Option<Outcome>)
    requires PollNext(s.producer, ready(s.time)) == (p, r)
    ensures Drain(s, ready) ==
            if r.None? then Progress(p, s.time + 1, s.mined)
            else Drain(Progress(p, s.time + 1, s.mined + [r.value]), ready)
  {}

  lemma DrainStep(s: Progress, ready: Clock) returns (p: Producer, r: Option<Outcome>)
    requires Exclusive(s.producer)
    ensures PollNext(s.producer, ready(s.time)) == (p, r) && Exclusive(p)
    ensures r.Some? ==> Work(p) < Work(s.producer)
    ensures Drain(s, ready) ==
            if r.None? then Progress(p, s.time + 1, s.mined)
            else Drain(Progress(p, s.time + 1, s.mined + [r.value]), ready)
  {
    p, r := PollKeeps(s.producer, ready(s.time));
    DrainFirst(s, ready, p, r);
  }

  function Feed(p: Producer, batch: Batch): (p': Producer)
  {
    p.(queued := p.queued + [batch])
  }

  /** `feed` is what the miner returns, one batch a poll, before it is pending. */
  function Drive(s: Progress, ready: Clock, feed: seq<Batch>): (s': Progress)
    decreases |feed|
  {
    var s1 := Drain(s, ready);
    if feed == [] then s1
    else Drive(s1.(producer := Feed(s1.producer, feed[0])), ready, feed[1..])
  }

  class BlockProducer {
    var idleBackend: Option<Backend>
    var blockMining: Option<Task>
    var queued: seq<Batch>

    constructor (backend: Backend)
      ensures State() == Producer(Some(backend), None, [])
    {
      idleBackend, blockMining, queued := Some(backend), None, [];
    }

    function State(): (p: Producer)
      reads this
    {
      Producer(idleBackend, blockMining, queued)
    }

    method Next(answer: Answer) returns (r: Option<Outcome>)
      modifies this
      ensures (State(), r) == PollNext(old(State()), answer)
    {
      if queued != [] {
        if idleBackend.Some? {
          var backend := idleBackend.value;
          idleBackend := None;
          var transactions := queued[0];
          queued := queued[1..];
          blockMining := Some(Task(backend, transactions));
        }
      }
      if blockMining.Some? {
        var mining := blockMining.value;
        blockMining := None;
        if answer.Done? {
          var (outcome, backend) := Mine(mining.backend, answer.others, mining.transactions);
          idleBackend := Some(backend);
          return Some(outcome);
        } else {
          blockMining := Some(mining);
        }
      }
      return None;
    }
  }

  class NodeService {
    const blockProducer: BlockProducer
    var time: nat
    /** What the pool was told, block by block. */
    var mined: seq<Outcome>

    constructor (backend: Backend)
      ensures fresh(blockProducer) && State() == Progress(Producer(Some(backend), None, []), 0, [])
    {
      blockProducer := new BlockProducer(backend);
      time, mined := 0, [];
    }

    function State(): (s: Progress)
      reads this, blockProducer
    {
      Progress(blockProducer.State(), time, mined)
    }

    method Poll(ready: Clock, feed: seq<Batch>)
      requires Exclusive(blockProducer.State())
      modifies this, blockProducer
      ensures State() == Drive(old(State()), ready, feed)
      ensures Exclusive(blockProducer.State())
    {
      var given := 0;
      while true
        invariant given <= |feed| && Exclusive(blockProducer.State())
        invariant Drive(State(), ready, feed[given..]) == Drive(old(State()), ready, feed)
        decreases |feed| - given
      {
        DrainAll(ready);
        if given == |feed| {
          break;
        }
        blockProducer.queued := blockProducer.queued + [feed[given]];
        given := given + 1;
      }
    }

    /** The inner loop: report blocks until the producer is pending. */
    method DrainAll(ready: Clock)
      requires Exclusive(blockProducer.State())
      modifies this, blockProducer
      ensures State() == Drain(old(State()), ready)
      ensures Exclusive(blockProducer.State())
    {
      while true
        invariant Exclusive(blockProducer.State())
        invariant Drain(State(), ready) == Drain(old(State()), ready)
        decreases Work(blockProducer.State())
      {
        ghost var p, r := DrainStep(State(), ready);
        var outcome := blockProducer.Next(ready(time));
        assert blockProducer.State() == p && outcome == r;
        time := time + 1;
        if outcome.None? {
          break;
        }
        mined := mined + [outcome.value];
      }
    }
  }

  /* ---------- Runs of the service ---------- */

  /**
   Nothing is lost, duplicated or reordered: our blocks on the chain, the batch in flight and the
   queue together are everything the miner fed, and the pool was told of exactly our blocks, in
   order, with their heights.
   */
  predicate Accounted(s: Progress, fed: seq<Batch>)
  {
    && Exclusive(s.producer)
    && Backlog(s.producer) == fed
    && s.mined == Outcomes(Chain(s.producer))
  }

  /** No batch waits while the backend is idle. */
  predicate KeepsMining(p: Producer)
  {
    p.queued != [] ==> p.mining.Some?
  }

  lemma {:induction false} DrainAccounts(s: Progress, ready: Clock, fed: seq<Batch>)
    requires Accounted(s, fed)
    ensures Accounted(Drain(s, ready), fed) && KeepsMining(Drain(s, ready).producer)
    ensures (forall t :: ready(t).Done?) ==> Work(Drain(s, ready).producer) == 0
    decreases Work(s.producer)
  {
    var p, r := PollKeeps(s.producer, ready(s.time));
    DrainFirst(s, ready, p, r);
    if r.Some? {
      DrainAccounts(Progress(p, s.time + 1, s.mined + [r.value]), ready, fed);
    } else {
      StartKeeps(s.producer);
    }
  }

  lemma FeedAccounts(s: Progress, batch: Batch, fed: seq<Batch>)
    requires Accounted(s, fed)
    ensures Accounted(s.(producer := Feed(s.producer, batch)), fed + [batch])
  {
    var p := s.producer;
    Assoc(if p.mining.Some? then [p.mining.value.transactions] else [], p.queued, [batch]);
    Assoc(Ours(Chain(p)), Ahead(p), [batch]);
  }

  lemma FeedInOrder(fed: seq<Batch>, feed: seq<Batch>)
    requires feed != []
    ensures (fed + [feed[0]]) + feed[1..] == fed + feed
  {
    assert feed == [feed[0]] + feed[1..];
  }

  lemma {:induction false} DriveAccounts(s: Progress, ready: Clock, feed: seq<Batch>, fed: seq<Batch>)
    requires Accounted(s, fed)
    ensures Accounted(Drive(s, ready, feed), fed + feed) && KeepsMining(Drive(s, ready, feed).producer)
    ensures (forall t :: ready(t).Done?) ==> Work(Drive(s, ready, feed).producer) == 0
    decreases |feed|
  {
    DrainAccounts(s, ready, fed);
    if feed == [] {
      assert fed + feed == fed;
    } else {
      var s1 := Drain(s, ready);
      FeedAccounts(s1, feed[0], fed);
      DriveAccounts(s1.(producer := Feed(s1.producer, feed[0])), ready, feed[1..], fed + [feed[0]]);
      FeedInOrder(fed, feed);
    }
  }

  /** A run: one poll of the service for each list of batches the miner has by then. */
  function Run(genesis: seq<Batch>, ready: Clock, feeds: seq<seq<Batch>>): (s: Progress)
  {
    if feeds == [] then Progress(Producer(Some(Backend(Foreign(genesis))), None, []), 0, [])
    else Drive(Run(genesis, ready, Front(feeds)), ready, Last(feeds))
  }

  function Fed(feeds: seq<seq<Batch>>): (fed: seq<Batch>)
  {
    if feeds == [] then [] else Fed(Front(feeds)) + Last(feeds)
  }

  lemma {:induction false} RunAccounts(genesis: seq<Batch>, ready: Clock, feeds: seq<seq<Batch>>)
    ensures Accounted(Run(genesis, ready, feeds), Fed(feeds))
    ensures KeepsMining(Run(genesis, ready, feeds).producer)
    ensures (forall t :: ready(t).Done?) ==> Work(Run(genesis, ready, feeds).producer) == 0
  {
    if feeds == [] {
      OursForeign([], genesis);
      assert [] + Foreign(genesis) == Foreign(genesis);
    } else {
      RunAccounts(genesis, ready, Front(feeds));
      DriveAccounts(Run(genesis, ready, Front(feeds)), ready, Last(feeds), Fed(Front(feeds)));
    }
  }

  /* ---------- What the pool is told ---------- */

  /** The i-th outcome names our i-th block, at its place on the chain. */
  lemma {:induction false} OutcomesAt(chain: seq<Block>, i: nat)
    requires i < |Ours(chain)|
    ensures |Outcomes(chain)| == |Ours(chain)|
    ensures var o := Outcomes(chain)[i];
            && o.transactions == Ours(chain)[i]
            && o.number < |chain| && chain[o.number] == Block(o.transactions, true)
  {
    if i < |Ours(Front(chain))| {
      OutcomesAt(Front(chain), i);
    } else {
      OutcomesLength(Front(chain));
    }
  }

  lemma {:induction false} OutcomesLength(chain: seq<Block>)
    ensures |Outcomes(chain)| == |Ours(chain)|
  {
    if chain != [] {
      OutcomesLength(Front(chain));
    }
  }

  /** The heights increase. */
  lemma {:induction false} OutcomesIncrease(chain: seq<Block>, i: nat, j: nat)
    requires i < j < |Outcomes(chain)|
    ensures Outcomes(chain)[i].number < Outcomes(chain)[j].number
  {
    OutcomesLength(chain);
    OutcomesLength(Front(chain));
    if j < |Outcomes(Front(chain))| {
      OutcomesIncrease(Front(chain), i, j);
    } else {
      OutcomesAt(Front(chain), i);
    }
  }

  /**
   In every run, whoever else mines: the i-th block reported to the pool is the i-th batch the miner
   fed, it is on the chain at the reported height, and the heights increase.
   */
  lemma MinedInOrder(genesis: seq<Batch>, ready: Clock, feeds: seq<seq<Batch>>, i: nat)
    requires i < |Run(genesis, ready, feeds).mined|
    ensures var s := Run(genesis, ready, feeds);
            && Exclusive(s.producer) && i < |Fed(feeds)|
            && s.mined[i].transactions == Fed(feeds)[i]
            && s.mined[i].number < |Chain(s.producer)|
            && Chain(s.producer)[s.mined[i].number] == Block(Fed(feeds)[i], true)
            && forall j :: 0 <= j < i ==> s.mined[j].number < s.mined[i].number
  {
    RunAccounts(genesis, ready, feeds);
    var s := Run(genesis, ready, feeds);
    OutcomesLength(Chain(s.producer));
    OutcomesAt(Chain(s.producer), i);
    assert Ours(Chain(s.producer))[i] == Backlog(s.producer)[i];
    forall j | 0 <= j < i
      ensures s.mined[j].number < s.mined[i].number
    {
      OutcomesIncrease(Chain(s.producer), j, i);
    }
  }

  /** The chain is genesis followed by our own blocks. */
  predicate Alone(chain: seq<Block>, genesis: nat)
  {
    && genesis <= |chain|
    && (forall i :: 0 <= i < genesis ==> !chain[i].ours)
    && (forall i :: genesis <= i < |chain| ==> chain[i].ours)
  }

  lemma AlonePush(chain: seq<Block>, genesis: nat, batch: Batch)
    requires Alone(chain, genesis)
    ensures Alone(chain + ([] + [Block(batch, true)]), genesis)
  {}

  /** A poll of the producer when nobody else mines. */
  lemma AlonePoll(p: Producer, answer: Answer, genesis: nat) returns (p': Producer, r: Option<Outcome>)
    requires Exclusive(p) && Alone(Chain(p), genesis)
    requires answer.Done? ==> answer.others == []
    ensures PollNext(p, answer) == (p', r) && Exclusive(p') && Alone(Chain(p'), genesis)
    ensures r.Some? ==> Work(p') < Work(p)
  {
    if answer.Done? && Work(p) > 0 {
      var chain, batch, rest := PollMines(p, answer);
      p' := Producer(Some(Backend(chain)), None, rest);
      r := Some(Outcome(|Chain(p)| + |answer.others|, batch));
      AlonePush(Chain(p), genesis, batch);
    } else {
      StartKeeps(p);
      PollPending(p, answer);
      p', r := Start(p), None;
    }
  }

  lemma {:induction false} AloneDrain(s: Progress, ready: Clock, genesis: nat)
    requires Exclusive(s.producer) && Alone(Chain(s.producer), genesis)
    requires forall t :: ready(t).Done? ==> ready(t).others == []
    ensures Exclusive(Drain(s, ready).producer) && Alone(Chain(Drain(s, ready).producer), genesis)
    decreases Work(s.producer)
  {
    var p, r := AlonePoll(s.producer, ready(s.time), genesis);
    DrainFirst(s, ready, p, r);
    if r.Some? {
      AloneDrain(Progress(p, s.time + 1, s.mined + [r.value]), ready, genesis);
    }
  }

  lemma {:induction false} AloneDrive(s: Progress, ready: Clock, feed: seq<Batch>, genesis: nat)
    requires Exclusive(s.producer) && Alone(Chain(s.producer), genesis)
    requires forall t :: ready(t).Done? ==> ready(t).others == []
    ensures Exclusive(Drive(s, ready, feed).producer)
    ensures Alone(Chain(Drive(s, ready, feed).producer), genesis)
    decreases |feed|
  {
    AloneDrain(s, ready, genesis);
    if feed != [] {
      var s1 := Drain(s, ready);
      AloneDrive(s1.(producer := Feed(s1.producer, feed[0])), ready, feed[1..], genesis);
    }
  }

  lemma {:induction false} ForeignIsNotOurs(batches: seq<Batch>, i: nat)
    requires i < |batches|
    ensures !Foreign(batches)[i].ours
  {
    if i < |batches| - 1 {
      ForeignIsNotOurs(Front(batches), i);
    }
  }

  lemma {:induction false} AloneRun(genesis: seq<Batch>, ready: Clock, feeds: seq<seq<Batch>>)
    requires forall t :: ready(t).Done? ==> ready(t).others == []
    ensures Exclusive(Run(genesis, ready, feeds).producer)
    ensures Alone(Chain(Run(genesis, ready, feeds).producer), |genesis|)
  {
    if feeds == [] {
      forall i | 0 <= i < |genesis|
        ensures !Foreign(genesis)[i].ours
      {
        ForeignIsNotOurs(genesis, i);
      }
    } else {
      AloneRun(genesis, ready, Front(feeds));
      AloneDrive(Run(genesis, ready, Front(feeds)), ready, Last(feeds), |genesis|);
    }
  }

  lemma {:induction false} AloneOutcomes(chain: seq<Block>, genesis: nat, i: nat)
    requires Alone(chain, genesis)
    ensures |Outcomes(chain)| == |chain| - genesis
    ensures i < |Outcomes(chain)| ==> Outcomes(chain)[i].number == genesis + i
    decreases |chain|
  {
    if chain != [] {
      var front := Front(chain);
      if |chain| == genesis {
        assert !Last(chain).ours;
        assert Alone(front, genesis - 1);
        AloneOutcomes(front, genesis - 1, i);
      } else {
        assert Last(chain).ours;
        assert Alone(front, genesis);
        AloneOutcomes(front, genesis, i);
      }
    }
  }

  /** When nobody else mines, the heights follow genesis without a gap. */
  lemma AloneHeights(genesis: seq<Batch>, ready: Clock, feeds: seq<seq<Batch>>, i: nat)
    requires forall t :: ready(t).Done? ==> ready(t).others == []
    requires i < |Run(genesis, ready, feeds).mined|
    ensures Run(genesis, ready, feeds).mined[i].number == |genesis| + i
  {
    RunAccounts(genesis, ready, feeds);
    AloneRun(genesis, ready, feeds);
    AloneOutcomes(Chain(Run(genesis, ready, feeds).producer), |genesis|, i);
  }

  /** When every mining job is done by the time it is polled, no poll leaves anything behind. */
  lemma NothingLeftBehind(genesis: seq<Batch>, ready: Clock, feeds: seq<seq<Batch>>)
    requires forall t :: ready(t).Done?
    ensures var p := Run(genesis, ready, feeds).producer;
            p.idle.Some? && p.mining.None? && p.queued == [] && Ours(p.idle.value.chain) == Fed(feeds)
  {
    RunAccounts(genesis, ready, feeds);
    var p := Run(genesis, ready, feeds).producer;
    assert Ours(p.idle.value.chain) + [] == Ours(p.idle.value.chain);
  }
}
