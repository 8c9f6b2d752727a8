/**
 `setArbitraryStorage` and `copyStorage`: slots that were never touched get a random value on
 their first read, shared through a cache between a source account and its copies.
 */
module ArbitraryStorage {
  import opened Wrappers

  type Address = nat
  type Word = nat
  type Slots = map<Word, Word>

  /** What the database holds below the journal. */
  type Database = (Address, Word) -> Word

  /**
   `values` caches the generated slots of each arbitrary account, `copies` maps a copy to its
   source, and `journal` holds the slots of each account that this transaction has warmed.
   */
  datatype State = State(
    values: map<Address, Slots>,
    copies: map<Address, Address>,
    journal: map<Address, Slots>)

  const EMPTY := State(map[], map[], map[])

  function SlotsOf(m: map<Address, Slots>, a: Address): (s: Slots)
  {
    if a in m then m[a] else map[]
  }

  function Put(m: map<Address, Slots>, a: Address, slot: Word, value: Word): (m': map<Address, Slots>)
  {
    m[a := SlotsOf(m, a)[slot := value]]
  }

  /* ---------- The cheatcodes and the read hook ---------- */

  function MarkArbitrary(s: State, a: Address): (s': State)
  {
    s.(values := s.values[a := map[]])
  }

  /** The copy cheatcode; it refuses a target that has arbitrary storage itself. */
  function CopyStorage(s: State, from: Address, to: Address): (s': State)
  {
    if to in s.values then s else
    s.(journal := s.journal[to := SlotsOf(s.journal, from)],
       copies := if from in s.values then s.copies[to := from] else s.copies)
  }

  /** Saves a generated value; None where the source's `expect` would panic. */
  function Save(s: State, a: Address, slot: Word, data: Word): (r: Option<State>)
  {
    if a !in s.values then None
    else Some(s.(values := Put(s.values, a, slot, data), journal := Put(s.journal, a, slot, data)))
  }

  /** Copies the source's value, or generates one for both; None where `expect` would panic. */
  function Copy(s: State, target: Address, slot: Word, random: Word): (r: Option<State>)
  {
    if target !in s.copies || s.copies[target] !in s.values then None else
    var source := s.copies[target];
    if slot in s.values[source] then
      Some(s.(journal := Put(s.journal, target, slot, s.values[source][slot])))
    else
      Some(s.(values := Put(s.values, source, slot, random),
              journal := Put(Put(s.journal, source, slot, random), target, slot, random)))
  }

  /** A read of a slot: a warm slot is returned, a cold zero slot may be filled first. */
  function Read(db: Database, s: State, a: Address, slot: Word, random: Word): (r: Option<State>)
  {
    if slot in SlotsOf(s.journal, a) then Some(s) else
    var loaded := s.(journal := Put(s.journal, a, slot, db(a, slot)));
    if db(a, slot) != 0 then Some(loaded)
    else if a in s.values then Save(loaded, a, slot, random)
    else if a in s.copies then Copy(loaded, a, slot, random)
    else Some(loaded)
  }

  lemma ReadWarms(db: Database, s: State, a: Address, slot: Word, random: Word)
    ensures var r := Read(db, s, a, slot, random);
            r.Some? ==> slot in SlotsOf(r.value.journal, a)
  {}

  function ValueRead(s: State, a: Address, slot: Word): (v: Word)
    requires slot in SlotsOf(s.journal, a)
  {
    SlotsOf(s.journal, a)[slot]
  }

  class Inspector {
    var values: map<Address, Slots>
    var copies: map<Address, Address>
    var journal: map<Address, Slots>

    ghost function Value(): State
      reads this
    {
      State(values, copies, journal)
    }

    constructor ()
      ensures Value() == EMPTY
    {
      values, copies, journal := map[], map[], map[];
    }

    method SetArbitraryStorage(target: Address)
      modifies this
      ensures Value() == MarkArbitrary(old(Value()), target)
    {
      values := values[target := map[]];
    }

    method CopyStorageCall(from: Address, to: Address) returns (ok: bool)
      modifies this
      ensures ok == (to !in old(values))
      ensures Value() == CopyStorage(old(Value()), from, to)
    {
      if to in values {
        return false;
      }
      journal := journal[to := SlotsOf(journal, from)];
      if from in values {
        copies := copies[to := from];
      }
      return true;
    }

    /** `load` and the hook before `SLOAD`, on a state that does not make them panic. */
    method Load(db: Database, target: Address, slot: Word, random: Word) returns (value: Word)
      requires Read(db, Value(), target, slot, random).Some?
      modifies this
      ensures Value() == Read(db, old(Value()), target, slot, random).value
      ensures slot in SlotsOf(journal, target) && value == SlotsOf(journal, target)[slot]
    {
      if slot !in SlotsOf(journal, target) {
        value := db(target, slot);
        journal := Put(journal, target, slot, value);
        if value == 0 {
          if target in values {
            value := random;
            values := Put(values, target, slot, value);
            journal := Put(journal, target, slot, value);
          } else if target in copies {
            var source := copies[target];
            if slot in values[source] {
              value := values[source][slot];
            } else {
              value := random;
              values := Put(values, source, slot, value);
              journal := Put(journal, source, slot, value);
            }
            journal := Put(journal, target, slot, value);
          }
        }
      } else {
        value := SlotsOf(journal, target)[slot];
      }
    }
  }

  /* ---------- Runs ---------- */

  datatype Event =
    | SetArbitrary(target: Address)
    | CopyTo(from: Address, to: Address)
    | ReadSlot(account: Address, slot: Word, random: Word)

  function Apply(db: Database, s: State, e: Event): (r: Option<State>)
  {
    match e
    case SetArbitrary(target) => Some(MarkArbitrary(s, target))
    case CopyTo(from, to) => Some(CopyStorage(s, from, to))
    case ReadSlot(a, slot, random) => Read(db, s, a, slot, random)
  }

  function Run(db: Database, s: State, events: seq<Event>): (r: Option<State>)
    decreases |events|
  {
    if events == [] then Some(s) else
    var s' := Apply(db, s, events[0]);
    if s'.None? then None else Run(db, s'.value, events[1..])
  }

  predicate SourcesKnown(s: State)
  {
    forall t :: t in s.copies ==> s.copies[t] in s.values
  }

  /** The state after an event, which never fails. */
  function Next(db: Database, s: State, e: Event): (s': State)
    requires SourcesKnown(s)
    ensures Apply(db, s, e) == Some(s') && SourcesKnown(s')
  {
    Apply(db, s, e).value
  }

  /** In every run whatsoever the lookups behind `expect` succeed. */
  lemma {:induction false} LookupsNeverFail(db: Database, s: State, events: seq<Event>)
    requires SourcesKnown(s)
    ensures Run(db, s, events).Some? && SourcesKnown(Run(db, s, events).value)
    decreases |events|
  {
    if events != [] {
      var s' := Next(db, s, events[0]);
      LookupsNeverFail(db, s', events[1..]);
    }
  }

  /* ---------- Coherence of one slot ---------- */

  /** The account takes its generated slots from `source`: the source itself or a copy of it. */
  predicate Member(s: State, a: Address, source: Address)
  {
    source in s.values && (a == source || (a !in s.values && a in s.copies && s.copies[a] == source))
  }

  predicate Warm(s: State, a: Address, k: Word)
  {
    k in SlotsOf(s.journal, a)
  }

  /** The value that the source and all its copies have for a slot, once there is one. */
  function Agreed(db: Database, s: State, source: Address, k: Word): (v: Option<Word>)
  {
    if Warm(s, source, k) then Some(SlotsOf(s.journal, source)[k])
    else if db(source, k) != 0 then Some(db(source, k))
    else None
  }

  /** The source's cache and journal agree on the slot. */
  predicate Cached(s: State, source: Address, k: Word)
    requires source in s.values
  {
    k in s.values[source] ==> Warm(s, source, k) && SlotsOf(s.journal, source)[k] == s.values[source][k]
  }

  /**
   A cold account linked to `source` would find the agreed value: its own stored value is the agreed
   one, or it holds none and finds the cached value, or nobody has a value yet.
   */
  predicate Finds(db: Database, s: State, a: Address, source: Address, k: Word)
    requires source in s.values
  {
    if db(a, k) != 0 then Agreed(db, s, source, k) == Some(db(a, k))
    else k in s.values[source] || Agreed(db, s, source, k).None?
  }

  /** An account and its source: what is warm is agreed on, and what is cold will be. */
  predicate SlotCoherent(db: Database, s: State, a: Address, source: Address, k: Word)
    requires source in s.values
  {
    && Cached(s, source, k)
    && (if Warm(s, a, k) then Agreed(db, s, source, k) == Some(SlotsOf(s.journal, a)[k])
        else a == source || Finds(db, s, a, source, k))
  }

  ghost predicate Coherent(db: Database, s: State, k: Word)
  {
    && SourcesKnown(s)
    && forall a, source :: Member(s, a, source) ==> SlotCoherent(db, s, a, source, k)
  }

  /** A copy agrees on slot `k`: the source has warmed it, or both accounts hold it alike. */
  predicate Shares(db: Database, s: State, from: Address, to: Address, k: Word)
  {
    Warm(s, from, k) || db(to, k) == db(from, k)
  }

  /**
   A plain account, copied to one that stays linked to `source`, brings what is agreed on: the value
   it has warmed is the agreed one, or it leaves the linked account cold and able to find it.
   */
  predicate Rejoins(db: Database, s: State, from: Address, to: Address, source: Address, k: Word)
    requires source in s.values
  {
    if Warm(s, from, k) then Agreed(db, s, source, k) == Some(SlotsOf(s.journal, from)[k])
    else Finds(db, s, to, source, k)
  }

  /** Some copy of the account is cold and has to find the generated value in its cache. */
  predicate AwaitsCache(db: Database, s: State, source: Address, k: Word)
  {
    exists t :: t in s.copies && t !in s.values && s.copies[t] == source && !Warm(s, t, k) && db(t, k) == 0
  }

  /**
   What an event may do as far as slot `k` is concerned. Marking a source again empties its cache, so
   no copy may await a value generated there. A copy of an arbitrary account has to share the slot. A
   copy of a plain account leaves an existing link as it is, so it has to rejoin it.
   */
  predicate Allowed(db: Database, s: State, e: Event, k: Word)
    requires SourcesKnown(s)
  {
    match e
    case SetArbitrary(a) => a in s.values && k in s.values[a] ==> !AwaitsCache(db, s, a, k)
    case CopyTo(from, to) =>
      || to in s.values
      || (if from in s.values then Shares(db, s, from, to, k)
          else to in s.copies ==> Rejoins(db, s, from, to, s.copies[to], k))
    case ReadSlot(_, _, _) => true
  }

  predicate AllowedRun(db: Database, s: State, events: seq<Event>, k: Word)
    requires SourcesKnown(s)
    decreases |events|
  {
    events == [] ||
    (Allowed(db, s, events[0], k) && AllowedRun(db, Next(db, s, events[0]), events[1..], k))
  }

  /** A value once agreed on stays agreed on. */
  ghost predicate Persists(db: Database, s: State, s': State, k: Word)
  {
    forall source :: source in s.values ==>
      && source in s'.values
      && (Agreed(db, s, source, k).Some? ==> Agreed(db, s', source, k) == Agreed(db, s, source, k))
  }

  /** A copy keeps the slot coherent if and only if it is allowed. */
  lemma CopyCoherentIff(db: Database, s: State, from: Address, to: Address, k: Word)
    requires Coherent(db, s, k)
    ensures Coherent(db, CopyStorage(s, from, to), k) <==> Allowed(db, s, CopyTo(from, to), k)
  {
    var s' := CopyStorage(s, from, to);
    if to !in s.values {
      var linked := from in s.values || to in s.copies;
      if linked {
        var source := if from in s.values then from else s.copies[to];
        assert Member(s', to, source) && Member(s, source, source);
        assert SlotCoherent(db, s, source, source, k);
        assert SlotCoherent(db, s', to, source, k) <==> Allowed(db, s, CopyTo(from, to), k);
      }
      forall a, source | a != to && Member(s', a, source)
        ensures SlotCoherent(db, s', a, source, k)
      {
        assert Member(s, a, source);
        assert SlotCoherent(db, s, a, source, k);
      }
    }
  }

  /** Marking keeps the slot coherent if and only if it is allowed. */
  lemma MarkCoherentIff(db: Database, s: State, target: Address, k: Word)
    requires Coherent(db, s, k)
    ensures Coherent(db, MarkArbitrary(s, target), k) <==> Allowed(db, s, SetArbitrary(target), k)
  {
    var s' := MarkArbitrary(s, target);
    if Allowed(db, s, SetArbitrary(target), k) {
      forall a, source | Member(s', a, source)
        ensures SlotCoherent(db, s', a, source, k)
      {
        if source != target || target in s.values {
          assert Member(s, a, source);
          assert SlotCoherent(db, s, a, source, k);
        } else {
          assert a == target;
        }
      }
    } else {
      var t :| t in s.copies && t !in s.values && s.copies[t] == target && !Warm(s, t, k) && db(t, k) == 0;
      assert Member(s, t, target) && Member(s, target, target);
      assert SlotCoherent(db, s, target, target, k);
      assert Member(s', t, target) && !SlotCoherent(db, s', t, target, k);
    }
  }

  predicate SameSlot(m: Slots, m': Slots, k: Word)
  {
    (k in m <==> k in m') && (k in m ==> m[k] == m'[k])
  }

  lemma PutElsewhere(m: map<Address, Slots>, a: Address, slot: Word, value: Word, x: Address, k: Word)
    requires slot != k
    ensures SameSlot(SlotsOf(m, x), SlotsOf(Put(m, a, slot, value), x), k)
  {}

  /** A read of another slot leaves slot `k` of every account as it was. */
  lemma ReadElsewhere(db: Database, s: State, a: Address, slot: Word, random: Word, x: Address, k: Word)
    returns (s': State)
    requires SourcesKnown(s) && slot != k
    ensures Read(db, s, a, slot, random) == Some(s')
    ensures forall y :: y in s.values ==> y in s'.values
    ensures SameSlot(SlotsOf(s.journal, x), SlotsOf(s'.journal, x), k)
    ensures SameSlot(SlotsOf(s.values, x), SlotsOf(s'.values, x), k)
  {
    s' := Read(db, s, a, slot, random).value;
    if !Warm(s, a, slot) {
      PutElsewhere(s.journal, a, slot, db(a, slot), x, k);
      var j := Put(s.journal, a, slot, db(a, slot));
      if db(a, slot) == 0 && a in s.values {
        PutElsewhere(j, a, slot, random, x, k);
        PutElsewhere(s.values, a, slot, random, x, k);
      } else if db(a, slot) == 0 && a in s.copies {
        var source := s.copies[a];
        if slot in s.values[source] {
          PutElsewhere(j, a, slot, s.values[source][slot], x, k);
        } else {
          PutElsewhere(s.values, source, slot, random, x, k);
          PutElsewhere(j, source, slot, random, x, k);
          PutElsewhere(Put(j, source, slot, random), a, slot, random, x, k);
        }
      }
    }
  }

  lemma OtherReadKeepsSlot(db: Database, s: State, a: Address, slot: Word, random: Word, b: Address,
                           source: Address, k: Word)
    requires SourcesKnown(s) && source in s.values && slot != k
    requires SlotCoherent(db, s, b, source, k)
    ensures var r := Read(db, s, a, slot, random);
            r.Some? && source in r.value.values && SlotCoherent(db, r.value, b, source, k)
  {
    var s1 := ReadElsewhere(db, s, a, slot, random, b, k);
    var s2 := ReadElsewhere(db, s, a, slot, random, source, k);
  }

  lemma ReadKeepsSlot(db: Database, s: State, a: Address, slot: Word, random: Word, b: Address,
                      source: Address, k: Word)
    requires Coherent(db, s, k) && Member(s, b, source) && Member(s, source, source)
    ensures var r := Read(db, s, a, slot, random);
            r.Some? && source in r.value.values && SlotCoherent(db, r.value, b, source, k)
  {
    assert SlotCoherent(db, s, b, source, k) && SlotCoherent(db, s, source, source, k);
    if slot != k {
      OtherReadKeepsSlot(db, s, a, slot, random, b, source, k);
    } else if !Warm(s, a, k) {
      if db(a, k) == 0 && a !in s.values && a in s.copies {
        CopyKeepsSlot(db, s, a, random, b, source, k);
      } else if Member(s, a, source) {
        assert SlotCoherent(db, s, a, source, k);
      }
    }
  }

  lemma CopyKeepsSlot(db: Database, s: State, a: Address, random: Word, b: Address,
                      source: Address, k: Word)
    requires Coherent(db, s, k) && Member(s, b, source)
    requires SlotCoherent(db, s, b, source, k) && SlotCoherent(db, s, source, source, k)
    requires !Warm(s, a, k) && db(a, k) == 0
    requires a !in s.values && a in s.copies
    ensures var r := Copy(s.(journal := Put(s.journal, a, k, 0)), a, k, random);
            r.Some? && source in r.value.values && SlotCoherent(db, r.value, b, source, k)
  {
    var origin := s.copies[a];
    assert Member(s, a, origin) && Member(s, origin, origin);
    assert SlotCoherent(db, s, a, origin, k);
    assert SlotCoherent(db, s, origin, origin, k);
    assert b == a ==> source == origin;
    assert source != origin ==> b != origin;
  }

  lemma ReadKeepsCoherence(db: Database, s: State, a: Address, slot: Word, random: Word, k: Word)
    requires Coherent(db, s, k)
    ensures var r := Read(db, s, a, slot, random);
            r.Some? && Coherent(db, r.value, k)
  {
    var s' := Read(db, s, a, slot, random).value;
    forall b, source | Member(s', b, source)
      ensures SlotCoherent(db, s', b, source, k)
    {
      assert Member(s, b, source) && Member(s, source, source);
      ReadKeepsSlot(db, s, a, slot, random, b, source, k);
    }
  }

  lemma ReadPersists(db: Database, s: State, a: Address, slot: Word, random: Word, k: Word)
    requires Coherent(db, s, k)
    ensures var r := Read(db, s, a, slot, random);
            r.Some? && Persists(db, s, r.value, k)
  {
    forall source | source in s.values
      ensures var s' := Read(db, s, a, slot, random).value;
              && source in s'.values
              && (Agreed(db, s, source, k).Some? ==>
                    Agreed(db, s', source, k) == Agreed(db, s, source, k))
    {
      if slot != k {
        var s1 := ReadElsewhere(db, s, a, slot, random, source, k);
      } else {
        ReadKeepsAgreed(db, s, a, source, random, k);
      }
    }
  }

  lemma ReadKeepsAgreed(db: Database, s: State, a: Address, source: Address, random: Word, k: Word)
    requires Coherent(db, s, k) && source in s.values
    ensures var r := Read(db, s, a, k, random);
            && r.Some? && source in r.value.values
            && (Agreed(db, s, source, k).Some? ==>
                  Agreed(db, r.value, source, k) == Agreed(db, s, source, k))
  {
    assert Member(s, source, source);
    assert SlotCoherent(db, s, source, source, k);
    if Member(s, a, source) {
      assert SlotCoherent(db, s, a, source, k);
    }
  }

  /** An event keeps the slot coherent, and what is agreed on, if and only if it is allowed. */
  lemma EventCoherentIff(db: Database, s: State, e: Event, k: Word) returns (s': State)
    requires Coherent(db, s, k)
    ensures Apply(db, s, e) == Some(s') && SourcesKnown(s')
    ensures Coherent(db, s', k) <==> Allowed(db, s, e, k)
    ensures Allowed(db, s, e, k) ==> Persists(db, s, s', k)
  {
    s' := Next(db, s, e);
    match e
    case SetArbitrary(target) => MarkCoherentIff(db, s, target, k);
    case CopyTo(from, to) => CopyCoherentIff(db, s, from, to, k);
    case ReadSlot(a, slot, random) =>
      ReadKeepsCoherence(db, s, a, slot, random, k);
      ReadPersists(db, s, a, slot, random, k);
  }

  /** The slot is coherent after every event of a run. */
  ghost predicate AlwaysCoherent(db: Database, s: State, events: seq<Event>, k: Word)
    decreases |events|
  {
    && Coherent(db, s, k)
    && (events != [] ==> AlwaysCoherent(db, Next(db, s, events[0]), events[1..], k))
  }

  /**
   For each slot: source and copies stay coherent throughout a run if and only if every event is
   allowed for it. Then a value they once agreed on never changes.
   */
  lemma {:induction false} RunKeepsCoherence(db: Database, s: State, events: seq<Event>, k: Word)
      returns (s': State)
    requires Coherent(db, s, k)
    ensures Run(db, s, events) == Some(s')
    ensures AlwaysCoherent(db, s, events, k) <==> AllowedRun(db, s, events, k)
    ensures AllowedRun(db, s, events, k) ==> Coherent(db, s', k) && Persists(db, s, s', k)
    decreases |events|
  {
    LookupsNeverFail(db, s, events);
    s' := Run(db, s, events).value;
    if events != [] {
      var s1 := EventCoherentIff(db, s, events[0], k);
      if Allowed(db, s, events[0], k) {
        var s2 := RunKeepsCoherence(db, s1, events[1..], k);
      }
    }
  }

  /** A read by the source or by a copy returns the agreed value. */
  lemma ReadReturnsAgreed(db: Database, s: State, a: Address, source: Address, k: Word,
                          random: Word)
    requires Coherent(db, s, k) && Member(s, a, source)
    ensures var r := Read(db, s, a, k, random);
            && r.Some? && Warm(r.value, a, k) && Member(r.value, a, source)
            && Agreed(db, r.value, source, k) == Some(ValueRead(r.value, a, k))
  {
    ReadKeepsCoherence(db, s, a, k, random, k);
    var s' := Read(db, s, a, k, random).value;
    ReadWarms(db, s, a, k, random);
    assert Member(s', a, source);
    assert SlotCoherent(db, s', a, source, k);
  }

  /* ---------- What coherence is for: all reads agree ---------- */

  /** The state after a run, which never fails. */
  function After(db: Database, s: State, events: seq<Event>): (s': State)
    requires SourcesKnown(s)
    ensures SourcesKnown(s')
  {
    LookupsNeverFail(db, s, events);
    Run(db, s, events).value
  }

  function AfterRead(db: Database, s: State, a: Address, k: Word, random: Word): (s': State)
    requires SourcesKnown(s)
    ensures Read(db, s, a, k, random) == Some(s') && SourcesKnown(s') && Warm(s', a, k)
  {
    ReadWarms(db, s, a, k, random);
    Read(db, s, a, k, random).value
  }

  /**
   The first reader reads the slot, an allowed run follows, the second reader reads it: both read
   the same, provided they belong to `source` when they read.
   */
  predicate ReadAlike(db: Database, s: State, source: Address, k: Word, a: Address, r1: Word,
                      between: seq<Event>, b: Address, r2: Word)
    requires SourcesKnown(s)
  {
    var s1 := AfterRead(db, s, a, k, r1);
    var s2 := After(db, s1, between);
    Member(s, a, source) && AllowedRun(db, s1, between, k) && Member(s2, b, source) ==>
      ValueRead(s1, a, k) == ValueRead(AfterRead(db, s2, b, k, r2), b, k)
  }

  /**
   In every run allowed for a slot, two reads of it by the source or any of its copies return the
   same value, whoever reads first, whatever is drawn and whatever happens between the reads.
   */
  lemma ReadsAgree(db: Database, s: State, source: Address, k: Word, a: Address, r1: Word,
                   between: seq<Event>, b: Address, r2: Word)
    requires Coherent(db, s, k)
    ensures ReadAlike(db, s, source, k, a, r1, between, b, r2)
  {
    var s1 := AfterRead(db, s, a, k, r1);
    var s2 := After(db, s1, between);
    if Member(s, a, source) && AllowedRun(db, s1, between, k) && Member(s2, b, source) {
      ReadReturnsAgreed(db, s, a, source, k, r1);
      ReadKeepsCoherence(db, s, a, k, r1, k);
      var s2' := RunKeepsCoherence(db, s1, between, k);
      ReadReturnsAgreed(db, s2, b, source, k, r2);
      ReadPersists(db, s2, b, k, r2, k);
    }
  }

  predicate AlikeAfter(db: Database, s: State, source: Address, k: Word, before: seq<Event>,
                       a: Address, r1: Word, between: seq<Event>, b: Address, r2: Word)
    requires SourcesKnown(s)
  {
    AllowedRun(db, s, before, k) ==>
      ReadAlike(db, After(db, s, before), source, k, a, r1, between, b, r2)
  }

  /** After every allowed run, any two reads of the slot by a source or its copies are alike. */
  ghost predicate AlwaysAlike(db: Database, s: State, k: Word)
    requires SourcesKnown(s)
  {
    forall source, before, a, r1, between, b, r2 ::
      AlikeAfter(db, s, source, k, before, a, r1, between, b, r2)
  }

  /** The cache of every source agrees with its journal, in every run whatsoever. */
  predicate AllCached(s: State, k: Word)
  {
    forall source :: source in s.values ==> Cached(s, source, k)
  }

  lemma ReadKeepsCached(db: Database, s: State, a: Address, slot: Word, random: Word, source: Address,
                        k: Word)
    requires SourcesKnown(s) && source in s.values && Cached(s, source, k)
    ensures var r := Read(db, s, a, slot, random);
            r.Some? && source in r.value.values && Cached(r.value, source, k)
  {
    if slot != k {
      var s' := ReadElsewhere(db, s, a, slot, random, source, k);
    }
  }

  lemma ApplyKeepsCached(db: Database, s: State, e: Event, k: Word)
    requires SourcesKnown(s) && AllCached(s, k)
    ensures AllCached(Next(db, s, e), k)
  {
    match e
    case SetArbitrary(_) =>
    case CopyTo(_, _) =>
    case ReadSlot(a, slot, random) =>
      forall source | source in Next(db, s, e).values
        ensures Cached(Next(db, s, e), source, k)
      {
        assert source in s.values;
        ReadKeepsCached(db, s, a, slot, random, source, k);
      }
  }

  /** Reading first by `a`, then by `b`, gives two values. */
  lemma Differ(db: Database, s: State, source: Address, k: Word, a: Address, b: Address, r: Word)
    requires SourcesKnown(s) && Member(s, a, source)
    requires var s1 := AfterRead(db, s, a, k, r);
             && Member(s1, b, source)
             && ValueRead(s1, a, k) != ValueRead(AfterRead(db, s1, b, k, r), b, k)
    ensures !AlwaysAlike(db, s, k)
  {
    var s1 := AfterRead(db, s, a, k, r);
    assert After(db, s1, []) == s1 && After(db, s, []) == s;
    assert !ReadAlike(db, s, source, k, a, r, [], b, r);
    assert !AlikeAfter(db, s, source, k, [], a, r, [], b, r);
  }

  /** A source or copy that is not coherent reads another value than its source, for some draw. */
  lemma IncoherentDiffers(db: Database, s: State, a: Address, source: Address, k: Word)
    requires SourcesKnown(s) && AllCached(s, k)
    requires Member(s, a, source) && !SlotCoherent(db, s, a, source, k)
    ensures !AlwaysAlike(db, s, k)
  {
    assert Cached(s, source, k);
    if !Warm(s, a, k) && db(a, k) == 0 {
      var v := Agreed(db, s, source, k).value;
      Differ(db, s, source, k, source, a, v + 1);
    } else {
      var x := if Warm(s, a, k) then SlotsOf(s.journal, a)[k] else db(a, k);
      Differ(db, s, source, k, a, source, x + 1);
    }
  }

  /** A slot is coherent if and only if all reads of it agree, now and after every allowed run. */
  lemma CoherentIffAlike(db: Database, s: State, k: Word)
    requires SourcesKnown(s) && AllCached(s, k)
    ensures Coherent(db, s, k) <==> AlwaysAlike(db, s, k)
  {
    if Coherent(db, s, k) {
      forall source, before, a, r1, between, b, r2
        ensures AlikeAfter(db, s, source, k, before, a, r1, between, b, r2)
      {
        if AllowedRun(db, s, before, k) {
          var s' := RunKeepsCoherence(db, s, before, k);
          ReadsAgree(db, s', source, k, a, r1, between, b, r2);
        }
      }
    } else {
      var a, source :| Member(s, a, source) && !SlotCoherent(db, s, a, source, k);
      IncoherentDiffers(db, s, a, source, k);
    }
  }

  lemma CoherentIsCached(db: Database, s: State, k: Word)
    requires Coherent(db, s, k)
    ensures AllCached(s, k)
  {
    forall source | source in s.values
      ensures Cached(s, source, k)
    {
      assert Member(s, source, source);
      assert SlotCoherent(db, s, source, source, k);
    }
  }

  /**
   From a coherent state, after any one event all reads of a slot agree, for all draws and in every
   allowed continuation, if and only if the event is allowed for the slot. For a copy of an arbitrary
   account this says that the source has warmed the slot or both accounts hold it alike.
   */
  lemma EventAgreesIff(db: Database, s: State, e: Event, k: Word) returns (s': State)
    requires Coherent(db, s, k)
    ensures Apply(db, s, e) == Some(s') && SourcesKnown(s')
    ensures AlwaysAlike(db, s', k) <==> Allowed(db, s, e, k)
  {
    CoherentIsCached(db, s, k);
    ApplyKeepsCached(db, s, e, k);
    s' := EventCoherentIff(db, s, e, k);
    CoherentIffAlike(db, s', k);
  }

  /* ---------- Runs in which they do not agree ---------- */

  /**
   The value an account has read is overwritten by its copy: the database holds 5 for account 1 and
   nothing for account 2. Account 1 reads 5, its copy then draws a value, and account 1 has it too.
   */
  lemma CopyOverwritesSource(db: Database, random: Word)
    requires db(1, 0) == 5 && db(2, 0) == 0
    ensures var s0 := CopyStorage(MarkArbitrary(EMPTY, 1), 1, 2);
            var s1 := Read(db, s0, 1, 0, random);
            && s1.Some? && Warm(s1.value, 1, 0) && ValueRead(s1.value, 1, 0) == 5
            && var s2 := Read(db, s1.value, 2, 0, random);
               && s2.Some? && Warm(s2.value, 1, 0) && ValueRead(s2.value, 1, 0) == random
  {}

  /**
   A copy of a plain account keeps the link of its target: account 3 holds 8 and is copied over the
   copy 2 of account 1. Account 2 reads 8, is still linked, and account 1 reads its own draw.
   */
  lemma PlainCopyKeepsLink(db: Database, random: Word)
    requires db(1, 0) == 0 && db(3, 0) == 8
    ensures var s0 := CopyStorage(MarkArbitrary(EMPTY, 1), 1, 2);
            var s1 := Read(db, s0, 3, 0, random);
            && s1.Some?
            && var s2 := CopyStorage(s1.value, 3, 2);
               && Member(s2, 2, 1) && Warm(s2, 2, 0) && ValueRead(s2, 2, 0) == 8
               && var s3 := Read(db, s2, 1, 0, random);
                  s3.Some? && Warm(s3.value, 1, 0) && ValueRead(s3.value, 1, 0) == random
  {}

  /** A source that is marked again forgets the value it generated: its cold copy draws another. */
  lemma MarkedAgainForgets(db: Database, first: Word, second: Word)
    requires db(1, 0) == 0 && db(2, 0) == 0
    ensures var s0 := CopyStorage(MarkArbitrary(EMPTY, 1), 1, 2);
            var s1 := Read(db, s0, 1, 0, first);
            && s1.Some? && Warm(s1.value, 1, 0) && ValueRead(s1.value, 1, 0) == first
            && var s2 := Read(db, MarkArbitrary(s1.value, 1), 2, 0, second);
               s2.Some? && Warm(s2.value, 2, 0) && ValueRead(s2.value, 2, 0) == second
  {}
}
