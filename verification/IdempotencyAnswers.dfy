/** What every request gets from the idempotency middleware: one answer, the handler's or a
    replay, told from the event log and the program counters alone. */
module IdempotencyAnswers {
  import opened Prelude
  import opened Coordination
  import opened IdempotencyProtocol
  import IdempotencyLog

  /** The event is something goroutine `r` did. A lapse is nobody's. */
  predicate IsBy(e: Event, r: nat) {
    match e
    case Started(q, _) => q == r
    case Ended(q, _, _) => q == r
    case Stored(q, _, _, _) => q == r
    case Lapsed(_, _) => false
    case Replayed(q, _, _, _) => q == r
  }

  /** What goroutine `r` did, in order. */
  function Deeds(log: seq<Event>, r: nat): seq<Event> {
    if log == [] then [] else
      Deeds(log[..|log| - 1], r) + if IsBy(log[|log| - 1], r) then [log[|log| - 1]] else []
  }

  // ---- where a request stands ---------------------------------------------------------------

  /** One replay and nothing else. */
  ghost predicate GotReplay(deeds: seq<Event>, r: nat, key: string) {
    |deeds| == 1 && deeds[0].Replayed? && deeds[0].key == key
  }

  /** The handler has answered `o`. */
  ghost predicate GotOutcome(deeds: seq<Event>, r: nat, key: string, o: Outcome) {
    deeds == [Started(r, key), Ended(r, key, o)]
  }

  /** One execution and nothing else: the handler panicked, or failed with a status of 500 or
      more, or answered something that was then stored. */
  ghost predicate GotAnswer(deeds: seq<Event>, r: nat, key: string) {
    || (exists o :: GotOutcome(deeds, r, key, o) && (o.Answered? ==> o.rec.status >= 500))
    || (exists rec :: GotStored(deeds, r, key, rec))
  }

  ghost predicate GotStored(deeds: seq<Event>, r: nat, key: string, rec: Record) {
    && |deeds| == 3 && GotOutcome(deeds[..2], r, key, Answered(rec)) && rec.status < 500
    && deeds[2].Stored? && deeds[2].key == key && deeds[2].entry.rec == rec
  }

  /** What a goroutine has done by the time it is at its program counter. */
  ghost predicate OnTrack(deeds: seq<Event>, r: nat, p: Proc) {
    match p.pc
    case First => deeds == []
    case Entering => deeds == []
    case Waiting(_) => deeds == []
    case Second(_) => deeds == []
    case Running(_) => deeds == [Started(r, p.key)]
    case Storing(_, rec) => GotOutcome(deeds, r, p.key, Answered(rec)) && rec.status < 500
    case Leaving(_) => GotReplay(deeds, r, p.key) || GotAnswer(deeds, r, p.key)
    case Releasing(_, _) => GotReplay(deeds, r, p.key) || GotAnswer(deeds, r, p.key)
    case Dropping(_, _) => GotReplay(deeds, r, p.key) || GotAnswer(deeds, r, p.key)
    case Finished => GotReplay(deeds, r, p.key) || GotAnswer(deeds, r, p.key)
    case Crashed => true
  }

  ghost predicate OnTrackAt(log: seq<Event>, procs: seq<Proc>, r: int) {
    if 0 <= r < |procs| then OnTrack(Deeds(log, r), r, procs[r]) else r >= 0 ==> Deeds(log, r) == []
  }

  ghost predicate AllOnTrack(log: seq<Event>, procs: seq<Proc>) {
    forall r :: OnTrackAt(log, procs, r)
  }

  // ---- one step -------------------------------------------------------------------------------

  lemma DeedsOneMore(log: seq<Event>, e: Event, r: nat)
    ensures Deeds(log + [e], r) == Deeds(log, r) + if IsBy(e, r) then [e] else []
  {
    assert (log + [e])[..|log|] == log;
  }

  lemma {:induction false} DeedsAppend(log: seq<Event>, es: seq<Event>, r: nat)
    ensures Deeds(log + es, r) == Deeds(log, r) + Deeds(es, r)
  {
    if es == [] {
      assert log + es == log;
    } else {
      var init, e := es[..|es| - 1], es[|es| - 1];
      DeedsAppend(log, init, r);
      assert log + es == (log + init) + [e];
      DeedsOneMore(log + init, e, r);
    }
  }

  /** Goroutine `r` moves to `pc` and logs `es`, which is all its own or nobody's. */
  ghost predicate Moved(s: State, t: State, r: nat, pc: PC, es: seq<Event>) {
    && r < |s.procs| && t.procs == s.procs[r := s.procs[r].(pc := pc)] && t.log == s.log + es
    && forall i :: 0 <= i < |es| ==> IsBy(es[i], r) || es[i].Lapsed?
  }

  lemma {:induction false} NoDeeds(es: seq<Event>, q: nat)
    requires forall i :: 0 <= i < |es| ==> !IsBy(es[i], q)
    ensures Deeds(es, q) == []
  {
    if es != [] {
      NoDeeds(es[..|es| - 1], q);
    }
  }

  lemma OthersStay(s: State, t: State, r: nat, pc: PC, es: seq<Event>)
    requires AllOnTrack(s.log, s.procs) && Moved(s, t, r, pc, es)
    requires OnTrack(Deeds(s.log, r) + Deeds(es, r), r, s.procs[r].(pc := pc))
    ensures AllOnTrack(t.log, t.procs)
  {
    forall q: int
      ensures OnTrackAt(t.log, t.procs, q)
    {
      assert OnTrackAt(s.log, s.procs, q);
      if q >= 0 {
        DeedsAppend(s.log, es, q);
        if q != r {
          NoDeeds(es, q);
          assert Deeds(t.log, q) == Deeds(s.log, q);
        } else {
          assert Deeds(t.log, r) == Deeds(s.log, r) + Deeds(es, r);
        }
      }
    }
  }

  lemma OneDeed(e: Event, r: nat)
    ensures Deeds([e], r) == if IsBy(e, r) then [e] else []
  {
    assert [e] == [] + [e];
    DeedsOneMore([], e, r);
  }

  /** A lookup: a hit replays, a miss says nothing of the goroutine. */
  lemma LookupMoves(s: State, r: nat, hit: PC, miss: PC) returns (pc: PC, es: seq<Event>)
    requires r < |s.procs|
    ensures Moved(s, GetStep(s, r, hit, miss), r, pc, es)
    ensures (pc == hit && GotReplay(Deeds(es, r), r, s.procs[r].key)) || (pc == miss && Deeds(es, r) == [])
  {
    var key := s.procs[r].key;
    match Lookup(s.cache, key, s.now)
    case Some(rec) =>
      pc, es := hit, [Replayed(r, key, rec, s.now)];
      OneDeed(es[0], r);
    case None =>
      pc, es := miss, if Expired(s.cache, key, s.now) then [Lapsed(key, s.now)] else [];
      NoDeeds(es, r);
  }

  lemma FirstKeepsTrack(s: State, r: nat, outcome: Outcome)
    requires AllOnTrack(s.log, s.procs) && r < |s.procs| && s.procs[r].pc == First
    ensures var t := Next(s, Move(r, outcome)); AllOnTrack(t.log, t.procs)
  {
    assert OnTrackAt(s.log, s.procs, r);
    var pc, es := LookupMoves(s, r, Finished, Entering);
    assert [] + Deeds(es, r) == Deeds(es, r);
    OthersStay(s, Next(s, Move(r, outcome)), r, pc, es);
  }

  lemma SecondKeepsTrack(s: State, r: nat, l: LockId, outcome: Outcome)
    requires AllOnTrack(s.log, s.procs) && r < |s.procs| && s.procs[r].pc == Second(l)
    ensures var t := Next(s, Move(r, outcome)); AllOnTrack(t.log, t.procs)
  {
    assert OnTrackAt(s.log, s.procs, r);
    var t := Next(s, Move(r, outcome));
    var pc, es := LookupMoves(s, r, Leaving(l), Running(l));
    assert [] + Deeds(es, r) == Deeds(es, r);
    if pc.Running? {
      var e := Started(r, s.procs[r].key);
      DeedsOneMore(es, e, r);
      assert t.log == s.log + (es + [e]);
      assert [] + Deeds(es + [e], r) == [e];
      OthersStay(s, t, r, pc, es + [e]);
    } else {
      OthersStay(s, t, r, pc, es);
    }
  }

  lemma EndKeepsTrack(s: State, r: nat, l: LockId, outcome: Outcome)
    requires AllOnTrack(s.log, s.procs) && r < |s.procs| && s.procs[r].pc == Running(l)
    ensures var t := Next(s, Move(r, outcome)); AllOnTrack(t.log, t.procs)
  {
    assert OnTrackAt(s.log, s.procs, r);
    var t, key := Next(s, Move(r, outcome)), s.procs[r].key;
    var e := Ended(r, key, outcome);
    OneDeed(e, r);
    assert [Started(r, key)] + [e] == [Started(r, key), e];
    assert GotOutcome([Started(r, key), e], r, key, outcome);
    OthersStay(s, t, r, t.procs[r].pc, [e]);
  }

  lemma StoreMoves(s: State, r: nat, l: LockId, rec: Record, outcome: Outcome) returns (e: Event)
    requires r < |s.procs| && s.procs[r].pc == Storing(l, rec)
    ensures e.Stored? && e.r == r && e.key == s.procs[r].key && e.entry.rec == rec
    ensures Moved(s, Next(s, Move(r, outcome)), r, Leaving(l), [e])
  {
    e := Stored(r, s.procs[r].key, Entry(rec, s.now + s.cache.ttl), Evicted(s.cache, s.procs[r].key));
  }

  lemma StoredIsAnswer(deeds: seq<Event>, r: nat, key: string, rec: Record, e: Event)
    requires GotOutcome(deeds, r, key, Answered(rec)) && rec.status < 500
    requires e.Stored? && e.key == key && e.entry.rec == rec
    ensures GotAnswer(deeds + [e], r, key)
  {
    assert (deeds + [e])[..2] == deeds;
    assert GotStored(deeds + [e], r, key, rec);
  }

  lemma StoreKeepsTrack(s: State, r: nat, l: LockId, rec: Record, outcome: Outcome)
    requires AllOnTrack(s.log, s.procs) && r < |s.procs| && s.procs[r].pc == Storing(l, rec)
    ensures var t := Next(s, Move(r, outcome)); AllOnTrack(t.log, t.procs)
  {
    assert OnTrackAt(s.log, s.procs, r);
    var e := StoreMoves(s, r, l, rec, outcome);
    OneDeed(e, r);
    StoredIsAnswer(Deeds(s.log, r), r, s.procs[r].key, rec, e);
    OthersStay(s, Next(s, Move(r, outcome)), r, Leaving(l), [e]);
  }

  /** The moves of the lock table log nothing. */
  lemma QuietKeepsTrack(s: State, r: nat, outcome: Outcome)
    requires AllOnTrack(s.log, s.procs) && Enabled(s, Move(r, outcome))
    requires var pc := s.procs[r].pc; pc.Entering? || pc.Waiting? || pc.Leaving? || pc.Releasing? || pc.Dropping?
    ensures var t := Next(s, Move(r, outcome)); AllOnTrack(t.log, t.procs)
  {
    assert OnTrackAt(s.log, s.procs, r);
    var t := Next(s, Move(r, outcome));
    assert s.log + [] == s.log && Deeds([], r) == [] && Deeds(s.log, r) + [] == Deeds(s.log, r);
    OthersStay(s, t, r, t.procs[r].pc, []);
  }

  lemma ArriveKeepsTrack(s: State, key: string)
    requires AllOnTrack(s.log, s.procs)
    ensures var t := Next(s, Arrive(key)); AllOnTrack(t.log, t.procs)
  {
    forall q: int
      ensures OnTrackAt(s.log, s.procs + [Proc(key, First)], q)
    {
      assert OnTrackAt(s.log, s.procs, q);
    }
  }

  lemma StepKeepsTrack(s: State, step: Step)
    requires AllOnTrack(s.log, s.procs) && Enabled(s, step)
    ensures var t := Next(s, step); AllOnTrack(t.log, t.procs)
  {
    match step
    case Arrive(key) => ArriveKeepsTrack(s, key);
    case Tick(_) =>
    case Move(r, outcome) =>
      match s.procs[r].pc {
        case First => FirstKeepsTrack(s, r, outcome);
        case Second(l) => SecondKeepsTrack(s, r, l, outcome);
        case Running(l) => EndKeepsTrack(s, r, l, outcome);
        case Storing(l, rec) => StoreKeepsTrack(s, r, l, rec, outcome);
        case _ => QuietKeepsTrack(s, r, outcome);
      }
  }

  // ---- every run --------------------------------------------------------------------------------

  lemma {:induction false} RunKeepsTrack(s: State, steps: seq<Step>)
    requires AllOnTrack(s.log, s.procs) && Runs(s, steps)
    ensures AllOnTrack(After(s, steps).log, After(s, steps).procs)
    decreases |steps|
  {
    if steps != [] {
      StepKeepsTrack(s, steps[0]);
      RunKeepsTrack(Next(s, steps[0]), steps[1..]);
    }
  }

  /** Over all runs, a finished request has had exactly one answer for its key: one replay and
      no execution, or one execution that has ended, and whose response has been stored if its
      status was below 500. Before that it has had none. */
  lemma FinishedIsAnswered(ttl: int, max: nat, steps: seq<Step>, r: nat)
    requires Runs(Init(ttl, max), steps) && r < |After(Init(ttl, max), steps).procs|
    ensures var s := After(Init(ttl, max), steps); OnTrack(Deeds(s.log, r), r, s.procs[r])
    ensures var s := After(Init(ttl, max), steps);
            s.procs[r].pc == Finished ==> (GotReplay(Deeds(s.log, r), r, s.procs[r].key)
                                           != GotAnswer(Deeds(s.log, r), r, s.procs[r].key))
  {
    assert AllOnTrack([], []);
    RunKeepsTrack(Init(ttl, max), steps);
    var s := After(Init(ttl, max), steps);
    assert OnTrackAt(s.log, s.procs, r);
  }

  /** When nothing can move, every request has had its answer. Each move brings its mover
      closer to the end, so this is where every run without further arrivals leads. */
  lemma StuckIsAnswered(ttl: int, max: nat, steps: seq<Step>)
    requires Runs(Init(ttl, max), steps)
    requires forall r, outcome :: !Enabled(After(Init(ttl, max), steps), Move(r, outcome))
    ensures var s := After(Init(ttl, max), steps);
            forall r :: 0 <= r < |s.procs| ==>
              GotReplay(Deeds(s.log, r), r, s.procs[r].key) || GotAnswer(Deeds(s.log, r), r, s.procs[r].key)
  {
    var s := After(Init(ttl, max), steps);
    forall r | 0 <= r < |s.procs|
      ensures GotReplay(Deeds(s.log, r), r, s.procs[r].key) || GotAnswer(Deeds(s.log, r), r, s.procs[r].key)
    {
      if s.procs[r].pc != Finished {
        IdempotencyLog.NoDeadlock(ttl, max, steps, r, Panicked);
      }
      FinishedIsAnswered(ttl, max, steps, r);
    }
  }

  // ---- the requests and the clock ---------------------------------------------------------------

  /** The keys of the requests that arrived, in order. */
  function Arrivals(steps: seq<Step>): seq<string> {
    if steps == [] then [] else (if steps[0].Arrive? then [steps[0].key] else []) + Arrivals(steps[1..])
  }

  function Elapsed(steps: seq<Step>): nat {
    if steps == [] then 0 else (if steps[0].Tick? then steps[0].d else 0) + Elapsed(steps[1..])
  }

  function KeysOf(procs: seq<Proc>): seq<string> {
    Map((p: Proc) => p.key, procs)
  }

  /** The goroutines have these keys, in order, and it is `now`. */
  ghost predicate Reads(s: State, keys: seq<string>, now: int) {
    KeysOf(s.procs) == keys && s.now == now
  }

  lemma StepReads(s: State, step: Step, keys: seq<string>, now: int)
    requires Enabled(s, step) && Reads(s, keys, now)
    ensures Reads(Next(s, step), keys + Arrivals([step]), now + Elapsed([step]))
  {
    if step.Move? {
      IdempotencyLog.MovesAdvance(s, step.r, step.outcome);
      MoveKeepsKey(s, step.r, step.outcome);
      assert KeysOf(Next(s, step).procs) == KeysOf(s.procs);
    }
  }

  lemma MoveKeepsKey(s: State, r: nat, outcome: Outcome)
    requires Enabled(s, Move(r, outcome))
    ensures |Next(s, Move(r, outcome)).procs| == |s.procs|
    ensures Next(s, Move(r, outcome)).procs[r].key == s.procs[r].key && Next(s, Move(r, outcome)).now == s.now
  {
  }

  lemma OneStepFirst(steps: seq<Step>)
    requires steps != []
    ensures Arrivals(steps) == Arrivals([steps[0]]) + Arrivals(steps[1..])
    ensures Elapsed(steps) == Elapsed([steps[0]]) + Elapsed(steps[1..])
  {
  }

  /** No request is dropped, doubled or mistaken for another, and time is what has passed. */
  lemma {:induction false} EveryRequestIsThere(s: State, steps: seq<Step>, keys: seq<string>, now: int)
    requires Runs(s, steps) && Reads(s, keys, now)
    ensures Reads(After(s, steps), keys + Arrivals(steps), now + Elapsed(steps))
    decreases |steps|
  {
    if steps == [] {
      assert keys + Arrivals(steps) == keys;
    } else {
      var step, rest := steps[0], steps[1..];
      StepReads(s, step, keys, now);
      EveryRequestIsThere(Next(s, step), rest, keys + Arrivals([step]), now + Elapsed([step]));
      OneStepFirst(steps);
      assert keys + Arrivals([step]) + Arrivals(rest) == keys + (Arrivals([step]) + Arrivals(rest));
    }
  }
}
