/** Funding an HTLC at most once, with a crash possible between any two actions: what is on disk, what
    is in memory, and what the chain's explorer shows (lock, adoptLock and save in src/swap/engine.ts). */
module SwapFunding {
  import opened Primitives
  import opened SwapTypes
  import opened Runs

  /** The part of a side's record that decides about funding. */
  datatype Note = Note(locked: bool, intentAt: Option<nat>)

  /** Where a tick is: after its scan (when, and whether it lists a funding), with an intent decided,
      with the intent on disk, or with the transaction sent. */
  datatype Phase =
    | Idle
    | Scanned(at: nat, listed: bool)
    | Intending(intent: nat)
    | Saved(intent: nat)
    | Sent(intent: nat)

  /** `memory` is gone while the process is down; `fundings` are the intents of the transactions sent. */
  datatype Side = Side(now: nat, disk: Note, memory: Option<Note>, phase: Phase, fundings: seq<nat>)

  /** How long after the intent a scan may miss a funding, and how long a tick may take from its scan to
      its decision. */
  datatype Delays = Delays(shows: nat, lag: nat)

  datatype Event =
    | Wait(ms: nat) | Crash | Restart
    | Look(listed: bool) | Adopt | Hold | Decide | Save | Send | Done | Fail

  predicate Overdue(d: Delays, w: Side) {
    exists i :: i in w.fundings && i + d.shows <= w.now
  }

  predicate Can(d: Delays, w: Side, e: Event) {
    match e
    case Wait(_) => true
    case Crash => true
    case Restart => w.memory.None?
    case Look(listed) => w.memory.Some? && w.phase == Idle && !w.memory.value.locked && (Overdue(d, w) ==> listed)
    case Adopt => w.memory.Some? && w.phase.Scanned? && w.phase.listed
    case Hold =>
      w.memory.Some? && w.phase.Scanned? && !w.phase.listed && !IntentClear(w.memory.value.intentAt, w.now)
    case Decide =>
      && w.memory.Some? && w.phase.Scanned? && !w.phase.listed && IntentClear(w.memory.value.intentAt, w.now)
      && w.now <= w.phase.at + d.lag
    case Save => w.memory.Some? && w.phase.Intending?
    case Send => w.memory.Some? && w.phase.Saved?
    case Done => w.memory.Some? && w.phase.Sent?
    case Fail => w.memory.Some? && (w.phase.Saved? || w.phase.Sent?)
  }

  function After(w: Side, e: Event): Side {
    match e
    case Wait(ms) => w.(now := w.now + ms)
    case Crash => w.(memory := None, phase := Idle)
    case Restart => w.(memory := Some(w.disk), phase := Idle)
    case Look(listed) => w.(phase := Scanned(w.now, listed))
    case Adopt => w.(memory := Some(Note(true, None)), disk := Note(true, None), phase := Idle)
    case Hold => w.(phase := Idle)
    case Decide => w.(memory := Some(Note(false, Some(w.now))), phase := Intending(w.now))
    case Save => if w.phase.Intending?
        then w.(disk := Note(false, Some(w.phase.intent)), phase := Saved(w.phase.intent)) else w
    case Send => if w.phase.Saved? then w.(fundings := w.fundings + [w.phase.intent], phase := Sent(w.phase.intent))
        else w
    case Done => w.(memory := Some(Note(true, None)), disk := Note(true, None), phase := Idle)
    case Fail => w.(phase := Idle)
  }

  function Rules(d: Delays): Machine<Side, Event> {
    Machine((w, e) => Can(d, w, e), (w, e) => After(w, e))
  }

  predicate Start(w: Side) {
    w.disk == Note(false, None) && w.memory.None? && w.phase == Idle && w.fundings == []
  }

  /** The grace covers the time a funding can go unseen together with a tick's own lag. */
  predicate GraceCovers(d: Delays) {
    d.shows == 0 || d.shows + d.lag <= LOCK_INTENT_GRACE_MS
  }

  predicate Remembers(n: Note, i: nat) {
    n.locked || n.intentAt == Some(i)
  }

  predicate Kept(d: Delays, w: Side) {
    && |w.fundings| <= 1
    && (w.memory.None? ==> w.phase == Idle)
    && (w.phase.Scanned? ==> w.phase.at <= w.now)
    && (w.phase.Intending? || w.phase.Saved? || w.phase.Sent? ==> w.memory == Some(Note(false, Some(w.phase.intent))))
    && (w.phase.Saved? || w.phase.Sent? ==> w.disk == Note(false, Some(w.phase.intent)))
    && (w.phase.Intending? || w.phase.Saved? ==> w.fundings == [])
    && (w.phase.Sent? ==> w.fundings == [w.phase.intent])
    && (|w.fundings| == 1 ==>
          && w.fundings[0] <= w.now
          && Remembers(w.disk, w.fundings[0]) && (w.memory.Some? ==> Remembers(w.memory.value, w.fundings[0]))
          && (w.phase.Scanned? ==>
                w.fundings[0] <= w.phase.at && !w.memory.value.locked
                && (w.fundings[0] + d.shows <= w.phase.at ==> w.phase.listed)))
    && (w.phase.Intending? || w.phase.Saved? ==> w.phase.intent <= w.now)
  }

  lemma StepKeeps(d: Delays, w: Side, e: Event)
    requires Kept(d, w) && Can(d, w, e) && GraceCovers(d)
    ensures Kept(d, After(w, e))
  {
    if e.Look? && |w.fundings| == 1 && w.fundings[0] + d.shows <= w.now {
      assert w.fundings[0] in w.fundings;
      assert Overdue(d, w);
    }
  }

  lemma RunKeeps(d: Delays, w: Side, es: seq<Event>)
    requires Kept(d, w) && Possible(Rules(d), w, es) && GraceCovers(d)
    ensures Kept(d, Run(Rules(d), w, es))
  {
    var m := Rules(d);
    forall v, e | Kept(d, v) && m.can(v, e) ensures Kept(d, m.after(v, e)) { StepKeeps(d, v, e); }
    Invariant(m, v => Kept(d, v), w, es);
  }

  ghost predicate FundsTwice(d: Delays) {
    exists w, es :: Start(w) && Possible(Rules(d), w, es) && |Run(Rules(d), w, es).fundings| > 1
  }

  // ---------- when the grace is too short ----------

  /** Fund, then crash right after sending. */
  lemma FundAndCrash(d: Delays) returns (es: seq<Event>)
    ensures Leads(Rules(d), Side(0, Note(false, None), None, Idle, []), es,
                  Side(0, Note(false, Some(0)), None, Idle, [0]))
  {
    var m, intent := Rules(d), Note(false, Some(0));
    var w := Side(0, Note(false, None), None, Idle, []);
    OneStep(m, w, Restart);
    NextStep(m, w, [Restart], w.(memory := Some(w.disk)), Look(false));
    es := [Restart] + [Look(false)];
    var looked := w.(memory := Some(w.disk), phase := Scanned(0, false));
    NextStep(m, w, es, looked, Decide);
    es := es + [Decide];
    NextStep(m, w, es, looked.(memory := Some(intent), phase := Intending(0)), Save);
    es := es + [Save];
    NextStep(m, w, es, Side(0, intent, Some(intent), Saved(0), []), Send);
    es := es + [Send];
    assert After(Side(0, intent, Some(intent), Saved(0), []), Send).fundings == [0];
    NextStep(m, w, es, Side(0, intent, Some(intent), Sent(0), [0]), Crash);
    es := es + [Crash];
  }

  /** Come back, look just before the funding must show, and decide just after the grace. */
  lemma FundAgain(d: Delays) returns (es: seq<Event>)
    requires !GraceCovers(d)
    ensures var n := d.shows - 1 + d.lag;
            Leads(Rules(d), Side(0, Note(false, Some(0)), None, Idle, [0]), es,
                  Side(n, Note(false, Some(n)), Some(Note(false, Some(n))), Sent(n), [0, n]))
  {
    var m, intent := Rules(d), Note(false, Some(0));
    var w := Side(0, intent, None, Idle, [0]);
    var n := d.shows - 1 + d.lag;
    OneStep(m, w, Restart);
    NextStep(m, w, [Restart], w.(memory := Some(intent)), Wait(d.shows - 1));
    es := [Restart] + [Wait(d.shows - 1)];
    var ready := w.(now := d.shows - 1, memory := Some(intent));
    NextStep(m, w, es, ready, Look(false));
    es := es + [Look(false)];
    var looked := ready.(phase := Scanned(d.shows - 1, false));
    NextStep(m, w, es, looked, Wait(d.lag));
    es := es + [Wait(d.lag)];
    NextStep(m, w, es, looked.(now := n), Decide);
    es := es + [Decide];
    NextStep(m, w, es, looked.(now := n, memory := Some(Note(false, Some(n))), phase := Intending(n)), Save);
    es := es + [Save];
    NextStep(m, w, es, Side(n, Note(false, Some(n)), Some(Note(false, Some(n))), Saved(n), [0]), Send);
    es := es + [Send];
  }

  /** At most one funding, over every run with a crash at any point, exactly when the grace covers the
      time a funding can go unseen and the time between a tick's scan and its decision. */
  lemma FundsOnceIff(d: Delays)
    ensures !FundsTwice(d) <==> GraceCovers(d)
  {
    if GraceCovers(d) {
      forall w, es | Start(w) && Possible(Rules(d), w, es) ensures |Run(Rules(d), w, es).fundings| <= 1 {
        RunKeeps(d, w, es);
      }
    } else {
      var start, crashed := Side(0, Note(false, None), None, Idle, []), Side(0, Note(false, Some(0)), None, Idle, [0]);
      var first := FundAndCrash(d);
      var again := FundAgain(d);
      var n := d.shows - 1 + d.lag;
      var end := Side(n, Note(false, Some(n)), Some(Note(false, Some(n))), Sent(n), [0, n]);
      LeadsOn(Rules(d), start, first, crashed, again, end);
      assert Start(start) && |end.fundings| == 2;
    }
  }
}
