/** Explicit transactions and two-phase commit of the service, with the events and triggers
    that wait for a commit (`src/native_service.rs`), over the engine's transaction
    registry (`drevo-core/src/native.rs`). */
module TxService {
  import opened Prelude
  import opened EventBus
  import opened TxLedger

  // ----- the fields, as a value ---------------------------------------------------------

  /** The fields of the engine and of the service that say what waits for which commit. */
  datatype Fields = Fields(last: nat, open: set<nat>, prepared: set<Gid>, heuristic: set<Gid>,
                           listed: map<nat, bool>, txEvents: map<nat, seq<Pending>>,
                           preparedEvents: map<Gid, seq<Pending>>,
                           preparedTriggers: map<Gid, Params>)
  {
    predicate Terminated(tx: nat) {
      tx in listed && listed[tx]
    }

    /** The events waiting for the commit of `tx`. */
    function Waiting(tx: nat): seq<Pending> {
      if tx in txEvents then txEvents[tx] else []
    }

    function WaitingFor(gid: Gid): seq<Pending> {
      if gid in preparedEvents then preparedEvents[gid] else []
    }

    /** `tx` closed and forgotten. */
    function Without(tx: nat): Fields {
      this.(open := open - {tx}, listed := listed - {tx}, txEvents := txEvents - {tx})
    }

    /** One more prepared gid, with what waits for it. */
    function Holding(gid: Gid, events: seq<Pending>, params: Option<Params>): Fields {
      this.(prepared := prepared + {gid}, heuristic := heuristic - {gid},
            preparedEvents := if events == [] then preparedEvents else preparedEvents[gid := events],
            preparedTriggers :=
              if params.None? then preparedTriggers else preparedTriggers[gid := params.value])
    }

    /** `gid` resolved and forgotten. */
    function Released(gid: Gid): Fields {
      this.(prepared := prepared - {gid}, preparedEvents := preparedEvents - {gid},
            preparedTriggers := preparedTriggers - {gid})
    }

    /** The answer to a call. */
    function Replies(call: Call): Reply {
      match call
      case Begin => Began(last + 1)
      case Execute(tx, _, outcome) =>
        if tx !in open then Refused(AlreadyClosed)
        else if Terminated(tx) then Refused(TerminatedTx)
        else (match outcome
              case Ran => Done
              case Broke => Refused(StatementFailed)
              case Exceeded => Refused(TooLarge))
      case Commit(tx, before, refusal) =>
        if Terminated(tx) then Refused(TerminatedTx)
        else if tx in open && before.Vetoed? then Refused(Rejected)
        else if tx !in open then Refused(AlreadyClosed)
        else if refusal.Some? then Refused(refusal.value) else Done
      case Rollback(tx) => Closed(tx in open)
      case Prepare(tx, gid, before, readOnly, refusal) =>
        if tx in open && before.Vetoed? then Refused(Rejected)
        else if tx !in open then Refused(UnknownTransaction)
        else if readOnly then Refused(ReadOnly)
        else if gid in prepared then Refused(DuplicateGid)
        else if prepared != {} then Refused(PreparedPending)
        else if refusal.Some? then Refused(refusal.value) else Done
      case CommitPrepared(gid, readOnly, logFails) =>
        if readOnly then Refused(ReadOnly)
        else if gid !in prepared then Refused(if gid in heuristic then HeuristicOutcome else UnknownGid)
        else if logFails then Refused(Io) else Done
      case RollbackPrepared(gid, heuristically, readOnly, logFails) =>
        if readOnly then Refused(ReadOnly)
        else if gid !in prepared then
          if !heuristically && gid in heuristic then Done else Refused(UnknownGid)
        else if logFails then Refused(Io) else Done
      case Terminate(_) => Done
      case Autocommit(_) => Done
    }

    /** The fields after a call. */
    function After(call: Call): Fields {
      match call
      case Begin => this.(last := last + 1, open := open + {last + 1}, listed := listed[last + 1 := false])
      case Execute(tx, events, _) =>
        if Replies(call) == Refused(TooLarge) then Without(tx)
        else if Replies(call) == Done && events != [] then
          this.(txEvents := txEvents[tx := Waiting(tx) + events])
        else this
      case Commit(tx, _, _) => Without(tx)
      case Rollback(tx) => Without(tx)
      case Prepare(tx, gid, before, _, _) =>
        if Replies(call) == Done && before.Passed? then
          Without(tx).Holding(gid, Waiting(tx), before.params)
        else Without(tx)
      case CommitPrepared(gid, _, _) => if Replies(call) == Done then Released(gid) else this
      case RollbackPrepared(gid, heuristically, _, _) =>
        if Replies(call) != Done then this
        else if heuristically && gid in prepared then
          Released(gid).(heuristic := heuristic + {gid})
        else Released(gid)
      case Terminate(tx) => if tx in listed then this.(listed := listed[tx := true]) else this
      case Autocommit(_) => this
    }

    /** What a call publishes. */
    function Publishes(call: Call): seq<Pending> {
      if Replies(call) != Done then []
      else match call
        case Commit(tx, _, _) => Waiting(tx)
        case CommitPrepared(gid, _, _) => WaitingFor(gid)
        case Autocommit(events) => events
        case _ => []
    }

    /** The `after` triggers a call runs. */
    function Fires(call: Call): seq<Params> {
      if Replies(call) != Done then []
      else match call
        case Commit(_, Passed(Some(params)), _) => [params]
        case CommitPrepared(gid, _, _) =>
          if gid in preparedTriggers then [preparedTriggers[gid]] else []
        case _ => []
    }
  }

  // ----- how the fields follow from the trace -----------------------------------------

  /** A transaction is registered and listed exactly while it is open, and all it posted
      then waits for its commit. */
  ghost predicate TxOk(f: Fields, trace: seq<Entry>, t: nat) {
    && (t in f.open <==> FateOf(trace, t) == Open)
    && (t in f.listed <==> FateOf(trace, t) == Open)
    && (t in f.listed ==> f.listed[t] == TerminatedOf(trace, t))
    && (t in f.txEvents ==> FateOf(trace, t) == Open)
    && (FateOf(trace, t) == Open ==> PostedBy(trace, t) == f.Waiting(t))
    && (FateOf(trace, t) == Unborn ==> !TerminatedOf(trace, t))
  }

  /** Events and triggers wait only under a held gid: those of the transaction prepared. */
  ghost predicate GidOk(f: Fields, trace: seq<Entry>, g: Gid) {
    && (g in f.prepared <==> HolderOf(trace, g).Some?)
    && (g in f.heuristic <==> HeuristicOf(trace, g))
    && (g in f.preparedEvents || g in f.preparedTriggers ==> HolderOf(trace, g).Some?)
    && (HolderOf(trace, g).Some? ==>
          && PostedBy(trace, HolderOf(trace, g).value.tx) == f.WaitingFor(g)
          && HolderOf(trace, g).value.params
             == if g in f.preparedTriggers then Some(f.preparedTriggers[g]) else None)
  }

  ghost predicate FieldsOk(f: Fields, trace: seq<Entry>) {
    && Run(trace) && f.last == BegunIn(trace)
    && (forall t: nat :: TxOk(f, trace, t))
    && (forall g: Gid :: GidOk(f, trace, g))
  }

  /** The fields give every call the answer the trace asks for. */
  lemma RepliesAreAnswers(f: Fields, trace: seq<Entry>, call: Call)
    requires FieldsOk(f, trace)
    ensures f.Replies(call) == Answer(trace, call)
  {
    hide Run;
    if call.Execute? || call.Commit? || call.Rollback? || call.Prepare? {
      assert TxOk(f, trace, call.tx);
    }
    if call.Prepare? || call.CommitPrepared? || call.RollbackPrepared? {
      assert GidOk(f, trace, call.gid);
    }
    if call.Prepare? {
      if f.prepared != {} {
        var g :| g in f.prepared;
        assert GidOk(f, trace, g);
      } else if g: Gid :| HolderOf(trace, g).Some? {
        assert GidOk(f, trace, g);
      }
    }
  }

  lemma TxStep(f: Fields, trace: seq<Entry>, call: Call, t: nat)
    requires TxOk(f, trace, t) && f.last == BegunIn(trace)
    requires FateOf(trace, t) == Unborn <==> t == 0 || t > BegunIn(trace)
    requires FateOf(trace, t) == Unborn ==> PostedBy(trace, t) == []
    requires f.Replies(call) == Answer(trace, call)
    ensures TxOk(f.After(call), trace + [Entry(call, f.Replies(call))], t)
  {
    ExtendTx(trace, Entry(call, f.Replies(call)), t);
    hide FateOf, PostedBy, TerminatedOf, BegunIn, HolderOf, HeuristicOf;
  }

  lemma GidStep(f: Fields, trace: seq<Entry>, call: Call, g: Gid)
    requires GidOk(f, trace, g) && HeldByPrepared(trace)
    requires call.Prepare? ==> TxOk(f, trace, call.tx)
    requires f.Replies(call) == Answer(trace, call)
    ensures GidOk(f.After(call), trace + [Entry(call, f.Replies(call))], g)
  {
    hide GidOk, TxOk, HeldByPrepared, Answer;
    if call.Prepare? {
      GidPrepared(f, trace, call, g);
    } else if call.CommitPrepared? || call.RollbackPrepared? {
      GidResolved(f, trace, call, g);
    } else {
      GidUntouched(f, trace, call, g);
    }
  }

  lemma GidPrepared(f: Fields, trace: seq<Entry>, call: Call, g: Gid)
    requires GidOk(f, trace, g) && HeldByPrepared(trace)
    requires call.Prepare? && TxOk(f, trace, call.tx)
    requires f.Replies(call) == Answer(trace, call)
    ensures GidOk(f.After(call), trace + [Entry(call, f.Replies(call))], g)
  {
    var e := Entry(call, f.Replies(call));
    ExtendGid(trace, e, g);
    ExtendTx(trace, e, call.tx);
    if HolderOf(trace, g).Some? {
      ExtendTx(trace, e, HolderOf(trace, g).value.tx);
    }
    hide FateOf, PostedBy, TerminatedOf, BegunIn, HolderOf, HeuristicOf, FateAfter, HeldByPrepared;
  }

  lemma GidResolved(f: Fields, trace: seq<Entry>, call: Call, g: Gid)
    requires GidOk(f, trace, g)
    requires call.CommitPrepared? || call.RollbackPrepared?
    requires f.Replies(call) == Answer(trace, call)
    ensures GidOk(f.After(call), trace + [Entry(call, f.Replies(call))], g)
  {
    var e := Entry(call, f.Replies(call));
    ExtendGid(trace, e, g);
    if HolderOf(trace, g).Some? {
      ExtendTx(trace, e, HolderOf(trace, g).value.tx);
    }
    hide FateOf, PostedBy, TerminatedOf, BegunIn, HolderOf, HeuristicOf, FateAfter;
  }

  lemma GidUntouched(f: Fields, trace: seq<Entry>, call: Call, g: Gid)
    requires GidOk(f, trace, g) && HeldByPrepared(trace)
    requires !call.Prepare? && !call.CommitPrepared? && !call.RollbackPrepared?
    requires f.Replies(call) == Answer(trace, call)
    ensures GidOk(f.After(call), trace + [Entry(call, f.Replies(call))], g)
  {
    var e := Entry(call, f.Replies(call));
    ExtendGid(trace, e, g);
    if HolderOf(trace, g).Some? {
      ExtendTx(trace, e, HolderOf(trace, g).value.tx);
      assert FateOf(trace, HolderOf(trace, g).value.tx) == Prepared(g);
    }
    hide FateOf, PostedBy, TerminatedOf, BegunIn, HolderOf, HeuristicOf, FateAfter, HeldByPrepared;
  }

  lemma OutputStep(f: Fields, trace: seq<Entry>, call: Call)
    requires call.Commit? ==> TxOk(f, trace, call.tx)
    requires call.CommitPrepared? ==> GidOk(f, trace, call.gid)
    requires f.Replies(call) == Answer(trace, call)
    ensures var next := trace + [Entry(call, f.Replies(call))];
            && Published(next) == Published(trace) + f.Publishes(call)
            && Fired(next) == Fired(trace) + f.Fires(call)
  {
    Extend(trace, Entry(call, f.Replies(call)));
    OutputIs(f, trace, call);
    hide FateOf, PostedBy, TerminatedOf, BegunIn, HolderOf, HeuristicOf, Published, Fired, Answer, TxOk, GidOk;
    hide Publishes, Fires;
  }

  lemma OutputIs(f: Fields, trace: seq<Entry>, call: Call)
    requires call.Commit? ==> TxOk(f, trace, call.tx)
    requires call.CommitPrepared? ==> GidOk(f, trace, call.gid)
    requires f.Replies(call) == Answer(trace, call)
    ensures f.Publishes(call) == Publishes(trace, Entry(call, f.Replies(call)))
    ensures f.Fires(call) == Fires(trace, Entry(call, f.Replies(call)))
  {
    hide FateOf, PostedBy, TerminatedOf, BegunIn, HolderOf, HeuristicOf;
  }

  /** Every call keeps the fields what the trace says, and puts out what it says. */
  lemma FieldsStep(f: Fields, trace: seq<Entry>, call: Call)
    requires FieldsOk(f, trace)
    ensures var next := trace + [Entry(call, f.Replies(call))];
            && FieldsOk(f.After(call), next)
            && Published(next) == Published(trace) + f.Publishes(call)
            && Fired(next) == Fired(trace) + f.Fires(call)
  {
    hide TxOk, GidOk, Answer;
    var e := Entry(call, f.Replies(call));
    RepliesAreAnswers(f, trace, call);
    OutputStep(f, trace, call);
    RunIsCoherent(trace);
    forall t: nat
      ensures TxOk(f.After(call), trace + [e], t)
    {
      TxStep(f, trace, call, t);
    }
    forall g: Gid
      ensures GidOk(f.After(call), trace + [e], g)
    {
      GidStep(f, trace, call, g);
    }
    Extend(trace, e);
  }

  function Payloads(history: seq<Posted>): seq<Pending> {
    seq(|history|, i requires 0 <= i < |history| => Pending(history[i].name, history[i].payload))
  }

  lemma PayloadsStamped(history: seq<Posted>, batch: seq<Pending>, issued: nat, at: nat)
    ensures Payloads(history + Stamped(batch, issued, at)) == Payloads(history) + batch
  {
  }

  /** The engine's registered and prepared transactions. */
  class Engine {
    var last: nat
    var open: set<nat>
    var prepared: set<Gid>
    var heuristic: set<Gid>

    constructor ()
      ensures last == 0 && open == {} && prepared == {} && heuristic == {}
    {
      last, open, prepared, heuristic := 0, {}, {}, {};
    }

    method TxBegin() returns (tx: nat)
      modifies this`last, this`open
      ensures tx == last == old(last) + 1 && open == old(open) + {tx}
    {
      last := last + 1;
      tx := last;
      open := open + {tx};
    }

    /** The slot is closed whatever the outcome. */
    method TxCommit(tx: nat, refusal: Option<Error>) returns (r: Reply)
      modifies this`open
      ensures open == old(open) - {tx}
      ensures r == if tx !in old(open) then Refused(AlreadyClosed)
                   else if refusal.Some? then Refused(refusal.value) else Done
    {
      if tx !in open {
        return Refused(AlreadyClosed);
      }
      open := open - {tx};
      r := if refusal.Some? then Refused(refusal.value) else Done;
    }

    method TxRollback(tx: nat) returns (was: bool)
      modifies this`open
      ensures open == old(open) - {tx} && was == (tx in old(open))
    {
      was := tx in open;
      open := open - {tx};
    }

    /** The slot is closed whatever the outcome; only one transaction may be prepared. */
    method TxPrepare(tx: nat, gid: Gid, readOnly: bool, refusal: Option<Error>) returns (r: Reply)
      modifies this`open, this`prepared, this`heuristic
      ensures open == old(open) - {tx}
      ensures r == if tx !in old(open) then Refused(UnknownTransaction)
                   else if readOnly then Refused(ReadOnly)
                   else if gid in old(prepared) then Refused(DuplicateGid)
                   else if old(prepared) != {} then Refused(PreparedPending)
                   else if refusal.Some? then Refused(refusal.value) else Done
      ensures prepared == if r == Done then old(prepared) + {gid} else old(prepared)
      ensures heuristic == if r == Done then old(heuristic) - {gid} else old(heuristic)
    {
      if tx !in open {
        return Refused(UnknownTransaction);
      }
      open := open - {tx};
      if readOnly {
        return Refused(ReadOnly);
      }
      if gid in prepared {
        return Refused(DuplicateGid);
      }
      if prepared != {} {
        return Refused(PreparedPending);
      }
      if refusal.Some? {
        return Refused(refusal.value);
      }
      heuristic := heuristic - {gid};
      prepared := prepared + {gid};
      r := Done;
    }

    /** A commit record that cannot be written leaves the transaction prepared. */
    method CommitPrepared(gid: Gid, readOnly: bool, logFails: bool) returns (r: Reply)
      modifies this`prepared
      ensures prepared == if r == Done then old(prepared) - {gid} else old(prepared)
      ensures r == if readOnly then Refused(ReadOnly)
                   else if gid !in old(prepared) then
                     Refused(if gid in heuristic then HeuristicOutcome else UnknownGid)
                   else if logFails then Refused(Io) else Done
    {
      if readOnly {
        return Refused(ReadOnly);
      }
      if gid !in prepared {
        return Refused(if gid in heuristic then HeuristicOutcome else UnknownGid);
      }
      if logFails {
        return Refused(Io);
      }
      prepared := prepared - {gid};
      r := Done;
    }

    /** Rolling back what was rolled back heuristically agrees with the outcome. */
    method RollbackPreparedAs(gid: Gid, heuristically: bool, readOnly: bool, logFails: bool)
      returns (r: Reply)
      modifies this`prepared, this`heuristic
      ensures prepared == if r == Done then old(prepared) - {gid} else old(prepared)
      ensures r == if readOnly then Refused(ReadOnly)
                   else if gid !in old(prepared) then
                     if !heuristically && gid in old(heuristic) then Done else Refused(UnknownGid)
                   else if logFails then Refused(Io) else Done
      ensures heuristic == if r == Done && heuristically && gid in old(prepared) then
                             old(heuristic) + {gid}
                           else old(heuristic)
    {
      if readOnly {
        return Refused(ReadOnly);
      }
      if gid !in prepared {
        return if !heuristically && gid in heuristic then Done else Refused(UnknownGid);
      }
      if logFails {
        return Refused(Io);
      }
      prepared := prepared - {gid};
      if heuristically {
        heuristic := heuristic + {gid};
      }
      r := Done;
    }
  }

  /** The service. Every method answers as the trace of all calls demands, and leaves the
      bus holding exactly what that trace has published. */
  class Service {
    const engine: Engine
    const bus: Bus
    var listed: map<nat, bool>
    var txEvents: map<nat, seq<Pending>>
    var preparedEvents: map<Gid, seq<Pending>>
    var preparedTriggers: map<Gid, Params>
    /** The change parameters the `after` triggers were run with. */
    var fired: seq<Params>
    ghost var trace: seq<Entry>

    ghost function View(): Fields
      reads this, engine
    {
      Fields(engine.last, engine.open, engine.prepared, engine.heuristic,
             listed, txEvents, preparedEvents, preparedTriggers)
    }

    ghost predicate Valid()
      reads this, engine, bus
    {
      && FieldsOk(View(), trace)
      && bus.Valid() && Payloads(bus.history) == Published(trace)
      && fired == Fired(trace)
    }

    constructor ()
      ensures Valid() && trace == [] && fresh(engine) && fresh(bus)
    {
      engine := new Engine();
      bus := new Bus();
      listed, txEvents, preparedEvents, preparedTriggers := map[], map[], map[], map[];
      fired, trace := [], [];
    }

    /** `call` was answered `reply`, and the fields are those after it. */
    twostate predicate Answered(call: Call, reply: Reply)
      reads this, engine, bus
    {
      && Valid()
      && trace == old(trace) + [Entry(call, reply)]
      && reply == old(View()).Replies(call)
      && View() == old(View()).After(call)
    }

    method BeginTx() returns (tx: nat)
      requires Valid()
      modifies this, engine
      ensures Answered(Begin, Began(tx))
    {
      hide FieldsOk, Published, Fired, Payloads, Bus.Valid;
      FieldsStep(View(), trace, Begin);
      tx := engine.TxBegin();
      listed := listed[tx := false];
      trace := trace + [Entry(Begin, Began(tx))];
    }

    /** An administrator ends `tx`: it runs nothing more and its commit is refused. */
    method Terminate(tx: nat)
      requires Valid()
      modifies this
      ensures Answered(Call.Terminate(tx), Done)
    {
      hide FieldsOk, Published, Fired, Payloads, Bus.Valid;
      FieldsStep(View(), trace, Call.Terminate(tx));
      if tx in listed {
        listed := listed[tx := true];
      }
      trace := trace + [Entry(Call.Terminate(tx), Done)];
    }

    /** Run one statement in `tx`, which ends as `outcome` having posted `events`. */
    method ExecuteInOpenTx(tx: nat, events: seq<Pending>, outcome: Statement) returns (r: Reply)
      requires Valid()
      modifies this, engine
      ensures Answered(Execute(tx, events, outcome), r)
    {
      hide FieldsOk, Published, Fired, Payloads, Bus.Valid;
      FieldsStep(View(), trace, Execute(tx, events, outcome));
      if tx !in engine.open {
        r := Refused(AlreadyClosed);
      } else if tx in listed && listed[tx] {
        r := Refused(TerminatedTx);
      } else if outcome == Exceeded {
        var _ := Discard(tx);
        r := Refused(TooLarge);
      } else {
        if outcome == Ran && events != [] {
          txEvents := txEvents[tx := (if tx in txEvents then txEvents[tx] else []) + events];
        }
        r := if outcome == Ran then Done else Refused(StatementFailed);
      }
      trace := trace + [Entry(Execute(tx, events, outcome), r)];
    }

    method TakeTxEvents(tx: nat) returns (events: seq<Pending>)
      modifies this`txEvents
      ensures events == old(View()).Waiting(tx) && txEvents == old(txEvents) - {tx}
    {
      events := if tx in txEvents then txEvents[tx] else [];
      txEvents := txEvents - {tx};
    }

    method TakePreparedEvents(gid: Gid) returns (events: seq<Pending>)
      modifies this`preparedEvents
      ensures events == old(View()).WaitingFor(gid) && preparedEvents == old(preparedEvents) - {gid}
    {
      events := if gid in preparedEvents then preparedEvents[gid] else [];
      preparedEvents := preparedEvents - {gid};
    }

    /** The `before` triggers run only in an open transaction. */
    method FireBefore(tx: nat, before: Before) returns (r: Before)
      ensures r == if tx in engine.open then before else Passed(None)
    {
      r := if tx in engine.open then before else Passed(None);
    }

    /** Forget `tx`: its listing, its events, its registration. */
    method Discard(tx: nat) returns (was: bool)
      modifies this`listed, this`txEvents, engine`open
      ensures was == (tx in old(engine.open)) && View() == old(View()).Without(tx)
    {
      listed := listed - {tx};
      var _ := TakeTxEvents(tx);
      was := engine.TxRollback(tx);
    }

    /** Publish `events`, stamped with the change head, keeping the latest `keep`. */
    method PublishEvents(events: seq<Pending>, head: nat, keep: nat)
      requires bus.Valid()
      modifies bus
      ensures bus.Valid() && Payloads(bus.history) == old(Payloads(bus.history)) + events
    {
      PayloadsStamped(bus.history, events, |bus.history|, head);
      bus.Publish(events, head, keep);
    }

    method CommitTx(tx: nat, before: Before, refusal: Option<Error>, head: nat, keep: nat)
      returns (r: Reply)
      requires Valid()
      modifies this, engine, bus
      ensures Answered(Commit(tx, before, refusal), r)
    {
      hide FieldsOk, Published, Fired, Payloads, Bus.Valid;
      FieldsStep(View(), trace, Commit(tx, before, refusal));
      var ran := FireBefore(tx, before);
      if tx in listed && listed[tx] {
        var _ := Discard(tx);
        r := Refused(TerminatedTx);
      } else if ran.Vetoed? {
        var _ := Discard(tx);
        r := Refused(Rejected);
      } else {
        r := FinishCommit(tx, ran.params, refusal, head, keep);
      }
      trace := trace + [Entry(Commit(tx, before, refusal), r)];
    }

    /** The engine commits or refuses; either way the transaction and its events are taken. */
    method FinishCommit(tx: nat, params: Option<Params>, refusal: Option<Error>, head: nat, keep: nat)
      returns (r: Reply)
      requires bus.Valid()
      modifies this, engine, bus
      ensures View() == old(View()).Without(tx) && trace == old(trace) && bus.Valid()
      ensures r == if tx !in old(engine.open) then Refused(AlreadyClosed)
                   else if refusal.Some? then Refused(refusal.value) else Done
      ensures Payloads(bus.history)
           == old(Payloads(bus.history)) + (if r == Done then old(View()).Waiting(tx) else [])
      ensures fired == old(fired) + (if r == Done && params.Some? then [params.value] else [])
    {
      hide Payloads, Bus.Valid;
      r := engine.TxCommit(tx, refusal);
      listed := listed - {tx};
      var events := TakeTxEvents(tx);
      if r == Done {
        PublishEvents(events, head, keep);
        if params.Some? {
          fired := fired + [params.value];
        }
      }
    }

    method RollbackTx(tx: nat) returns (was: bool)
      requires Valid()
      modifies this, engine
      ensures Answered(Rollback(tx), Closed(was))
    {
      hide FieldsOk, Published, Fired, Payloads, Bus.Valid;
      FieldsStep(View(), trace, Rollback(tx));
      was := Discard(tx);
      trace := trace + [Entry(Rollback(tx), Closed(was))];
    }

    method PrepareTx(tx: nat, gid: Gid, before: Before, readOnly: bool, refusal: Option<Error>)
      returns (r: Reply)
      requires Valid()
      modifies this, engine
      ensures Answered(Prepare(tx, gid, before, readOnly, refusal), r)
    {
      hide FieldsOk, Published, Fired, Payloads, Bus.Valid;
      FieldsStep(View(), trace, Prepare(tx, gid, before, readOnly, refusal));
      var ran := FireBefore(tx, before);
      if ran.Vetoed? {
        var _ := Discard(tx);
        r := Refused(Rejected);
      } else {
        r := FinishPrepare(tx, gid, ran.params, readOnly, refusal);
      }
      trace := trace + [Entry(Prepare(tx, gid, before, readOnly, refusal), r)];
    }

    /** The engine prepares or refuses; what waited for the transaction now waits for the gid,
        or is gone. */
    method FinishPrepare(tx: nat, gid: Gid, params: Option<Params>, readOnly: bool, refusal: Option<Error>)
      returns (r: Reply)
      modifies this, engine
      ensures trace == old(trace) && fired == old(fired)
      ensures r == if tx !in old(engine.open) then Refused(UnknownTransaction)
                   else if readOnly then Refused(ReadOnly)
                   else if gid in old(engine.prepared) then Refused(DuplicateGid)
                   else if old(engine.prepared) != {} then Refused(PreparedPending)
                   else if refusal.Some? then Refused(refusal.value) else Done
      ensures View() == (var f := old(View());
                         if r == Done then f.Without(tx).Holding(gid, f.Waiting(tx), params)
                         else f.Without(tx))
    {
      listed := listed - {tx};
      var events := TakeTxEvents(tx);
      r := engine.TxPrepare(tx, gid, readOnly, refusal);
      if r == Done && events != [] {
        preparedEvents := preparedEvents[gid := events];
      }
      if r == Done && params.Some? {
        preparedTriggers := preparedTriggers[gid := params.value];
      }
    }

    method CommitPrepared(gid: Gid, readOnly: bool, logFails: bool, head: nat, keep: nat)
      returns (r: Reply)
      requires Valid()
      modifies this, engine, bus
      ensures Answered(Call.CommitPrepared(gid, readOnly, logFails), r)
    {
      hide FieldsOk, Published, Fired, Payloads, Bus.Valid;
      FieldsStep(View(), trace, Call.CommitPrepared(gid, readOnly, logFails));
      r := engine.CommitPrepared(gid, readOnly, logFails);
      if r == Done {
        var events := TakePreparedEvents(gid);
        PublishEvents(events, head, keep);
        if gid in preparedTriggers {
          fired := fired + [preparedTriggers[gid]];
        }
        preparedTriggers := preparedTriggers - {gid};
      }
      trace := trace + [Entry(Call.CommitPrepared(gid, readOnly, logFails), r)];
    }

    /** The coordinator's rollback, or an operator's heuristic one. */
    method RollbackPrepared(gid: Gid, heuristic: bool, readOnly: bool, logFails: bool)
      returns (r: Reply)
      requires Valid()
      modifies this, engine
      ensures Answered(Call.RollbackPrepared(gid, heuristic, readOnly, logFails), r)
    {
      hide FieldsOk, Published, Fired, Payloads, Bus.Valid;
      FieldsStep(View(), trace, Call.RollbackPrepared(gid, heuristic, readOnly, logFails));
      r := engine.RollbackPreparedAs(gid, heuristic, readOnly, logFails);
      if r == Done {
        var _ := TakePreparedEvents(gid);
        preparedTriggers := preparedTriggers - {gid};
      }
      trace := trace + [Entry(Call.RollbackPrepared(gid, heuristic, readOnly, logFails), r)];
    }

    /** A statement that commits by itself. */
    method PublishStatement(events: seq<Pending>, head: nat, keep: nat)
      requires Valid()
      modifies this, bus
      ensures Answered(Autocommit(events), Done)
    {
      hide FieldsOk, Published, Fired, Payloads, Bus.Valid;
      FieldsStep(View(), trace, Autocommit(events));
      PublishEvents(events, head, keep);
      trace := trace + [Entry(Autocommit(events), Done)];
    }
  }
}
