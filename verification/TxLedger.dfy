/** What the calls on a service and their answers mean for its transactions
    (`src/native_service.rs`, `drevo-core/src/native.rs`).

    The specification is the trace of calls and answers alone: which transactions are open,
    prepared, committed or aborted, what each posted, and hence what has to be published.
    `TxService` keeps the maps the source keeps and is proved against it. */
module TxLedger {
  import opened Prelude
  import opened EventBus

  type Gid = string

  /** The change parameters handed to the `after` triggers. */
  type Params = string

  /** How a statement ended; `Exceeded` took its transaction over the write limit. */
  datatype Statement = Ran | Broke | Exceeded

  /** How the `before` triggers ended. */
  datatype Before = Passed(params: Option<Params>) | Vetoed

  datatype Error =
    | AlreadyClosed | TerminatedTx | StatementFailed | TooLarge | Rejected
    | UnknownTransaction | ReadOnly | DuplicateGid | PreparedPending
    | Conflict | Constraint | Io
    | UnknownGid | HeuristicOutcome

  /** A call, with what the model does not decide itself: how statements and triggers end,
      what they post, and why the engine refuses. */
  datatype Call =
    | Begin
    | Execute(tx: nat, events: seq<Pending>, outcome: Statement)
    | Terminate(tx: nat)
    | Commit(tx: nat, before: Before, refusal: Option<Error>)
    | Rollback(tx: nat)
    | Prepare(tx: nat, gid: Gid, before: Before, readOnly: bool, refusal: Option<Error>)
    | CommitPrepared(gid: Gid, readOnly: bool, logFails: bool)
    | RollbackPrepared(gid: Gid, heuristic: bool, readOnly: bool, logFails: bool)
    | Autocommit(events: seq<Pending>)

  datatype Reply = Began(tx: nat) | Done | Closed(was: bool) | Refused(error: Error)

  datatype Entry = Entry(call: Call, reply: Reply)

  // ----- one transaction ----------------------------------------------------------

  datatype Fate = Unborn | Open | Prepared(gid: Gid) | Committed | Aborted

  function FateAfter(f: Fate, e: Entry, t: nat): Fate {
    match e.call
    case Begin => if e.reply == Began(t) then Open else f
    case Execute(u, _, _) => if u == t && e.reply == Refused(TooLarge) then Aborted else f
    case Commit(u, _, _) =>
      if u != t || f != Open then f else if e.reply == Done then Committed else Aborted
    case Rollback(u) => if u == t && f == Open then Aborted else f
    case Prepare(u, g, _, _, _) =>
      if u != t || f != Open then f else if e.reply == Done then Prepared(g) else Aborted
    case CommitPrepared(g, _, _) => if f == Prepared(g) && e.reply == Done then Committed else f
    case RollbackPrepared(g, _, _, _) => if f == Prepared(g) && e.reply == Done then Aborted else f
    case Terminate(_) => f
    case Autocommit(_) => f
  }

  function FateOf(trace: seq<Entry>, t: nat): Fate {
    if trace == [] then Unborn
    else FateAfter(FateOf(trace[..|trace| - 1], t), trace[|trace| - 1], t)
  }

  /** What the statements of `t` that succeeded posted, in order. */
  function PostedAfter(posted: seq<Pending>, e: Entry, t: nat): seq<Pending> {
    if e.call.Execute? && e.call.tx == t && e.reply == Done then posted + e.call.events else posted
  }

  function PostedBy(trace: seq<Entry>, t: nat): seq<Pending> {
    if trace == [] then []
    else PostedAfter(PostedBy(trace[..|trace| - 1], t), trace[|trace| - 1], t)
  }

  /** Whether `t` was terminated while it was open. */
  predicate TerminatedOf(trace: seq<Entry>, t: nat) {
    trace != []
    && var front := trace[..|trace| - 1];
       || TerminatedOf(front, t)
       || (trace[|trace| - 1].call == Terminate(t) && FateOf(front, t) == Open)
  }

  function BegunIn(trace: seq<Entry>): nat {
    if trace == [] then 0
    else BegunIn(trace[..|trace| - 1]) + (if trace[|trace| - 1].call.Begin? then 1 else 0)
  }

  // ----- one global id --------------------------------------------------------------

  /** The transaction prepared under a gid, and the parameters its `after` triggers get. */
  datatype Holder = Holder(tx: nat, params: Option<Params>)

  function HolderAfter(h: Option<Holder>, e: Entry, g: Gid): Option<Holder> {
    if e.reply != Done then h
    else match e.call
      case Prepare(t, g', before, _, _) =>
        if g' == g then Some(Holder(t, if before.Passed? then before.params else None)) else h
      case CommitPrepared(g', _, _) => if g' == g then None else h
      case RollbackPrepared(g', _, _, _) => if g' == g then None else h
      case _ => h
  }

  function HolderOf(trace: seq<Entry>, g: Gid): Option<Holder> {
    if trace == [] then None
    else HolderAfter(HolderOf(trace[..|trace| - 1], g), trace[|trace| - 1], g)
  }

  /** A heuristic rollback is remembered until the gid is prepared again. */
  predicate HeuristicAfter(was: bool, held: bool, e: Entry, g: Gid) {
    if e.reply != Done then was
    else match e.call
      case Prepare(_, g', _, _, _) => was && g' != g
      case RollbackPrepared(g', heuristic, _, _) => was || (held && heuristic && g' == g)
      case _ => was
  }

  predicate HeuristicOf(trace: seq<Entry>, g: Gid) {
    trace != []
    && var front := trace[..|trace| - 1];
       HeuristicAfter(HeuristicOf(front, g), HolderOf(front, g).Some?, trace[|trace| - 1], g)
  }

  // ----- answers ------------------------------------------------------------------

  /** The answer a call must get after `trace`. */
  ghost function Answer(trace: seq<Entry>, call: Call): Reply {
    match call
    case Begin => Began(BegunIn(trace) + 1)
    case Execute(t, _, outcome) =>
      if FateOf(trace, t) != Open then Refused(AlreadyClosed)
      else if TerminatedOf(trace, t) then Refused(TerminatedTx)
      else (match outcome
            case Ran => Done
            case Broke => Refused(StatementFailed)
            case Exceeded => Refused(TooLarge))
    case Terminate(_) => Done
    case Commit(t, before, refusal) =>
      if FateOf(trace, t) != Open then Refused(AlreadyClosed)
      else if TerminatedOf(trace, t) then Refused(TerminatedTx)
      else if before.Vetoed? then Refused(Rejected)
      else if refusal.Some? then Refused(refusal.value)
      else Done
    case Rollback(t) => Closed(FateOf(trace, t) == Open)
    case Prepare(t, g, before, readOnly, refusal) =>
      if FateOf(trace, t) != Open then Refused(UnknownTransaction)
      else if before.Vetoed? then Refused(Rejected)
      else if readOnly then Refused(ReadOnly)
      else if HolderOf(trace, g).Some? then Refused(DuplicateGid)
      else if exists g' :: HolderOf(trace, g').Some? then Refused(PreparedPending)
      else if refusal.Some? then Refused(refusal.value)
      else Done
    case CommitPrepared(g, readOnly, logFails) =>
      if readOnly then Refused(ReadOnly)
      else if HolderOf(trace, g).None? then
        Refused(if HeuristicOf(trace, g) then HeuristicOutcome else UnknownGid)
      else if logFails then Refused(Io)
      else Done
    case RollbackPrepared(g, heuristic, readOnly, logFails) =>
      if readOnly then Refused(ReadOnly)
      else if HolderOf(trace, g).None? then
        if !heuristic && HeuristicOf(trace, g) then Done else Refused(UnknownGid)
      else if logFails then Refused(Io)
      else Done
    case Autocommit(_) => Done
  }

  /** Every call got the answer it must get. */
  ghost predicate Run(trace: seq<Entry>) {
    trace == []
    || (var front := trace[..|trace| - 1];
        Run(front) && trace[|trace| - 1].reply == Answer(front, trace[|trace| - 1].call))
  }

  // ----- what comes out -------------------------------------------------------------

  /** What is published when `e` follows `trace`. */
  function Publishes(trace: seq<Entry>, e: Entry): seq<Pending> {
    if e.reply != Done then []
    else match e.call
      case Commit(t, _, _) => PostedBy(trace, t)
      case CommitPrepared(g, _, _) =>
        (match HolderOf(trace, g)
         case Some(h) => PostedBy(trace, h.tx)
         case None => [])
      case Autocommit(events) => events
      case _ => []
  }

  function Published(trace: seq<Entry>): seq<Pending> {
    if trace == [] then []
    else Published(trace[..|trace| - 1]) + Publishes(trace[..|trace| - 1], trace[|trace| - 1])
  }

  /** The `after` triggers fired when `e` follows `trace`. */
  function Fires(trace: seq<Entry>, e: Entry): seq<Params> {
    if e.reply != Done then []
    else match e.call
      case Commit(_, Passed(Some(params)), _) => [params]
      case CommitPrepared(g, _, _) =>
        (match HolderOf(trace, g)
         case Some(Holder(_, Some(params))) => [params]
         case _ => [])
      case _ => []
  }

  function Fired(trace: seq<Entry>): seq<Params> {
    if trace == [] then []
    else Fired(trace[..|trace| - 1]) + Fires(trace[..|trace| - 1], trace[|trace| - 1])
  }

  /** What was published, by who committed it: a transaction, or a statement of its own. */
  datatype Source = OfTx(tx: nat) | OfStatement(events: seq<Pending>)

  function CommitsNow(trace: seq<Entry>, e: Entry): seq<Source> {
    if e.reply != Done then []
    else match e.call
      case Commit(t, _, _) => [OfTx(t)]
      case CommitPrepared(g, _, _) =>
        (match HolderOf(trace, g)
         case Some(h) => [OfTx(h.tx)]
         case None => [])
      case Autocommit(events) => [OfStatement(events)]
      case _ => []
  }

  function Commits(trace: seq<Entry>): seq<Source> {
    if trace == [] then []
    else Commits(trace[..|trace| - 1]) + CommitsNow(trace[..|trace| - 1], trace[|trace| - 1])
  }

  function EventsOf(trace: seq<Entry>, source: Source): seq<Pending> {
    match source
    case OfTx(t) => PostedBy(trace, t)
    case OfStatement(events) => events
  }

  /** Everything `sources` posted, each as a whole, in order. */
  function PostedByAll(trace: seq<Entry>, sources: seq<Source>): seq<Pending> {
    if sources == [] then []
    else PostedByAll(trace, sources[..|sources| - 1])
         + EventsOf(trace, sources[|sources| - 1])
  }

  // ----- lemmas --------------------------------------------------------------------

  /** One more entry, for every quantity read off the trace. */
  lemma Extend(trace: seq<Entry>, e: Entry)
    ensures forall t: nat :: FateOf(trace + [e], t) == FateAfter(FateOf(trace, t), e, t)
    ensures forall t: nat :: PostedBy(trace + [e], t) == PostedAfter(PostedBy(trace, t), e, t)
    ensures forall t: nat :: TerminatedOf(trace + [e], t)
                   <==> TerminatedOf(trace, t) || (e.call == Terminate(t) && FateOf(trace, t) == Open)
    ensures forall g :: HolderOf(trace + [e], g) == HolderAfter(HolderOf(trace, g), e, g)
    ensures forall g :: HeuristicOf(trace + [e], g)
                   <==> HeuristicAfter(HeuristicOf(trace, g), HolderOf(trace, g).Some?, e, g)
    ensures BegunIn(trace + [e]) == BegunIn(trace) + (if e.call.Begin? then 1 else 0)
    ensures Published(trace + [e]) == Published(trace) + Publishes(trace, e)
    ensures Fired(trace + [e]) == Fired(trace) + Fires(trace, e)
    ensures Commits(trace + [e]) == Commits(trace) + CommitsNow(trace, e)
    ensures Run(trace + [e]) <==> Run(trace) && e.reply == Answer(trace, e.call)
  {
    assert (trace + [e])[..|trace|] == trace;
  }

  /** One more entry, for one gid. */
  lemma ExtendGid(trace: seq<Entry>, e: Entry, g: Gid)
    ensures HolderOf(trace + [e], g) == HolderAfter(HolderOf(trace, g), e, g)
    ensures HeuristicOf(trace + [e], g)
       <==> HeuristicAfter(HeuristicOf(trace, g), HolderOf(trace, g).Some?, e, g)
  {
    assert (trace + [e])[..|trace|] == trace;
  }

  /** One more entry, for one transaction. */
  lemma ExtendTx(trace: seq<Entry>, e: Entry, t: nat)
    ensures FateOf(trace + [e], t) == FateAfter(FateOf(trace, t), e, t)
    ensures PostedBy(trace + [e], t) == PostedAfter(PostedBy(trace, t), e, t)
    ensures TerminatedOf(trace + [e], t)
       <==> TerminatedOf(trace, t) || (e.call == Terminate(t) && FateOf(trace, t) == Open)
  {
    assert (trace + [e])[..|trace|] == trace;
  }

  // ----- every run ------------------------------------------------------------------

  /** Transactions are numbered as they begin. */
  ghost predicate NumberedFates(trace: seq<Entry>) {
    && (forall t: nat :: FateOf(trace, t) == Unborn <==> t == 0 || t > BegunIn(trace))
    && (forall t: nat :: FateOf(trace, t) == Unborn ==> PostedBy(trace, t) == [])
  }

  /** A gid is held by the one transaction prepared under it. */
  ghost predicate HeldByPrepared(trace: seq<Entry>) {
    forall t: nat, g: Gid :: FateOf(trace, t) == Prepared(g) <==>
      HolderOf(trace, g).Some? && HolderOf(trace, g).value.tx == t
  }

  /** At most one gid is held, and the heuristic outcomes are of gids that are not. */
  ghost predicate OneHeld(trace: seq<Entry>) {
    && (forall g, g' :: HolderOf(trace, g).Some? && HolderOf(trace, g').Some? ==> g == g')
    && (forall g :: HeuristicOf(trace, g) ==> HolderOf(trace, g).None?)
  }

  ghost predicate Coherent(trace: seq<Entry>) {
    NumberedFates(trace) && HeldByPrepared(trace) && OneHeld(trace)
  }

  /** No transaction is listed twice. */
  ghost predicate OnceEach(sources: seq<Source>) {
    forall i, j :: 0 <= i < j < |sources| && sources[i].OfTx? ==> sources[i] != sources[j]
  }

  /** A transaction is among the commits exactly if its fate is to be committed, and once. */
  ghost predicate CommittedOnce(trace: seq<Entry>) {
    && (forall t: nat :: OfTx(t) in Commits(trace) <==> FateOf(trace, t) == Committed)
    && OnceEach(Commits(trace))
  }

  lemma {:induction false} RunIsCoherent(trace: seq<Entry>)
    requires Run(trace)
    ensures Coherent(trace)
    decreases |trace|
  {
    if trace != [] {
      var front, e := trace[..|trace| - 1], trace[|trace| - 1];
      assert trace == front + [e];
      RunIsCoherent(front);
      CoherentStep(front, e);
    }
  }

  lemma CoherentStep(trace: seq<Entry>, e: Entry)
    requires Coherent(trace) && e.reply == Answer(trace, e.call)
    ensures Coherent(trace + [e])
  {
    NumberedStep(trace, e);
    HeldStep(trace, e);
    OneHeldStep(trace, e);
  }

  lemma NumberedStep(trace: seq<Entry>, e: Entry)
    requires NumberedFates(trace) && HeldByPrepared(trace) && e.reply == Answer(trace, e.call)
    ensures NumberedFates(trace + [e])
  {
    hide FateOf, PostedBy, TerminatedOf, HolderOf, HeuristicOf;
    assert (trace + [e])[..|trace|] == trace;
    forall t: nat
      ensures FateOf(trace + [e], t) == Unborn <==> t == 0 || t > BegunIn(trace + [e])
      ensures FateOf(trace + [e], t) == Unborn ==> PostedBy(trace + [e], t) == []
    {
      ExtendTx(trace, e, t);
    }
  }

  lemma HeldStep(trace: seq<Entry>, e: Entry)
    requires NumberedFates(trace) && HeldByPrepared(trace) && e.reply == Answer(trace, e.call)
    ensures HeldByPrepared(trace + [e])
  {
    hide FateOf, PostedBy, PostedAfter, TerminatedOf, HolderOf, HeuristicOf, HeuristicAfter, BegunIn;
    forall t: nat, g: Gid
      ensures FateOf(trace + [e], t) == Prepared(g) <==>
                HolderOf(trace + [e], g).Some? && HolderOf(trace + [e], g).value.tx == t
    {
      ExtendTx(trace, e, t);
      ExtendGid(trace, e, g);
      HeldPair(trace, e, t, g);
    }
  }

  lemma HeldPair(trace: seq<Entry>, e: Entry, t: nat, g: Gid)
    requires NumberedFates(trace) && HeldByPrepared(trace) && e.reply == Answer(trace, e.call)
    ensures FateAfter(FateOf(trace, t), e, t) == Prepared(g) <==>
              && HolderAfter(HolderOf(trace, g), e, g).Some?
              && HolderAfter(HolderOf(trace, g), e, g).value.tx == t
  {
    hide FateOf, PostedBy, TerminatedOf, HolderOf, HeuristicOf, BegunIn;
    assert FateOf(trace, t) == Prepared(g) <==>
             HolderOf(trace, g).Some? && HolderOf(trace, g).value.tx == t;
  }

  lemma OneHeldStep(trace: seq<Entry>, e: Entry)
    requires OneHeld(trace) && e.reply == Answer(trace, e.call)
    ensures OneHeld(trace + [e])
  {
    hide Published, Fired, Commits, Run, Publishes, Fires, CommitsNow;
    hide FateOf, FateAfter, PostedBy, PostedAfter, TerminatedOf, BegunIn, HolderOf, HeuristicOf;
    forall g
      ensures HolderOf(trace + [e], g) == HolderAfter(HolderOf(trace, g), e, g)
      ensures HeuristicOf(trace + [e], g) <==> HeuristicAfter(HeuristicOf(trace, g), HolderOf(trace, g).Some?, e, g)
    {
      ExtendGid(trace, e, g);
    }
  }

  lemma {:induction false} RunCommitsOnce(trace: seq<Entry>)
    requires Run(trace)
    ensures CommittedOnce(trace)
    decreases |trace|
  {
    if trace != [] {
      var front, e := trace[..|trace| - 1], trace[|trace| - 1];
      assert trace == front + [e];
      RunIsCoherent(front);
      RunCommitsOnce(front);
      CommitStep(front, e);
    }
  }

  lemma CommitStep(trace: seq<Entry>, e: Entry)
    requires Coherent(trace) && CommittedOnce(trace) && e.reply == Answer(trace, e.call)
    ensures CommittedOnce(trace + [e])
  {
    hide Coherent, CommitsNow, FateAfter, OnceEach, Answer;
    Extend(trace, e);
    forall t: nat
      ensures |CommitsNow(trace, e)| <= 1
      ensures OfTx(t) in CommitsNow(trace, e) ==>
                FateOf(trace, t) != Committed && FateOf(trace + [e], t) == Committed
      ensures FateOf(trace + [e], t) == Committed ==>
                FateOf(trace, t) == Committed || OfTx(t) in CommitsNow(trace, e)
      ensures FateOf(trace, t) == Committed ==> FateOf(trace + [e], t) == Committed
    {
      NewlyCommitted(trace, e, t);
    }
    assert |CommitsNow(trace, e)| <= 1 by {
      NewlyCommitted(trace, e, 0);
    }
    OnceMore(Commits(trace), CommitsNow(trace, e));
  }

  lemma OnceMore(sources: seq<Source>, more: seq<Source>)
    requires OnceEach(sources) && |more| <= 1
    requires forall t: nat :: OfTx(t) in more ==> OfTx(t) !in sources
    ensures OnceEach(sources + more)
  {
  }

  lemma NewlyCommitted(trace: seq<Entry>, e: Entry, t: nat)
    requires Coherent(trace) && e.reply == Answer(trace, e.call)
    ensures |CommitsNow(trace, e)| <= 1
    ensures OfTx(t) in CommitsNow(trace, e) ==>
              FateOf(trace, t) != Committed && FateAfter(FateOf(trace, t), e, t) == Committed
    ensures FateAfter(FateOf(trace, t), e, t) == Committed ==>
              FateOf(trace, t) == Committed || OfTx(t) in CommitsNow(trace, e)
    ensures FateOf(trace, t) == Committed ==> FateAfter(FateOf(trace, t), e, t) == Committed
  {
  }

  /** Once committed or aborted, a transaction stays so, and posts nothing more. */
  lemma FateIsFinal(trace: seq<Entry>, e: Entry, t: nat)
    requires Run(trace + [e]) && (FateOf(trace, t) == Committed || FateOf(trace, t) == Aborted)
    ensures FateOf(trace + [e], t) == FateOf(trace, t)
    ensures PostedBy(trace + [e], t) == PostedBy(trace, t)
  {
    Extend(trace, e);
    RunIsCoherent(trace);
  }

  lemma {:induction false} FinalInEveryRun(trace: seq<Entry>, later: seq<Entry>, t: nat)
    requires Run(trace + later) && (FateOf(trace, t) == Committed || FateOf(trace, t) == Aborted)
    ensures FateOf(trace + later, t) == FateOf(trace, t)
    ensures PostedBy(trace + later, t) == PostedBy(trace, t)
    decreases |later|
  {
    if later == [] {
      assert trace + later == trace;
    } else {
      var front, e := later[..|later| - 1], later[|later| - 1];
      assert trace + later == (trace + front) + [e];
      Extend(trace + front, e);
      FinalInEveryRun(trace, front, t);
      FateIsFinal(trace + front, e, t);
    }
  }

  lemma {:induction false} PostedByAllStays(trace: seq<Entry>, e: Entry, sources: seq<Source>)
    requires Run(trace + [e])
    requires forall t: nat :: OfTx(t) in sources ==> FateOf(trace, t) == Committed
    ensures PostedByAll(trace + [e], sources) == PostedByAll(trace, sources)
    decreases |sources|
  {
    if sources != [] {
      PostedByAllStays(trace, e, sources[..|sources| - 1]);
      if sources[|sources| - 1].OfTx? {
        FateIsFinal(trace, e, sources[|sources| - 1].tx);
      }
    }
  }

  lemma PostedByAllOne(trace: seq<Entry>, sources: seq<Source>, one: Source)
    ensures PostedByAll(trace, sources + [one])
         == PostedByAll(trace, sources) + EventsOf(trace, one)
  {
    assert (sources + [one])[..|sources|] == sources;
  }

  lemma CommitsNowPublishes(trace: seq<Entry>, e: Entry, before: seq<Source>)
    ensures PostedByAll(trace + [e], before + CommitsNow(trace, e))
         == PostedByAll(trace + [e], before) + Publishes(trace, e)
  {
    hide PostedByAll;
    Extend(trace, e);
    var now := CommitsNow(trace, e);
    if now == [] {
      assert before + now == before;
    } else {
      assert now == [now[0]];
      PostedByAllOne(trace + [e], before, now[0]);
    }
  }

  /** Over every run, what is published is exactly what the committed transactions posted,
      each once and as a whole, in the order they committed. */
  lemma {:induction false} PublishedExactlyOnce(trace: seq<Entry>)
    requires Run(trace)
    ensures Published(trace) == PostedByAll(trace, Commits(trace))
    ensures CommittedOnce(trace)
    decreases |trace|
  {
    hide CommitsNow, Publishes, Answer;
    RunCommitsOnce(trace);
    if trace != [] {
      var front, e := trace[..|trace| - 1], trace[|trace| - 1];
      assert trace == front + [e];
      PublishedExactlyOnce(front);
      Extend(front, e);
      PostedByAllStays(front, e, Commits(front));
      CommitsNowPublishes(front, e, Commits(front));
    }
  }

  /** A transaction that ends any other way has published nothing and never will. */
  lemma AbortedPublishesNothing(trace: seq<Entry>, later: seq<Entry>, t: nat)
    requires Run(trace + later) && FateOf(trace, t) == Aborted
    ensures OfTx(t) !in Commits(trace + later)
  {
    FinalInEveryRun(trace, later, t);
    RunCommitsOnce(trace + later);
  }

  /** Phase two, however often it failed to be logged before, publishes what the transaction
      posted, and ends its gid: nothing is left for whoever is prepared under it next. */
  lemma PhaseTwoAfterFailures(trace: seq<Entry>, t: nat, g: Gid, failures: nat)
    requires Run(trace) && FateOf(trace, t) == Prepared(g)
    ensures var failed := seq(failures, _ => Entry(CommitPrepared(g, false, true), Refused(Io)));
            var done := Entry(CommitPrepared(g, false, false), Done);
            && Run(trace + failed + [done])
            && Published(trace + failed + [done]) == Published(trace) + PostedBy(trace, t)
            && FateOf(trace + failed + [done], t) == Committed
            && HolderOf(trace + failed + [done], g) == None
    decreases failures
  {
    hide Run, FateOf, PostedBy, Published, HolderOf;
    var fails := Entry(CommitPrepared(g, false, true), Refused(Io));
    var failed := seq(failures, _ => fails);
    if failures == 0 {
      assert trace + failed == trace;
      PhaseTwoCommits(trace, t, g);
    } else {
      PhaseTwoFails(trace, t, g);
      PhaseTwoAfterFailures(trace + [fails], t, g, failures - 1);
      assert trace + [fails] + seq(failures - 1, _ => fails) == trace + failed;
    }
  }

  lemma PhaseTwoFails(trace: seq<Entry>, t: nat, g: Gid)
    requires Run(trace) && FateOf(trace, t) == Prepared(g)
    ensures var next := trace + [Entry(CommitPrepared(g, false, true), Refused(Io))];
            && Run(next) && FateOf(next, t) == Prepared(g) && PostedBy(next, t) == PostedBy(trace, t)
            && Published(next) == Published(trace)
  {
    RunIsCoherent(trace);
    Extend(trace, Entry(CommitPrepared(g, false, true), Refused(Io)));
  }

  lemma PhaseTwoCommits(trace: seq<Entry>, t: nat, g: Gid)
    requires Run(trace) && FateOf(trace, t) == Prepared(g)
    ensures var next := trace + [Entry(CommitPrepared(g, false, false), Done)];
            && Run(next) && Published(next) == Published(trace) + PostedBy(trace, t)
            && FateOf(next, t) == Committed && HolderOf(next, g) == None
  {
    RunIsCoherent(trace);
    Extend(trace, Entry(CommitPrepared(g, false, false), Done));
  }

  // ----- triggers -------------------------------------------------------------------------------------

  /** What the `before` triggers passed when `t` was committed or prepared. */
  function PassedAfter(passed: Option<Params>, e: Entry, t: nat): Option<Params> {
    if e.reply == Done && (e.call.Commit? || e.call.Prepare?) && e.call.tx == t then
      if e.call.before.Passed? then e.call.before.params else None
    else passed
  }

  function PassedBy(trace: seq<Entry>, t: nat): Option<Params> {
    if trace == [] then None
    else PassedAfter(PassedBy(trace[..|trace| - 1], t), trace[|trace| - 1], t)
  }

  lemma ExtendPassed(trace: seq<Entry>, e: Entry, t: nat)
    ensures PassedBy(trace + [e], t) == PassedAfter(PassedBy(trace, t), e, t)
  {
    assert (trace + [e])[..|trace|] == trace;
  }

  function ParamsOf(trace: seq<Entry>, source: Source): seq<Params> {
    if source.OfTx? && PassedBy(trace, source.tx).Some? then [PassedBy(trace, source.tx).value] else []
  }

  /** What the `before` triggers of `sources` passed, in order. */
  function ParamsOfAll(trace: seq<Entry>, sources: seq<Source>): seq<Params> {
    if sources == [] then []
    else ParamsOfAll(trace, sources[..|sources| - 1]) + ParamsOf(trace, sources[|sources| - 1])
  }

  /** What waits for a held gid is what was passed when it was prepared. */
  ghost predicate HeldPassed(trace: seq<Entry>) {
    forall g :: HolderOf(trace, g).Some? ==>
      HolderOf(trace, g).value.params == PassedBy(trace, HolderOf(trace, g).value.tx)
  }

  lemma HeldPassedStep(trace: seq<Entry>, e: Entry)
    requires HeldPassed(trace) && HeldByPrepared(trace) && e.reply == Answer(trace, e.call)
    ensures HeldPassed(trace + [e])
  {
    hide FateOf, PostedBy, TerminatedOf, HolderOf, HeuristicOf, BegunIn, PassedBy;
    forall g: Gid | HolderOf(trace + [e], g).Some?
      ensures HolderOf(trace + [e], g).value.params == PassedBy(trace + [e], HolderOf(trace + [e], g).value.tx)
    {
      ExtendGid(trace, e, g);
      ExtendPassed(trace, e, HolderOf(trace + [e], g).value.tx);
      if HolderOf(trace, g).Some? {
        assert FateOf(trace, HolderOf(trace, g).value.tx) == Prepared(g);
      }
    }
  }

  lemma {:induction false} RunHeldPassed(trace: seq<Entry>)
    requires Run(trace)
    ensures HeldPassed(trace)
    decreases |trace|
  {
    if trace != [] {
      var front, e := trace[..|trace| - 1], trace[|trace| - 1];
      assert trace == front + [e];
      RunHeldPassed(front);
      RunIsCoherent(front);
      HeldPassedStep(front, e);
    }
  }

  /** A committed transaction passes nothing more. */
  lemma PassedIsFinal(trace: seq<Entry>, e: Entry, t: nat)
    requires Run(trace + [e]) && FateOf(trace, t) == Committed
    ensures PassedBy(trace + [e], t) == PassedBy(trace, t)
  {
    ExtendPassed(trace, e, t);
    assert (trace + [e])[..|trace|] == trace;
    hide FateOf, PassedBy;
  }

  lemma {:induction false} ParamsOfAllStay(trace: seq<Entry>, e: Entry, sources: seq<Source>)
    requires Run(trace + [e])
    requires forall t: nat :: OfTx(t) in sources ==> FateOf(trace, t) == Committed
    ensures ParamsOfAll(trace + [e], sources) == ParamsOfAll(trace, sources)
    decreases |sources|
  {
    if sources != [] {
      ParamsOfAllStay(trace, e, sources[..|sources| - 1]);
      if sources[|sources| - 1].OfTx? {
        PassedIsFinal(trace, e, sources[|sources| - 1].tx);
      }
    }
  }

  lemma ParamsOfAllOne(trace: seq<Entry>, sources: seq<Source>, one: Source)
    ensures ParamsOfAll(trace, sources + [one]) == ParamsOfAll(trace, sources) + ParamsOf(trace, one)
  {
    assert (sources + [one])[..|sources|] == sources;
  }

  lemma FiresIs(trace: seq<Entry>, e: Entry, before: seq<Source>)
    requires HeldPassed(trace) && HeldByPrepared(trace) && e.reply == Answer(trace, e.call)
    ensures ParamsOfAll(trace + [e], before + CommitsNow(trace, e))
         == ParamsOfAll(trace + [e], before) + Fires(trace, e)
  {
    hide ParamsOfAll, FateOf, PassedBy, HolderOf, HeldByPrepared, PostedBy, TerminatedOf, HeuristicOf, BegunIn;
    var now := CommitsNow(trace, e);
    if now == [] {
      assert before + now == before;
      assert Fires(trace, e) == [];
    } else {
      assert now == [now[0]];
      ParamsOfAllOne(trace + [e], before, now[0]);
      if now[0].OfTx? {
        ExtendPassed(trace, e, now[0].tx);
      }
    }
  }

  /** Over every run, the `after` triggers run exactly with what the `before` triggers of the
      committed transactions passed, once each, in commit order: in phase two as in a commit. */
  lemma {:induction false} FiredExactlyOnce(trace: seq<Entry>)
    requires Run(trace)
    ensures Fired(trace) == ParamsOfAll(trace, Commits(trace))
    decreases |trace|
  {
    if trace != [] {
      var front, e := trace[..|trace| - 1], trace[|trace| - 1];
      assert trace == front + [e];
      FiredExactlyOnce(front);
      Extend(front, e);
      RunCommitsOnce(front);
      RunIsCoherent(front);
      RunHeldPassed(front);
      hide CommitsNow, Fires, Answer, HeldPassed, HeldByPrepared, NumberedFates, OneHeld;
      ParamsOfAllStay(front, e, Commits(front));
      FiresIs(front, e, Commits(front));
    }
  }

  // ----- what never commits -----------------------------------------------------------------------------

  /** A terminated transaction runs nothing more, and a commit of it aborts it. */
  lemma TerminatedDoesNothing(trace: seq<Entry>, e: Entry, t: nat)
    requires Run(trace + [e]) && TerminatedOf(trace, t)
    ensures PostedBy(trace + [e], t) == PostedBy(trace, t)
    ensures e.call.Commit? && e.call.tx == t ==> FateOf(trace + [e], t) != Committed || FateOf(trace, t) == Committed
    ensures e.call.Commit? && e.call.tx == t && FateOf(trace, t) == Open ==> FateOf(trace + [e], t) == Aborted
  {
    assert (trace + [e])[..|trace|] == trace;
    ExtendTx(trace, e, t);
    hide FateOf, PostedBy, TerminatedOf;
  }

  /** A vetoed or refused commit or prepare aborts. */
  lemma RefusedAborts(trace: seq<Entry>, e: Entry, t: nat)
    requires Run(trace + [e]) && FateOf(trace, t) == Open && (e.call.Commit? || e.call.Prepare?) && e.call.tx == t
    requires e.call.before.Vetoed? || e.call.refusal.Some? || (e.call.Prepare? && e.call.readOnly)
    ensures FateOf(trace + [e], t) == Aborted
  {
    assert (trace + [e])[..|trace|] == trace;
    ExtendTx(trace, e, t);
    hide FateOf, PostedBy, TerminatedOf;
  }

  /** A heuristic outcome stays until its gid is prepared again. */
  lemma HeuristicStays(trace: seq<Entry>, e: Entry, g: Gid)
    requires e.reply == Answer(trace, e.call) && HeuristicOf(trace, g) && HolderOf(trace, g).None?
    requires !(e.call.Prepare? && e.call.gid == g)
    ensures HeuristicOf(trace + [e], g) && HolderOf(trace + [e], g).None?
  {
    ExtendGid(trace, e, g);
    hide HolderOf, HeuristicOf, FateOf, TerminatedOf, BegunIn, PostedBy;
  }

  lemma {:induction false} HeuristicKept(trace: seq<Entry>, later: seq<Entry>, g: Gid)
    requires Run(trace + later) && HeuristicOf(trace, g) && HolderOf(trace, g).None?
    requires forall i :: 0 <= i < |later| ==> !(later[i].call.Prepare? && later[i].call.gid == g)
    ensures HeuristicOf(trace + later, g) && HolderOf(trace + later, g).None?
    decreases |later|
  {
    hide HolderOf, HeuristicOf, Answer;
    if later == [] {
      assert trace + later == trace;
    } else {
      var front, last := later[..|later| - 1], later[|later| - 1];
      assert trace + later == (trace + front) + [last];
      assert (trace + later)[..|trace + front|] == trace + front;
      HeuristicKept(trace, front, g);
      HeuristicStays(trace + front, last, g);
    }
  }

  /** The coordinator is told of a heuristic rollback, until the gid is prepared again. */
  lemma HeuristicIsTold(trace: seq<Entry>, e: Entry, later: seq<Entry>, g: Gid, logFails: bool)
    requires Run(trace + [e] + later) && HolderOf(trace, g).Some?
    requires e.call.RollbackPrepared? && e.call.gid == g && e.call.heuristic && e.reply == Done
    requires forall i :: 0 <= i < |later| ==> !(later[i].call.Prepare? && later[i].call.gid == g)
    ensures Answer(trace + [e] + later, CommitPrepared(g, false, logFails)) == Refused(HeuristicOutcome)
  {
    hide HolderOf, HeuristicOf, Run, FateOf, PostedBy, TerminatedOf, BegunIn;
    var whole := trace + [e] + later;
    assert HeuristicOf(whole, g) && HolderOf(whole, g).None? by {
      hide Answer;
      ExtendGid(trace, e, g);
      HeuristicKept(trace + [e], later, g);
    }
  }
}
