/** Statements that commit by themselves (`src/native_service.rs`), and the thread's buffer
    that keeps the events they post (`collect` and `post`, `src/event_bus.rs`). */
module Autocommit {
  import opened Prelude
  import opened EventBus
  import opened Text

  // ----- collecting -------------------------------------------------------------------------

  /** What a piece of work does with the buffer: post an event, run work in a `collect` of its
      own, run work whose panic it catches, or panic. */
  datatype Act =
    | Post(event: Pending)
    | Nested(body: seq<Act>)
    | Caught(body: seq<Act>)
    | Panic

  /** Whether `acts` end in a panic. */
  predicate EndInPanic(acts: seq<Act>) {
    acts != []
    && (EndInPanic(acts[..|acts| - 1])
        || (match acts[|acts| - 1]
            case Panic => true
            case Nested(body) => EndInPanic(body)
            case _ => false))
  }

  /** What `acts` post themselves, up to a panic: nothing of what they run in a `collect`. */
  function Own(acts: seq<Act>): seq<Pending> {
    if acts == [] then []
    else
      var before := Own(acts[..|acts| - 1]);
      if EndInPanic(acts[..|acts| - 1]) then before
      else match acts[|acts| - 1]
        case Post(event) => before + [event]
        case Caught(body) => before + Own(body)
        case _ => before
  }

  /** What `posted` leaves in a buffer; where nothing collects, nothing is kept. */
  function Kept(buffer: Option<seq<Pending>>, posted: seq<Pending>): Option<seq<Pending>> {
    if buffer.Some? then Some(buffer.value + posted) else None
  }

  lemma KeptNothing(buffer: Option<seq<Pending>>)
    ensures Kept(buffer, []) == buffer
  {
    if buffer.Some? {
      assert buffer.value + [] == buffer.value;
    }
  }

  lemma KeptMore(buffer: Option<seq<Pending>>, x: seq<Pending>, y: seq<Pending>)
    ensures Kept(Kept(buffer, x), y) == Kept(buffer, x + y)
  {
    if buffer.Some? {
      assert buffer.value + x + y == buffer.value + (x + y);
    }
  }

  /** The thread's buffer. */
  class Collector {
    var buffer: Option<seq<Pending>>

    constructor ()
      ensures buffer == None
    {
      buffer := None;
    }

    /** Keep `event` for the innermost `collect`; `false`, and nothing kept, without one. */
    method Keep(event: Pending) returns (kept: bool)
      modifies this
      ensures kept == old(buffer).Some? && buffer == Kept(old(buffer), [event])
    {
      if buffer.None? {
        return false;
      }
      buffer := Some(buffer.value + [event]);
      kept := true;
    }

    /** The entry of `collect`: an empty buffer, the enclosing one set aside. */
    method Enter() returns (outer: Option<seq<Pending>>)
      modifies this
      ensures outer == old(buffer) && buffer == Some([])
    {
      outer := buffer;
      buffer := Some([]);
    }

    /** The exit of `collect`: what was posted, the enclosing buffer back in place. */
    method Leave(outer: Option<seq<Pending>>) returns (posted: seq<Pending>)
      modifies this
      ensures posted == (if old(buffer).Some? then old(buffer).value else []) && buffer == outer
    {
      posted := if buffer.Some? then buffer.value else [];
      buffer := outer;
    }

    /** Run `body` and keep what it posts itself. Whatever it does, and even if it panics, the
        enclosing buffer is as it was. */
    method Collect(body: seq<Act>) returns (panicked: bool, posted: seq<Pending>)
      modifies this
      ensures buffer == old(buffer)
      ensures panicked == EndInPanic(body)
      ensures !panicked ==> posted == Own(body)
      decreases body
    {
      var outer := Enter();
      panicked := Run(body);
      posted := Leave(outer);
      assert [] + Own(body) == Own(body);
    }

    /** Run `acts`, to the end or to a panic. */
    method Run(acts: seq<Act>) returns (panicked: bool)
      modifies this
      ensures panicked == EndInPanic(acts)
      ensures buffer == Kept(old(buffer), Own(acts))
      decreases acts, 0
    {
      KeptNothing(buffer);
      var i := 0;
      while i < |acts|
        invariant 0 <= i <= |acts|
        invariant !EndInPanic(acts[..i])
        invariant buffer == Kept(old(buffer), Own(acts[..i]))
      {
        ghost var soFar := Own(acts[..i]);
        assert acts[..i + 1][..i] == acts[..i];
        match acts[i] {
          case Post(event) =>
            KeptMore(old(buffer), soFar, [event]);
            var _ := Keep(event);
          case Nested(body) =>
            var failed, _ := Collect(body);
            if failed {
              PanicStops(acts, i + 1);
              return true;
            }
          case Caught(body) =>
            KeptMore(old(buffer), soFar, Own(body));
            var _ := Run(body);
          case Panic =>
            PanicStops(acts, i + 1);
            return true;
        }
        i := i + 1;
      }
      assert acts[..i] == acts;
      panicked := false;
    }
  }

  /** Nothing after a panic is run. */
  lemma {:induction false} PanicStops(acts: seq<Act>, n: nat)
    requires n <= |acts| && EndInPanic(acts[..n])
    ensures EndInPanic(acts) && Own(acts) == Own(acts[..n])
    decreases |acts|
  {
    if n < |acts| {
      assert acts[..|acts| - 1][..n] == acts[..n];
      PanicStops(acts[..|acts| - 1], n);
    } else {
      assert acts[..n] == acts;
    }
  }

  // ----- a writing statement as one transaction ----------------------------------------------

  const ATTEMPTS: nat := 8

  /** `Panicked` is no answer: the panic goes on through the caller. */
  datatype Error =
    | StatementFailed | TriggerFailed | Constraint | ReadOnly | PreparedPending | Io | Conflict
    | Panicked

  datatype TriggerOutcome = TriggersPass | TriggersFail | TriggersPanic

  datatype CommitOutcome = Committed | LostRace | Refused(error: Error)

  /** One attempt: what the statement returned and posted, what the `before` triggers posted
      and how they ended, and how the commit did. */
  datatype Attempt = Attempt(rows: Result<string, Error>, events: seq<Pending>,
                             triggerPosts: seq<Pending>, triggers: TriggerOutcome, commit: CommitOutcome)
  {
    /** It got as far as running the `before` triggers. */
    predicate ReachesTriggers() {
      rows.Ok?
    }

    predicate Commits() {
      rows.Ok? && triggers.TriggersPass? && commit == Committed
    }

    predicate LosesRace() {
      rows.Ok? && triggers.TriggersPass? && commit == LostRace
    }

    /** What it posts once it has committed. */
    function Posted(): seq<Pending> {
      if Commits() then events else []
    }

    predicate Unwinds() {
      rows == Err(Panicked) || (rows.Ok? && triggers.TriggersPanic?)
    }

    function FromTriggers(): seq<Pending> {
      if ReachesTriggers() then triggerPosts else []
    }
  }

  /** What happens at each attempt, from 1. */
  type Attempts = nat -> Attempt

  /** The attempt that decides: the first that does not lose a race, or the last. */
  function Deciding(attempts: Attempts, k: nat): (d: nat)
    requires 1 <= k <= ATTEMPTS
    ensures k <= d <= ATTEMPTS
    decreases ATTEMPTS - k
  {
    if attempts(k).LosesRace() && k < ATTEMPTS then Deciding(attempts, k + 1) else k
  }

  /** How attempt `a` decides. */
  function Verdict(a: Attempt): Result<string, Error> {
    if a.rows.Err? then a.rows
    else if a.triggers.TriggersFail? then Err(TriggerFailed)
    else if a.triggers.TriggersPanic? then Err(Panicked)
    else match a.commit
      case Committed => a.rows
      case LostRace => Err(Conflict)
      case Refused(error) => Err(error)
  }

  /** What the `before` triggers of attempts `1` to `k` posted. */
  function TriggerPosts(attempts: Attempts, k: nat): seq<Pending> {
    if k == 0 then [] else TriggerPosts(attempts, k - 1) + attempts(k).FromTriggers()
  }

  /** Everything before the deciding attempt lost a race. */
  lemma {:induction false} DecidingIsFirst(attempts: Attempts, k: nat, i: nat)
    requires 1 <= k <= ATTEMPTS && k <= i < Deciding(attempts, k)
    ensures attempts(i).LosesRace()
    decreases ATTEMPTS - k
  {
    if k < i {
      DecidingIsFirst(attempts, k + 1, i);
    }
  }

  lemma {:induction false} DecidingFromAny(attempts: Attempts, k: nat)
    requires 1 <= k <= ATTEMPTS && forall i :: 1 <= i < k ==> attempts(i).LosesRace()
    ensures Deciding(attempts, 1) == Deciding(attempts, k)
    decreases k
  {
    if k > 1 {
      assert attempts(k - 1).LosesRace();
      DecidingFromAny(attempts, k - 1);
    }
  }

  /** The service, as one statement at a time uses it. */
  class Service {
    const collector: Collector
    const bus: Bus
    var lastTx: nat
    var open: set<nat>

    constructor (collector: Collector, bus: Bus)
      ensures this.collector == collector && this.bus == bus && open == {}
    {
      this.collector, this.bus := collector, bus;
      lastTx, open := 0, {};
    }

    ghost predicate Numbered()
      reads this
    {
      forall tx :: tx in open ==> tx <= lastTx
    }

    /** Post every one of `events`. */
    method PostAll(events: seq<Pending>)
      modifies collector
      ensures collector.buffer == Kept(old(collector.buffer), events)
    {
      KeptNothing(collector.buffer);
      var i := 0;
      while i < |events|
        invariant 0 <= i <= |events|
        invariant collector.buffer == Kept(old(collector.buffer), events[..i])
      {
        KeptMore(old(collector.buffer), events[..i], [events[i]]);
        assert events[..i + 1] == events[..i] + [events[i]];
        var _ := collector.Keep(events[i]);
        i := i + 1;
      }
      assert events[..i] == events;
    }

    /** `execute_as_transaction`: at most eight attempts, decided by the first that does not
        lose a race. What is posted to the enclosing `collect` is that attempt's events if it
        commits, after what the `before` triggers of every attempt posted. Whatever it
        answers, no transaction stays open; a panic leaves its own registered. */
    method ExecuteAsTransaction(attempts: Attempts) returns (r: Result<string, Error>, made: nat)
      requires Numbered()
      modifies this, collector
      ensures Numbered() && open == old(open) + (if Panics(attempts) then {lastTx} else {})
      ensures made == Deciding(attempts, 1) && r == Verdict(attempts(made))
      ensures collector.buffer == Kept(old(collector.buffer),
                TriggerPosts(attempts, made) + if r.Ok? then attempts(made).events else [])
    {
      KeptNothing(collector.buffer);
      made := 0;
      while true
        invariant 0 <= made < ATTEMPTS && Numbered() && open == old(open)
        invariant forall i :: 1 <= i <= made ==> attempts(i).LosesRace()
        invariant collector.buffer == Kept(old(collector.buffer), TriggerPosts(attempts, made))
        decreases ATTEMPTS - made
      {
        ghost var posts := TriggerPosts(attempts, made);
        made := made + 1;
        DecidingFromAny(attempts, made);
        var a := attempts(made);
        r := AttemptOnce(a);
        KeptMore(old(collector.buffer), posts, a.FromTriggers() + a.Posted());
        Assoc(posts, a.FromTriggers(), a.Posted());
        if !a.LosesRace() || made == ATTEMPTS {
          return;
        }
        assert TriggerPosts(attempts, made) + [] == TriggerPosts(attempts, made);
      }
    }

    /** One attempt: its own transaction, begun and closed; only a panic leaves it open. */
    method AttemptOnce(a: Attempt) returns (r: Result<string, Error>)
      requires Numbered()
      modifies this, collector
      ensures Numbered() && open == old(open) + (if a.Unwinds() then {lastTx} else {})
      ensures r == Verdict(a)
      ensures collector.buffer == Kept(old(collector.buffer), a.FromTriggers() + a.Posted())
    {
      ghost var buffer := collector.buffer;
      KeptNothing(buffer);
      KeptMore(buffer, a.FromTriggers(), a.Posted());
      assert a.FromTriggers() + [] == a.FromTriggers();
      assert [] + a.Posted() == a.Posted();
      lastTx := lastTx + 1;
      var tx := lastTx;
      open := open + {tx};
      if a.rows == Err(Panicked) {
        return a.rows;
      }
      if a.rows.Err? {
        open := open - {tx};
        return a.rows;
      }
      PostAll(a.triggerPosts);
      if a.triggers.TriggersPanic? {
        return Err(Panicked);
      }
      open := open - {tx};
      if a.triggers.TriggersFail? {
        return Err(TriggerFailed);
      }
      match a.commit {
        case Committed =>
          PostAll(a.events);
          r := a.rows;
        case Refused(error) =>
          r := Err(error);
        case LostRace =>
          r := Err(Conflict);
      }
    }

    /** The body of `execute_autocommit`, in the outer `collect`. */
    method Perform(work: Work) returns (r: Result<string, Error>)
      requires Numbered()
      modifies this, collector
      ensures Numbered() && r == Answers(work)
      ensures open == old(open) + (if work.Writing? && Panics(work.attempts) then {lastTx} else {})
      ensures r.Ok? ==> collector.buffer == Kept(old(collector.buffer), Posts(work))
      ensures old(collector.buffer).Some? ==> collector.buffer.Some?
    {
      match work {
        case Writing(attempts) =>
          var made;
          r, made := ExecuteAsTransaction(attempts);
        case Reading(rows, events) =>
          PostAll(events);
          r := rows;
      }
    }

    /** `execute_autocommit`. A change of the schema of a read-only database is refused before
        anything runs. Only success publishes, what the statement posted; a failing one
        publishes nothing; neither touches an enclosing `collect`. */
    method ExecuteAutocommit(work: Work, refused: bool, head: nat, keep: nat) returns (r: Result<string, Error>)
      requires Numbered() && bus.Valid()
      modifies this, collector, bus
      ensures Numbered() && bus.Valid()
      ensures open == old(open) + (if !refused && work.Writing? && Panics(work.attempts) then {lastTx} else {})
      ensures collector.buffer == old(collector.buffer)
      ensures r == if refused then Err(ReadOnly) else Answers(work)
      ensures bus.history == old(bus.history)
                           + Stamped(if r.Ok? then Posts(work) else [], |old(bus.history)|, head)
    {
      hide Bus.Valid;
      assert bus.history + Stamped([], |bus.history|, head) == bus.history;
      if refused {
        return Err(ReadOnly);
      }
      var outer := collector.Enter();
      r := Perform(work);
      var events := collector.Leave(outer);
      if r.Ok? {
        assert [] + Posts(work) == Posts(work);
        bus.Publish(events, head, keep);
      }
    }
  }

  /** The statement or a trigger of the deciding attempt panics. */
  predicate Panics(attempts: Attempts) {
    attempts(Deciding(attempts, 1)).Unwinds()
  }

  /** A statement: one that writes, or one that only reads, with its rows and what it posts. */
  datatype Work = Writing(attempts: Attempts) | Reading(rows: Result<string, Error>, events: seq<Pending>)

  function Answers(work: Work): Result<string, Error> {
    match work
    case Writing(attempts) => Verdict(attempts(Deciding(attempts, 1)))
    case Reading(rows, _) => rows
  }

  /** What a statement that succeeds publishes. */
  function Posts(work: Work): seq<Pending> {
    match work
    case Writing(attempts) => Publishes(attempts)
    case Reading(_, events) => events
  }

  /** What a statement that commits publishes. */
  function Publishes(attempts: Attempts): seq<Pending> {
    var d := Deciding(attempts, 1);
    TriggerPosts(attempts, d) + attempts(d).events
  }

  /** A statement commits exactly if its deciding attempt does, and returns its rows. */
  lemma RowsOfTheCommit(attempts: Attempts)
    ensures var a := attempts(Deciding(attempts, 1));
            && (Verdict(a).Ok? <==> a.Commits())
            && (Verdict(a).Ok? ==> Verdict(a) == a.rows)
            && forall i :: 1 <= i < Deciding(attempts, 1) ==> !attempts(i).Commits()
  {
    forall i | 1 <= i < Deciding(attempts, 1)
      ensures !attempts(i).Commits()
    {
      DecidingIsFirst(attempts, 1, i);
    }
  }

  lemma {:induction false} NoTriggerPosts(attempts: Attempts, k: nat)
    ensures TriggerPosts(attempts, k) == [] <==>
              forall i :: 1 <= i <= k ==> attempts(i).FromTriggers() == []
    decreases k
  {
    if k > 0 {
      NoTriggerPosts(attempts, k - 1);
    }
  }

  lemma LostRacesReachTriggers(attempts: Attempts, i: nat)
    requires 1 <= i < Deciding(attempts, 1)
    ensures attempts(i).FromTriggers() == attempts(i).triggerPosts
  {
    DecidingIsFirst(attempts, 1, i);
  }

  lemma OnlyAfterNothing<T>(earlier: seq<T>, own: seq<T>)
    ensures earlier + own == own <==> earlier == []
  {
    assert |earlier + own| == |earlier| + |own|;
  }

  lemma PublishesParts(attempts: Attempts)
    ensures var d := Deciding(attempts, 1);
            Publishes(attempts)
            == TriggerPosts(attempts, d - 1) + (attempts(d).FromTriggers() + attempts(d).events)
  {
    var d := Deciding(attempts, 1);
    Assoc(TriggerPosts(attempts, d - 1), attempts(d).FromTriggers(), attempts(d).events);
  }

  /** What is published comes from the committing attempt alone exactly if the `before`
      triggers of the attempts that lost a race posted nothing. */
  lemma PublishesCommitOnly(attempts: Attempts)
    ensures var d := Deciding(attempts, 1);
            (Publishes(attempts) == attempts(d).FromTriggers() + attempts(d).events) <==>
            (forall i :: 1 <= i < d ==> attempts(i).triggerPosts == [])
  {
    var d := Deciding(attempts, 1);
    PublishesParts(attempts);
    NoTriggerPosts(attempts, d - 1);
    forall i: nat | 1 <= i < d
      ensures attempts(i).FromTriggers() == attempts(i).triggerPosts
    {
      LostRacesReachTriggers(attempts, i);
    }
    hide Publishes, TriggerPosts, Deciding;
    OnlyAfterNothing(TriggerPosts(attempts, d - 1), attempts(d).FromTriggers() + attempts(d).events);
  }

  /** Known before the statement runs: with `before` triggers that post nothing, only the
      committing attempt's events are published, however the races go. */
  lemma SilentTriggers(attempts: Attempts)
    requires forall k: nat :: attempts(k).triggerPosts == []
    ensures Publishes(attempts) == attempts(Deciding(attempts, 1)).events
  {
    PublishesCommitOnly(attempts);
  }

  /** And with triggers that post something, a lost race publishes it once more. */
  lemma RetriedTriggerLeaks(posts: seq<Pending>)
    ensures var attempts := (k: nat) =>
              Attempt(Ok(""), [], posts, TriggersPass, if k == 1 then LostRace else Committed);
            Publishes(attempts) == posts + posts
  {
    var attempts := (k: nat) =>
      Attempt(Ok(""), [], posts, TriggersPass, if k == 1 then LostRace else Committed);
    assert Deciding(attempts, 1) == 2;
    assert TriggerPosts(attempts, 0) == [];
    assert TriggerPosts(attempts, 1) == [] + posts == posts;
    assert TriggerPosts(attempts, 2) == posts + posts;
    assert posts + posts + [] == posts + posts;
  }

  /** Seven lost races are survived; eight are not. */
  lemma EightAttempts(attempts: Attempts)
    requires forall k: nat :: 1 <= k <= 7 ==> attempts(k).LosesRace()
    ensures Deciding(attempts, 1) == 8
    ensures attempts(8).Commits() ==> Verdict(attempts(Deciding(attempts, 1))) == attempts(8).rows
    ensures attempts(8).Commits() ==> attempts(8).rows.Ok?
    ensures attempts(8).LosesRace() ==> Verdict(attempts(Deciding(attempts, 1))) == Err(Conflict)
  {
    DecidingFromAny(attempts, 8);
  }
}
