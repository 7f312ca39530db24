/** That catching up gets somewhere (`catch_up_indexes` and `with_fresh_indexes`,
    `src/native_service.rs`): what the thread holding the write lock has brought about when it
    is done, whatever the others do meanwhile, and that alone it is done soon. */
module IndexProgress {
  import opened Prelude
  import opened Replay
  import opened GraphLog
  import opened IndexProtocol

  // ----- the steps, phase by phase -----------------------------------------------------------------

  lemma RespecifySteps(p: Projection, s: System)
    requires s.revisions != [] && forall kind :: kind in s.indexes && s.indexes[kind].cursor <= |s.log|
    requires s.phase.Respecify? && s.phase.rev < |s.revisions|
    ensures var Respecify(version, rev, left, mid) := s.phase;
            Advanced(p, s)
            == if left == [] then s.(pathsVersion := version, phase := Switch)
               else if mid.None? then s.(phase := Respecify(version, rev, left, Some(|s.log|)))
               else s.(indexes := s.indexes[left[0] :=
                         Rebuilt(p, left[0], s.log, s.revisions[rev].For(left[0]), rev, mid.value)],
                       phase := Respecify(version, rev, left[1..], None))
  {
    hide Rebuilt;
  }

  lemma PlainSteps(p: Projection, s: System)
    requires s.revisions != [] && forall kind :: kind in s.indexes && s.indexes[kind].cursor <= |s.log|
    requires !s.phase.Respecify? && ((s.phase.Refill? || s.phase.CatchUp?) ==> s.phase.left == [])
    ensures s.phase.Free? ==> Advanced(p, s) == s
    ensures s.phase.Locked? ==>
              Advanced(p, s)
              == s.(phase := if s.pathsVersion != |s.bumps| then GotVersion(|s.bumps|) else Switch)
    ensures s.phase.GotVersion? ==>
              Advanced(p, s)
              == s.(phase := Respecify(s.phase.version, |s.revisions| - 1, DeclaredKinds(), None))
    ensures s.phase.Switch? ==>
              Advanced(p, s)
              == if s.wanted == s.secondary then s.(phase := Check)
                 else s.(indexes := Emptied(s.indexes), secondary := s.wanted,
                         phase := if s.wanted then Refill(OptionalKinds(), None) else Check)
    ensures s.phase.Refill? ==> Advanced(p, s) == s.(phase := Check)
    ensures s.phase.Check? ==>
              Advanced(p, s)
              == s.(phase := if s.syncedHead == |s.log| then Free
                             else CatchUp(|s.log|, KeptKinds(s.secondary), None))
    ensures s.phase.CatchUp? ==> Advanced(p, s) == s.(syncedHead := s.phase.head, phase := Free)
  {
    hide Emptied, KeptKinds, OptionalKinds, DeclaredKinds;
  }

  // ----- with others moving ------------------------------------------------------------------------

  /** The lock was taken when the log had `n` changes and the version was `b`: what the thread
      is about to claim, and has claimed when it is done, is no older. */
  predicate Since(s: System, n: nat, b: nat) {
    && n <= |s.log| && b <= |s.bumps|
    && match s.phase
       case Free => n <= s.syncedHead && b <= s.pathsVersion
       case Locked => true
       case GotVersion(version) => b <= version
       case Respecify(version, _, _, _) => b <= version
       case Switch => b <= s.pathsVersion
       case Refill(_, _) => b <= s.pathsVersion
       case Check => b <= s.pathsVersion
       case CatchUp(head, _, _) => n <= head && b <= s.pathsVersion
  }

  lemma SinceAdvance(p: Projection, s: System, n: nat, b: nat)
    requires Inv(p, s) && Since(s, n, b)
    ensures s.revisions != [] && forall kind :: kind in s.indexes && s.indexes[kind].cursor <= |s.log|
    ensures Since(Advanced(p, s), n, b)
  {
    hide Advanced, Sync, Emptied, Rebuilt, KeptKinds, IndexesOk, Consumed, RevsCover, Follow, Accounted, Covers;
    InvGives(p, s);
    if s.phase.Respecify? {
      RespecifySteps(p, s);
    } else if (s.phase.Refill? || s.phase.CatchUp?) && s.phase.left != [] {
      SyncSteps(p, s);
    } else {
      PlainSteps(p, s);
    }
  }

  lemma SinceNext(p: Projection, s: System, a: Action, n: nat, b: nat)
    requires Inv(p, s) && Since(s, n, b) && (s.phase.Free? ==> !a.Lock?)
    ensures s.revisions != [] && forall kind :: kind in s.indexes && s.indexes[kind].cursor <= |s.log|
    ensures Since(Next(p, s, a), n, b)
  {
    InvGives(p, s);
    hide IndexesOk, Consumed, RevsCover, Follow, Accounted, Covers, PhaseOk;
    if a.Advance? {
      SinceAdvance(p, s, n, b);
    }
  }

  /** While the lock is held, from the time it was taken. */
  lemma {:induction false} SinceInRun(p: Projection, log: Log, definitions: Definitions, secondary: bool,
                                      actions: seq<Action>, more: seq<Action>)
    requires Reached(p, log, definitions, secondary, actions).phase.Free?
    requires forall i :: 0 <= i < |more| ==>
               !Reached(p, log, definitions, secondary, actions + [Lock] + more[..i]).phase.Free?
    ensures var s := Reached(p, log, definitions, secondary, actions);
            Since(Reached(p, log, definitions, secondary, actions + [Lock] + more), |s.log|, |s.bumps|)
    decreases |more|
  {
    hide Inv;
    var s := Reached(p, log, definitions, secondary, actions);
    var all := actions + [Lock] + more;
    if more == [] {
      ReachedNext(p, log, definitions, secondary, actions, Lock);
      assert all == actions + [Lock];
    } else {
      var front, a := more[..|more| - 1], more[|more| - 1];
      forall i | 0 <= i < |front|
        ensures !Reached(p, log, definitions, secondary, actions + [Lock] + front[..i]).phase.Free?
      {
        assert front[..i] == more[..i];
      }
      SinceInRun(p, log, definitions, secondary, actions, front);
      assert all == (actions + [Lock] + front) + [a];
      var t := Reached(p, log, definitions, secondary, actions + [Lock] + front);
      hide Reached, Since;
      ReachedNext(p, log, definitions, secondary, actions + [Lock] + front, a);
      SinceNext(p, t, a, |s.log|, |s.bumps|);
    }
  }

  /** A statement served by the thread that took the write lock, when that thread has caught
      up: whatever the others did meanwhile, every kept index of nodes is exactly a build over
      the log up to some point no earlier than the moment the lock was taken, for definitions
      that include every declaration completed by then. */
  lemma ServedUnderWriteLock(p: Projection, log: Log, definitions: Definitions, secondary: bool,
                             actions: seq<Action>, more: seq<Action>, kind: Kind)
    requires Reached(p, log, definitions, secondary, actions).phase.Free?
    requires Reached(p, log, definitions, secondary, actions + [Lock] + more).phase.Free?
    requires forall i :: 0 <= i < |more| ==>
               !Reached(p, log, definitions, secondary, actions + [Lock] + more[..i]).phase.Free?
    ensures var s := Reached(p, log, definitions, secondary, actions);
            var t := Reached(p, log, definitions, secondary, actions + [Lock] + more);
            && |s.log| <= t.syncedHead && |s.bumps| <= t.pathsVersion <= |t.bumps| && kind in t.indexes
            && (t.Kept(kind) ==>
                  && |s.log| <= t.indexes[kind].taken <= |t.log|
                  && (!kind.FtsRel? ==>
                        t.indexes[kind].entries
                        == BuildOf(p, kind, t.indexes[kind].specs, GraphOf(t.log[..t.indexes[kind].taken]))))
            && (Declared(kind) ==>
                  && t.indexes[kind].rev < |t.revisions|
                  && t.indexes[kind].specs == t.revisions[t.indexes[kind].rev].For(kind)
                  && forall i :: 0 <= i < |s.bumps| ==> t.bumps[i] <= t.indexes[kind].rev)
  {
    SinceInRun(p, log, definitions, secondary, actions, more);
    var s := Reached(p, log, definitions, secondary, actions);
    var t := Reached(p, log, definitions, secondary, actions + [Lock] + more);
    hide Reached, GraphOf, BuildOf, RelEntries;
    assert IndexOk(p, kind, t.indexes[kind], t.log, t.revisions);
    if Declared(kind) {
      assert Covers(t.bumps, t.pathsVersion, t.indexes[kind].rev);
    }
  }

  // ----- alone ---------------------------------------------------------------------------------------

  function MidStep(mid: Option<nat>): nat {
    if mid.Some? then 1 else 0
  }

  /** How many steps are left, at most. */
  function Left(phase: Phase): int {
    match phase
    case Free => 0
    case CatchUp(_, left, mid) => 1 + 2 * |left| - MidStep(mid)
    case Check => 18
    case Refill(left, mid) => 19 + 2 * |left| - MidStep(mid)
    case Switch => 28
    case Respecify(_, _, left, mid) => 29 + 2 * |left| - MidStep(mid)
    case GotVersion(_) => 36
    case Locked => 37
  }

  /** Every declared index follows the registry as it is. */
  ghost predicate Latest(s: System) {
    s.revisions != [] && Follow(s.indexes, |s.revisions| - 1, [])
  }

  /** What the thread has brought about so far, with nobody else moving; `changed` tells that
      it found new definitions. */
  ghost predicate Alone(s: System, changed: bool) {
    match s.phase
    case Locked => changed <==> s.pathsVersion != |s.bumps|
    case GotVersion(version) => changed && version == |s.bumps|
    case Respecify(version, rev, _, _) => changed && version == |s.bumps| && rev == |s.revisions| - 1
    case Switch => s.pathsVersion == |s.bumps| && (changed ==> Latest(s))
    case Refill(_, _) => s.pathsVersion == |s.bumps| && s.secondary == s.wanted && (changed ==> Latest(s))
    case Check => s.pathsVersion == |s.bumps| && s.secondary == s.wanted && (changed ==> Latest(s))
    case CatchUp(head, _, _) =>
      && s.pathsVersion == |s.bumps| && s.secondary == s.wanted && head == |s.log|
      && (changed ==> Latest(s))
    case Free => s.Fresh() && (changed ==> Latest(s))
  }

  /** Nothing the others decide has changed. */
  predicate Quiet(s: System, t: System) {
    t.log == s.log && t.revisions == s.revisions && t.bumps == s.bumps && t.due == s.due && t.wanted == s.wanted
  }

  lemma SyncedLatest(p: Projection, s: System, left: seq<Kind>, mid: Option<nat>, rev: nat)
    requires left != [] && forall kind :: kind in s.indexes && s.indexes[kind].cursor <= |s.log|
    requires Follow(s.indexes, rev, [])
    ensures Follow(Sync(p, s, left, mid).0, rev, [])
    ensures var (_, left', mid') := Sync(p, s, left, mid);
            && 2 * |left'| - MidStep(mid') < 2 * |left| - MidStep(mid)
            && (mid'.Some? ==> left' != [])
  {
    hide BuildOf, GraphOf, ApplyAll, NodeChanges, EdgeChanges;
  }

  lemma SyncShrinks(p: Projection, s: System, left: seq<Kind>, mid: Option<nat>)
    requires left != [] && forall kind :: kind in s.indexes && s.indexes[kind].cursor <= |s.log|
    ensures var (_, left', mid') := Sync(p, s, left, mid);
            2 * |left'| - MidStep(mid') < 2 * |left| - MidStep(mid)
  {
    hide BuildOf, GraphOf, ApplyAll, NodeChanges, EdgeChanges;
  }

  lemma EmptiedLatest(indexes: Indexes, rev: nat)
    requires Follow(indexes, rev, [])
    ensures Follow(Emptied(indexes), rev, [])
  {
  }

  lemma SyncStep(p: Projection, s: System, changed: bool)
    requires Inv(p, s) && Alone(s, changed) && (s.phase.Refill? || s.phase.CatchUp?) && s.phase.left != []
    ensures s.revisions != [] && forall kind :: kind in s.indexes && s.indexes[kind].cursor <= |s.log|
    ensures var t := Advanced(p, s);
            Quiet(s, t) && Alone(t, changed) && 0 <= Left(t.phase) < Left(s.phase)
  {
    hide Advanced, Sync, IndexesOk, Consumed, RevsCover, Follow, Accounted, Covers;
    InvGives(p, s);
    SyncSteps(p, s);
    SyncShrinks(p, s, s.phase.left, s.phase.mid);
    if Latest(s) {
      SyncedLatest(p, s, s.phase.left, s.phase.mid, |s.revisions| - 1);
    }
  }

  lemma RespecifyStep(p: Projection, s: System, changed: bool)
    requires Inv(p, s) && Alone(s, changed) && s.phase.Respecify?
    ensures s.revisions != [] && forall kind :: kind in s.indexes && s.indexes[kind].cursor <= |s.log|
    ensures var t := Advanced(p, s);
            Quiet(s, t) && Alone(t, changed) && 0 <= Left(t.phase) < Left(s.phase)
  {
    hide Advanced, IndexesOk, Consumed, RevsCover, Follow, Accounted, Covers, Rebuilt;
    InvGives(p, s);
    RespecifySteps(p, s);
  }

  lemma OtherStep(p: Projection, s: System, changed: bool)
    requires Inv(p, s) && Alone(s, changed) && !s.phase.Free?
    requires !s.phase.Respecify? && ((s.phase.Refill? || s.phase.CatchUp?) ==> s.phase.left == [])
    ensures s.revisions != [] && forall kind :: kind in s.indexes && s.indexes[kind].cursor <= |s.log|
    ensures var t := Advanced(p, s);
            Quiet(s, t) && Alone(t, changed) && 0 <= Left(t.phase) < Left(s.phase)
  {
    hide Advanced, IndexesOk, Consumed, RevsCover, Follow, Accounted, Covers, Emptied;
    hide KeptKinds, OptionalKinds, DeclaredKinds;
    InvGives(p, s);
    PlainSteps(p, s);
    HowMany(s.secondary);
    if Latest(s) {
      EmptiedLatest(s.indexes, |s.revisions| - 1);
    }
  }

  lemma HowMany(secondary: bool)
    ensures |KeptKinds(secondary)| <= 8 && |OptionalKinds()| == 4 && |DeclaredKinds()| == 3
  {
  }

  /** Every step of the thread alone gets nearer to the end. */
  lemma AloneStep(p: Projection, s: System, changed: bool)
    requires Inv(p, s) && Alone(s, changed) && !s.phase.Free?
    ensures s.revisions != [] && forall kind :: kind in s.indexes && s.indexes[kind].cursor <= |s.log|
    ensures var t := Advanced(p, s);
            Quiet(s, t) && Alone(t, changed) && 0 <= Left(t.phase) < Left(s.phase)
  {
    hide Inv, Alone, Advanced, Quiet;
    if s.phase.Respecify? {
      RespecifyStep(p, s, changed);
    } else if (s.phase.Refill? || s.phase.CatchUp?) && s.phase.left != [] {
      SyncStep(p, s, changed);
    } else {
      OtherStep(p, s, changed);
    }
  }

  function Advances(k: nat): seq<Action> {
    seq(k, _ => Advance)
  }

  lemma {:induction false} AloneRuns(p: Projection, log: Log, definitions: Definitions, secondary: bool,
                                     actions: seq<Action>, changed: bool)
    returns (k: nat)
    requires Alone(Reached(p, log, definitions, secondary, actions), changed)
    requires 0 <= Left(Reached(p, log, definitions, secondary, actions).phase)
    ensures k <= Left(Reached(p, log, definitions, secondary, actions).phase)
    ensures var s := Reached(p, log, definitions, secondary, actions);
            var t := Reached(p, log, definitions, secondary, actions + Advances(k));
            t.phase.Free? && Alone(t, changed) && Quiet(s, t)
    decreases Left(Reached(p, log, definitions, secondary, actions).phase)
  {
    hide Reached, Inv, Alone, Advanced, Left;
    var s := Reached(p, log, definitions, secondary, actions);
    if s.phase.Free? {
      k := 0;
      assert actions + Advances(0) == actions;
    } else {
      AloneStep(p, s, changed);
      ReachedNext(p, log, definitions, secondary, actions, Advance);
      var rest := AloneRuns(p, log, definitions, secondary, actions + [Advance], changed);
      k := 1 + rest;
      assert actions + Advances(k) == actions + [Advance] + Advances(rest);
    }
  }

  /** From every reachable state with the lock free: a thread that takes it and meets nobody is
      done after at most 37 steps, with every index fresh: the log as it is, the switch as it
      is wanted, and, where definitions were declared since, the registry as it is. */
  lemma CatchesUp(p: Projection, log: Log, definitions: Definitions, secondary: bool, actions: seq<Action>)
    returns (k: nat)
    requires Reached(p, log, definitions, secondary, actions).phase.Free?
    ensures k <= 37
    ensures var s := Reached(p, log, definitions, secondary, actions);
            var t := Reached(p, log, definitions, secondary, actions + [Lock] + Advances(k));
            && t.phase.Free? && t.Fresh() && Quiet(s, t)
            && (s.pathsVersion != |s.bumps| || s.due == {} ==>
                  forall kind :: kind in t.indexes && Declared(kind) ==> t.indexes[kind].rev == |t.revisions| - 1)
  {
    var s := Reached(p, log, definitions, secondary, actions);
    var changed := s.pathsVersion != |s.bumps|;
    ReachedNext(p, log, definitions, secondary, actions, Lock);
    k := AloneRuns(p, log, definitions, secondary, actions + [Lock], changed);
    var t := Reached(p, log, definitions, secondary, actions + [Lock] + Advances(k));
    if s.due == {} {
      forall kind | kind in t.indexes && Declared(kind)
        ensures t.indexes[kind].rev == |t.revisions| - 1
      {
        FreshIsExact(p, t, kind);
      }
    }
    hide Reached, Inv;
  }
}
