/** What the lane can always do next: whoever is due enters, whoever holds it leaves, a close
    finishes, and every waiter of a lane in order can be served. */
module LaneProgress {
  import ExtentRuns
  import opened WriterLane

  // ---------------------------------------------------------------- one step

  /** The waiter that is due enters, and holds the lane alone, unless it is a maintenance
      task with corruption pending. */
  ghost predicate DueEnters(s: Lane, s': Lane) {
    && Step(s, s') && s.serving in s.waiters && s'.holders == map[s.serving := s.waiters[s.serving]]
    && s'.waiters == s.waiters - {s.serving} && s'.serving == s.serving && s'.active && s'.phase == s.phase && s'.pending == s.pending
  }

  /** The waiter that is due leaves without entering. */
  ghost predicate DueLeaves(s: Lane, s': Lane) {
    Step(s, s') && s.serving in s.waiters && s'.waiters == s.waiters - {s.serving} && s'.holders == s.holders == map[]
  }

  lemma {:induction false} DueNext(s: Lane)
    requires Inv(s) && s.phase == Open && InOrder(s) && !s.active && s.waiting > 0
    ensures s.serving in s.waiters
    ensures s.waiters[s.serving] == Writer || !s.pending ==> exists s' :: DueEnters(s, s')
    ensures s.waiters[s.serving] == Maintenance && s.pending ==> exists s' :: DueLeaves(s, s')
  {
    OpenLane(s);
    FreeLane(s.holders, s.maintenance, s.live, s.readers);
    var t := s.serving;
    var kind := s.waiters[t];
    if kind == Writer || !s.pending {
      var s' := s.(waiting := s.waiting - 1, active := true, maintenance := kind == Maintenance || s.maintenance,
                   live := s.live + ExtentRuns.One(kind == Writer), waiters := s.waiters - {t},
                   holders := s.holders[t := kind], admitted := s.admitted + [t]);
      assert Admit(s, s', t) && StepOf(s, s', t, kind);
      assert s'.holders == map[t := kind];
      assert DueEnters(s, s');
    } else {
      var s' := s.(waiting := s.waiting - 1, waiters := s.waiters - {t});
      assert MaintenanceRefused(s, s', t) && StepOf(s, s', t, kind);
      assert DueLeaves(s, s');
    }
  }

  /** In every open state of every run: a free lane in order that somebody waits for lets
      the one that is due in, or out if it is a maintenance task and corruption is pending. */
  lemma {:induction false} DueCanEnter(states: seq<Lane>, i: nat)
    requires Run(states) && i < |states| && states[i].phase == Open && InOrder(states[i])
    requires !states[i].active && states[i].waiting > 0
    ensures var s := states[i];
            && s.serving in s.waiters
            && (s.waiters[s.serving] == Writer || !s.pending ==> exists s' :: DueEnters(s, s'))
            && (s.waiters[s.serving] == Maintenance && s.pending ==> exists s' :: DueLeaves(s, s'))
  {
    RunKeeps(states, i);
    DueNext(states[i]);
  }

  /** A try-writer enters at once. */
  ghost predicate TryEnters(s: Lane, s': Lane) {
    Step(s, s') && s'.holders == map[s.next := Writer] && s'.next == s.next + 1 && s'.live == s.live + 1
  }

  /** A lane that nobody holds or waits for admits a try-writer, whatever readers there are. */
  lemma {:induction false} TryCanEnter(states: seq<Lane>, i: nat)
    requires Run(states) && i < |states|
    requires var s := states[i];
             s.phase == Open && s.waiting == 0 && s.holders == map[] && !s.pending && s.next < LAST_TICKET
    ensures exists s' :: TryEnters(states[i], s')
  {
    RunKeeps(states, i);
    var s := states[i];
    var s' := s.(next := s.next + 1, active := true, live := s.live + 1,
                 holders := s.holders[s.next := Writer], admitted := s.admitted + [s.next]);
    assert TryWrite(s, s') && StepOf(s, s', 0, Writer);
    assert s'.holders == map[s.next := Writer];
    assert TryEnters(s, s');
  }

  /** A thread takes the next ticket. */
  ghost predicate Queues(s: Lane, s': Lane, kind: Kind) {
    Step(s, s') && s'.waiters == s.waiters[s.next := kind] && s'.next == s.next + 1 && s'.holders == s.holders
  }

  /** An open session with no corruption pending takes readers, and while tickets are left
      writers and maintenance tasks, whoever holds the lane. */
  lemma {:induction false} OpenAccepts(s: Lane, kind: Kind)
    requires s.phase == Open && !s.pending
    ensures s.next < LAST_TICKET ==> exists s' :: Queues(s, s', kind)
    ensures Step(s, s.(live := s.live + 1, readers := s.readers + 1))
  {
    var r := s.(live := s.live + 1, readers := s.readers + 1);
    assert BeginRead(s, r) && StepOf(s, r, 0, kind);
    if s.next < LAST_TICKET {
      var s' := s.(next := s.next + 1, waiting := s.waiting + 1, waiters := s.waiters[s.next := kind]);
      assert Enqueue(s, s', kind) && StepOf(s, s', 0, kind);
      assert Queues(s, s', kind);
    }
  }

  /** The holder leaves and passes the turn on. */
  ghost predicate HolderLeaves(s: Lane, s': Lane) {
    && Step(s, s') && s'.holders == map[] && !s'.active && s'.serving == s.serving + 1
    && s'.waiters == s.waiters && s'.phase == s.phase && s'.pending == s.pending
  }

  lemma {:induction false} WriterReleases(s: Lane, t: nat)
    requires s.holders == map[t := Writer] && s.live > 0 && !s.invalidated
    ensures exists s' :: HolderLeaves(s, s')
  {
    var s' := s.(live := s.live - 1, active := false, serving := s.serving + 1, holders := s.holders - {t});
    assert ReleaseWriter(s, s', t);
    assert StepOf(s, s', t, Writer);
    assert HolderLeaves(s, s');
  }

  lemma {:induction false} MaintenanceReleases(s: Lane, t: nat)
    requires s.holders == map[t := Maintenance] && s.maintenance
    ensures exists s' :: HolderLeaves(s, s')
  {
    var s' := s.(maintenance := false, active := false, serving := s.serving + 1, holders := s.holders - {t});
    assert ReleaseMaintenance(s, s', t);
    assert StepOf(s, s', t, Writer);
    assert HolderLeaves(s, s');
  }

  lemma {:induction false} HolderNext(s: Lane)
    requires Inv(s) && s.active
    ensures exists s' :: HolderLeaves(s, s')
  {
    var t :| t in s.holders;
    NoUnderflow(s, t);
    OneHolder(s.holders, t);
    if s.holders[t] == Writer {
      WriterReleases(s, t);
    } else {
      MaintenanceReleases(s, t);
    }
  }

  /** In every state of every run, whatever the session has come to: the holder of the lane
      can leave it. */
  lemma {:induction false} HolderCanLeave(states: seq<Lane>, i: nat)
    requires Run(states) && i < |states| && states[i].active
    ensures exists s' :: HolderLeaves(states[i], s')
  {
    RunKeeps(states, i);
    HolderNext(states[i]);
  }

  /** In every state of every run a reader can end, unless it was invalidated. */
  lemma {:induction false} ReaderCanEnd(states: seq<Lane>, i: nat)
    requires Run(states) && i < |states| && states[i].readers > 0 && !states[i].invalidated
    ensures states[i].live > 0
    ensures Step(states[i], states[i].(live := states[i].live - 1, readers := states[i].readers - 1))
  {
    RunKeeps(states, i);
    var s := states[i];
    NoUnderflow(s, 0);
    var s' := s.(live := s.live - 1, readers := s.readers - 1);
    assert EndRead(s, s');
    assert StepOf(s, s', 0, Writer);
  }

  /** Corruption that is pending can be told: the session goes to recovery and no child of
      it is live any more, whoever waits or holds the lane. */
  ghost predicate Told(s: Lane, s': Lane) {
    Step(s, s') && s'.phase == RecoveryRequired && s'.invalidated && s'.live == 0 && s'.readers == 0 && !s'.active && s'.waiters == s.waiters
  }

  lemma {:induction false} CorruptionCanBeTold(s: Lane)
    requires s.pending && (s.phase == Open || s.phase == RecoveryRequired)
    ensures exists s' :: Told(s, s')
  {
    var s' := s.(phase := RecoveryRequired, live := 0, readers := 0, active := false, invalidated := true);
    assert Corruption(s, s');
    assert StepOf(s, s', 0, Writer);
    assert Told(s, s');
  }

  // ---------------------------------------------------------------- closing

  /** Close can begin whenever no maintenance task waits or runs. */
  lemma {:induction false} CloseCanBegin(s: Lane)
    requires (s.phase == Open || s.phase == RecoveryRequired) && NoMaintenance(s)
    ensures Step(s, s.(phase := Closing(s.phase == Open)))
  {
    var s' := s.(phase := Closing(s.phase == Open));
    assert BeginClose(s, s');
    assert StepOf(s, s', 0, Writer);
  }

  /** A waiter is turned away; a maintenance task does not pass its turn on. */
  ghost predicate TurnedAway(s: Lane, s': Lane, t: nat) {
    && Step(s, s') && t in s.waiters && s'.waiters == s.waiters - {t} && s'.holders == s.holders
    && s'.serving == s.serving + ExtentRuns.One(s.waiters[t] == Writer && t == s.serving)
    && s'.phase == s.phase && s'.live == s.live && s'.waiting == s.waiting - 1
  }

  lemma {:induction false} WriterTurnedAway(s: Lane, t: nat)
    requires s.phase != Open && t in s.waiters && s.waiters[t] == Writer && s.waiting > 0
    ensures exists s' :: TurnedAway(s, s', t)
  {
    var s' := s.(waiting := s.waiting - 1, serving := s.serving + ExtentRuns.One(t == s.serving), waiters := s.waiters - {t});
    assert CancelWriter(s, s', t);
    assert StepOf(s, s', t, Writer);
    assert TurnedAway(s, s', t);
  }

  lemma {:induction false} MaintenanceTurnedAway(s: Lane, t: nat)
    requires s.phase != Open && t in s.waiters && s.waiters[t] == Maintenance && s.waiting > 0
    ensures exists s' :: TurnedAway(s, s', t)
  {
    var s' := s.(waiting := s.waiting - 1, waiters := s.waiters - {t});
    assert CancelMaintenance(s, s', t);
    assert StepOf(s, s', t, Writer);
    assert TurnedAway(s, s', t);
  }

  lemma {:induction false} WaiterNext(s: Lane, t: nat)
    requires Inv(s) && s.phase != Open && t in s.waiters
    ensures exists s' :: TurnedAway(s, s', t)
  {
    NoUnderflow(s, t);
    if s.waiters[t] == Writer {
      WriterTurnedAway(s, t);
    } else {
      MaintenanceTurnedAway(s, t);
    }
  }

  /** Once the session is not open, every waiter can leave. */
  lemma {:induction false} WaiterCanLeave(states: seq<Lane>, i: nat, t: nat)
    requires Run(states) && i < |states| && states[i].phase != Open && t in states[i].waiters
    ensures exists s' :: TurnedAway(states[i], s', t)
  {
    RunKeeps(states, i);
    WaiterNext(states[i], t);
  }

  /** A close with nobody waiting ends: in a closed session if no child is live, else in
      the state it began in, with the tickets settled. */
  ghost predicate CloseEnds(s: Lane, s': Lane) {
    && Step(s, s') && s'.holders == s.holders && s'.live == s.live
    && (if s.live == 0 then s'.phase == Closed
        else s'.phase == (if s.phase == Closing(true) then Open else RecoveryRequired) && s'.next == s'.serving + ExtentRuns.One(s.active))
  }

  lemma {:induction false} CloseNext(s: Lane)
    requires Inv(s) && s.phase.Closing? && s.waiting == 0
    ensures exists s' :: CloseEnds(s, s')
  {
    NoUnderflow(s, 0);
    if s.live == 0 {
      var s' := s.(phase := Closed);
      assert CloseDone(s, s') && StepOf(s, s', 0, Writer);
      assert CloseEnds(s, s');
    } else {
      var s' := s.(serving := s.next - ExtentRuns.One(s.active), phase := if s.phase.wasOpen then Open else RecoveryRequired);
      assert CloseFails(s, s') && StepOf(s, s', 0, Writer);
      assert CloseEnds(s, s');
    }
  }

  // ---------------------------------------------------------------- every waiter

  lemma {:induction false} RunMore(states: seq<Lane>, s': Lane)
    requires Run(states) && Step(states[|states| - 1], s')
    ensures Run(states + [s'])
  {
    var more := states + [s'];
    forall i | 0 < i < |more| ensures StepAt(more, i) {
      if i < |states| {
        assert StepAt(states, i) && more[i - 1] == states[i - 1] && more[i] == states[i];
      }
    }
  }

  /** An open lane in order, with the ticket `t` waiting and no corruption pending. */
  ghost predicate Waits(s: Lane, t: nat) {
    Inv(s) && s.phase == Open && InOrder(s) && !s.pending && t in s.waiters
  }

  /** How many must enter or leave before `t` enters. */
  function Ahead(s: Lane, t: nat): int { 2 * (t - s.serving) + if s.active then 0 else 1 }

  /** One step on the way to the ticket `t`: whoever is before it enters or leaves, or it
      enters itself. */
  lemma {:induction false} Nearer(s: Lane, t: nat) returns (s': Lane)
    requires Waits(s, t)
    ensures Step(s, s') && s'.phase == Open && Ahead(s, t) > 0
    ensures if !s.active && t == s.serving then s'.holders == map[t := s.waiters[t]]
            else Waits(s', t) && s'.waiters[t] == s.waiters[t] && Ahead(s', t) < Ahead(s, t)
  {
    NoUnderflow(s, t);
    if s.active {
      HolderNext(s);
      s' :| HolderLeaves(s, s');
    } else {
      DueNext(s);
      s' :| DueEnters(s, s');
    }
    StillOrdered(s, s');
  }

  lemma {:induction false} StillOrdered(s: Lane, s': Lane)
    requires Inv(s) && s.phase == Open && InOrder(s) && !s.pending && Step(s, s') && s'.phase == Open
    ensures Inv(s') && InOrder(s')
  {
    var u, kind :| StepOf(s, s', u, kind);
    StepKeeps(s, s', u, kind);
  }

  /** Steps that go on from a state. */
  ghost predicate StepsFrom(s: Lane, more: seq<Lane>)
    decreases |more|
  {
    more != [] ==> Step(s, more[0]) && StepsFrom(more[0], more[1..])
  }

  lemma {:induction false} RunExtends(states: seq<Lane>, more: seq<Lane>)
    requires Run(states) && StepsFrom(states[|states| - 1], more)
    ensures Run(states + more)
    decreases |more|
  {
    if more == [] {
      assert states + more == states;
    } else {
      RunMore(states, more[0]);
      RunExtends(states + [more[0]], more[1..]);
      assert states + more == states + [more[0]] + more[1..];
    }
  }

  lemma {:induction false} StepsCons(s: Lane, s': Lane, rest: seq<Lane>)
    requires Step(s, s') && StepsFrom(s', rest)
    ensures StepsFrom(s, [s'] + rest)
  {
    assert ([s'] + rest)[1..] == rest;
  }

  lemma {:induction false} Serve(s: Lane, t: nat) returns (more: seq<Lane>)
    requires Waits(s, t)
    ensures StepsFrom(s, more) && more != []
    ensures more[|more| - 1].phase == Open && more[|more| - 1].holders == map[t := s.waiters[t]]
    decreases Ahead(s, t)
  {
    var s' := Nearer(s, t);
    if !s.active && t == s.serving {
      StepsCons(s, s', []);
      more := [s'];
      assert more == [s'] + [];
    } else {
      var rest := Serve(s', t);
      StepsCons(s, s', rest);
      more := [s'] + rest;
    }
  }

  /** Every waiter of an open lane in order with no corruption pending can be served: the
      run goes on, through all who are before it, to a state in which it holds the lane. */
  lemma {:induction false} EveryWaiterCanBeServed(states: seq<Lane>, t: nat) returns (more: seq<Lane>)
    requires Run(states)
    requires var s := states[|states| - 1]; s.phase == Open && InOrder(s) && !s.pending && t in s.waiters
    ensures Run(states + more) && more != []
    ensures var s' := more[|more| - 1];
            s'.phase == Open && s'.holders == map[t := states[|states| - 1].waiters[t]]
  {
    RunKeeps(states, |states| - 1);
    more := Serve(states[|states| - 1], t);
    RunExtends(states, more);
  }

  lemma {:induction false} StepInv(s: Lane, s': Lane)
    requires Inv(s) && Step(s, s')
    ensures Inv(s')
  {
    var u, kind :| StepOf(s, s', u, kind);
    StepKeeps(s, s', u, kind);
  }

  /** What a close comes to that is let run: closed if no child was live when it began,
      else back where it was. */
  ghost predicate ClosedFrom(s: Lane, s': Lane)
    requires s.phase.Closing?
  {
    s'.phase == if s.live == 0 then Closed else if s.phase.wasOpen then Open else RecoveryRequired
  }

  /** All waiters leave, and then the close ends. */
  lemma {:induction false} Drain(s: Lane) returns (more: seq<Lane>)
    requires Inv(s) && s.phase.Closing?
    ensures StepsFrom(s, more) && more != [] && ClosedFrom(s, more[|more| - 1])
    decreases s.waiting
  {
    if s.waiting == 0 {
      CloseNext(s);
      var s' :| CloseEnds(s, s');
      StepsCons(s, s', []);
      more := [s'];
      assert more == [s'] + [];
    } else {
      var s' := OneLeaves(s);
      var rest := Drain(s');
      StepsCons(s, s', rest);
      more := [s'] + rest;
    }
  }

  lemma {:induction false} OneLeaves(s: Lane) returns (s': Lane)
    requires Inv(s) && s.phase.Closing? && s.waiting > 0
    ensures Step(s, s') && Inv(s') && s'.phase == s.phase && s'.live == s.live && s'.waiting == s.waiting - 1
  {
    assert s.waiters != map[];
    var t :| t in s.waiters;
    WaiterNext(s, t);
    s' :| TurnedAway(s, s', t);
    StepInv(s, s');
  }

  /** Every close that has begun can end, however many wait. */
  lemma {:induction false} EveryCloseCanEnd(states: seq<Lane>) returns (more: seq<Lane>)
    requires Run(states) && states[|states| - 1].phase.Closing?
    ensures Run(states + more) && more != [] && ClosedFrom(states[|states| - 1], more[|more| - 1])
  {
    RunKeeps(states, |states| - 1);
    more := Drain(states[|states| - 1]);
    RunExtends(states, more);
  }
}
