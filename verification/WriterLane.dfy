/** The ticket lane shared by writers, try-writers, maintenance tasks, close and
    recovery, as atomic steps under the session mutex. */
module WriterLane {
  import opened ExtentRuns

  const LAST_TICKET: nat := 0xFFFF_FFFF_FFFF_FFFF

  datatype Kind = Writer | Maintenance

  /** `Closing` remembers the state that a failed close goes back to. */
  datatype Phase = Open | RecoveryRequired | Closing(wasOpen: bool) | Closed

  /** The counters of the session, and beside them the threads that wait or hold the
      lane, the tickets in order of admission, and the live readers.  `pending` is set once
      corruption has been found, before the session is told. */
  datatype Lane = Lane(next: nat, serving: nat, waiting: nat, active: bool, maintenance: bool, live: nat, phase: Phase,
                       waiters: map<nat, Kind>, holders: map<nat, Kind>, admitted: seq<nat>, readers: nat,
                       invalidated: bool, pending: bool)

  const INITIAL: Lane := Lane(0, 0, 0, false, false, 0, Open, map[], map[], [], 0, false, false)

  // ---------------------------------------------------------------- steps

  /** A writer or a maintenance task takes a ticket. */
  ghost predicate Enqueue(s: Lane, s': Lane, kind: Kind) {
    && s.phase == Open && !s.pending && s.next < LAST_TICKET
    && s' == s.(next := s.next + 1, waiting := s.waiting + 1, waiters := s.waiters[s.next := kind])
  }

  /** The waiter with the ticket being served enters a free lane. */
  ghost predicate Admit(s: Lane, s': Lane, t: nat) {
    && s.phase == Open && t in s.waiters && !s.active && t == s.serving && s.waiting > 0
    && (s.waiters[t] == Maintenance ==> !s.pending)
    && s' == s.(waiting := s.waiting - 1, active := true, maintenance := s.waiters[t] == Maintenance || s.maintenance,
                live := s.live + One(s.waiters[t] == Writer), waiters := s.waiters - {t},
                holders := s.holders[t := s.waiters[t]], admitted := s.admitted + [t])
  }

  /** A writer whose snapshot cannot be made gives its turn away. */
  ghost predicate GiveUp(s: Lane, s': Lane, t: nat) {
    && s.phase == Open && t in s.waiters && s.waiters[t] == Writer && !s.active && t == s.serving && s.waiting > 0
    && s' == s.(waiting := s.waiting - 1, serving := s.serving + 1, waiters := s.waiters - {t})
  }

  /** A try-writer enters only a lane that nobody holds or waits for. */
  ghost predicate TryWrite(s: Lane, s': Lane) {
    && s.phase == Open && !s.pending && !s.active && s.waiting == 0 && s.next < LAST_TICKET
    && s' == s.(next := s.next + 1, active := true, live := s.live + 1,
                holders := s.holders[s.next := Writer], admitted := s.admitted + [s.next])
  }

  ghost predicate ReleaseWriter(s: Lane, s': Lane, t: nat) {
    && t in s.holders && s.holders[t] == Writer && !s.invalidated && s.live > 0
    && s' == s.(live := s.live - 1, active := false, serving := s.serving + 1, holders := s.holders - {t})
  }

  ghost predicate ReleaseMaintenance(s: Lane, s': Lane, t: nat) {
    && t in s.holders && s.holders[t] == Maintenance && s.maintenance
    && s' == s.(maintenance := false, active := false, serving := s.serving + 1, holders := s.holders - {t})
  }

  ghost predicate BeginRead(s: Lane, s': Lane) {
    s.phase == Open && !s.pending && s' == s.(live := s.live + 1, readers := s.readers + 1)
  }

  ghost predicate EndRead(s: Lane, s': Lane) {
    s.readers > 0 && s.live > 0 && !s.invalidated && s' == s.(live := s.live - 1, readers := s.readers - 1)
  }

  /** A commit or a maintenance task fails to persist. */
  ghost predicate PersistenceFails(s: Lane, s': Lane) {
    s.phase == Open && s.active && s' == s.(phase := RecoveryRequired)
  }

  /** Some operation finds the file corrupt. */
  ghost predicate CorruptionFound(s: Lane, s': Lane) {
    s.phase != Closed && s' == s.(pending := true)
  }

  /** A maintenance task that is due finds corruption pending and leaves, without passing
      its turn on. */
  ghost predicate MaintenanceRefused(s: Lane, s': Lane, t: nat) {
    && s.phase == Open && s.pending && t in s.waiters && s.waiters[t] == Maintenance
    && !s.active && t == s.serving && s.waiting > 0
    && s' == s.(waiting := s.waiting - 1, waiters := s.waiters - {t})
  }

  /** Confirmed corruption invalidates every child of the session. */
  ghost predicate Corruption(s: Lane, s': Lane) {
    && s.pending && (s.phase == Open || s.phase == RecoveryRequired)
    && s' == s.(phase := RecoveryRequired, live := 0, readers := 0, active := false, invalidated := true)
  }

  /** A waiting writer leaves because the session is not open any more. */
  ghost predicate CancelWriter(s: Lane, s': Lane, t: nat) {
    && s.phase != Open && t in s.waiters && s.waiters[t] == Writer && s.waiting > 0
    && s' == s.(waiting := s.waiting - 1, serving := s.serving + One(t == s.serving), waiters := s.waiters - {t})
  }

  /** So does a maintenance task, without passing its turn on. */
  ghost predicate CancelMaintenance(s: Lane, s': Lane, t: nat) {
    && s.phase != Open && t in s.waiters && s.waiters[t] == Maintenance && s.waiting > 0
    && s' == s.(waiting := s.waiting - 1, waiters := s.waiters - {t})
  }

  /** No maintenance task waits or runs: they hold the operation lock that close takes. */
  ghost predicate NoMaintenance(s: Lane) {
    && (forall t :: t in s.waiters ==> s.waiters[t] == Writer)
    && (forall t :: t in s.holders ==> s.holders[t] == Writer)
  }

  /** Close waits for pending corruption to be told before it begins, but the flag is set
      without a lock and may be set again between that test and this step. */
  ghost predicate BeginClose(s: Lane, s': Lane) {
    && (s.phase == Open || s.phase == RecoveryRequired) && NoMaintenance(s)
    && s' == s.(phase := Closing(s.phase == Open))
  }

  /** Close finds live children once all waiters have left, and takes itself back. */
  ghost predicate CloseFails(s: Lane, s': Lane) {
    && s.phase.Closing? && s.waiting == 0 && s.live != 0 && One(s.active) <= s.next
    && s' == s.(serving := s.next - One(s.active), phase := if s.phase.wasOpen then Open else RecoveryRequired)
  }

  /** Close finds no live children, but its checkpoint fails.  It takes itself back, or
      leaves the session to recovery if the file may be damaged. */
  ghost predicate CloseReverts(s: Lane, s': Lane, damaged: bool) {
    && s.phase.Closing? && s.waiting == 0 && s.live == 0 && One(s.active) <= s.next
    && s' == s.(serving := s.next - One(s.active),
                phase := if s.phase.wasOpen && !damaged then Open else RecoveryRequired)
  }

  ghost predicate CloseDone(s: Lane, s': Lane) {
    && s.phase.Closing? && s.waiting == 0 && s.live == 0
    && s' == s.(phase := Closed)
  }

  ghost predicate StepOf(s: Lane, s': Lane, t: nat, kind: Kind) {
    || Enqueue(s, s', kind) || Admit(s, s', t) || GiveUp(s, s', t) || TryWrite(s, s')
    || ReleaseWriter(s, s', t) || ReleaseMaintenance(s, s', t) || BeginRead(s, s') || EndRead(s, s')
    || PersistenceFails(s, s') || CorruptionFound(s, s') || MaintenanceRefused(s, s', t) || Corruption(s, s')
    || CancelWriter(s, s', t) || CancelMaintenance(s, s', t)
    || BeginClose(s, s') || CloseFails(s, s') || CloseReverts(s, s', true) || CloseReverts(s, s', false) || CloseDone(s, s')
  }

  ghost predicate Step(s: Lane, s': Lane) {
    exists t, kind :: StepOf(s, s', t, kind)
  }

  ghost predicate StepAt(states: seq<Lane>, i: nat) {
    0 < i < |states| && Step(states[i - 1], states[i])
  }

  ghost predicate Steps(states: seq<Lane>) {
    forall i :: 0 < i < |states| ==> StepAt(states, i)
  }

  /** A run: any number of steps from the initial state. */
  ghost predicate Run(states: seq<Lane>) {
    states != [] && states[0] == INITIAL && Steps(states)
  }

  // ---------------------------------------------------------------- invariant

  function Interval(lo: nat, hi: nat): (s: set<nat>)
    ensures forall t :: t in s <==> lo <= t < hi
  {
    if hi <= lo then {} else Interval(lo, hi - 1) + {hi - 1}
  }

  lemma {:induction false} IntervalSize(lo: nat, hi: nat)
    requires lo <= hi
    ensures |Interval(lo, hi)| == hi - lo
  {
    if lo < hi {
      IntervalSize(lo, hi - 1);
    }
  }

  ghost predicate Ascending(s: seq<nat>) {
    forall i, j :: 0 <= i < j < |s| ==> s[i] < s[j]
  }

  ghost predicate AllBefore(s: seq<nat>, bound: nat) {
    forall i :: 0 <= i < |s| ==> s[i] < bound
  }

  ghost function WritersAmong(holders: map<nat, Kind>): set<nat> {
    set t | t in holders && holders[t] == Writer
  }

  /** Who holds the lane, and how many children are live. */
  ghost predicate Held(holders: map<nat, Kind>, active: bool, maintenance: bool, live: nat, readers: nat) {
    && (active <==> holders != map[]) && |holders| <= 1
    && (maintenance <==> exists t :: t in holders && holders[t] == Maintenance)
    && live == readers + |WritersAmong(holders)|
  }

  /** The waiters hold exactly the tickets from `first` up to `next`. */
  ghost predicate Consecutive(waiters: map<nat, Kind>, first: nat, next: nat) {
    first <= next && forall t :: t in waiters <==> first <= t < next
  }

  ghost predicate TicketsBelow(m: map<nat, Kind>, next: nat) { forall t :: t in m ==> t < next }

  ghost function FirstWaiting(s: Lane): nat { s.serving + One(s.active) }

  /** The waiters hold the tickets behind the one that holds the lane, or is due. */
  ghost predicate InOrder(s: Lane) { Consecutive(s.waiters, FirstWaiting(s), s.next) }

  /** The ticket being served is nobody's: whoever had it left without passing its turn on. */
  ghost predicate Stalled(s: Lane) {
    s.pending && !s.active && s.serving < s.next && Consecutive(s.waiters, s.serving + 1, s.next)
  }

  ghost predicate KeepsOrder(s: Lane, s': Lane) {
    s.phase == Open && s'.phase == Open && InOrder(s) ==> InOrder(s')
  }

  ghost predicate Inv(s: Lane) {
    && s.waiting == |s.waiters| && TicketsBelow(s.waiters, s.next) && TicketsBelow(s.holders, s.next)
    && Ascending(s.admitted) && AllBefore(s.admitted, s.next)
    && (s.invalidated ==> s.phase != Open && s.phase != Closing(true) && !s.active)
    && (!s.invalidated ==> Held(s.holders, s.active, s.maintenance, s.live, s.readers))
    && (s.phase == Open ==> AllBefore(s.admitted, FirstWaiting(s)))
    && (s.phase == Open ==> InOrder(s) || Stalled(s))
    && (s.phase == Closing(true) ==> NoMaintenance(s))
  }

  lemma {:induction false} Sizes(m: map<nat, Kind>)
    ensures |m| == |m.Keys|
  {
  }

  lemma {:induction false} RemoveSize(m: map<nat, Kind>, t: nat)
    requires t in m
    ensures |m - {t}| == |m| - 1
  {
    Sizes(m);
    Sizes(m - {t});
    assert (m - {t}).Keys == m.Keys - {t};
  }

  lemma {:induction false} AddSize(m: map<nat, Kind>, t: nat, kind: Kind)
    requires t !in m
    ensures |m[t := kind]| == |m| + 1
  {
    Sizes(m);
    Sizes(m[t := kind]);
    assert m[t := kind].Keys == m.Keys + {t};
  }

  /** With the lane free, nobody holds it. */
  lemma {:induction false} FreeLane(holders: map<nat, Kind>, maintenance: bool, live: nat, readers: nat)
    requires Held(holders, false, maintenance, live, readers)
    ensures holders == map[] && !maintenance && live == readers
  {
    assert WritersAmong(holders) == {};
  }

  lemma {:induction false} HoldOne(t: nat, kind: Kind, readers: nat)
    ensures Held(map[t := kind], true, kind == Maintenance, readers + One(kind == Writer), readers)
  {
    var holders := map[t := kind];
    AddSize(map[], t, kind);
    assert holders == (map[])[t := kind];
    assert t in holders;
    assert WritersAmong(holders) == if kind == Writer then {t} else {};
  }

  /** The one holder, whichever it is, is the whole set. */
  lemma {:induction false} OneHolder(holders: map<nat, Kind>, t: nat)
    requires |holders| <= 1 && t in holders
    ensures holders == map[t := holders[t]] && holders - {t} == map[]
    ensures WritersAmong(holders) == if holders[t] == Writer then {t} else {}
  {
    RemoveSize(holders, t);
    Sizes(holders - {t});
    assert (holders - {t}).Keys == {};
    assert forall u :: u in holders ==> u == t || u in (holders - {t}).Keys;
  }

  lemma {:induction false} EnqueueKeeps(s: Lane, s': Lane, kind: Kind)
    requires Inv(s) && Enqueue(s, s', kind)
    ensures Inv(s') && KeepsOrder(s, s')
  {
    AddSize(s.waiters, s.next, kind);
  }

  lemma {:induction false} FirstLeaves(waiters: map<nat, Kind>, first: nat, next: nat)
    requires Consecutive(waiters, first, next) && first in waiters
    ensures Consecutive(waiters - {first}, first + 1, next)
  {
  }

  lemma {:induction false} StillBefore(s: seq<nat>, bound: nat, more: nat)
    requires AllBefore(s, bound) && bound <= more
    ensures AllBefore(s, more)
  {
  }

  lemma {:induction false} AdmitKeeps(s: Lane, s': Lane, t: nat)
    requires Inv(s) && Admit(s, s', t)
    ensures Inv(s') && KeepsOrder(s, s')
  {
    FreeLane(s.holders, s.maintenance, s.live, s.readers);
    RemoveSize(s.waiters, t);
    FirstLeaves(s.waiters, t, s.next);
    HoldOne(t, s.waiters[t], s.readers);
    assert s'.holders == map[t := s.waiters[t]];
  }

  lemma {:induction false} GiveUpKeeps(s: Lane, s': Lane, t: nat)
    requires Inv(s) && GiveUp(s, s', t)
    ensures Inv(s') && KeepsOrder(s, s')
  {
    RemoveSize(s.waiters, t);
    FirstLeaves(s.waiters, t, s.next);
    StillBefore(s.admitted, s.serving, s.serving + 1);
    assert TicketsBelow(s'.waiters, s'.next);
  }

  lemma {:induction false} TryWriteKeeps(s: Lane, s': Lane)
    requires Inv(s) && TryWrite(s, s')
    ensures Inv(s') && KeepsOrder(s, s')
  {
    FreeLane(s.holders, s.maintenance, s.live, s.readers);
    HoldOne(s.next, Writer, s.readers);
    assert s'.holders == map[s.next := Writer];
    NobodyWaits(s);
  }

  /** When nobody waits, every ticket issued has been served or is being served. */
  lemma {:induction false} NobodyWaits(s: Lane)
    requires s.waiting == |s.waiters| == 0 && Consecutive(s.waiters, FirstWaiting(s), s.next)
    ensures s.waiters == map[] && FirstWaiting(s) == s.next
  {
    Sizes(s.waiters);
    assert s.waiters.Keys == Interval(FirstWaiting(s), s.next);
    IntervalSize(FirstWaiting(s), s.next);
  }

  lemma {:induction false} ReleaseKeeps(s: Lane, s': Lane, t: nat)
    requires Inv(s) && (ReleaseWriter(s, s', t) || ReleaseMaintenance(s, s', t))
    ensures Inv(s') && KeepsOrder(s, s')
  {
    if !s.invalidated {
      OneHolder(s.holders, t);
      assert WritersAmong(map[]) == {};
    }
  }

  lemma {:induction false} ReadKeeps(s: Lane, s': Lane)
    requires Inv(s) && (BeginRead(s, s') || EndRead(s, s'))
    ensures Inv(s') && KeepsOrder(s, s')
  {
  }

  lemma {:induction false} FailureKeeps(s: Lane, s': Lane)
    requires Inv(s) && (PersistenceFails(s, s') || CorruptionFound(s, s') || Corruption(s, s'))
    ensures Inv(s') && KeepsOrder(s, s')
  {
  }

  lemma {:induction false} CancelKeeps(s: Lane, s': Lane, t: nat)
    requires Inv(s) && (CancelWriter(s, s', t) || CancelMaintenance(s, s', t))
    ensures Inv(s') && KeepsOrder(s, s')
  {
    RemoveSize(s.waiters, t);
  }

  /** A maintenance task that is refused leaves the lane stalled. */
  lemma {:induction false} RefusalStalls(s: Lane, s': Lane, t: nat)
    requires Inv(s) && MaintenanceRefused(s, s', t)
    ensures Inv(s') && InOrder(s) && Stalled(s')
  {
    RemoveSize(s.waiters, t);
    FirstLeaves(s.waiters, t, s.next);
  }

  lemma {:induction false} BeginCloseKeeps(s: Lane, s': Lane)
    requires Inv(s) && BeginClose(s, s')
    ensures Inv(s') && KeepsOrder(s, s')
  {
  }

  /** A close that fails has cancelled every waiter and leaves a lane in order, whether it
      failed on live children or on its checkpoint. */
  lemma {:induction false} CloseFailsKeeps(s: Lane, s': Lane, damaged: bool)
    requires Inv(s) && (CloseFails(s, s') || CloseReverts(s, s', damaged))
    ensures Inv(s') && s'.waiters == map[] && InOrder(s')
  {
    Sizes(s.waiters);
    assert s.waiters.Keys == {};
  }

  lemma {:induction false} CloseDoneKeeps(s: Lane, s': Lane)
    requires Inv(s) && CloseDone(s, s')
    ensures Inv(s') && KeepsOrder(s, s')
  {
  }

  lemma {:induction false} StepKeeps(s: Lane, s': Lane, t: nat, kind: Kind)
    requires Inv(s) && StepOf(s, s', t, kind)
    ensures Inv(s') && (!MaintenanceRefused(s, s', t) ==> KeepsOrder(s, s'))
  {
    if Enqueue(s, s', kind) {
      EnqueueKeeps(s, s', kind);
    } else if Admit(s, s', t) {
      AdmitKeeps(s, s', t);
    } else if GiveUp(s, s', t) {
      GiveUpKeeps(s, s', t);
    } else if TryWrite(s, s') {
      TryWriteKeeps(s, s');
    } else if ReleaseWriter(s, s', t) || ReleaseMaintenance(s, s', t) {
      ReleaseKeeps(s, s', t);
    } else if BeginRead(s, s') || EndRead(s, s') {
      ReadKeeps(s, s');
    } else if PersistenceFails(s, s') || CorruptionFound(s, s') || Corruption(s, s') {
      FailureKeeps(s, s');
    } else if CancelWriter(s, s', t) || CancelMaintenance(s, s', t) {
      CancelKeeps(s, s', t);
    } else if MaintenanceRefused(s, s', t) {
      RefusalStalls(s, s', t);
    } else if BeginClose(s, s') {
      BeginCloseKeeps(s, s');
    } else if CloseFails(s, s') || CloseReverts(s, s', true) {
      CloseFailsKeeps(s, s', true);
    } else if CloseReverts(s, s', false) {
      CloseFailsKeeps(s, s', false);
    } else {
      CloseDoneKeeps(s, s');
    }
  }

  // ---------------------------------------------------------------- whole runs

  lemma {:induction false} InitialOk()
    ensures Inv(INITIAL)
  {
    assert WritersAmong(INITIAL.holders) == {};
    assert Held(INITIAL.holders, false, false, 0, 0);
    assert Consecutive(INITIAL.waiters, 0, 0);
  }

  lemma {:induction false} RunKeeps(states: seq<Lane>, i: nat)
    requires Run(states) && i < |states|
    ensures Inv(states[i])
  {
    if i == 0 {
      InitialOk();
    } else {
      RunKeeps(states, i - 1);
      assert StepAt(states, i);
      var t, kind :| StepOf(states[i - 1], states[i], t, kind);
      StepKeeps(states[i - 1], states[i], t, kind);
    }
  }

  lemma {:induction false} WaitingSize(s: Lane, first: nat)
    requires s.waiting == |s.waiters| && Consecutive(s.waiters, first, s.next)
    ensures s.waiting == s.next - first
  {
    IntervalSize(first, s.next);
    Sizes(s.waiters);
    assert s.waiters.Keys == Interval(first, s.next);
  }

  /** What the invariant says of an open session.  Either the tickets issued and not yet
      served are those of the waiters and of the one that holds the lane, or the lane is
      stalled and one ticket more is out. */
  lemma {:induction false} OpenLane(s: Lane)
    requires Inv(s) && s.phase == Open
    ensures InOrder(s) <==> !Stalled(s)
    ensures InOrder(s) <==> s.next == s.serving + s.waiting + One(s.active)
    ensures Stalled(s) <==> s.next == s.serving + s.waiting + 1 && !s.active
    ensures |s.holders| == One(s.active)
    ensures !s.active && s.waiting > 0 ==> (s.serving in s.waiters <==> InOrder(s))
  {
    if InOrder(s) {
      WaitingSize(s, FirstWaiting(s));
    }
    if Stalled(s) {
      WaitingSize(s, s.serving + 1);
    }
    if s.active {
      assert s.holders.Keys != {};
      Sizes(s.holders);
    } else {
      FreeLane(s.holders, s.maintenance, s.live, s.readers);
    }
  }

  /** No counter is ever decremented below zero: the conditions that the steps carry
      for this hold whenever a thread gets there. */
  lemma {:induction false} NoUnderflow(s: Lane, t: nat)
    requires Inv(s)
    ensures t in s.waiters ==> s.waiting > 0
    ensures t in s.holders && s.holders[t] == Writer && !s.invalidated ==> s.live > 0
    ensures s.readers > 0 && !s.invalidated ==> s.live > 0
    ensures One(s.active) <= s.next
  {
    Sizes(s.waiters);
    if t in s.holders && !s.invalidated {
      OneHolder(s.holders, t);
    }
    if s.active {
      var h :| h in s.holders;
    }
  }

  /** The same for every open state of every run, with all admissions so far in ticket
      order.  The counters alone tell whether the lane is in order. */
  lemma {:induction false} LaneInOrder(states: seq<Lane>, i: nat)
    requires Run(states) && i < |states| && states[i].phase == Open
    ensures var s := states[i];
            && (s.next == s.serving + s.waiting + One(s.active) <==> InOrder(s))
            && (InOrder(s) <==> !Stalled(s)) && (!s.pending ==> InOrder(s))
            && |s.holders| == One(s.active)
            && Ascending(s.admitted) && AllBefore(s.admitted, FirstWaiting(s))
            && (!s.active && s.waiting > 0 ==> (s.serving in s.waiters <==> InOrder(s)))
  {
    RunKeeps(states, i);
    OpenLane(states[i]);
  }

  /** First come, first served: whoever enters has a smaller ticket than all who wait,
      and has the lane to itself. */
  lemma {:induction false} AdmitsInOrder(states: seq<Lane>, i: nat, s': Lane, t: nat)
    requires Run(states) && i < |states| && Admit(states[i], s', t)
    ensures forall u :: u in states[i].waiters ==> t <= u
    ensures Ascending(s'.admitted) && s'.admitted == states[i].admitted + [t]
    ensures s'.holders == map[t := states[i].waiters[t]]
  {
    RunKeeps(states, i);
    var s := states[i];
    FreeLane(s.holders, s.maintenance, s.live, s.readers);
  }

  // ---------------------------------------------------------------- how order is lost

  /** From a lane in order, a step that leaves the session open keeps the order unless it
      is the refusal of a maintenance task that is due. */
  lemma {:induction false} OrderLostIff(s: Lane, s': Lane, t: nat, kind: Kind)
    requires Inv(s) && s.phase == Open && InOrder(s) && StepOf(s, s', t, kind) && s'.phase == Open
    ensures InOrder(s') <==> !MaintenanceRefused(s, s', t)
  {
    StepKeeps(s, s', t, kind);
    if MaintenanceRefused(s, s', t) {
      RefusalStalls(s, s', t);
      OpenLane(s');
    }
  }

  /** A stalled lane stays stalled as long as the session is open, and nobody enters it. */
  lemma {:induction false} StalledStays(s: Lane, s': Lane, t: nat, kind: Kind)
    requires Inv(s) && s.phase == Open && Stalled(s) && StepOf(s, s', t, kind) && s'.phase == Open
    ensures Stalled(s') && s'.admitted == s.admitted && s'.holders == s.holders == map[]
  {
    FreeLane(s.holders, s.maintenance, s.live, s.readers);
  }

  ghost predicate OpenThroughout(states: seq<Lane>, i: nat, j: nat) {
    i <= j < |states| && forall k :: i <= k <= j ==> states[k].phase == Open
  }

  /** Over any stretch of a run in which the session is open: once stalled, the lane admits
      nobody until the session is told of the corruption or closed. */
  lemma {:induction false} StallLasts(states: seq<Lane>, i: nat, j: nat)
    requires Run(states) && OpenThroughout(states, i, j) && Stalled(states[i])
    ensures Stalled(states[j]) && states[j].admitted == states[i].admitted
    decreases j
  {
    if i < j {
      StallLasts(states, i, j - 1);
      StallsOn(states, j);
    }
  }

  lemma {:induction false} StallsOn(states: seq<Lane>, j: nat)
    requires Run(states) && 0 < j < |states| && states[j - 1].phase == states[j].phase == Open && Stalled(states[j - 1])
    ensures Stalled(states[j]) && states[j].admitted == states[j - 1].admitted
  {
    RunKeeps(states, j - 1);
    assert StepAt(states, j);
    StallStep(states[j - 1], states[j]);
  }

  lemma {:induction false} StallStep(s: Lane, s': Lane)
    requires Inv(s) && s.phase == Open && Stalled(s) && Step(s, s') && s'.phase == Open
    ensures Stalled(s') && s'.admitted == s.admitted
  {
    var t, kind :| StepOf(s, s', t, kind);
    StalledStays(s, s', t, kind);
  }

  ghost predicate Refused(s: Lane, s': Lane) { exists t :: MaintenanceRefused(s, s', t) }

  ghost predicate RefusedAt(states: seq<Lane>, k: nat) {
    0 < k < |states| && Refused(states[k - 1], states[k])
  }

  /** Somewhere in the stretch a maintenance task was refused. */
  ghost predicate RefusedBetween(states: seq<Lane>, i: nat, j: nat) {
    exists k :: i < k <= j && RefusedAt(states, k)
  }

  /** The last step of a stretch, if the lane was in order before it. */
  lemma {:induction false} RefusedLast(states: seq<Lane>, i: nat)
    requires Run(states) && 0 < i < |states| && states[i - 1].phase == states[i].phase == Open && InOrder(states[i - 1])
    ensures InOrder(states[i]) <==> !RefusedAt(states, i)
  {
    RunKeeps(states, i - 1);
    if RefusedAt(states, i) {
      var t :| MaintenanceRefused(states[i - 1], states[i], t);
      OrderLostIff(states[i - 1], states[i], t, Writer);
    } else {
      assert StepAt(states, i);
      var t, kind :| StepOf(states[i - 1], states[i], t, kind);
      OrderLostIff(states[i - 1], states[i], t, kind);
    }
  }

  lemma {:induction false} OpenOrStalled(states: seq<Lane>, i: nat)
    requires Run(states) && i < |states| && states[i].phase == Open
    ensures InOrder(states[i]) <==> !Stalled(states[i])
  {
    RunKeeps(states, i);
    OpenLane(states[i]);
  }

  /** Over any such stretch that begins in order: it ends in order if and only if no
      maintenance task was refused in it. */
  lemma {:induction false} InOrderIffNoneRefused(states: seq<Lane>, i: nat, j: nat)
    requires Run(states) && OpenThroughout(states, i, j) && InOrder(states[i])
    ensures InOrder(states[j]) <==> !RefusedBetween(states, i, j)
    decreases j
  {
    if i < j {
      InOrderIffNoneRefused(states, i, j - 1);
      OpenOrStalled(states, j - 1);
      OpenOrStalled(states, j);
      if Stalled(states[j - 1]) {
        StallLasts(states, j - 1, j);
      } else {
        RefusedLast(states, j);
      }
    }
  }

  /** A run that stalls: a maintenance task and a writer queue up behind a writer, which
      leaves; corruption is found before the task, now due, is admitted. */
  lemma {:induction false} PendingStalls() returns (states: seq<Lane>)
    ensures Run(states) && |states| == 7
    ensures var s := states[6];
            s.phase == Open && Stalled(s) && s.waiters == map[2 := Writer]
  {
    var s3 := INITIAL.(next := 3, waiting := 2, active := true, live := 1, admitted := [0],
                       holders := map[0 := Writer], waiters := map[1 := Maintenance, 2 := Writer]);
    var first := QueuesUp(s3);
    var last := LeavesAndRefuses(s3);
    states := first + last;
    forall i | 0 < i < 7 ensures StepAt(states, i) {
      if i < 4 {
        assert StepAt(first, i) && states[i - 1] == first[i - 1] && states[i] == first[i];
      } else if i == 4 {
        assert states[3] == s3 && states[4] == last[0];
      } else {
        assert StepAt(last, i - 4) && states[i - 1] == last[i - 5] && states[i] == last[i - 4];
      }
    }
  }

  lemma {:induction false} QueuesUp(s3: Lane) returns (states: seq<Lane>)
    requires s3 == INITIAL.(next := 3, waiting := 2, active := true, live := 1, admitted := [0],
                            holders := map[0 := Writer], waiters := map[1 := Maintenance, 2 := Writer])
    ensures |states| == 4 && states[0] == INITIAL && states[3] == s3 && Steps(states)
  {
    var s1 := INITIAL.(next := 1, active := true, live := 1, holders := map[0 := Writer], admitted := [0]);
    var s2 := s1.(next := 2, waiting := 1, waiters := map[1 := Maintenance]);
    assert s1.holders == INITIAL.holders[0 := Writer] && s1.admitted == INITIAL.admitted + [0];
    assert s2.waiters == s1.waiters[1 := Maintenance] && s3.waiters == s2.waiters[2 := Writer];
    assert TryWrite(INITIAL, s1) && StepOf(INITIAL, s1, 0, Writer);
    assert Enqueue(s1, s2, Maintenance) && StepOf(s1, s2, 0, Maintenance);
    assert Enqueue(s2, s3, Writer) && StepOf(s2, s3, 0, Writer);
    states := [INITIAL, s1, s2, s3];
  }

  lemma {:induction false} LeavesAndRefuses(s3: Lane) returns (states: seq<Lane>)
    requires s3 == INITIAL.(next := 3, waiting := 2, active := true, live := 1, admitted := [0],
                            holders := map[0 := Writer], waiters := map[1 := Maintenance, 2 := Writer])
    ensures |states| == 3 && Step(s3, states[0]) && Steps(states)
    ensures states[2].phase == Open && Stalled(states[2]) && states[2].waiters == map[2 := Writer]
  {
    var s4 := s3.(live := 0, active := false, serving := 1, holders := map[]);
    var s5 := s4.(pending := true);
    var s6 := s5.(waiting := 1, waiters := map[2 := Writer]);
    assert s4.holders == s3.holders - {0} && s6.waiters == s5.waiters - {1};
    assert ReleaseWriter(s3, s4, 0) && StepOf(s3, s4, 0, Writer);
    assert CorruptionFound(s4, s5) && StepOf(s4, s5, 0, Writer);
    assert MaintenanceRefused(s5, s6, 1) && StepOf(s5, s6, 1, Writer);
    states := [s4, s5, s6];
  }
}
