/** Interleaved check transactions of the limiter under advisory locks and read-committed visibility
    (src/self-host/postgres-auth-abuse-limiter.ts:39-150). The clock is read when the check starts, before it waits
    for its locks, and any transaction may be rolled back at any moment. */
module LimiterProtocol {
  import opened Wrappers
  import opened AbuseLimiter

  // A lock is taken on the hash of "installation:route:dimension:digest".
  datatype LockName = LockName(installation: Id, route: Route, subject: Subject)

  datatype Pc =
    | Locking(taken: nat)
    | CountingClient
    | CountingInstallation(clientAttempts: nat)
    | Deciding(clientAttempts: nat, installationAttempts: nat)
    | Committing(allowed: bool, pending: seq<AuditRow>)
    | Finished

  datatype Transaction = Transaction(request: Request, now: Time, pc: Pc)

  datatype Database = Database(rows: seq<AuditRow>, locks: map<int, nat>, transactions: map<nat, Transaction>)

  datatype Action = Start(id: nat, request: Request, now: Time) | Advance(id: nat) | Rollback(id: nat)

  const INITIAL := Database([], map[], map[])

  // The subjects in text order: "...:client:..." sorts before "...:installation:...".
  function LockList(r: Request): seq<LockName> {
    [LockName(r.installation, r.route, ClientOf(r)), LockName(r.installation, r.route, InstallationOf(r))]
  }

  function Release(locks: map<int, nat>, id: nat): map<int, nat> {
    map h | h in locks && locks[h] != id :: locks[h]
  }

  predicate Free(db: Database, lock: int, id: nat) {
    lock !in db.locks || db.locks[lock] == id
  }

  predicate Enabled(db: Database, a: Action, hash: LockName -> int) {
    match a
    case Start(id, _, _) => id !in db.transactions
    case Rollback(id) => id in db.transactions && !db.transactions[id].pc.Finished?
    case Advance(id) =>
      && id in db.transactions && !db.transactions[id].pc.Finished?
      && (var t := db.transactions[id];
          t.pc.Locking? && t.pc.taken < 2 ==> Free(db, hash(LockList(t.request)[t.pc.taken]), id))
  }

  function Step(limits: Limits, rows: seq<AuditRow>, t: Transaction): Pc
    requires !t.pc.Finished?
  {
    var r, cutoff := t.request, t.now - limits.window;
    match t.pc
    case Locking(taken) => if taken < 2 then Locking(taken + 1) else CountingClient
    case CountingClient => CountingInstallation(CountAdmitted(rows, r.installation, r.route, ClientOf(r), cutoff))
    case CountingInstallation(c) => Deciding(c, CountAdmitted(rows, r.installation, r.route, InstallationOf(r), cutoff))
    case Deciding(c, i) =>
      if Allowed(limits, c, i) then Committing(true, AdmittedRows(r, t.now))
      else Committing(false, DeniedRows(r, t.now, c >= limits.perClient,
                                        CountDenied(rows, r.installation, r.route, cutoff)))
    case Committing(_, _) => Finished
  }

  function Perform(limits: Limits, db: Database, a: Action, hash: LockName -> int): Database
    requires Enabled(db, a, hash)
  {
    match a
    case Start(id, request, now) =>
      db.(transactions := db.transactions[id := Transaction(request, now, Locking(0))])
    case Rollback(id) =>
      db.(locks := Release(db.locks, id), transactions := db.transactions[id := db.transactions[id].(pc := Finished)])
    case Advance(id) =>
      var t := db.transactions[id];
      var moved := db.(transactions := db.transactions[id := t.(pc := Step(limits, db.rows, t))]);
      match t.pc
      case Locking(taken) =>
        if taken < 2 then moved.(locks := db.locks[hash(LockList(t.request)[taken]) := id]) else moved
      case Committing(_, pending) => moved.(rows := db.rows + pending, locks := Release(db.locks, id))
      case _ => moved
  }

  ghost predicate IsRun(limits: Limits, states: seq<Database>, actions: seq<Action>, hash: LockName -> int) {
    && |states| == |actions| + 1 && states[0] == INITIAL
    && forall i :: 0 <= i < |actions| ==>
         Enabled(states[i], actions[i], hash) && states[i + 1] == Perform(limits, states[i], actions[i], hash)
  }

  function InstallationLock(t: Transaction, hash: LockName -> int): int {
    hash(LockName(t.request.installation, t.request.route, InstallationOf(t.request)))
  }

  predicate HoldsLocks(pc: Pc) {
    !pc.Finished? && (pc.Locking? ==> pc.taken >= 2)
  }

  // What a transaction has read so far is still true, because it holds the lock of its installation and route.
  ghost predicate ReadsHold(limits: Limits, rows: seq<AuditRow>, t: Transaction) {
    var r, cutoff := t.request, t.now - limits.window;
    match t.pc
    case Locking(taken) => taken <= 2
    case CountingInstallation(c) => c == CountAdmitted(rows, r.installation, r.route, ClientOf(r), cutoff)
    case Deciding(c, i) =>
      && c == CountAdmitted(rows, r.installation, r.route, ClientOf(r), cutoff)
      && i == CountAdmitted(rows, r.installation, r.route, InstallationOf(r), cutoff)
    case Committing(allowed, pending) =>
      pending == CheckRows(limits, rows, r, t.now) && (allowed <==> pending == AdmittedRows(r, t.now))
    case _ => true
  }

  ghost predicate Invariant(limits: Limits, db: Database, hash: LockName -> int) {
    && Throttled(limits, db.rows)
    && (forall id :: id in db.transactions ==> ReadsHold(limits, db.rows, db.transactions[id]))
    && (forall id :: id in db.transactions && HoldsLocks(db.transactions[id].pc) ==>
          var lock := InstallationLock(db.transactions[id], hash); lock in db.locks && db.locks[lock] == id)
    && (forall lock :: lock in db.locks ==> db.locks[lock] in db.transactions && Acquired(db, lock, hash))
  }

  // A held lock is one its unfinished holder has taken.
  ghost predicate Acquired(db: Database, lock: int, hash: LockName -> int)
    requires lock in db.locks && db.locks[lock] in db.transactions
  {
    var t := db.transactions[db.locks[lock]];
    && !t.pc.Finished?
    && ((lock == hash(LockList(t.request)[0]) && (t.pc.Locking? ==> t.pc.taken >= 1))
        || (lock == hash(LockList(t.request)[1]) && HoldsLocks(t.pc)))
  }

  lemma {:induction false} ForeignRowsDoNotCount(rows: seq<AuditRow>, added: seq<AuditRow>, i: Id, r: Route,
                                                 s: Subject, cutoff: Time)
    requires forall k :: 0 <= k < |added| ==> !(added[k].installation == i && added[k].route == r)
    ensures CountAdmitted(rows + added, i, r, s, cutoff) == CountAdmitted(rows, i, r, s, cutoff)
    ensures CountDenied(rows + added, i, r, cutoff) == CountDenied(rows, i, r, cutoff)
    decreases |added|
  {
    if added == [] {
      assert rows + added == rows;
    } else {
      var n := |added| - 1;
      ForeignRowsDoNotCount(rows, added[..n], i, r, s, cutoff);
      assert rows + added == rows + added[..n] + [added[n]];
      CountSnoc(rows + added[..n], added[n], i, r, s, cutoff);
    }
  }

  lemma ForeignCommit(limits: Limits, rows: seq<AuditRow>, added: seq<AuditRow>, t: Transaction)
    requires ReadsHold(limits, rows, t)
    requires forall k :: 0 <= k < |added| ==>
               !(added[k].installation == t.request.installation && added[k].route == t.request.route)
    ensures ReadsHold(limits, rows + added, t)
  {
    var r, cutoff := t.request, t.now - limits.window;
    ForeignRowsDoNotCount(rows, added, r.installation, r.route, ClientOf(r), cutoff);
    ForeignRowsDoNotCount(rows, added, r.installation, r.route, InstallationOf(r), cutoff);
  }

  lemma CommitHolds(limits: Limits, db: Database, id: nat, hash: LockName -> int)
    requires Invariant(limits, db, hash) && Enabled(db, Advance(id), hash) && db.transactions[id].pc.Committing?
    ensures Invariant(limits, Perform(limits, db, Advance(id), hash), hash)
  {
    var t := db.transactions[id];
    var after := Perform(limits, db, Advance(id), hash);
    CheckKeepsThrottled(limits, db.rows, t.request, t.now);
    forall other | other in after.transactions
      ensures ReadsHold(limits, after.rows, after.transactions[other])
    {
      var u := db.transactions[other];
      if other != id && HoldsLocks(u.pc) {
        assert InstallationLock(u, hash) in db.locks && db.locks[InstallationLock(u, hash)] == other;
        assert u.request.installation != t.request.installation || u.request.route != t.request.route;
        ForeignCommit(limits, db.rows, t.pc.pending, u);
      }
    }
  }

  lemma LockStepHolds(limits: Limits, db: Database, id: nat, hash: LockName -> int)
    requires Invariant(limits, db, hash) && Enabled(db, Advance(id), hash)
    requires db.transactions[id].pc.Locking? && db.transactions[id].pc.taken < 2
    ensures Invariant(limits, Perform(limits, db, Advance(id), hash), hash)
  {
    var after := Perform(limits, db, Advance(id), hash);
    var t := db.transactions[id];
    var taken := hash(LockList(t.request)[t.pc.taken]);
    forall lock | lock in after.locks
      ensures after.locks[lock] in after.transactions && Acquired(after, lock, hash)
    {
      if lock != taken {
        assert Acquired(db, lock, hash);
      }
    }
  }

  lemma ReadStepHolds(limits: Limits, db: Database, id: nat, hash: LockName -> int)
    requires Invariant(limits, db, hash) && Enabled(db, Advance(id), hash)
    requires var pc := db.transactions[id].pc; !pc.Committing? && (pc.Locking? ==> pc.taken >= 2)
    ensures Invariant(limits, Perform(limits, db, Advance(id), hash), hash)
  {
    var after := Perform(limits, db, Advance(id), hash);
    forall lock | lock in after.locks
      ensures after.locks[lock] in after.transactions && Acquired(after, lock, hash)
    {
      assert Acquired(db, lock, hash);
    }
  }

  lemma RollbackHolds(limits: Limits, db: Database, id: nat, hash: LockName -> int)
    requires Invariant(limits, db, hash) && Enabled(db, Rollback(id), hash)
    ensures Invariant(limits, Perform(limits, db, Rollback(id), hash), hash)
  {
    var after := Perform(limits, db, Rollback(id), hash);
    forall lock | lock in after.locks
      ensures after.locks[lock] in after.transactions && Acquired(after, lock, hash)
    {
      assert Acquired(db, lock, hash);
    }
  }

  lemma StepHolds(limits: Limits, db: Database, a: Action, hash: LockName -> int)
    requires Invariant(limits, db, hash) && Enabled(db, a, hash)
    ensures Invariant(limits, Perform(limits, db, a, hash), hash)
  {
    match a
    case Start(id, _, _) =>
      forall lock | lock in db.locks ensures Acquired(db, lock, hash) {}
    case Rollback(id) => RollbackHolds(limits, db, id, hash);
    case Advance(id) =>
      var pc := db.transactions[id].pc;
      if pc.Committing? {
        CommitHolds(limits, db, id, hash);
      } else if pc.Locking? && pc.taken < 2 {
        LockStepHolds(limits, db, id, hash);
      } else {
        ReadStepHolds(limits, db, id, hash);
      }
  }

  lemma {:induction false} RunsKeepInvariant(limits: Limits, states: seq<Database>, actions: seq<Action>,
                                             hash: LockName -> int, k: nat)
    requires IsRun(limits, states, actions, hash) && k < |states|
    ensures Invariant(limits, states[k], hash)
  {
    if k > 0 {
      RunsKeepInvariant(limits, states, actions, hash, k - 1);
      StepHolds(limits, states[k - 1], actions[k - 1], hash);
    }
  }

  // ------------------------------------------------------------------------------- checks, not rows

  // The transaction whose check the step ends by a commit.
  predicate CommitsAt(s: Database, a: Action) {
    a.Advance? && a.id in s.transactions && s.transactions[a.id].pc.Committing?
  }

  // The step commits an admitted check for the installation and route; with an address, of that client.
  predicate AdmitsFor(s: Database, a: Action, i: Id, r: Route, address: Option<Id>) {
    && CommitsAt(s, a)
    && var t := s.transactions[a.id];
       t.pc.allowed && t.request.installation == i && t.request.route == r && (address.Some? ==> t.request.address == address.value)
  }

  predicate AdmittedAt(states: seq<Database>, actions: seq<Action>, k: nat, i: Id, r: Route, address: Option<Id>)
    requires k < |actions| <= |states|
  {
    AdmitsFor(states[k], actions[k], i, r, address)
  }

  // The clock reading of the check that a step commits.
  function ReadingAt(s: Database, a: Action): Time
    requires CommitsAt(s, a)
  {
    s.transactions[a.id].now
  }

  // The first n steps' commits of admitted checks with a clock reading not before the cutoff.
  ghost function AdmittedSince(states: seq<Database>, actions: seq<Action>, n: nat, i: Id, r: Route, address: Option<Id>, cutoff: Time): set<nat>
    requires n <= |actions| <= |states|
  {
    set k: nat | k < n && AdmittedAt(states, actions, k, i, r, address) && cutoff <= ReadingAt(states[k], actions[k])
  }

  ghost function AdmittedWithin(states: seq<Database>, actions: seq<Action>, n: nat, i: Id, r: Route, address: Option<Id>, from: Time, to: Time): set<nat>
    requires n <= |actions| <= |states|
  {
    set k: nat | k < n && AdmittedAt(states, actions, k, i, r, address) && from <= ReadingAt(states[k], actions[k]) <= to
  }

  function SubjectFor(i: Id, address: Option<Id>): Subject {
    if address.Some? then ClientSubject(i, address.value) else InstallationSubject(i)
  }

  // What a step adds to the rows that are counted for a client or an installation.
  lemma StepCounts(limits: Limits, s: Database, a: Action, hash: LockName -> int, i: Id, r: Route, address: Option<Id>, from: Time, to: Time)
    requires Invariant(limits, s, hash) && Enabled(s, a, hash)
    ensures var rows, after, subject := s.rows, Perform(limits, s, a, hash).rows, SubjectFor(i, address);
      var admits := AdmitsFor(s, a, i, r, address);
      && CountAdmitted(after, i, r, subject, from) ==
           CountAdmitted(rows, i, r, subject, from) + (if admits && from <= ReadingAt(s, a) then 1 else 0)
      && CountWithin(after, i, r, subject, from, to) ==
           CountWithin(rows, i, r, subject, from, to) + (if admits && from <= ReadingAt(s, a) <= to then 1 else 0)
  {
    if CommitsAt(s, a) {
      var t := s.transactions[a.id];
      assert ReadsHold(limits, s.rows, t);
      var pending := t.pc.pending;
      if |pending| == 0 {
        assert s.rows + pending == s.rows;
      } else if |pending| == 1 {
        OneRowCounts(s.rows, pending[0], i, r, SubjectFor(i, address), from, to);
        assert pending == [pending[0]];
      } else {
        OneRowCounts(s.rows, pending[0], i, r, SubjectFor(i, address), from, to);
        OneRowCounts(s.rows + [pending[0]], pending[1], i, r, SubjectFor(i, address), from, to);
        assert s.rows + pending == s.rows + [pending[0]] + [pending[1]];
      }
    }
  }

  lemma OneRowCounts(rows: seq<AuditRow>, row: AuditRow, i: Id, r: Route, s: Subject, from: Time, to: Time)
    ensures CountAdmitted(rows + [row], i, r, s, from)
         == CountAdmitted(rows, i, r, s, from) + if CountsFor(row, i, r, s) && from <= row.at then 1 else 0
    ensures CountWithin(rows + [row], i, r, s, from, to)
         == CountWithin(rows, i, r, s, from, to) + if CountsFor(row, i, r, s) && from <= row.at <= to then 1 else 0
  {
    assert (rows + [row])[..|rows|] == rows;
  }

  lemma {:induction false} Tally(count: seq<nat>, flag: seq<bool>, n: nat)
    requires n <= |flag| && |count| == |flag| + 1 && count[0] == 0
    requires forall k :: 0 <= k < |flag| ==> count[k + 1] == count[k] + if flag[k] then 1 else 0
    ensures count[n] == |set k: nat | k < n && flag[k]|
  {
    var now := set k: nat | k < n && flag[k];
    if n == 0 {
      assert now == {};
    } else {
      var m := n - 1;
      Tally(count, flag, m);
      var before := set k: nat | k < m && flag[k];
      assert now == before + if flag[m] then {m} else {};
      assert count[m + 1] == count[m] + if flag[m] then 1 else 0;
    }
  }

  lemma RunStepCounts(limits: Limits, states: seq<Database>, actions: seq<Action>, hash: LockName -> int, m: nat,
                      i: Id, r: Route, address: Option<Id>, from: Time, to: Time)
    requires IsRun(limits, states, actions, hash) && m < |actions|
    ensures var rows, after, subject := states[m].rows, states[m + 1].rows, SubjectFor(i, address);
      var admits := AdmittedAt(states, actions, m, i, r, address);
      && CountAdmitted(after, i, r, subject, from) ==
           CountAdmitted(rows, i, r, subject, from) + (if admits && from <= ReadingAt(states[m], actions[m]) then 1 else 0)
      && CountWithin(after, i, r, subject, from, to) ==
           CountWithin(rows, i, r, subject, from, to) + (if admits && from <= ReadingAt(states[m], actions[m]) <= to then 1 else 0)
  {
    RunsKeepInvariant(limits, states, actions, hash, m);
    StepCounts(limits, states[m], actions[m], hash, i, r, address, from, to);
  }

  // The rows count the admitted checks: each once for its client and once for its installation.
  lemma RowsCountChecks(limits: Limits, states: seq<Database>, actions: seq<Action>, hash: LockName -> int, n: nat,
                        i: Id, r: Route, address: Option<Id>, from: Time)
    requires IsRun(limits, states, actions, hash) && n <= |actions|
    ensures CountAdmitted(states[n].rows, i, r, SubjectFor(i, address), from) == |AdmittedSince(states, actions, n, i, r, address, from)|
  {
    var s := SubjectFor(i, address);
    var count := seq(|states|, k requires 0 <= k < |states| => CountAdmitted(states[k].rows, i, r, s, from));
    var flag := seq(|actions|, k requires 0 <= k < |actions| && |states| == |actions| + 1 =>
      AdmittedAt(states, actions, k, i, r, address) && from <= ReadingAt(states[k], actions[k]));
    forall k | 0 <= k < |flag| ensures count[k + 1] == count[k] + if flag[k] then 1 else 0 {
      RunStepCounts(limits, states, actions, hash, k, i, r, address, from, from);
    }
    Tally(count, flag, n);
    assert AdmittedSince(states, actions, n, i, r, address, from) == set k: nat | k < n && flag[k];
  }

  lemma RowsCountChecksWithin(limits: Limits, states: seq<Database>, actions: seq<Action>, hash: LockName -> int, n: nat,
                              i: Id, r: Route, address: Option<Id>, from: Time, to: Time)
    requires IsRun(limits, states, actions, hash) && n <= |actions|
    ensures CountWithin(states[n].rows, i, r, SubjectFor(i, address), from, to) == |AdmittedWithin(states, actions, n, i, r, address, from, to)|
  {
    var s := SubjectFor(i, address);
    var count := seq(|states|, k requires 0 <= k < |states| => CountWithin(states[k].rows, i, r, s, from, to));
    var flag := seq(|actions|, k requires 0 <= k < |actions| && |states| == |actions| + 1 =>
      AdmittedAt(states, actions, k, i, r, address) && from <= ReadingAt(states[k], actions[k]) <= to);
    forall k | 0 <= k < |flag| ensures count[k + 1] == count[k] + if flag[k] then 1 else 0 {
      RunStepCounts(limits, states, actions, hash, k, i, r, address, from, to);
    }
    Tally(count, flag, n);
    assert AdmittedWithin(states, actions, n, i, r, address, from, to) == set k: nat | k < n && flag[k];
  }

  // For every interleaving, every clock and every lock hash: of the checks with a clock reading in a closed
  // interval of one window, at most the limit are admitted for an installation and route, or for one client.
  lemma AdmittedChecksAreBounded(limits: Limits, states: seq<Database>, actions: seq<Action>, hash: LockName -> int,
                                 i: Id, r: Route, address: Id, from: Time)
    requires IsRun(limits, states, actions, hash)
    ensures |AdmittedWithin(states, actions, |actions|, i, r, None, from, from + limits.window)| <= limits.perInstallation
    ensures |AdmittedWithin(states, actions, |actions|, i, r, Some(address), from, from + limits.window)| <= limits.perClient
  {
    var n := |actions|;
    RowsCountChecksWithin(limits, states, actions, hash, n, i, r, None, from, from + limits.window);
    RowsCountChecksWithin(limits, states, actions, hash, n, i, r, Some(address), from, from + limits.window);
    LimitHoldsInEveryRun(limits, states, actions, hash, n, i, r, SubjectFor(i, None), from);
    LimitHoldsInEveryRun(limits, states, actions, hash, n, i, r, SubjectFor(i, Some(address)), from);
  }

  // And a check that commits is admitted exactly if, of the admitted checks committed before it whose clock
  // reading is at most a window older than its own or newer, fewer than the limits are of its client and of its
  // installation.
  lemma ChecksDecideChecks(limits: Limits, states: seq<Database>, actions: seq<Action>, hash: LockName -> int, k: nat)
    requires IsRun(limits, states, actions, hash) && k < |actions| && CommitsAt(states[k], actions[k])
    ensures var t := states[k].transactions[actions[k].id]; var q, cutoff := t.request, t.now - limits.window;
      t.pc.allowed <==>
      && |AdmittedSince(states, actions, k, q.installation, q.route, Some(q.address), cutoff)| < limits.perClient
      && |AdmittedSince(states, actions, k, q.installation, q.route, None, cutoff)| < limits.perInstallation
  {
    var t := states[k].transactions[actions[k].id];
    var q, cutoff := t.request, t.now - limits.window;
    DecisionsAreExact(limits, states, actions, hash, k);
    RowsCountChecks(limits, states, actions, hash, k, q.installation, q.route, Some(q.address), cutoff);
    RowsCountChecks(limits, states, actions, hash, k, q.installation, q.route, None, cutoff);
  }

  // An admitted check leaves a row for its client and one for its installation. A refused check leaves a denial of
  // its installation and route in its window: one that was there, or one of its own that names the limit reached.
  lemma CommitsAreAudited(limits: Limits, states: seq<Database>, actions: seq<Action>, hash: LockName -> int, k: nat)
    requires IsRun(limits, states, actions, hash) && k < |actions| && CommitsAt(states[k], actions[k])
    ensures var t := states[k].transactions[actions[k].id]; var q, cutoff := t.request, t.now - limits.window;
      var rows, after := states[k].rows, states[k + 1].rows;
      var clientIsFull := |AdmittedSince(states, actions, k, q.installation, q.route, Some(q.address), cutoff)| >= limits.perClient;
      if t.pc.allowed
      then after == rows + [Admitted(q.installation, q.route, ClientSubject(q.installation, q.address), t.now),
                            Admitted(q.installation, q.route, InstallationSubject(q.installation), t.now)]
      else Refused(rows, after, q, t.now, cutoff, clientIsFull)
  {
    var t := states[k].transactions[actions[k].id];
    var q, cutoff := t.request, t.now - limits.window;
    CommitsAreSerial(limits, states, actions, hash, k);
    DecisionsAreExact(limits, states, actions, hash, k);
    RowsCountChecks(limits, states, actions, hash, k, q.installation, q.route, Some(q.address), cutoff);
    CheckOutcome(limits, states[k].rows, q, t.now);
  }

  // For every interleaving, every clock and every lock hash: no closed interval of one window holds more
  // admitted attempts of a client or of an installation on a route than its limit.
  lemma LimitHoldsInEveryRun(limits: Limits, states: seq<Database>, actions: seq<Action>, hash: LockName -> int,
                             k: nat, i: Id, r: Route, s: Subject, from: Time)
    requires IsRun(limits, states, actions, hash) && k < |states|
    ensures CountWithin(states[k].rows, i, r, s, from, from + limits.window) <= LimitFor(limits, s)
  {
    RunsKeepInvariant(limits, states, actions, hash, k);
    AnyWindowIsBounded(limits, states[k].rows, i, r, s, from);
  }

  // And the recorded denials of an installation on a route are pairwise more than a window apart.
  lemma DenialsApartInEveryRun(limits: Limits, states: seq<Database>, actions: seq<Action>, hash: LockName -> int,
                               k: nat, i: Id, r: Route, x: nat, y: nat)
    requires IsRun(limits, states, actions, hash) && k < |states| && x < y < |states[k].rows|
    requires DeniedFor(states[k].rows[x], i, r) && DeniedFor(states[k].rows[y], i, r)
    ensures states[k].rows[x].at + limits.window < states[k].rows[y].at
  {
    RunsKeepInvariant(limits, states, actions, hash, k);
    DenialsAreAWindowApart(limits, states[k].rows, i, r, x, y);
  }

  // A committed check has exactly the effect of the same check run alone at its commit.
  lemma CommitsAreSerial(limits: Limits, states: seq<Database>, actions: seq<Action>, hash: LockName -> int, k: nat)
    requires IsRun(limits, states, actions, hash) && k < |actions|
    requires actions[k].Advance? && states[k].transactions[actions[k].id].pc.Committing?
    ensures var t := states[k].transactions[actions[k].id];
            && states[k + 1].rows == states[k].rows + CheckRows(limits, states[k].rows, t.request, t.now)
            && (t.pc.allowed <==> CheckRows(limits, states[k].rows, t.request, t.now) == AdmittedRows(t.request, t.now))
  {
    RunsKeepInvariant(limits, states, actions, hash, k);
  }

  // A check that commits has decided as if it had counted at its commit: it is admitted exactly if client and
  // installation are both below their limits there.
  lemma DecisionsAreExact(limits: Limits, states: seq<Database>, actions: seq<Action>, hash: LockName -> int, k: nat)
    requires IsRun(limits, states, actions, hash) && k < |actions|
    requires actions[k].Advance? && states[k].transactions[actions[k].id].pc.Committing?
    ensures var t := states[k].transactions[actions[k].id]; var r, cutoff := t.request, t.now - limits.window;
            t.pc.allowed <==>
            && CountAdmitted(states[k].rows, r.installation, r.route, ClientOf(r), cutoff) < limits.perClient
            && CountAdmitted(states[k].rows, r.installation, r.route, InstallationOf(r), cutoff) < limits.perInstallation
  {
    RunsKeepInvariant(limits, states, actions, hash, k);
    var t := states[k].transactions[actions[k].id];
    assert ReadsHold(limits, states[k].rows, t);
  }

  // Taking the locks in sorted order rules deadlock out, as long as different subjects have different hashes:
  // while some transaction is unfinished, some unfinished transaction can take its next step.
  lemma SortedLocksDoNotDeadlock(limits: Limits, states: seq<Database>, actions: seq<Action>, hash: LockName -> int,
                                 k: nat, id: nat)
    requires IsRun(limits, states, actions, hash) && k < |states|
    requires forall a, b :: hash(a) == hash(b) ==> a == b
    requires id in states[k].transactions && !states[k].transactions[id].pc.Finished?
    ensures exists next :: Enabled(states[k], Advance(next), hash)
  {
    RunsKeepInvariant(limits, states, actions, hash, k);
    var db := states[k];
    var next := Unblocked(limits, db, id, hash);
  }

  lemma Unblocked(limits: Limits, db: Database, id: nat, hash: LockName -> int) returns (next: nat)
    requires Invariant(limits, db, hash) && forall a, b :: hash(a) == hash(b) ==> a == b
    requires id in db.transactions && !db.transactions[id].pc.Finished?
    ensures Enabled(db, Advance(next), hash)
  {
    if Enabled(db, Advance(id), hash) {
      return id;
    }
    var t := db.transactions[id];
    var wanted := hash(LockList(t.request)[t.pc.taken]);
    next := db.locks[wanted];
    assert Acquired(db, wanted, hash);
    if !Enabled(db, Advance(next), hash) {
      // The holder waits for its second lock, and whoever holds that one waits for nothing.
      var u := db.transactions[next];
      var second := hash(LockList(u.request)[1]);
      next := db.locks[second];
      assert Acquired(db, second, hash);
    }
  }
}
