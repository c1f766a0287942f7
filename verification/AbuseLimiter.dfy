/** The sliding-window limiter for sign-in attempts (src/self-host/postgres-auth-abuse-limiter.ts).

    A check reads the clock, then takes two advisory locks, counts committed attempts, inserts audit rows
    and commits. Commit order and clock order may therefore disagree. */
module AbuseLimiter {
  import opened Wrappers

  type Id = nat
  type Time = int

  datatype Route = StartRoute | CallbackRoute

  // The digests of the source are injective, so a subject stands for the text it is the digest of.
  datatype Subject = ClientSubject(installation: Id, address: Id) | InstallationSubject(installation: Id)

  datatype Limits = Limits(perClient: nat, perInstallation: nat, window: nat)

  datatype Request = Request(installation: Id, route: Route, address: Id)

  datatype AuditRow =
    | Admitted(installation: Id, route: Route, subject: Subject, at: Time)
    | Denied(installation: Id, route: Route, at: Time, limitedByClient: bool)

  function ClientOf(r: Request): Subject {
    ClientSubject(r.installation, r.address)
  }

  function InstallationOf(r: Request): Subject {
    InstallationSubject(r.installation)
  }

  function LimitFor(limits: Limits, subject: Subject): nat {
    if subject.ClientSubject? then limits.perClient else limits.perInstallation
  }

  predicate CountsFor(row: AuditRow, installation: Id, route: Route, subject: Subject) {
    row.Admitted? && row.installation == installation && row.route == route && row.subject == subject
  }

  // SELECT count(*) ... WHERE outcome = 'success' AND occurred_at >= cutoff
  function CountAdmitted(rows: seq<AuditRow>, installation: Id, route: Route, subject: Subject, cutoff: Time): nat {
    if rows == [] then 0
    else
      var last := rows[|rows| - 1];
      CountAdmitted(rows[..|rows| - 1], installation, route, subject, cutoff)
      + if CountsFor(last, installation, route, subject) && cutoff <= last.at then 1 else 0
  }

  predicate DeniedFor(row: AuditRow, installation: Id, route: Route) {
    row.Denied? && row.installation == installation && row.route == route
  }

  function CountDenied(rows: seq<AuditRow>, installation: Id, route: Route, cutoff: Time): nat {
    if rows == [] then 0
    else
      var last := rows[|rows| - 1];
      CountDenied(rows[..|rows| - 1], installation, route, cutoff)
      + if DeniedFor(last, installation, route) && cutoff <= last.at then 1 else 0
  }

  predicate Allowed(limits: Limits, clientAttempts: nat, installationAttempts: nat) {
    clientAttempts < limits.perClient && installationAttempts < limits.perInstallation
  }

  function AdmittedRows(r: Request, now: Time): seq<AuditRow> {
    [Admitted(r.installation, r.route, ClientOf(r), now), Admitted(r.installation, r.route, InstallationOf(r), now)]
  }

  function DeniedRows(r: Request, now: Time, byClient: bool, recentDenials: nat): seq<AuditRow> {
    if recentDenials > 0 then [] else [Denied(r.installation, r.route, now, byClient)]
  }

  // The rows one check adds to the rows committed before it.
  function CheckRows(limits: Limits, rows: seq<AuditRow>, r: Request, now: Time): seq<AuditRow> {
    var cutoff := now - limits.window;
    var clientAttempts := CountAdmitted(rows, r.installation, r.route, ClientOf(r), cutoff);
    var installationAttempts := CountAdmitted(rows, r.installation, r.route, InstallationOf(r), cutoff);
    if Allowed(limits, clientAttempts, installationAttempts) then AdmittedRows(r, now)
    else DeniedRows(r, now, clientAttempts >= limits.perClient, CountDenied(rows, r.installation, r.route, cutoff))
  }

  // The property of a history in commit order that every check keeps.
  ghost predicate Throttled(limits: Limits, rows: seq<AuditRow>) {
    forall k :: 0 <= k < |rows| ==> ThrottledAt(limits, rows[..k], rows[k])
  }

  ghost predicate ThrottledAt(limits: Limits, before: seq<AuditRow>, row: AuditRow) {
    match row
    case Admitted(i, r, s, at) => CountAdmitted(before, i, r, s, at - limits.window) < LimitFor(limits, s)
    case Denied(i, r, at, _) => CountDenied(before, i, r, at - limits.window) == 0
  }

  lemma ThrottledSnoc(limits: Limits, rows: seq<AuditRow>, row: AuditRow)
    requires Throttled(limits, rows) && ThrottledAt(limits, rows, row)
    ensures Throttled(limits, rows + [row])
  {
    var more := rows + [row];
    forall k | 0 <= k < |more| ensures ThrottledAt(limits, more[..k], more[k]) {
      assert more[..k] == rows[..k];
      if k == |rows| {
        assert rows[..k] == rows;
      }
    }
  }

  lemma CountSnoc(rows: seq<AuditRow>, row: AuditRow, i: Id, r: Route, s: Subject, cutoff: Time)
    ensures CountAdmitted(rows + [row], i, r, s, cutoff)
         == CountAdmitted(rows, i, r, s, cutoff) + if CountsFor(row, i, r, s) && cutoff <= row.at then 1 else 0
    ensures CountDenied(rows + [row], i, r, cutoff)
         == CountDenied(rows, i, r, cutoff) + if DeniedFor(row, i, r) && cutoff <= row.at then 1 else 0
  {
    assert (rows + [row])[..|rows|] == rows;
  }

  lemma CheckKeepsThrottled(limits: Limits, rows: seq<AuditRow>, r: Request, now: Time)
    requires Throttled(limits, rows)
    ensures Throttled(limits, rows + CheckRows(limits, rows, r, now))
  {
    var added := CheckRows(limits, rows, r, now);
    if |added| == 2 {
      CountSnoc(rows, added[0], r.installation, r.route, InstallationOf(r), now - limits.window);
      ThrottledSnoc(limits, rows, added[0]);
      ThrottledSnoc(limits, rows + [added[0]], added[1]);
      assert rows + added == rows + [added[0]] + [added[1]];
    } else if |added| == 1 {
      ThrottledSnoc(limits, rows, added[0]);
      assert rows + added == rows + [added[0]];
    } else {
      assert rows + added == rows;
    }
  }

  // Admitted attempts of a subject whose clock reading lies in the closed interval.
  function CountWithin(rows: seq<AuditRow>, i: Id, r: Route, s: Subject, from: Time, to: Time): nat {
    if rows == [] then 0
    else
      var last := rows[|rows| - 1];
      CountWithin(rows[..|rows| - 1], i, r, s, from, to)
      + if CountsFor(last, i, r, s) && from <= last.at <= to then 1 else 0
  }

  lemma {:induction false} CountWithinBound(rows: seq<AuditRow>, i: Id, r: Route, s: Subject,
                                            from: Time, to: Time, cutoff: Time)
    requires cutoff <= from
    ensures CountWithin(rows, i, r, s, from, to) <= CountAdmitted(rows, i, r, s, cutoff)
  {
    if rows != [] {
      CountWithinBound(rows[..|rows| - 1], i, r, s, from, to, cutoff);
    }
  }

  // Whatever the clock readings were, no closed interval of one window holds more admitted attempts than the limit.
  lemma {:induction false} AnyWindowIsBounded(limits: Limits, rows: seq<AuditRow>, i: Id, r: Route, s: Subject, from: Time)
    requires Throttled(limits, rows)
    ensures CountWithin(rows, i, r, s, from, from + limits.window) <= LimitFor(limits, s)
  {
    if rows != [] {
      var n := |rows| - 1;
      forall k | 0 <= k < n ensures ThrottledAt(limits, rows[..n][..k], rows[..n][k]) {
        assert rows[..n][..k] == rows[..k];
      }
      AnyWindowIsBounded(limits, rows[..n], i, r, s, from);
      var last := rows[n];
      if CountsFor(last, i, r, s) && from <= last.at <= from + limits.window {
        assert ThrottledAt(limits, rows[..n], last);
        CountWithinBound(rows[..n], i, r, s, from, from + limits.window, last.at - limits.window);
      }
    }
  }

  // A denial of the installation and route is recorded in the window that begins at the cutoff.
  predicate DeniedSince(rows: seq<AuditRow>, i: Id, r: Route, cutoff: Time) {
    exists j :: 0 <= j < |rows| && DeniedFor(rows[j], i, r) && cutoff <= rows[j].at
  }

  lemma {:induction false} NoneDeniedExactly(rows: seq<AuditRow>, i: Id, r: Route, cutoff: Time)
    ensures CountDenied(rows, i, r, cutoff) > 0 <==> DeniedSince(rows, i, r, cutoff)
  {
    if rows != [] {
      var n := |rows| - 1;
      NoneDeniedExactly(rows[..n], i, r, cutoff);
      if DeniedSince(rows[..n], i, r, cutoff) {
        var j :| 0 <= j < n && DeniedFor(rows[..n][j], i, r) && cutoff <= rows[..n][j].at;
        assert rows[j] == rows[..n][j];
      }
      if DeniedSince(rows, i, r, cutoff) {
        var j :| 0 <= j <= n && DeniedFor(rows[j], i, r) && cutoff <= rows[j].at;
        if j < n { assert rows[..n][j] == rows[j]; }
      }
    }
  }

  // The rows after a refusal: those before, if they hold a denial of the window, and else one denial more, which
  // names the limit that was reached.
  ghost predicate Refused(rows: seq<AuditRow>, after: seq<AuditRow>, r: Request, now: Time, cutoff: Time, byClient: bool) {
    && DeniedSince(after, r.installation, r.route, cutoff)
    && (if DeniedSince(rows, r.installation, r.route, cutoff) then after == rows
        else after == rows + [Denied(r.installation, r.route, now, byClient)])
  }

  // What a check leaves behind, by the counts of its window.
  lemma CheckOutcome(limits: Limits, rows: seq<AuditRow>, r: Request, now: Time)
    ensures var after, cutoff := rows + CheckRows(limits, rows, r, now), now - limits.window;
      var client := CountAdmitted(rows, r.installation, r.route, ClientOf(r), cutoff);
      var installation := CountAdmitted(rows, r.installation, r.route, InstallationOf(r), cutoff);
      if client < limits.perClient && installation < limits.perInstallation
      then after == rows + [Admitted(r.installation, r.route, ClientSubject(r.installation, r.address), now),
                            Admitted(r.installation, r.route, InstallationSubject(r.installation), now)]
      else Refused(rows, after, r, now, cutoff, client >= limits.perClient)
  {
    var cutoff := now - limits.window;
    var after := rows + CheckRows(limits, rows, r, now);
    NoneDeniedExactly(rows, r.installation, r.route, cutoff);
    if CountDenied(rows, r.installation, r.route, cutoff) > 0 {
      assert rows + [] == rows;
    } else if |after| == |rows| + 1 {
      assert DeniedFor(after[|rows|], r.installation, r.route) && cutoff <= after[|rows|].at;
    }
  }

  lemma {:induction false} NoRecentDenials(rows: seq<AuditRow>, i: Id, r: Route, cutoff: Time, j: nat)
    requires CountDenied(rows, i, r, cutoff) == 0 && j < |rows| && DeniedFor(rows[j], i, r)
    ensures rows[j].at < cutoff
  {
    if j < |rows| - 1 {
      assert rows[..|rows| - 1][j] == rows[j];
      NoRecentDenials(rows[..|rows| - 1], i, r, cutoff, j);
    }
  }

  // Recorded denials of one installation and route are more than a window apart, in the order they were committed.
  lemma DenialsAreAWindowApart(limits: Limits, rows: seq<AuditRow>, i: Id, r: Route, j: nat, k: nat)
    requires Throttled(limits, rows) && j < k < |rows| && DeniedFor(rows[j], i, r) && DeniedFor(rows[k], i, r)
    ensures rows[j].at + limits.window < rows[k].at
  {
    assert ThrottledAt(limits, rows[..k], rows[k]);
    assert rows[..k][j] == rows[j];
    NoRecentDenials(rows[..k], i, r, rows[k].at - limits.window, j);
  }

  // One transaction, in the order of its statements.
  class PostgresAuthAbuseLimiter {
    const limits: Limits
    var audit: seq<AuditRow>
    var held: seq<Subject>

    constructor (limits: Limits)
      ensures this.limits == limits && audit == [] && held == []
    {
      this.limits := limits;
      audit, held := [], [];
    }

    method LockSubjects(subjects: seq<Subject>)
      modifies this`held
      ensures held == old(held) + subjects
    {
      var i := 0;
      while i < |subjects|
        invariant 0 <= i <= |subjects| && held == old(held) + subjects[..i]
      {
        held := held + [subjects[i]];
        i := i + 1;
      }
    }

    method CountAcceptedAttempts(r: Request, subject: Subject, cutoff: Time) returns (attempts: nat)
      requires subject in held
      ensures attempts == CountAdmitted(audit, r.installation, r.route, subject, cutoff)
    {
      attempts := CountAdmitted(audit, r.installation, r.route, subject, cutoff);
    }

    method RecordAcceptedAttempt(r: Request, subject: Subject, now: Time)
      modifies this`audit
      ensures audit == old(audit) + [Admitted(r.installation, r.route, subject, now)]
    {
      audit := audit + [Admitted(r.installation, r.route, subject, now)];
    }

    method RecordDeniedAttemptOnce(r: Request, byClient: bool, cutoff: Time, now: Time)
      modifies this`audit
      ensures audit == old(audit)
                       + DeniedRows(r, now, byClient, CountDenied(old(audit), r.installation, r.route, cutoff))
    {
      if CountDenied(audit, r.installation, r.route, cutoff) > 0 {
        return;
      }
      audit := audit + [Denied(r.installation, r.route, now, byClient)];
    }

    method Check(r: Request, now: Time) returns (allowed: bool)
      requires Throttled(limits, audit) && held == []
      modifies this
      ensures Throttled(limits, audit) && held == []
      ensures audit == old(audit) + CheckRows(limits, old(audit), r, now)
      ensures allowed <==> && CountAdmitted(old(audit), r.installation, r.route, ClientOf(r), now - limits.window) < limits.perClient
                           && CountAdmitted(old(audit), r.installation, r.route, InstallationOf(r), now - limits.window) < limits.perInstallation
      ensures allowed ==> audit == old(audit) + [Admitted(r.installation, r.route, ClientSubject(r.installation, r.address), now),
                                                 Admitted(r.installation, r.route, InstallationSubject(r.installation), now)]
      ensures !allowed ==> Refused(old(audit), audit, r, now, now - limits.window,
                CountAdmitted(old(audit), r.installation, r.route, ClientOf(r), now - limits.window) >= limits.perClient)
    {
      ghost var added := CheckRows(limits, audit, r, now);
      CheckKeepsThrottled(limits, audit, r, now);
      CheckOutcome(limits, audit, r, now);
      var cutoff := now - limits.window;
      LockSubjects([ClientOf(r), InstallationOf(r)]);
      var clientAttempts := CountAcceptedAttempts(r, ClientOf(r), cutoff);
      var installationAttempts := CountAcceptedAttempts(r, InstallationOf(r), cutoff);
      allowed := clientAttempts < limits.perClient && installationAttempts < limits.perInstallation;
      if allowed {
        RecordAcceptedAttempt(r, ClientOf(r), now);
        RecordAcceptedAttempt(r, InstallationOf(r), now);
      } else {
        RecordDeniedAttemptOnce(r, clientAttempts >= limits.perClient, cutoff, now);
      }
      assert audit == old(audit) + added;
      held := [];
    }
  }
}
