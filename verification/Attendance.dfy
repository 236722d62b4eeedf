/**
 * Attendance submission (backend/python/main.py, _handle_attendance_submit and
 * submit_attendance_rest, which run the same two loops over the attendee table).
 */
module Attendance {

  datatype Status = Present | Absent

  datatype Row = Row(session: string, student: string, name: string, status: Status, recordedAt: int)

  /** No student appears twice in one session. */
  predicate NoDuplicates(rows: seq<Row>) {
    forall i, j :: 0 <= i < j < |rows| ==> rows[i].session != rows[j].session || rows[i].student != rows[j].student
  }

  /** The statuses of one session, as a map from student to status. */
  function Statuses(rows: seq<Row>, session: string): map<string, Status> {
    if rows == [] then map[]
    else
      var m, r := Statuses(rows[..|rows| - 1], session), rows[|rows| - 1];
      if r.session == session then m[r.student := r.status] else m
  }

  function Override(m: map<string, Status>, emails: seq<string>, status: Status): map<string, Status> {
    m + map e | e in emails :: status
  }

  /** Position of the row the query selects, or the number of rows. */
  function Find(rows: seq<Row>, session: string, student: string): (k: nat)
    ensures k <= |rows|
    ensures k < |rows| ==> rows[k].session == session && rows[k].student == student
    ensures forall i :: 0 <= i < k ==> rows[i].session != session || rows[i].student != student
  {
    if rows == [] then 0
    else if rows[0].session == session && rows[0].student == student then 0
    else 1 + Find(rows[1..], session, student)
  }

  /** One email: its row is updated in place, or a new row is added. */
  function Upserted(rows: seq<Row>, session: string, email: string, status: Status, now: int): seq<Row> {
    var k := Find(rows, session, email);
    if k < |rows| then rows[k := rows[k].(status := status, recordedAt := now)]
    else rows + [Row(session, email, "", status, now)]
  }

  function AllUpserted(rows: seq<Row>, session: string, emails: seq<string>, status: Status, now: int): seq<Row>
    decreases |emails|
  {
    if emails == [] then rows
    else AllUpserted(Upserted(rows, session, emails[0], status, now), session, emails[1..], status, now)
  }

  function Submitted(rows: seq<Row>, session: string, present: seq<string>, absent: seq<string>, now: int): seq<Row> {
    AllUpserted(AllUpserted(rows, session, present, Present, now), session, absent, Absent, now)
  }

  class AttendeeTable {
    var rows: seq<Row>

    constructor ()
      ensures rows == []
    {
      rows := [];
    }

    /** The query for the row, then the update or the insert. */
    method Upsert(session: string, email: string, status: Status, now: int)
      modifies this
      ensures rows == Upserted(old(rows), session, email, status, now)
      ensures NoDuplicates(old(rows)) ==>
                && NoDuplicates(rows) && Statuses(rows, session) == Statuses(old(rows), session)[email := status]
      ensures Extends(old(rows), rows, session) && |rows| <= |old(rows)| + 1
      ensures exists k :: ChangesRow(old(rows), rows, k, session, email, status, now)
    {
      hide Statuses, ChangesRow;
      OneRow(rows, session, email, status, now);
      if NoDuplicates(rows) { UpsertOverrides(rows, session, email, status, now); }
      var existing := Find(rows, session, email);
      if existing < |rows| {
        rows := rows[existing := rows[existing].(status := status, recordedAt := now)];
      } else {
        rows := rows + [Row(session, email, "", status, now)];
      }
    }

    method Submit(session: string, present: seq<string>, absent: seq<string>, now: int)
      modifies this
      ensures rows == Submitted(old(rows), session, present, absent, now)
      ensures NoDuplicates(old(rows)) ==>
                && NoDuplicates(rows)
                && Statuses(rows, session)
                   == Override(Override(Statuses(old(rows), session), present, Present), absent, Absent)
      ensures Extends(old(rows), rows, session)
      ensures NoDuplicates(old(rows)) ==> Stamped(old(rows), rows, session, present + absent, now)
    {
      hide Statuses, Extends, NoDuplicates, Override, AllUpserted, Stamped;
      SubmitExtends(rows, session, present, absent, now);
      if NoDuplicates(rows) {
        SubmitOverrides(rows, session, present, absent, now);
        SubmitStamps(rows, session, present, absent, now);
      }
      UpsertAll(session, present, Present, now);
      UpsertAll(session, absent, Absent, now);
    }

    method UpsertAll(session: string, emails: seq<string>, status: Status, now: int)
      modifies this
      ensures rows == AllUpserted(old(rows), session, emails, status, now)
    {
      var i := 0;
      while i < |emails|
        invariant 0 <= i <= |emails|
        invariant AllUpserted(rows, session, emails[i..], status, now)
               == AllUpserted(old(rows), session, emails, status, now)
      {
        hide NoDuplicates, Statuses, Extends, Upserted;
        assert emails[i..][1..] == emails[i + 1..];
        Upsert(session, emails[i], status, now);
        i := i + 1;
      }
    }
  }

  /** Row `k` of session and email got status and time, its name kept; or it was added without a name. */
  predicate ChangesRow(rows: seq<Row>, rows': seq<Row>, k: nat,
                       session: string, email: string, status: Status, now: int) {
    && k < |rows'| && rows'[k].session == session && rows'[k].student == email
    && rows'[k].status == status && rows'[k].recordedAt == now
    && (k < |rows| ==> rows' == rows[k := rows'[k]] && rows'[k].name == rows[k].name
                       && rows[k].session == session && rows[k].student == email)
    && (k >= |rows| ==> rows' == rows + [rows'[k]] && rows'[k].name == ""
                        && forall i :: 0 <= i < |rows| ==> rows[i].session != session || rows[i].student != email)
  }

  lemma OneRow(rows: seq<Row>, session: string, email: string, status: Status, now: int)
    ensures exists k :: ChangesRow(rows, Upserted(rows, session, email, status, now), k, session, email, status, now)
  {
    assert ChangesRow(rows, Upserted(rows, session, email, status, now), Find(rows, session, email),
                      session, email, status, now);
  }

  // ---- What submission promises ----

  lemma {:induction false} StatusesAt(rows: seq<Row>, session: string, student: string)
    requires NoDuplicates(rows)
    ensures var k := Find(rows, session, student);
            if k < |rows| then student in Statuses(rows, session) && Statuses(rows, session)[student] == rows[k].status
            else student !in Statuses(rows, session)
  {
    if rows != [] {
      var n := |rows| - 1;
      StatusesAt(rows[..n], session, student);
      var k, k' := Find(rows, session, student), Find(rows[..n], session, student);
      assert k' < n ==> k == k' by {
        if k' < n { assert rows[k'] == rows[..n][k']; FindIs(rows, session, student, k'); }
      }
      if k' == n {
        forall i | 0 <= i < n ensures rows[i].session != session || rows[i].student != student {
          assert rows[i] == rows[..n][i];
        }
      }
    }
  }

  lemma FindIs(rows: seq<Row>, session: string, student: string, k: nat)
    requires k < |rows| && rows[k].session == session && rows[k].student == student
    requires NoDuplicates(rows)
    ensures Find(rows, session, student) == k
  {
  }

  /** One upsert overrides one student's status and keeps the table free of duplicates. */
  lemma UpsertOverrides(rows: seq<Row>, session: string, email: string, status: Status, now: int)
    requires NoDuplicates(rows)
    ensures var rows' := Upserted(rows, session, email, status, now);
            && NoDuplicates(rows') && Statuses(rows', session) == Statuses(rows, session)[email := status]
  {
    var rows' := Upserted(rows, session, email, status, now);
    assert NoDuplicates(rows');
    forall student
      ensures student in Statuses(rows', session) <==> student == email || student in Statuses(rows, session)
      ensures student in Statuses(rows', session)
          ==> Statuses(rows', session)[student] == Statuses(rows, session)[email := status][student]
    {
      StatusesAt(rows, session, student);
      StatusesAt(rows', session, student);
      FindAfterUpsert(rows, session, email, status, now, student);
    }
  }

  lemma FindAfterUpsert(rows: seq<Row>, session: string, email: string, status: Status, now: int, student: string)
    requires NoDuplicates(rows)
    ensures var rows' := Upserted(rows, session, email, status, now);
            var k := Find(rows', session, student);
            && NoDuplicates(rows')
            && (student == email ==> k < |rows'| && rows'[k].status == status)
            && (student != email ==> (k < |rows'| <==> Find(rows, session, student) < |rows|))
            && (student != email && k < |rows'| ==> rows'[k].status == rows[Find(rows, session, student)].status)
  {
    var rows' := Upserted(rows, session, email, status, now);
    var e, s := Find(rows, session, email), Find(rows, session, student);
    FindIs(rows', session, email, e);
    if student != email && s < |rows| {
      FindIs(rows', session, student, s);
    }
  }

  lemma {:induction false} AllOverride(rows: seq<Row>, session: string, emails: seq<string>, status: Status, now: int)
    requires NoDuplicates(rows)
    ensures var rows' := AllUpserted(rows, session, emails, status, now);
            NoDuplicates(rows') && Statuses(rows', session) == Override(Statuses(rows, session), emails, status)
    decreases |emails|
  {
    hide NoDuplicates, Statuses, Upserted, Override;
    if emails == [] {
      OverrideNothing(Statuses(rows, session), status);
    } else {
      UpsertOverrides(rows, session, emails[0], status, now);
      AllOverride(Upserted(rows, session, emails[0], status, now), session, emails[1..], status, now);
      OverrideStep(Statuses(rows, session), emails, status);
    }
  }

  lemma OverrideNothing(m: map<string, Status>, status: Status)
    ensures Override(m, [], status) == m
  {
  }

  lemma OverrideStep(m: map<string, Status>, emails: seq<string>, status: Status)
    requires emails != []
    ensures Override(m[emails[0] := status], emails[1..], status) == Override(m, emails, status)
  {
    assert forall e :: e in emails <==> e == emails[0] || e in emails[1..];
  }

  /** Submission refines map override: present first, then absent, whatever repeats or overlaps. */
  lemma SubmitOverrides(rows: seq<Row>, session: string, present: seq<string>, absent: seq<string>, now: int)
    requires NoDuplicates(rows)
    ensures var rows' := Submitted(rows, session, present, absent, now);
            && NoDuplicates(rows')
            && Statuses(rows', session)
               == Override(Override(Statuses(rows, session), present, Present), absent, Absent)
  {
    AllOverride(rows, session, present, Present, now);
    AllOverride(AllUpserted(rows, session, present, Present, now), session, absent, Absent, now);
  }

  /** Rows keep their place, their identity and name; rows of other sessions keep everything. */
  predicate Extends(rows: seq<Row>, rows': seq<Row>, session: string) {
    && |rows| <= |rows'|
    && (forall i :: 0 <= i < |rows| ==>
          && rows'[i].session == rows[i].session && rows'[i].student == rows[i].student
          && rows'[i].name == rows[i].name && (rows[i].session != session ==> rows'[i] == rows[i]))
    && (forall i :: |rows| <= i < |rows'| ==> rows'[i].session == session)
  }

  lemma {:induction false} AllExtend(rows: seq<Row>, session: string, emails: seq<string>, status: Status, now: int)
    ensures Extends(rows, AllUpserted(rows, session, emails, status, now), session)
    decreases |emails|
  {
    if emails != [] {
      AllExtend(Upserted(rows, session, emails[0], status, now), session, emails[1..], status, now);
    }
  }

  lemma SubmitExtends(rows: seq<Row>, session: string, present: seq<string>, absent: seq<string>, now: int)
    ensures Extends(rows, Submitted(rows, session, present, absent, now), session)
  {
    AllExtend(rows, session, present, Present, now);
    AllExtend(AllUpserted(rows, session, present, Present, now), session, absent, Absent, now);
  }

  /**
   * The rows of the submitted emails are stamped with the time of the submission, new rows have no
   * name, and every other row is as it was.
   */
  predicate Stamped(rows: seq<Row>, rows': seq<Row>, session: string, emails: seq<string>, now: int) {
    && |rows| <= |rows'|
    && (forall i :: 0 <= i < |rows'| && rows'[i].session == session && rows'[i].student in emails ==>
          rows'[i].recordedAt == now)
    && (forall i :: 0 <= i < |rows| && !(rows[i].session == session && rows[i].student in emails) ==>
          rows'[i] == rows[i])
    && (forall i :: |rows| <= i < |rows'| ==> rows'[i].student in emails && rows'[i].name == "")
  }

  lemma StampsJoin(a: seq<Row>, b: seq<Row>, c: seq<Row>, session: string,
                   first: seq<string>, more: seq<string>, now: int)
    requires Stamped(a, b, session, first, now) && Stamped(b, c, session, more, now) && Extends(b, c, session)
    ensures Stamped(a, c, session, first + more, now)
  {
    assert forall e :: e in first + more <==> e in first || e in more;
  }

  lemma UpsertStamps(rows: seq<Row>, session: string, email: string, status: Status, now: int)
    requires NoDuplicates(rows)
    ensures Stamped(rows, Upserted(rows, session, email, status, now), session, [email], now)
  {
  }

  lemma {:induction false} AllStamp(rows: seq<Row>, session: string, emails: seq<string>, status: Status, now: int)
    requires NoDuplicates(rows)
    ensures Stamped(rows, AllUpserted(rows, session, emails, status, now), session, emails, now)
    decreases |emails|
  {
    hide NoDuplicates, Stamped, Statuses, Upserted, Extends;
    if emails == [] {
      NothingStamped(rows, session, now);
    } else {
      var next := Upserted(rows, session, emails[0], status, now);
      UpsertOverrides(rows, session, emails[0], status, now);
      UpsertStamps(rows, session, emails[0], status, now);
      AllStamp(next, session, emails[1..], status, now);
      AllExtend(next, session, emails[1..], status, now);
      assert [emails[0]] + emails[1..] == emails;
      var all := AllUpserted(next, session, emails[1..], status, now);
      StampsJoin(rows, next, all, session, [emails[0]], emails[1..], now);
    }
  }

  lemma NothingStamped(rows: seq<Row>, session: string, now: int)
    ensures Stamped(rows, rows, session, [], now)
  {
  }

  lemma SubmitStamps(rows: seq<Row>, session: string, present: seq<string>, absent: seq<string>, now: int)
    requires NoDuplicates(rows)
    ensures Stamped(rows, Submitted(rows, session, present, absent, now), session, present + absent, now)
  {
    hide NoDuplicates, Stamped, Statuses, Override, Extends, AllUpserted;
    var half := AllUpserted(rows, session, present, Present, now);
    AllOverride(rows, session, present, Present, now);
    AllStamp(rows, session, present, Present, now);
    AllStamp(half, session, absent, Absent, now);
    AllExtend(half, session, absent, Absent, now);
    StampsJoin(rows, half, Submitted(rows, session, present, absent, now), session, present, absent, now);
  }

  /** Equal but for the recording times. */
  predicate SameButTime(a: seq<Row>, b: seq<Row>) {
    |a| == |b| && forall i :: 0 <= i < |a| ==> a[i].(recordedAt := 0) == b[i].(recordedAt := 0)
  }

  lemma {:induction false} NothingAdded(rows: seq<Row>, session: string, emails: seq<string>, status: Status, now: int)
    requires forall e :: e in emails ==> Find(rows, session, e) < |rows|
    ensures |AllUpserted(rows, session, emails, status, now)| == |rows|
    decreases |emails|
  {
    if emails != [] {
      var rows' := Upserted(rows, session, emails[0], status, now);
      assert emails[0] in emails;
      forall e | e in emails[1..] ensures Find(rows', session, e) < |rows'| {
        assert e in emails;
        var k := Find(rows, session, e);
        assert rows'[k].session == session && rows'[k].student == e;
      }
      NothingAdded(rows', session, emails[1..], status, now);
    }
  }

  lemma OverrideTwice(m: map<string, Status>, present: seq<string>, absent: seq<string>)
    ensures var o := Override(Override(m, present, Present), absent, Absent);
            && Override(Override(o, present, Present), absent, Absent) == o
            && (forall e :: e in present || e in absent ==> e in o && e in Override(o, present, Present))
  {
  }

  lemma RowStatus(rows: seq<Row>, session: string, i: nat)
    requires NoDuplicates(rows) && i < |rows| && rows[i].session == session
    ensures rows[i].student in Statuses(rows, session)
    ensures Statuses(rows, session)[rows[i].student] == rows[i].status
  {
    hide Statuses;
    FindIs(rows, session, rows[i].student, i);
    StatusesAt(rows, session, rows[i].student);
  }

  /** A second submission of the same lists finds a row for every email. */
  lemma SubmitAgainAddsNothing(rows: seq<Row>, session: string, present: seq<string>, absent: seq<string>,
                               t: int, u: int)
    requires NoDuplicates(rows)
    ensures var once := Submitted(rows, session, present, absent, t);
            |Submitted(once, session, present, absent, u)| == |once|
  {
    hide NoDuplicates, Statuses, Upserted, Override, AllUpserted, Find;
    var once := Submitted(rows, session, present, absent, t);
    var half := AllUpserted(once, session, present, Present, u);
    SubmitOverrides(rows, session, present, absent, t);
    AllOverride(once, session, present, Present, u);
    OverrideTwice(Statuses(rows, session), present, absent);
    forall e | e in present || e in absent
      ensures Find(once, session, e) < |once| && Find(half, session, e) < |half|
    {
      StatusesAt(once, session, e);
      StatusesAt(half, session, e);
    }
    NothingAdded(once, session, present, Present, u);
    NothingAdded(half, session, absent, Absent, u);
  }

  /** Submitting the same lists again changes nothing but recording times. */
  lemma SubmitTwice(rows: seq<Row>, session: string, present: seq<string>, absent: seq<string>, t: int, u: int)
    requires NoDuplicates(rows)
    ensures var once := Submitted(rows, session, present, absent, t);
            SameButTime(Submitted(once, session, present, absent, u), once)
  {
    hide NoDuplicates, Statuses, Override, Submitted;
    var once := Submitted(rows, session, present, absent, t);
    var twice := Submitted(once, session, present, absent, u);
    SubmitOverrides(rows, session, present, absent, t);
    SubmitOverrides(once, session, present, absent, u);
    OverrideTwice(Statuses(rows, session), present, absent);
    SubmitExtends(once, session, present, absent, u);
    SubmitAgainAddsNothing(rows, session, present, absent, t, u);
    forall i | 0 <= i < |once| && once[i].session == session ensures twice[i].status == once[i].status {
      RowStatus(once, session, i);
      RowStatus(twice, session, i);
    }
  }
}
