/** The import of archived submissions: what each row does to the stored submission, and the accounting of a pass. */
module ArchiveImport {
  import opened Options

  type Time = int

  /** A student and a content block: what a submission is looked up by. */
  datatype Key = Key(user: nat, block: nat)

  /** A stored submission; absent strings are empty. */
  datatype Submission = Submission(fromArchive: bool, text: string, codeUrl: string, issueUrl: string,
                                   attempts: int, grade: string, gradedAt: Option<Time>)

  datatype Progress = Progress(completed: bool, completedAt: Option<Time>)

  /** An archive row; `target` is where the student and file name lookups lead, if both succeed. */
  datatype Row = Row(target: Option<Key>, text: string, codeUrl: string, issueUrl: string,
                     attempts: int, grade: string, updatedAt: Option<Time>)

  datatype Db = Db(submissions: map<Key, Submission>, progress: map<Key, Progress>)

  /** A conflict entry names the fields in which the archive disagrees with what is stored. */
  datatype Conflict = Conflict(key: Key, text: bool, grade: bool)

  datatype Report = Report(rows: nat, created: nat, updated: nat, same: nat, skipped: nat, conflicts: seq<Conflict>)

  const NO_ROWS := Report(0, 0, 0, 0, 0, [])

  /** White space, as `blank?` has it. */
  predicate IsSpace(c: char) {
    || '\t' <= c <= '\r'
    || c == ' ' || c == '\U{85}' || c == '\U{A0}' || c == '\U{1680}'
    || '\U{2000}' <= c <= '\U{200A}'
    || c in {'\U{2028}', '\U{2029}', '\U{202F}', '\U{205F}', '\U{3000}'}
  }

  predicate IsBlank(s: string) {
    forall c | c in s :: IsSpace(c)
  }

  /** The grades the importer knows. */
  function KnownGrade(s: string): Option<string> {
    if s in {"A", "B", "C", "R"} then Some(s) else None
  }

  /** White space by its code points. */
  lemma SpaceCodes(c: char)
    ensures IsSpace(c) <==> var n := c as int;
              || 9 <= n <= 13 || n == 32 || n == 0x85 || n == 0xA0 || n == 0x1680 || 0x2000 <= n <= 0x200A
              || n == 0x2028 || n == 0x2029 || n == 0x202F || n == 0x205F || n == 0x3000
  {
  }

  lemma KnownNotBlank(s: string)
    ensures KnownGrade(s).Some? ==> !IsBlank(s)
  {
    if KnownGrade(s).Some? {
      assert s[0] in s && !IsSpace(s[0]);
    }
  }

  function Max(a: int, b: int): int {
    if a < b then b else a
  }

  function OrNow(t: Option<Time>, now: Time): Time {
    if t.Some? then t.value else now
  }

  // ---------------------------------------------------------------- one row

  /** The attributes a row assigns. */
  datatype Attrs = Attrs(fromArchive: bool, text: Option<string>, codeUrl: Option<string>, issueUrl: Option<string>,
                         attempts: Option<int>, grade: Option<string>)

  const NO_ATTRS := Attrs(false, None, None, None, None, None)

  function AssignIfAllowed(current: string, archived: string, overwrite: bool): Option<string> {
    if IsBlank(archived) || (!IsBlank(current) && !overwrite) then None else Some(archived)
  }

  function SubmissionAttrs(row: Row, existing: Option<Submission>, overwrite: bool): Attrs {
    var s := if existing.Some? then existing.value else NEW;
    Attrs(existing.None? || overwrite,
          AssignIfAllowed(s.text, row.text, overwrite),
          AssignIfAllowed(s.codeUrl, row.codeUrl, overwrite),
          AssignIfAllowed(s.issueUrl, row.issueUrl, overwrite),
          if existing.None? || overwrite || row.attempts > s.attempts then Some(Max(Max(s.attempts, row.attempts), 1)) else None,
          if existing.None? || overwrite || IsBlank(s.grade) then KnownGrade(row.grade) else None)
  }

  /** The defaults an insert starts from; the attempt count is always assigned. */
  const NEW := Submission(false, "", "", "", 0, "", None)

  function Write(s: Submission, a: Attrs, row: Row, now: Time): Submission {
    Submission(s.fromArchive || a.fromArchive,
               if a.text.Some? then a.text.value else s.text,
               if a.codeUrl.Some? then a.codeUrl.value else s.codeUrl,
               if a.issueUrl.Some? then a.issueUrl.value else s.issueUrl,
               if a.attempts.Some? then a.attempts.value else s.attempts,
               if a.grade.Some? then a.grade.value else s.grade,
               if a.grade.Some? then Some(OrNow(row.updatedAt, now)) else s.gradedAt)
  }

  /** A graded submission is complete, except for a redo. */
  function UpdateProgress(progress: map<Key, Progress>, key: Key, grade: string, row: Row, now: Time): map<Key, Progress> {
    if IsBlank(grade) then progress
    else if grade == "R" then progress[key := Progress(false, None)]
    else progress[key := Progress(true, Some(OrNow(row.updatedAt, now)))]
  }

  function Conflicts(key: Key, s: Submission, row: Row): seq<Conflict> {
    var text := !IsBlank(s.text) && !IsBlank(row.text) && s.text != row.text;
    var grade := !IsBlank(s.grade) && !IsBlank(row.grade) && KnownGrade(row.grade) != Some(s.grade);
    if text || grade then [Conflict(key, text, grade)] else []
  }

  datatype Outcome = Created | Updated | Unchanged | Skipped

  function OutcomeOf(db: Db, row: Row, overwrite: bool): Outcome {
    if row.target.None? then Skipped
    else if row.target.value !in db.submissions then Created
    else if SubmissionAttrs(row, Some(db.submissions[row.target.value]), overwrite) == NO_ATTRS then Unchanged
    else Updated
  }

  /** What a row that is not a dry run does to the tables. */
  function Store(db: Db, row: Row, overwrite: bool, now: Time): Db {
    match OutcomeOf(db, row, overwrite)
    case Skipped => db
    case Unchanged => db
    case Created =>
      var key, a := row.target.value, SubmissionAttrs(row, None, overwrite);
      Db(db.submissions[key := Write(NEW, a, row, now)],
         UpdateProgress(db.progress, key, if a.grade.Some? then a.grade.value else "", row, now))
    case Updated =>
      var key := row.target.value;
      var s := db.submissions[key];
      var a := SubmissionAttrs(row, Some(s), overwrite);
      Db(db.submissions[key := Write(s, a, row, now)],
         UpdateProgress(db.progress, key, if a.grade.Some? then a.grade.value else s.grade, row, now))
  }

  function Tally(r: Report, db: Db, row: Row, overwrite: bool): Report {
    var counted := r.(rows := r.rows + 1);
    match OutcomeOf(db, row, overwrite)
    case Skipped => counted.(skipped := r.skipped + 1)
    case Unchanged => counted.(same := r.same + 1)
    case Created => counted.(created := r.created + 1)
    case Updated =>
      counted.(updated := r.updated + 1, conflicts := r.conflicts + Conflicts(row.target.value, db.submissions[row.target.value], row))
  }

  // ---------------------------------------------------------------- a pass over the rows

  /** The options of a pass. */
  datatype Mode = Mode(dryRun: bool, overwrite: bool, now: Time)

  /** The tables after a pass: a dry run leaves them alone. */
  function Pass(db: Db, rows: seq<Row>, mode: Mode): Db
    decreases |rows|
  {
    if rows == [] then db else Pass(if mode.dryRun then db else Store(db, rows[0], mode.overwrite, mode.now), rows[1..], mode)
  }

  /** The report after a pass that starts from report `r`. */
  function Reported(r: Report, db: Db, rows: seq<Row>, mode: Mode): Report
    decreases |rows|
  {
    if rows == [] then r
    else Reported(Tally(r, db, rows[0], mode.overwrite), if mode.dryRun then db else Store(db, rows[0], mode.overwrite, mode.now), rows[1..], mode)
  }

  /** The importer, with the tables and the report it updates in place. */
  class Importer {
    const mode: Mode
    var submissions: map<Key, Submission>
    var progress: map<Key, Progress>
    var report: Report

    constructor (mode: Mode, submissions: map<Key, Submission>, progress: map<Key, Progress>)
      ensures this.mode == mode && Tables() == Db(submissions, progress) && report == Report(0, 0, 0, 0, 0, [])
    {
      this.mode, this.submissions, this.progress, this.report := mode, submissions, progress, NO_ROWS;
    }

    function Tables(): Db
      reads this
    {
      Db(submissions, progress)
    }

    method ImportSubmissions(rows: seq<Row>)
      modifies this
      ensures Tables() == Pass(old(Tables()), rows, mode)
      ensures report == Reported(old(report), old(Tables()), rows, mode)
    {
      var pending := rows;
      while pending != []
        invariant Pass(Tables(), pending, mode) == Pass(old(Tables()), rows, mode)
        invariant Reported(report, Tables(), pending, mode) == Reported(old(report), old(Tables()), rows, mode)
        decreases |pending|
      {
        ImportSubmission(pending[0]);
        pending := pending[1..];
      }
    }

    method ImportSubmission(row: Row)
      modifies this
      ensures Tables() == if mode.dryRun then old(Tables()) else Store(old(Tables()), row, mode.overwrite, mode.now)
      ensures report == Tally(old(report), old(Tables()), row, mode.overwrite)
    {
      report := report.(rows := report.rows + 1);
      if row.target.None? {
        report := report.(skipped := report.skipped + 1);
        return;
      }
      var key := row.target.value;
      if key in submissions {
        UpdateExisting(key, row);
      } else {
        Create(key, row);
      }
    }

    method UpdateExisting(key: Key, row: Row)
      requires key in submissions && row.target == Some(key)
      modifies this
      ensures Tables() == if mode.dryRun then old(Tables()) else Store(old(Tables()), row, mode.overwrite, mode.now)
      ensures report.rows == old(report).rows && report.(rows := old(report).rows + 1) == Tally(old(report), old(Tables()), row, mode.overwrite)
    {
      var existing := submissions[key];
      var attrs := SubmissionAttrs(row, Some(existing), mode.overwrite);
      if attrs == NO_ATTRS {
        report := report.(same := report.same + 1);
        return;
      }
      report := report.(conflicts := report.conflicts + Conflicts(key, existing, row), updated := report.updated + 1);
      if mode.dryRun { return; }
      var grade := if attrs.grade.Some? then attrs.grade.value else existing.grade;
      submissions := submissions[key := Write(existing, attrs, row, mode.now)];
      progress := UpdateProgress(progress, key, grade, row, mode.now);
    }

    method Create(key: Key, row: Row)
      requires key !in submissions && row.target == Some(key)
      modifies this
      ensures Tables() == if mode.dryRun then old(Tables()) else Store(old(Tables()), row, mode.overwrite, mode.now)
      ensures report.rows == old(report).rows && report.(rows := old(report).rows + 1) == Tally(old(report), old(Tables()), row, mode.overwrite)
    {
      report := report.(created := report.created + 1);
      if mode.dryRun { return; }
      var attrs := SubmissionAttrs(row, None, mode.overwrite);
      submissions := submissions[key := Write(NEW, attrs, row, mode.now)];
      progress := UpdateProgress(progress, key, if attrs.grade.Some? then attrs.grade.value else "", row, mode.now);
    }
  }

  // ---------------------------------------------------------------- accounting

  predicate Balanced(r: Report) {
    r.rows == r.created + r.updated + r.same + r.skipped
  }

  /** Every row lands in exactly one of created, updated, unchanged and skipped. */
  lemma {:induction false} RowsBalance(r: Report, db: Db, rows: seq<Row>, mode: Mode)
    requires Balanced(r)
    ensures Balanced(Reported(r, db, rows, mode)) && Reported(r, db, rows, mode).rows == r.rows + |rows|
    decreases |rows|
  {
    if rows != [] {
      RowsBalance(Tally(r, db, rows[0], mode.overwrite), if mode.dryRun then db else Store(db, rows[0], mode.overwrite, mode.now), rows[1..], mode);
    }
  }

  // ---------------------------------------------------------------- importing twice

  /** The stored submission already has everything the row could add. */
  predicate Absorbed(s: Submission, row: Row) {
    && (IsBlank(row.text) || !IsBlank(s.text))
    && (IsBlank(row.codeUrl) || !IsBlank(s.codeUrl))
    && (IsBlank(row.issueUrl) || !IsBlank(s.issueUrl))
    && row.attempts <= s.attempts
    && (KnownGrade(row.grade).None? || !IsBlank(s.grade))
  }

  predicate AbsorbedIn(db: Db, row: Row) {
    row.target.Some? ==> row.target.value in db.submissions && Absorbed(db.submissions[row.target.value], row)
  }

  /** Without overwriting, a stored submission only gains. */
  predicate Gains(s: Submission, t: Submission) {
    && (!IsBlank(s.text) ==> t.text == s.text)
    && (!IsBlank(s.codeUrl) ==> t.codeUrl == s.codeUrl)
    && (!IsBlank(s.issueUrl) ==> t.issueUrl == s.issueUrl)
    && s.attempts <= t.attempts
    && (!IsBlank(s.grade) ==> t.grade == s.grade)
  }

  predicate GainsIn(before: Db, after: Db) {
    forall key | key in before.submissions :: key in after.submissions && Gains(before.submissions[key], after.submissions[key])
  }

  /** Writing the allowed attributes gains and absorbs. */
  lemma WriteGains(s: Submission, row: Row, now: Time, existing: Option<Submission>)
    requires existing == Some(s) || (existing.None? && s == NEW)
    ensures var t := Write(s, SubmissionAttrs(row, existing, false), row, now); Gains(s, t) && Absorbed(t, row)
  {
    KnownNotBlank(row.grade);
  }

  /** A field takes the archived value if that is not blank and the field may be written, and otherwise stays. */
  predicate Filled(before: string, archived: string, after: string, overwrite: bool) {
    after == if !IsBlank(archived) && (IsBlank(before) || overwrite) then archived else before
  }

  /** Each field is filled from its own column; the attempt count is the larger one, and at least 1 after an insert or overwrite. */
  lemma WriteFills(s: Submission, row: Row, now: Time, existing: Option<Submission>, overwrite: bool)
    requires existing == Some(s) || (existing.None? && s == NEW)
    ensures var t := Write(s, SubmissionAttrs(row, existing, overwrite), row, now);
            && Filled(s.text, row.text, t.text, overwrite)
            && Filled(s.codeUrl, row.codeUrl, t.codeUrl, overwrite)
            && Filled(s.issueUrl, row.issueUrl, t.issueUrl, overwrite)
            && t.attempts >= s.attempts && t.attempts >= row.attempts && t.attempts in {s.attempts, row.attempts, 1}
            && (existing.None? || overwrite || s.attempts >= 1 ==> t.attempts >= 1)
            && (IsGrade(row.grade) && (IsBlank(s.grade) || overwrite) ==>
                  t.grade == row.grade && t.gradedAt == Some(if row.updatedAt.Some? then row.updatedAt.value else now))
            && (!IsGrade(row.grade) || !(IsBlank(s.grade) || overwrite) ==> t.grade == s.grade && t.gradedAt == s.gradedAt)
            && (t.fromArchive <==> s.fromArchive || existing.None? || overwrite)
  {
    KnownNotBlank(row.grade);
  }

  /** A row for a block without a submission stores what the archive has: blanks stay empty, and there is at least one attempt. */
  lemma CreateStores(db: Db, row: Row, overwrite: bool, now: Time)
    requires row.target.Some? && row.target.value !in db.submissions
    ensures var after := Store(db, row, overwrite, now);
            row.target.value in after.submissions &&
            after.submissions[row.target.value] == Submission(
              true, if IsBlank(row.text) then "" else row.text, if IsBlank(row.codeUrl) then "" else row.codeUrl,
              if IsBlank(row.issueUrl) then "" else row.issueUrl, if row.attempts > 1 then row.attempts else 1,
              if IsGrade(row.grade) then row.grade else "",
              if IsGrade(row.grade) then Some(if row.updatedAt.Some? then row.updatedAt.value else now) else None)
  {
  }

  predicate IsGrade(grade: string) {
    grade == "A" || grade == "B" || grade == "C" || grade == "R"
  }

  /** The row brings a grade into effect. */
  predicate Grades(db: Db, row: Row, overwrite: bool) {
    row.target.Some? && IsGrade(row.grade) &&
    (row.target.value in db.submissions ==> overwrite || IsBlank(db.submissions[row.target.value].grade))
  }

  /** A row that brings a grade completes the block at the archived time, or at the present where there is none; a redo reopens it. */
  lemma GradeSetsProgress(db: Db, row: Row, overwrite: bool, now: Time)
    requires Grades(db, row, overwrite)
    ensures var after, key := Store(db, row, overwrite, now), row.target.value;
            && key in after.submissions && after.submissions[key].grade == row.grade && key in after.progress
            && after.progress[key] == if row.grade == "R" then Progress(false, None)
                                      else Progress(true, Some(if row.updatedAt.Some? then row.updatedAt.value else now))
  {
    KnownNotBlank(row.grade);
  }

  /** Every graded submission has its progress: complete, except for a redo. */
  predicate ProgressFollows(db: Db) {
    forall key | key in db.submissions && !IsBlank(db.submissions[key].grade) ::
      key in db.progress && (db.progress[key].completed <==> db.submissions[key].grade != "R")
  }

  lemma StoreProgress(db: Db, row: Row, overwrite: bool, now: Time)
    requires ProgressFollows(db)
    ensures ProgressFollows(Store(db, row, overwrite, now))
  {
  }

  /** Every pass keeps grades and progress in step. */
  lemma {:induction false} PassProgress(db: Db, rows: seq<Row>, mode: Mode)
    requires ProgressFollows(db)
    ensures ProgressFollows(Pass(db, rows, mode))
    decreases |rows|
  {
    if rows != [] {
      StoreProgress(db, rows[0], mode.overwrite, mode.now);
      PassProgress(if mode.dryRun then db else Store(db, rows[0], mode.overwrite, mode.now), rows[1..], mode);
    }
  }

  lemma StoreGains(db: Db, row: Row, now: Time)
    ensures GainsIn(db, Store(db, row, false, now)) && AbsorbedIn(Store(db, row, false, now), row)
  {
    if row.target.Some? {
      var key := row.target.value;
      if key in db.submissions {
        WriteGains(db.submissions[key], row, now, Some(db.submissions[key]));
      } else {
        WriteGains(NEW, row, now, None);
      }
    }
  }

  lemma {:induction false} PassGains(db: Db, rows: seq<Row>, now: Time)
    ensures GainsIn(db, Pass(db, rows, Mode(false, false, now)))
    decreases |rows|
  {
    if rows != [] {
      StoreGains(db, rows[0], now);
      PassGains(Store(db, rows[0], false, now), rows[1..], now);
    }
  }

  lemma GainsKeepAbsorbed(before: Db, after: Db, row: Row)
    requires GainsIn(before, after) && AbsorbedIn(before, row)
    ensures AbsorbedIn(after, row)
  {
  }

  lemma {:induction false} PassAbsorbs(db: Db, rows: seq<Row>, now: Time)
    ensures forall row | row in rows :: AbsorbedIn(Pass(db, rows, Mode(false, false, now)), row)
    decreases |rows|
  {
    if rows != [] {
      var next := Store(db, rows[0], false, now);
      StoreGains(db, rows[0], now);
      PassGains(next, rows[1..], now);
      GainsKeepAbsorbed(next, Pass(db, rows, Mode(false, false, now)), rows[0]);
      PassAbsorbs(next, rows[1..], now);
      forall row | row in rows ensures AbsorbedIn(Pass(db, rows, Mode(false, false, now)), row) {
        assert row == rows[0] || row in rows[1..];
      }
    }
  }

  /** Rows that are absorbed change nothing and are reported as unchanged or skipped. */
  lemma {:induction false} AbsorbedPass(r: Report, db: Db, rows: seq<Row>, mode: Mode)
    requires !mode.overwrite && forall row | row in rows :: AbsorbedIn(db, row)
    ensures Pass(db, rows, mode) == db
    ensures var after := Reported(r, db, rows, mode);
            after.created == r.created && after.updated == r.updated && after.conflicts == r.conflicts
    decreases |rows|
  {
    if rows != [] {
      assert rows[0] in rows && forall row | row in rows[1..] :: row in rows;
      assert Store(db, rows[0], false, mode.now) == db;
      AbsorbedPass(Tally(r, db, rows[0], false), db, rows[1..], mode);
    }
  }

  /** Without overwriting, importing the same rows again changes nothing and reports nothing created or updated, whatever the time. */
  lemma ImportTwice(db: Db, rows: seq<Row>, now: Time, mode: Mode)
    requires !mode.overwrite
    ensures var once := Pass(db, rows, Mode(false, false, now));
            && GainsIn(db, once)
            && Pass(once, rows, mode) == once
            && Reported(NO_ROWS, once, rows, mode).created == 0
            && Reported(NO_ROWS, once, rows, mode).updated == 0
  {
    PassGains(db, rows, now);
    PassAbsorbs(db, rows, now);
    AbsorbedPass(NO_ROWS, Pass(db, rows, Mode(false, false, now)), rows, mode);
  }

  lemma OverwriteRow(r: Report, db: Db, row: Row, now: Time)
    requires row.target.Some? ==> row.target.value in db.submissions
    ensures Tally(r, db, row, true).updated == r.updated + (if row.target.Some? then 1 else 0)
    ensures Store(db, row, true, now).submissions.Keys == db.submissions.Keys
  {
  }

  /** Row and submission both say something, and not the same. */
  predicate Disagree(s: Submission, row: Row) {
    || (!IsBlank(s.text) && !IsBlank(row.text) && s.text != row.text)
    || (!IsBlank(s.grade) && !IsBlank(row.grade) && (s.grade != row.grade || !IsGrade(row.grade)))
  }

  /** A disagreement is reported if and only if overwriting is on or the row has something else to add. */
  lemma ConflictReportedIff(r: Report, db: Db, row: Row, overwrite: bool)
    requires row.target.Some? && row.target.value in db.submissions
    ensures var s := db.submissions[row.target.value];
            r.conflicts < Tally(r, db, row, overwrite).conflicts <==> Disagree(s, row) && (overwrite || !Absorbed(s, row))
  {
    var s, attrs := db.submissions[row.target.value], SubmissionAttrs(row, Some(db.submissions[row.target.value]), overwrite);
    KnownNotBlank(row.grade);
    assert attrs == NO_ATTRS <==> !overwrite && Absorbed(s, row);
  }

  /** An archived text that differs from the stored one, with nothing else to add: the row counts as unchanged, and no conflict is reported. */
  lemma ConflictUnreported(r: Report, key: Key)
    ensures var s := NEW.(text := "stored", attempts := 1);
            var row := Row(Some(key), "archived", "", "", 1, "", None);
            && Disagree(s, row)
            && Tally(r, Db(map[key := s], map[]), row, false) == r.(rows := r.rows + 1, same := r.same + 1)
  {
    var s, row := NEW.(text := "stored", attempts := 1), Row(Some(key), "archived", "", "", 1, "", None);
    assert s.text[0] == 's' && row.text[0] == 'a' && 's' in s.text && 'a' in row.text;
    assert !IsSpace('s') && !IsSpace('a');
  }

  /** With overwriting every row with a target is reported as updated once its submission exists. */
  lemma {:induction false} OverwriteUpdates(r: Report, db: Db, rows: seq<Row>, mode: Mode)
    requires mode.overwrite && forall row | row in rows && row.target.Some? :: row.target.value in db.submissions
    ensures Reported(r, db, rows, mode).updated == r.updated + |Targets(rows)|
    decreases |rows|
  {
    if rows != [] {
      assert rows[0] in rows && forall row | row in rows[1..] :: row in rows;
      OverwriteRow(r, db, rows[0], mode.now);
      var next := if mode.dryRun then db else Store(db, rows[0], true, mode.now);
      OverwriteUpdates(Tally(r, db, rows[0], true), next, rows[1..], mode);
    }
  }

  // ---------------------------------------------------------------- dry runs

  /** The targets of the rows that have one, in order. */
  function Targets(rows: seq<Row>): seq<Key>
    decreases |rows|
  {
    if rows == [] then []
    else (if rows[0].target.Some? then [rows[0].target.value] else []) + Targets(rows[1..])
  }

  predicate NoRepeats(keys: seq<Key>) {
    forall i, j | 0 <= i < j < |keys| :: keys[i] != keys[j]
  }

  predicate AgreeOn(a: Db, b: Db, keys: seq<Key>) {
    forall key | key in keys ::
      (key in a.submissions <==> key in b.submissions) && (key in a.submissions ==> a.submissions[key] == b.submissions[key])
  }

  lemma NoRepeatsCons(key: Key, rest: seq<Key>)
    ensures NoRepeats([key] + rest) <==> NoRepeats(rest) && key !in rest
  {
    var all := [key] + rest;
    if NoRepeats(all) {
      forall i, j | 0 <= i < j < |rest| ensures rest[i] != rest[j] {
        assert all[i + 1] != all[j + 1];
      }
      forall k | 0 <= k < |rest| ensures rest[k] != key {
        assert all[0] != all[k + 1];
      }
    }
    if NoRepeats(rest) && key !in rest {
      forall i, j | 0 <= i < j < |all| ensures all[i] != all[j] {
        assert all[j] == rest[j - 1];
        assert i > 0 ==> all[i] == rest[i - 1];
      }
    }
  }

  lemma TallyAgrees(r: Report, a: Db, b: Db, row: Row, overwrite: bool)
    requires row.target.Some? ==> AgreeOn(a, b, [row.target.value])
    ensures Tally(r, a, row, overwrite) == Tally(r, b, row, overwrite)
  {
  }

  /** A row touches only its own target. */
  lemma StoreElsewhere(db: Db, row: Row, overwrite: bool, now: Time)
    ensures forall key | row.target != Some(key) ::
              var after := Store(db, row, overwrite, now);
              && (key in after.submissions <==> key in db.submissions)
              && (key in db.submissions ==> after.submissions[key] == db.submissions[key])
              && (key in after.progress <==> key in db.progress)
              && (key in db.progress ==> after.progress[key] == db.progress[key])
  {
  }

  /** If no two rows have the same target, a dry run and a real run of the same rows report the same. */
  lemma {:induction false} DryRunAgrees(r: Report, dry: Db, live: Db, rows: seq<Row>, overwrite: bool, now: Time)
    requires NoRepeats(Targets(rows)) && AgreeOn(dry, live, Targets(rows))
    ensures Reported(r, dry, rows, Mode(true, overwrite, now)) == Reported(r, live, rows, Mode(false, overwrite, now))
    decreases |rows|
  {
    if rows != [] {
      var row, rest := rows[0], Targets(rows[1..]);
      var next := Store(live, row, overwrite, now);
      if row.target.Some? {
        NoRepeatsCons(row.target.value, rest);
        assert row.target.value in Targets(rows);
      } else {
        assert Targets(rows) == rest;
      }
      assert forall key | key in rest :: key in Targets(rows);
      TallyAgrees(r, dry, live, row, overwrite);
      assert AgreeOn(dry, next, rest) by { StoreElsewhere(live, row, overwrite, now); }
      DryRunAgrees(Tally(r, dry, row, overwrite), dry, next, rows[1..], overwrite, now);
    }
  }

  function KeySet(keys: seq<Key>): set<Key> {
    set key | key in keys
  }

  lemma InsertSize(m: map<Key, Submission>, key: Key, s: Submission)
    ensures m[key := s].Keys == m.Keys + {key}
    ensures |m[key := s]| == |m| + (if key in m then 0 else 1)
  {
  }

  lemma StoreKeys(db: Db, row: Row, overwrite: bool, now: Time)
    ensures var after := Store(db, row, overwrite, now);
            && after.submissions.Keys == db.submissions.Keys + KeySet(Targets([row]))
            && |after.submissions| == |db.submissions| + (if OutcomeOf(db, row, overwrite).Created? then 1 else 0)
  {
    assert [row][1..] == [];
    if row.target.Some? {
      var key, after := row.target.value, Store(db, row, overwrite, now);
      assert KeySet(Targets([row])) == {key};
      if key in after.submissions {
        InsertSize(db.submissions, key, after.submissions[key]);
      }
      if key in db.submissions { assert db.submissions.Keys + {key} == db.submissions.Keys; }
    } else {
      assert KeySet(Targets([row])) == {};
    }
  }

  lemma TargetsSplit(rows: seq<Row>)
    requires rows != []
    ensures KeySet(Targets(rows)) == KeySet(Targets([rows[0]])) + KeySet(Targets(rows[1..]))
  {
  }

  lemma {:induction false} PassKeys(db: Db, rows: seq<Row>, mode: Mode)
    requires !mode.dryRun
    ensures Pass(db, rows, mode).submissions.Keys == db.submissions.Keys + KeySet(Targets(rows))
    decreases |rows|
  {
    if rows == [] {
      assert KeySet(Targets(rows)) == {};
    } else {
      var next := Store(db, rows[0], mode.overwrite, mode.now);
      assert next.submissions.Keys == db.submissions.Keys + KeySet(Targets([rows[0]])) by {
        StoreKeys(db, rows[0], mode.overwrite, mode.now);
      }
      PassKeys(next, rows[1..], mode);
      TargetsSplit(rows);
    }
  }

  lemma TallyCreated(r: Report, db: Db, row: Row, overwrite: bool, now: Time)
    ensures Tally(r, db, row, overwrite).created == r.created + |Store(db, row, overwrite, now).submissions| - |db.submissions|
  {
  }

  /** Rows created in a real run are as many as the submissions it adds. */
  lemma {:induction false} CreatedAreNew(r: Report, db: Db, rows: seq<Row>, mode: Mode)
    requires !mode.dryRun
    ensures Reported(r, db, rows, mode).created == r.created + |Pass(db, rows, mode).submissions| - |db.submissions|
    decreases |rows|
  {
    if rows != [] {
      var next, tally := Store(db, rows[0], mode.overwrite, mode.now), Tally(r, db, rows[0], mode.overwrite);
      assert tally.created == r.created + |next.submissions| - |db.submissions| by {
        TallyCreated(r, db, rows[0], mode.overwrite, mode.now);
      }
      CreatedAreNew(tally, next, rows[1..], mode);
    }
  }

  const EMPTY := Db(map[], map[])

  /** On empty tables a dry run counts every row with a target as created. */
  lemma {:induction false} DryCreates(r: Report, rows: seq<Row>, overwrite: bool, now: Time)
    ensures Reported(r, EMPTY, rows, Mode(true, overwrite, now)).created == r.created + |Targets(rows)|
    decreases |rows|
  {
    if rows != [] {
      DryCreates(Tally(r, EMPTY, rows[0], overwrite), rows[1..], overwrite, now);
    }
  }

  /** A list has as many distinct keys as entries exactly when nothing repeats. */
  lemma {:induction false} DistinctCount(keys: seq<Key>)
    ensures |KeySet(keys)| <= |keys|
    ensures |KeySet(keys)| == |keys| <==> NoRepeats(keys)
    decreases |keys|
  {
    if keys != [] {
      var key, rest := keys[0], keys[1..];
      DistinctCount(rest);
      NoRepeatsCons(key, rest);
      assert keys == [key] + rest;
      assert KeySet(keys) == KeySet(rest) + {key};
      if key in rest {
        assert KeySet(rest) + {key} == KeySet(rest);
      }
    }
  }

  /** A dry run predicts the real report for every stored state if and only if no two rows have the same target. */
  lemma DryRunIff(rows: seq<Row>, overwrite: bool, now: Time)
    ensures (forall db :: Reported(NO_ROWS, db, rows, Mode(true, overwrite, now)) == Reported(NO_ROWS, db, rows, Mode(false, overwrite, now)))
            <==> NoRepeats(Targets(rows))
  {
    if NoRepeats(Targets(rows)) {
      forall db ensures Reported(NO_ROWS, db, rows, Mode(true, overwrite, now)) == Reported(NO_ROWS, db, rows, Mode(false, overwrite, now)) {
        DryRunAgrees(NO_ROWS, db, db, rows, overwrite, now);
      }
    } else {
      DryCreates(NO_ROWS, rows, overwrite, now);
      CreatedAreNew(NO_ROWS, EMPTY, rows, Mode(false, overwrite, now));
      PassKeys(EMPTY, rows, Mode(false, overwrite, now));
      var after := Pass(EMPTY, rows, Mode(false, overwrite, now));
      assert |after.submissions| == |after.submissions.Keys|;
      assert after.submissions.Keys == KeySet(Targets(rows));
      DistinctCount(Targets(rows));
    }
  }

  /** Two rows for one target on empty tables: the dry run counts two created, the real run one. */
  lemma DryRunDiffers(rows: seq<Row>, key: Key, overwrite: bool, now: Time)
    requires Targets(rows) == [key, key]
    ensures Reported(NO_ROWS, EMPTY, rows, Mode(true, overwrite, now)).created == 2
    ensures Reported(NO_ROWS, EMPTY, rows, Mode(false, overwrite, now)).created == 1
  {
    DryCreates(NO_ROWS, rows, overwrite, now);
    CreatedAreNew(NO_ROWS, EMPTY, rows, Mode(false, overwrite, now));
    PassKeys(EMPTY, rows, Mode(false, overwrite, now));
    assert KeySet([key, key]) == {key};
    var stored := Pass(EMPTY, rows, Mode(false, overwrite, now)).submissions;
    assert stored.Keys == {key} && |stored| == |stored.Keys|;
  }
}
