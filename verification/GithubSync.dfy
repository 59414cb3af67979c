/** The GitHub sync of one student: repository files written over their exercise submissions. */
module GithubSync {
  import opened Options
  import ArchiveImport

  type BlockId = nat

  /** An exercise block that takes files of its name. */
  datatype Exercise = Exercise(id: BlockId, filename: string)

  datatype File = File(name: string, text: string)

  /**
   * The repository: the text behind a name, empty where there is none, and its commit; with how names are folded for
   * comparison and stripped for the request, and how a code link is written.
   */
  datatype Repo = Repo(blob: string -> string, commit: string, fold: string -> string, strip: string -> string,
                       link: (string, File) -> string)

  /** What staff wrote about a submission; an absent grade is empty. */
  datatype Review = Review(grade: string, feedback: string, gradedAt: Option<int>, gradedBy: Option<nat>)

  const UNGRADED := Review("", "", None, None)

  /** The latest submission of a block; absent strings are empty. */
  datatype Work = Work(text: string, url: string, commit: string, attempts: int, synced: bool, review: Review)

  datatype Db = Db(works: map<BlockId, Work>, completed: set<BlockId>)

  /** `names.uniq`. */
  function Uniq(names: seq<string>): seq<string>
    decreases |names|
  {
    if names == [] then [] else
      var first, last := Uniq(names[..|names| - 1]), names[|names| - 1];
      if last in first then first else first + [last]
  }

  /** The names asked for: those of the exercises, stripped, once each. */
  function TargetNames(exercises: seq<Exercise>, repo: Repo): seq<string> {
    Uniq(seq(|exercises|, i requires 0 <= i < |exercises| => repo.strip(exercises[i].filename)))
  }

  /** The files that come back: those with something in them. */
  function Fetch(names: seq<string>, repo: Repo): seq<File>
    decreases |names|
  {
    if names == [] then []
    else (if ArchiveImport.IsBlank(repo.blob(names[0])) then [] else [File(names[0], repo.blob(names[0]))]) + Fetch(names[1..], repo)
  }

  function Files(exercises: seq<Exercise>, repo: Repo): seq<File> {
    Fetch(TargetNames(exercises, repo), repo)
  }

  /** The first exercise whose name is the file's, ignoring case. */
  function Match(exercises: seq<Exercise>, repo: Repo, f: File): Option<BlockId>
    decreases |exercises|
  {
    if exercises == [] then None
    else if repo.fold(exercises[0].filename) == repo.fold(f.name) then Some(exercises[0].id)
    else Match(exercises[1..], repo, f)
  }

  /** The block that a file with something in it is for. */
  function Target(exercises: seq<Exercise>, repo: Repo, f: File): Option<BlockId> {
    if ArchiveImport.IsBlank(f.text) then None else Match(exercises, repo, f)
  }

  predicate Passing(grade: string) {
    grade in {"A", "B", "C"}
  }

  function Link(repo: Repo, f: File): string {
    repo.link(if ArchiveImport.IsBlank(repo.commit) then "HEAD" else repo.commit, f)
  }

  /** A code link goes to the commit fetched, or to HEAD where there is none. */
  lemma LinkRefersTo(repo: Repo, f: File, sha: string)
    requires !ArchiveImport.IsBlank(sha)
    ensures Link(repo.(commit := sha), f) == repo.link(sha, f) && Link(repo.(commit := ""), f) == repo.link("HEAD", f)
  {
  }

  /** A changed text counts as a new attempt and loses a grade that is not passing. */
  function Resubmit(w: Work, repo: Repo, f: File): Work {
    Work(f.text, Link(repo, f), repo.commit, w.attempts + 1, true, if Passing(w.review.grade) then w.review else UNGRADED)
  }

  /** One file of the loop: the tables after it and how many submissions it synced. */
  function SyncFile(db: Db, exercises: seq<Exercise>, repo: Repo, f: File): (r: (Db, nat))
    ensures r.1 <= 1
  {
    match Target(exercises, repo, f)
    case None => (db, 0)
    case Some(b) =>
      if b !in db.works then (Db(db.works[b := Work(f.text, Link(repo, f), repo.commit, 1, true, UNGRADED)], db.completed + {b}), 1)
      else if db.works[b].text != f.text then (Db(db.works[b := Resubmit(db.works[b], repo, f)], db.completed + {b}), 1)
      else (db.(works := db.works[b := db.works[b].(url := Link(repo, f), commit := repo.commit)]), 0)
  }

  function Sync(db: Db, exercises: seq<Exercise>, repo: Repo, files: seq<File>): Db
    decreases |files|
  {
    if files == [] then db else Sync(SyncFile(db, exercises, repo, files[0]).0, exercises, repo, files[1..])
  }

  function Synced(db: Db, exercises: seq<Exercise>, repo: Repo, files: seq<File>): nat
    decreases |files|
  {
    if files == [] then 0
    else SyncFile(db, exercises, repo, files[0]).1 + Synced(SyncFile(db, exercises, repo, files[0]).0, exercises, repo, files[1..])
  }

  /** The student's submissions and progress, updated in place. */
  class Student {
    var works: map<BlockId, Work>
    var completed: set<BlockId>

    function Tables(): Db
      reads this
    {
      Db(works, completed)
    }

    method SyncStudent(exercises: seq<Exercise>, repo: Repo) returns (synced: nat)
      modifies this
      ensures Tables() == Sync(old(Tables()), exercises, repo, Files(exercises, repo))
      ensures synced == Synced(old(Tables()), exercises, repo, Files(exercises, repo))
    {
      synced := 0;
      var files := Files(exercises, repo);
      var pending := files;
      while pending != []
        invariant Sync(Tables(), exercises, repo, pending) == Sync(old(Tables()), exercises, repo, files)
        invariant synced + Synced(Tables(), exercises, repo, pending) == Synced(old(Tables()), exercises, repo, files)
        decreases |pending|
      {
        var more := WriteFile(exercises, repo, pending[0]);
        synced, pending := synced + more, pending[1..];
      }
    }

    method WriteFile(exercises: seq<Exercise>, repo: Repo, f: File) returns (synced: nat)
      modifies this
      ensures (Tables(), synced) == SyncFile(old(Tables()), exercises, repo, f)
    {
      var target := Target(exercises, repo, f);
      if target.None? { return 0; }
      var b := target.value;
      if b !in works {
        works, completed := works[b := Work(f.text, Link(repo, f), repo.commit, 1, true, UNGRADED)], completed + {b};
        return 1;
      }
      var existing := works[b];
      if existing.text != f.text {
        works, completed := works[b := Resubmit(existing, repo, f)], completed + {b};
        return 1;
      }
      if existing.commit != repo.commit || existing.url != Link(repo, f) {
        works := works[b := existing.(url := Link(repo, f), commit := repo.commit)];
      } else {
        assert works[b := existing.(url := Link(repo, f), commit := repo.commit)] == works;
      }
      return 0;
    }
  }

  // ---------------------------------------------------------------- what a sync leaves

  /** The last file for a block. */
  function Last(exercises: seq<Exercise>, repo: Repo, files: seq<File>, b: BlockId): Option<File>
    decreases |files|
  {
    if files == [] then None else
      var later := Last(exercises, repo, files[1..], b);
      if later.Some? then later
      else if Target(exercises, repo, files[0]) == Some(b) then Some(files[0])
      else None
  }

  /** A sync leaves the last file of each block with its link and commit, and does not touch other blocks. */
  lemma {:induction false} LastWins(db: Db, exercises: seq<Exercise>, repo: Repo, files: seq<File>, b: BlockId)
    ensures var after := Sync(db, exercises, repo, files);
            match Last(exercises, repo, files, b)
            case None => (b in after.works <==> b in db.works) && (b in db.works ==> after.works[b] == db.works[b])
                         && (b in after.completed <==> b in db.completed)
            case Some(f) => b in after.works && after.works[b].text == f.text && after.works[b].url == Link(repo, f)
                            && after.works[b].commit == repo.commit
    decreases |files|
  {
    if files != [] {
      LastWins(SyncFile(db, exercises, repo, files[0]).0, exercises, repo, files[1..], b);
    }
  }

  /** Nothing is synced exactly when every file already is what is stored for its block. */
  lemma {:induction false} NothingSyncedIff(db: Db, exercises: seq<Exercise>, repo: Repo, files: seq<File>)
    ensures Synced(db, exercises, repo, files) == 0 <==> UpToDate(db, exercises, repo, files)
    decreases |files|
  {
    if files != [] {
      var next := SyncFile(db, exercises, repo, files[0]);
      NothingSyncedIff(next.0, exercises, repo, files[1..]);
      assert files == [files[0]] + files[1..];
      if next.1 == 0 {
        assert files[0] in files;
        SameTexts(db, next.0, exercises, repo, files[1..]);
        assert UpToDate(db, exercises, repo, [files[0]]);
      }
    }
  }

  ghost predicate UpToDate(db: Db, exercises: seq<Exercise>, repo: Repo, files: seq<File>) {
    forall f | f in files && Target(exercises, repo, f).Some? :: Stored(db, Target(exercises, repo, f).value, f.text)
  }

  predicate Stored(db: Db, b: BlockId, text: string) {
    b in db.works && db.works[b].text == text
  }

  lemma SameTexts(a: Db, b: Db, exercises: seq<Exercise>, repo: Repo, files: seq<File>)
    requires forall id, text :: Stored(a, id, text) <==> Stored(b, id, text)
    ensures UpToDate(a, exercises, repo, files) <==> UpToDate(b, exercises, repo, files)
  {
  }

  /** Files for the same block have the same text. */
  ghost predicate TextsAgree(exercises: seq<Exercise>, repo: Repo, files: seq<File>) {
    forall f, g | f in files && g in files && Target(exercises, repo, f).Some? && Target(exercises, repo, f) == Target(exercises, repo, g) ::
      f.text == g.text
  }

  lemma {:induction false} LastIsFile(exercises: seq<Exercise>, repo: Repo, files: seq<File>, b: BlockId)
    ensures match Last(exercises, repo, files, b)
            case None => forall f | f in files :: Target(exercises, repo, f) != Some(b)
            case Some(f) => f in files && Target(exercises, repo, f) == Some(b)
    decreases |files|
  {
    if files != [] {
      LastIsFile(exercises, repo, files[1..], b);
      assert files == [files[0]] + files[1..];
    }
  }

  /** What a second sync of the same repository reports. */
  function SecondCount(db: Db, exercises: seq<Exercise>, repo: Repo): nat {
    Synced(Sync(db, exercises, repo, Files(exercises, repo)), exercises, repo, Files(exercises, repo))
  }

  /** It is 0 if and only if files for the same block have the same text. */
  lemma SecondSyncIff(db: Db, exercises: seq<Exercise>, repo: Repo)
    ensures SecondCount(db, exercises, repo) == 0 <==> TextsAgree(exercises, repo, Files(exercises, repo))
  {
    var files := Files(exercises, repo);
    var once := Sync(db, exercises, repo, files);
    NothingSyncedIff(once, exercises, repo, files);
    forall f | f in files && Target(exercises, repo, f).Some?
      ensures var b := Target(exercises, repo, f).value;
              && Last(exercises, repo, files, b).Some?
              && (Stored(once, b, f.text) <==> f.text == Last(exercises, repo, files, b).value.text)
    {
      LastWins(db, exercises, repo, files, Target(exercises, repo, f).value);
      LastIsFile(exercises, repo, files, Target(exercises, repo, f).value);
    }
    if TextsAgree(exercises, repo, files) {
      forall f | f in files && Target(exercises, repo, f).Some? ensures Stored(once, Target(exercises, repo, f).value, f.text) {
        LastIsFile(exercises, repo, files, Target(exercises, repo, f).value);
      }
    }
  }

  /** Only links and commits change while nothing is synced. */
  lemma {:induction false} UnsyncedKeeps(db: Db, exercises: seq<Exercise>, repo: Repo, files: seq<File>)
    requires Synced(db, exercises, repo, files) == 0
    ensures var after := Sync(db, exercises, repo, files);
            && after.completed == db.completed && after.works.Keys == db.works.Keys
            && forall b | b in db.works :: after.works[b].(url := db.works[b].url, commit := db.works[b].commit) == db.works[b]
    decreases |files|
  {
    if files != [] {
      UnsyncedKeeps(SyncFile(db, exercises, repo, files[0]).0, exercises, repo, files[1..]);
    }
  }

  /** Under the same condition the second sync leaves the tables as they are. */
  lemma SecondSyncUnchanged(db: Db, exercises: seq<Exercise>, repo: Repo)
    requires TextsAgree(exercises, repo, Files(exercises, repo))
    ensures var files := Files(exercises, repo);
            var once := Sync(db, exercises, repo, files);
            Sync(once, exercises, repo, files) == once
  {
    var files := Files(exercises, repo);
    var once := Sync(db, exercises, repo, files);
    var twice := Sync(once, exercises, repo, files);
    SecondSyncIff(db, exercises, repo);
    UnsyncedKeeps(once, exercises, repo, files);
    forall b | b in once.works ensures twice.works[b] == once.works[b] {
      LastWins(db, exercises, repo, files, b);
      LastWins(once, exercises, repo, files, b);
    }
    assert twice.works == once.works;
  }

  // ---------------------------------------------------------------- which exercises can share a block

  lemma {:induction false} UniqIn(names: seq<string>)
    ensures forall n :: n in Uniq(names) <==> n in names
    decreases |names|
  {
    if names != [] {
      UniqIn(names[..|names| - 1]);
      assert names == names[..|names| - 1] + [names[|names| - 1]];
    }
  }

  /** Names are asked for once each, in the order in which they first come up. */
  lemma {:induction false} UniqOrder(a: seq<string>, b: seq<string>)
    ensures Uniq(a) <= Uniq(a + b)
    ensures forall i, j | 0 <= i < j < |Uniq(a + b)| :: Uniq(a + b)[i] != Uniq(a + b)[j]
    decreases |a| + |b|
  {
    var names := a + b;
    if names != [] {
      var init := names[..|names| - 1];
      if b == [] {
        assert names == a && init + [] == init;
        UniqOrder(init, []);
      } else {
        assert init == a + b[..|b| - 1];
        UniqOrder(a, b[..|b| - 1]);
      }
    }
  }

  /** The names of the exercises open now are asked for in their order, once each. */
  lemma NamesOnce(exercises: seq<Exercise>, more: seq<Exercise>, repo: Repo)
    ensures TargetNames(exercises, repo) <= TargetNames(exercises + more, repo)
    ensures var names := TargetNames(exercises + more, repo); forall i, j | 0 <= i < j < |names| :: names[i] != names[j]
  {
    var all := exercises + more;
    var a := seq(|exercises|, i requires 0 <= i < |exercises| => repo.strip(exercises[i].filename));
    var b := seq(|more|, i requires 0 <= i < |more| => repo.strip(more[i].filename));
    assert a + b == seq(|all|, i requires 0 <= i < |all| => repo.strip(all[i].filename));
    UniqOrder(a, b);
  }

  lemma {:induction false} FetchIn(names: seq<string>, repo: Repo)
    ensures forall f :: f in Fetch(names, repo) <==> f.name in names && f.text == repo.blob(f.name) && !ArchiveImport.IsBlank(f.text)
    decreases |names|
  {
    if names != [] {
      FetchIn(names[1..], repo);
      assert names == [names[0]] + names[1..];
    }
  }

  /** The files are the non-blank texts behind the stripped names of the exercises. */
  lemma FilesIn(exercises: seq<Exercise>, repo: Repo, f: File)
    ensures f in Files(exercises, repo) <==>
            && (exists e | e in exercises :: repo.strip(e.filename) == f.name)
            && f.text == repo.blob(f.name) && !ArchiveImport.IsBlank(f.text)
  {
    var names := seq(|exercises|, i requires 0 <= i < |exercises| => repo.strip(exercises[i].filename));
    UniqIn(names);
    FetchIn(TargetNames(exercises, repo), repo);
    if e :| e in exercises && repo.strip(e.filename) == f.name {
      var i :| 0 <= i < |exercises| && exercises[i] == e;
      assert names[i] == f.name;
    }
    if f.name in names {
      var i :| 0 <= i < |names| && names[i] == f.name;
      assert exercises[i] in exercises;
    }
  }

  predicate UniqueIds(exercises: seq<Exercise>) {
    forall i, j | 0 <= i < j < |exercises| :: exercises[i].id != exercises[j].id
  }

  /** Ignoring case, a file is for the exercise it matches; with unique ids only files of one name share a block. */
  lemma {:induction false} MatchName(exercises: seq<Exercise>, repo: Repo, f: File, g: File)
    requires UniqueIds(exercises) && Match(exercises, repo, f).Some? && Match(exercises, repo, f) == Match(exercises, repo, g)
    ensures repo.fold(f.name) == repo.fold(g.name)
    decreases |exercises|
  {
    MatchIn(exercises[1..], repo, f);
    MatchIn(exercises[1..], repo, g);
    var hf, hg := repo.fold(exercises[0].filename) == repo.fold(f.name), repo.fold(exercises[0].filename) == repo.fold(g.name);
    if !hf && !hg {
      MatchName(exercises[1..], repo, f, g);
    }
  }

  /** A file matches if and only if some exercise has its name, ignoring case. */
  lemma {:induction false} MatchIn(exercises: seq<Exercise>, repo: Repo, f: File)
    ensures Match(exercises, repo, f).Some? ==> exists i | 0 <= i < |exercises| :: exercises[i].id == Match(exercises, repo, f).value
    ensures Match(exercises, repo, f).Some? <==> exists e | e in exercises :: repo.fold(e.filename) == repo.fold(f.name)
    decreases |exercises|
  {
    if exercises != [] {
      assert exercises == [exercises[0]] + exercises[1..];
      if repo.fold(exercises[0].filename) != repo.fold(f.name) {
        MatchIn(exercises[1..], repo, f);
        if Match(exercises[1..], repo, f).Some? {
          var i :| 0 <= i < |exercises[1..]| && exercises[1..][i].id == Match(exercises[1..], repo, f).value;
          assert exercises[i + 1].id == Match(exercises, repo, f).value;
        }
      } else {
        assert exercises[0] in exercises && exercises[0].id == Match(exercises, repo, f).value;
      }
    }
  }

  lemma {:induction false} MatchFolds(exercises: seq<Exercise>, repo: Repo, f: File, g: File)
    requires repo.fold(f.name) == repo.fold(g.name)
    ensures Match(exercises, repo, f) == Match(exercises, repo, g)
    decreases |exercises|
  {
    if exercises != [] {
      MatchFolds(exercises[1..], repo, f, g);
    }
  }

  /**
   * No two names asked for differ in case only, unless no exercise has such a name: what a caller can see of the
   * exercises before anything is fetched.
   */
  ghost predicate NamesApart(exercises: seq<Exercise>, repo: Repo) {
    forall d, e, k | d in exercises && e in exercises && k in exercises ::
      repo.strip(d.filename) != repo.strip(e.filename) && repo.fold(repo.strip(d.filename)) == repo.fold(repo.strip(e.filename)) ==>
        repo.fold(k.filename) != repo.fold(repo.strip(d.filename))
  }

  lemma ApartAgree(exercises: seq<Exercise>, repo: Repo)
    requires UniqueIds(exercises) && NamesApart(exercises, repo)
    ensures TextsAgree(exercises, repo, Files(exercises, repo))
  {
    var files := Files(exercises, repo);
    forall f, g | f in files && g in files && Target(exercises, repo, f).Some? && Target(exercises, repo, f) == Target(exercises, repo, g)
      ensures f.text == g.text
    {
      FilesIn(exercises, repo, f);
      FilesIn(exercises, repo, g);
      MatchName(exercises, repo, f, g);
      MatchIn(exercises, repo, f);
    }
  }

  /** A text that tells which name it is behind. */
  function TextOf(name: string): string {
    "x" + name
  }

  lemma TextOfDiffers(name: string, other: string)
    ensures !ArchiveImport.IsBlank(TextOf(name))
    ensures TextOf(name) == TextOf(other) ==> name == other
  {
    assert TextOf(name)[0] == 'x' && !ArchiveImport.IsSpace('x');
    assert TextOf(name)[1..] == name && TextOf(other)[1..] == other;
  }

  /** Two names that share a block, in a repository with different texts behind them: every sync reports them again. */
  lemma SharedBlockDisagrees(db: Db, exercises: seq<Exercise>, repo: Repo, d: Exercise, e: Exercise, k: Exercise)
    requires repo.blob == TextOf && d in exercises && e in exercises && k in exercises
    requires repo.strip(d.filename) != repo.strip(e.filename) && repo.fold(repo.strip(d.filename)) == repo.fold(repo.strip(e.filename))
    requires repo.fold(k.filename) == repo.fold(repo.strip(d.filename))
    ensures SecondCount(db, exercises, repo) > 0
  {
    var m, n := repo.strip(d.filename), repo.strip(e.filename);
    var f, g := File(m, TextOf(m)), File(n, TextOf(n));
    TextOfDiffers(m, n);
    TextOfDiffers(n, m);
    FilesIn(exercises, repo, f);
    FilesIn(exercises, repo, g);
    MatchIn(exercises, repo, f);
    MatchFolds(exercises, repo, f, g);
    assert !TextsAgree(exercises, repo, Files(exercises, repo));
    SecondSyncIff(db, exercises, repo);
  }

  /** Whatever the repository holds, the second sync reports 0: if and only if the exercises' names are apart. */
  lemma SettlesIff(db: Db, exercises: seq<Exercise>, repo: Repo)
    requires UniqueIds(exercises)
    ensures (forall blob: string -> string :: SecondCount(db, exercises, repo.(blob := blob)) == 0) <==> NamesApart(exercises, repo)
  {
    if NamesApart(exercises, repo) {
      forall blob: string -> string ensures SecondCount(db, exercises, repo.(blob := blob)) == 0 {
        var r := repo.(blob := blob);
        assert NamesApart(exercises, r);
        ApartAgree(exercises, r);
        SecondSyncIff(db, exercises, r);
      }
    } else {
      var d, e, k :| d in exercises && e in exercises && k in exercises &&
        repo.strip(d.filename) != repo.strip(e.filename) && repo.fold(repo.strip(d.filename)) == repo.fold(repo.strip(e.filename)) &&
        repo.fold(k.filename) == repo.fold(repo.strip(d.filename));
      SharedBlockDisagrees(db, exercises, repo.(blob := TextOf), d, e, k);
    }
  }

  /** For names that are stripped already it is enough, and needed, that different names also differ ignoring case. */
  lemma StrippedApartIff(exercises: seq<Exercise>, repo: Repo)
    requires forall e | e in exercises :: repo.strip(e.filename) == e.filename
    ensures NamesApart(exercises, repo) <==>
            forall d, e | d in exercises && e in exercises :: d.filename != e.filename ==> repo.fold(d.filename) != repo.fold(e.filename)
  {
    if NamesApart(exercises, repo) {
      forall d, e | d in exercises && e in exercises && d.filename != e.filename ensures repo.fold(d.filename) != repo.fold(e.filename) {
        assert repo.strip(d.filename) != repo.strip(e.filename) && d in exercises;
      }
    }
  }

  /**
   * Two exercises whose names differ in case only, or in case and a trailing space: the second names differ ignoring
   * case, but both are stripped before they are fetched, and the files land on the first block.
   */
  lemma SharedBlockSyncsAgain(db: Db, repo: Repo, second: string)
    requires repo.blob == TextOf && (second == "A.rb" || second == "A.rb ")
    requires repo.strip("a.rb") == "a.rb" && repo.strip("A.rb") == repo.strip("A.rb ") == "A.rb" && repo.fold("a.rb") == repo.fold("A.rb")
    ensures SecondCount(db, [Exercise(1, "a.rb"), Exercise(2, second)], repo) > 0
  {
    var d, e := Exercise(1, "a.rb"), Exercise(2, second);
    assert "a.rb"[0] == 'a' && "A.rb"[0] == 'A';
    SharedBlockDisagrees(db, [d, e], repo, d, e, d);
  }

  // ---------------------------------------------------------------- what a sync does to each block

  /** The texts of the files for a block, in order. */
  function Texts(exercises: seq<Exercise>, repo: Repo, files: seq<File>, b: BlockId): seq<string>
    decreases |files|
  {
    if files == [] then []
    else if Target(exercises, repo, files[0]) == Some(b) then [files[0].text] + Texts(exercises, repo, files[1..], b)
    else Texts(exercises, repo, files[1..], b)
  }

  /** How often the text changes as the texts come in. */
  function Changes(text: string, texts: seq<string>): nat
    decreases |texts|
  {
    if texts == [] then 0 else (if texts[0] != text then 1 else 0) + Changes(texts[0], texts[1..])
  }

  function FinalText(text: string, texts: seq<string>): string {
    if texts == [] then text else texts[|texts| - 1]
  }

  lemma ChangesCons(text: string, first: string, rest: seq<string>)
    ensures Changes(text, [first] + rest) == (if first != text then 1 else 0) + Changes(first, rest)
  {
    assert ([first] + rest)[1..] == rest;
  }

  /** How many of the files for a block are counted as synced. */
  function Gain(db: Db, b: BlockId, texts: seq<string>): nat {
    if b in db.works then Changes(db.works[b].text, texts)
    else if texts == [] then 0 else 1 + Changes(texts[0], texts[1..])
  }

  /** What texts that come in one after another make of a submission and its completion. */
  predicate Became(w: Work, completed: bool, texts: seq<string>, after: Work, completedAfter: bool) {
    var changes := Changes(w.text, texts);
    && after.text == FinalText(w.text, texts)
    && after.attempts == w.attempts + changes
    && (if changes > 0 then Regraded(w.review, after.review) else after.review == w.review)
    && (after.synced <==> changes > 0 || w.synced)
    && (completedAfter <==> changes > 0 || completed)
  }

  lemma BecameThen(w: Work, c: bool, first: string, next: Work, cNext: bool, rest: seq<string>, after: Work, cAfter: bool)
    requires Became(w, c, [first], next, cNext) && Became(next, cNext, rest, after, cAfter)
    ensures Became(w, c, [first] + rest, after, cAfter)
  {
    ChangesCons(w.text, first, rest);
    ChangesCons(w.text, first, []);
    assert [first] + [] == [first];
  }

  lemma FileBecomes(db: Db, exercises: seq<Exercise>, repo: Repo, f: File, b: BlockId)
    requires b in db.works
    ensures var next := SyncFile(db, exercises, repo, f).0;
            && b in next.works
            && (if Target(exercises, repo, f) == Some(b) then Became(db.works[b], b in db.completed, [f.text], next.works[b], b in next.completed)
                else next.works[b] == db.works[b] && (b in next.completed <==> b in db.completed))
  {
    ChangesCons(db.works[b].text, f.text, []);
    assert [f.text] + [] == [f.text];
  }

  /**
   * Every change of its text is one more attempt of a submission and completes it; a grade goes with the first change
   * unless it passes; without a change only link and commit are refreshed.
   */
  lemma {:induction false} SyncPerBlock(db: Db, exercises: seq<Exercise>, repo: Repo, files: seq<File>, b: BlockId)
    requires b in db.works
    ensures var after, texts := Sync(db, exercises, repo, files), Texts(exercises, repo, files, b);
            b in after.works && Became(db.works[b], b in db.completed, texts, after.works[b], b in after.completed)
    decreases |files|
  {
    if files != [] {
      var next, rest := SyncFile(db, exercises, repo, files[0]).0, Texts(exercises, repo, files[1..], b);
      FileBecomes(db, exercises, repo, files[0], b);
      SyncPerBlock(next, exercises, repo, files[1..], b);
      if Target(exercises, repo, files[0]) == Some(b) {
        var after := Sync(db, exercises, repo, files);
        BecameThen(db.works[b], b in db.completed, files[0].text, next.works[b], b in next.completed, rest, after.works[b], b in after.completed);
      }
    }
  }

  /** A block without a submission gets one, ungraded and completed, exactly when some file is for it. */
  lemma {:induction false} SyncCreates(db: Db, exercises: seq<Exercise>, repo: Repo, files: seq<File>, b: BlockId)
    requires b !in db.works
    ensures var after, texts := Sync(db, exercises, repo, files), Texts(exercises, repo, files, b);
            if texts == [] then b !in after.works && (b in after.completed <==> b in db.completed)
            else b in after.works && after.works[b].attempts == Gain(db, b, texts) && after.works[b].synced
                 && Blank(after.works[b].review) && b in after.completed
    decreases |files|
  {
    if files != [] {
      var next := SyncFile(db, exercises, repo, files[0]).0;
      if Target(exercises, repo, files[0]) == Some(b) {
        assert ([files[0].text] + Texts(exercises, repo, files[1..], b))[1..] == Texts(exercises, repo, files[1..], b);
        SyncPerBlock(next, exercises, repo, files[1..], b);
      } else {
        SyncCreates(next, exercises, repo, files[1..], b);
      }
    }
  }

  /** Where the texts for a block agree, its attempts rise by one exactly when the stored text changes, and else stay. */
  lemma {:induction false} AgreeingChanges(text: string, texts: seq<string>)
    requires forall i, j | 0 <= i < j < |texts| :: texts[i] == texts[j]
    ensures Changes(text, texts) == if texts != [] && texts[|texts| - 1] != text then 1 else 0
    decreases |texts|
  {
    if |texts| > 1 {
      AgreeingChanges(texts[0], texts[1..]);
    }
  }

  lemma {:induction false} TextsIn(exercises: seq<Exercise>, repo: Repo, files: seq<File>, b: BlockId)
    ensures forall t | t in Texts(exercises, repo, files, b) :: exists f | f in files :: Target(exercises, repo, f) == Some(b) && f.text == t
    decreases |files|
  {
    if files != [] {
      TextsIn(exercises, repo, files[1..], b);
      assert files == [files[0]] + files[1..];
      forall t | t in Texts(exercises, repo, files, b)
        ensures exists f | f in files :: Target(exercises, repo, f) == Some(b) && f.text == t
      {
        if t in Texts(exercises, repo, files[1..], b) {
          var f :| f in files[1..] && Target(exercises, repo, f) == Some(b) && f.text == t;
          assert f in files;
        } else {
          assert files[0] in files && files[0].text == t;
        }
      }
    }
  }

  /** When files for the same block agree, a sync raises the attempts by one exactly when it changes the stored text. */
  lemma OnePerSync(db: Db, exercises: seq<Exercise>, repo: Repo, files: seq<File>, b: BlockId)
    requires TextsAgree(exercises, repo, files) && b in db.works
    ensures var after, w := Sync(db, exercises, repo, files), db.works[b];
            b in after.works && after.works[b].attempts == w.attempts + if after.works[b].text != w.text then 1 else 0
  {
    var texts := Texts(exercises, repo, files, b);
    TextsIn(exercises, repo, files, b);
    forall i, j | 0 <= i < j < |texts| ensures texts[i] == texts[j] {
      assert texts[i] in texts && texts[j] in texts;
    }
    AgreeingChanges(db.works[b].text, texts);
    SyncPerBlock(db, exercises, repo, files, b);
  }

  function Total(db: Db, exercises: seq<Exercise>, repo: Repo, files: seq<File>, ids: seq<Exercise>): nat
    decreases |ids|
  {
    if ids == [] then 0
    else Gain(db, ids[0].id, Texts(exercises, repo, files, ids[0].id)) + Total(db, exercises, repo, files, ids[1..])
  }

  lemma GainStep(db: Db, exercises: seq<Exercise>, repo: Repo, files: seq<File>, b: BlockId)
    requires files != []
    ensures var next := SyncFile(db, exercises, repo, files[0]);
            Gain(db, b, Texts(exercises, repo, files, b)) ==
            Gain(next.0, b, Texts(exercises, repo, files[1..], b)) + if Target(exercises, repo, files[0]) == Some(b) then next.1 else 0
  {
    GainOf(db, exercises, repo, files[0], b, Texts(exercises, repo, files[1..], b));
  }

  lemma GainOf(db: Db, exercises: seq<Exercise>, repo: Repo, f: File, b: BlockId, rest: seq<string>)
    ensures var next := SyncFile(db, exercises, repo, f);
            if Target(exercises, repo, f) == Some(b) then Gain(db, b, [f.text] + rest) == Gain(next.0, b, rest) + next.1
            else Gain(db, b, rest) == Gain(next.0, b, rest)
  {
    assert ([f.text] + rest)[1..] == rest;
    if b in db.works { ChangesCons(db.works[b].text, f.text, rest); }
  }

  lemma {:induction false} TotalStep(db: Db, exercises: seq<Exercise>, repo: Repo, files: seq<File>, ids: seq<Exercise>)
    requires files != [] && UniqueIds(ids)
    ensures var next := SyncFile(db, exercises, repo, files[0]);
            Total(db, exercises, repo, files, ids) == Total(next.0, exercises, repo, files[1..], ids) +
            if exists i | 0 <= i < |ids| :: Target(exercises, repo, files[0]) == Some(ids[i].id) then next.1 else 0
    decreases |ids|
  {
    if ids != [] {
      var target := Target(exercises, repo, files[0]);
      GainStep(db, exercises, repo, files, ids[0].id);
      TotalStep(db, exercises, repo, files, ids[1..]);
      forall i | 0 <= i < |ids| - 1 ensures ids[1..][i] == ids[i + 1] && ids[0].id != ids[i + 1].id {
      }
      assert (exists i | 0 <= i < |ids| :: target == Some(ids[i].id)) <==>
             target == Some(ids[0].id) || exists i | 0 <= i < |ids[1..]| :: target == Some(ids[1..][i].id) by {
        if i :| 0 <= i < |ids| && target == Some(ids[i].id) && i > 0 { assert target == Some(ids[1..][i - 1].id); }
      }
    }
  }

  /** The reported count is the number of attempts that the exercises gain. */
  lemma {:induction false} SyncedCounts(db: Db, exercises: seq<Exercise>, repo: Repo, files: seq<File>)
    requires UniqueIds(exercises)
    ensures Synced(db, exercises, repo, files) == Total(db, exercises, repo, files, exercises)
    decreases |files|
  {
    if files == [] {
      NothingGained(db, exercises, repo, exercises);
    } else {
      TotalStep(db, exercises, repo, files, exercises);
      MatchIn(exercises, repo, files[0]);
      SyncedCounts(SyncFile(db, exercises, repo, files[0]).0, exercises, repo, files[1..]);
    }
  }

  lemma {:induction false} NothingGained(db: Db, exercises: seq<Exercise>, repo: Repo, ids: seq<Exercise>)
    ensures Total(db, exercises, repo, [], ids) == 0
    decreases |ids|
  {
    if ids != [] {
      NothingGained(db, exercises, repo, ids[1..]);
    }
  }

  // ---------------------------------------------------------------- over any run of syncs

  /** Any number of syncs one after another, each with the exercises then open and the repository then fetched. */
  function Syncs(db: Db, runs: seq<(seq<Exercise>, Repo)>): Db
    decreases |runs|
  {
    if runs == [] then db else Syncs(Sync(db, runs[0].0, runs[0].1, Files(runs[0].0, runs[0].1)), runs[1..])
  }

  /** What one version of a submission may become. */
  predicate Grows(before: Work, after: Work) {
    && before.attempts <= after.attempts
    && (before.attempts == after.attempts ==> after.text == before.text && after.synced == before.synced && after.review == before.review)
    && (before.attempts < after.attempts ==> after.synced && Regraded(before.review, after.review))
  }

  /** What a changed text makes of a review: A, B and C stay with all that was written, any other grade goes with it. */
  predicate Regraded(before: Review, after: Review) {
    if before.grade == "A" || before.grade == "B" || before.grade == "C" then after == before
    else Blank(after)
  }

  /** No grade, no feedback, no time and no grader. */
  predicate Blank(r: Review) {
    r.grade == "" && r.feedback == "" && r.gradedAt.None? && r.gradedBy.None?
  }

  predicate AllGrow(before: Db, after: Db) {
    && before.completed <= after.completed
    && (forall b | b in before.works :: b in after.works && Grows(before.works[b], after.works[b]))
    && (forall b | b in after.works && b !in before.works :: b in after.completed && after.works[b].synced && Blank(after.works[b].review))
  }

  lemma {:induction false} SyncGrows(db: Db, exercises: seq<Exercise>, repo: Repo, files: seq<File>)
    ensures AllGrow(db, Sync(db, exercises, repo, files))
    decreases |files|
  {
    if files != [] {
      var next := SyncFile(db, exercises, repo, files[0]).0;
      assert AllGrow(db, next);
      SyncGrows(next, exercises, repo, files[1..]);
    }
  }

  /** No run of syncs clears a passing grade, loses work, or changes a text without counting an attempt. */
  lemma {:induction false} RunsGrow(db: Db, runs: seq<(seq<Exercise>, Repo)>)
    ensures AllGrow(db, Syncs(db, runs))
    decreases |runs|
  {
    if runs != [] {
      var next := Sync(db, runs[0].0, runs[0].1, Files(runs[0].0, runs[0].1));
      SyncGrows(db, runs[0].0, runs[0].1, Files(runs[0].0, runs[0].1));
      RunsGrow(next, runs[1..]);
    }
  }
}
