/** The merge tripwire: which categories a change touches, the downgrade of clean migrations, the decision. */
module Tripwire {
  import opened Text
  import opened GlobRegex

  datatype Category = Category(name: string, reason: string, globs: seq<string>)

  datatype Match = Match(category: string, reason: string, files: seq<string>)

  datatype Note = Note(downgraded: bool, verdicts: map<string, bool>)

  const MIGRATIONS: string := "db_migrations"

  /** Category names are keys of one mapping. */
  ghost predicate DistinctNames(categories: seq<Category>) {
    forall i, j :: 0 <= i < j < |categories| ==> categories[i].name != categories[j].name
  }

  /** Some compiled glob of the category matches the file from its start. */
  ghost predicate Hits(c: Category, file: string) {
    exists g :: g in c.globs && MatchTokens(Anchored(g), file)
  }

  // ---------------------------------------------------------------- sorted(set(...))

  predicate StrLess(a: string, b: string) {
    if b == "" then false
    else if a == "" then true
    else a[0] < b[0] || (a[0] == b[0] && StrLess(a[1..], b[1..]))
  }

  lemma {:induction false} StrLessTotal(a: string, b: string)
    ensures a == b || StrLess(a, b) || StrLess(b, a)
    ensures !(StrLess(a, b) && StrLess(b, a)) && !StrLess(a, a)
  {
    if a != "" {
      if b != "" && a[0] == b[0] {
        StrLessTotal(a[1..], b[1..]);
        assert a == [a[0]] + a[1..] && b == [b[0]] + b[1..];
      }
      StrLessTotal(a[1..], a[1..]);
    }
  }

  lemma {:induction false} StrLessTransitive(a: string, b: string, c: string)
    requires StrLess(a, b) && StrLess(b, c)
    ensures StrLess(a, c)
  {
    if a != "" && a[0] == b[0] == c[0] {
      StrLessTransitive(a[1..], b[1..], c[1..]);
    }
  }

  ghost predicate Ascending(files: seq<string>) {
    forall i, j :: 0 <= i < j < |files| ==> StrLess(files[i], files[j])
  }

  /** Put a file at its place in an ascending list, unless it is there. */
  function InsertFile(f: string, files: seq<string>): seq<string> {
    if files == [] then [f]
    else if files[0] == f then files
    else if StrLess(f, files[0]) then [f] + files
    else [files[0]] + InsertFile(f, files[1..])
  }

  lemma {:induction false} InsertKeepsAscending(f: string, files: seq<string>)
    requires Ascending(files)
    ensures Ascending(InsertFile(f, files))
    ensures forall x :: x in InsertFile(f, files) <==> x == f || x in files
  {
    if files == [] {
    } else if files[0] == f {
    } else if StrLess(f, files[0]) {
      forall i | 0 < i < |files| ensures StrLess(f, files[i]) {
        StrLessTransitive(f, files[0], files[i]);
      }
    } else {
      InsertKeepsAscending(f, files[1..]);
      StrLessTotal(f, files[0]);
      var rest := InsertFile(f, files[1..]);
      forall x | x in rest ensures StrLess(files[0], x) {
        if x != f {
          var i :| 0 <= i < |files[1..]| && files[1..][i] == x;
          assert files[i + 1] == x;
        }
      }
      assert files == [files[0]] + files[1..];
    }
  }

  // ---------------------------------------------------------------- the classifier

  /** The matches a change must produce: one per hit category, in order, with exactly the hit files. */
  ghost predicate Reports(files: seq<string>, categories: seq<Category>, matches: seq<Match>) {
    if categories == [] then matches == []
    else
      var init, c := categories[..|categories| - 1], categories[|categories| - 1];
      if exists f :: f in files && Hits(c, f) then
        matches != [] && Reports(files, init, matches[..|matches| - 1]) && ReportsHits(files, c, matches[|matches| - 1])
      else Reports(files, init, matches)
  }

  ghost predicate ReportsHits(files: seq<string>, c: Category, m: Match) {
    && m.category == c.name && m.reason == c.reason && m.files != [] && Ascending(m.files)
    && forall f :: f in m.files <==> f in files && Hits(c, f)
  }

  /** What the content check says of each migration file; a file that cannot be read is not clean. */
  type Verdicts = string -> bool

  class Classifier {
    var matches: seq<Match>

    constructor ()
      ensures matches == []
    {
      matches := [];
    }

    /** One category after the other; the regex engine decides each match. */
    method Classify(files: seq<string>, categories: seq<Category>, accepts: (string, string) -> bool)
      requires forall g, f :: accepts(g, f) <==> MatchTokens(Anchored(g), f)
      modifies this
      ensures Reports(files, categories, matches)
    {
      matches := [];
      assert categories[..0] == [];
      for i := 0 to |categories|
        invariant Reports(files, categories[..i], matches)
      {
        var c := categories[i];
        var hit := HitFiles(files, c, accepts);
        assert categories[..i + 1][..i] == categories[..i];
        if hit != [] {
          assert hit[0] in hit;
          ghost var before := matches;
          matches := matches + [Match(c.name, c.reason, hit)];
          assert matches[..|matches| - 1] == before;
        }
      }
      assert categories[..|categories|] == categories;
    }

    method HitFiles(files: seq<string>, c: Category, accepts: (string, string) -> bool) returns (hit: seq<string>)
      requires forall g, f :: accepts(g, f) <==> MatchTokens(Anchored(g), f)
      ensures Ascending(hit) && forall f :: f in hit <==> f in files && Hits(c, f)
    {
      hit := [];
      for i := 0 to |files|
        invariant Ascending(hit) && forall f :: f in hit <==> f in files[..i] && Hits(c, f)
      {
        var f := files[i];
        if exists g | g in c.globs :: accepts(g, f) {
          InsertKeepsAscending(f, hit);
          hit := InsertFile(f, hit);
        }
        assert files[..i + 1] == files[..i] + [f];
      }
      assert files[..|files|] == files;
    }

    /** The content check of every file of one match. */
    method Inspect(files: seq<string>, clean: Verdicts) returns (verdicts: map<string, bool>)
      ensures verdicts == map f | f in files :: clean(f)
    {
      verdicts := map[];
      for i := 0 to |files|
        invariant verdicts == map f | f in files[..i] :: clean(f)
      {
        verdicts := verdicts[files[i] := clean(files[i])];
        assert files[..i + 1] == files[..i] + [files[i]];
      }
      assert files[..|files|] == files;
    }

    /** Drop the migrations category when every one of its files is a pure creation. */
    method ApplyMigrationDowngrade(clean: Verdicts) returns (note: Option<Note>)
      modifies this
      ensures matches == Downgraded(old(matches), clean)
      ensures note == ContentNote(old(matches), clean)
    {
      var k := 0;
      while k < |matches| && matches[k].category != MIGRATIONS
        invariant k <= |matches| && forall i :: 0 <= i < k ==> matches[i].category != MIGRATIONS
        modifies {}
      {
        k := k + 1;
      }
      FirstMigrationsAt(matches, k);
      if k == |matches| {
        return None;
      }
      var files := matches[k].files;
      var verdicts := Inspect(files, clean);
      VerdictsSay(files, clean, verdicts);
      hide AllClean;
      if verdicts != map[] && (forall f | f in verdicts :: verdicts[f]) {
        matches := matches[..k] + matches[k + 1..];
        return Some(Note(true, verdicts));
      }
      if exists f | f in verdicts :: verdicts[f] {
        return Some(Note(false, verdicts));
      }
      note := None;
    }
  }

  lemma VerdictsSay(files: seq<string>, clean: Verdicts, verdicts: map<string, bool>)
    requires verdicts == map f | f in files :: clean(f)
    ensures AllClean(files, clean) <==> verdicts != map[] && forall f :: f in verdicts ==> verdicts[f]
    ensures (exists f :: f in verdicts && verdicts[f]) <==> exists f :: f in files && clean(f)
  {
    assert forall f :: f in verdicts <==> f in files;
    if files != [] {
      assert files[0] in verdicts;
    }
  }

  function FirstMigrations(matches: seq<Match>): (k: nat)
    ensures k <= |matches|
  {
    if matches == [] || matches[0].category == MIGRATIONS then 0 else 1 + FirstMigrations(matches[1..])
  }

  lemma {:induction false} FirstMigrationsAt(matches: seq<Match>, k: nat)
    requires k <= |matches| && forall i :: 0 <= i < k ==> matches[i].category != MIGRATIONS
    requires k < |matches| ==> matches[k].category == MIGRATIONS
    ensures FirstMigrations(matches) == k
  {
    if k > 0 {
      FirstMigrationsAt(matches[1..], k - 1);
    }
  }

  predicate AllClean(files: seq<string>, clean: Verdicts) {
    files != [] && forall f | f in files :: clean(f)
  }

  function Downgraded(matches: seq<Match>, clean: Verdicts): seq<Match> {
    var k := FirstMigrations(matches);
    if k < |matches| && AllClean(matches[k].files, clean) then matches[..k] + matches[k + 1..] else matches
  }

  /** The verdict's note: nothing unless some migration is clean; then each file's verdict. */
  function ContentNote(matches: seq<Match>, clean: Verdicts): Option<Note> {
    var k := FirstMigrations(matches);
    if k == |matches| || forall f | f in matches[k].files :: !clean(f) then None
    else Some(Note(AllClean(matches[k].files, clean), map f | f in matches[k].files :: clean(f)))
  }

  // ---------------------------------------------------------------- the decision

  const PAUSE_AND_ACK: int := 10
  const AUTO_MERGE: int := 0

  function ExitCode(matches: seq<Match>): int {
    if matches != [] then PAUSE_AND_ACK else AUTO_MERGE
  }

  /** A change trips when one of its files hits a category and is not a clean migration of the migrations category. */
  ghost predicate Trips(files: seq<string>, categories: seq<Category>, clean: Verdicts) {
    exists c, f :: c in categories && f in files && Hits(c, f) && (c.name == "db_migrations" ==> !clean(f))
  }

  ghost predicate ReportsOne(files: seq<string>, categories: seq<Category>, m: Match) {
    exists c :: c in categories && ReportsHits(files, c, m)
  }

  lemma InitCategories(categories: seq<Category>)
    requires DistinctNames(categories) && categories != []
    ensures var init, c := categories[..|categories| - 1], categories[|categories| - 1];
            && DistinctNames(init) && (forall x :: x in categories <==> x in init || x == c)
            && forall x :: x in init ==> x.name != c.name
  {
    var init, c := categories[..|categories| - 1], categories[|categories| - 1];
    assert categories == init + [c];
    forall x | x in init ensures x.name != c.name {
      var j :| 0 <= j < |init| && init[j] == x;
      assert categories[j] == x;
    }
  }

  /** Every match reports a category of the list. */
  lemma {:induction false} MatchesComeFrom(files: seq<string>, categories: seq<Category>, matches: seq<Match>)
    requires Reports(files, categories, matches) && DistinctNames(categories)
    ensures forall m :: m in matches ==> ReportsOne(files, categories, m)
    ensures forall i, j :: 0 <= i < j < |matches| ==> matches[i].category != matches[j].category
  {
    if categories != [] {
      var init, c := categories[..|categories| - 1], categories[|categories| - 1];
      InitCategories(categories);
      if exists f :: f in files && Hits(c, f) {
        var rest, m := matches[..|matches| - 1], matches[|matches| - 1];
        assert matches == rest + [m];
        MatchesComeFrom(files, init, rest);
        assert ReportsOne(files, categories, m);
        forall x | x in rest ensures ReportsOne(files, categories, x) && x.category != m.category {
          assert ReportsOne(files, init, x);
        }
      } else {
        MatchesComeFrom(files, init, matches);
        forall x | x in matches ensures ReportsOne(files, categories, x) {
          assert ReportsOne(files, init, x);
        }
      }
    }
  }

  /** Every hit category is reported. */
  lemma {:induction false} HitsAreReported(files: seq<string>, categories: seq<Category>, matches: seq<Match>,
                                           c: Category, f: string)
    requires Reports(files, categories, matches) && c in categories && f in files && Hits(c, f)
    ensures exists m :: m in matches && ReportsHits(files, c, m)
  {
    var init, last := categories[..|categories| - 1], categories[|categories| - 1];
    assert categories == init + [last];
    if exists g :: g in files && Hits(last, g) {
      var rest, m := matches[..|matches| - 1], matches[|matches| - 1];
      assert matches == rest + [m];
      if c == last {
        assert ReportsHits(files, c, m);
      } else {
        HitsAreReported(files, init, rest, c, f);
      }
    } else {
      HitsAreReported(files, init, matches, c, f);
    }
  }

  /** The decision, for every change: pause exactly when the change trips. */
  lemma PausesIffTrips(files: seq<string>, categories: seq<Category>, matches: seq<Match>, clean: Verdicts)
    requires Reports(files, categories, matches) && DistinctNames(categories)
    ensures ExitCode(Downgraded(matches, clean)) == if Trips(files, categories, clean) then 10 else 0
  {
    MatchesComeFrom(files, categories, matches);
    var left := Downgraded(matches, clean);
    MigrationsPosition(matches);
    if left != [] {
      var m := left[0];
      assert m in matches;
      assert ReportsOne(files, categories, m);
      var c :| c in categories && ReportsHits(files, c, m);
      var f := if c.name == MIGRATIONS && !AllClean(m.files, clean) then
                 var f :| f in m.files && !clean(f); f
               else m.files[0];
      assert f in m.files && Hits(c, f);
    }
    if Trips(files, categories, clean) {
      var c, f :| c in categories && f in files && Hits(c, f) && (c.name == MIGRATIONS ==> !clean(f));
      HitsAreReported(files, categories, matches, c, f);
      var m :| m in matches && ReportsHits(files, c, m);
      assert f in m.files;
      assert m in left;
    }
  }

  lemma {:induction false} MigrationsPosition(matches: seq<Match>)
    requires forall i, j :: 0 <= i < j < |matches| ==> matches[i].category != matches[j].category
    ensures var k := FirstMigrations(matches);
            && (k < |matches| ==> matches[k].category == MIGRATIONS)
            && forall i :: 0 <= i < |matches| && i != k ==> matches[i].category != MIGRATIONS
  {
    if matches != [] && matches[0].category != MIGRATIONS {
      MigrationsPosition(matches[1..]);
      assert matches == [matches[0]] + matches[1..];
    }
  }

  /** The match is one of migrations, all of whose files are pure creations. */
  ghost predicate CleanMigrations(m: Match, clean: Verdicts) {
    m.category == "db_migrations" && m.files != [] && forall f :: f in m.files ==> clean(f)
  }

  /** These are the matches before a match of clean migrations, it, and those after it,
      and the downgrade takes it out. */
  ghost predicate Drops(matches: seq<Match>, clean: Verdicts, a: seq<Match>, m: Match, b: seq<Match>) {
    && matches == a + [m] + b && CleanMigrations(m, clean) && Downgraded(matches, clean) == a + b
    && forall x :: x in a + b ==> x.category != "db_migrations"
  }

  /** The downgrade takes out the one match of clean migrations and leaves the others as they are; without such a match
      it leaves them all. */
  lemma DowngradeDropsOne(files: seq<string>, categories: seq<Category>, matches: seq<Match>, clean: Verdicts)
    requires Reports(files, categories, matches) && DistinctNames(categories)
    ensures || (Downgraded(matches, clean) == matches && forall m :: m in matches ==> !CleanMigrations(m, clean))
            || exists a, m, b :: Drops(matches, clean, a, m, b)
  {
    hide Reports, ReportsOne, DistinctNames, FirstMigrations, AllClean, CleanMigrations;
    MatchesComeFrom(files, categories, matches);
    MigrationsPosition(matches);
    var k := FirstMigrations(matches);
    forall m | m in matches ensures CleanMigrations(m, clean) ==> k < |matches| && m == matches[k] {
      var i :| 0 <= i < |matches| && matches[i] == m;
      CleanIs(m, clean);
    }
    if k < |matches| {
      CleanIs(matches[k], clean);
      if AllClean(matches[k].files, clean) {
        LeftAround(matches, k);
        assert Drops(matches, clean, matches[..k], matches[k], matches[k + 1..]);
      }
    }
  }

  lemma CleanIs(m: Match, clean: Verdicts)
    ensures CleanMigrations(m, clean) <==> m.category == "db_migrations" && AllClean(m.files, clean)
  {
  }

  lemma LeftAround(matches: seq<Match>, k: nat)
    requires k < |matches| && forall i :: 0 <= i < |matches| && i != k ==> matches[i].category != "db_migrations"
    ensures matches == matches[..k] + [matches[k]] + matches[k + 1..]
    ensures forall x :: x in matches[..k] + matches[k + 1..] ==> x.category != "db_migrations"
  {
    var left := matches[..k] + matches[k + 1..];
    forall x | x in left ensures x.category != "db_migrations" {
      var i :| 0 <= i < |left| && left[i] == x;
      assert x == matches[if i < k then i else i + 1];
    }
  }

  /** What the note says of a match of migrations: every file's verdict, and whether all are clean. */
  ghost predicate Notes(m: Match, clean: Verdicts, note: Note) {
    && note.verdicts.Keys == (set f | f in m.files) && (forall f :: f in m.files ==> note.verdicts[f] == clean(f))
    && (note.downgraded <==> CleanMigrations(m, clean))
  }

  /** There is a note exactly when some file of the migrations is clean, and it says each file's verdict. */
  lemma NoteTells(files: seq<string>, categories: seq<Category>, matches: seq<Match>, clean: Verdicts)
    requires Reports(files, categories, matches) && DistinctNames(categories)
    ensures ContentNote(matches, clean) == None <==>
              forall m: Match, f :: m in matches && m.category == "db_migrations" && f in m.files ==> !clean(f)
    ensures ContentNote(matches, clean).Some? ==>
              forall m: Match :: m in matches && m.category == "db_migrations" ==>
                Notes(m, clean, ContentNote(matches, clean).value)
  {
    MatchesComeFrom(files, categories, matches);
    MigrationsPosition(matches);
    hide Reports, ReportsOne, DistinctNames;
    var k := FirstMigrations(matches);
    forall m: Match | m in matches && m.category == "db_migrations" ensures k < |matches| && m == matches[k] {
      var i :| 0 <= i < |matches| && matches[i] == m;
    }
    if k < |matches| {
      assert matches[k] in matches;
    }
  }

  /** One text comes before another: where they first differ its character is smaller, or it ends there. */
  ghost predicate Precedes(a: string, b: string) {
    exists n :: DiffersAt(a, b, n)
  }

  ghost predicate DiffersAt(a: string, b: string, n: int) {
    0 <= n < |b| && n <= |a| && (forall i :: 0 <= i < n ==> a[i] == b[i]) && (n == |a| || a[n] < b[n])
  }

  lemma DiffersLater(a: string, b: string, n: int)
    requires a != "" && b != "" && a[0] == b[0]
    ensures DiffersAt(a[1..], b[1..], n) ==> DiffersAt(a, b, n + 1)
    ensures DiffersAt(a, b, n) ==> DiffersAt(a[1..], b[1..], n - 1)
  {
  }

  lemma {:induction false} StrLessIs(a: string, b: string)
    ensures StrLess(a, b) <==> Precedes(a, b)
  {
    if a != "" && b != "" && a[0] == b[0] {
      StrLessIs(a[1..], b[1..]);
      hide DiffersAt;
      if n :| DiffersAt(a[1..], b[1..], n) {
        DiffersLater(a, b, n);
      }
      if n :| DiffersAt(a, b, n) {
        DiffersLater(a, b, n);
      }
    } else if b != "" && (a == "" || a[0] < b[0]) {
      assert DiffersAt(a, b, 0);
    }
  }

  /** The hit files of a report come in increasing order of their characters. */
  lemma ReportedInOrder(files: seq<string>, c: Category, m: Match, i: nat, j: nat)
    requires ReportsHits(files, c, m) && i < j < |m.files|
    ensures Precedes(m.files[i], m.files[j])
  {
    StrLessIs(m.files[i], m.files[j]);
  }

  /** Adding files to a change never turns a pause into a merge. */
  lemma MoreFilesStayPaused(files: seq<string>, more: seq<string>, categories: seq<Category>, matches: seq<Match>,
                            matches': seq<Match>, clean: Verdicts)
    requires DistinctNames(categories) && (forall f :: f in files ==> f in more)
    requires Reports(files, categories, matches) && Reports(more, categories, matches')
    ensures ExitCode(Downgraded(matches, clean)) == 10 ==> ExitCode(Downgraded(matches', clean)) == 10
  {
    PausesIffTrips(files, categories, matches, clean);
    PausesIffTrips(more, categories, matches', clean);
  }
}
