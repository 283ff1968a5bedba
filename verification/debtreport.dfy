/** The technical-debt report: findings tallied per rule, directory and file in mutable maps, ranked,
    capped, and graded, without anything getting lost. */
module DebtReport {
  import opened Text
  import opened Verdicts
  import opened Sorting

  datatype FileFinding = FileFinding(
    file: string, line: int, rule: string, severity: Severity, message: string, excerpt: string)

  datatype ScanResult = ScanResult(root: string, filesScanned: int, filesSkipped: int, findings: seq<FileFinding>)

  datatype RuleStat = RuleStat(rule: string, severity: Severity, count: nat)

  /** The aggregate of one directory or one file. */
  datatype Stat = Stat(name: string, blocking: nat, warnings: nat, infos: nat, weighted: nat)

  datatype Grade = NoGrade | A | B | C | D | F

  datatype Report = Report(
    root: string, filesScanned: int, filesSkipped: int, total: nat, blocking: nat, warnings: nat, infos: nat,
    affectedFiles: nat, debtScore: real, grade: Grade, byRule: seq<RuleStat>, byDir: seq<Stat>, topFiles: seq<Stat>,
    findings: seq<FileFinding>, truncated: nat)

  const WEIGHT_BLOCKING := 5
  const WEIGHT_WARNING := 2
  const WEIGHT_INFO := 1
  const MAX_DETAIL := 200
  const MAX_DIRS := 15
  const MAX_FILES := 10
  const MIN_SAMPLE := 10
  const OTHER_DIRS := "(other directories)"

  /** An unknown severity weighs like a warning. */
  function WeightOf(s: Severity): nat {
    match s
    case Blocking => WEIGHT_BLOCKING
    case Info => WEIGHT_INFO
    case _ => WEIGHT_WARNING
  }

  function SeverityRank(s: Severity): nat {
    match s
    case Blocking => 3
    case Info => 1
    case _ => 2
  }

  // ----- Tallies

  /** Counts one finding; an unknown severity is counted with the infos. */
  function Add(s: Stat, f: FileFinding): Stat {
    var s' := s.(weighted := s.weighted + WeightOf(f.severity));
    match f.severity
    case Blocking => s'.(blocking := s.blocking + 1)
    case Warning => s'.(warnings := s.warnings + 1)
    case _ => s'.(infos := s.infos + 1)
  }

  function Plus(a: Stat, b: Stat): Stat {
    Stat(a.name, a.blocking + b.blocking, a.warnings + b.warnings, a.infos + b.infos, a.weighted + b.weighted)
  }

  function Zero(name: string): Stat {
    Stat(name, 0, 0, 0, 0)
  }

  function Sum(name: string, rows: seq<Stat>): Stat {
    if rows == [] then Zero(name) else Plus(Sum(name, rows[..|rows| - 1]), rows[|rows| - 1])
  }

  /** The tally of all findings. */
  function Totals(fs: seq<FileFinding>): Stat {
    if fs == [] then Zero("") else Add(Totals(fs[..|fs| - 1]), fs[|fs| - 1])
  }

  type Key = FileFinding -> string

  /** The tally of the findings with the given key. */
  function StatOf(key: Key, fs: seq<FileFinding>, name: string): Stat {
    if fs == [] then Zero(name)
    else
      var s := StatOf(key, fs[..|fs| - 1], name);
      if key(fs[|fs| - 1]) == name then Add(s, fs[|fs| - 1]) else s
  }

  function Keys(key: Key, fs: seq<FileFinding>): set<string> {
    set f | f in fs :: key(f)
  }

  function Items(s: Stat): nat {
    s.blocking + s.warnings + s.infos
  }

  function Rows(key: Key, fs: seq<FileFinding>, names: seq<string>): (rows: seq<Stat>)
    ensures |rows| == |names| && forall i | 0 <= i < |names| :: rows[i] == StatOf(key, fs, names[i])
  {
    if names == [] then [] else Rows(key, fs, names[..|names| - 1]) + [StatOf(key, fs, names[|names| - 1])]
  }

  lemma AddMoves(a: Stat, b: Stat, f: FileFinding)
    ensures Add(Plus(a, b), f) == Plus(Add(a, f), b) == Plus(a, Add(b, f))
  {
  }

  lemma StatGrows(key: Key, fs: seq<FileFinding>, f: FileFinding, name: string)
    ensures StatOf(key, fs + [f], name) ==
            if key(f) == name then Add(StatOf(key, fs, name), f) else StatOf(key, fs, name)
  {
    assert (fs + [f])[..|fs|] == fs;
  }

  lemma RowsOneMore(key: Key, fs: seq<FileFinding>, names: seq<string>)
    requires names != []
    ensures var init := names[..|names| - 1];
      Sum("", Rows(key, fs, names)) == Plus(Sum("", Rows(key, fs, init)), StatOf(key, fs, names[|names| - 1]))
  {
    var rows := Rows(key, fs, names);
    assert rows[..|rows| - 1] == Rows(key, fs, names[..|names| - 1]);
  }

  /** One more finding counts once, in the row of its key. */
  lemma {:induction false} RowsGrow(key: Key, fs: seq<FileFinding>, f: FileFinding, names: seq<string>)
    requires Distinct(names)
    ensures Sum("", Rows(key, fs + [f], names)) ==
            if key(f) in names then Add(Sum("", Rows(key, fs, names)), f) else Sum("", Rows(key, fs, names))
  {
    if names == [] {
    } else {
      var init, last := names[..|names| - 1], names[|names| - 1];
      assert names == init + [last];
      RowsGrow(key, fs, f, init);
      StatGrows(key, fs, f, last);
      RowsOneMore(key, fs, names);
      RowsOneMore(key, fs + [f], names);
      AddMoves(Sum("", Rows(key, fs, init)), StatOf(key, fs, last), f);
      hide Add, Plus, Rows, StatOf, Sum;
    }
  }

  lemma {:induction false} EmptyRows(key: Key, names: seq<string>)
    ensures Sum("", Rows(key, [], names)) == Zero("")
  {
    if names == [] {
    } else {
      EmptyRows(key, names[..|names| - 1]);
      assert Rows(key, [], names)[..|names| - 1] == Rows(key, [], names[..|names| - 1]);
    }
  }

  /** Conservation: the rows of any distinct names that cover the findings add up to the totals. */
  lemma {:induction false} RowsConserve(key: Key, fs: seq<FileFinding>, names: seq<string>)
    requires Distinct(names) && forall f | f in fs :: key(f) in names
    ensures Sum("", Rows(key, fs, names)) == Totals(fs)
  {
    if fs == [] {
      EmptyRows(key, names);
    } else {
      var init, f := fs[..|fs| - 1], fs[|fs| - 1];
      assert fs == init + [f];
      RowsConserve(key, init, names);
      RowsGrow(key, init, f, names);
    }
  }

  lemma {:induction false} SumConcat(name: string, xs: seq<Stat>, ys: seq<Stat>)
    ensures Sum(name, xs + ys) == Plus(Sum(name, xs), Sum(name, ys))
  {
    if ys == [] {
      assert xs + ys == xs;
    } else {
      assert (xs + ys)[..|xs + ys| - 1] == xs + ys[..|ys| - 1];
      SumConcat(name, xs, ys[..|ys| - 1]);
    }
  }

  // ----- What a tally counts

  datatype Kind = Blockings | Warnings | Infos | Unknowns

  predicate Is(s: Severity, kind: Kind) {
    match kind
    case Blockings => s == Blocking
    case Warnings => s == Warning
    case Infos => s == Info
    case Unknowns => s.Unknown?
  }

  /** The findings of a kind with the given key, by position. */
  ghost function Where(key: Key, fs: seq<FileFinding>, name: string, kind: Kind): set<nat> {
    set i | 0 <= i < |fs| && key(fs[i]) == name && Is(fs[i].severity, kind)
  }

  /** The row counts the findings with its key: blocking ones, warnings, and infos with the unknown ones; and weighs
      them five, two, one and two. */
  ghost predicate Counts(key: Key, fs: seq<FileFinding>, row: Stat) {
    var b, w := |Where(key, fs, row.name, Blockings)|, |Where(key, fs, row.name, Warnings)|;
    var i, u := |Where(key, fs, row.name, Infos)|, |Where(key, fs, row.name, Unknowns)|;
    row.blocking == b && row.warnings == w && row.infos == i + u && row.weighted == 5 * b + 2 * w + i + 2 * u
  }

  lemma WhereGrows(key: Key, fs: seq<FileFinding>, f: FileFinding, name: string, kind: Kind)
    ensures |Where(key, fs + [f], name, kind)|
         == |Where(key, fs, name, kind)| + if key(f) == name && Is(f.severity, kind) then 1 else 0
  {
    var all := fs + [f];
    assert Where(key, all, name, kind) ==
           Where(key, fs, name, kind) + if key(f) == name && Is(f.severity, kind) then {|fs|} else {};
  }

  lemma {:induction false} StatCounts(key: Key, fs: seq<FileFinding>, name: string)
    ensures StatOf(key, fs, name).name == name && Counts(key, fs, StatOf(key, fs, name))
  {
    if fs == [] {
      forall kind ensures Where(key, fs, name, kind) == {} {
      }
    } else {
      var init, f := fs[..|fs| - 1], fs[|fs| - 1];
      assert fs == init + [f];
      StatCounts(key, init, name);
      StatGrows(key, init, f, name);
      WhereGrows(key, init, f, name, Blockings);
      WhereGrows(key, init, f, name, Warnings);
      WhereGrows(key, init, f, name, Infos);
      WhereGrows(key, init, f, name, Unknowns);
      hide Where, StatOf;
    }
  }

  /** The totals are the tally of a key that all findings share. */
  lemma {:induction false} TotalsAreStat(fs: seq<FileFinding>)
    ensures Totals(fs) == StatOf(OneKey, fs, "")
  {
    if fs == [] {
    } else {
      TotalsAreStat(fs[..|fs| - 1]);
    }
  }

  function OneKey(f: FileFinding): string {
    ""
  }

  /** The findings with the given key, by position. */
  ghost function With(key: Key, fs: seq<FileFinding>, name: string): set<nat> {
    set i | 0 <= i < |fs| && key(fs[i]) == name
  }

  lemma WithGrows(key: Key, fs: seq<FileFinding>, f: FileFinding, name: string)
    ensures |With(key, fs + [f], name)| == |With(key, fs, name)| + if key(f) == name then 1 else 0
  {
    assert With(key, fs + [f], name) == With(key, fs, name) + if key(f) == name then {|fs|} else {};
  }

  lemma {:induction false} ItemsCount(key: Key, fs: seq<FileFinding>, name: string)
    ensures Items(StatOf(key, fs, name)) == |With(key, fs, name)|
  {
    if fs == [] {
    } else {
      var init, f := fs[..|fs| - 1], fs[|fs| - 1];
      assert fs == init + [f];
      ItemsCount(key, init, name);
      StatGrows(key, init, f, name);
      WithGrows(key, init, f, name);
      hide With, StatOf;
    }
  }

  /** The severity of a rule is that of the first finding that breaks it. */
  lemma {:induction false} FirstSeverityMeaning(fs: seq<FileFinding>, rule: string, i: nat)
    requires i < |fs| && fs[i].rule == rule && forall j | 0 <= j < i :: fs[j].rule != rule
    ensures FirstSeverity(fs, rule) == fs[i].severity
  {
    if i == 0 {
    } else {
      assert fs[0].rule != rule;
      FirstSeverityMeaning(fs[1..], rule, i - 1);
    }
  }

  // ----- Rankings

  function DirBefore(a: Stat, b: Stat): bool {
    a.weighted > b.weighted || (a.weighted == b.weighted && Less(a.name, b.name))
  }

  function RuleBefore(a: RuleStat, b: RuleStat): bool {
    a.count > b.count || (a.count == b.count && Less(a.rule, b.rule))
  }

  /** Severity first, then file, then line; alike rows keep their order. */
  function DetailBefore(a: FileFinding, b: FileFinding): bool {
    var ra, rb := SeverityRank(a.severity), SeverityRank(b.severity);
    if ra != rb then ra > rb
    else if a.file != b.file then Less(a.file, b.file)
    else a.line < b.line
  }

  /** Blocking first, then warnings and unknown ones alike, infos last. */
  lemma RankMeaning(a: Severity, b: Severity)
    ensures SeverityRank(a) > SeverityRank(b) <==> (a == Blocking && b != Blocking) || (a != Info && b == Info)
  {
  }

  lemma LessIsStrictWeak(a: string, b: string, c: string)
    ensures Less(a, b) ==> !Less(b, a)
    ensures Less(a, b) && Less(b, c) ==> Less(a, c)
    ensures !Less(a, b) && !Less(b, c) ==> !Less(a, c)
  {
    LessTotal(a, b);
    LessTotal(b, c);
    LessTotal(a, c);
    if Less(a, b) && Less(b, c) {
      LessTransitive(a, b, c);
    }
    if Less(b, a) && Less(c, b) {
      LessTransitive(c, b, a);
    }
  }

  lemma BeforeIsStrictWeak()
    ensures StrictWeak(DirBefore) && StrictWeak(RuleBefore) && StrictWeak(DetailBefore)
  {
    forall a: string, b: string, c: string
      ensures Less(a, b) ==> !Less(b, a)
      ensures Less(a, b) && Less(b, c) ==> Less(a, c)
      ensures !Less(a, b) && !Less(b, c) ==> !Less(a, c)
    {
      LessIsStrictWeak(a, b, c);
    }
    forall a: string, b: string ensures Less(a, b) || a == b || Less(b, a) {
      LessTotal(a, b);
    }
  }

  /** The tallies of all keys that occur, heaviest first: what a table lists before it is cut. */
  ghost predicate IsRanking(key: Key, fs: seq<FileFinding>, all: seq<Stat>) {
    && Strict(DirBefore, all)
    && (forall i | 0 <= i < |all| :: all[i] == StatOf(key, fs, all[i].name))
    && (forall name :: name in Keys(key, fs) <==> exists i | 0 <= i < |all| :: all[i].name == name)
  }

  ghost predicate IsRuleRanking(fs: seq<FileFinding>, all: seq<RuleStat>) {
    && Strict(RuleBefore, all)
    && (forall i | 0 <= i < |all| ::
          all[i] == RuleStat(all[i].rule, FirstSeverity(fs, all[i].rule), Items(StatOf(RuleKey, fs, all[i].rule))))
    && (forall name :: name in Keys(RuleKey, fs) <==> exists i | 0 <= i < |all| :: all[i].rule == name)
  }

  function RuleKey(f: FileFinding): string {
    f.rule
  }

  function FileKey(f: FileFinding): string {
    f.file
  }

  /** The severity of the first finding of a rule. */
  function FirstSeverity(fs: seq<FileFinding>, rule: string): Severity {
    if fs == [] then Info else if fs[0].rule == rule then fs[0].severity else FirstSeverity(fs[1..], rule)
  }

  /** There is only one ranking, so the order in which a map yields its entries cannot show. */
  lemma RankingUnique(key: Key, fs: seq<FileFinding>, xs: seq<Stat>, ys: seq<Stat>)
    requires IsRanking(key, fs, xs) && IsRanking(key, fs, ys)
    ensures xs == ys
  {
    BeforeIsStrictWeak();
    forall x ensures x in xs <==> x in ys {
      if x in xs {
        var i :| 0 <= i < |xs| && xs[i] == x;
        assert x.name in Keys(key, fs);
      }
      if x in ys {
        var i :| 0 <= i < |ys| && ys[i] == x;
        assert x.name in Keys(key, fs);
      }
    }
    StrictUnique(DirBefore, xs, ys);
  }

  lemma RankingConserves(key: Key, fs: seq<FileFinding>, all: seq<Stat>)
    requires IsRanking(key, fs, all)
    ensures Sum("", all) == Totals(fs)
  {
    BeforeIsStrictWeak();
    var names := seq(|all|, i requires 0 <= i < |all| => all[i].name);
    forall i, j | 0 <= i < j < |names| ensures names[i] != names[j] {
      assert DirBefore(all[i], all[j]);
      assert all[i] != all[j];
    }
    assert Rows(key, fs, names) == all;
    forall f | f in fs ensures key(f) in names {
      assert key(f) in Keys(key, fs);
      var i :| 0 <= i < |all| && all[i].name == key(f);
      assert names[i] == key(f);
    }
    RowsConserve(key, fs, names);
  }

  /** The rows shown for directories: the first 15, and the rest in one labelled row. */
  function CapDirs(all: seq<Stat>): seq<Stat> {
    if |all| > MAX_DIRS then all[..MAX_DIRS] + [Sum(OTHER_DIRS, all[MAX_DIRS..])] else all
  }

  lemma {:induction false} SumRename(a: string, b: string, rows: seq<Stat>)
    ensures Sum(a, rows) == Sum(b, rows).(name := a)
  {
    if rows == [] {
    } else {
      SumRename(a, b, rows[..|rows| - 1]);
    }
  }

  lemma CapConserves(all: seq<Stat>)
    ensures Sum("", CapDirs(all)) == Sum("", all)
  {
    if |all| > MAX_DIRS {
      var kept, cut := all[..MAX_DIRS], all[MAX_DIRS..];
      assert all == kept + cut;
      SumConcat("", kept, cut);
      SumRename(OTHER_DIRS, "", cut);
      var other := Sum(OTHER_DIRS, cut);
      assert (kept + [other])[..|kept|] == kept;
    }
  }

  // ----- Totals

  function CountUnknown(fs: seq<FileFinding>): nat {
    if fs == [] then 0 else CountUnknown(fs[..|fs| - 1]) + if fs[|fs| - 1].severity.Unknown? then 1 else 0
  }

  function Weighted(blocking: nat, warnings: nat, infos: nat): (w: nat)
    ensures w == 5 * blocking + 2 * warnings + infos
  {
    WEIGHT_BLOCKING * blocking + WEIGHT_WARNING * warnings + WEIGHT_INFO * infos
  }

  function Score(s: Stat): nat {
    Weighted(s.blocking, s.warnings, s.infos)
  }

  lemma AddMeaning(s: Stat, f: FileFinding)
    ensures Items(Add(s, f)) == Items(s) + 1
    ensures Add(s, f).weighted - Score(Add(s, f)) == s.weighted - Score(s) + if f.severity.Unknown? then 1 else 0
  {
  }

  /** The summed finding weights exceed 5B + 2W + I by one for every unknown severity, which is weighed as a
      warning but counted as an info. */
  lemma {:induction false} TotalsMeaning(fs: seq<FileFinding>)
    ensures Items(Totals(fs)) == |fs|
    ensures Totals(fs).weighted == Score(Totals(fs)) + CountUnknown(fs)
  {
    if fs == [] {
      assert Totals(fs) == Zero("");
    } else {
      var init, f := fs[..|fs| - 1], fs[|fs| - 1];
      var t := Totals(init);
      AddMeaning(t, f);
      hide Add, Items, Score;
      assert Totals(fs) == Add(t, f);
      assert CountUnknown(fs) == CountUnknown(init) + if f.severity.Unknown? then 1 else 0;
      TotalsMeaning(fs[..|fs| - 1]);
    }
  }

  function SumCounts(rows: seq<RuleStat>): nat {
    if rows == [] then 0 else SumCounts(rows[..|rows| - 1]) + rows[|rows| - 1].count
  }

  lemma {:induction false} CountsAreItems(fs: seq<FileFinding>, rows: seq<RuleStat>, names: seq<string>)
    requires |rows| == |names| && forall i | 0 <= i < |rows| :: rows[i].count == Items(StatOf(RuleKey, fs, names[i]))
    ensures SumCounts(rows) == Items(Sum("", Rows(RuleKey, fs, names)))
  {
    if rows == [] {
    } else {
      CountsAreItems(fs, rows[..|rows| - 1], names[..|names| - 1]);
      assert Rows(RuleKey, fs, names)[..|names| - 1] == Rows(RuleKey, fs, names[..|names| - 1]);
    }
  }

  lemma RuleNamesDistinct(fs: seq<FileFinding>, all: seq<RuleStat>)
    requires IsRuleRanking(fs, all)
    ensures forall i, j | 0 <= i < j < |all| :: all[i].rule != all[j].rule
  {
    BeforeIsStrictWeak();
    forall i, j | 0 <= i < j < |all| ensures all[i].rule != all[j].rule {
      assert RuleBefore(all[i], all[j]);
      assert all[i] != all[j];
    }
  }

  lemma RulesCover(fs: seq<FileFinding>, all: seq<RuleStat>, names: seq<string>)
    requires IsRuleRanking(fs, all) && |names| == |all| && forall i | 0 <= i < |all| :: names[i] == all[i].rule
    ensures Distinct(names) && forall f | f in fs :: RuleKey(f) in names
  {
    RuleNamesDistinct(fs, all);
    forall f | f in fs ensures RuleKey(f) in names {
      assert RuleKey(f) in Keys(RuleKey, fs);
      var i :| 0 <= i < |all| && all[i].rule == RuleKey(f);
      assert names[i] == RuleKey(f);
    }
  }

  lemma RulesConserve(fs: seq<FileFinding>, all: seq<RuleStat>)
    requires IsRuleRanking(fs, all)
    ensures SumCounts(all) == |fs|
  {
    var names := seq(|all|, i requires 0 <= i < |all| => all[i].rule);
    RulesCover(fs, all, names);
    hide StatOf, FirstSeverity, Strict, Keys, Items, Sum, Totals, Rows, SumCounts;
    CountsAreItems(fs, all, names);
    RowsConserve(RuleKey, fs, names);
    TotalsMeaning(fs);
  }

  // ----- Grades, in exact arithmetic

  /** The score is 100 * weighted / sample; comparisons are multiplied out. */
  function GradeOf(weighted: int, filesScanned: int): Grade {
    if filesScanned == 0 then if weighted == 0 then NoGrade else F
    else
      var sample := if filesScanned < MIN_SAMPLE then MIN_SAMPLE else filesScanned;
      var score := 100 * weighted;
      if score == 0 then A
      else if score < 5 * sample then B
      else if score < 15 * sample then C
      else if score < 40 * sample then D
      else F
  }

  /** Weighted findings per 100 scanned files. */
  function DebtScore(weighted: int, filesScanned: int): real {
    if filesScanned > 0 then (100 * weighted) as real / filesScanned as real else 0.0
  }

  /** The grade by weighted findings per hundred files of the sample: none, under 5, under 15, under 40, or more; the
      sample counts ten files at least. */
  lemma GradeMeaning(w: nat, n: int)
    ensures n == 0 ==> GradeOf(w, n) == if w == 0 then NoGrade else F
    ensures n != 0 ==>
              var density := (100 * w) as real / (if n < 10 then 10 else n) as real;
              GradeOf(w, n) ==
              if w == 0 then A
              else if density < 5.0 then B
              else if density < 15.0 then C
              else if density < 40.0 then D
              else F
  {
    if n != 0 {
      var sample := if n < 10 then 10 else n;
      DensityBelow(100 * w, sample, 5);
      DensityBelow(100 * w, sample, 15);
      DensityBelow(100 * w, sample, 40);
    }
  }

  lemma DensityBelow(score: nat, sample: nat, limit: nat)
    requires sample > 0
    ensures score as real / sample as real < limit as real <==> score < limit * sample
  {
    var density := score as real / sample as real;
    assert density * sample as real == score as real;
    assert (limit * sample) as real == limit as real * sample as real;
    if density < limit as real {
      assert density * sample as real < limit as real * sample as real;
    } else {
      assert density * sample as real >= limit as real * sample as real;
    }
  }

  /** So many per hundred of `n` files, and none of no files. */
  ghost predicate IsDensity(score: real, weighted: int, n: int) {
    if n > 0 then score * n as real == (100 * weighted) as real else score == 0.0
  }

  lemma ScoreIsDensity(weighted: int, n: int)
    ensures IsDensity(DebtScore(weighted, n), weighted, n)
  {
  }

  function GradeRank(g: Grade): int {
    match g
    case NoGrade => -1
    case A => 0
    case B => 1
    case C => 2
    case D => 3
    case F => 4
  }

  /** More weight never improves the grade; more scanned files, from one on, never worsen it. */
  lemma GradeMonotone(w: nat, w': nat, n: int, n': int)
    requires w <= w'
    ensures GradeRank(GradeOf(w, n)) <= GradeRank(GradeOf(w', n))
    ensures 1 <= n <= n' ==> GradeRank(GradeOf(w, n)) >= GradeRank(GradeOf(w, n'))
    ensures n != 0 ==> (GradeOf(w, n) == A <==> w == 0)
  {
  }

  // ----- What a table says

  /** A row for every key that occurs and no other, each counting its findings, heaviest first and then by name. */
  ghost predicate TableOf(key: Key, fs: seq<FileFinding>, all: seq<Stat>) {
    && (forall i | 0 <= i < |all| :: Counts(key, fs, all[i]))
    && (set row | row in all :: row.name) == (set f | f in fs :: key(f))
    && (forall i, j | 0 <= i < j < |all| ::
          || all[i].weighted > all[j].weighted
          || (all[i].weighted == all[j].weighted && Less(all[i].name, all[j].name)))
  }

  lemma RankingIsTable(key: Key, fs: seq<FileFinding>, all: seq<Stat>)
    requires IsRanking(key, fs, all)
    ensures TableOf(key, fs, all)
  {
    forall i | 0 <= i < |all| ensures Counts(key, fs, all[i]) {
      StatCounts(key, fs, all[i].name);
    }
    hide Counts, StatOf;
    RowsCover(key, fs, all);
    assert forall i, j | 0 <= i < j < |all| :: DirBefore(all[i], all[j]);
  }

  /** A row for every rule that is broken and no other, each with the number of its findings and the severity of the
      first, most frequent first and then by name. */
  ghost predicate RuleTableOf(fs: seq<FileFinding>, all: seq<RuleStat>) {
    && (forall i | 0 <= i < |all| ::
          all[i].count == |With(RuleKey, fs, all[i].rule)| && all[i].severity == FirstSeverity(fs, all[i].rule))
    && (set row | row in all :: row.rule) == (set f | f in fs :: f.rule)
    && (forall i, j | 0 <= i < j < |all| ::
          all[i].count > all[j].count || (all[i].count == all[j].count && Less(all[i].rule, all[j].rule)))
  }

  lemma RankingIsRuleTable(fs: seq<FileFinding>, all: seq<RuleStat>)
    requires IsRuleRanking(fs, all)
    ensures RuleTableOf(fs, all)
  {
    RuleRowsCover(fs, all);
    hide StatOf, Items, With, FirstSeverity, Keys;
    forall i | 0 <= i < |all| ensures all[i].count == |With(RuleKey, fs, all[i].rule)| {
      ItemsCount(RuleKey, fs, all[i].rule);
    }
    assert forall i, j | 0 <= i < j < |all| :: RuleBefore(all[i], all[j]);
  }

  lemma RuleRowsCover(fs: seq<FileFinding>, all: seq<RuleStat>)
    requires IsRuleRanking(fs, all)
    ensures (set row | row in all :: row.rule) == (set f | f in fs :: f.rule)
  {
    assert Keys(RuleKey, fs) == (set f | f in fs :: f.rule);
    hide StatOf, Items, FirstSeverity, Strict, Keys;
    forall rule ensures rule in (set row | row in all :: row.rule) <==> rule in Keys(RuleKey, fs) {
      if rule in Keys(RuleKey, fs) {
        var i :| 0 <= i < |all| && all[i].rule == rule;
        assert all[i] in all;
      }
    }
  }

  lemma RowsCover(key: Key, fs: seq<FileFinding>, all: seq<Stat>)
    requires IsRanking(key, fs, all)
    ensures (set row | row in all :: row.name) == (set f | f in fs :: key(f))
  {
    assert Keys(key, fs) == (set f | f in fs :: key(f));
    hide StatOf, Strict, Keys;
    forall name ensures name in (set row | row in all :: row.name) <==> name in Keys(key, fs) {
      if name in Keys(key, fs) {
        var i :| 0 <= i < |all| && all[i].name == name;
        assert all[i] in all;
      }
    }
  }

  /** The totals count every finding once. */
  lemma TotalsCount(fs: seq<FileFinding>)
    ensures Counts(OneKey, fs, Totals(fs)) && Totals(fs).name == ""
  {
    TotalsAreStat(fs);
    StatCounts(OneKey, fs, "");
  }

  /** In the detail list a blocking finding comes first, an info last; then files and lines ascend. */
  ghost predicate DetailOrdered(shown: seq<FileFinding>) {
    forall i, j | 0 <= i < j < |shown| ::
      var a, b := shown[i], shown[j];
      && (b.severity == Blocking ==> a.severity == Blocking) && (a.severity == Info ==> b.severity == Info)
      && (SeverityRank(a.severity) == SeverityRank(b.severity) ==>
            Less(a.file, b.file) || (a.file == b.file && a.line <= b.line))
  }

  lemma SortedIsDetailOrdered(fs: seq<FileFinding>)
    ensures DetailOrdered(Sort(DetailBefore, fs))
  {
    BeforeIsStrictWeak();
    SortOrders(DetailBefore, fs);
    var all := Sort(DetailBefore, fs);
    hide Sort, StrictWeak;
    forall i, j | 0 <= i < j < |all|
      ensures var a, b := all[i], all[j];
        && (b.severity == Blocking ==> a.severity == Blocking) && (a.severity == Info ==> b.severity == Info)
        && (SeverityRank(a.severity) == SeverityRank(b.severity) ==>
              Less(a.file, b.file) || (a.file == b.file && a.line <= b.line))
    {
      assert !DetailBefore(all[j], all[i]);
      LessTotal(all[i].file, all[j].file);
      hide Less;
    }
  }

  // ----- The loops

  /** The map holds the tallies of the findings by key. */
  ghost predicate Tallies(key: Key, fs: seq<FileFinding>, m: map<string, Stat>) {
    m.Keys == Keys(key, fs) && forall k | k in m :: m[k] == StatOf(key, fs, k)
  }

  ghost predicate RuleTallies(fs: seq<FileFinding>, m: map<string, RuleStat>) {
    && m.Keys == Keys(RuleKey, fs)
    && forall k | k in m :: m[k] == RuleStat(k, FirstSeverity(fs, k), Items(StatOf(RuleKey, fs, k)))
  }

  lemma {:induction false} StatOfName(key: Key, fs: seq<FileFinding>, name: string)
    ensures StatOf(key, fs, name).name == name
  {
    if fs == [] {
    } else {
      StatOfName(key, fs[..|fs| - 1], name);
    }
  }

  /** Sorting pairwise comparable elements arranges exactly them, strictly. */
  lemma SortArranges<T(!new)>(less: (T, T) -> bool, out: seq<T>)
    requires StrictWeak(less) && forall i, j | 0 <= i < j < |out| :: less(out[i], out[j]) || less(out[j], out[i])
    ensures Strict(less, Sort(less, out)) && forall x :: x in Sort(less, out) <==> x in out
  {
    SortStrict(less, out);
    SortPermutes(less, out);
  }

  lemma DirsComparable(a: Stat, b: Stat)
    requires a.name != b.name
    ensures DirBefore(a, b) || DirBefore(b, a)
  {
    LessTotal(a.name, b.name);
  }

  lemma RulesComparable(a: RuleStat, b: RuleStat)
    requires a.rule != b.rule
    ensures RuleBefore(a, b) || RuleBefore(b, a)
  {
    LessTotal(a.rule, b.rule);
  }

  lemma SortedIsRanking(key: Key, fs: seq<FileFinding>, m: map<string, Stat>, out: seq<Stat>, keys: seq<string>)
    requires Tallies(key, fs, m) && |out| == |keys| && Distinct(keys) && forall k :: k in keys <==> k in m
    requires forall i | 0 <= i < |keys| :: keys[i] in m && out[i] == m[keys[i]]
    ensures IsRanking(key, fs, Sort(DirBefore, out))
  {
    BeforeIsStrictWeak();
    hide Keys, DirBefore, StatOf, Sort, Strict, StrictWeak;
    var all := Sort(DirBefore, out);
    forall i | 0 <= i < |out| ensures out[i].name == keys[i] && out[i] == StatOf(key, fs, keys[i]) {
      StatOfName(key, fs, keys[i]);
    }
    forall i, j | 0 <= i < j < |out| ensures DirBefore(out[i], out[j]) || DirBefore(out[j], out[i]) {
      DirsComparable(out[i], out[j]);
    }
    SortArranges(DirBefore, out);
    forall i | 0 <= i < |all| ensures all[i] == StatOf(key, fs, all[i].name) && all[i].name in m {
      assert all[i] in out;
    }
    forall k | k in m ensures exists i | 0 <= i < |all| :: all[i].name == k {
      var i :| 0 <= i < |keys| && keys[i] == k;
      assert out[i] in all;
    }
  }

  lemma SortedIsRuleRanking(fs: seq<FileFinding>, m: map<string, RuleStat>, out: seq<RuleStat>, keys: seq<string>)
    requires RuleTallies(fs, m) && |out| == |keys| && Distinct(keys) && forall k :: k in keys <==> k in m
    requires forall i | 0 <= i < |keys| :: keys[i] in m && out[i] == m[keys[i]]
    ensures IsRuleRanking(fs, Sort(RuleBefore, out))
  {
    BeforeIsStrictWeak();
    hide Keys, RuleBefore, StatOf, FirstSeverity, Items, Sort, Strict, StrictWeak;
    var all := Sort(RuleBefore, out);
    forall i, j | 0 <= i < j < |out| ensures RuleBefore(out[i], out[j]) || RuleBefore(out[j], out[i]) {
      assert out[i].rule == keys[i] && out[j].rule == keys[j];
      RulesComparable(out[i], out[j]);
    }
    SortArranges(RuleBefore, out);
    forall i | 0 <= i < |all|
      ensures all[i] == RuleStat(all[i].rule, FirstSeverity(fs, all[i].rule), Items(StatOf(RuleKey, fs, all[i].rule)))
      ensures all[i].rule in m
    {
      assert all[i] in out;
    }
    forall k | k in m ensures exists i | 0 <= i < |all| :: all[i].rule == k {
      var i :| 0 <= i < |keys| && keys[i] == k;
      assert out[i] in all && out[i].rule == k;
    }
  }

  method SortRules(m: map<string, RuleStat>, ghost fs: seq<FileFinding>) returns (rows: seq<RuleStat>)
    requires RuleTallies(fs, m)
    ensures IsRuleRanking(fs, rows)
  {
    var out, keys := Collect(m);
    SortedIsRuleRanking(fs, m, out, keys);
    rows := Sort(RuleBefore, out);
  }

  method SortDirs(key: Key, m: map<string, Stat>, ghost fs: seq<FileFinding>)
    returns (rows: seq<Stat>, ghost all: seq<Stat>)
    requires Tallies(key, fs, m)
    ensures IsRanking(key, fs, all) && rows == CapDirs(all)
  {
    var out, keys := Collect(m);
    SortedIsRanking(key, fs, m, out, keys);
    out := Sort(DirBefore, out);
    all := out;
    if |out| > MAX_DIRS {
      var cut := out[MAX_DIRS..];
      var other := Zero(OTHER_DIRS);
      for i := 0 to |cut|
        invariant other == Sum(OTHER_DIRS, cut[..i])
      {
        assert cut[..i + 1][..i] == cut[..i];
        other := Plus(other, cut[i]);
      }
      assert cut[..|cut|] == cut;
      out := out[..MAX_DIRS] + [other];
    }
    rows := out;
  }

  method SortFiles(m: map<string, Stat>, ghost fs: seq<FileFinding>) returns (rows: seq<Stat>, ghost all: seq<Stat>)
    requires Tallies(FileKey, fs, m)
    ensures IsRanking(FileKey, fs, all) && rows == First(all, MAX_FILES)
  {
    var out, keys := Collect(m);
    SortedIsRanking(FileKey, fs, m, out, keys);
    rows := Sort(DirBefore, out);
    all := rows;
    if |rows| > MAX_FILES {
      rows := rows[..MAX_FILES];
    }
  }

  /** One more finding in a map of tallies: the entry is created when missing, then counted up. */
  method CountIn(key: Key, m: map<string, Stat>, f: FileFinding, ghost fs: seq<FileFinding>)
    returns (m': map<string, Stat>)
    requires Tallies(key, fs, m)
    ensures Tallies(key, fs + [f], m')
  {
    var k := key(f);
    var entry := if k in m then m[k] else Zero(k);
    m' := m[k := Add(entry, f)];
    assert (fs + [f])[..|fs|] == fs;
    if k !in m {
      AbsentIsZero(key, fs, k);
    }
    KeysGrow(key, fs, f);
  }

  lemma {:induction false} AbsentIsZero(key: Key, fs: seq<FileFinding>, name: string)
    requires name !in Keys(key, fs)
    ensures StatOf(key, fs, name) == Zero(name)
  {
    if fs == [] {
    } else {
      assert fs[|fs| - 1] in fs && forall f | f in fs[..|fs| - 1] :: f in fs;
      AbsentIsZero(key, fs[..|fs| - 1], name);
    }
  }

  lemma KeysGrow(key: Key, fs: seq<FileFinding>, f: FileFinding)
    ensures Keys(key, fs + [f]) == Keys(key, fs) + {key(f)}
  {
    assert f in fs + [f] && forall g | g in fs :: g in fs + [f];
  }

  lemma {:induction false} FirstSeverityGrows(fs: seq<FileFinding>, f: FileFinding, rule: string)
    ensures FirstSeverity(fs + [f], rule) ==
            if rule in Keys(RuleKey, fs) || f.rule != rule then FirstSeverity(fs, rule) else f.severity
  {
    if fs == [] {
      assert (fs + [f])[1..] == [];
    } else {
      assert (fs + [f])[1..] == fs[1..] + [f];
      FirstSeverityGrows(fs[1..], f, rule);
      FirstKey(fs);
    }
  }

  lemma FirstKey(fs: seq<FileFinding>)
    requires fs != []
    ensures Keys(RuleKey, fs) == {fs[0].rule} + Keys(RuleKey, fs[1..])
  {
    assert forall g :: g in fs <==> g == fs[0] || g in fs[1..];
    assert RuleKey(fs[0]) == fs[0].rule;
  }

  method CountRule(m: map<string, RuleStat>, f: FileFinding, ghost fs: seq<FileFinding>)
    returns (m': map<string, RuleStat>)
    requires RuleTallies(fs, m)
    ensures RuleTallies(fs + [f], m')
  {
    var entry := if f.rule in m then m[f.rule] else RuleStat(f.rule, f.severity, 0);
    m' := m[f.rule := entry.(count := entry.count + 1)];
    assert (fs + [f])[..|fs|] == fs;
    if f.rule !in m {
      AbsentIsZero(RuleKey, fs, f.rule);
    }
    KeysGrow(RuleKey, fs, f);
    forall k | k in m' ensures m'[k] == RuleStat(k, FirstSeverity(fs + [f], k), Items(StatOf(RuleKey, fs + [f], k))) {
      FirstSeverityGrows(fs, f, k);
    }
  }

  /** The pass over the findings. */
  method TallyAll(fs: seq<FileFinding>, key: Key)
    returns (rules: map<string, RuleStat>, dirs: map<string, Stat>, files: map<string, Stat>,
             blocking: nat, warnings: nat, infos: nat)
    ensures RuleTallies(fs, rules) && Tallies(key, fs, dirs) && Tallies(FileKey, fs, files)
        && files.Keys == Keys(FileKey, fs)
    ensures Totals(fs) == Stat("", blocking, warnings, infos, Totals(fs).weighted)
  {
    rules, dirs, files := map[], map[], map[];
    blocking, warnings, infos := 0, 0, 0;
    for i := 0 to |fs|
      invariant RuleTallies(fs[..i], rules) && Tallies(key, fs[..i], dirs) && Tallies(FileKey, fs[..i], files)
      invariant Totals(fs[..i]) == Stat("", blocking, warnings, infos, Totals(fs[..i]).weighted)
    {
      hide RuleTallies, Tallies;
      assert fs[..i + 1] == fs[..i] + [fs[i]] && fs[..i + 1][..i] == fs[..i];
      rules := CountRule(rules, fs[i], fs[..i]);
      dirs := CountIn(key, dirs, fs[i], fs[..i]);
      files := CountIn(FileKey, files, fs[i], fs[..i]);
      match fs[i].severity {
        case Blocking => blocking := blocking + 1;
        case Warning => warnings := warnings + 1;
        case _ => infos := infos + 1;
      }
    }
    assert fs[..|fs|] == fs;
  }

  /** Build: one pass over the findings, then ranking, grading and capping. The ghost results are the full
      rankings behind the capped tables. */
  method Build(res: ScanResult, dirOf: string -> string)
    returns (rep: Report, ghost dirs: seq<Stat>, ghost files: seq<Stat>)
    // every table is a cut of the one ranking of its tallies
    ensures IsRuleRanking(res.findings, rep.byRule)
    ensures IsRanking(DirKey(dirOf), res.findings, dirs) && rep.byDir == CapDirs(dirs)
    ensures IsRanking(FileKey, res.findings, files) && rep.topFiles == First(files, MAX_FILES)
    ensures forall f :: DirKey(dirOf)(f) == dirOf(f.file) && FileKey(f) == f.file && RuleKey(f) == f.rule
    // what the rows say, and how the tables are cut
    ensures RuleTableOf(res.findings, rep.byRule)
    ensures TableOf(DirKey(dirOf), res.findings, dirs) && TableOf(FileKey, res.findings, files)
    ensures |dirs| <= 15 ==> rep.byDir == dirs
    ensures |dirs| > 15 ==>
              |rep.byDir| == 16 && rep.byDir[..15] == dirs[..15] && rep.byDir[15].name == "(other directories)"
    ensures rep.topFiles <= files && (|files| <= 10 ==> rep.topFiles == files)
    ensures |files| > 10 ==> |rep.topFiles| == 10
    ensures rep.blocking == |Where(OneKey, res.findings, "", Blockings)|
    ensures rep.warnings == |Where(OneKey, res.findings, "", Warnings)|
    // conservation
    ensures rep.total == |res.findings| == rep.blocking + rep.warnings + rep.infos == SumCounts(rep.byRule)
    ensures Sum("", rep.byDir) == Stat("", rep.blocking, rep.warnings, rep.infos, Totals(res.findings).weighted)
    ensures Sum("", rep.byDir).weighted == 5 * rep.blocking + 2 * rep.warnings + rep.infos + CountUnknown(res.findings)
    ensures rep.affectedFiles == |Keys(FileKey, res.findings)|
    // the detail section and how much was cut from it
    ensures rep.findings == First(Sort(DetailBefore, res.findings), MAX_DETAIL)
    ensures |rep.findings| + rep.truncated == rep.total && (rep.truncated > 0 ==> |rep.findings| == MAX_DETAIL)
    ensures DetailOrdered(rep.findings) && (rep.total <= 200 ==> rep.truncated == 0)
    ensures rep.truncated > 0 ==> |rep.findings| == 200
    // the score counts what the totals count
    ensures rep.grade == GradeOf(5 * rep.blocking + 2 * rep.warnings + rep.infos, res.filesScanned)
    ensures rep.debtScore == DebtScore(5 * rep.blocking + 2 * rep.warnings + rep.infos, res.filesScanned)
    ensures IsDensity(rep.debtScore, 5 * rep.blocking + 2 * rep.warnings + rep.infos, res.filesScanned)
    ensures rep.root == res.root && rep.filesScanned == res.filesScanned && rep.filesSkipped == res.filesSkipped
  {
    hide *;
    var fs := res.findings;
    var key := DirKey(dirOf);
    var rules, dirStats, fileStats, blocking, warnings, infos := TallyAll(fs, key);
    var byRule := SortRules(rules, fs);
    var byDir, topFiles;
    byDir, dirs := SortDirs(key, dirStats, fs);
    topFiles, files := SortFiles(fileStats, fs);
    Conserved(fs, key, byRule, dirs, blocking, warnings, infos);
    var weighted := Weighted(blocking, warnings, infos);
    ScoreIsDensity(weighted, res.filesScanned);
    var detail, truncated := Detail(fs);
    KeysMeaning(dirOf);
    RankingIsRuleTable(fs, byRule);
    RankingIsTable(key, fs, dirs);
    RankingIsTable(FileKey, fs, files);
    CutsMeaning(dirs, files, fs);
    TotalsCount(fs);
    CountsAre(OneKey, fs, Totals(fs));
    rep := Report(res.root, res.filesScanned, res.filesSkipped, |fs|, blocking, warnings, infos, |fileStats.Keys|,
                  DebtScore(weighted, res.filesScanned), GradeOf(weighted, res.filesScanned),
                  byRule, byDir, topFiles, detail, truncated);
  }

  lemma KeysMeaning(dirOf: string -> string)
    ensures forall f :: DirKey(dirOf)(f) == dirOf(f.file) && FileKey(f) == f.file && RuleKey(f) == f.rule
  {
  }

  lemma CountsAre(key: Key, fs: seq<FileFinding>, row: Stat)
    requires Counts(key, fs, row)
    ensures row.blocking == |Where(key, fs, row.name, Blockings)|
    ensures row.warnings == |Where(key, fs, row.name, Warnings)|
  {
    hide Where;
  }

  lemma CapMeaning(dirs: seq<Stat>)
    ensures |dirs| <= 15 ==> CapDirs(dirs) == dirs
    ensures |dirs| > 15 ==>
              var rows := CapDirs(dirs);
              |rows| == 16 && rows[..15] == dirs[..15] && rows[15].name == "(other directories)"
  {
    if |dirs| > 15 {
      SumName(OTHER_DIRS, dirs[15..]);
      hide Sum;
      assert CapDirs(dirs) == dirs[..15] + [Sum(OTHER_DIRS, dirs[15..])];
    }
  }

  lemma FirstMeaning<T>(xs: seq<T>, n: nat)
    ensures First(xs, n) <= xs && |First(xs, n)| == if |xs| <= n then |xs| else n
  {
  }

  lemma CutsMeaning(dirs: seq<Stat>, files: seq<Stat>, fs: seq<FileFinding>)
    ensures |dirs| <= 15 ==> CapDirs(dirs) == dirs
    ensures |dirs| > 15 ==>
              var rows := CapDirs(dirs);
              |rows| == 16 && rows[..15] == dirs[..15] && rows[15].name == "(other directories)"
    ensures var top := First(files, MAX_FILES);
      top <= files && (|files| <= 10 ==> top == files) && (|files| > 10 ==> |top| == 10)
    ensures DetailOrdered(First(Sort(DetailBefore, fs), MAX_DETAIL))
    ensures MAX_DETAIL == 200 && (|fs| <= 200 ==> |First(Sort(DetailBefore, fs), MAX_DETAIL)| == |fs|)
  {
    hide Sort, DetailBefore, DetailOrdered, CapDirs, First, Sum;
    CapMeaning(dirs);
    SortedIsDetailOrdered(fs);
    assert |Sort(DetailBefore, fs)| == |fs| by {
      SortPermutes(DetailBefore, fs);
    }
    FirstMeaning(files, 10);
    FirstMeaning(Sort(DetailBefore, fs), 200);
    FirstOrdered(Sort(DetailBefore, fs), 200);
  }

  lemma FirstOrdered(rows: seq<FileFinding>, n: nat)
    requires DetailOrdered(rows)
    ensures DetailOrdered(First(rows, n))
  {
    assert First(rows, n) <= rows;
    hide First, SeverityRank;
  }

  lemma {:induction false} SumName(name: string, rows: seq<Stat>)
    ensures Sum(name, rows).name == name
  {
    if rows == [] {
    } else {
      SumName(name, rows[..|rows| - 1]);
    }
  }

  method Detail(fs: seq<FileFinding>) returns (shown: seq<FileFinding>, truncated: nat)
    ensures shown == First(Sort(DetailBefore, fs), MAX_DETAIL)
    ensures |shown| + truncated == |fs| && (truncated > 0 ==> |shown| == MAX_DETAIL)
  {
    SortPermutes(DetailBefore, fs);
    shown, truncated := Sort(DetailBefore, fs), 0;
    if |shown| > MAX_DETAIL {
      truncated := |shown| - MAX_DETAIL;
      shown := shown[..MAX_DETAIL];
    }
  }

  function First<T>(xs: seq<T>, n: nat): seq<T> {
    if |xs| > n then xs[..n] else xs
  }

  function DirKey(dirOf: string -> string): Key {
    (f: FileFinding) => dirOf(f.file)
  }

  lemma Conserved(fs: seq<FileFinding>, key: Key, byRule: seq<RuleStat>, dirs: seq<Stat>, blocking: nat,
                  warnings: nat, infos: nat)
    requires IsRuleRanking(fs, byRule) && IsRanking(key, fs, dirs)
    requires Totals(fs) == Stat("", blocking, warnings, infos, Totals(fs).weighted)
    ensures SumCounts(byRule) == |fs| == blocking + warnings + infos
    ensures Sum("", CapDirs(dirs)) == Totals(fs)
    ensures Totals(fs).weighted == 5 * blocking + 2 * warnings + infos + CountUnknown(fs)
  {
    RulesConserve(fs, byRule);
    RankingConserves(key, fs, dirs);
    CapConserves(dirs);
    TotalsMeaning(fs);
  }

  /** The detail list is the start of whatever a stable sort by rank returns. */
  lemma DetailIsStable(fs: seq<FileFinding>, sorted: seq<FileFinding>)
    requires Ordered(DetailBefore, sorted)
    requires forall f :: Class(DetailBefore, f, sorted) == Class(DetailBefore, f, fs)
    ensures First(sorted, MAX_DETAIL) == First(Sort(DetailBefore, fs), MAX_DETAIL)
  {
    BeforeIsStrictWeak();
    StableSortIsSort(DetailBefore, fs, sorted);
  }

  /** The cut is fair: a permutation of the findings in which every kept row ranks at least as high as every cut row. */
  lemma DetailCutIsFair(fs: seq<FileFinding>, kept: nat, i: nat, j: nat)
    requires i < kept <= j < |fs|
    ensures var all := Sort(DetailBefore, fs);
      && multiset(all) == multiset(fs) && |all| == |fs|
      && SeverityRank(all[i].severity) >= SeverityRank(all[j].severity)
      && (all[j].severity == Blocking ==> all[i].severity == Blocking)
  {
    BeforeIsStrictWeak();
    SortPermutes(DetailBefore, fs);
    SortOrders(DetailBefore, fs);
  }

  /** Every file outside the table weighs no more than any file in it, and every directory folded into the last row
      no more than any with a row of its own. */
  lemma RankingCutIsFair(key: Key, fs: seq<FileFinding>, all: seq<Stat>, shown: nat, i: nat, name: string)
    requires IsRanking(key, fs, all) && i < shown <= |all| && name in Keys(key, fs)
    requires forall k | 0 <= k < shown :: all[k].name != name
    ensures StatOf(key, fs, name).weighted <= all[i].weighted
  {
    var j :| 0 <= j < |all| && all[j].name == name;
    assert DirBefore(all[i], all[j]);
  }
}
