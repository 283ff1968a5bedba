/** Escaping of Markdown table cells: the four passes of the escaper, how a rendered row is split into
    cells again, and why neither loses anything. */
module Markdown {

  const BACKSLASH: char := '\\'
  const PIPE: char := '|'

  // ----- The escaper as written: four passes over the string

  function MapControls(s: string): string {
    if s == "" then "" else [if s[0] < ' ' || s[0] == '\U{7F}' then ' ' else s[0]] + MapControls(s[1..])
  }

  /** strings.ReplaceAll for a one-character pattern. */
  function ReplaceAll(s: string, c: char, with: string): string {
    if s == "" then "" else (if s[0] == c then with else [s[0]]) + ReplaceAll(s[1..], c, with)
  }

  /** The three replacing passes. */
  function Replaced(s: string): string {
    ReplaceAll(ReplaceAll(ReplaceAll(s, BACKSLASH, "\\\\"), PIPE, "\\|"), '`', "'")
  }

  function MdEscape(s: string): string {
    Replaced(MapControls(s))
  }

  // ----- Its meaning, one character at a time

  function Clean(c: char): char {
    if c < ' ' || c == '\U{7F}' then ' ' else if c == '`' then '\'' else c
  }

  function CleanAll(s: string): string {
    if s == "" then "" else [Clean(s[0])] + CleanAll(s[1..])
  }

  function EscapeChar(c: char): string {
    if Clean(c) == BACKSLASH || Clean(c) == PIPE then [BACKSLASH, Clean(c)] else [Clean(c)]
  }

  function EscapeAll(s: string): string {
    if s == "" then "" else EscapeChar(s[0]) + EscapeAll(s[1..])
  }

  lemma {:induction false} ReplaceConcat(a: string, b: string, c: char, with: string)
    ensures ReplaceAll(a + b, c, with) == ReplaceAll(a, c, with) + ReplaceAll(b, c, with)
  {
    if a == "" {
      assert a + b == b;
    } else {
      assert (a + b)[1..] == a[1..] + b;
      ReplaceConcat(a[1..], b, c, with);
    }
  }

  lemma ReplaceShort(x: char, y: char, c: char, with: string)
    ensures ReplaceAll([x], c, with) == if x == c then with else [x]
    ensures ReplaceAll([x, y], c, with) == (if x == c then with else [x]) + (if y == c then with else [y])
  {
    assert [x][1..] == "" && [x, y][1..] == [y] && [y][1..] == "";
  }

  lemma ReplacedConcat(a: string, b: string)
    ensures Replaced(a + b) == Replaced(a) + Replaced(b)
  {
    ReplaceConcat(a, b, BACKSLASH, "\\\\");
    var a1, b1 := ReplaceAll(a, BACKSLASH, "\\\\"), ReplaceAll(b, BACKSLASH, "\\\\");
    ReplaceConcat(a1, b1, PIPE, "\\|");
    ReplaceConcat(ReplaceAll(a1, PIPE, "\\|"), ReplaceAll(b1, PIPE, "\\|"), '`', "'");
    hide ReplaceAll;
  }

  lemma ReplacedChar(c: char)
    ensures Replaced([c]) == if c == BACKSLASH || c == PIPE then [BACKSLASH, c] else if c == '`' then "'" else [c]
  {
    ReplaceShort(c, c, BACKSLASH, "\\\\");
    ReplaceShort(c, c, PIPE, "\\|");
    ReplaceShort(c, c, '`', "'");
    ReplaceShort(BACKSLASH, c, '`', "'");
    assert "\\\\" == [BACKSLASH, BACKSLASH] && "\\|" == [BACKSLASH, PIPE];
    assert [c] + [c] == [c, c] && [BACKSLASH] + [c] == [BACKSLASH, c];
    hide ReplaceAll;
  }

  /** The passes do not disturb one another: doubling backslashes before escaping pipes means no pass
      rewrites what an earlier one produced. */
  lemma {:induction false} PassesAreCharacterwise(s: string)
    ensures MdEscape(s) == EscapeAll(s)
  {
    if s == "" {
    } else {
      var c := if s[0] < ' ' || s[0] == '\U{7F}' then ' ' else s[0];
      var rest := MapControls(s[1..]);
      assert MapControls(s) == [c] + rest;
      ReplacedConcat([c], rest);
      ReplacedChar(c);
      PassesAreCharacterwise(s[1..]);
      hide Replaced;
    }
  }

  // ----- Reading it back

  /** A backslash stands for the character after it. */
  function Unescape(s: string): string {
    if s == "" then ""
    else if s[0] == BACKSLASH && |s| > 1 then [s[1]] + Unescape(s[2..])
    else [s[0]] + Unescape(s[1..])
  }

  /** Cleaning makes control characters spaces and backticks quotes, and leaves the rest. */
  lemma {:induction false} CleanMeaning(s: string)
    ensures |CleanAll(s)| == |s|
    ensures forall i | 0 <= i < |s| ::
              CleanAll(s)[i] == if s[i] < ' ' || s[i] == '\U{7F}' then ' ' else if s[i] == '`' then '\'' else s[i]
  {
    if s == "" {
    } else {
      CleanMeaning(s[1..]);
    }
  }

  /** Unescaping recovers every cell, up to control characters having become spaces and backticks quotes. */
  lemma {:induction false} UnescapeRecovers(s: string)
    ensures Unescape(MdEscape(s)) == CleanAll(s)
  {
    PassesAreCharacterwise(s);
    if s == "" {
    } else {
      PassesAreCharacterwise(s[1..]);
      UnescapeRecovers(s[1..]);
      var rest := EscapeAll(s[1..]);
      assert EscapeAll(s) == EscapeChar(s[0]) + rest;
      if |EscapeChar(s[0])| == 2 {
        assert (EscapeChar(s[0]) + rest)[2..] == rest;
      } else {
        assert (EscapeChar(s[0]) + rest)[1..] == rest;
      }
    }
  }

  /** Nothing escaped holds a control character or a backtick. */
  lemma {:induction false} EscapedIsHarmless(s: string)
    ensures forall i | 0 <= i < |MdEscape(s)| ::
              MdEscape(s)[i] >= ' ' && MdEscape(s)[i] != '\U{7F}' && MdEscape(s)[i] != '`'
  {
    PassesAreCharacterwise(s);
    if s == "" {
    } else {
      PassesAreCharacterwise(s[1..]);
      EscapedIsHarmless(s[1..]);
      assert EscapeAll(s) == EscapeChar(s[0]) + EscapeAll(s[1..]);
    }
  }

  // ----- Splitting a row at pipes preceded by an even run of backslashes

  /** The length of the run of backslashes that ends the string. */
  function TrailingRun(s: string): nat {
    if s != "" && s[|s| - 1] == BACKSLASH then TrailingRun(s[..|s| - 1]) + 1 else 0
  }

  /** A pipe after this text would be escaped. */
  predicate Armed(s: string) {
    s != "" && s[|s| - 1] == BACKSLASH && !Armed(s[..|s| - 1])
  }

  lemma {:induction false} ArmedByOddRun(s: string)
    ensures Armed(s) <==> TrailingRun(s) % 2 == 1
  {
    if s == "" {
    } else {
      ArmedByOddRun(s[..|s| - 1]);
    }
  }

  function Cells(s: string): (cells: seq<string>)
    ensures |cells| > 0
  {
    if s == "" then [""]
    else
      var before, c := s[..|s| - 1], s[|s| - 1];
      Push(Cells(before), c, c == PIPE && !Armed(before))
  }

  /** Starts a new cell at a break, extends the last one otherwise. */
  function Push(cells: seq<string>, c: char, isBreak: bool): (r: seq<string>)
    requires |cells| > 0
    ensures |r| > 0
  {
    if isBreak then cells + [""] else cells[..|cells| - 1] + [cells[|cells| - 1] + [c]]
  }

  /** Joins two lists of cells whose last and first cell are one. */
  function Splice(a: seq<string>, b: seq<string>): seq<string>
    requires |a| > 0 && |b| > 0
  {
    a[..|a| - 1] + [a[|a| - 1] + b[0]] + b[1..]
  }

  lemma {:induction false} RunConcat(y: string, p: string)
    requires !Armed(y)
    ensures Armed(y + p) <==> Armed(p)
  {
    if p == "" {
      assert y + p == y;
    } else {
      assert (y + p)[..|y + p| - 1] == y + p[..|p| - 1];
      RunConcat(y, p[..|p| - 1]);
    }
  }

  lemma PushSplice(a: seq<string>, b: seq<string>, c: char, isBreak: bool)
    requires |a| > 0 && |b| > 0
    ensures Push(Splice(a, b), c, isBreak) == Splice(a, Push(b, c, isBreak))
  {
    var m := Splice(a, b);
    if !isBreak && |b| == 1 {
      assert m[|m| - 1] == a[|a| - 1] + b[0] && Push(b, c, isBreak) == [b[0] + [c]];
      assert a[|a| - 1] + (b[0] + [c]) == a[|a| - 1] + b[0] + [c];
    } else if !isBreak {
      assert m[|m| - 1] == b[|b| - 1];
    }
  }

  /** After an even run, what follows splits as it would by itself. */
  lemma {:induction false} CellsConcat(y: string, p: string)
    requires !Armed(y)
    ensures Cells(y + p) == Splice(Cells(y), Cells(p))
  {
    if p == "" {
      var a := Cells(y);
      assert y + p == y && a[|a| - 1] + "" == a[|a| - 1];
    } else {
      var before, c := p[..|p| - 1], p[|p| - 1];
      assert (y + p)[..|y + p| - 1] == y + before && (y + p)[|y + p| - 1] == c;
      RunConcat(y, before);
      CellsConcat(y, before);
      PushSplice(Cells(y), Cells(before), c, c == PIPE && !Armed(before));
    }
  }

  /** Text that neither contains a cell break nor arms or disarms one after it. */
  predicate Whole(p: string) {
    Cells(p) == [p] && !Armed(p)
  }

  lemma WholeConcat(p: string, q: string)
    requires Whole(p) && Whole(q)
    ensures Whole(p + q)
  {
    CellsConcat(p, q);
    RunConcat(p, q);
  }

  lemma {:induction false} PlainIsWhole(p: string)
    requires forall i | 0 <= i < |p| :: p[i] != PIPE && p[i] != BACKSLASH
    ensures Whole(p)
  {
    if p == "" {
    } else {
      PlainIsWhole(p[..|p| - 1]);
      assert p == p[..|p| - 1] + [p[|p| - 1]];
    }
  }

  lemma CellsOneMore(y: string, c: char)
    ensures Cells(y + [c]) == Push(Cells(y), c, c == PIPE && !Armed(y))
    ensures Armed(y + [c]) <==> c == BACKSLASH && !Armed(y)
  {
    assert (y + [c])[..|y|] == y;
  }

  lemma OneChar(c: char)
    ensures Cells([c]) == if c == PIPE then ["", ""] else [[c]]
    ensures Armed([c]) <==> c == BACKSLASH
  {
    CellsOneMore("", c);
    assert "" + [c] == [c] && Cells("") == [""] && !Armed("");
  }

  lemma EscapedPairIsWhole(c: char)
    requires c == BACKSLASH || c == PIPE
    ensures Whole([BACKSLASH, c])
  {
    OneChar(BACKSLASH);
    CellsOneMore([BACKSLASH], c);
    assert [BACKSLASH] + [c] == [BACKSLASH, c];
    hide Cells, Armed;
  }

  lemma EscapedCharIsWhole(c: char)
    ensures Whole(EscapeChar(c))
  {
    hide Whole;
    if Clean(c) == BACKSLASH || Clean(c) == PIPE {
      EscapedPairIsWhole(Clean(c));
    } else {
      PlainIsWhole(EscapeChar(c));
    }
  }

  /** Escaped text is whole, whatever it was. */
  lemma {:induction false} EscapedIsWhole(s: string)
    ensures Whole(MdEscape(s))
  {
    PassesAreCharacterwise(s);
    if s == "" {
      PlainIsWhole("");
    } else {
      EscapedCharIsWhole(s[0]);
      PassesAreCharacterwise(s[1..]);
      EscapedIsWhole(s[1..]);
      WholeConcat(EscapeChar(s[0]), EscapeAll(s[1..]));
    }
  }

  function Join(parts: seq<string>): string
    requires |parts| > 0
  {
    if |parts| == 1 then parts[0] else Join(parts[..|parts| - 1]) + [PIPE] + parts[|parts| - 1]
  }

  /** Behind a row that ends in an even run, a pipe starts a cell, and what follows splits as by itself. */
  lemma BreakSeparates(y: string, p: string)
    requires !Armed(y)
    ensures Cells(y + [PIPE] + p) == Cells(y) + Cells(p)
    ensures Armed(y + [PIPE] + p) <==> Armed(p)
  {
    CellsOneMore(y, PIPE);
    CellsConcat(y + [PIPE], p);
    RunConcat(y + [PIPE], p);
    SpliceBehindBreak(Cells(y), Cells(p));
    hide Cells, Armed, Splice;
  }

  lemma SpliceBehindBreak(cells: seq<string>, more: seq<string>)
    requires |more| > 0
    ensures Splice(cells + [""], more) == cells + more
  {
    assert (cells + [""])[..|cells|] == cells && "" + more[0] == more[0];
    assert more == [more[0]] + more[1..];
  }

  /** Every pipe in the text is escaped. */
  ghost predicate NoBreak(p: string) {
    forall i | 0 <= i < |p| && p[i] == PIPE :: Armed(p[..i])
  }

  lemma NoBreakOneMore(before: string, c: char)
    ensures NoBreak(before + [c]) <==> NoBreak(before) && !(c == PIPE && !Armed(before))
  {
    var p := before + [c];
    assert p[|before|] == c && p[..|before|] == before;
    forall i | 0 <= i < |before| ensures p[i] == before[i] && p[..i] == before[..i] {
    }
    hide Armed;
    if NoBreak(p) {
      forall i | 0 <= i < |before| && before[i] == PIPE ensures Armed(before[..i]) {
        assert p[i] == PIPE;
      }
    }
  }

  lemma PushOne(cells: seq<string>, before: string, c: char, isBreak: bool)
    requires |cells| > 0 && (|cells| == 1 ==> cells == [before])
    ensures |Push(cells, c, isBreak)| == 1 <==> |cells| == 1 && !isBreak
    ensures |Push(cells, c, isBreak)| == 1 ==> Push(cells, c, isBreak) == [before + [c]]
  {
  }

  lemma {:induction false} OneCellExactlyWhen(p: string)
    ensures |Cells(p)| == 1 <==> NoBreak(p)
    ensures |Cells(p)| == 1 ==> Cells(p) == [p]
  {
    if p == "" {
    } else {
      var before, c := p[..|p| - 1], p[|p| - 1];
      hide Cells, Armed, NoBreak, Push;
      assert p == before + [c];
      OneCellExactlyWhen(before);
      CellsOneMore(before, c);
      NoBreakOneMore(before, c);
      PushOne(Cells(before), before, c, c == PIPE && !Armed(before));
    }
  }

  /** The cells of all parts, one after another. */
  function AllCells(parts: seq<string>): seq<string> {
    if parts == [] then [] else AllCells(parts[..|parts| - 1]) + Cells(parts[|parts| - 1])
  }

  lemma {:induction false} JoinCells(parts: seq<string>)
    requires |parts| > 0 && forall i | 0 <= i < |parts| :: !Armed(parts[i])
    ensures Cells(Join(parts)) == AllCells(parts) && !Armed(Join(parts))
  {
    if |parts| == 1 {
      assert AllCells(parts[..0]) == [];
    } else {
      hide Cells, Armed;
      JoinCells(parts[..|parts| - 1]);
      BreakSeparates(Join(parts[..|parts| - 1]), parts[|parts| - 1]);
    }
  }

  lemma {:induction false} AllCellsCount(parts: seq<string>)
    ensures |AllCells(parts)| >= |parts|
    ensures |AllCells(parts)| == |parts| <==> forall i | 0 <= i < |parts| :: NoBreak(parts[i])
    ensures |AllCells(parts)| == |parts| ==> AllCells(parts) == parts
  {
    hide NoBreak, Cells;
    if parts == [] {
    } else {
      var init, last := parts[..|parts| - 1], parts[|parts| - 1];
      assert parts == init + [last];
      AllCellsCount(init);
      OneCellExactlyWhen(last);
    }
  }

  /** Parts of which none escapes the pipe after it, joined with raw pipes, split back into exactly those parts if and
      only if no part contains an unescaped pipe; otherwise there are more cells than parts. */
  lemma JoinSplitsExactlyWhen(parts: seq<string>)
    requires |parts| > 0 && forall i | 0 <= i < |parts| :: !Armed(parts[i])
    ensures Cells(Join(parts)) == parts <==> forall i | 0 <= i < |parts| :: NoBreak(parts[i])
    ensures |Cells(Join(parts))| == |parts| <==> forall i | 0 <= i < |parts| :: NoBreak(parts[i])
    ensures |Cells(Join(parts))| >= |parts|
  {
    JoinCells(parts);
    AllCellsCount(parts);
    hide *;
  }

  lemma WholeMeaning(p: string)
    ensures Whole(p) <==> NoBreak(p) && !Armed(p)
  {
    OneCellExactlyWhen(p);
    hide NoBreak, Cells, Armed;
  }

  function EscapeEach(cells: seq<string>): (r: seq<string>)
    ensures |r| == |cells| && forall i | 0 <= i < |cells| :: r[i] == MdEscape(cells[i])
  {
    seq(|cells|, i requires 0 <= i < |cells| => MdEscape(cells[i]))
  }

  /** For every list of cells: escaped and joined with raw pipes they split back into exactly as many cells,
      and each reads as it was, cleaned. */
  lemma RowRoundTrip(cells: seq<string>)
    requires |cells| > 0
    ensures var back := Cells(Join(EscapeEach(cells)));
      |back| == |cells| && forall i | 0 <= i < |cells| :: Unescape(back[i]) == CleanAll(cells[i])
  {
    hide Cells, Armed, NoBreak, Whole, Join, Unescape, MdEscape;
    forall i | 0 <= i < |cells|
      ensures NoBreak(EscapeEach(cells)[i]) && !Armed(EscapeEach(cells)[i])
      ensures Unescape(EscapeEach(cells)[i]) == CleanAll(cells[i])
    {
      EscapedIsWhole(cells[i]);
      WholeMeaning(MdEscape(cells[i]));
      UnescapeRecovers(cells[i]);
    }
    JoinSplitsExactlyWhen(EscapeEach(cells));
  }

  // ----- The detail table

  function Quoted(s: string): string {
    " `" + MdEscape(s) + "` "
  }

  function Padded(s: string): string {
    " " + s + " "
  }

  /** One row of the detail table; the line number and the severity are written as they are. */
  function DetailParts(file: string, line: string, severity: string, rule: string, message: string,
                       excerpt: string): seq<string> {
    ["", Quoted(file), Padded(line), Padded(severity), Quoted(rule), Padded(MdEscape(message)),
     if excerpt != "" then Quoted(excerpt) else "  ", "\n"]
  }

  lemma QuotedIsWhole(s: string)
    ensures Whole(Quoted(s))
  {
    EscapedIsWhole(s);
    PlainIsWhole(" `");
    PlainIsWhole("` ");
    WholeConcat(" `", MdEscape(s));
    WholeConcat(" `" + MdEscape(s), "` ");
    hide Whole;
  }

  /** Padding changes nothing, and never leaves a pipe escaped. */
  lemma PaddedMeaning(s: string)
    ensures NoBreak(Padded(s)) <==> NoBreak(s)
    ensures !Armed(Padded(s))
  {
    var p := " " + s;
    assert Padded(s)[..|p|] == p && Padded(s)[|p|] == ' ';
    OneChar(' ');
    forall i | 0 <= i < |s| ensures Armed(p[..i + 1]) <==> Armed(s[..i]) {
      assert p[..i + 1] == " " + s[..i];
      RunConcat(" ", s[..i]);
    }
    hide Armed;
    forall i | 0 <= i < |s| ensures Padded(s)[i + 1] == s[i] && Padded(s)[..i + 1] == p[..i + 1] {
    }
    if NoBreak(s) {
      forall i | 0 <= i < |Padded(s)| && Padded(s)[i] == PIPE ensures Armed(Padded(s)[..i]) {
        assert 0 < i <= |s| && s[i - 1] == PIPE;
        assert Armed(s[..i - 1]);
      }
    }
    if NoBreak(Padded(s)) {
      forall i | 0 <= i < |s| && s[i] == PIPE ensures Armed(s[..i]) {
        assert Padded(s)[i + 1] == PIPE;
      }
    }
  }

  /** A part of the row that neither breaks it nor reaches beyond itself. */
  ghost predicate Fits(p: string) {
    NoBreak(p) && !Armed(p)
  }

  lemma FixedPartsFit(s: string)
    ensures Fits(Quoted(s)) && Fits(Padded(MdEscape(s))) && Fits("") && Fits("  ") && Fits("\n")
  {
    QuotedIsWhole(s);
    EscapedIsWhole(s);
    PlainIsWhole("");
    PlainIsWhole("  ");
    PlainIsWhole("\n");
    WholeMeaning(Quoted(s));
    WholeMeaning(MdEscape(s));
    WholeMeaning("");
    WholeMeaning("  ");
    WholeMeaning("\n");
    PaddedMeaning(MdEscape(s));
    hide Whole, NoBreak, Armed, Quoted, Padded;
  }

  lemma LineFits(line: string)
    requires forall i | 0 <= i < |line| :: line[i] == '-' || '0' <= line[i] <= '9'
    ensures Fits(Padded(line))
  {
    PlainIsWhole(line);
    WholeMeaning(line);
    PaddedMeaning(line);
    hide Whole, NoBreak, Armed, Padded;
  }

  /** Whatever file, rule, message and excerpt say, a detail row keeps its six columns exactly when the severity,
      which is written raw, holds no unescaped pipe. */
  lemma DetailRowKeepsColumns(file: string, line: string, severity: string, rule: string, message: string,
                              excerpt: string)
    requires forall i | 0 <= i < |line| :: line[i] == '-' || '0' <= line[i] <= '9'
    ensures var parts := DetailParts(file, line, severity, rule, message, excerpt);
      && (Cells(Join(parts)) == parts <==> NoBreak(severity))
      && (|Cells(Join(parts))| == |parts| <==> NoBreak(severity))
  {
    FixedPartsFit(file);
    FixedPartsFit(rule);
    FixedPartsFit(message);
    FixedPartsFit(excerpt);
    LineFits(line);
    PaddedMeaning(severity);
    hide NoBreak, Armed, Quoted, Padded, MdEscape, Cells, Join;
    var parts := DetailParts(file, line, severity, rule, message, excerpt);
    assert forall i | 0 <= i < |parts| && i != 3 :: Fits(parts[i]);
    JoinSplitsExactlyWhen(parts);
    assert (forall i | 0 <= i < |parts| :: NoBreak(parts[i])) <==> NoBreak(parts[3]);
  }

  /** Read back, a row that keeps its columns has every field in its own: file, line, severity, rule, message,
      excerpt. */
  lemma DetailRowReads(file: string, line: string, severity: string, rule: string, message: string, excerpt: string)
    requires NoBreak(severity) && forall i | 0 <= i < |line| :: line[i] == '-' || '0' <= line[i] <= '9'
    ensures var back := Cells(Join(DetailParts(file, line, severity, rule, message, excerpt)));
      && |back| == 8 && back[0] == "" && back[7] == "\n"
      && back[1] == " `" + MdEscape(file) + "` " && back[2] == " " + line + " " && back[3] == " " + severity + " "
      && back[4] == " `" + MdEscape(rule) + "` " && back[5] == " " + MdEscape(message) + " "
      && back[6] == (if excerpt == "" then "  " else " `" + MdEscape(excerpt) + "` ")
  {
    DetailRowKeepsColumns(file, line, severity, rule, message, excerpt);
    var parts := DetailParts(file, line, severity, rule, message, excerpt);
    hide Cells, Join, NoBreak, MdEscape;
    PartsMeaning(file, line, severity, rule, message, excerpt);
    hide DetailParts;
  }

  lemma PartsMeaning(file: string, line: string, severity: string, rule: string, message: string, excerpt: string)
    ensures var parts := DetailParts(file, line, severity, rule, message, excerpt);
      && |parts| == 8 && parts[0] == "" && parts[7] == "\n"
      && parts[1] == " `" + MdEscape(file) + "` " && parts[2] == " " + line + " " && parts[3] == " " + severity + " "
      && parts[4] == " `" + MdEscape(rule) + "` " && parts[5] == " " + MdEscape(message) + " "
      && parts[6] == (if excerpt == "" then "  " else " `" + MdEscape(excerpt) + "` ")
  {
    hide MdEscape;
  }

  /** A severity of "a|b" gives the row a column too many. */
  lemma DetailRowCanBreak(file: string, rule: string, message: string, excerpt: string)
    ensures var parts := DetailParts(file, "1", "a|b", rule, message, excerpt);
      |Cells(Join(parts))| != |parts|
  {
    DetailRowKeepsColumns(file, "1", "a|b", rule, message, excerpt);
    assert "a|b"[1] == PIPE && !Armed("a|b"[..1]);
  }
}
