/** Strings: splitting, stripping and decimal numbers. */
module Text {
  /** strings.Contains. */
  predicate Contains(s: string, t: string) {
    exists i | 0 <= i <= |s| :: t <= s[i..]
  }

  /** strings.Split with a separator of one character. */
  function Split(s: string, c: char): (r: seq<string>)
    ensures r != []
  {
    if s == [] then [[]]
    else
      var r := Split(s[1..], c);
      if s[0] == c then [[]] + r else [[s[0]] + r[0]] + r[1..]
  }

  function Join(parts: seq<string>, c: char): string
    requires parts != []
  {
    if |parts| == 1 then parts[0] else parts[0] + [c] + Join(parts[1..], c)
  }

  lemma {:induction false} SplitPlain(s: string, c: char)
    requires c !in s
    ensures Split(s, c) == [s]
  {
    if s != [] {
      SplitPlain(s[1..], c);
      assert [s[0]] + s[1..] == s;
    }
  }

  lemma {:induction false} SplitAfter(s: string, c: char, t: string)
    requires c !in s
    ensures Split(s + [c] + t, c) == [s] + Split(t, c)
  {
    if s == [] {
      assert ([] + [c] + t)[1..] == t;
    } else {
      SplitAfter(s[1..], c, t);
      assert (s + [c] + t)[1..] == s[1..] + [c] + t;
      assert [s[0]] + s[1..] == s;
    }
  }

  lemma {:induction false} SplitJoin(parts: seq<string>, c: char)
    requires parts != [] && forall i | 0 <= i < |parts| :: c !in parts[i]
    ensures Split(Join(parts, c), c) == parts
  {
    if |parts| == 1 {
      SplitPlain(parts[0], c);
    } else {
      SplitJoin(parts[1..], c);
      SplitAfter(parts[0], c, Join(parts[1..], c));
    }
  }

  /** Quotes and spaces are dropped everywhere. */
  function Strip(s: string): string {
    if s == [] then []
    else if s[0] == '\'' || s[0] == ' ' then Strip(s[1..])
    else [s[0]] + Strip(s[1..])
  }

  lemma {:induction false} StripAppend(s: string, t: string)
    ensures Strip(s + t) == Strip(s) + Strip(t)
  {
    if s == [] {
      assert s + t == t;
    } else {
      StripAppend(s[1..], t);
      assert (s + t)[1..] == s[1..] + t;
      assert [s[0]] + (Strip(s[1..]) + Strip(t)) == [s[0]] + Strip(s[1..]) + Strip(t);
    }
  }

  lemma {:induction false} StripPlain(s: string)
    requires '\'' !in s && ' ' !in s
    ensures Strip(s) == s
  {
    if s != [] { StripPlain(s[1..]); }
  }

  predicate IsDigit(c: char) {
    '0' <= c <= '9'
  }

  function DigitValue(c: char): nat
    requires IsDigit(c)
  {
    c as int - '0' as int
  }

  function Digits(n: nat): (s: string)
    ensures s != [] && forall i | 0 <= i < |s| :: IsDigit(s[i])
  {
    if n < 10 then [('0' as int + n) as char] else Digits(n / 10) + [('0' as int + n % 10) as char]
  }

  function Decimal(s: string): nat
    requires forall i | 0 <= i < |s| :: IsDigit(s[i])
  {
    if s == [] then 0 else Decimal(s[..|s| - 1]) * 10 + DigitValue(s[|s| - 1])
  }

  /** The value strconv.ParseUint(s, 10, bits) returns with or without an error; max is 2^bits - 1. */
  function ParseUint(s: string, max: nat): nat {
    if s == [] || exists i | 0 <= i < |s| :: !IsDigit(s[i]) then 0
    else if max < Decimal(s) then max
    else Decimal(s)
  }

  lemma {:induction false} DecimalDigits(n: nat)
    ensures Decimal(Digits(n)) == n
  {
    if n >= 10 {
      DecimalDigits(n / 10);
      assert Digits(n)[..|Digits(n)| - 1] == Digits(n / 10);
    } else {
      assert Digits(n)[..0] == [];
    }
  }

  lemma ParseDigits(n: nat, max: nat)
    requires n <= max
    ensures ParseUint(Digits(n), max) == n
  {
    DecimalDigits(n);
  }
}

/** The name-prefixed output of the LVM commands, printed and parsed (pkg/devicemanager/lvmd/parse.go). */
module LvmOutput {
  import opened Text
  import opened Wrappers

  /** A key and its value. */
  type Field = (string, string)

  /** Free of the characters that the format uses. */
  predicate Clean(s: string) {
    forall i | 0 <= i < |s| :: CleanChar(s[i])
  }

  predicate CleanChar(c: char) {
    c != ',' && c != '=' && c != '\'' && c != ' ' && c != '\n'
  }

  predicate CleanRow(row: seq<Field>) {
    row != [] && forall i | 0 <= i < |row| :: Clean(row[i].0) && Clean(row[i].1)
  }

  // Printing.

  function PrintField(f: Field): string {
    f.0 + "='" + f.1 + "'"
  }

  function PrintRow(row: seq<Field>): string
    requires row != []
  {
    if |row| == 1 then PrintField(row[0]) else PrintField(row[0]) + "," + PrintRow(row[1..])
  }

  /** One line for each row, indented by two spaces. */
  function Print(rows: seq<seq<Field>>): string
    requires forall i | 0 <= i < |rows| :: rows[i] != []
  {
    if rows == [] then ""
    else if |rows| == 1 then "  " + PrintRow(rows[0])
    else "  " + PrintRow(rows[0]) + "\n" + Print(rows[1..])
  }

  // Parsing.

  /** The fields of one line, applied one after the other; a piece without `=` makes k[1] panic. */
  function Fold<R>(acc: R, pieces: seq<string>, set1: (R, string, string) -> R): Option<R> {
    if pieces == [] then Some(acc)
    else
      var k := Split(pieces[0], '=');
      if |k| < 2 then None else Fold(set1(acc, k[0], k[1]), pieces[1..], set1)
  }

  function Records<R>(lines: seq<string>, blank: R, set1: (R, string, string) -> R, keep: R -> bool): Option<seq<R>> {
    if lines == [] then Some([])
    else
      match Fold(blank, Split(lines[0], ','), set1)
      case None => None
      case Some(r) =>
        match Records(lines[1..], blank, set1, keep)
        case None => None
        case Some(rest) => Some((if keep(r) then [r] else []) + rest)
  }

  function Parsed<R>(text: string, blank: R, set1: (R, string, string) -> R, keep: R -> bool): Option<seq<R>> {
    if text == "" then Some([]) else Records(Split(Strip(text), '\n'), blank, set1, keep)
  }

  /** The inner loop: one line's fields go into a temporary record. */
  method ParseLine<R>(pieces: seq<string>, blank: R, set1: (R, string, string) -> R) returns (r: Option<R>)
    ensures r == Fold(blank, pieces, set1)
  {
    var tmp := blank;
    for j := 0 to |pieces|
      invariant Fold(blank, pieces, set1) == Fold(tmp, pieces[j..], set1)
    {
      var k := Split(pieces[j], '=');
      assert pieces[j..][1..] == pieces[j + 1..];
      if |k| < 2 { return None; }
      tmp := set1(tmp, k[0], k[1]);
    }
    return Some(tmp);
  }

  function Prepend<R>(done: seq<R>, rest: Option<seq<R>>): Option<seq<R>> {
    if rest.None? then None else Some(done + rest.value)
  }

  /** parseVgs, parsePvs and parseLvs, which differ in the record, the switch and the filter; None is the panic. */
  method Parse<R>(text: string, blank: R, set1: (R, string, string) -> R, keep: R -> bool) returns (r: Option<seq<R>>)
    ensures r == Parsed(text, blank, set1, keep)
  {
    var resp: seq<R> := [];
    if text == "" { return Some(resp); }
    var lines := Split(Strip(text), '\n');
    ghost var all := Records(lines, blank, set1, keep);
    assert lines[0..] == lines;
    PrependEmpty(all, resp);
    for i := 0 to |lines|
      invariant all == Prepend(resp, Records(lines[i..], blank, set1, keep))
    {
      assert lines[i..][0] == lines[i] && lines[i..][1..] == lines[i + 1..];
      var line := ParseLine(Split(lines[i], ','), blank, set1);
      if line.None? { return None; }
      PrependStep(resp, line.value, keep, Records(lines[i + 1..], blank, set1, keep));
      if keep(line.value) {
        resp := resp + [line.value];
      }
    }
    PrependEmpty(all, resp);
    return Some(resp);
  }

  lemma PrependEmpty<R>(rest: Option<seq<R>>, done: seq<R>)
    ensures Prepend([], rest) == rest && Prepend(done, Some([])) == Some(done)
  {
    if rest.Some? { assert [] + rest.value == rest.value; }
    assert done + [] == done;
  }

  lemma PrependStep<R>(done: seq<R>, r: R, keep: R -> bool, rest: Option<seq<R>>)
    ensures var kept := if keep(r) then [r] else [];
            Prepend(done, Prepend(kept, rest)) == Prepend(if keep(r) then done + [r] else done, rest)
  {
    if rest.Some? {
      if keep(r) {
        assert done + ([r] + rest.value) == done + [r] + rest.value;
      } else {
        assert [] + rest.value == rest.value;
      }
    }
  }

  // The round trip.

  function Plain(f: Field): string {
    f.0 + "=" + f.1
  }

  function PlainRow(row: seq<Field>): (r: seq<string>)
    ensures |r| == |row| && forall i | 0 <= i < |row| :: r[i] == Plain(row[i])
  {
    if row == [] then [] else [Plain(row[0])] + PlainRow(row[1..])
  }

  lemma StripField(f: Field)
    requires Clean(f.0) && Clean(f.1)
    ensures Strip(PrintField(f)) == Plain(f)
  {
    StripPlain(f.0);
    StripPlain(f.1);
    StripAppend(f.0 + "='" + f.1, "'");
    StripAppend(f.0 + "='", f.1);
    StripAppend(f.0, "='");
    assert Strip("'") == [] && Strip("='") == "=";
  }

  lemma {:induction false} StripRow(row: seq<Field>)
    requires CleanRow(row)
    ensures Strip(PrintRow(row)) == Join(PlainRow(row), ',')
  {
    StripField(row[0]);
    if |row| > 1 {
      StripRow(row[1..]);
      StripAppend(PrintField(row[0]) + ",", PrintRow(row[1..]));
      StripAppend(PrintField(row[0]), ",");
      assert PlainRow(row)[1..] == PlainRow(row[1..]);
    }
  }

  function Lines(rows: seq<seq<Field>>): (r: seq<string>)
    requires forall i | 0 <= i < |rows| :: rows[i] != []
    ensures |r| == |rows| && forall i | 0 <= i < |rows| :: r[i] == Join(PlainRow(rows[i]), ',')
  {
    if rows == [] then [] else [Join(PlainRow(rows[0]), ',')] + Lines(rows[1..])
  }

  predicate CleanRows(rows: seq<seq<Field>>) {
    forall i | 0 <= i < |rows| :: CleanRow(rows[i])
  }

  lemma {:induction false} StripRows(rows: seq<seq<Field>>)
    requires rows != [] && CleanRows(rows)
    ensures Strip(Print(rows)) == Join(Lines(rows), '\n')
  {
    StripRow(rows[0]);
    StripAppend("  ", PrintRow(rows[0]));
    assert Strip("  ") == [];
    if |rows| > 1 {
      StripRows(rows[1..]);
      StripAppend("  " + PrintRow(rows[0]) + "\n", Print(rows[1..]));
      StripAppend("  " + PrintRow(rows[0]), "\n");
      assert Lines(rows)[1..] == Lines(rows[1..]);
    }
  }

  lemma {:induction false} JoinWithout(parts: seq<string>, c: char, x: char)
    requires parts != [] && x != c && forall i | 0 <= i < |parts| :: x !in parts[i]
    ensures x !in Join(parts, c)
  {
    if |parts| > 1 { JoinWithout(parts[1..], c, x); }
  }

  lemma LineSplitsBack(row: seq<Field>)
    requires CleanRow(row)
    ensures '\n' !in Join(PlainRow(row), ',')
    ensures Split(Join(PlainRow(row), ','), ',') == PlainRow(row)
  {
    JoinWithout(PlainRow(row), ',', '\n');
    SplitJoin(PlainRow(row), ',');
  }

  /** Splitting the stripped text gives the lines back. */
  lemma SplitsBack(rows: seq<seq<Field>>)
    requires rows != [] && CleanRows(rows)
    ensures Split(Strip(Print(rows)), '\n') == Lines(rows)
  {
    StripRows(rows);
    forall i | 0 <= i < |rows| ensures '\n' !in Lines(rows)[i] {
      assert CleanRow(rows[i]);
      LineSplitsBack(rows[i]);
    }
    SplitJoin(Lines(rows), '\n');
  }

  lemma SplitField(f: Field)
    requires Clean(f.0) && Clean(f.1)
    ensures Split(Plain(f), '=') == [f.0, f.1]
  {
    SplitAfter(f.0, '=', f.1);
    SplitPlain(f.1, '=');
    assert f.0 + "=" + f.1 == f.0 + ['='] + f.1;
  }

  /** The fields applied directly. */
  function Applied<R>(acc: R, row: seq<Field>, set1: (R, string, string) -> R): R {
    if row == [] then acc else Applied(set1(acc, row[0].0, row[0].1), row[1..], set1)
  }

  lemma {:induction false} FoldApplies<R>(acc: R, row: seq<Field>, set1: (R, string, string) -> R)
    requires forall i | 0 <= i < |row| :: Clean(row[i].0) && Clean(row[i].1)
    ensures Fold(acc, PlainRow(row), set1) == Some(Applied(acc, row, set1))
    decreases |row|
  {
    if row != [] {
      SplitField(row[0]);
      assert PlainRow(row)[1..] == PlainRow(row[1..]);
      FoldApplies(set1(acc, row[0].0, row[0].1), row[1..], set1);
    }
  }

  /** How a record is printed, and what the parser's switch makes of the fields. */
  ghost predicate Faithful<R(!new)>(row: R -> seq<Field>, blank: R, set1: (R, string, string) -> R, r: R) {
    CleanRow(row(r)) && Applied(blank, row(r), set1) == r
  }

  function Rows<R>(rs: seq<R>, row: R -> seq<Field>): (s: seq<seq<Field>>)
    ensures |s| == |rs| && forall i | 0 <= i < |rs| :: s[i] == row(rs[i])
  {
    if rs == [] then [] else [row(rs[0])] + Rows(rs[1..], row)
  }

  function Filter<R>(rs: seq<R>, keep: R -> bool): seq<R> {
    if rs == [] then [] else (if keep(rs[0]) then [rs[0]] else []) + Filter(rs[1..], keep)
  }

  lemma {:induction false} RecordsBack<R(!new)>(rs: seq<R>, row: R -> seq<Field>, blank: R, set1: (R, string, string) -> R,
                                                keep: R -> bool)
    requires forall i | 0 <= i < |rs| :: Faithful(row, blank, set1, rs[i])
    ensures CleanRows(Rows(rs, row))
    ensures Records(Lines(Rows(rs, row)), blank, set1, keep) == Some(Filter(rs, keep))
  {
    assert forall i | 0 <= i < |rs| :: Faithful(row, blank, set1, rs[i]);
    if rs != [] {
      var lines := Lines(Rows(rs, row));
      RecordsBack(rs[1..], row, blank, set1, keep);
      assert Rows(rs, row)[1..] == Rows(rs[1..], row);
      assert lines[1..] == Lines(Rows(rs[1..], row));
      LineSplitsBack(row(rs[0]));
      FoldApplies(blank, row(rs[0]), set1);
    }
  }

  lemma ParsedLines<R>(rows: seq<seq<Field>>, blank: R, set1: (R, string, string) -> R, keep: R -> bool)
    requires rows != [] && CleanRows(rows)
    ensures Parsed(Print(rows), blank, set1, keep) == Records(Lines(rows), blank, set1, keep)
  {
    SplitsBack(rows);
    assert Print(rows) != "" by {
      var first := PrintRow(rows[0]);
      assert |"  " + first| >= 2;
    }
  }

  /** Printing a list of records and parsing the text gives back exactly the records that are kept. */
  lemma RoundTrip<R(!new)>(rs: seq<R>, row: R -> seq<Field>, blank: R, set1: (R, string, string) -> R, keep: R -> bool)
    requires forall i | 0 <= i < |rs| :: Faithful(row, blank, set1, rs[i])
    ensures CleanRows(Rows(rs, row))
    ensures Parsed(Print(Rows(rs, row)), blank, set1, keep) == Some(Filter(rs, keep))
  {
    RecordsBack(rs, row, blank, set1, keep);
    if rs != [] { ParsedLines(Rows(rs, row), blank, set1, keep); }
  }

  // The panic.

  lemma {:induction false} SplitsIff(s: string, c: char)
    ensures |Split(s, c)| >= 2 <==> c in s
  {
    if s != [] {
      SplitsIff(s[1..], c);
      assert c in s <==> s[0] == c || c in s[1..];
    }
  }

  lemma {:induction false} FoldPanicsIff<R>(acc: R, pieces: seq<string>, set1: (R, string, string) -> R)
    ensures Fold(acc, pieces, set1).None? <==> exists j | 0 <= j < |pieces| :: '=' !in pieces[j]
    decreases |pieces|
  {
    if pieces != [] {
      SplitsIff(pieces[0], '=');
      var k := Split(pieces[0], '=');
      if |k| >= 2 {
        FoldPanicsIff(set1(acc, k[0], k[1]), pieces[1..], set1);
        assert forall j | 0 < j < |pieces| :: pieces[j] == pieces[1..][j - 1];
      }
    }
  }

  ghost predicate Malformed(line: string) {
    exists j | 0 <= j < |Split(line, ',')| :: '=' !in Split(line, ',')[j]
  }

  ghost predicate SomeMalformed(lines: seq<string>) {
    exists i | 0 <= i < |lines| :: Malformed(lines[i])
  }

  lemma {:induction false} RecordsPanicIff<R>(lines: seq<string>, blank: R, set1: (R, string, string) -> R, keep: R -> bool)
    ensures Records(lines, blank, set1, keep).None? <==> SomeMalformed(lines)
  {
    if lines != [] {
      FoldPanicsIff(blank, Split(lines[0], ','), set1);
      RecordsPanicIff(lines[1..], blank, set1, keep);
      assert forall i | 0 < i < |lines| :: lines[i] == lines[1..][i - 1];
    }
  }

  /** The parsers panic exactly on a text with some piece between separators that has no equals sign. */
  lemma ParsePanicsIff<R>(text: string, blank: R, set1: (R, string, string) -> R, keep: R -> bool)
    ensures Parsed(text, blank, set1, keep).None? <==> text != "" && SomeMalformed(Split(Strip(text), '\n'))
  {
    RecordsPanicIff(Split(Strip(text), '\n'), blank, set1, keep);
  }
}
