/**
 * The CSV-to-calendar converter of the chat-page content script: a
 * quote-aware CSV line splitter (after section 2 of RFC 4180), header
 * mapping, row-to-event building with an end-time fallback, the reminder
 * payload handed to the background service, and an iCalendar writer (RFC
 * 5545: CRLF content lines of section 3.1, VEVENT of section 3.6.1, DATE and
 * DATE-TIME values of sections 3.3.4 and 3.3.5).
 */
module CsvCalendar {
  import opened Wrappers
  import opened Text
  import Calendar
  import Reminders

  // ---------------------------------------------------------------------------
  // One CSV line

  /**
   * The raw cells `parseCsvLine` reads from the rest `s` of a line, given the
   * current cell and whether a quote is open; each is trimmed when pushed.
   */
  function Scan(s: string, cur: string, inQuotes: bool): (r: seq<string>)
    ensures |r| >= 1
    decreases |s|
  {
    if s == [] then [cur]
    else if inQuotes then
      if s[0] == '"' then
        if |s| > 1 && s[1] == '"' then Scan(s[2..], cur + "\"", true)
        else Scan(s[1..], cur, false)
      else Scan(s[1..], cur + [s[0]], true)
    else if s[0] == '"' then Scan(s[1..], cur, true)
    else if s[0] == ',' then [cur] + Scan(s[1..], "", false)
    else Scan(s[1..], cur + [s[0]], false)
  }

  predicate AllTrimmed(cells: seq<string>) {
    forall k :: 0 <= k < |cells| ==> IsTrimmed(cells[k])
  }

  /** `cells.map(c => c.trim())`. */
  function TrimAll(parts: seq<string>): (r: seq<string>)
    ensures |r| == |parts|
  {
    if parts == [] then [] else [Trim(parts[0])] + TrimAll(parts[1..])
  }

  /** Each cell is trimmed on its own. */
  lemma {:induction false} TrimAllAt(parts: seq<string>, k: nat)
    requires k < |parts|
    ensures TrimAll(parts)[k] == Trim(parts[k])
    decreases k
  {
    if k > 0 {
      TrimAllAt(parts[1..], k - 1);
    }
  }

  lemma {:induction false} TrimAllTrimmed(parts: seq<string>)
    ensures AllTrimmed(TrimAll(parts))
  {
    forall k | 0 <= k < |parts| ensures IsTrimmed(TrimAll(parts)[k]) {
      TrimAllAt(parts, k);
      TrimIsTrimmed(parts[k]);
    }
  }

  /** Trimming cells that are already trimmed changes nothing. */
  lemma {:induction false} TrimAllOfTrimmed(parts: seq<string>)
    requires AllTrimmed(parts)
    ensures TrimAll(parts) == parts
  {
    forall k | 0 <= k < |parts| ensures TrimAll(parts)[k] == parts[k] {
      TrimAllAt(parts, k);
      TrimOfTrimmed(parts[k]);
    }
  }

  lemma {:induction false} TrimAllCons(x: string, xs: seq<string>)
    ensures TrimAll([x] + xs) == [Trim(x)] + TrimAll(xs)
  {
    assert ([x] + xs)[1..] == xs;
  }

  /** `parseCsvLine(line)` as a value: at least one cell, each trimmed. */
  function CsvCells(line: string): (r: seq<string>)
    ensures |r| >= 1
  {
    TrimAll(Scan(line, "", false))
  }

  /** Every cell `parseCsvLine` returns is trimmed. */
  lemma {:induction false} CsvCellsTrimmed(line: string)
    ensures AllTrimmed(CsvCells(line))
  {
    TrimAllTrimmed(Scan(line, "", false));
  }

  /** One step of the scanner at position i of a line. */
  lemma {:induction false} ScanAt(line: string, i: nat, cur: string, q: bool)
    requires i < |line|
    ensures var ch := line[i];
      Scan(line[i..], cur, q) ==
        if q then
          if ch == '"' then
            if i + 1 < |line| && line[i + 1] == '"' then Scan(line[i + 2..], cur + "\"", true)
            else Scan(line[i + 1..], cur, false)
          else Scan(line[i + 1..], cur + [ch], true)
        else if ch == '"' then Scan(line[i + 1..], cur, true)
        else if ch == ',' then [cur] + Scan(line[i + 1..], "", false)
        else Scan(line[i + 1..], cur + [ch], false)
  {
    var s := line[i..];
    assert s[0] == line[i] && s[1..] == line[i + 1..];
    if i + 1 < |line| {
      assert s[1] == line[i + 1] && s[2..] == line[i + 2..];
    }
  }

  /** Trimming one more cell appends its trimmed form. */
  lemma {:induction false} TrimAllSnoc(xs: seq<string>, x: string)
    ensures TrimAll(xs + [x]) == TrimAll(xs) + [Trim(x)]
    decreases |xs|
  {
    if xs == [] {
      assert xs + [x] == [x];
    } else {
      TrimAllSnoc(xs[1..], x);
      assert (xs + [x])[1..] == xs[1..] + [x];
    }
  }

  /** `parseCsvLine`: the character loop. */
  method ParseCsvLine(line: string) returns (cells: seq<string>)
    ensures cells == CsvCells(line)
  {
    cells := [];
    ghost var raw: seq<string> := [];
    var current := "";
    var inQuotes := false;
    var i := 0;
    while i < |line|
      invariant 0 <= i <= |line|
      invariant cells == TrimAll(raw)
      invariant raw + Scan(line[i..], current, inQuotes) == Scan(line, "", false)
    {
      var ch := line[i];
      ScanAt(line, i, current, inQuotes);
      if inQuotes {
        if ch == '"' {
          if i + 1 < |line| && line[i + 1] == '"' {
            current := current + "\"";
            i := i + 1;
          } else {
            inQuotes := false;
          }
        } else {
          current := current + [ch];
        }
      } else if ch == '"' {
        inQuotes := true;
      } else if ch == ',' {
        assert raw + ([current] + Scan(line[i + 1..], "", false)) == (raw + [current]) + Scan(line[i + 1..], "", false);
        TrimAllSnoc(raw, current);
        raw := raw + [current];
        cells := cells + [Trim(current)];
        current := "";
      } else {
        current := current + [ch];
      }
      i := i + 1;
    }
    assert line[i..] == [];
    TrimAllSnoc(raw, current);
    cells := cells + [Trim(current)];
  }

  /**
   * The commas that split: those with an even number of quotes before them in
   * the rest of the line (an odd number when a quote is already open).
   */
  function SplittingCommas(s: string, inQuotes: bool): nat
    decreases |s|
  {
    if s == [] then 0
    else if s[0] == '"' then SplittingCommas(s[1..], !inQuotes)
    else if s[0] == ',' && !inQuotes then 1 + SplittingCommas(s[1..], inQuotes)
    else SplittingCommas(s[1..], inQuotes)
  }

  lemma {:induction false} ScanCount(s: string, cur: string, inQuotes: bool)
    ensures |Scan(s, cur, inQuotes)| == 1 + SplittingCommas(s, inQuotes)
    decreases |s|
  {
    if s != [] {
      if inQuotes {
        if s[0] == '"' {
          if |s| > 1 && s[1] == '"' {
            ScanCount(s[2..], cur + "\"", true);
            assert s[1..][0] == '"' && s[1..][1..] == s[2..];
          } else {
            ScanCount(s[1..], cur, false);
          }
        } else {
          ScanCount(s[1..], cur + [s[0]], true);
        }
      } else if s[0] == '"' {
        ScanCount(s[1..], cur, true);
      } else if s[0] == ',' {
        ScanCount(s[1..], "", false);
      } else {
        ScanCount(s[1..], cur + [s[0]], false);
      }
    }
  }

  /** A line has one more cell than it has commas outside quotes. */
  lemma {:induction false} CellCount(line: string)
    ensures |CsvCells(line)| == SplittingCommas(line, false) + 1
  {
    ScanCount(line, "", false);
  }

  /** After an unclosed quote, the rest of the line (commas included) is one cell. */
  lemma {:induction false} UnclosedQuoteAbsorbs(s: string, cur: string)
    requires '"' !in s
    ensures Scan(s, cur, true) == [cur + s]
    decreases |s|
  {
    if s == [] {
      assert cur + s == cur;
    } else {
      assert s[0] != '"' && '"' !in s[1..];
      UnclosedQuoteAbsorbs(s[1..], cur + [s[0]]);
      assert cur + [s[0]] + s[1..] == cur + s;
    }
  }

  /** An opening quote that is never closed keeps the rest of the line in one trimmed cell. */
  lemma {:induction false} UnclosedQuoteLine(before: string, after: string)
    requires '"' !in before && ',' !in before && '"' !in after
    ensures CsvCells(before + "\"" + after) == [Trim(before + after)]
  {
    PlainPrefix(before, "", after);
    assert "" + before == before;
    UnclosedQuoteAbsorbs(after, before);
    TrimAllCons(before + after, []);
    assert [before + after] + [] == [before + after];
  }

  /** Quote-free, comma-free text just extends the current cell. */
  lemma {:induction false} PlainPrefix(p: string, cur: string, rest: string)
    requires '"' !in p && ',' !in p
    ensures Scan(p + "\"" + rest, cur, false) == Scan(rest, cur + p, true)
    decreases |p|
  {
    if p == [] {
      assert p + "\"" + rest == "\"" + rest && ("\"" + rest)[1..] == rest;
      assert cur + p == cur;
    } else {
      assert (p + "\"" + rest)[0] == p[0];
      assert (p + "\"" + rest)[1..] == p[1..] + "\"" + rest;
      assert '"' !in p[1..] && ',' !in p[1..];
      PlainPrefix(p[1..], cur + [p[0]], rest);
      assert cur + [p[0]] + p[1..] == cur + p;
    }
  }

  /** The pieces of a quote-free line, with the current cell in front of the first. */
  function Prepend(cur: string, parts: seq<string>): seq<string>
    requires |parts| >= 1
  {
    [cur + parts[0]] + parts[1..]
  }

  /** A comma first: the current cell ends and the rest starts from an empty cell. */
  lemma {:induction false} ScanPlainComma(s: string, cur: string)
    requires s != [] && s[0] == ',' && Scan(s[1..], "", false) == Prepend("", SplitOn(s[1..], ','))
    ensures Scan(s, cur, false) == Prepend(cur, SplitOn(s, ','))
  {
    var rest := SplitOn(s[1..], ',');
    assert Scan(s, cur, false) == [cur] + Scan(s[1..], "", false);
    assert Prepend("", rest) == rest by {
      assert "" + rest[0] == rest[0];
    }
    assert SplitOn(s, ',') == [""] + rest;
    var parts := [""] + rest;
    assert parts[0] == "" && parts[1..] == rest && cur + "" == cur;
  }

  /** Any other character first: it joins the current cell. */
  lemma {:induction false} ScanPlainChar(s: string, cur: string)
    requires s != [] && s[0] != ',' && s[0] != '"'
    requires Scan(s[1..], cur + [s[0]], false) == Prepend(cur + [s[0]], SplitOn(s[1..], ','))
    ensures Scan(s, cur, false) == Prepend(cur, SplitOn(s, ','))
  {
    var rest := SplitOn(s[1..], ',');
    assert Scan(s, cur, false) == Scan(s[1..], cur + [s[0]], false);
    var parts := [[s[0]] + rest[0]] + rest[1..];
    assert SplitOn(s, ',') == parts;
    assert parts[0] == [s[0]] + rest[0] && parts[1..] == rest[1..];
    assert cur + ([s[0]] + rest[0]) == cur + [s[0]] + rest[0];
  }

  lemma {:induction false} ScanPlain(s: string, cur: string)
    requires '"' !in s
    ensures Scan(s, cur, false) == Prepend(cur, SplitOn(s, ','))
    decreases |s|
  {
    if s == [] {
      assert cur + "" == cur;
    } else {
      assert '"' !in s[1..];
      assert s[0] in s;
      if s[0] == ',' {
        ScanPlain(s[1..], "");
        ScanPlainComma(s, cur);
      } else {
        ScanPlain(s[1..], cur + [s[0]]);
        ScanPlainChar(s, cur);
      }
    }
  }

  /** A line without quotes splits at every comma into trimmed pieces. */
  lemma {:induction false} PlainLine(line: string)
    requires '"' !in line
    ensures CsvCells(line) == TrimAll(SplitOn(line, ','))
  {
    ScanPlain(line, "");
    var parts := SplitOn(line, ',');
    assert "" + parts[0] == parts[0];
    assert Prepend("", parts) == parts;
  }

  /** Plain trimmed cells without quotes or commas survive writing with `,` and reading back. */
  lemma {:induction false} PlainRoundTrip(cells: seq<string>)
    requires |cells| >= 1 && AllTrimmed(cells)
    requires forall k :: 0 <= k < |cells| ==> ',' !in cells[k] && '"' !in cells[k]
    ensures CsvCells(Join(cells, ",")) == cells
  {
    NoQuoteInJoin(cells);
    PlainLine(Join(cells, ","));
    SplitJoin(cells, ',');
    TrimAllOfTrimmed(cells);
  }

  lemma {:induction false} NoQuoteInJoin(cells: seq<string>)
    requires forall k :: 0 <= k < |cells| ==> '"' !in cells[k]
    ensures '"' !in Join(cells, ",")
    decreases |cells|
  {
    if |cells| > 1 {
      NoQuoteInJoin(cells[1..]);
      assert Join(cells, ",") == cells[0] + "," + Join(cells[1..], ",");
    }
  }

  /** A cell written as RFC 4180 quoted text: inner quotes doubled, surrounded by quotes. */
  function DoubleQuotes(f: string): (r: string) {
    if f == [] then [] else (if f[0] == '"' then "\"\"" else [f[0]]) + DoubleQuotes(f[1..])
  }

  function QuoteField(f: string): string {
    "\"" + DoubleQuotes(f) + "\""
  }

  function QuoteAll(cells: seq<string>): (r: seq<string>)
    ensures |r| == |cells|
  {
    if cells == [] then [] else [QuoteField(cells[0])] + QuoteAll(cells[1..])
  }

  /** One character of a quoted cell: a doubled quote or any other character. */
  lemma {:induction false} QuotedStep(f: string, tail: string, cur: string)
    requires f != []
    ensures Scan(DoubleQuotes(f) + tail, cur, true) == Scan(DoubleQuotes(f[1..]) + tail, cur + [f[0]], true)
  {
    var more := DoubleQuotes(f[1..]) + tail;
    var s := DoubleQuotes(f) + tail;
    if f[0] == '"' {
      assert s == "\"\"" + more;
      assert s[0] == '"' && s[1] == '"' && s[2..] == more;
    } else {
      assert s == [f[0]] + more;
      assert s[0] == f[0] && s[1..] == more;
    }
  }

  /** Inside quotes, doubled quotes read back as one quote each, up to the closing quote. */
  lemma {:induction false} ScanQuoted(f: string, rest: string, cur: string)
    requires rest == [] || rest[0] != '"'
    ensures Scan(DoubleQuotes(f) + ("\"" + rest), cur, true) == Scan(rest, cur + f, false)
    decreases |f|
  {
    if f == [] {
      assert DoubleQuotes(f) + ("\"" + rest) == "\"" + rest;
      assert ("\"" + rest)[1..] == rest;
      assert cur + f == cur;
    } else {
      QuotedStep(f, "\"" + rest, cur);
      ScanQuoted(f[1..], rest, cur + [f[0]]);
      assert cur + [f[0]] + f[1..] == cur + f;
    }
  }

  lemma {:induction false} ScanOpenQuote(x: string, cur: string)
    ensures Scan("\"" + x, cur, false) == Scan(x, cur, true)
  {
    assert ("\"" + x)[0] == '"' && ("\"" + x)[1..] == x;
  }

  lemma {:induction false} ScanComma(x: string, cur: string)
    ensures Scan("," + x, cur, false) == [cur] + Scan(x, "", false)
  {
    assert ("," + x)[0] == ',' && ("," + x)[1..] == x;
  }

  /** The written form of several cells: the first one quoted, a comma, the others. */
  lemma {:induction false} QuotedJoinHead(cells: seq<string>)
    requires |cells| > 1
    ensures Join(QuoteAll(cells), ",") ==
      "\"" + (DoubleQuotes(cells[0]) + ("\"" + ("," + Join(QuoteAll(cells[1..]), ","))))
  {
    var q := QuoteAll(cells);
    assert q[0] == QuoteField(cells[0]);
    assert q[1..] == QuoteAll(cells[1..]);
  }

  /** Quoted cells read back unchanged, whatever quotes and commas they hold. */
  lemma {:induction false} QuotedRoundTrip(cells: seq<string>)
    requires |cells| >= 1
    ensures Scan(Join(QuoteAll(cells), ","), "", false) == cells
    decreases |cells|
  {
    var f := cells[0];
    assert "" + f == f;
    if |cells| == 1 {
      assert Join(QuoteAll(cells), ",") == "\"" + (DoubleQuotes(f) + ("\"" + ""));
      ScanOpenQuote(DoubleQuotes(f) + ("\"" + ""), "");
      ScanQuoted(f, "", "");
    } else {
      var more := Join(QuoteAll(cells[1..]), ",");
      QuotedJoinHead(cells);
      ScanOpenQuote(DoubleQuotes(f) + ("\"" + ("," + more)), "");
      ScanQuoted(f, "," + more, "");
      ScanComma(more, f);
      QuotedRoundTrip(cells[1..]);
      assert [f] + cells[1..] == cells;
    }
  }

  /** Trimmed cells written RFC 4180 style (all quoted) survive `parseCsvLine`. */
  lemma {:induction false} QuotedLineRoundTrip(cells: seq<string>)
    requires |cells| >= 1 && AllTrimmed(cells)
    ensures CsvCells(Join(QuoteAll(cells), ",")) == cells
  {
    QuotedRoundTrip(cells);
    TrimAllOfTrimmed(cells);
  }

  // ---------------------------------------------------------------------------
  // Lines of a file

  /** `text.split(/\r?\n/)`: the pieces between line breaks, a CR directly before an LF belonging to the break. */
  function SplitLines(s: string): (r: seq<string>)
    ensures |r| >= 1
    decreases |s|
  {
    if s == [] then [""]
    else if s[0] == '\n' then [""] + SplitLines(s[1..])
    else if |s| > 1 && s[0] == '\r' && s[1] == '\n' then [""] + SplitLines(s[2..])
    else
      var rest := SplitLines(s[1..]);
      [[s[0]] + rest[0]] + rest[1..]
  }

  /** No piece holds a line feed. */
  lemma {:induction false} SplitLinesNoLF(s: string)
    ensures forall k :: 0 <= k < |SplitLines(s)| ==> '\n' !in SplitLines(s)[k]
    decreases |s|
  {
    if s == [] {
    } else if s[0] == '\n' {
      SplitLinesNoLF(s[1..]);
    } else if |s| > 1 && s[0] == '\r' && s[1] == '\n' {
      SplitLinesNoLF(s[2..]);
    } else {
      SplitLinesNoLF(s[1..]);
      var rest := SplitLines(s[1..]);
      var r := SplitLines(s);
      forall k | 0 <= k < |r| ensures '\n' !in r[k] {
        if k == 0 {
          assert r[0] == [s[0]] + rest[0];
        } else {
          assert r[k] == rest[k];
        }
      }
    }
  }

  /** `normalizeLine`: drop one leading byte-order mark, then trim. */
  function NormalizeLine(line: string): (r: string)
    ensures IsTrimmed(r)
  {
    var noBom := if line != [] && line[0] == '﻿' then line[1..] else line;
    TrimIsTrimmed(noBom);
    Trim(noBom)
  }

  /** `lines.map(normalizeLine).filter(l => l.length > 0)`. */
  function NonEmptyNormalized(lines: seq<string>): (r: seq<string>)
    ensures |r| <= |lines|
  {
    if lines == [] then []
    else
      var l := NormalizeLine(lines[0]);
      (if l == [] then [] else [l]) + NonEmptyNormalized(lines[1..])
  }

  /** `splitCsv`. */
  function SplitCsv(text: string): seq<string> {
    NonEmptyNormalized(SplitLines(text))
  }

  predicate CleanLine(l: string) {
    l != [] && IsTrimmed(l) && '\n' !in l
  }

  /** Every line `splitCsv` keeps is non-empty, trimmed and free of line breaks. */
  lemma {:induction false} NormalizedClean(lines: seq<string>)
    requires forall k :: 0 <= k < |lines| ==> '\n' !in lines[k]
    ensures forall k :: 0 <= k < |NonEmptyNormalized(lines)| ==> CleanLine(NonEmptyNormalized(lines)[k])
    decreases |lines|
  {
    if lines != [] {
      NormalizedClean(lines[1..]);
      var l := lines[0];
      var noBom := if l != [] && l[0] == '﻿' then l[1..] else l;
      assert '\n' !in noBom;
      var a, b := TrimSpan(noBom);
      assert forall i :: 0 <= i < b - a ==> Trim(noBom)[i] == noBom[a + i];
    }
  }

  lemma {:induction false} SplitCsvClean(text: string)
    ensures forall k :: 0 <= k < |SplitCsv(text)| ==> CleanLine(SplitCsv(text)[k])
  {
    SplitLinesNoLF(text);
    NormalizedClean(SplitLines(text));
  }

  /** A clean line is its own normalisation: it cannot start with a byte-order mark, which is white space. */
  lemma {:induction false} NormalizeClean(l: string)
    requires CleanLine(l)
    ensures NormalizeLine(l) == l
  {
    assert IsSpace('﻿');
    TrimOfTrimmed(l);
  }

  lemma {:induction false} NormalizeAllClean(lines: seq<string>)
    requires forall k :: 0 <= k < |lines| ==> CleanLine(lines[k])
    ensures NonEmptyNormalized(lines) == lines
    decreases |lines|
  {
    if lines != [] {
      NormalizeClean(lines[0]);
      NormalizeAllClean(lines[1..]);
      assert [lines[0]] + lines[1..] == lines;
    }
  }

  /** The line break a file is written with: CRLF or LF. */
  function Newline(crlf: bool): string {
    if crlf then "\r\n" else "\n"
  }

  lemma {:induction false} SplitLinesBreak(crlf: bool, more: string)
    ensures SplitLines(Newline(crlf) + more) == [""] + SplitLines(more)
  {
    var s := Newline(crlf) + more;
    if crlf {
      assert s[0] == '\r' && s[1] == '\n' && s[2..] == more;
    } else {
      assert s[0] == '\n' && s[1..] == more;
    }
  }

  lemma {:induction false} SplitLinesChar(c: char, more: string)
    requires c != '\n' && (c == '\r' ==> more == [] || more[0] != '\n')
    ensures SplitLines([c] + more) == [[c] + SplitLines(more)[0]] + SplitLines(more)[1..]
  {
    var s := [c] + more;
    assert s[0] == c && s[1..] == more;
  }

  /** An empty first piece: the text starts with a break. */
  lemma {:induction false} JoinEmptyHead(parts: seq<string>, crlf: bool)
    requires |parts| > 1 && parts[0] == []
    requires SplitLines(Join(parts[1..], Newline(crlf))) == parts[1..]
    ensures SplitLines(Join(parts, Newline(crlf))) == parts
  {
    var sep := Newline(crlf);
    var more := Join(parts[1..], sep);
    assert Join(parts, sep) == parts[0] + sep + more;
    assert parts[0] + sep == sep;
    SplitLinesBreak(crlf, more);
    assert [""] + parts[1..] == parts;
  }

  /** Moving the first character of the first piece out of a join. */
  lemma {:induction false} JoinFirstChar(parts: seq<string>, sep: string)
    requires |parts| >= 1 && parts[0] != []
    ensures Join(parts, sep) == [parts[0][0]] + Join([parts[0][1..]] + parts[1..], sep)
  {
    var p := parts[0];
    var parts' := [p[1..]] + parts[1..];
    if |parts| == 1 {
      assert Join(parts', sep) == p[1..];
    } else {
      var tail := Join(parts[1..], sep);
      assert parts'[1..] == parts[1..];
      assert Join(parts', sep) == p[1..] + sep + tail;
      assert Join(parts, sep) == p + sep + tail;
    }
    assert [p[0]] + p[1..] == p;
  }

  /** A non-empty first piece: its first character starts the first line. */
  lemma {:induction false} JoinCharHead(parts: seq<string>, crlf: bool)
    requires |parts| >= 1 && parts[0] != [] && parts[0][0] != '\n'
    requires !crlf && |parts| > 1 && |parts[0]| == 1 ==> parts[0][0] != '\r'
    requires var p := parts[0]; |p| > 1 && p[0] == '\r' ==> p[1] != '\n'
    requires var parts' := [parts[0][1..]] + parts[1..];
      SplitLines(Join(parts', Newline(crlf))) == parts'
    ensures SplitLines(Join(parts, Newline(crlf))) == parts
  {
    var sep := Newline(crlf);
    var p := parts[0];
    var parts' := [p[1..]] + parts[1..];
    var more := Join(parts', sep);
    JoinFirstChar(parts, sep);
    if p[0] == '\r' && more != [] {
      if |p| > 1 {
        assert more[0] == p[1];
      } else {
        assert more[0] == sep[0];
      }
    }
    SplitLinesChar(p[0], more);
    assert [p[0]] + p[1..] == p;
    assert [p] + parts[1..] == parts;
  }

  /** Both line-break conventions split the same way, provided no piece holds an LF. */
  lemma {:induction false} SplitLinesJoin(parts: seq<string>, crlf: bool)
    requires |parts| >= 1
    requires forall k :: 0 <= k < |parts| ==> '\n' !in parts[k]
    requires !crlf ==> forall k :: 0 <= k < |parts| - 1 ==> parts[k] == [] || parts[k][|parts[k]| - 1] != '\r'
    ensures SplitLines(Join(parts, Newline(crlf))) == parts
    decreases |parts|, |parts[0]|
  {
    var p := parts[0];
    if p == [] {
      if |parts| > 1 {
        SplitLinesJoin(parts[1..], crlf);
        JoinEmptyHead(parts, crlf);
      }
    } else {
      var parts' := [p[1..]] + parts[1..];
      assert '\n' !in p[1..];
      assert p[0] in p;
      if |p| > 1 {
        assert p[1] in p;
      }
      if !crlf && |parts| > 1 && |p| > 1 {
        assert p[1..][|p| - 2] == p[|p| - 1];
      }
      SplitLinesJoin(parts', crlf);
      JoinCharHead(parts, crlf);
    }
  }

  /** Clean lines joined with LF or with CRLF come back out of `splitCsv` unchanged. */
  lemma {:induction false} SplitCsvJoin(lines: seq<string>, crlf: bool)
    requires |lines| >= 1
    requires forall k :: 0 <= k < |lines| ==> CleanLine(lines[k])
    ensures SplitCsv(Join(lines, Newline(crlf))) == lines
  {
    forall k | 0 <= k < |lines| - 1
      ensures lines[k] == [] || lines[k][|lines[k]| - 1] != '\r'
    {
      assert IsSpace('\r');
    }
    SplitLinesJoin(lines, crlf);
    NormalizeAllClean(lines);
  }

  // ---------------------------------------------------------------------------
  // Dates in cells

  /**
   * What the fallback pattern of `tryParseDate` captures:
   * `(\d{4})[/. -](\d{1,2})[/. -](\d{1,2})(?:[ T](\d{1,2}):(\d{2})(?::(\d{2}))?)?`,
   * with absent time captures read as 0.
   */
  datatype DateMatch = DateMatch(year: nat, month: nat, day: nat, hour: nat, minute: nat, second: nat)

  datatype DateCaptures = DateCaptures(year: nat, month: nat, day: nat, end: nat)

  datatype TimeCaptures = TimeCaptures(hour: nat, minute: nat, second: nat)

  predicate IsDateSep(c: char) {
    c == '/' || c == '.' || c == ' ' || c == '-'
  }

  /** The length of the greedy `\d{1,2}` at i: 0 when there is no digit there. */
  function DigitRun(s: string, i: nat): (n: nat)
    requires i <= |s|
    ensures n <= 2 && i + n <= |s|
    ensures n >= 1 ==> IsDigit(s[i])
    ensures n == 2 ==> IsDigit(s[i + 1])
    ensures n < 2 ==> i + n == |s| || !IsDigit(s[i + n])
  {
    if i < |s| && IsDigit(s[i]) then
      if i + 1 < |s| && IsDigit(s[i + 1]) then 2 else 1
    else 0
  }

  /** The value of the one or two digits at i. */
  function RunValue(s: string, i: nat, n: nat): nat
    requires 1 <= n <= 2 && i + n <= |s| && IsDigit(s[i]) && (n == 2 ==> IsDigit(s[i + 1]))
  {
    if n == 1 then DigitValue(s[i]) else DigitValue(s[i]) * 10 + DigitValue(s[i + 1])
  }

  predicate DigitsAt(s: string, i: nat, n: nat) {
    i + n <= |s| && forall k :: i <= k < i + n ==> IsDigit(s[k])
  }

  function FourDigits(s: string, p: nat): nat
    requires DigitsAt(s, p, 4)
  {
    ((DigitValue(s[p]) * 10 + DigitValue(s[p + 1])) * 10 + DigitValue(s[p + 2])) * 10 + DigitValue(s[p + 3])
  }

  /** `(\d{4})[/. -](\d{1,2})[/. -](\d{1,2})` at p: year, month, day and where the match ends. */
  function DatePart(s: string, p: nat): (r: Option<DateCaptures>)
    ensures r.Some? ==> p < r.value.end <= |s|
  {
    if p + 5 <= |s| && DigitsAt(s, p, 4) && IsDateSep(s[p + 4]) then
      var mi := p + 5;
      var ml := DigitRun(s, mi);
      if ml > 0 && mi + ml < |s| && IsDateSep(s[mi + ml]) then
        var di := mi + ml + 1;
        var dl := DigitRun(s, di);
        if dl > 0 then Some(DateCaptures(FourDigits(s, p), RunValue(s, mi, ml), RunValue(s, di, dl), di + dl))
        else None
      else None
    else None
  }

  /** The optional `(?:[ T](\d{1,2}):(\d{2})(?::(\d{2}))?)` at e: hour, minute, second, or zeros when absent. */
  function TimePart(s: string, e: nat): TimeCaptures
    requires e <= |s|
  {
    if e < |s| && (s[e] == ' ' || s[e] == 'T') then
      var hi := e + 1;
      var hl := DigitRun(s, hi);
      if hl > 0 && hi + hl < |s| && s[hi + hl] == ':' && DigitsAt(s, hi + hl + 1, 2) then
        var si := hi + hl + 3;
        var sec := if si < |s| && s[si] == ':' && DigitsAt(s, si + 1, 2) then RunValue(s, si + 1, 2) else 0;
        TimeCaptures(RunValue(s, hi, hl), RunValue(s, hi + hl + 1, 2), sec)
      else TimeCaptures(0, 0, 0)
    else TimeCaptures(0, 0, 0)
  }

  /** A match of the whole pattern starting at p. */
  function MatchAt(s: string, p: nat): Option<DateMatch> {
    var date := DatePart(s, p);
    if date.None? then None
    else
      var time := TimePart(s, date.value.end);
      Some(DateMatch(date.value.year, date.value.month, date.value.day, time.hour, time.minute, time.second))
  }

  /** The leftmost position at or after p where the pattern matches (`String.prototype.match` without `g`). */
  function FirstMatch(s: string, p: nat): (r: Option<nat>)
    ensures r.Some? ==> p <= r.value <= |s| && MatchAt(s, r.value).Some?
    ensures r.Some? ==> forall q :: p <= q < r.value ==> MatchAt(s, q).None?
    ensures r.None? ==> forall q :: p <= q ==> MatchAt(s, q).None?
    decreases |s| - p
  {
    if p + 5 > |s| then
      assert forall q :: p <= q ==> DatePart(s, q).None?;
      None
    else if MatchAt(s, p).Some? then Some(p)
    else FirstMatch(s, p + 1)
  }

  /** `tryParseDate`: blank is no date; the browser's parser first, then the pattern, read as local `new Date(...)`. */
  function TryParseDate(env: Reminders.DateEnv, value: string): (r: Option<int>)
    ensures Trim(value) == [] ==> r == None
  {
    if value == [] then None
    else
      var trimmed := Trim(value);
      if trimmed == [] then None
      else match env.parse(trimmed)
        case Some(t) => Some(t)
        case None =>
          match FirstMatch(trimmed, 0)
          case None => None
          case Some(p) =>
            var m := MatchAt(trimmed, p).value;
            Some(Calendar.NewDate(m.year, m.month - 1, m.day, m.hour, m.minute, m.second))
  }

  /** The value of a one- or two-digit string. */
  function ShortValue(x: string): nat
    requires 1 <= |x| <= 2 && AllDigits(x)
  {
    if |x| == 1 then DigitValue(x[0]) else DigitValue(x[0]) * 10 + DigitValue(x[1])
  }

  lemma {:induction false} ShortValueIsValue(x: string)
    requires 1 <= |x| <= 2 && AllDigits(x)
    ensures ShortValue(x) == DigitsValue(x)
  {
    var x1 := x[..1];
    assert DigitsValue(x1) == DigitValue(x[0]) by {
      assert x1[..0] == [] && x1[0] == x[0];
    }
    if |x| == 2 {
      assert x[..|x| - 1] == x1;
    } else {
      assert x == x1;
    }
  }

  lemma {:induction false} FourValueIsValue(x: string)
    requires |x| == 4 && AllDigits(x)
    ensures ((DigitValue(x[0]) * 10 + DigitValue(x[1])) * 10 + DigitValue(x[2])) * 10 + DigitValue(x[3]) == DigitsValue(x)
  {
    var x1, x2, x3 := x[..1], x[..2], x[..3];
    assert DigitsValue(x1) == DigitValue(x[0]) by {
      assert x1[..0] == [] && x1[0] == x[0];
    }
    assert DigitsValue(x2) == DigitsValue(x1) * 10 + DigitValue(x[1]) by {
      assert x2[..1] == x1 && x2[1] == x[1];
    }
    assert DigitsValue(x3) == DigitsValue(x2) * 10 + DigitValue(x[2]) by {
      assert x3[..2] == x2 && x3[2] == x[2];
    }
    assert x[..3] == x3;
  }

  /** A date written `YYYY?M?D` (separators from `/. -`, one or two digits for month and day). */
  predicate DateShaped(y: string, a: char, m: string, b: char, d: string) {
    |y| == 4 && AllDigits(y) && IsDateSep(a) && 1 <= |m| <= 2 && AllDigits(m) &&
    IsDateSep(b) && 1 <= |d| <= 2 && AllDigits(d)
  }

  /** A short digit string read by the greedy `\d{1,2}` at i. */
  lemma {:induction false} RunOf(s: string, i: nat, x: string)
    requires 1 <= |x| <= 2 && AllDigits(x) && i + |x| <= |s| && s[i] == x[0] && (|x| == 2 ==> s[i + 1] == x[1])
    requires i + |x| == |s| || !IsDigit(s[i + |x|]) || |x| == 2
    ensures DigitRun(s, i) == |x| && RunValue(s, i, |x|) == DigitsValue(x)
  {
    ShortValueIsValue(x);
  }

  /** `s` begins with the date `y a m b d`, character by character. */
  predicate DateLaid(s: string, y: string, a: char, m: string, b: char, d: string) {
    DateShaped(y, a, m, b, d) && 6 + |m| + |d| <= |s| &&
    s[0] == y[0] && s[1] == y[1] && s[2] == y[2] && s[3] == y[3] && s[4] == a &&
    s[5] == m[0] && (|m| == 2 ==> s[6] == m[1]) && s[5 + |m|] == b &&
    s[6 + |m|] == d[0] && (|d| == 2 ==> s[7 + |m|] == d[1])
  }

  /** From e on, `s` is `t h : mm` followed by `:ss` when there are seconds, and nothing else. */
  predicate TimeLaid(s: string, e: nat, t: char, h: string, mm: string, ss: Option<string>) {
    TimeShaped(t, h, mm) && (ss.Some? ==> |ss.value| == 2 && AllDigits(ss.value)) &&
    var si := e + |h| + 4;
    |s| == si + (if ss.Some? then 3 else 0) && s[e] == t &&
    s[e + 1] == h[0] && (|h| == 2 ==> s[e + 2] == h[1]) && s[e + 1 + |h|] == ':' &&
    s[si - 2] == mm[0] && s[si - 1] == mm[1] &&
    (ss.Some? ==> s[si] == ':' && s[si + 1] == ss.value[0] && s[si + 2] == ss.value[1])
  }

  /** Where the pieces of `y a m b d rest` sit. */
  lemma {:induction false} DateTextIndex(y: string, a: char, m: string, b: char, d: string, rest: string)
    requires DateShaped(y, a, m, b, d)
    ensures var s := y + [a] + m + [b] + d + rest;
      DateLaid(s, y, a, m, b, d) && s[6 + |m| + |d|..] == rest
  {
  }

  /** The date captures from the digit runs found at their places. */
  lemma {:induction false} DatePartFrom(s: string, ml: nat, dl: nat)
    requires 5 <= |s| && DigitsAt(s, 0, 4) && IsDateSep(s[4])
    requires DigitRun(s, 5) == ml > 0 && 5 + ml < |s| && IsDateSep(s[5 + ml])
    requires DigitRun(s, 6 + ml) == dl > 0
    ensures DatePart(s, 0) == Some(DateCaptures(FourDigits(s, 0), RunValue(s, 5, ml), RunValue(s, 6 + ml, dl), 6 + ml + dl))
  {
  }

  /** The date captures of a text that begins with a date, when no third day digit follows. */
  lemma {:induction false} DatePartAt(s: string, y: string, a: char, m: string, b: char, d: string)
    requires DateLaid(s, y, a, m, b, d)
    requires var e := 6 + |m| + |d|; |d| == 2 || e == |s| || !IsDigit(s[e])
    ensures DatePart(s, 0) == Some(DateCaptures(DigitsValue(y), DigitsValue(m), DigitsValue(d), 6 + |m| + |d|))
  {
    var di := 6 + |m|;
    assert DigitsAt(s, 0, 4);
    assert FourDigits(s, 0) == DigitsValue(y) by {
      FourValueIsValue(y);
    }
    RunOf(s, 5, m);
    RunOf(s, di, d);
    DatePartFrom(s, |m|, |d|);
  }

  /** The date captures of a date-shaped text are its three numbers, whatever non-digit follows. */
  lemma {:induction false} DatePartOf(y: string, a: char, m: string, b: char, d: string, rest: string)
    requires DateShaped(y, a, m, b, d)
    requires |d| == 2 || rest == [] || !IsDigit(rest[0])
    ensures var s := y + [a] + m + [b] + d + rest;
      DatePart(s, 0) == Some(DateCaptures(DigitsValue(y), DigitsValue(m), DigitsValue(d), 6 + |m| + |d|))
  {
    var s := y + [a] + m + [b] + d + rest;
    DateTextIndex(y, a, m, b, d, rest);
    if rest != [] {
      assert s[6 + |m| + |d|] == rest[0];
    }
    DatePartAt(s, y, a, m, b, d);
  }

  /** A date-shaped text alone: the date, with hour, minute and second 0. */
  lemma {:induction false} MatchDateOnly(y: string, a: char, m: string, b: char, d: string)
    requires DateShaped(y, a, m, b, d)
    ensures MatchAt(y + [a] + m + [b] + d, 0) ==
      Some(DateMatch(DigitsValue(y), DigitsValue(m), DigitsValue(d), 0, 0, 0))
  {
    DatePartOf(y, a, m, b, d, []);
    assert y + [a] + m + [b] + d + [] == y + [a] + m + [b] + d;
  }

  /** `H:MM` with one or two hour digits, as written in a cell. */
  predicate TimeShaped(t: char, h: string, mm: string) {
    (t == ' ' || t == 'T') && 1 <= |h| <= 2 && AllDigits(h) && |mm| == 2 && AllDigits(mm)
  }

  /** Where the pieces of `pre t h : mm secs` sit. */
  lemma {:induction false} TimeTextIndex(pre: string, t: char, h: string, mm: string, ss: Option<string>)
    requires TimeShaped(t, h, mm)
    requires ss.Some? ==> |ss.value| == 2 && AllDigits(ss.value)
    ensures var secs := if ss.Some? then ":" + ss.value else "";
      TimeLaid(pre + ([t] + h + ":" + mm + secs), |pre|, t, h, mm, ss)
  {
    var secs := if ss.Some? then ":" + ss.value else "";
    var tail := [t] + h + ":" + mm + secs;
    var s := pre + tail;
    assert s[|pre|..] == tail;
  }

  /** The time captures from the digit runs found at their places, seconds given by `sec`. */
  lemma {:induction false} TimePartFrom(s: string, e: nat, hl: nat, sec: nat)
    requires e < |s| && (s[e] == ' ' || s[e] == 'T')
    requires DigitRun(s, e + 1) == hl > 0 && e + 1 + hl < |s| && s[e + 1 + hl] == ':' && DigitsAt(s, e + hl + 2, 2)
    requires var si := e + hl + 4;
      sec == if si < |s| && s[si] == ':' && DigitsAt(s, si + 1, 2) then RunValue(s, si + 1, 2) else 0
    ensures TimePart(s, e) == TimeCaptures(RunValue(s, e + 1, hl), RunValue(s, e + hl + 2, 2), sec)
  {
  }

  /** The time captures read at e from a text that continues `t h : mm secs`. */
  lemma {:induction false} TimePartAt(s: string, e: nat, t: char, h: string, mm: string, ss: Option<string>)
    requires TimeLaid(s, e, t, h, mm, ss)
    ensures TimePart(s, e) ==
      TimeCaptures(DigitsValue(h), DigitsValue(mm), if ss.Some? then DigitsValue(ss.value) else 0)
  {
    var hi := e + 1;
    var mi := hi + |h| + 1;
    var si := mi + 2;
    RunOf(s, hi, h);
    RunOf(s, mi, mm);
    var sec := if ss.Some? then DigitsValue(ss.value) else 0;
    if ss.Some? {
      RunOf(s, si + 1, ss.value);
    }
    TimePartFrom(s, e, |h|, sec);
  }

  /** The time captures after any prefix: seconds when `:SS` follows, else 0. */
  lemma {:induction false} TimePartOf(pre: string, t: char, h: string, mm: string, ss: Option<string>)
    requires TimeShaped(t, h, mm)
    requires ss.Some? ==> |ss.value| == 2 && AllDigits(ss.value)
    ensures var secs := if ss.Some? then ":" + ss.value else "";
      TimePart(pre + ([t] + h + ":" + mm + secs), |pre|) ==
      TimeCaptures(DigitsValue(h), DigitsValue(mm), if ss.Some? then DigitsValue(ss.value) else 0)
  {
    var secs := if ss.Some? then ":" + ss.value else "";
    TimeTextIndex(pre, t, h, mm, ss);
    TimePartAt(pre + ([t] + h + ":" + mm + secs), |pre|, t, h, mm, ss);
  }

  /** A whole match is its date captures followed by its time captures. */
  lemma {:induction false} MatchOf(s: string, date: DateCaptures, time: TimeCaptures)
    requires DatePart(s, 0) == Some(date) && date.end <= |s| && TimePart(s, date.end) == time
    ensures MatchAt(s, 0) == Some(DateMatch(date.year, date.month, date.day, time.hour, time.minute, time.second))
  {
  }

  /** The whole match of a text that is a date followed by a time. */
  lemma {:induction false} MatchDateTimeAt(s: string, y: string, a: char, m: string, b: char, d: string,
                        t: char, h: string, mm: string, ss: Option<string>)
    requires DateLaid(s, y, a, m, b, d) && TimeLaid(s, 6 + |m| + |d|, t, h, mm, ss)
    ensures MatchAt(s, 0) ==
      Some(DateMatch(DigitsValue(y), DigitsValue(m), DigitsValue(d), DigitsValue(h), DigitsValue(mm),
                     if ss.Some? then DigitsValue(ss.value) else 0))
  {
    var e := 6 + |m| + |d|;
    DatePartAt(s, y, a, m, b, d);
    TimePartAt(s, e, t, h, mm, ss);
    MatchOf(s, DateCaptures(DigitsValue(y), DigitsValue(m), DigitsValue(d), e),
      TimeCaptures(DigitsValue(h), DigitsValue(mm), if ss.Some? then DigitsValue(ss.value) else 0));
  }

  /** A date-shaped text, `T` or a space, `H:MM` and optionally `:SS`: all six numbers, second 0 when absent. */
  lemma {:induction false} MatchDateTime(y: string, a: char, m: string, b: char, d: string, t: char, h: string, mm: string, ss: Option<string>)
    requires DateShaped(y, a, m, b, d) && TimeShaped(t, h, mm)
    requires ss.Some? ==> |ss.value| == 2 && AllDigits(ss.value)
    ensures var secs := if ss.Some? then ":" + ss.value else "";
      MatchAt(y + [a] + m + [b] + d + ([t] + h + ":" + mm + secs), 0) ==
      Some(DateMatch(DigitsValue(y), DigitsValue(m), DigitsValue(d), DigitsValue(h), DigitsValue(mm),
                     if ss.Some? then DigitsValue(ss.value) else 0))
  {
    var secs := if ss.Some? then ":" + ss.value else "";
    var rest := [t] + h + ":" + mm + secs;
    var pre := y + [a] + m + [b] + d;
    DateTextIndex(y, a, m, b, d, rest);
    TimeTextIndex(pre, t, h, mm, ss);
    MatchDateTimeAt(pre + rest, y, a, m, b, d, t, h, mm, ss);
  }
}
