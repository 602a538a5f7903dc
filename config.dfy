/**
 * Clean-up of the extension's configuration values: the study-site origin
 * (trimmed, one trailing `/` removed, a fallback for anything unusable), the
 * ChatGPT match-pattern list (an array, or a string split on runs of CR, LF
 * and commas; entries trimmed, empty ones dropped), and the tab-query pattern
 * of the monthly-report pages.
 */
module Config {
  import opened Wrappers
  import opened Text

  const DefaultSiteOrigin: string := "https://www.nnn.ed.nico"
  const DefaultChatGptMatchPatterns: seq<string> := ["https://chatgpt.com/*", "https://chat.openai.com/*"]
  const MonthlyReportPathPattern: string := "/study_plans/month/*"

  /** A configuration value as read from `ZEN_CONFIG`: a string, an array of strings, or anything else. */
  datatype ConfigValue = Str(s: string) | Strings(items: seq<string>) | Other

  // ---------------------------------------------------------------------------
  // normalizeOrigin

  /** `normalizeOrigin(origin, fallback)`. */
  function NormalizeOrigin(origin: ConfigValue, fallback: string): (r: string)
    ensures !origin.Str? ==> r == fallback
  {
    match origin
    case Str(s) =>
      var t := Trim(s);
      if t == [] then fallback
      else if t[|t| - 1] == '/' then t[..|t| - 1]
      else t
    case _ => fallback
  }

  /**
   * For a string: the fallback when it is blank; otherwise the trimmed text,
   * less exactly one trailing `/` if it ends with one.
   */
  lemma {:induction false} NormalizeOriginSpec(s: string, fallback: string)
    ensures var r := NormalizeOrigin(Str(s), fallback); var t := Trim(s);
      (t == [] ==> r == fallback) &&
      (t != [] && EndsWith(t, "/") ==> r + "/" == t) &&
      (t != [] && !EndsWith(t, "/") ==> r == t)
  {
    var t := Trim(s);
    if t != [] {
      assert EndsWith(t, "/") <==> t[|t| - 1] == '/' by {
        assert t[|t| - 1..] == [t[|t| - 1]];
      }
      if t[|t| - 1] == '/' {
        assert t[..|t| - 1] + "/" == t;
      }
    }
  }

  /** Only one slash goes per call, so normalising twice differs from once on `x//`. */
  lemma {:induction false} NormalizeOriginNotIdempotent(fallback: string)
    ensures NormalizeOrigin(Str("x//"), fallback) == "x/"
    ensures NormalizeOrigin(Str(NormalizeOrigin(Str("x//"), fallback)), fallback) == "x"
  {
    TrimOfTrimmed("x//");
    TrimOfTrimmed("x/");
    assert "x//"[..2] == "x/";
    assert "x/"[..1] == "x";
  }

  /** `buildMonthlyReportUrlPattern(siteOrigin)`. */
  function BuildMonthlyReportUrlPattern(origin: ConfigValue): (r: string)
    ensures EndsWith(r, MonthlyReportPathPattern)
    ensures r[..|r| - |MonthlyReportPathPattern|] == NormalizeOrigin(origin, DefaultSiteOrigin)
  {
    var o := NormalizeOrigin(origin, DefaultSiteOrigin);
    var r := o + MonthlyReportPathPattern;
    assert r[..|o|] == o && r[|o|..] == MonthlyReportPathPattern;
    r
  }

  /** Without a usable origin the pattern is the default site's. */
  lemma {:induction false} DefaultMonthlyReportUrlPattern(origin: ConfigValue)
    requires !origin.Str?
    ensures BuildMonthlyReportUrlPattern(origin) == "https://www.nnn.ed.nico/study_plans/month/*"
  {
  }

  // ---------------------------------------------------------------------------
  // normalizePatternList

  /** The `/[\r\n,]+/` separator class. */
  predicate IsPatternSep(c: char) {
    c == '\r' || c == '\n' || c == ','
  }

  /** `s.split(/[\r\n,]+/)`: the pieces between maximal runs of separators (an empty piece at an end). */
  function SplitRuns(s: string): (r: seq<string>)
    ensures |r| >= 1
    decreases |s|
  {
    if s == [] then [""]
    else
      var rest := SplitRuns(s[1..]);
      if IsPatternSep(s[0]) then (if |s| > 1 && IsPatternSep(s[1]) then rest else [""] + rest)
      else [[s[0]] + rest[0]] + rest[1..]
  }

  predicate NoPatternSep(s: string) {
    forall i :: 0 <= i < |s| ==> !IsPatternSep(s[i])
  }

  /** No piece holds a separator. */
  lemma {:induction false} SplitRunsNoSep(s: string)
    ensures forall k :: 0 <= k < |SplitRuns(s)| ==> NoPatternSep(SplitRuns(s)[k])
    decreases |s|
  {
    if s != [] {
      SplitRunsNoSep(s[1..]);
      var rest := SplitRuns(s[1..]);
      if !IsPatternSep(s[0]) {
        var r := SplitRuns(s);
        forall k | 0 <= k < |r|
          ensures NoPatternSep(r[k])
        {
          if k == 0 {
            var p := [s[0]] + rest[0];
            assert r[0] == p;
            forall i | 0 <= i < |p|
              ensures !IsPatternSep(p[i])
            {
              if i > 0 {
                assert p[i] == rest[0][i - 1];
              }
            }
          } else {
            assert r[k] == rest[k - 1 + 1];
          }
        }
      }
    }
  }

  /** Splitting a comma-joined list of non-empty, separator-free entries gives the list back. */
  lemma {:induction false} SplitRunsJoin(parts: seq<string>)
    requires |parts| >= 1
    requires forall k :: 0 <= k < |parts| ==> parts[k] != [] && NoPatternSep(parts[k])
    ensures SplitRuns(Join(parts, ",")) == parts
    decreases |parts|
  {
    var p := parts[0];
    if |parts| == 1 {
      SplitRunsPrefix(p, "");
      assert SplitRuns("") == [""];
      assert Join(parts, ",") == p + "";
      assert parts == [p + ""];
    } else {
      var tail := Join(parts[1..], ",");
      SplitRunsJoin(parts[1..]);
      JoinStartsWith(parts[1..]);
      assert NoPatternSep(parts[1]) && !IsPatternSep(parts[1][0]);
      SplitRunsComma(tail);
      assert Join(parts, ",") == p + ("," + tail);
      SplitRunsPrefix(p, "," + tail);
      var st := SplitRuns("," + tail);
      assert st[0] == "" && st[1..] == parts[1..];
      assert p + "" == p;
      assert [p] + parts[1..] == parts;
    }
  }

  /** Separator-free text in front of `s` extends the first piece of `s`'s split. */
  lemma {:induction false} SplitRunsPrefix(p: string, s: string)
    requires NoPatternSep(p)
    ensures SplitRuns(p + s) == [p + SplitRuns(s)[0]] + SplitRuns(s)[1..]
    decreases |p|
  {
    if p == [] {
      var r := SplitRuns(s);
      assert p + s == s;
      assert p + r[0] == r[0];
      assert [r[0]] + r[1..] == r;
    } else {
      assert NoPatternSep(p[1..]) by {
        forall i | 0 <= i < |p[1..]|
          ensures !IsPatternSep(p[1..][i])
        {
          assert p[1..][i] == p[i + 1];
        }
      }
      SplitRunsPrefix(p[1..], s);
      assert p + s == [p[0]] + (p[1..] + s);
      SplitRunsCons(p[0], p[1..] + s);
      assert [p[0]] + (p[1..] + SplitRuns(s)[0]) == p + SplitRuns(s)[0];
    }
  }

  lemma {:induction false} SplitRunsCons(c: char, s: string)
    requires !IsPatternSep(c)
    ensures SplitRuns([c] + s) == [[c] + SplitRuns(s)[0]] + SplitRuns(s)[1..]
  {
    assert ([c] + s)[1..] == s;
  }

  lemma {:induction false} SplitRunsComma(t: string)
    requires t != [] && !IsPatternSep(t[0])
    ensures SplitRuns("," + t) == [""] + SplitRuns(t)
  {
    assert ("," + t)[1..] == t;
  }

  lemma {:induction false} JoinStartsWith(parts: seq<string>)
    requires |parts| >= 1 && parts[0] != []
    ensures Join(parts, ",") != [] && Join(parts, ",")[0] == parts[0][0]
  {
  }

  /** `patterns.map((pattern) => pattern.trim()).filter(Boolean)`. */
  function Clean(patterns: seq<string>): (r: seq<string>)
    ensures |r| <= |patterns|
    decreases |patterns|
  {
    if patterns == [] then []
    else
      var t := Trim(patterns[|patterns| - 1]);
      Clean(patterns[..|patterns| - 1]) + if t == [] then [] else [t]
  }

  /** Every cleaned entry is a non-empty trimmed entry of the input; every non-blank input entry survives. */
  lemma {:induction false} CleanSpec(patterns: seq<string>)
    ensures forall k :: 0 <= k < |Clean(patterns)| ==> Clean(patterns)[k] != [] && IsTrimmed(Clean(patterns)[k])
    ensures forall t :: t in Clean(patterns) <==> t != [] && exists p :: p in patterns && Trim(p) == t
    decreases |patterns|
  {
    if patterns != [] {
      var n := |patterns| - 1;
      CleanSpec(patterns[..n]);
      TrimIsTrimmed(patterns[n]);
      assert patterns == patterns[..n] + [patterns[n]];
    }
  }

  /** Entries that are already clean pass through unchanged. */
  lemma {:induction false} CleanOfClean(patterns: seq<string>)
    requires forall k :: 0 <= k < |patterns| ==> patterns[k] != [] && IsTrimmed(patterns[k])
    ensures Clean(patterns) == patterns
    decreases |patterns|
  {
    if patterns != [] {
      var n := |patterns| - 1;
      CleanOfClean(patterns[..n]);
      TrimOfTrimmed(patterns[n]);
      assert patterns == patterns[..n] + [patterns[n]];
    }
  }

  /** The raw entries `normalizePatternList` cleans. */
  function RawPatterns(value: ConfigValue): seq<string> {
    match value
    case Strings(items) => items
    case Str(s) => SplitRuns(s)
    case Other => []
  }

  /** `normalizePatternList(value, fallback)`. */
  function NormalizePatternList(value: ConfigValue, fallback: seq<string>): (r: seq<string>)
    ensures Clean(RawPatterns(value)) == [] ==> r == fallback
    ensures Clean(RawPatterns(value)) != [] ==> r == Clean(RawPatterns(value))
  {
    var cleaned := Clean(RawPatterns(value));
    if |cleaned| > 0 then cleaned else fallback
  }

  /**
   * Unless the fallback is used, every entry is non-empty and trimmed, and
   * for a string value none holds a CR, LF or comma.
   */
  lemma {:induction false} PatternListSpec(value: ConfigValue, fallback: seq<string>)
    ensures var r := NormalizePatternList(value, fallback);
      r == fallback ||
      ((forall k :: 0 <= k < |r| ==> r[k] != [] && IsTrimmed(r[k])) &&
       (value.Str? ==> forall k :: 0 <= k < |r| ==> NoPatternSep(r[k])))
  {
    var raw := RawPatterns(value);
    CleanSpec(raw);
    if value.Str? {
      SplitRunsNoSep(value.s);
      CleanKeepsNoSep(raw);
    }
  }

  lemma {:induction false} CleanKeepsNoSep(patterns: seq<string>)
    requires forall k :: 0 <= k < |patterns| ==> NoPatternSep(patterns[k])
    ensures forall k :: 0 <= k < |Clean(patterns)| ==> NoPatternSep(Clean(patterns)[k])
    decreases |patterns|
  {
    if patterns != [] {
      var n := |patterns| - 1;
      CleanKeepsNoSep(patterns[..n]);
      TrimSub(patterns[n]);
    }
  }

  lemma {:induction false} TrimSub(s: string)
    requires NoPatternSep(s)
    ensures NoPatternSep(Trim(s))
  {
    var a, b := TrimSpan(s);
    forall i | 0 <= i < |Trim(s)|
      ensures !IsPatternSep(Trim(s)[i])
    {
      assert Trim(s)[i] == s[a + i];
    }
  }

  /** A clean list written as a comma-separated string reads back as itself. */
  lemma {:induction false} PatternListRoundTrip(patterns: seq<string>, fallback: seq<string>)
    requires |patterns| >= 1
    requires forall k :: 0 <= k < |patterns| ==> patterns[k] != [] && IsTrimmed(patterns[k]) && NoPatternSep(patterns[k])
    ensures NormalizePatternList(Str(Join(patterns, ",")), fallback) == patterns
    ensures NormalizePatternList(Strings(patterns), fallback) == patterns
  {
    SplitRunsJoin(patterns);
    CleanOfClean(patterns);
  }
}
