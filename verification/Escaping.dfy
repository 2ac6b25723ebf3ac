/** Backslash escaping and separator splitting of strings (src/utils.rs). */
module Escaping {

  const BACKSLASH: char := '\\'

  // ---------------------------------------------------------------- specification

  predicate NeedsEscape(c: char, toEscape: seq<char>) {
    c == BACKSLASH || c in toEscape
  }

  function Escaped(s: string, toEscape: seq<char>): string {
    if s == [] then []
    else (if NeedsEscape(s[0], toEscape) then [BACKSLASH, s[0]] else [s[0]]) + Escaped(s[1..], toEscape)
  }

  /** Left-to-right scan; `flag` says that the previous character was an escaping backslash. */
  function UnescapeScan(s: string, flag: bool): string {
    if s == [] then []
    else if flag then [s[0]] + UnescapeScan(s[1..], false)
    else if s[0] == BACKSLASH then UnescapeScan(s[1..], true)
    else [s[0]] + UnescapeScan(s[1..], false)
  }

  /** The sections that remain to be produced when `section` has been read so far. */
  function SplitScan(s: string, sep: char, section: string, flag: bool): (r: seq<string>)
    ensures |r| >= 1
    decreases |s|
  {
    if s == [] then [section]
    else if flag then SplitScan(s[1..], sep, section + [s[0]], false)
    else if s[0] == BACKSLASH then SplitScan(s[1..], sep, section, true)
    else if s[0] == sep then [section] + SplitScan(s[1..], sep, [], false)
    else SplitScan(s[1..], sep, section + [s[0]], false)
  }

  function Join(parts: seq<string>, sep: char): string
    requires parts != []
  {
    if |parts| == 1 then parts[0] else parts[0] + [sep] + Join(parts[1..], sep)
  }

  function EscapeAll(parts: seq<string>, toEscape: seq<char>): (r: seq<string>)
    ensures |r| == |parts|
  {
    if parts == [] then [] else [Escaped(parts[0], toEscape)] + EscapeAll(parts[1..], toEscape)
  }

  // ---------------------------------------------------------------- the three operations

  method Escape(unescaped: string, toEscape: seq<char>) returns (escaped: string)
    ensures escaped == Escaped(unescaped, toEscape)
  {
    hide *;
    escaped := [];
    ghost var rest := Escaped(unescaped, toEscape);
    assert unescaped[0..] == unescaped;
    for i := 0 to |unescaped|
      invariant rest == Escaped(unescaped[i..], toEscape)
      invariant escaped + rest == Escaped(unescaped, toEscape)
    {
      EscapedStep(unescaped[i..], toEscape);
      assert unescaped[i..][1..] == unescaped[i + 1..];
      rest := Escaped(unescaped[i + 1..], toEscape);
      var chr := unescaped[i];
      if chr == BACKSLASH || chr in toEscape {
        Reassociate(escaped, [BACKSLASH], [chr], rest);
        escaped := escaped + [BACKSLASH];
      } else {
        Reassociate(escaped, [], [chr], rest);
      }
      escaped := escaped + [chr];
    }
    EscapedStep(unescaped[|unescaped|..], toEscape);
  }

  lemma EscapedStep(s: string, toEscape: seq<char>)
    ensures s == [] ==> Escaped(s, toEscape) == []
    ensures s != [] ==>
      Escaped(s, toEscape)
      == (if s[0] == BACKSLASH || s[0] in toEscape then [BACKSLASH] + [s[0]] else [] + [s[0]]) + Escaped(s[1..], toEscape)
  {
  }

  lemma Reassociate<T>(done: seq<T>, a: seq<T>, b: seq<T>, rest: seq<T>)
    ensures done + ((a + b) + rest) == ((done + a) + b) + rest && done + [] == done && [] + b == b
  {
  }

  method Unescape(escaped: string) returns (unescaped: string)
    ensures unescaped == UnescapeScan(escaped, false)
  {
    hide *;
    unescaped := [];
    var escapeFlag := false;
    ghost var rest := UnescapeScan(escaped, false);
    assert escaped[0..] == escaped;
    for i := 0 to |escaped|
      invariant rest == UnescapeScan(escaped[i..], escapeFlag)
      invariant unescaped + rest == UnescapeScan(escaped, false)
    {
      UnescapeStep(escaped[i..], escapeFlag);
      assert escaped[i..][1..] == escaped[i + 1..];
      var chr := escaped[i];
      if escapeFlag {
        escapeFlag := false;
        rest := UnescapeScan(escaped[i + 1..], escapeFlag);
        Reassociate(unescaped, [], [chr], rest);
        unescaped := unescaped + [chr];
      } else if chr == BACKSLASH {
        escapeFlag := true;
        rest := UnescapeScan(escaped[i + 1..], escapeFlag);
      } else {
        rest := UnescapeScan(escaped[i + 1..], escapeFlag);
        Reassociate(unescaped, [], [chr], rest);
        unescaped := unescaped + [chr];
      }
    }
    UnescapeStep(escaped[|escaped|..], escapeFlag);
  }

  lemma UnescapeStep(s: string, flag: bool)
    ensures s == [] ==> UnescapeScan(s, flag) == []
    ensures s != [] ==>
      UnescapeScan(s, flag)
      == if !flag && s[0] == BACKSLASH then UnescapeScan(s[1..], true) else [s[0]] + UnescapeScan(s[1..], false)
  {
  }

  method SplitEscaped(s: string, separator: char) returns (split: seq<string>)
    ensures split == SplitScan(s, separator, [], false)
  {
    hide *;
    split := [];
    var section := [];
    var escapeFlag := false;
    ghost var rest := SplitScan(s, separator, [], false);
    assert s[0..] == s;
    for i := 0 to |s|
      invariant rest == SplitScan(s[i..], separator, section, escapeFlag)
      invariant split + rest == SplitScan(s, separator, [], false)
    {
      SplitStep(s[i..], separator, section, escapeFlag);
      assert s[i..][1..] == s[i + 1..];
      var chr := s[i];
      if escapeFlag {
        escapeFlag := false;
        section := section + [chr];
      } else if chr == BACKSLASH {
        escapeFlag := true;
      } else if chr == separator {
        Reassociate(split, [], [section], SplitScan(s[i + 1..], separator, [], false));
        split := split + [section];
        section := [];
      } else {
        section := section + [chr];
      }
      rest := SplitScan(s[i + 1..], separator, section, escapeFlag);
    }
    SplitStep(s[|s|..], separator, section, escapeFlag);
    split := split + [section];
  }

  lemma SplitStep(s: string, sep: char, section: string, flag: bool)
    ensures s == [] ==> SplitScan(s, sep, section, flag) == [section]
    ensures s != [] ==>
      SplitScan(s, sep, section, flag)
      == if !flag && s[0] == BACKSLASH then SplitScan(s[1..], sep, section, true)
         else if !flag && s[0] == sep then [section] + SplitScan(s[1..], sep, [], false)
         else SplitScan(s[1..], sep, section + [s[0]], false)
  {
  }

  // ---------------------------------------------------------------- properties

  /** Unescaping undoes escaping, for every string and every set of characters. */
  lemma {:induction false} UnescapeInvertsEscape(s: string, toEscape: seq<char>)
    ensures UnescapeScan(Escaped(s, toEscape), false) == s
  {
    if s != [] {
      UnescapeInvertsEscape(s[1..], toEscape);
      var rest := Escaped(s[1..], toEscape);
      if NeedsEscape(s[0], toEscape) {
        var whole := [BACKSLASH, s[0]] + rest;
        assert whole[1..] == [s[0]] + rest;
        assert whole[1..][1..] == rest;
      } else {
        assert ([s[0]] + rest)[1..] == rest;
      }
    }
  }

  /** How many times the scan of an escaped string meets an unescaped separator. */
  function BareSeparators(s: string, sep: char, toEscape: seq<char>): nat {
    if s == [] then 0
    else (if s[0] == sep && !NeedsEscape(sep, toEscape) then 1 else 0) + BareSeparators(s[1..], sep, toEscape)
  }

  /** Scanning an escaped string followed by `rest` consumes the string when no separator is bare. */
  lemma {:induction false} ScanEscaped(s: string, sep: char, toEscape: seq<char>, section: string, rest: string)
    requires sep !in s || NeedsEscape(sep, toEscape)
    ensures SplitScan(Escaped(s, toEscape) + rest, sep, section, false) == SplitScan(rest, sep, section + s, false)
    decreases |s|
  {
    if s == [] {
      assert Escaped(s, toEscape) + rest == rest;
      assert section + s == section;
    } else {
      var tail := Escaped(s[1..], toEscape) + rest;
      ScanEscaped(s[1..], sep, toEscape, section + [s[0]], rest);
      assert section + [s[0]] + s[1..] == section + s;
      if NeedsEscape(s[0], toEscape) {
        var whole := [BACKSLASH, s[0]] + tail;
        assert Escaped(s, toEscape) + rest == whole;
        assert whole[1..] == [s[0]] + tail;
        assert whole[1..][1..] == tail;
      } else {
        var whole := [s[0]] + tail;
        assert Escaped(s, toEscape) + rest == whole;
        assert whole[1..] == tail;
      }
    }
  }

  predicate Protected(part: string, sep: char, toEscape: seq<char>) {
    sep !in part || sep in toEscape
  }

  /** Splitting the joined escaped parts gives the parts back when the separator is protected in each. */
  lemma {:induction false} SplitInvertsJoin(parts: seq<string>, sep: char, toEscape: seq<char>)
    requires parts != [] && sep != BACKSLASH
    requires forall p :: p in parts ==> Protected(p, sep, toEscape)
    ensures SplitScan(Join(EscapeAll(parts, toEscape), sep), sep, [], false) == parts
    decreases |parts|
  {
    assert parts[0] in parts && Protected(parts[0], sep, toEscape);
    assert [] + parts[0] == parts[0];
    var escaped := EscapeAll(parts, toEscape);
    if |parts| == 1 {
      assert Join(escaped, sep) == Escaped(parts[0], toEscape) + [];
      ScanEscaped(parts[0], sep, toEscape, [], []);
    } else {
      assert escaped[1..] == EscapeAll(parts[1..], toEscape);
      var rest := Join(EscapeAll(parts[1..], toEscape), sep);
      assert Join(escaped, sep) == Escaped(parts[0], toEscape) + ([sep] + rest);
      ScanEscaped(parts[0], sep, toEscape, [], [sep] + rest);
      assert ([sep] + rest)[1..] == rest;
      SplitInvertsJoin(parts[1..], sep, toEscape);
      assert SplitScan([sep] + rest, sep, parts[0], false) == [parts[0]] + parts[1..] == parts;
    }
  }

  /** The number of sections a scan yields, in terms of the separators left bare by the escaping. */
  lemma {:induction false} CountSections(s: string, sep: char, toEscape: seq<char>, section: string, rest: string)
    requires sep != BACKSLASH
    ensures |SplitScan(Escaped(s, toEscape) + rest, sep, section, false)|
         == BareSeparators(s, sep, toEscape) + |SplitScan(rest, sep, [], false)|
    decreases |s|
  {
    if s == [] {
      assert Escaped(s, toEscape) + rest == rest;
      SectionCountIgnoresPrefix(rest, sep, section, [], false);
    } else {
      var tail := Escaped(s[1..], toEscape) + rest;
      if NeedsEscape(s[0], toEscape) {
        var whole := [BACKSLASH, s[0]] + tail;
        assert Escaped(s, toEscape) + rest == whole;
        assert whole[1..] == [s[0]] + tail;
        assert whole[1..][1..] == tail;
        CountSections(s[1..], sep, toEscape, section + [s[0]], rest);
      } else {
        var whole := [s[0]] + tail;
        assert Escaped(s, toEscape) + rest == whole;
        assert whole[1..] == tail;
        CountSections(s[1..], sep, toEscape, if s[0] == sep then [] else section + [s[0]], rest);
      }
    }
  }

  /** The number of sections does not depend on what has been read of the current one. */
  lemma {:induction false} SectionCountIgnoresPrefix(s: string, sep: char, a: string, b: string, flag: bool)
    ensures |SplitScan(s, sep, a, flag)| == |SplitScan(s, sep, b, flag)|
    decreases |s|
  {
    if s == [] {
    } else if flag {
      SectionCountIgnoresPrefix(s[1..], sep, a + [s[0]], b + [s[0]], false);
    } else if s[0] == BACKSLASH {
      SectionCountIgnoresPrefix(s[1..], sep, a, b, true);
    } else if s[0] != sep {
      SectionCountIgnoresPrefix(s[1..], sep, a + [s[0]], b + [s[0]], false);
    }
  }

  function TotalBare(parts: seq<string>, sep: char, toEscape: seq<char>): nat {
    if parts == [] then 0 else BareSeparators(parts[0], sep, toEscape) + TotalBare(parts[1..], sep, toEscape)
  }

  /** Every bare separator inside a part adds one section to the split. */
  lemma {:induction false} SplitLength(parts: seq<string>, sep: char, toEscape: seq<char>)
    requires parts != [] && sep != BACKSLASH
    ensures |SplitScan(Join(EscapeAll(parts, toEscape), sep), sep, [], false)|
         == |parts| + TotalBare(parts, sep, toEscape)
    decreases |parts|
  {
    var escaped := EscapeAll(parts, toEscape);
    if |parts| == 1 {
      CountSections(parts[0], sep, toEscape, [], []);
      assert Join(escaped, sep) == Escaped(parts[0], toEscape) + [];
      assert parts[1..] == [];
    } else {
      assert escaped[1..] == EscapeAll(parts[1..], toEscape);
      var rest := Join(EscapeAll(parts[1..], toEscape), sep);
      assert Join(escaped, sep) == Escaped(parts[0], toEscape) + ([sep] + rest);
      CountSections(parts[0], sep, toEscape, [], [sep] + rest);
      assert ([sep] + rest)[1..] == rest;
      SplitLength(parts[1..], sep, toEscape);
    }
  }

  lemma {:induction false} BareSeparatorsPositive(s: string, sep: char, toEscape: seq<char>)
    requires sep in s && !NeedsEscape(sep, toEscape)
    ensures BareSeparators(s, sep, toEscape) > 0
  {
    if s[0] != sep {
      BareSeparatorsPositive(s[1..], sep, toEscape);
    }
  }

  lemma {:induction false} TotalBarePositive(parts: seq<string>, k: nat, sep: char, toEscape: seq<char>)
    requires k < |parts| && sep in parts[k] && !NeedsEscape(sep, toEscape)
    ensures TotalBare(parts, sep, toEscape) > 0
  {
    if k == 0 {
      BareSeparatorsPositive(parts[0], sep, toEscape);
    } else {
      TotalBarePositive(parts[1..], k - 1, sep, toEscape);
    }
  }

  /** A backslash is never recognised as a separator: the split is one section. */
  lemma {:induction false} BackslashNeverSplits(s: string, section: string, flag: bool)
    ensures |SplitScan(s, BACKSLASH, section, flag)| == 1
    decreases |s|
  {
    if s == [] {
    } else if flag {
      BackslashNeverSplits(s[1..], section + [s[0]], false);
    } else if s[0] == BACKSLASH {
      BackslashNeverSplits(s[1..], section, true);
    } else {
      BackslashNeverSplits(s[1..], section + [s[0]], false);
    }
  }

  /** With the backslash as separator the split is one section, the escaped text read back. */
  lemma BackslashRoundTrip(parts: seq<string>, toEscape: seq<char>)
    requires parts != []
    ensures SplitScan(Join(EscapeAll(parts, toEscape), BACKSLASH), BACKSLASH, [], false) == parts <==> |parts| == 1
  {
    BackslashNeverSplits(Join(EscapeAll(parts, toEscape), BACKSLASH), [], false);
    if |parts| == 1 {
      ScanEscaped(parts[0], BACKSLASH, toEscape, [], []);
      assert Join(EscapeAll(parts, toEscape), BACKSLASH) == Escaped(parts[0], toEscape) + [];
      assert [] + parts[0] == parts[0];
    }
  }

  lemma BareSeparatorBreaksRoundTrip(parts: seq<string>, k: nat, sep: char, toEscape: seq<char>)
    requires sep != BACKSLASH && k < |parts| && !Protected(parts[k], sep, toEscape)
    ensures SplitScan(Join(EscapeAll(parts, toEscape), sep), sep, [], false) != parts
  {
    TotalBarePositive(parts, k, sep, toEscape);
    SplitLength(parts, sep, toEscape);
  }

  /** Exactly when splitting the join of escaped parts returns the parts: a backslash separator only
      works for a single part; any other separator works iff each part that holds it also escapes it. */
  lemma SplitRoundTripExactly(parts: seq<string>, sep: char, toEscape: seq<char>)
    requires parts != []
    ensures SplitScan(Join(EscapeAll(parts, toEscape), sep), sep, [], false) == parts
       <==> if sep == BACKSLASH then |parts| == 1
            else forall p :: p in parts ==> Protected(p, sep, toEscape)
  {
    if sep == BACKSLASH {
      BackslashRoundTrip(parts, toEscape);
    } else if k :| 0 <= k < |parts| && !Protected(parts[k], sep, toEscape) {
      assert parts[k] in parts;
      BareSeparatorBreaksRoundTrip(parts, k, sep, toEscape);
    } else {
      SplitInvertsJoin(parts, sep, toEscape);
    }
  }

  /** A mark at the very end marks nothing and is lost. */
  lemma {:induction false} LoneMarkIsLost(s: string, sep: char, toEscape: seq<char>)
    ensures UnescapeScan(Escaped(s, toEscape) + [BACKSLASH], false) == s
    ensures Protected(s, sep, toEscape) ==> SplitScan(Escaped(s, toEscape) + [BACKSLASH], sep, [], false) == [s]
  {
    UnescapeEscaped(s, toEscape, [BACKSLASH]);
    assert [BACKSLASH][1..] == [] && UnescapeScan([BACKSLASH], false) == [] && s + [] == s;
    if Protected(s, sep, toEscape) {
      ScanEscaped(s, sep, toEscape, [], [BACKSLASH]);
      assert [] + s == s;
    }
  }

  lemma {:induction false} UnescapeEscaped(s: string, toEscape: seq<char>, rest: string)
    ensures UnescapeScan(Escaped(s, toEscape) + rest, false) == s + UnescapeScan(rest, false)
    decreases |s|
  {
    if s == [] {
      assert Escaped(s, toEscape) + rest == rest;
    } else {
      var tail := Escaped(s[1..], toEscape) + rest;
      UnescapeEscaped(s[1..], toEscape, rest);
      assert s + UnescapeScan(rest, false) == [s[0]] + (s[1..] + UnescapeScan(rest, false));
      if NeedsEscape(s[0], toEscape) {
        var whole := [BACKSLASH, s[0]] + tail;
        assert Escaped(s, toEscape) + rest == whole;
        assert whole[1..] == [s[0]] + tail;
        assert whole[1..][1..] == tail;
      } else {
        var whole := [s[0]] + tail;
        assert Escaped(s, toEscape) + rest == whole;
        assert whole[1..] == tail;
      }
    }
  }
}
