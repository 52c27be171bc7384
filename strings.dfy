/**
 * String operations of Python's `str` that the modelled code relies on:
 * substring membership (`pat in s`), `str.replace`, decimal rendering of
 * integers (`str(n)`), `int()` of a run of ASCII digits, thousands grouping
 * (`f"{n:,}"`) and ASCII case mapping (`upper()`/`lower()`).
 */
module Strings {

  /** `pat in s`: `pat` occurs as a contiguous substring of `s`. */
  predicate Contains(s: string, pat: string)
    decreases |s|
  {
    if |s| < |pat| then false
    else s[..|pat|] == pat || (|s| > 0 && Contains(s[1..], pat))
  }

  /** Every string contains itself. */
  lemma ContainsSelf(s: string)
    ensures Contains(s, s)
  {
    assert s[..|s|] == s;
  }

  /** From offset `m` on, the characters of `pat` are those of `s` from position `k + m`. */
  predicate MatchesFrom(s: string, pat: string, k: nat, m: nat)
    decreases |pat| - m
  {
    m >= |pat| || (k + m < |s| && s[k + m] == pat[m] && MatchesFrom(s, pat, k, m + 1))
  }

  /** `pat` occurs in `s` starting at position `k`. */
  predicate OccursAt(s: string, pat: string, k: nat) {
    k + |pat| <= |s| && MatchesFrom(s, pat, k, 0)
  }

  /** Within `s`, `MatchesFrom` compares the remaining characters of `pat` one by one. */
  lemma {:induction false} MatchesFromAll(s: string, pat: string, k: nat, m: nat)
    requires k + |pat| <= |s|
    ensures MatchesFrom(s, pat, k, m) <==> forall j :: m <= j < |pat| ==> s[k + j] == pat[j]
    decreases |pat| - m
  {
    if m < |pat| {
      MatchesFromAll(s, pat, k, m + 1);
    }
  }

  /** An occurrence at `k` is the slice of `s` at `k` being `pat`. */
  lemma OccursAtSlice(s: string, pat: string, k: nat)
    ensures OccursAt(s, pat, k) <==> k + |pat| <= |s| && s[k..k + |pat|] == pat
  {
    if k + |pat| <= |s| {
      MatchesFromAll(s, pat, k, 0);
    }
    if k + |pat| <= |s| && s[k..k + |pat|] == pat {
      forall j | 0 <= j < |pat|
        ensures s[k + j] == pat[j]
      {
        assert s[k..k + |pat|][j] == s[k + j];
      }
    }
  }

  /** The two definitions of substring occurrence agree: `pat in s` iff `pat` occurs at some position. */
  lemma {:induction false} ContainsOccurs(s: string, pat: string)
    ensures Contains(s, pat) <==> exists k: nat :: OccursAt(s, pat, k)
    decreases |s|
  {
    if |s| >= |pat| {
      OccursAtSlice(s, pat, 0);
      assert s[0..|pat|] == s[..|pat|];
      if |s| > 0 {
        ContainsOccurs(s[1..], pat);
        forall k: nat
          ensures OccursAt(s[1..], pat, k) <==> OccursAt(s, pat, k + 1)
        {
          OccursAtSlice(s[1..], pat, k);
          OccursAtSlice(s, pat, k + 1);
          if k + 1 + |pat| <= |s| {
            assert s[1..][k..k + |pat|] == s[k + 1..k + 1 + |pat|];
          }
        }
        if k: nat :| OccursAt(s, pat, k) {
          if k > 0 {
            assert OccursAt(s[1..], pat, k - 1);
          }
        }
      }
    }
  }

  /** `pat` occurs nowhere in `s` from position `i` up to, not including, `k`. */
  predicate NoneBetween(s: string, pat: string, i: nat, k: nat)
    decreases k - i
  {
    i >= k || (!OccursAt(s, pat, i) && NoneBetween(s, pat, i + 1, k))
  }

  /** The first occurrence of `pat` in `s` starts at `k`. */
  predicate FirstAt(s: string, pat: string, k: nat) {
    OccursAt(s, pat, k) && NoneBetween(s, pat, 0, k)
  }

  /** `s.replace(pat, rep)`: every non-overlapping occurrence, scanning left to right. */
  function ReplaceAll(s: string, pat: string, rep: string): (r: string)
    requires pat != []
    ensures NoneBetween(s, pat, 0, |s|) ==> r == s
  {
    AbsentCopies(s, pat, rep);
    ReplaceFrom(s, pat, rep, 0)
  }

  /** The scan of `s.replace(pat, rep)` from position `i`. */
  function ReplaceFrom(s: string, pat: string, rep: string, i: nat): string
    requires pat != [] && i <= |s|
    decreases |s| - i
  {
    if i + |pat| > |s| then s[i..]
    else if OccursAt(s, pat, i) then rep + ReplaceFrom(s, pat, rep, i + |pat|)
    else [s[i]] + ReplaceFrom(s, pat, rep, i + 1)
  }

  /** Without an occurrence from `i` on, the scan copies the rest. */
  lemma {:induction false} ReplaceFromNone(s: string, pat: string, rep: string, i: nat)
    requires pat != [] && i <= |s|
    requires NoneBetween(s, pat, i, |s|)
    ensures ReplaceFrom(s, pat, rep, i) == s[i..]
    decreases |s| - i
  {
    if i + |pat| <= |s| {
      assert !OccursAt(s, pat, i);
      ReplaceFromNone(s, pat, rep, i + 1);
      assert s[i..] == [s[i]] + s[i + 1..];
    }
  }

  lemma AbsentCopies(s: string, pat: string, rep: string)
    requires pat != []
    ensures NoneBetween(s, pat, 0, |s|) ==> ReplaceFrom(s, pat, rep, 0) == s
  {
    if NoneBetween(s, pat, 0, |s|) {
      ReplaceFromNone(s, pat, rep, 0);
    }
  }

  lemma SliceCons(s: string, i: nat, k: nat)
    requires i < k <= |s|
    ensures s[i..k] == [s[i]] + s[i + 1..k]
  {
  }

  lemma ConsAppend(c: char, x: string, y: string, z: string)
    ensures [c] + (x + y + z) == ([c] + x) + y + z
  {
  }

  lemma EmptyAppend(e: string, y: string, z: string)
    requires e == []
    ensures e + y + z == y + z
  {
  }

  /** The scan copies everything before the next occurrence and replaces that occurrence. */
  lemma {:induction false} ReplaceFromUntil(s: string, pat: string, rep: string, i: nat, k: nat)
    requires pat != [] && i <= k && OccursAt(s, pat, k)
    requires NoneBetween(s, pat, i, k)
    ensures ReplaceFrom(s, pat, rep, i) == s[i..k] + rep + ReplaceFrom(s, pat, rep, k + |pat|)
    decreases k - i
  {
    var after := ReplaceFrom(s, pat, rep, k + |pat|);
    if i < k {
      ReplaceFromUntil(s, pat, rep, i + 1, k);
      SliceCons(s, i, k);
      ConsAppend(s[i], s[i + 1..k], rep, after);
    } else {
      EmptyAppend(s[i..k], rep, after);
    }
  }

  lemma ScanEnd(s: string, pat: string, rep: string, i: nat)
    requires pat != [] && i <= |s| < i + |pat|
    ensures ReplaceFrom(s, pat, rep, i) == s[i..]
  {
  }

  lemma ScanHit(s: string, pat: string, rep: string, i: nat)
    requires pat != [] && OccursAt(s, pat, i)
    ensures ReplaceFrom(s, pat, rep, i) == rep + ReplaceFrom(s, pat, rep, i + |pat|)
  {
  }

  lemma ScanMiss(s: string, pat: string, rep: string, i: nat)
    requires pat != [] && i + |pat| <= |s| && !OccursAt(s, pat, i)
    ensures ReplaceFrom(s, pat, rep, i) == [s[i]] + ReplaceFrom(s, pat, rep, i + 1)
  {
  }

  lemma {:induction false} MatchesShift(s: string, pat: string, i: nat, m: nat, j: nat)
    requires i + m <= |s|
    ensures MatchesFrom(s[i..], pat, m, j) == MatchesFrom(s, pat, i + m, j)
    decreases |pat| - j
  {
    if j < |pat| {
      MatchesShift(s, pat, i, m, j + 1);
      if m + j < |s| - i {
        assert s[i..][m + j] == s[i + m + j];
      }
    }
  }

  lemma OccursShift(s: string, pat: string, i: nat, m: nat)
    requires i + m <= |s|
    ensures OccursAt(s[i..], pat, m) == OccursAt(s, pat, i + m)
    ensures m < |s| - i ==> s[i..][m] == s[i + m]
  {
    MatchesShift(s, pat, i, m, 0);
  }

  lemma ShiftEnd(s: string, pat: string, rep: string, i: nat, m: nat)
    requires pat != [] && i + m <= |s| < i + m + |pat|
    ensures ReplaceFrom(s, pat, rep, i + m) == ReplaceFrom(s[i..], pat, rep, m)
  {
    ScanEnd(s, pat, rep, i + m);
    ScanEnd(s[i..], pat, rep, m);
    assert s[i..][m..] == s[i + m..];
  }

  lemma ShiftHit(s: string, pat: string, rep: string, i: nat, m: nat)
    requires pat != [] && OccursAt(s, pat, i + m)
    requires ReplaceFrom(s, pat, rep, i + (m + |pat|)) == ReplaceFrom(s[i..], pat, rep, m + |pat|)
    ensures ReplaceFrom(s, pat, rep, i + m) == ReplaceFrom(s[i..], pat, rep, m)
  {
    OccursShift(s, pat, i, m);
    assert i + (m + |pat|) == i + m + |pat|;
    ScanHit(s, pat, rep, i + m);
    ScanHit(s[i..], pat, rep, m);
  }

  lemma ShiftMiss(s: string, pat: string, rep: string, i: nat, m: nat)
    requires pat != [] && i + m + |pat| <= |s| && !OccursAt(s, pat, i + m)
    requires ReplaceFrom(s, pat, rep, i + (m + 1)) == ReplaceFrom(s[i..], pat, rep, m + 1)
    ensures ReplaceFrom(s, pat, rep, i + m) == ReplaceFrom(s[i..], pat, rep, m)
  {
    OccursShift(s, pat, i, m);
    assert i + (m + 1) == i + m + 1;
    ScanMiss(s, pat, rep, i + m);
    ScanMiss(s[i..], pat, rep, m);
  }

  /** Scanning `s` from `i + m` is scanning its suffix `s[i..]` from `m`. */
  lemma {:induction false} ReplaceFromShift(s: string, pat: string, rep: string, i: nat, m: nat)
    requires pat != [] && i + m <= |s|
    ensures ReplaceFrom(s, pat, rep, i + m) == ReplaceFrom(s[i..], pat, rep, m)
    decreases |s| - i - m
  {
    if i + m + |pat| > |s| {
      ShiftEnd(s, pat, rep, i, m);
    } else if OccursAt(s, pat, i + m) {
      ReplaceFromShift(s, pat, rep, i, m + |pat|);
      ShiftHit(s, pat, rep, i, m);
    } else {
      ReplaceFromShift(s, pat, rep, i, m + 1);
      ShiftMiss(s, pat, rep, i, m);
    }
  }

  /**
   * `str.replace` works from the left: when the first occurrence of `pat`
   * starts at `k`, the result is the text before it, the replacement, and
   * the replaced rest after that occurrence.
   */
  lemma ReplaceAllFirst(s: string, pat: string, rep: string, k: nat)
    requires pat != [] && FirstAt(s, pat, k)
    ensures ReplaceAll(s, pat, rep) == s[..k] + rep + ReplaceAll(s[k + |pat|..], pat, rep)
  {
    ReplaceFromUntil(s, pat, rep, 0, k);
    ReplaceFromShift(s, pat, rep, k + |pat|, 0);
    assert s[0..k] == s[..k];
  }

  predicate IsDigit(c: char) { '0' <= c <= '9' }

  predicate AllDigits(s: string) { forall i :: 0 <= i < |s| ==> IsDigit(s[i]) }

  function DigitChar(d: nat): (c: char)
    requires d < 10
    ensures IsDigit(c) && c as int - '0' as int == d
  {
    ('0' as int + d) as char
  }

  /** `int(s)` for a run of ASCII digits. */
  function DigitsValue(s: string): nat
    requires AllDigits(s)
    decreases |s|
  {
    if s == [] then 0
    else DigitsValue(s[..|s| - 1]) * 10 + (s[|s| - 1] as int - '0' as int)
  }

  function Pow10(k: nat): (r: nat)
    ensures r >= 1
  {
    if k == 0 then 1 else 10 * Pow10(k - 1)
  }

  /** A run of k digits reads as a number below 10^k. */
  lemma {:induction false} DigitsValueBelow(s: string)
    requires AllDigits(s)
    ensures DigitsValue(s) < Pow10(|s|)
    decreases |s|
  {
    if s != [] {
      DigitsValueBelow(s[..|s| - 1]);
    }
  }

  /** `str(n)` for a natural number. */
  function NatToString(n: nat): (r: string)
    ensures |r| > 0 && AllDigits(r)
    decreases n
  {
    if n < 10 then [DigitChar(n)] else NatToString(n / 10) + [DigitChar(n % 10)]
  }

  /** `str(n)` for an integer. */
  function IntToString(n: int): string {
    if n < 0 then "-" + NatToString(-n) else NatToString(n)
  }

  /** Reading back the decimal rendering gives the number. */
  lemma {:induction false} NatToStringRoundTrip(n: nat)
    ensures DigitsValue(NatToString(n)) == n
    decreases n
  {
    var s := NatToString(n);
    if n >= 10 {
      NatToStringRoundTrip(n / 10);
      assert s[..|s| - 1] == NatToString(n / 10);
    }
  }

  /** Three digits with leading zeros: one thousands group. */
  function Pad3(k: nat): (r: string)
    requires k < 1000
    ensures |r| == 3 && AllDigits(r)
  {
    [DigitChar(k / 100), DigitChar(k / 10 % 10), DigitChar(k % 10)]
  }

  /** `f"{n:,}"` for a natural number: digits grouped by three with commas. */
  function GroupThousands(n: nat): (r: string)
    ensures |r| > 0
    decreases n
  {
    if n < 1000 then NatToString(n) else GroupThousands(n / 1000) + "," + Pad3(n % 1000)
  }

  /** Python renders `f"{1234567:,}"` as `1,234,567`. */
  lemma GroupThousandsExample()
    ensures GroupThousands(1234567) == "1,234,567"
  {
    assert Pad3(567) == "567";
    assert Pad3(234) == "234";
    assert GroupThousands(1) == "1";
    assert GroupThousands(1234) == "1" + "," + "234";
  }

  /** `f"{n:,}"` for an integer. */
  function IntGrouped(n: int): string {
    if n < 0 then "-" + GroupThousands(-n) else GroupThousands(n)
  }

  /** `s.replace(",", "")`. */
  function RemoveCommas(s: string): (r: string)
    ensures ',' !in r
  {
    if s == [] then [] else (if s[0] == ',' then [] else [s[0]]) + RemoveCommas(s[1..])
  }

  lemma {:induction false} RemoveCommasAppend(a: string, b: string)
    ensures RemoveCommas(a + b) == RemoveCommas(a) + RemoveCommas(b)
    decreases |a|
  {
    if a != [] {
      RemoveCommasAppend(a[1..], b);
      assert (a + b)[0] == a[0];
      assert (a + b)[1..] == a[1..] + b;
    } else {
      assert a + b == b;
    }
  }

  lemma {:induction false} RemoveCommasDigits(s: string)
    requires AllDigits(s)
    ensures RemoveCommas(s) == s
    decreases |s|
  {
    if s != [] {
      RemoveCommasDigits(s[1..]);
    }
  }

  /** The digit arithmetic behind `NatToStringSplit`. */
  lemma ThousandsDigits(n: nat)
    ensures n / 10 / 10 == n / 100 && n / 100 / 10 == n / 1000
    ensures n % 1000 / 100 == n / 100 % 10 && n % 1000 / 10 % 10 == n / 10 % 10
    ensures n % 1000 % 10 == n % 10
  {
    var q1, r1 := n / 10, n % 10;
    var q2, r2 := q1 / 10, q1 % 10;
    var q3, r3 := q2 / 10, q2 % 10;
    assert n == 1000 * q3 + 100 * r3 + 10 * r2 + r1;
  }

  /** For n >= 1000, the decimal rendering splits into the leading part and the last three digits. */
  lemma NatToStringSplit(n: nat)
    requires n >= 1000
    ensures NatToString(n) == NatToString(n / 1000) + Pad3(n % 1000)
  {
    ThousandsDigits(n);
    var a, b, c := n / 1000, n / 100, n / 10;
    assert NatToString(b) == NatToString(a) + [DigitChar(b % 10)];
    assert NatToString(c) == NatToString(b) + [DigitChar(c % 10)];
    assert NatToString(n) == NatToString(c) + [DigitChar(n % 10)];
  }

  /** Removing the commas from a grouped number gives its plain decimal form. */
  lemma {:induction false} GroupThousandsDigits(n: nat)
    ensures RemoveCommas(GroupThousands(n)) == NatToString(n)
    decreases n
  {
    if n < 1000 {
      RemoveCommasDigits(NatToString(n));
    } else {
      GroupThousandsDigits(n / 1000);
      RemoveCommasAppend(GroupThousands(n / 1000) + ",", Pad3(n % 1000));
      RemoveCommasAppend(GroupThousands(n / 1000), ",");
      RemoveCommasDigits(Pad3(n % 1000));
      NatToStringSplit(n);
    }
  }

  /**
   * A run of digits in thousands groups: one to three digits, or a shorter
   * grouped run, a comma and exactly three digits.
   */
  ghost predicate Grouped(t: string)
    decreases |t|
  {
    (1 <= |t| <= 3 && AllDigits(t)) ||
    (|t| >= 5 && t[|t| - 4] == ',' && AllDigits(t[|t| - 3..]) && Grouped(t[..|t| - 4]))
  }

  /** A grouped number: a grouped run of digits, optionally after a minus sign. */
  ghost predicate SignedGrouped(t: string) {
    Grouped(t) || (t != [] && t[0] == '-' && Grouped(t[1..]))
  }

  /** Removing the commas of a run that ends in a comma and three digits. */
  lemma UngroupLast(t: string)
    requires |t| >= 4 && t[|t| - 4] == ',' && AllDigits(t[|t| - 3..])
    ensures RemoveCommas(t) == RemoveCommas(t[..|t| - 4]) + t[|t| - 3..]
  {
    var h, tail := t[..|t| - 4], t[|t| - 3..];
    var ct := [','] + tail;
    assert t == h + ct;
    assert ct[0] == ',' && ct[1..] == tail;
    RemoveCommasDigits(tail);
    calc {
      RemoveCommas(t);
      { RemoveCommasAppend(h, ct); }
      RemoveCommas(h) + RemoveCommas(ct);
      RemoveCommas(h) + tail;
    }
  }

  /** Without its commas a grouped run is a non-empty run of digits. */
  lemma {:induction false} GroupedUngroups(t: string)
    requires Grouped(t)
    ensures 1 <= |RemoveCommas(t)| && AllDigits(RemoveCommas(t))
    decreases |t|
  {
    if |t| <= 3 {
      RemoveCommasDigits(t);
    } else {
      var h, tail := t[..|t| - 4], t[|t| - 3..];
      UngroupLast(t);
      GroupedUngroups(h);
      var d := RemoveCommas(t);
      forall i | 0 <= i < |d|
        ensures IsDigit(d[i])
      {
        if i < |RemoveCommas(h)| {
          assert d[i] == RemoveCommas(h)[i];
        } else {
          assert d[i] == tail[i - |RemoveCommas(h)|];
        }
      }
    }
  }

  /** A grouped run of at most three characters is a plain run of one to three digits. */
  lemma GroupedShort(t: string)
    requires Grouped(t) && |t| <= 3
    ensures 1 <= |t| && RemoveCommas(t) == t
  {
    RemoveCommasDigits(t);
  }

  /** A longer grouped run ends in a comma and three digits, which lose only the comma. */
  lemma GroupedLong(t: string)
    requires Grouped(t) && |t| > 3
    ensures Grouped(t[..|t| - 4]) && RemoveCommas(t) == RemoveCommas(t[..|t| - 4]) + t[|t| - 3..]
    ensures |RemoveCommas(t)| >= 4
    ensures t[|t| - 4] == ','
  {
    UngroupLast(t);
    GroupedUngroups(t[..|t| - 4]);
  }

  lemma Recompose(t: string)
    requires |t| >= 4
    ensures t == t[..|t| - 4] + [t[|t| - 4]] + t[|t| - 3..]
  {
  }

  lemma AppendInjective(x: string, y: string, u: string, v: string)
    requires x + y == u + v && |y| == |v|
    ensures x == u && y == v
  {
    assert x == (x + y)[..|x|] && u == (u + v)[..|u|];
    assert y == (x + y)[|x|..] && v == (u + v)[|u|..];
  }

  /** A run of digits has only one grouping. */
  lemma {:induction false} GroupedUnique(a: string, b: string)
    requires Grouped(a) && Grouped(b) && RemoveCommas(a) == RemoveCommas(b)
    ensures a == b
    decreases |a|
  {
    if |a| <= 3 && |b| <= 3 {
      GroupedShort(a);
      GroupedShort(b);
    } else if |a| <= 3 {
      GroupedShort(a);
      GroupedLong(b);
      assert false;
    } else if |b| <= 3 {
      GroupedShort(b);
      GroupedLong(a);
      assert false;
    } else {
      GroupedLong(a);
      GroupedLong(b);
      var ha, hb := a[..|a| - 4], b[..|b| - 4];
      AppendInjective(RemoveCommas(ha), a[|a| - 3..], RemoveCommas(hb), b[|b| - 3..]);
      GroupedUnique(ha, hb);
      Recompose(a);
      Recompose(b);
    }
  }

  lemma MinusUngroups(t: string)
    ensures RemoveCommas("-" + t) == "-" + RemoveCommas(t)
  {
    RemoveCommasAppend("-", t);
    assert "-"[1..] == [];
  }

  /** A grouped run never ungroups to a text that starts with a minus sign. */
  lemma SignNotGrouped(a: string, b: string)
    requires Grouped(a) && b != [] && b[0] == '-'
    ensures RemoveCommas(a) != RemoveCommas(b)
  {
    GroupedUngroups(a);
    assert b == "-" + b[1..];
    MinusUngroups(b[1..]);
    assert RemoveCommas(b)[0] == '-';
  }

  /** A number has only one grouped rendering. */
  lemma SignedGroupedUnique(a: string, b: string)
    requires SignedGrouped(a) && SignedGrouped(b) && RemoveCommas(a) == RemoveCommas(b)
    ensures a == b
  {
    if Grouped(a) && Grouped(b) {
      GroupedUnique(a, b);
    } else if Grouped(a) {
      SignNotGrouped(a, b);
      assert false;
    } else if Grouped(b) {
      SignNotGrouped(b, a);
      assert false;
    } else {
      assert a == "-" + a[1..] && b == "-" + b[1..];
      MinusUngroups(a[1..]);
      MinusUngroups(b[1..]);
      assert RemoveCommas(a[1..]) == RemoveCommas(a)[1..];
      GroupedUnique(a[1..], b[1..]);
    }
  }

  /** Numbers below 1000 have at most three digits. */
  lemma NatToStringShort(n: nat)
    requires n < 1000
    ensures |NatToString(n)| <= 3
  {
    if n >= 100 {
      assert NatToString(n) == NatToString(n / 10) + [DigitChar(n % 10)];
      assert NatToString(n / 10) == NatToString(n / 10 / 10) + [DigitChar(n / 10 % 10)];
      assert n / 10 / 10 < 10;
    } else if n >= 10 {
      assert NatToString(n) == NatToString(n / 10) + [DigitChar(n % 10)];
      assert n / 10 < 10;
    }
  }

  lemma {:induction false} GroupThousandsShape(n: nat)
    ensures Grouped(GroupThousands(n))
    decreases n
  {
    var r := GroupThousands(n);
    if n < 1000 {
      NatToStringShort(n);
    } else {
      GroupThousandsShape(n / 1000);
      var head := GroupThousands(n / 1000);
      var tail := Pad3(n % 1000);
      assert r == head + [','] + tail;
      assert r[..|r| - 4] == head && r[|r| - 3..] == tail;
    }
  }

  function ToUpperChar(c: char): char {
    if 'a' <= c <= 'z' then (c as int - 32) as char else c
  }

  function ToLowerChar(c: char): char {
    if 'A' <= c <= 'Z' then (c as int + 32) as char else c
  }

  /** `s.upper()`, ASCII letters only. */
  function Upper(s: string): (r: string)
    ensures |r| == |s| && forall i :: 0 <= i < |s| ==> r[i] == ToUpperChar(s[i])
  {
    if s == [] then [] else [ToUpperChar(s[0])] + Upper(s[1..])
  }

  /** `s.lower()`, ASCII letters only. */
  function Lower(s: string): (r: string)
    ensures |r| == |s| && forall i :: 0 <= i < |s| ==> r[i] == ToLowerChar(s[i])
  {
    if s == [] then [] else [ToLowerChar(s[0])] + Lower(s[1..])
  }
}
