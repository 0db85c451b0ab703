/** The two string operations the link resolver is built from: PHP's literal
    `str_replace` of one search string, and the digit filter
    `preg_replace('/[^0-9]/', '', $s)`. */
module Text {
  import opened Php

  /** `t` occurs in `s` at position `i`. */
  predicate OccursAt(s: string, t: string, i: int)
  {
    0 <= i && i + |t| <= |s| && s[i..i + |t|] == t
  }

  /** `t` is a substring of `s`. */
  predicate Occurs(s: string, t: string)
  {
    exists i :: 0 <= i <= |s| && OccursAt(s, t, i)
  }

  /** `str_replace($t, $r, $s)` for a non-empty search string: scans `s` from the
      left, replaces every occurrence of `t` by `r` and goes on after it, so the
      occurrences replaced do not overlap and the inserted text is not scanned. */
  function ReplaceAll(s: string, t: string, r: string): string
    requires |t| > 0
    decreases |s|
  {
    if |s| < |t| then s
    else if s[..|t|] == t then r + ReplaceAll(s[|t|..], t, r)
    else [s[0]] + ReplaceAll(s[1..], t, r)
  }

  /** `explode($t, $s)`: the pieces of `s` between the occurrences of `t`, found
      by the same left-to-right scan. */
  function Split(s: string, t: string): (parts: seq<string>)
    requires |t| > 0
    ensures |parts| > 0
    decreases |s|
  {
    if |s| < |t| then [s]
    else if s[..|t|] == t then [""] + Split(s[|t|..], t)
    else
      var rest := Split(s[1..], t);
      [[s[0]] + rest[0]] + rest[1..]
  }

  /** `implode($sep, $parts)`. */
  function Join(parts: seq<string>, sep: string): string
    requires |parts| > 0
  {
    if |parts| == 1 then parts[0] else parts[0] + sep + Join(parts[1..], sep)
  }

  lemma JoinConsHead(c: char, parts: seq<string>, sep: string)
    requires |parts| > 0
    ensures Join([[c] + parts[0]] + parts[1..], sep) == [c] + Join(parts, sep)
  {
    var q := [[c] + parts[0]] + parts[1..];
    assert q[1..] == parts[1..];
  }

  /** The replace-all is the implode of the explode: the occurrences it
      replaces are exactly the separators `explode` cuts at. */
  lemma {:induction false} ReplaceAllIsJoinOfSplit(s: string, t: string, r: string)
    requires |t| > 0
    ensures ReplaceAll(s, t, r) == Join(Split(s, t), r)
    decreases |s|
  {
    if |s| < |t| {
    } else if s[..|t|] == t {
      ReplaceAllIsJoinOfSplit(s[|t|..], t, r);
      var rest := Split(s[|t|..], t);
      assert ([""] + rest)[1..] == rest;
    } else {
      ReplaceAllIsJoinOfSplit(s[1..], t, r);
      JoinConsHead(s[0], Split(s[1..], t), r);
    }
  }

  /** The first piece `explode` cuts is a prefix of the text. */
  lemma {:induction false} SplitHeadIsPrefix(s: string, t: string)
    requires |t| > 0
    ensures Split(s, t)[0] <= s
    decreases |s|
  {
    if |s| >= |t| && s[..|t|] != t {
      SplitHeadIsPrefix(s[1..], t);
      assert s == [s[0]] + s[1..];
    }
  }

  /** No piece `explode` cuts holds the search string: the cuts are at every
      occurrence, so the replace-all, which is the implode of these pieces,
      leaves no occurrence of the original text unreplaced. */
  lemma {:induction false} SplitPiecesFree(s: string, t: string)
    requires |t| > 0
    ensures forall k :: 0 <= k < |Split(s, t)| ==> !Occurs(Split(s, t)[k], t)
    decreases |s|
  {
    if |s| < |t| {
    } else if s[..|t|] == t {
      SplitPiecesFree(s[|t|..], t);
      var rest := Split(s[|t|..], t);
      assert Split(s, t) == [""] + rest;
    } else {
      SplitPiecesFree(s[1..], t);
      SplitHeadIsPrefix(s[1..], t);
      var rest := Split(s[1..], t);
      var head := [s[0]] + rest[0];
      assert head <= s;
      if Occurs(head, t) {
        var i :| 0 <= i <= |head| && OccursAt(head, t, i);
        if i > 0 {
          assert head[i..i + |t|] == rest[0][i - 1..i - 1 + |t|];
          assert OccursAt(rest[0], t, i - 1);
        }
      }
      assert Split(s, t) == [head] + rest[1..];
    }
  }

  /** Two occurrences in a row are both replaced. */
  lemma ReplaceAllTwice(t: string, r: string)
    requires |t| > 0
    ensures ReplaceAll(t + t, t, r) == r + r
  {
    var s := t + t;
    assert s[..|t|] == t && s[|t|..] == t;
    ReplaceAllWhole(t, r);
  }

  /** Replacing a string by itself changes nothing. */
  lemma {:induction false} ReplaceAllBySelf(s: string, t: string)
    requires |t| > 0
    ensures ReplaceAll(s, t, t) == s
    decreases |s|
  {
    if |s| < |t| {
    } else if s[..|t|] == t {
      ReplaceAllBySelf(s[|t|..], t);
      assert s == s[..|t|] + s[|t|..];
    } else {
      ReplaceAllBySelf(s[1..], t);
      assert s == [s[0]] + s[1..];
    }
  }

  /** Joining the pieces of `explode` with the separator rebuilds the text. */
  lemma SplitJoinRoundTrip(s: string, t: string)
    requires |t| > 0
    ensures Join(Split(s, t), t) == s
  {
    ReplaceAllIsJoinOfSplit(s, t, t);
    ReplaceAllBySelf(s, t);
  }

  /** A text in which the search string does not occur is returned unchanged. */
  lemma {:induction false} ReplaceAllAbsent(s: string, t: string, r: string)
    requires |t| > 0
    requires !Occurs(s, t)
    ensures ReplaceAll(s, t, r) == s
    decreases |s|
  {
    if |s| >= |t| {
      assert !OccursAt(s, t, 0);
      var u := s[1..];
      if Occurs(u, t) {
        var i :| 0 <= i <= |u| && OccursAt(u, t, i);
        assert u[i..i + |t|] == s[i + 1..i + 1 + |t|];
        assert OccursAt(s, t, i + 1);
      }
      ReplaceAllAbsent(s[1..], t, r);
      assert s == [s[0]] + s[1..];
    }
  }

  /** A text that does not contain the first character of the search string. */
  lemma ReplaceAllWithoutLead(s: string, t: string, r: string)
    requires |t| > 0
    requires forall i :: 0 <= i < |s| ==> s[i] != t[0]
    ensures ReplaceAll(s, t, r) == s
  {
    forall i | 0 <= i <= |s| && i + |t| <= |s|
      ensures !OccursAt(s, t, i)
    {
      assert s[i..i + |t|][0] == s[i];
    }
    ReplaceAllAbsent(s, t, r);
  }

  /** A prefix that holds no first character of the search string is copied and
      the scan goes on behind it. */
  lemma {:induction false} ReplaceAllSkipsPrefix(a: string, b: string, t: string, r: string)
    requires |t| > 0
    requires forall i :: 0 <= i < |a| ==> a[i] != t[0]
    ensures ReplaceAll(a + b, t, r) == a + ReplaceAll(b, t, r)
    decreases |a|
  {
    if a != [] {
      var s := a + b;
      assert s[0] == a[0];
      if |s| >= |t| {
        assert s[..|t|][0] != t[0];
        assert s[1..] == a[1..] + b;
        ReplaceAllSkipsPrefix(a[1..], b, t, r);
        calc {
          ReplaceAll(s, t, r);
          [s[0]] + ReplaceAll(s[1..], t, r);
          [a[0]] + (a[1..] + ReplaceAll(b, t, r));
          { assert a == [a[0]] + a[1..]; }
          a + ReplaceAll(b, t, r);
        }
      } else {
        assert ReplaceAll(s, t, r) == s;
        assert ReplaceAll(b, t, r) == b;
      }
    } else {
      assert a + b == b;
    }
  }

  /** A piece that is not a match where it starts, and holds no other first
      character of the search string, is copied and the scan goes on behind
      it. */
  lemma ReplaceAllSkipsNonMatch(x: string, b: string, t: string, r: string)
    requires |t| > 0 && |x| > 0
    requires |x + b| < |t| || (x + b)[..|t|] != t
    requires forall i :: 1 <= i < |x| ==> x[i] != t[0]
    ensures ReplaceAll(x + b, t, r) == x + ReplaceAll(b, t, r)
  {
    var s := x + b;
    if |s| >= |t| {
      assert ReplaceAll(s, t, r) == [s[0]] + ReplaceAll(s[1..], t, r);
      assert s[1..] == x[1..] + b;
      ReplaceAllSkipsPrefix(x[1..], b, t, r);
      assert [s[0]] + (x[1..] + ReplaceAll(b, t, r)) == x + ReplaceAll(b, t, r);
    }
  }

  /** A text that is exactly the search string becomes the replacement. */
  lemma ReplaceAllWhole(t: string, r: string)
    requires |t| > 0
    ensures ReplaceAll(t, t, r) == r
  {
    assert t[..|t|] == t;
    assert t[|t|..] == [];
  }

  /** The digit filter `preg_replace('/[^0-9]/', '', $s)`. */
  function Digits(s: string): string
  {
    if s == [] then []
    else (if IsDigit(s[0]) then [s[0]] else []) + Digits(s[1..])
  }

  /** What passes the filter is digits only, and never more than the input. */
  lemma {:induction false} DigitsAreDigits(s: string)
    ensures AllDigits(Digits(s)) && |Digits(s)| <= |s|
  {
    if s != [] {
      DigitsAreDigits(s[1..]);
    }
  }

  /** The filter works piece by piece: the digits of a concatenation are the
      digits of the first part followed by those of the second. */
  lemma {:induction false} DigitsOfConcat(a: string, b: string)
    ensures Digits(a + b) == Digits(a) + Digits(b)
    decreases |a|
  {
    if a != [] {
      assert (a + b)[1..] == a[1..] + b;
      DigitsOfConcat(a[1..], b);
    } else {
      assert a + b == b;
    }
  }

  /** A string of digits passes the filter whole, so the filter is idempotent. */
  lemma {:induction false} DigitsKeepsDigitString(s: string)
    requires AllDigits(s)
    ensures Digits(s) == s
  {
    if s != [] {
      DigitsKeepsDigitString(s[1..]);
      assert s == [s[0]] + s[1..];
    }
  }

  /** Each digit character occurs in the filtered string as often as in the
      input, and no other character occurs in it. */
  lemma {:induction false} DigitsKeepsEveryDigit(s: string)
    ensures forall c :: IsDigit(c) ==> multiset(Digits(s))[c] == multiset(s)[c]
    ensures forall c :: !IsDigit(c) ==> multiset(Digits(s))[c] == 0
  {
    if s != [] {
      DigitsKeepsEveryDigit(s[1..]);
      assert s == [s[0]] + s[1..];
      assert multiset(s) == multiset([s[0]]) + multiset(s[1..]);
    }
  }
}
