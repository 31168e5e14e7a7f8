/**
 * The three pieces of java.lang.String behaviour the task relies on:
 * `split(",")` (with its removal of trailing empty pieces), `trim()` and
 * `toUpperCase()` restricted to ASCII letters.
 */
module Text {

  /** Concatenates `parts`, putting `sep` between neighbours. */
  function Join(parts: seq<string>, sep: char): string
  {
    if |parts| == 0 then ""
    else if |parts| == 1 then parts[0]
    else parts[0] + [sep] + Join(parts[1..], sep)
  }

  /** Every piece of `s` between occurrences of `sep`, empty pieces included. */
  function SplitAll(s: string, sep: char): (parts: seq<string>)
    ensures |parts| >= 1
    ensures forall i :: 0 <= i < |parts| ==> sep !in parts[i]
    ensures sep !in s ==> parts == [s]
    decreases |s|
  {
    if |s| == 0 then [""]
    else
      var rest := SplitAll(s[1..], sep);
      assert s == [s[0]] + s[1..];
      if s[0] == sep then [""] + rest
      else [[s[0]] + rest[0]] + rest[1..]
  }

  /** Removes the empty strings at the end of `parts`. */
  function DropTrailingEmpty(parts: seq<string>): (r: seq<string>)
    ensures |r| <= |parts| && r == parts[..|r|]
    ensures |r| > 0 ==> r[|r| - 1] != ""
    ensures forall i :: |r| <= i < |parts| ==> parts[i] == ""
  {
    if |parts| > 0 && parts[|parts| - 1] == "" then DropTrailingEmpty(parts[..|parts| - 1])
    else parts
  }

  /**
   * Java's `s.split(",")`: when the separator does not occur the result is
   * `[s]` (so `""` gives `[""]`); otherwise trailing empty pieces are dropped.
   */
  function JavaSplit(s: string, sep: char): (r: seq<string>)
    ensures forall i :: 0 <= i < |r| ==> sep !in r[i]
    ensures sep !in s ==> r == [s]
    ensures sep in s ==>
              && r <= SplitAll(s, sep)
              && (|r| > 0 ==> r[|r| - 1] != "")
              && forall i :: |r| <= i < |SplitAll(s, sep)| ==> SplitAll(s, sep)[i] == ""
  {
    if sep !in s then [s] else DropTrailingEmpty(SplitAll(s, sep))
  }

  /** Java's `trim()` treats every character up to U+0020 as blank. */
  predicate Blank(c: char) {
    c <= ' '
  }

  /** Number of blank characters at the start of `s`. */
  function LeadingBlanks(s: string): (n: nat)
    ensures n <= |s|
    ensures forall k :: 0 <= k < n ==> Blank(s[k])
    ensures n < |s| ==> !Blank(s[n])
  {
    if |s| > 0 && Blank(s[0]) then 1 + LeadingBlanks(s[1..]) else 0
  }

  /** Number of blank characters at the end of `s`. */
  function TrailingBlanks(s: string): (n: nat)
    ensures n <= |s|
    ensures forall k :: |s| - n <= k < |s| ==> Blank(s[k])
    ensures n < |s| ==> !Blank(s[|s| - n - 1])
  {
    if |s| > 0 && Blank(s[|s| - 1]) then 1 + TrailingBlanks(s[..|s| - 1]) else 0
  }

  /** Java's `trim()`: `s` without its leading and trailing blanks. */
  function Trim(s: string): (r: string)
    ensures |r| <= |s|
    ensures |r| > 0 ==> !Blank(r[0]) && !Blank(r[|r| - 1])
    ensures LeadingBlanks(s) + |r| <= |s| && r == s[LeadingBlanks(s)..LeadingBlanks(s) + |r|]
    ensures forall k :: LeadingBlanks(s) + |r| <= k < |s| ==> Blank(s[k])
  {
    var a := LeadingBlanks(s);
    if a == |s| then
      ""
    else
      var b := |s| - TrailingBlanks(s);
      assert !Blank(s[b - 1]);
      s[a..b]
  }

  /** Java's `toUpperCase()` on one ASCII character. */
  function UpperChar(c: char): char {
    if 'a' <= c <= 'z' then (c as int - 32) as char else c
  }

  /** Java's `toUpperCase()`, restricted to the ASCII letters. */
  function Upper(s: string): (r: string)
    ensures |r| == |s|
    ensures forall i :: 0 <= i < |s| ==> r[i] == UpperChar(s[i])
  {
    seq(|s|, i requires 0 <= i < |s| => UpperChar(s[i]))
  }

  /** Java's `toLowerCase()` on one ASCII character. */
  function LowerChar(c: char): char {
    if 'A' <= c <= 'Z' then (c as int + 32) as char else c
  }

  /** Java's `toLowerCase()`, restricted to the ASCII letters. */
  function Lower(s: string): (r: string)
    ensures |r| == |s|
    ensures forall i :: 0 <= i < |s| ==> r[i] == LowerChar(s[i])
  {
    seq(|s|, i requires 0 <= i < |s| => LowerChar(s[i]))
  }

  /** Splitting and joining again gives back the original text. */
  lemma {:induction false} JoinSplitAll(s: string, sep: char)
    ensures Join(SplitAll(s, sep), sep) == s
    decreases |s|
  {
    if |s| > 0 {
      var c, t := s[0], s[1..];
      assert s == [c] + t;
      var rest := SplitAll(t, sep);
      JoinSplitAll(t, sep);
      if c == sep {
        SplitAllSep(t, sep);
        assert ([""] + rest)[1..] == rest;
      } else {
        SplitAllCons(c, t, sep);
        var parts := [[c] + rest[0]] + rest[1..];
        JoinHead(parts, sep);
        assert parts[0][1..] == rest[0];
        assert [rest[0]] + rest[1..] == rest;
      }
    }
  }

  /** Splitting a text that starts with the separator puts an empty piece first. */
  lemma SplitAllSep(t: string, sep: char)
    ensures SplitAll([sep] + t, sep) == [""] + SplitAll(t, sep)
  {
    assert ([sep] + t)[0] == sep;
    assert ([sep] + t)[1..] == t;
  }

  /** Joining pieces free of the separator and splitting again gives back the pieces. */
  lemma {:induction false} SplitAllJoin(parts: seq<string>, sep: char)
    requires |parts| >= 1
    requires forall i :: 0 <= i < |parts| ==> sep !in parts[i]
    ensures SplitAll(Join(parts, sep), sep) == parts
    decreases |parts|, |parts[0]|
  {
    var p := parts[0];
    if |p| == 0 {
      if |parts| > 1 {
        SplitAllJoin(parts[1..], sep);
        var j := Join(parts[1..], sep);
        assert Join(parts, sep) == [sep] + j;
        assert ([sep] + j)[1..] == j;
        assert [""] + parts[1..] == parts;
      }
    } else {
      var parts' := [p[1..]] + parts[1..];
      forall i | 0 <= i < |parts'|
        ensures sep !in parts'[i]
      {
        if i > 0 { assert parts'[i] == parts[i]; }
      }
      SplitAllJoin(parts', sep);
      JoinHead(parts, sep);
      assert p[0] != sep;
      SplitAllCons(p[0], Join(parts', sep), sep);
      assert [p[0]] + p[1..] == p;
      assert parts'[1..] == parts[1..];
      assert [p] + parts[1..] == parts;
    }
  }

  /** Joining pieces whose first one is non-empty starts with that piece's first character. */
  lemma JoinHead(parts: seq<string>, sep: char)
    requires |parts| >= 1 && |parts[0]| > 0
    ensures Join(parts, sep) == [parts[0][0]] + Join([parts[0][1..]] + parts[1..], sep)
  {
    var p := parts[0];
    var parts' := [p[1..]] + parts[1..];
    assert p == [p[0]] + p[1..];
    assert parts'[1..] == parts[1..];
    if |parts| > 1 {
      assert Join(parts, sep) == p + [sep] + Join(parts[1..], sep);
      assert Join(parts', sep) == p[1..] + [sep] + Join(parts[1..], sep);
    }
  }

  /** Splitting a text that starts with a character other than the separator extends the first piece. */
  lemma SplitAllCons(c: char, t: string, sep: char)
    requires c != sep
    ensures SplitAll([c] + t, sep) == [[c] + SplitAll(t, sep)[0]] + SplitAll(t, sep)[1..]
  {
    assert ([c] + t)[0] == c;
    assert ([c] + t)[1..] == t;
  }

  /** Trimming is idempotent. */
  lemma TrimIdempotent(s: string)
    ensures Trim(Trim(s)) == Trim(s)
  {
    var r := Trim(s);
    if |r| > 0 {
      assert LeadingBlanks(r) == 0;
      assert TrailingBlanks(r) == 0;
      assert r[0..|r|] == r;
    }
  }

  /**
   * Splitting loses only the separators at the end: joining the pieces again
   * and putting back some run of separators gives the original text.
   */
  lemma JavaSplitJoin(s: string, sep: char)
    ensures exists k: nat :: Join(JavaSplit(s, sep), sep) + Seps(k, sep) == s
    ensures |s| > 0 && s[|s| - 1] != sep ==> Join(JavaSplit(s, sep), sep) == s
  {
    var r := JavaSplit(s, sep);
    if sep !in s {
      assert Join(r, sep) + Seps(0, sep) == s;
    } else {
      var parts := SplitAll(s, sep);
      var m := |parts| - |r|;
      assert parts == r + Empties(m) by {
        assert parts == r + parts[|r|..];
        assert parts[|r|..] == Empties(m);
      }
      JoinSplitAll(s, sep);
      if |r| > 0 {
        JoinAppendEmpties(r, m, sep);
        assert Join(r, sep) + Seps(m, sep) == s;
        if s[|s| - 1] != sep {
          SplitAllLast(s, sep);
          assert m == 0;
          assert Seps(0, sep) == [];
        }
      } else {
        assert parts == Empties(m);
        JoinEmpties(m - 1, sep);
        assert Join(r, sep) + Seps(m - 1, sep) == s;
        if s[|s| - 1] != sep {
          SplitAllLast(s, sep);
        }
      }
    }
  }

  /** A run of `k` separators. */
  function Seps(k: nat, sep: char): (r: string)
    ensures |r| == k && forall i :: 0 <= i < k ==> r[i] == sep
  {
    seq(k, _ => sep)
  }

  /** A run of `k` empty pieces. */
  function Empties(k: nat): (r: seq<string>)
    ensures |r| == k && forall i :: 0 <= i < k ==> r[i] == ""
  {
    seq(k, _ => "")
  }

  /** `k + 1` empty pieces join to `k` separators. */
  lemma {:induction false} JoinEmpties(k: nat, sep: char)
    ensures Join(Empties(k + 1), sep) == Seps(k, sep)
    decreases k
  {
    if k > 0 {
      assert Empties(k + 1)[1..] == Empties(k);
      JoinEmpties(k - 1, sep);
      assert Join(Empties(k + 1), sep) == "" + [sep] + Seps(k - 1, sep);
    }
  }

  /** Empty pieces after a non-empty list of pieces join to trailing separators. */
  lemma {:induction false} JoinAppendEmpties(r: seq<string>, k: nat, sep: char)
    requires |r| > 0
    ensures Join(r + Empties(k), sep) == Join(r, sep) + Seps(k, sep)
    decreases |r|
  {
    var t := r + Empties(k);
    if |r| == 1 {
      if k == 0 {
        assert t == r;
      } else {
        assert t[1..] == Empties(k);
        assert Empties(k) == Empties((k - 1) + 1);
        JoinEmpties(k - 1, sep);
        assert Join(t, sep) == r[0] + [sep] + Seps(k - 1, sep);
      }
    } else {
      assert t[1..] == r[1..] + Empties(k);
      JoinAppendEmpties(r[1..], k, sep);
      assert Join(t, sep) == r[0] + [sep] + Join(t[1..], sep);
    }
  }

  /** A text that does not end with the separator has a non-empty last piece. */
  lemma {:induction false} SplitAllLast(s: string, sep: char)
    requires |s| > 0 && s[|s| - 1] != sep
    ensures SplitAll(s, sep)[|SplitAll(s, sep)| - 1] != ""
    decreases |s|
  {
    var rest := SplitAll(s[1..], sep);
    if |s| > 1 {
      SplitAllLast(s[1..], sep);
    }
    assert s == [s[0]] + s[1..];
    if s[0] == sep {
      SplitAllSep(s[1..], sep);
    } else {
      SplitAllCons(s[0], s[1..], sep);
    }
  }

  /** Upper-casing is idempotent. */
  lemma UpperIdempotent(s: string)
    ensures Upper(Upper(s)) == Upper(s)
  {
  }

  /** Upper-casing undoes lower-casing on a name made of capital letters. */
  lemma UpperLower(s: string)
    requires forall i :: 0 <= i < |s| ==> 'A' <= s[i] <= 'Z'
    ensures Upper(Lower(s)) == s
  {
  }
}
