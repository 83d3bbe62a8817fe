/** The JavaScript string operations the screens use: `split`, `join`,
    `filter(Boolean)`, `trim`, `toLowerCase`, `includes` and `slice(0, n)`. */
module Text {
  import opened Seqs

  const Newline: char := '\n'

  /** `String.prototype.split(sep)` with a one-character separator. The result is
      never empty: splitting "" gives [""], and a trailing separator gives a
      trailing "". */
  function Split(s: string, sep: char): (parts: seq<string>)
    ensures |parts| >= 1
    ensures forall i :: 0 <= i < |parts| ==> sep !in parts[i]
    ensures Join(parts, sep) == s
    decreases |s|
  {
    if |s| == 0 then [""]
    else
      var rest := Split(s[1..], sep);
      if s[0] == sep then
        assert s == [sep] + s[1..];
        [""] + rest
      else
        var parts := [[s[0]] + rest[0]] + rest[1..];
        assert parts[1..] == rest[1..];
        assert |rest| > 1 ==> Join(rest, sep) == rest[0] + [sep] + Join(rest[1..], sep);
        assert s == [s[0]] + s[1..];
        parts
  }

  /** `Array.prototype.join(sep)`: the parts with one separator between neighbours. */
  function Join(parts: seq<string>, sep: char): (r: string)
    ensures |parts| == 0 ==> r == ""
    ensures |parts| > 0 ==> parts[0] <= r
    decreases |parts|
  {
    if |parts| == 0 then ""
    else if |parts| == 1 then parts[0]
    else parts[0] + [sep] + Join(parts[1..], sep)
  }

  /** Joining puts exactly one separator between neighbours: when no part holds
      the separator, the result holds it once fewer than there are parts. */
  lemma {:induction false} JoinSeparatorCount(parts: seq<string>, sep: char)
    requires |parts| >= 1
    requires forall i :: 0 <= i < |parts| ==> sep !in parts[i]
    ensures multiset(Join(parts, sep))[sep] == |parts| - 1
    decreases |parts|
  {
    if |parts| == 1 {
      assert multiset(parts[0])[sep] == 0;
    } else {
      JoinSeparatorCount(parts[1..], sep);
      var rest := Join(parts[1..], sep);
      assert multiset(parts[0] + [sep] + rest) == multiset(parts[0]) + multiset([sep]) + multiset(rest);
      assert multiset(parts[0])[sep] == 0;
    }
  }

  lemma {:induction false} SplitNoSeparator(p: string, sep: char)
    requires sep !in p
    ensures Split(p, sep) == [p]
    decreases |p|
  {
    if |p| > 0 {
      SplitNoSeparator(p[1..], sep);
      assert p == [p[0]] + p[1..];
    }
  }

  lemma {:induction false} SplitAfterPart(p: string, sep: char, tail: string)
    requires sep !in p
    ensures Split(p + [sep] + tail, sep) == [p] + Split(tail, sep)
    decreases |p|
  {
    var s := p + [sep] + tail;
    if |p| == 0 {
      assert s[1..] == tail;
    } else {
      assert s[1..] == p[1..] + [sep] + tail;
      SplitAfterPart(p[1..], sep, tail);
      assert [s[0]] + p[1..] == p;
    }
  }

  /** Splitting undoes joining, provided no part contains the separator and there
      is at least one part (joining [] and [""] both give ""). */
  lemma {:induction false} SplitJoin(parts: seq<string>, sep: char)
    requires |parts| >= 1
    requires forall i :: 0 <= i < |parts| ==> sep !in parts[i]
    ensures Split(Join(parts, sep), sep) == parts
    decreases |parts|
  {
    if |parts| == 1 {
      SplitNoSeparator(parts[0], sep);
    } else {
      SplitJoin(parts[1..], sep);
      SplitAfterPart(parts[0], sep, Join(parts[1..], sep));
      assert [parts[0]] + parts[1..] == parts;
    }
  }

  predicate NonEmpty(line: string)
  {
    line != ""
  }

  /** `text ? text.split('\n').filter(Boolean) : []`: the non-empty lines of a
      textarea, in order. Lines made only of blanks are kept. */
  function Lines(text: string): (r: seq<string>)
    ensures forall i :: 0 <= i < |r| ==> r[i] != "" && Newline !in r[i]
    ensures forall line :: line in r <==> line in Split(text, Newline) && line != ""
    ensures IsSubsequence(r, Split(text, Newline))
    ensures forall line :: multiset(r)[line] == if line != "" then multiset(Split(text, Newline))[line] else 0
    ensures text == "" ==> r == []
  {
    if text == "" then []
    else
      var parts := Split(text, Newline);
      var r := Filter(parts, NonEmpty);
      assert forall i :: 0 <= i < |r| ==> r[i] in parts && NonEmpty(r[i]);
      r
  }

  /** A list without empty items and without newlines inside items is given back
      by joining it with newlines and taking the non-empty lines again. */
  lemma LinesJoin(items: seq<string>)
    requires forall i :: 0 <= i < |items| ==> items[i] != "" && Newline !in items[i]
    ensures Lines(Join(items, Newline)) == items
  {
    if |items| > 0 {
      SplitJoin(items, Newline);
      assert Join(items, Newline) != "" by {
        if |items| > 1 {
          assert Join(items, Newline) == items[0] + [Newline] + Join(items[1..], Newline);
        }
      }
    }
  }

  /** The characters `String.prototype.trim` removes (ASCII subset). */
  predicate IsSpace(c: char)
  {
    c == ' ' || c == '\t' || c == '\n' || c == '\r' || c == 11 as char || c == 12 as char
  }

  function TrimStart(s: string): (r: string)
    ensures |r| <= |s| && r == s[|s| - |r|..]
    ensures forall i :: 0 <= i < |s| - |r| ==> IsSpace(s[i])
    ensures |r| > 0 ==> !IsSpace(r[0])
    decreases |s|
  {
    if |s| > 0 && IsSpace(s[0]) then TrimStart(s[1..]) else s
  }

  function TrimEnd(s: string): (r: string)
    ensures |r| <= |s| && r == s[..|r|]
    ensures forall i :: |r| <= i < |s| ==> IsSpace(s[i])
    ensures |r| > 0 ==> !IsSpace(r[|r| - 1])
    decreases |s|
  {
    if |s| > 0 && IsSpace(s[|s| - 1]) then TrimEnd(s[..|s| - 1]) else s
  }

  /** `String.prototype.trim`: the longest infix that neither starts nor ends
      with a blank, obtained by dropping only blanks. */
  function Trim(s: string): (r: string)
    ensures |r| > 0 ==> !IsSpace(r[0]) && !IsSpace(r[|r| - 1])
    ensures exists i :: 0 <= i <= |s| - |r| && BlankPadded(s, r, i)
  {
    var t := TrimStart(s);
    var r := TrimEnd(t);
    var i := |s| - |t|;
    assert BlankPadded(s, r, i);
    r
  }

  /** The two clauses of `Trim` pin its result down: any infix that is
      surrounded only by blanks and neither starts nor ends with one is it. */
  lemma TrimUnique(s: string, r: string, i: int)
    requires BlankPadded(s, r, i)
    requires |r| > 0 ==> !IsSpace(r[0]) && !IsSpace(r[|r| - 1])
    ensures Trim(s) == r
  {
  }

  /** `s` is `r` preceded by `i` blanks and followed only by blanks. */
  ghost predicate BlankPadded(s: string, r: string, i: int)
  {
    && 0 <= i <= |s| - |r|
    && r == s[i..i + |r|]
    && (forall k :: 0 <= k < i ==> IsSpace(s[k]))
    && (forall k :: i + |r| <= k < |s| ==> IsSpace(s[k]))
  }

  /** `toLowerCase`, restricted to the ASCII letters. */
  function LowerChar(c: char): char
  {
    if 'A' <= c <= 'Z' then (c as int + 32) as char else c
  }

  function Lower(s: string): (r: string)
    ensures |r| == |s|
    ensures forall i :: 0 <= i < |s| ==> r[i] == LowerChar(s[i])
  {
    seq(|s|, i requires 0 <= i < |s| => LowerChar(s[i]))
  }

  /** `String.prototype.includes`: `t` occurs in `s` at some position. */
  function Includes(s: string, t: string): (b: bool)
    ensures b <==> exists i :: OccursAt(s, t, i)
    ensures t == "" ==> b
    ensures b ==> |t| <= |s|
    ensures |t| == |s| ==> (b <==> s == t)
  {
    assert OccursAt(s, t, 0) <==> 0 <= |s| - |t| && s[..|t|] == t;
    exists i :: 0 <= i <= |s| - |t| && OccursAt(s, t, i)
  }

  /** `t` occurs in `s` starting at index `i`. */
  predicate OccursAt(s: string, t: string, i: int)
  {
    0 <= i <= |s| - |t| && s[i..i + |t|] == t
  }

  /** `s.slice(0, n)`: the first `n` characters, or all of `s` when it is shorter. */
  function Prefix(s: string, n: nat): (r: string)
    ensures |r| == if |s| < n then |s| else n
    ensures r <= s
  {
    if |s| <= n then s else s[..n]
  }
}
