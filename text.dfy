/** The JavaScript string operations the pages rely on, over Dafny strings
    (sequences of Unicode scalar values). */
module Text {
  import Seqs

  /** The characters matched by the regular-expression class `\s` and removed by
      `String.prototype.trim`: ASCII white space, the line terminators, the
      no-break space, the Unicode space separators and the byte-order mark. */
  predicate IsSpace(c: char) {
    c == ' ' || c == '\t' || c == '\n' || c == '\U{000B}' || c == '\U{000C}' || c == '\r'
    || c == '\U{00A0}' || c == '\U{1680}' || ('\U{2000}' <= c <= '\U{200A}')
    || c == '\U{2028}' || c == '\U{2029}' || c == '\U{202F}' || c == '\U{205F}'
    || c == '\U{3000}' || c == '\U{FEFF}'
  }

  predicate NoSpace(s: string) {
    forall i :: 0 <= i < |s| ==> !IsSpace(s[i])
  }

  // ---------------------------------------------------------------------------
  // s.replace(/\s/g, "")
  // ---------------------------------------------------------------------------

  /** Removes every white-space character and keeps the others in order. */
  function StripSpaces(s: string): (r: string)
    ensures |r| <= |s|
    ensures NoSpace(r)
    ensures forall c :: c in r <==> c in s && !IsSpace(c)
  {
    if s == [] then []
    else if IsSpace(s[0]) then StripSpaces(s[1..])
    else [s[0]] + StripSpaces(s[1..])
  }

  /** Stripping distributes over concatenation: white space is removed wherever it stands. */
  lemma {:induction false} StripSpacesAppend(a: string, b: string)
    ensures StripSpaces(a + b) == StripSpaces(a) + StripSpaces(b)
  {
    if a == [] {
      assert a + b == b;
    } else {
      assert (a + b)[1..] == a[1..] + b;
      StripSpacesAppend(a[1..], b);
    }
  }

  /** A string without white space is its own stripped form, so stripping is idempotent. */
  lemma {:induction false} StripSpacesOfSpaceless(s: string)
    requires NoSpace(s)
    ensures StripSpaces(s) == s
  {
    if s != [] {
      StripSpacesOfSpaceless(s[1..]);
    }
  }

  /** Stripping is filtering out the white space: the other characters stay, in their order. */
  lemma {:induction false} StripSpacesIsFilter(s: string)
    ensures StripSpaces(s) == Seqs.Filter(s, (c: char) => !IsSpace(c))
    ensures Seqs.IsSubsequence(StripSpaces(s), s)
  {
    if s != [] {
      StripSpacesIsFilter(s[1..]);
    }
    Seqs.FilterIsSubsequence(s, (c: char) => !IsSpace(c));
  }

  lemma StripSpacesIdempotent(s: string)
    ensures StripSpaces(StripSpaces(s)) == StripSpaces(s)
  {
    StripSpacesOfSpaceless(StripSpaces(s));
  }

  // ---------------------------------------------------------------------------
  // s.trim()
  // ---------------------------------------------------------------------------

  /** Drops the leading white space: the result is a suffix of `s` and everything dropped is white space. */
  function TrimStart(s: string): (r: string)
    ensures |r| <= |s| && r == s[|s| - |r|..]
    ensures r == [] || !IsSpace(r[0])
    ensures forall i :: 0 <= i < |s| - |r| ==> IsSpace(s[i])
  {
    if s != [] && IsSpace(s[0]) then TrimStart(s[1..]) else s
  }

  /** Drops the trailing white space: the result is a prefix of `s` and everything dropped is white space. */
  function TrimEnd(s: string): (r: string)
    ensures |r| <= |s| && r == s[..|r|]
    ensures r == [] || !IsSpace(r[|r| - 1])
    ensures forall i :: |r| <= i < |s| ==> IsSpace(s[i])
  {
    if s != [] && IsSpace(s[|s| - 1]) then TrimEnd(s[..|s| - 1]) else s
  }

  predicate IsTrimmed(s: string) {
    s == [] || (!IsSpace(s[0]) && !IsSpace(s[|s| - 1]))
  }

  /** `r` stands in `s` at position `i`, and everything before and after it is white space. */
  predicate SpaceAround(s: string, r: string, i: int) {
    && 0 <= i <= |s| - |r| && r == s[i..i + |r|]
    && (forall k :: 0 <= k < i ==> IsSpace(s[k]))
    && (forall k :: i + |r| <= k < |s| ==> IsSpace(s[k]))
  }

  /** A prefix `r` of a suffix `t` of `s`, with white space before `t` and after `r` in `t`,
      stands in `s` surrounded by white space. */
  lemma PrefixOfSuffix(s: string, t: string, r: string)
    requires |t| <= |s| && t == s[|s| - |t|..]
    requires forall k :: 0 <= k < |s| - |t| ==> IsSpace(s[k])
    requires |r| <= |t| && r == t[..|r|]
    requires forall k :: |r| <= k < |t| ==> IsSpace(t[k])
    ensures SpaceAround(s, r, |s| - |t|)
  {
    var i := |s| - |t|;
    forall k | 0 <= k < |r| ensures r[k] == s[i + k] {
      assert r[k] == t[k];
    }
    forall k | i + |r| <= k < |s| ensures IsSpace(s[k]) {
      assert t[k - i] == s[k];
    }
  }

  /** `String.prototype.trim`: the slice of `s` left once the white space around it is
      removed; it neither starts nor ends with white space. */
  function Trim(s: string): (r: string)
    ensures |r| <= |s|
    ensures IsTrimmed(r)
    ensures r == [] <==> forall i :: 0 <= i < |s| ==> IsSpace(s[i])
    ensures forall c :: c in r ==> c in s
    ensures exists i :: SpaceAround(s, r, i)
  {
    var t := TrimStart(s);
    var r := TrimEnd(t);
    assert r == [] ==> t == [];
    PrefixOfSuffix(s, t, r);
    assert forall c :: c in r ==> c in s;
    r
  }

  /** Trimming a string that is already trimmed changes nothing. */
  lemma TrimOfTrimmed(s: string)
    requires IsTrimmed(s)
    ensures Trim(s) == s
  {
  }

  /** Leading white space never survives trimming. */
  lemma {:induction false} TrimAfterSpace(c: char, s: string)
    requires IsSpace(c)
    ensures Trim([c] + s) == Trim(s)
  {
    assert ([c] + s)[1..] == s;
  }

  // ---------------------------------------------------------------------------
  // s.toLowerCase(), s.startsWith(p), s.includes(n)
  // ---------------------------------------------------------------------------

  function LowerChar(c: char): char {
    if 'A' <= c <= 'Z' then (c as int + 32) as char else c
  }

  /** Lower-cases the ASCII letters and keeps every other character. */
  function ToLower(s: string): string {
    seq(|s|, i requires 0 <= i < |s| => LowerChar(s[i]))
  }

  predicate StartsWith(s: string, p: string) {
    |p| <= |s| && s[..|p|] == p
  }

  /** `n` occurs in `h` at position `i`. */
  predicate OccursAt(h: string, n: string, i: int) {
    0 <= i && i + |n| <= |h| && h[i..i + |n|] == n
  }

  /** `String.prototype.includes`, searching from the left. */
  predicate Includes(h: string, n: string)
    decreases |h|
  {
    StartsWith(h, n) || (h != [] && Includes(h[1..], n))
  }

  /** The search finds `n` exactly when `n` occurs somewhere in `h`. */
  lemma {:induction false} IncludesIff(h: string, n: string)
    ensures Includes(h, n) <==> exists i :: OccursAt(h, n, i)
  {
    if StartsWith(h, n) {
      assert OccursAt(h, n, 0);
    } else if h == [] {
      assert forall i :: !OccursAt(h, n, i);
    } else {
      IncludesIff(h[1..], n);
      if Includes(h[1..], n) {
        var j :| OccursAt(h[1..], n, j);
        assert h[1..][j..j + |n|] == h[j + 1..j + 1 + |n|];
        assert OccursAt(h, n, j + 1);
      } else {
        forall i | OccursAt(h, n, i) ensures false {
          assert i != 0;
          OccursInTail(h, n, i);
        }
      }
    }
  }

  /** An occurrence past the first position is an occurrence in the tail. */
  lemma OccursInTail(h: string, n: string, i: int)
    requires OccursAt(h, n, i) && i >= 1
    ensures OccursAt(h[1..], n, i - 1)
  {
    assert h[1..][i - 1..i - 1 + |n|] == h[i..i + |n|];
  }

  /** The empty needle is found in every string, as in JavaScript. */
  lemma IncludesEmpty(h: string)
    ensures Includes(h, "")
  {
  }

  // ---------------------------------------------------------------------------
  // s.split(d) for a one-character separator, and parts.join(sep)
  // ---------------------------------------------------------------------------

  /** `s.split(d)`: the pieces between the separators, never fewer than one, none holding `d`. */
  function Split(s: string, d: char): (r: seq<string>)
    ensures |r| >= 1
    ensures forall k :: 0 <= k < |r| ==> d !in r[k]
  {
    if s == [] then [""]
    else
      var rest := Split(s[1..], d);
      if s[0] == d then [""] + rest
      else
        assert d !in [s[0]] + rest[0];
        [[s[0]] + rest[0]] + rest[1..]
  }

  /** `parts.join(sep)`. */
  function Join(parts: seq<string>, sep: string): string {
    if |parts| == 0 then ""
    else if |parts| == 1 then parts[0]
    else parts[0] + sep + Join(parts[1..], sep)
  }

  /** Joining the pieces back with the separator gives the original string. */
  lemma {:induction false} JoinSplit(s: string, d: char)
    ensures Join(Split(s, d), [d]) == s
  {
    if s != [] {
      var rest := Split(s[1..], d);
      JoinSplit(s[1..], d);
      if s[0] != d {
        var r := Split(s, d);
        assert r[0] == [s[0]] + rest[0] && r[1..] == rest[1..];
        if |rest| == 1 {
          assert Join(r, [d]) == [s[0]] + rest[0];
        } else {
          assert Join(r, [d]) == [s[0]] + rest[0] + [d] + Join(rest[1..], [d]);
        }
      }
    }
  }

  /** A string without the separator is a single piece. */
  lemma {:induction false} SplitWithoutSeparator(p: string, d: char)
    requires d !in p
    ensures Split(p, d) == [p]
  {
    if p != [] {
      SplitWithoutSeparator(p[1..], d);
      assert [p[0]] + p[1..] == p;
    }
  }

  /** More than one piece means the separator occurs. */
  lemma {:induction false} SplitManyHasSeparator(s: string, d: char)
    requires |Split(s, d)| > 1
    ensures d in s
  {
    if s != [] && s[0] != d {
      SplitManyHasSeparator(s[1..], d);
    }
  }

  /** A single piece means the separator does not occur. */
  lemma {:induction false} SplitSingleHasNoSeparator(s: string, d: char)
    requires |Split(s, d)| == 1
    ensures d !in s
  {
    if s != [] {
      SplitSingleHasNoSeparator(s[1..], d);
    }
  }

  /** The text before the first separator is the first piece; the rest is split on its own. */
  lemma {:induction false} SplitAtSeparator(p: string, rest: string, d: char)
    requires d !in p
    ensures Split(p + [d] + rest, d) == [p] + Split(rest, d)
  {
    if p == [] {
      assert ([] + [d] + rest)[1..] == rest;
    } else {
      assert (p + [d] + rest)[1..] == p[1..] + [d] + rest;
      SplitAtSeparator(p[1..], rest, d);
      assert [p[0]] + p[1..] == p;
    }
  }

  /** Splitting pieces joined with a separator that none of them holds gives the pieces back. */
  lemma {:induction false} SplitJoin(parts: seq<string>, d: char)
    requires |parts| >= 1
    requires forall k :: 0 <= k < |parts| ==> d !in parts[k]
    ensures Split(Join(parts, [d]), d) == parts
  {
    if |parts| == 1 {
      SplitWithoutSeparator(parts[0], d);
    } else {
      SplitJoin(parts[1..], d);
      SplitAtSeparator(parts[0], Join(parts[1..], [d]), d);
      assert [parts[0]] + parts[1..] == parts;
    }
  }

  /** Every piece but the first with `x` put in front of it. */
  function PrefixTail(parts: seq<string>, x: string): (r: seq<string>)
    ensures |r| == |parts|
    ensures forall k :: 0 <= k < |parts| ==> r[k] == x + parts[k]
  {
    if parts == [] then [] else [x + parts[0]] + PrefixTail(parts[1..], x)
  }

  lemma JoinPrependFirst(a: string, more: seq<string>, sep: string, x: string)
    ensures x + Join([a] + more, sep) == Join([x + a] + more, sep)
  {
    assert ([a] + more)[1..] == more;
    assert ([x + a] + more)[1..] == more;
  }

  /** Joining with a two-part separator `[d] + x` is joining with `[d]` after putting `x`
      in front of every piece but the first. */
  lemma {:induction false} JoinLongSeparator(parts: seq<string>, d: char, x: string)
    requires |parts| >= 1
    ensures Join(parts, [d] + x) == Join([parts[0]] + PrefixTail(parts[1..], x), [d])
  {
    if |parts| > 1 {
      var tail := parts[1..];
      JoinLongSeparator(tail, d, x);
      assert tail[1..] == parts[2..];
      var q := PrefixTail(parts[2..], x);
      assert PrefixTail(tail, x) == [x + tail[0]] + q;
      JoinPrependFirst(tail[0], q, [d], x);
      assert ([parts[0]] + PrefixTail(tail, x))[1..] == PrefixTail(tail, x);
    }
  }

  // ---------------------------------------------------------------------------
  // Last piece after a separator, as in name.split(".").pop()
  // ---------------------------------------------------------------------------

  /** The text after the last `d` (the whole string when there is none). */
  function LastPiece(s: string, d: char): (r: string)
    ensures d !in r
    ensures |r| <= |s| && r == s[|s| - |r|..]
    ensures |r| < |s| ==> s[|s| - |r| - 1] == d
  {
    LastPieceIsSuffix(s, d);
    var pieces := Split(s, d);
    pieces[|pieces| - 1]
  }

  /** The last piece of `p + [d] + rest`, where `rest` has no `d`, is `rest`. */
  lemma LastPieceAfterSeparator(p: string, rest: string, d: char)
    requires d !in rest
    ensures LastPiece(p + [d] + rest, d) == rest
  {
    var s := p + [d] + rest;
    var r := LastPiece(s, d);
    assert s[|s| - |rest| - 1] == d;
  }

  lemma {:induction false} LastPieceIsSuffix(s: string, d: char)
    ensures var pieces := Split(s, d); var r := pieces[|pieces| - 1];
      |r| <= |s| && r == s[|s| - |r|..] && (|r| < |s| ==> s[|s| - |r| - 1] == d)
  {
    if s != [] {
      LastPieceIsSuffix(s[1..], d);
      var rest := Split(s[1..], d);
      if s[0] != d {
        if |rest| == 1 {
          SplitSingleHasNoSeparator(s, d);
          SplitWithoutSeparator(s, d);
        } else {
          SplitManyHasSeparator(s[1..], d);
          assert rest[|rest| - 1] != s[1..];
        }
      }
    }
  }
}
