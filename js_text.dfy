/**
 * The JavaScript string primitives the terminal relies on: `trim`, `indexOf`/`includes`,
 * `split` with a non-empty separator, `join`, and the lower-casing used to compare
 * file extensions. Strings are sequences of characters.
 */
module JsText {
  import opened Wrappers

  /** The characters `String.prototype.trim` removes: WhiteSpace and LineTerminator. */
  predicate IsWhitespace(c: char) {
    var n := c as int;
    n == 0x09 || n == 0x0A || n == 0x0B || n == 0x0C || n == 0x0D || n == 0x20 ||
    n == 0xA0 || n == 0x1680 || (0x2000 <= n <= 0x200A) || n == 0x2028 || n == 0x2029 ||
    n == 0x202F || n == 0x205F || n == 0x3000 || n == 0xFEFF
  }

  predicate AllWhitespace(s: string) {
    forall k :: 0 <= k < |s| ==> IsWhitespace(s[k])
  }

  /** Drops leading whitespace: the result is the suffix that starts at the first other character. */
  function TrimStart(s: string): (r: string)
    ensures |r| <= |s| && r == s[|s| - |r|..]
    ensures r == [] || !IsWhitespace(r[0])
    ensures AllWhitespace(s[..|s| - |r|])
    decreases |s|
  {
    if s != [] && IsWhitespace(s[0]) then
      var rest := s[1..];
      var r := TrimStart(rest);
      assert forall k :: 1 <= k < |s| - |r| ==> s[k] == rest[k - 1];
      assert rest[|rest| - |r|..] == s[|s| - |r|..];
      r
    else s
  }

  /** Drops trailing whitespace: the result is the prefix that ends at the last other character. */
  function TrimEnd(s: string): (r: string)
    ensures |r| <= |s| && r == s[..|r|]
    ensures r == [] || !IsWhitespace(r[|r| - 1])
    ensures AllWhitespace(s[|r|..])
    decreases |s|
  {
    if s != [] && IsWhitespace(s[|s| - 1]) then
      var init := s[..|s| - 1];
      var r := TrimEnd(init);
      assert forall k :: |r| <= k < |s| - 1 ==> s[k] == init[k];
      assert init[..|r|] == s[..|r|];
      r
    else s
  }

  /**
   * `s.trim()`: what is left after removing whitespace at both ends. It is empty exactly
   * when `s` is all whitespace, and otherwise starts and ends with a non-space.
   */
  function Trim(s: string): (r: string)
    ensures |r| <= |s|
    ensures r == [] || (!IsWhitespace(r[0]) && !IsWhitespace(r[|r| - 1]))
    ensures r == [] <==> AllWhitespace(s)
  {
    var t := TrimStart(s);
    assert s == s[..|s| - |t|] + t;
    TrimEnd(t)
  }

  /** `r` is the slice of `s` starting at `a`, with only whitespace before and after it. */
  predicate Middle(s: string, a: nat, r: string) {
    a + |r| <= |s| && r == s[a..a + |r|] && AllWhitespace(s[..a]) && AllWhitespace(s[a + |r|..])
  }

  /**
   * Which text `trim` keeps: the slice of `s` after its leading whitespace and before
   * its trailing whitespace.
   */
  lemma {:induction false} TrimIsSlice(s: string)
    ensures Middle(s, |s| - |TrimStart(s)|, Trim(s))
  {
    TrimUnfold(s);
    NestedSlice(s, TrimStart(s), Trim(s));
  }

  lemma {:induction false} TrimUnfold(s: string)
    ensures Trim(s) == TrimEnd(TrimStart(s))
  {
  }

  /** A prefix of a suffix, each cut off at whitespace, is a middle slice with whitespace on both sides. */
  lemma {:induction false} NestedSlice(s: string, t: string, r: string)
    requires |t| <= |s| && t == s[|s| - |t|..] && AllWhitespace(s[..|s| - |t|])
    requires |r| <= |t| && r == t[..|r|] && AllWhitespace(t[|r|..])
    ensures Middle(s, |s| - |t|, r)
  {
    var a := |s| - |t|;
    assert t[|r|..] == s[a + |r|..];
  }

  /** Text that neither starts nor ends with whitespace is left as it is. */
  lemma {:induction false} TrimClean(s: string)
    requires s == [] || (!IsWhitespace(s[0]) && !IsWhitespace(s[|s| - 1]))
    ensures Trim(s) == s
  {
  }

  /** Trimming twice is trimming once. */
  lemma {:induction false} TrimIdempotent(s: string)
    ensures Trim(Trim(s)) == Trim(s)
  {
    TrimClean(Trim(s));
  }

  /** Whether `sep` occurs in `s` starting at index `i`. */
  predicate OccursAt(s: string, sep: string, i: nat) {
    i + |sep| <= |s| && s[i..i + |sep|] == sep
  }

  /** `s.indexOf(sep, from)`: the first occurrence at or after `from`, if any. */
  function IndexOfFrom(s: string, sep: string, from: nat): (r: Option<nat>)
    ensures r.Some? ==> from <= r.value && OccursAt(s, sep, r.value)
    ensures r.Some? ==> forall j :: from <= j < r.value ==> !OccursAt(s, sep, j)
    ensures r.None? ==> forall j :: from <= j ==> !OccursAt(s, sep, j)
    decreases |s| - from
  {
    if from + |sep| > |s| then None
    else if s[from..from + |sep|] == sep then Some(from)
    else IndexOfFrom(s, sep, from + 1)
  }

  /** `s.indexOf(sep)`, with `undefined` for JavaScript's `-1`. */
  function IndexOf(s: string, sep: string): Option<nat> {
    IndexOfFrom(s, sep, 0)
  }

  /** `s.includes(sep)`. */
  predicate Includes(s: string, sep: string) {
    IndexOf(s, sep).Some?
  }

  lemma {:induction false} IncludesChar(s: string, c: char)
    ensures Includes(s, [c]) <==> c in s
  {
    if Includes(s, [c]) {
      var i := IndexOf(s, [c]).value;
      assert s[i] == s[i..i + 1][0];
    }
    if c in s {
      var k :| 0 <= k < |s| && s[k] == c;
      assert OccursAt(s, [c], k);
    }
  }

  /** The text before the first `sep` (all of `s` when there is none). */
  function Before(s: string, sep: string): (r: string)
    ensures !IndexOf(s, sep).Some? ==> r == s
    ensures IndexOf(s, sep).Some? ==> r == s[..IndexOf(s, sep).value]
  {
    match IndexOf(s, sep)
    case None => s
    case Some(i) => s[..i]
  }

  /** The text after the first `sep` (empty when there is none). */
  function After(s: string, sep: string): (r: string)
    ensures !IndexOf(s, sep).Some? ==> r == []
    ensures IndexOf(s, sep).Some? ==> r == s[IndexOf(s, sep).value + |sep|..]
  {
    match IndexOf(s, sep)
    case None => []
    case Some(i) => s[i + |sep|..]
  }

  /** `s.split(sep)` for a non-empty separator: the pieces between non-overlapping occurrences, left to right. */
  function Split(s: string, sep: string): (parts: seq<string>)
    requires |sep| > 0
    ensures |parts| >= 1
    decreases |s|
  {
    match IndexOf(s, sep)
    case None => [s]
    case Some(i) => [s[..i]] + Split(s[i + |sep|..], sep)
  }

  /** `parts.join(sep)`. */
  function Join(parts: seq<string>, sep: string): string {
    if |parts| == 0 then []
    else if |parts| == 1 then parts[0]
    else parts[0] + sep + Join(parts[1..], sep)
  }

  /** Splitting then joining with the same separator gives back the original text. */
  lemma {:induction false} JoinSplit(s: string, sep: string)
    requires |sep| > 0
    ensures Join(Split(s, sep), sep) == s
    decreases |s|
  {
    match IndexOf(s, sep)
    case None =>
    case Some(i) =>
      var rest := s[i + |sep|..];
      var tail := Split(rest, sep);
      JoinSplit(rest, sep);
      var parts := [s[..i]] + tail;
      assert Split(s, sep) == parts;
      assert parts[1..] == tail;
      assert Join(parts, sep) == s[..i] + sep + Join(tail, sep);
      assert s[i..i + |sep|] == sep;
      assert s == s[..i] + s[i..i + |sep|] + rest;
  }

  /** Joining a list with one more piece at the end adds the separator and that piece. */
  lemma {:induction false} JoinSnoc(parts: seq<string>, sep: string, last: string)
    ensures Join(parts + [last], sep) == if parts == [] then last else Join(parts, sep) + sep + last
    decreases |parts|
  {
    if |parts| > 1 {
      assert (parts + [last])[1..] == parts[1..] + [last];
      JoinSnoc(parts[1..], sep, last);
    } else if |parts| == 1 {
      assert (parts + [last])[1..] == [last];
    }
  }

  /** An occurrence is found by `includes`. */
  lemma {:induction false} OccursIncludes(s: string, t: string, i: nat)
    requires OccursAt(s, t, i)
    ensures Includes(s, t)
  {
  }

  /** An occurrence stays one when text is put in front. */
  lemma {:induction false} OccursShift(a: string, b: string, t: string, i: nat)
    requires OccursAt(b, t, i)
    ensures OccursAt(a + b, t, |a| + i)
  {
    assert (a + b)[|a| + i..|a| + i + |t|] == b[i..i + |t|];
  }

  /** Every piece of a join occurs in it. */
  lemma {:induction false} JoinHasPart(parts: seq<string>, sep: string, k: nat)
    requires k < |parts|
    ensures Includes(Join(parts, sep), parts[k])
    decreases |parts|
  {
    var j := Join(parts, sep);
    if |parts| == 1 {
      assert OccursAt(j, parts[0], 0);
      OccursIncludes(j, parts[0], 0);
    } else if k == 0 {
      assert j == parts[0] + (sep + Join(parts[1..], sep));
      assert j[..|parts[0]|] == parts[0];
      assert OccursAt(j, parts[0], 0);
      OccursIncludes(j, parts[0], 0);
    } else {
      var rest := Join(parts[1..], sep);
      JoinHasPart(parts[1..], sep, k - 1);
      var i := IndexOf(rest, parts[k]).value;
      OccursShift(parts[0] + sep, rest, parts[k], i);
      assert j == (parts[0] + sep) + rest;
      OccursIncludes(j, parts[k], |parts[0] + sep| + i);
    }
  }

  /** The first occurrence of a character in `a + [c] + b` when `a` does not hold it. */
  lemma {:induction false} IndexOfAfterFree(a: string, c: char, b: string)
    requires c !in a
    ensures IndexOf(a + [c] + b, [c]) == Some(|a|)
  {
    var s := a + [c] + b;
    assert OccursAt(s, [c], |a|);
    forall j | 0 <= j < |a|
      ensures !OccursAt(s, [c], j)
    {
      assert s[j..j + 1] == [a[j]];
    }
  }

  /**
   * The first occurrence of `sep` in `a + sep + b` when `a` does not hold it and `sep`
   * cannot overlap itself at its first character.
   */
  lemma {:induction false} IndexOfAfterAbsent(a: string, sep: string, b: string)
    requires |sep| > 0 && sep[0] !in sep[1..] && !Includes(a, sep)
    ensures IndexOf(a + sep + b, sep) == Some(|a|)
  {
    var s := a + sep + b;
    assert s[|a|..|a| + |sep|] == sep;
    assert OccursAt(s, sep, |a|);
    forall j | 0 <= j < |a|
      ensures !OccursAt(s, sep, j)
    {
      if j + |sep| <= |a| {
        assert !OccursAt(a, sep, j);
        assert s[j..j + |sep|] == a[j..j + |sep|];
      } else {
        var k := |a| - j;
        assert s[|a|] == sep[0];
        assert sep[k] == sep[1..][k - 1];
        assert j + |sep| > |s| || s[j..j + |sep|][k] == s[|a|];
      }
    }
  }

  /**
   * Splitting a join on a one-character separator that no piece contains gives the
   * pieces back.
   */
  lemma {:induction false} SplitJoin(parts: seq<string>, c: char)
    requires |parts| > 0
    requires forall k :: 0 <= k < |parts| ==> c !in parts[k]
    ensures Split(Join(parts, [c]), [c]) == parts
    decreases |parts|
  {
    if |parts| == 1 {
      IncludesChar(parts[0], c);
      SplitSingle(parts[0], [c]);
    } else {
      var rest := Join(parts[1..], [c]);
      assert Join(parts, [c]) == parts[0] + [c] + rest;
      SplitAfterFree(parts[0], c, rest);
      SplitJoin(parts[1..], c);
      assert parts == [parts[0]] + parts[1..];
    }
  }

  /** Splitting at a first occurrence that follows a piece without the separator. */
  lemma {:induction false} SplitAfterFree(a: string, c: char, b: string)
    requires c !in a
    ensures Split(a + [c] + b, [c]) == [a] + Split(b, [c])
  {
    var s := a + [c] + b;
    IndexOfAfterFree(a, c, b);
    assert s[..|a|] == a;
    assert s[|a| + 1..] == b;
  }

  /** No piece of a split contains the separator. */
  lemma {:induction false} SplitPiecesFree(s: string, sep: string)
    requires |sep| > 0
    ensures forall k :: 0 <= k < |Split(s, sep)| ==> !Includes(Split(s, sep)[k], sep)
    decreases |s|
  {
    match IndexOf(s, sep)
    case None =>
    case Some(i) =>
      var rest := s[i + |sep|..];
      SplitPiecesFree(rest, sep);
      if Includes(s[..i], sep) {
        var j := IndexOf(s[..i], sep).value;
        assert s[..i][j..j + |sep|] == s[j..j + |sep|];
        assert OccursAt(s, sep, j);
      }
  }

  /** A split yields one piece exactly when the separator does not occur. */
  lemma {:induction false} SplitSingle(s: string, sep: string)
    requires |sep| > 0
    ensures |Split(s, sep)| == 1 <==> !Includes(s, sep)
  {
  }

  /** The first piece is the text before the first separator; the other pieces split the rest. */
  lemma {:induction false} SplitHeadTail(s: string, sep: string)
    requires |sep| > 0
    ensures Split(s, sep)[0] == Before(s, sep)
    ensures Includes(s, sep) ==> Split(s, sep)[1..] == Split(After(s, sep), sep)
  {
  }

  /**
   * The text after the last `c`: the longest suffix of `s` without `c` (all of `s`
   * when `c` does not occur).
   */
  function AfterLast(s: string, c: char): string
    decreases |s|
  {
    if s == [] || s[|s| - 1] == c then [] else AfterLast(s[..|s| - 1], c) + [s[|s| - 1]]
  }

  /** The text after the last `c` is a suffix of `s` without `c`, preceded by `c` unless it is all of `s`. */
  lemma {:induction false} AfterLastSuffix(s: string, c: char)
    ensures var r := AfterLast(s, c);
      |r| <= |s| && r == s[|s| - |r|..] && c !in r && (|r| < |s| ==> s[|s| - |r| - 1] == c)
    decreases |s|
  {
    if s != [] && s[|s| - 1] != c {
      AfterLastSuffix(s[..|s| - 1], c);
    }
  }

  /** A suffix without `c` that is either all of `s` or preceded by `c` is the text after the last `c`. */
  lemma {:induction false} AfterLastUnique(s: string, c: char, t: string)
    requires |t| <= |s| && t == s[|s| - |t|..] && c !in t
    requires |t| < |s| ==> s[|s| - |t| - 1] == c
    ensures t == AfterLast(s, c)
  {
    AfterLastSuffix(s, c);
    SuffixWithout(s, AfterLast(s, c), c);
    SuffixWithout(s, t, c);
  }

  /** A suffix of `s` without `c` covers no occurrence of `c` in `s`. */
  lemma {:induction false} SuffixWithout(s: string, t: string, c: char)
    requires |t| <= |s| && t == s[|s| - |t|..] && c !in t
    ensures forall k :: |s| - |t| <= k < |s| ==> s[k] != c
  {
    forall k | |s| - |t| <= k < |s|
      ensures s[k] != c
    {
      assert s[k] == t[k - (|s| - |t|)];
    }
  }

  /** A text without `c` is its own text after the last `c`. */
  lemma {:induction false} AfterLastFree(s: string, c: char)
    requires c !in s
    ensures AfterLast(s, c) == s
    decreases |s|
  {
    if s != [] {
      AfterLastFree(s[..|s| - 1], c);
    }
  }

  /** Whatever stands before an occurrence of `c` does not matter to the text after the last `c`. */
  lemma {:induction false} AfterLastSkips(a: string, c: char, b: string)
    ensures AfterLast(a + [c] + b, c) == AfterLast(b, c)
    decreases |b|
  {
    if b != [] {
      var init := b[..|b| - 1];
      assert (a + [c] + b)[..|a + [c] + b| - 1] == a + [c] + init;
      AfterLastSkips(a, c, init);
    }
  }

  lemma {:induction false} SplitLastChar(s: string, c: char)
    ensures var parts := Split(s, [c]); parts[|parts| - 1] == AfterLast(s, c)
    decreases |s|
  {
    var found := IndexOf(s, [c]);
    if found.None? {
      IncludesChar(s, c);
      AfterLastFree(s, c);
    } else {
      var i := found.value;
      SplitLastChar(s[i + 1..], c);
      SplitLastStep(s, c, i);
    }
  }

  /** One step of `SplitLastChar`: the last piece of the rest is the last piece of the whole. */
  lemma {:induction false} SplitLastStep(s: string, c: char, i: nat)
    requires IndexOf(s, [c]) == Some(i)
    requires var tail := Split(s[i + 1..], [c]); tail[|tail| - 1] == AfterLast(s[i + 1..], c)
    ensures var parts := Split(s, [c]); parts[|parts| - 1] == AfterLast(s, c)
  {
    AfterLastAt(s, c, i);
    var tail := Split(s[i + 1..], [c]);
    var parts := Split(s, [c]);
    assert parts == [s[..i]] + tail;
    assert parts[|parts| - 1] == tail[|tail| - 1];
  }

  /** The text after the last `c` is the text after the last `c` that follows any occurrence. */
  lemma {:induction false} AfterLastAt(s: string, c: char, i: nat)
    requires OccursAt(s, [c], i)
    ensures AfterLast(s, c) == AfterLast(s[i + 1..], c)
  {
    assert s[i] == s[i..i + 1][0];
    assert s == s[..i] + [c] + s[i + 1..];
    AfterLastSkips(s[..i], c, s[i + 1..]);
  }

  /** ASCII lower-casing; the only letters the model ever compares are ASCII. */
  function ToLowerChar(c: char): char {
    if 'A' <= c <= 'Z' then (c as int + 32) as char else c
  }

  function ToLower(s: string): (r: string)
    ensures |r| == |s| && forall k :: 0 <= k < |s| ==> r[k] == ToLowerChar(s[k])
  {
    if s == [] then [] else [ToLowerChar(s[0])] + ToLower(s[1..])
  }
}
