/**
 * Sequence and string helpers that stand for the JavaScript array and string
 * built-ins the device model uses: first-occurrence de-duplication
 * (`filter((e, idx, r) => r.indexOf(e) == idx)`), `trim`, `split`, `join`,
 * `indexOf`, `replace` of the first occurrence and `startsWith`-style tests.
 */
module Seqs {

  /** No element occurs twice. */
  ghost predicate NoDups<T>(s: seq<T>) {
    forall i, j :: 0 <= i < j < |s| ==> s[i] != s[j]
  }

  /** Index of the first occurrence of `x` in `s`, or -1 (JavaScript `indexOf`). */
  function IndexOf<T(==)>(s: seq<T>, x: T): (r: int)
    ensures -1 <= r < |s|
    ensures r == -1 <==> x !in s
    ensures r >= 0 ==> s[r] == x && x !in s[..r]
  {
    if |s| == 0 then -1
    else if s[0] == x then 0
    else
      var k := IndexOf(s[1..], x);
      assert s[1..][..if k < 0 then 0 else k] == s[1..1 + (if k < 0 then 0 else k)];
      if k < 0 then -1 else k + 1
  }

  /** De-duplication keeping the first occurrence of each element, built left to right. */
  function Dedup<T(==)>(s: seq<T>): (r: seq<T>)
    ensures NoDups(r)
    ensures forall i :: 0 <= i < |r| ==> r[i] in s
    ensures forall i :: 0 <= i < |s| ==> s[i] in r
    ensures |r| <= |s|
  {
    if |s| == 0 then []
    else
      var prefix := Dedup(s[..|s| - 1]);
      var last := s[|s| - 1];
      assert s == s[..|s| - 1] + [last];
      if last in prefix then prefix else prefix + [last]
  }

  /**
   * The literal reading of `s.filter((e, idx, r) => r.indexOf(e) == idx)` over the
   * first `k` positions: position `i` is kept exactly when it is the first
   * occurrence of its element.
   */
  function KeepFirst<T(==)>(s: seq<T>, k: nat): seq<T>
    requires k <= |s|
  {
    if k == 0 then []
    else KeepFirst(s, k - 1) + (if IndexOf(s, s[k - 1]) == k - 1 then [s[k - 1]] else [])
  }

  /** A position is the first occurrence of its element exactly when no earlier position holds it. */
  lemma FirstOccurrence<T>(s: seq<T>, k: nat)
    requires k < |s|
    ensures IndexOf(s, s[k]) == k <==> s[k] !in s[..k]
  {
  }

  /** The recursive `Dedup` agrees with the index-filter definition the source uses. */
  lemma {:induction false} DedupIsIndexFilter<T>(s: seq<T>, k: nat)
    requires k <= |s|
    ensures KeepFirst(s, k) == Dedup(s[..k])
  {
    if k > 0 {
      DedupIsIndexFilter(s, k - 1);
      FirstOccurrence(s, k - 1);
      var t, init, x := s[..k], s[..k - 1], s[k - 1];
      assert t[..|t| - 1] == init && t[|t| - 1] == x;
      DedupMember(init, x);
      var prefix := Dedup(init);
      assert Dedup(t) == if x in prefix then prefix else prefix + [x];
    }
  }

  lemma DedupMember<T>(s: seq<T>, x: T)
    ensures x in Dedup(s) <==> x in s
  {
    var r := Dedup(s);
    if x in r {
      var j :| 0 <= j < |r| && r[j] == x;
    }
    if x in s {
      var j :| 0 <= j < |s| && s[j] == x;
    }
  }

  /** The only position that holds `x` with no earlier `x` is the one `indexOf` finds. */
  lemma IndexOfUnique<T>(s: seq<T>, x: T, k: nat)
    requires k < |s| && s[k] == x && x !in s[..k]
    ensures IndexOf(s, x) == k
  {
    assert s[..k + 1][k] == x;
  }

  /** Appending an element does not move the first occurrence of an element already present. */
  lemma IndexOfAppend<T>(s: seq<T>, y: T, x: T)
    requires x in s
    ensures IndexOf(s + [y], x) == IndexOf(s, x)
  {
    var k := IndexOf(s, x);
    assert (s + [y])[..k] == s[..k];
    IndexOfUnique(s + [y], x, k);
  }

  /**
   * De-duplication lists the elements in the order of their first occurrence:
   * an earlier element of the result first occurs earlier in the input.
   */
  lemma {:induction false} DedupOrder<T>(s: seq<T>)
    ensures var r := Dedup(s);
      forall i, j :: 0 <= i < j < |r| ==> IndexOf(s, r[i]) < IndexOf(s, r[j])
  {
    if |s| > 0 {
      var init, last := s[..|s| - 1], s[|s| - 1];
      assert s == init + [last];
      DedupOrder(init);
      var p := Dedup(init);
      var r := Dedup(s);
      forall i | 0 <= i < |p| ensures IndexOf(s, p[i]) == IndexOf(init, p[i]) {
        DedupMember(init, p[i]);
        IndexOfAppend(init, last, p[i]);
      }
      if last !in p {
        DedupMember(init, last);
        assert last !in init;
        IndexOfUnique(s, last, |init|);
      }
    }
  }

  /** Removing duplicates from a duplicate-free sequence changes nothing. */
  lemma {:induction false} DedupOfNoDups<T>(s: seq<T>)
    requires NoDups(s)
    ensures Dedup(s) == s
  {
    if |s| > 0 {
      var init := s[..|s| - 1];
      assert NoDups(init);
      DedupOfNoDups(init);
      assert s[|s| - 1] !in init;
      assert s == init + [s[|s| - 1]];
    }
  }

  /** De-duplication is idempotent. */
  lemma DedupIdempotent<T>(s: seq<T>)
    ensures Dedup(Dedup(s)) == Dedup(s)
  {
    DedupOfNoDups(Dedup(s));
  }

  /** JavaScript white space and line terminators, the characters `trim` removes. */
  predicate IsSpace(c: char) {
    c == ' ' || c == '\t' || c == '\n' || c == '\r' || c == '\U{000B}' || c == '\U{000C}'
    || c == '\U{00A0}' || c == '\U{1680}' || ('\U{2000}' <= c <= '\U{200A}') || c == '\U{2028}'
    || c == '\U{2029}' || c == '\U{202F}' || c == '\U{205F}' || c == '\U{3000}' || c == '\U{FEFF}'
  }

  function TrimStart(s: string): (r: string)
    ensures |r| <= |s|
  {
    if |s| > 0 && IsSpace(s[0]) then TrimStart(s[1..]) else s
  }

  function TrimEnd(s: string): (r: string)
    ensures |r| <= |s|
  {
    if |s| > 0 && IsSpace(s[|s| - 1]) then TrimEnd(s[..|s| - 1]) else s
  }

  /** `trimStart` drops exactly the leading white space. */
  lemma {:induction false} TrimStartSpec(s: string)
    ensures var r := TrimStart(s);
      && |r| <= |s| && r == s[|s| - |r|..]
      && (r != [] ==> !IsSpace(r[0]))
      && (forall i :: 0 <= i < |s| - |r| ==> IsSpace(s[i]))
  {
    if |s| > 0 && IsSpace(s[0]) {
      TrimStartSpec(s[1..]);
      var r := TrimStart(s);
      forall i | 0 < i < |s| - |r| ensures IsSpace(s[i]) {
        assert s[i] == s[1..][i - 1];
      }
    }
  }

  /** `trimEnd` drops exactly the trailing white space. */
  lemma {:induction false} TrimEndSpec(s: string)
    ensures var r := TrimEnd(s);
      && |r| <= |s| && r == s[..|r|]
      && (r != [] ==> !IsSpace(r[|r| - 1]))
      && (forall i :: |r| <= i < |s| ==> IsSpace(s[i]))
  {
    if |s| > 0 && IsSpace(s[|s| - 1]) {
      TrimEndSpec(s[..|s| - 1]);
      var r := TrimEnd(s);
      forall i | |r| <= i < |s| - 1 ensures IsSpace(s[i]) {
        assert s[i] == s[..|s| - 1][i];
      }
    }
  }

  /** `String.prototype.trim`: the longest slice with no white space at either end. */
  function Trim(s: string): (r: string)
  {
    TrimEnd(TrimStart(s))
  }

  /**
   * What `trim` promises: the result is the slice of `s` that starts at the first
   * non-space character and ends after the last one, and everything cut off is space.
   */
  lemma TrimSpec(s: string)
    ensures var i, r := |s| - |TrimStart(s)|, Trim(s);
      && i + |r| <= |s| && r == s[i..i + |r|]
      && (forall k :: 0 <= k < i ==> IsSpace(s[k]))
      && (forall k :: i + |r| <= k < |s| ==> IsSpace(s[k]))
      && (r != [] ==> !IsSpace(r[0]) && !IsSpace(r[|r| - 1]))
  {
    var t := TrimStart(s);
    var r := TrimEnd(t);
    var i := |s| - |t|;
    TrimStartSpec(s);
    TrimEndSpec(t);
    var n := |r|;
    assert r == s[i..i + n] by {
      assert t == s[i..] && r == t[..n];
      forall k | 0 <= k < n ensures r[k] == s[i + k] {
        assert r[k] == t[k];
      }
    }
    forall k | i + n <= k < |s| ensures IsSpace(s[k]) {
      assert s[k] == t[k - i];
    }
    if r != [] { assert r[0] == t[0]; }
  }

  predicate IsTrimmed(s: string) {
    s == [] || (!IsSpace(s[0]) && !IsSpace(s[|s| - 1]))
  }

  /** Trimming is idempotent: a trimmed string is its own trim. */
  lemma TrimTrimmed(s: string)
    requires IsTrimmed(s)
    ensures Trim(s) == s
  {
  }

  lemma TrimIsTrimmed(s: string)
    ensures IsTrimmed(Trim(s))
  {
    var t := TrimStart(s);
    var r := TrimEnd(t);
    TrimStartSpec(s);
    TrimEndSpec(t);
    if r != [] { assert r[0] == t[0]; }
  }

  /** `s.split(sep)` for a one-character separator: always at least one piece. */
  function Split(s: string, sep: char): (r: seq<string>)
    ensures |r| >= 1
    ensures forall p :: p in r ==> sep !in p
    decreases |s|
  {
    var i := IndexOf(s, sep);
    if i < 0 then [s] else [s[..i]] + Split(s[i + 1..], sep)
  }

  /** `list.join(sep)`. */
  function Join(parts: seq<string>, sep: char): string
  {
    if |parts| == 0 then ""
    else if |parts| == 1 then parts[0]
    else parts[0] + [sep] + Join(parts[1..], sep)
  }

  /** Joining what was split gives the original string back. */
  lemma {:induction false} JoinSplit(s: string, sep: char)
    ensures Join(Split(s, sep), sep) == s
    decreases |s|
  {
    var i := IndexOf(s, sep);
    if i >= 0 {
      var rest := Split(s[i + 1..], sep);
      JoinSplit(s[i + 1..], sep);
      JoinCons(s[..i], rest, sep);
      assert s == s[..i] + [sep] + s[i + 1..];
    }
  }

  /** Joining a first part in front of at least one more. */
  lemma JoinCons(a: string, rest: seq<string>, sep: char)
    requires |rest| >= 1
    ensures Join([a] + rest, sep) == a + [sep] + Join(rest, sep)
  {
    assert ([a] + rest)[0] == a && ([a] + rest)[1..] == rest;
  }

  /** Splitting `a + sep + b` when `a` holds no separator cuts at that separator. */
  lemma SplitAtFirst(a: string, sep: char, b: string)
    requires sep !in a
    ensures Split(a + [sep] + b, sep) == [a] + Split(b, sep)
  {
    var s := a + [sep] + b;
    var i := |a|;
    assert s[..i] == a && s[i] == sep && s[i + 1..] == b;
    IndexOfUnique(s, sep, i);
  }

  /** Splitting what was joined gives the parts back, when no part holds the separator. */
  lemma {:induction false} SplitJoin(parts: seq<string>, sep: char)
    requires |parts| >= 1
    requires forall p :: p in parts ==> sep !in p
    ensures Split(Join(parts, sep), sep) == parts
  {
    if |parts| > 1 {
      assert parts[0] in parts;
      assert forall p :: p in parts[1..] ==> p in parts;
      SplitJoin(parts[1..], sep);
      SplitAtFirst(parts[0], sep, Join(parts[1..], sep));
    }
  }

  /** Joining yields the empty string only for no parts or a single empty part. */
  lemma JoinEmpty(parts: seq<string>, sep: char)
    ensures Join(parts, sep) == "" <==> parts == [] || parts == [""]
  {
    if |parts| > 1 {
      assert |Join(parts, sep)| >= 1;
    }
  }

  /** Number of occurrences of `c` in `s` (`(s.match(/c/g) || []).length`). */
  function Count(s: string, c: char): nat {
    if |s| == 0 then 0 else Count(s[..|s| - 1], c) + (if s[|s| - 1] == c then 1 else 0)
  }

  /** The count is at most the length, and zero exactly when `c` does not occur. */
  lemma {:induction false} CountSpec(s: string, c: char)
    ensures Count(s, c) <= |s|
    ensures Count(s, c) == 0 <==> c !in s
  {
    if |s| > 0 {
      var init := s[..|s| - 1];
      CountSpec(init, c);
      assert s == init + [s[|s| - 1]];
    }
  }

  /** `s.replace(c, with)` for a one-character string pattern: only the first `c` is replaced. */
  function ReplaceFirst(s: string, c: char, with: string): string {
    var i := IndexOf(s, c);
    if i < 0 then s else s[..i] + with + s[i + 1..]
  }

  /**
   * Without a `c` nothing changes; otherwise the text before the first `c` is
   * kept, that one `c` gives way to `with`, and every further `c` stays.
   */
  lemma ReplaceFirstSpec(s: string, c: char, with: string)
    ensures c !in s ==> ReplaceFirst(s, c, with) == s
    ensures c in s ==>
      var i, r := IndexOf(s, c), ReplaceFirst(s, c, with);
      && r[..i] == s[..i] && c !in r[..i]
      && r[i..i + |with|] == with
      && |r| == |s| - 1 + |with|
      && Count(r, c) == Count(s, c) - 1 + Count(with, c)
  {
    if c in s {
      var i := IndexOf(s, c);
      var r := ReplaceFirst(s, c, with);
      assert r == s[..i] + with + s[i + 1..];
      CountAround(s, i);
      CountConcat(s[..i] + with, s[i + 1..], c);
      CountConcat(s[..i], with, c);
    }
  }

  /** Counting around an occurrence of `c` at position `i`. */
  lemma CountAround(s: string, i: nat)
    requires i < |s|
    ensures Count(s, s[i]) == Count(s[..i], s[i]) + 1 + Count(s[i + 1..], s[i])
  {
    var c := s[i];
    var before, after := s[..i], s[i + 1..];
    var rest := [c] + after;
    assert s == before + rest;
    CountConcat(before, rest, c);
    CountConcat([c], after, c);
    assert Count([c], c) == 1;
  }

  /** Counting distributes over concatenation. */
  lemma {:induction false} CountConcat(a: string, b: string, c: char)
    ensures Count(a + b, c) == Count(a, c) + Count(b, c)
    decreases |b|
  {
    if |b| > 0 {
      CountConcat(a, b[..|b| - 1], c);
      assert (a + b)[..|a + b| - 1] == a + b[..|b| - 1];
    } else {
      assert a + b == a;
    }
  }

  /** The elements of a sequence as a set. */
  function Elems<T>(s: seq<T>): set<T> {
    set x | x in s
  }

  /** `s.indexOf(prefix) == 0`. */
  predicate StartsWith(s: string, prefix: string) {
    |prefix| <= |s| && s[..|prefix|] == prefix
  }
}
