/**
 * The three Python string operations the endpoint parser and the drain
 * policies rely on: `s.replace("//", "")`, `s.split(sep)` and the
 * substring test `pat in s`.
 */
module Text {

  /** Number of occurrences of the character `c` in `s`. */
  function Count(s: string, c: char): nat
  {
    if s == [] then 0 else (if s[0] == c then 1 else 0) + Count(s[1..], c)
  }

  /** `s` with every '/' dropped: what is left once slashes are ignored. */
  function Unslashed(s: string): string
  {
    if s == [] then [] else (if s[0] == '/' then [] else [s[0]]) + Unslashed(s[1..])
  }

  /** No two adjacent slashes. */
  predicate NoDoubleSlash(s: string)
  {
    forall i :: 0 < i < |s| ==> !(s[i - 1] == '/' && s[i] == '/')
  }

  /**
   * Python's `s.replace("//", "")`: scanning from the left, every
   * non-overlapping "//" is cut out.
   */
  function StripDoubleSlashes(s: string): (r: string)
    ensures |r| <= |s| && (|s| - |r|) % 2 == 0
    ensures '/' !in s ==> r == s
  {
    if |s| < 2 then s
    else if s[0] == '/' && s[1] == '/' then StripDoubleSlashes(s[2..])
    else
      assert s == [s[0]] + s[1..];
      [s[0]] + StripDoubleSlashes(s[1..])
  }

  /** A run of `n` slashes. */
  function Slashes(n: nat): string
  {
    if n == 0 then [] else ['/'] + Slashes(n - 1)
  }

  /** A run of slashes shrinks to its parity: "//" vanishes and "///" leaves one "/". */
  lemma {:induction false} StripSlashRun(n: nat, t: string)
    requires t == [] || t[0] != '/'
    ensures StripDoubleSlashes(Slashes(n) + t) == Slashes(n % 2) + StripDoubleSlashes(t)
  {
    if n == 0 {
      assert Slashes(0) + t == t;
    } else if n == 1 {
      assert Slashes(1) == ['/'];
      StripLoneSlash(t);
    } else {
      var rest := Slashes(n - 2) + t;
      assert Slashes(n) + t == ['/', '/'] + rest by {
        assert Slashes(n) == ['/'] + (['/'] + Slashes(n - 2));
      }
      StripPair(rest);
      StripSlashRun(n - 2, t);
      ParityStep(n);
    }
  }

  lemma ParityStep(n: nat)
    requires n >= 2
    ensures (n - 2) % 2 == n % 2
  {
  }

  /** A leading "//" is dropped. */
  lemma StripPair(rest: string)
    ensures StripDoubleSlashes(['/', '/'] + rest) == StripDoubleSlashes(rest)
  {
    assert (['/', '/'] + rest)[2..] == rest;
  }

  /** A single slash before a non-slash stays. */
  lemma StripLoneSlash(t: string)
    requires t == [] || t[0] != '/'
    ensures StripDoubleSlashes(['/'] + t) == ['/'] + StripDoubleSlashes(t)
  {
    var s := ['/'] + t;
    if t != [] {
      assert s[1] == t[0] && s[1..] == t;
    }
  }

  /**
   * Only slashes go: the other characters keep their order, and a string
   * that starts with another character still starts with it.
   */
  lemma {:induction false} StripRemovesOnlySlashes(s: string)
    ensures Unslashed(StripDoubleSlashes(s)) == Unslashed(s)
    ensures s != [] && s[0] != '/' ==> StripDoubleSlashes(s) != [] && StripDoubleSlashes(s)[0] == s[0]
  {
    if |s| >= 2 {
      if s[0] == '/' && s[1] == '/' {
        StripRemovesOnlySlashes(s[2..]);
        assert s[1..][1..] == s[2..];
      } else {
        StripRemovesOnlySlashes(s[1..]);
      }
    }
  }

  /** No "//" is left behind ("///" becomes "/"). */
  lemma {:induction false} StripLeavesNoDoubleSlash(s: string)
    ensures NoDoubleSlash(StripDoubleSlashes(s))
  {
    if |s| >= 2 {
      if s[0] == '/' && s[1] == '/' {
        StripLeavesNoDoubleSlash(s[2..]);
      } else {
        StripLeavesNoDoubleSlash(s[1..]);
        StripRemovesOnlySlashes(s[1..]);
        var rest := StripDoubleSlashes(s[1..]);
        var r := [s[0]] + rest;
        forall i | 0 < i < |r| ensures !(r[i - 1] == '/' && r[i] == '/') {
          if i > 1 {
            assert r[i - 1] == rest[i - 2] && r[i] == rest[i - 1];
          }
        }
      }
    }
  }

  lemma {:induction false} CountAppend(a: string, b: string, c: char)
    ensures Count(a + b, c) == Count(a, c) + Count(b, c)
  {
    if a == [] {
      assert a + b == b;
    } else {
      CountAppend(a[1..], b, c);
      assert (a + b)[1..] == a[1..] + b;
    }
  }

  lemma {:induction false} SlashesDoNotCount(s: string, c: char)
    requires c != '/'
    ensures Count(Unslashed(s), c) == Count(s, c)
  {
    if s != [] {
      SlashesDoNotCount(s[1..], c);
      CountAppend(if s[0] == '/' then [] else [s[0]], Unslashed(s[1..]), c);
    }
  }

  /** Removing the "//" pairs leaves the number of ':' unchanged. */
  lemma ColonsSurviveStripping(s: string)
    ensures Count(StripDoubleSlashes(s), ':') == Count(s, ':')
  {
    StripRemovesOnlySlashes(s);
    SlashesDoNotCount(s, ':');
    SlashesDoNotCount(StripDoubleSlashes(s), ':');
  }

  /** A slash-free prefix passes through `StripDoubleSlashes` untouched. */
  lemma {:induction false} StripSlashFreePrefix(a: string, t: string)
    requires '/' !in a
    ensures StripDoubleSlashes(a + t) == a + StripDoubleSlashes(t)
  {
    if a == [] {
      assert a + t == t;
    } else if |a + t| < 2 {
      assert t == [] && a + t == a;
    } else {
      assert (a + t)[0] == a[0] && a[0] != '/';
      calc {
        StripDoubleSlashes(a + t);
        [a[0]] + StripDoubleSlashes((a + t)[1..]);
        { assert (a + t)[1..] == a[1..] + t; }
        [a[0]] + StripDoubleSlashes(a[1..] + t);
        { StripSlashFreePrefix(a[1..], t); }
        [a[0]] + (a[1..] + StripDoubleSlashes(t));
        { assert a == [a[0]] + a[1..]; }
        a + StripDoubleSlashes(t);
      }
    }
  }

  /** Python's `sep.join(parts)`. */
  function Join(parts: seq<string>, sep: char): string
    requires |parts| > 0
  {
    if |parts| == 1 then parts[0] else parts[0] + [sep] + Join(parts[1..], sep)
  }

  lemma JoinTwo(parts: seq<string>, sep: char)
    requires |parts| == 2
    ensures Join(parts, sep) == parts[0] + [sep] + parts[1]
  {
    assert parts[1..] == [parts[1]];
  }

  lemma JoinThree(parts: seq<string>, sep: char)
    requires |parts| == 3
    ensures Join(parts, sep) == parts[0] + [sep] + parts[1] + [sep] + parts[2]
  {
    JoinTwo(parts[1..], sep);
  }

  /**
   * Python's `s.split(sep)` for a one-character separator: one more part
   * than there are separators, no part holds the separator, and joining the
   * parts back gives `s`.
   */
  function Split(s: string, sep: char): (parts: seq<string>)
    ensures |parts| == Count(s, sep) + 1
    ensures forall p :: p in parts ==> sep !in p
    ensures Join(parts, sep) == s
  {
    if s == [] then [[]]
    else
      var rest := Split(s[1..], sep);
      if s[0] == sep then
        [[]] + rest
      else
        assert ([[s[0]] + rest[0]] + rest[1..])[1..] == rest[1..];
        [[s[0]] + rest[0]] + rest[1..]
  }

  lemma {:induction false} SplitOfSeparatorFree(p: string, sep: char)
    requires sep !in p
    ensures Split(p, sep) == [p]
  {
    if p != [] {
      SplitOfSeparatorFree(p[1..], sep);
    }
  }

  lemma {:induction false} SplitOfPrefix(p: string, t: string, sep: char)
    requires sep !in p
    ensures Split(p + [sep] + t, sep) == [p] + Split(t, sep)
  {
    if p == [] {
      assert p + [sep] + t == [sep] + t;
      assert ([sep] + t)[1..] == t;
    } else {
      SplitOfPrefix(p[1..], t, sep);
      assert (p + [sep] + t)[0] == p[0] != sep;
      assert (p + [sep] + t)[1..] == p[1..] + [sep] + t;
      assert p == [p[0]] + p[1..];
    }
  }

  /** Splitting undoes joining when no part holds the separator. */
  lemma {:induction false} SplitOfJoin(parts: seq<string>, sep: char)
    requires |parts| > 0
    requires forall p :: p in parts ==> sep !in p
    ensures Split(Join(parts, sep), sep) == parts
  {
    if |parts| == 1 {
      SplitOfSeparatorFree(parts[0], sep);
    } else {
      SplitOfJoin(parts[1..], sep);
      SplitOfPrefix(parts[0], Join(parts[1..], sep), sep);
    }
  }

  /** `pat` occurs in `s` starting at index `i`. */
  predicate OccursAt(s: string, pat: string, i: int)
  {
    0 <= i && i + |pat| <= |s| && s[i..i + |pat|] == pat
  }

  lemma OccursLater(s: string, pat: string)
    requires |s| >= |pat| && s[..|pat|] != pat
    ensures (exists i :: OccursAt(s, pat, i)) <==> (exists i :: OccursAt(s[1..], pat, i))
  {
    if exists i :: OccursAt(s, pat, i) {
      var i :| OccursAt(s, pat, i);
      assert s[1..][i - 1..i - 1 + |pat|] == s[i..i + |pat|];
      assert OccursAt(s[1..], pat, i - 1);
    }
    if exists i :: OccursAt(s[1..], pat, i) {
      var i :| OccursAt(s[1..], pat, i);
      assert s[1..][i..i + |pat|] == s[i + 1..i + 1 + |pat|];
      assert OccursAt(s, pat, i + 1);
    }
  }

  /** Python's `pat in s` for two strings: true iff `pat` occurs somewhere in `s`. */
  function Contains(s: string, pat: string): (b: bool)
    ensures b <==> exists i :: OccursAt(s, pat, i)
    decreases |s|
  {
    if |s| < |pat| then false
    else if s[..|pat|] == pat then
      assert OccursAt(s, pat, 0);
      true
    else
      OccursLater(s, pat);
      Contains(s[1..], pat)
  }
}
