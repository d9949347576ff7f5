/** Paths as the uninstall command sees them: absolute, normalised strings that
    use '/' as separator. Ordering is Python's ordering of `str`. */
module Paths {

  type Path = string

  /** Python's `a < b` on strings: lexicographic by code point, and a proper
      prefix sorts before every longer string it starts. */
  predicate StrLess(a: string, b: string)
  {
    if a == [] then b != []
    else if b == [] then false
    else if a[0] != b[0] then a[0] < b[0]
    else StrLess(a[1..], b[1..])
  }

  lemma {:induction false} StrLessIrreflexive(a: string)
    ensures !StrLess(a, a)
  {
    if a != [] {
      StrLessIrreflexive(a[1..]);
    }
  }

  lemma {:induction false} StrLessTransitive(a: string, b: string, c: string)
    requires StrLess(a, b) && StrLess(b, c)
    ensures StrLess(a, c)
  {
    if a != [] && a[0] == b[0] && b[0] == c[0] {
      StrLessTransitive(a[1..], b[1..], c[1..]);
    }
  }

  lemma StrLessAsymmetric(a: string, b: string)
    requires StrLess(a, b)
    ensures !StrLess(b, a)
  {
    if StrLess(b, a) {
      StrLessTransitive(a, b, a);
      StrLessIrreflexive(a);
    }
  }

  /** Any two distinct strings are ordered one way or the other. */
  lemma {:induction false} StrLessTotal(a: string, b: string)
    requires a != b
    ensures StrLess(a, b) || StrLess(b, a)
  {
    if a != [] && b != [] && a[0] == b[0] {
      assert a == [a[0]] + a[1..] && b == [b[0]] + b[1..];
      StrLessTotal(a[1..], b[1..]);
    }
  }

  /** A proper prefix sorts strictly before the string it starts. */
  lemma {:induction false} PrefixLess(a: string, b: string)
    requires |a| < |b| && b[..|a|] == a
    ensures StrLess(a, b)
  {
    if a != [] {
      assert a[0] == b[0];
      assert b[1..][..|a| - 1] == a[1..];
      PrefixLess(a[1..], b[1..]);
    }
  }

  /** `p` lies strictly beneath directory `base`. */
  predicate IsStrictlyUnder(p: Path, base: Path)
  {
    |base| < |p| && p[..|base|] == base && p[|base|] == '/'
  }

  /** `p` is `base` or lies beneath it. */
  predicate IsUnder(p: Path, base: Path)
  {
    p == base || IsStrictlyUnder(p, base)
  }

  /** A directory sorts before everything beneath it. */
  lemma ContainerSortsFirst(p: Path, base: Path)
    requires IsStrictlyUnder(p, base)
    ensures StrLess(base, p)
  {
    PrefixLess(base, p);
  }

  /** `path_is_under(values)` with the process's working directory `cwd`: one
      of `values` is the working directory or one of its ancestors. */
  predicate PathIsUnder(cwd: Path, values: set<Path>)
  {
    exists k :: k in values && IsUnder(cwd, k)
  }
}
