/**
 * The parts of Python's str and posixpath behaviour that the viewer relies on:
 * lower-casing, endswith, one-character replace, the ordering of str used by
 * sorted(), and os.path.join / os.path.basename for two POSIX path components.
 */
module PyStr {

  /** str.lower() restricted to ASCII: 'A'..'Z' become 'a'..'z', every other character is kept. */
  function LowerChar(c: char): (d: char)
    ensures 'A' <= c <= 'Z' ==> 'a' <= d <= 'z' && d as int - c as int == 32
    ensures !('A' <= c <= 'Z') ==> d == c
  {
    if 'A' <= c <= 'Z' then (c as int + 32) as char else c
  }

  function Lower(s: string): (r: string)
    ensures |r| == |s|
  {
    seq(|s|, i requires 0 <= i < |s| => LowerChar(s[i]))
  }

  lemma LowerConcat(a: string, b: string)
    ensures Lower(a + b) == Lower(a) + Lower(b)
  {
    assert forall i :: 0 <= i < |a + b| ==> Lower(a + b)[i] == (Lower(a) + Lower(b))[i];
  }

  predicate EndsWith(s: string, suffix: string)
  {
    |suffix| <= |s| && s[|s| - |suffix|..] == suffix
  }

  /** Lower(s) ends with suffix when the last |suffix| characters of s lower-case to it. */
  lemma LowerEndsWith(s: string, suffix: string)
    requires |suffix| <= |s|
    requires forall i :: 0 <= i < |suffix| ==> LowerChar(s[|s| - |suffix| + i]) == suffix[i]
    ensures EndsWith(Lower(s), suffix)
  {
    assert Lower(s)[|s| - |suffix|..] == suffix;
  }

  /** A suffix of t stays a suffix whatever is put in front of t. */
  lemma EndsWithPrepend(u: string, t: string, suffix: string)
    requires EndsWith(t, suffix)
    ensures EndsWith(u + t, suffix)
  {
    assert (u + t)[|u + t| - |suffix|..] == t[|t| - |suffix|..];
  }

  /**
   * str.replace(from, to) with one-character arguments, written as the
   * left-to-right scan it performs.
   */
  function ReplaceChar(s: string, from: char, to: char): (r: string)
    ensures |r| == |s|
  {
    if s == [] then []
    else (if s[0] == from then [to] else [s[0]]) + ReplaceChar(s[1..], from, to)
  }

  /** Each position of the result is the input's character, or `to` where the input had `from`. */
  lemma {:induction false} ReplaceCharAt(s: string, from: char, to: char, i: int)
    requires 0 <= i < |s|
    ensures ReplaceChar(s, from, to)[i] == if s[i] == from then to else s[i]
  {
    if i > 0 {
      ReplaceCharAt(s[1..], from, to, i - 1);
    }
  }

  /** After the replace no `from` is left, provided `from` and `to` differ. */
  lemma ReplaceCharRemoves(s: string, from: char, to: char)
    requires from != to
    ensures from !in ReplaceChar(s, from, to)
  {
    forall i | 0 <= i < |s| ensures ReplaceChar(s, from, to)[i] != from {
      ReplaceCharAt(s, from, to, i);
    }
  }

  /**
   * a <= b on Python str: code points compared left to right, a proper
   * prefix before the longer string.
   */
  predicate LexLe(a: string, b: string)
  {
    a == [] || (b != [] && (a[0] < b[0] || (a[0] == b[0] && LexLe(a[1..], b[1..]))))
  }

  lemma {:induction false} LexLeReflexive(a: string)
    ensures LexLe(a, a)
  {
    if a != [] {
      LexLeReflexive(a[1..]);
    }
  }

  lemma {:induction false} LexLeTotal(a: string, b: string)
    ensures LexLe(a, b) || LexLe(b, a)
  {
    if a != [] && b != [] && a[0] == b[0] {
      LexLeTotal(a[1..], b[1..]);
    }
  }

  lemma {:induction false} LexLeAntisymmetric(a: string, b: string)
    requires LexLe(a, b) && LexLe(b, a)
    ensures a == b
  {
    if a != [] && b != [] {
      LexLeAntisymmetric(a[1..], b[1..]);
      assert a == [a[0]] + a[1..] && b == [b[0]] + b[1..];
    }
  }

  lemma {:induction false} LexLeTransitive(a: string, b: string, c: string)
    requires LexLe(a, b) && LexLe(b, c)
    ensures LexLe(a, c)
  {
    if a != [] && b != [] && c != [] && a[0] == b[0] == c[0] {
      LexLeTransitive(a[1..], b[1..], c[1..]);
    }
  }

  /** A common prefix does not change the order: this is why sorting joined paths sorts the names. */
  lemma {:induction false} LexLeCommonPrefix(p: string, a: string, b: string)
    ensures LexLe(p + a, p + b) <==> LexLe(a, b)
  {
    if p != [] {
      assert (p + a)[1..] == p[1..] + a && (p + b)[1..] == p[1..] + b;
      LexLeCommonPrefix(p[1..], a, b);
    } else {
      assert p + a == a && p + b == b;
    }
  }

  /** os.path.join(a, b) for two components on POSIX (posixpath.join). */
  function Join(a: string, b: string): (r: string)
    ensures EndsWith(r, b)
  {
    if b != [] && b[0] == '/' then b
    else if a == [] || a[|a| - 1] == '/' then a + b
    else a + "/" + b
  }

  /** What Join puts in front of a relative component. */
  function JoinPrefix(a: string): string
  {
    if a == [] || a[|a| - 1] == '/' then a else a + "/"
  }

  lemma JoinRelative(a: string, b: string)
    requires b == [] || b[0] != '/'
    ensures Join(a, b) == JoinPrefix(a) + b
  {
  }

  /** os.path.basename(p): what follows the last '/'. */
  function Basename(p: string): (r: string)
    ensures '/' !in r
  {
    if p == [] || p[|p| - 1] == '/' then [] else Basename(p[..|p| - 1]) + [p[|p| - 1]]
  }

  /** The basename of a path built by Join is the name that was joined, when it holds no '/'. */
  lemma {:induction false} BasenameJoin(a: string, b: string)
    requires '/' !in b
    ensures Basename(Join(a, b)) == b
  {
    if b == [] {
      assert Join(a, b) == JoinPrefix(a);
    } else {
      BasenameAfterSlash(JoinPrefix(a), b);
    }
  }

  lemma {:induction false} BasenameAfterSlash(x: string, b: string)
    requires x == [] || x[|x| - 1] == '/'
    requires '/' !in b
    ensures Basename(x + b) == b
  {
    if b == [] {
      assert x + b == x;
    } else {
      var front := b[..|b| - 1];
      assert (x + b)[..|x + b| - 1] == x + front;
      assert '/' !in front by {
        forall i | 0 <= i < |front| ensures front[i] != '/' { assert front[i] == b[i]; }
      }
      BasenameAfterSlash(x, front);
      assert b == front + [b[|b| - 1]];
    }
  }
}
