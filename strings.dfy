/**
 * The few operations on Kotlin strings that the test rules use:
 * `contains`, `endsWith`, `split` and `last`.
 */
module Strings {

  /** `s.endsWith(suffix)` */
  predicate EndsWith(s: string, suffix: string)
  {
    |suffix| <= |s| && s[|s| - |suffix|..] == suffix
  }

  /** `t` occurs in `s` starting at index `i`. */
  predicate OccursAt(s: string, t: string, i: int)
  {
    0 <= i && i + |t| <= |s| && s[i..i + |t|] == t
  }

  /** `s.contains(t)`, computed by trying every start position in turn. */
  predicate Contains(s: string, t: string)
    decreases |s|
  {
    t <= s || (s != [] && Contains(s[1..], t))
  }

  /** The scan agrees with the definition "some position of `s` holds `t`". */
  lemma {:induction false} ContainsIffOccurs(s: string, t: string)
    ensures Contains(s, t) <==> exists i :: OccursAt(s, t, i)
    decreases |s|
  {
    if t <= s {
      assert OccursAt(s, t, 0);
    } else if s != [] {
      ContainsIffOccurs(s[1..], t);
      if Contains(s[1..], t) {
        var i :| OccursAt(s[1..], t, i);
        assert s[1..][i..i + |t|] == s[i + 1..i + 1 + |t|];
        assert OccursAt(s, t, i + 1);
      }
      if exists i :: OccursAt(s, t, i) {
        var i :| OccursAt(s, t, i);
        assert i != 0;
        assert s[1..][i - 1..i - 1 + |t|] == s[i..i + |t|];
        assert OccursAt(s[1..], t, i - 1);
      }
    }
  }

  /** A string contains each of its suffixes. */
  lemma EndsWithContains(s: string, t: string)
    requires EndsWith(s, t)
    ensures Contains(s, t)
  {
    assert OccursAt(s, t, |s| - |t|);
    ContainsIffOccurs(s, t);
  }

  /** A string that ends with `u + t` ends with `t`. */
  lemma EndsWithSuffix(s: string, u: string, t: string)
    requires EndsWith(s, u + t)
    ensures EndsWith(s, t)
  {
    assert s[|s| - |t|..] == (u + t)[|u|..];
  }

  /**
   * `s.split(sep)` as Kotlin computes it: every maximal run of characters
   * other than `sep`, empty runs included, so there is always one more
   * part than there are separators.
   */
  function Split(s: string, sep: char): (parts: seq<string>)
    ensures |parts| >= 1
    ensures forall p :: p in parts ==> sep !in p
    ensures |parts| == 1 <==> sep !in s
    ensures sep !in s ==> parts == [s]
    decreases |s|
  {
    if s == [] then [[]]
    else
      var rest := Split(s[1..], sep);
      assert s == [s[0]] + s[1..];
      if s[0] == sep then [[]] + rest
      else [[s[0]] + rest[0]] + rest[1..]
  }

  /** Puts the parts back together with `sep` between them. */
  function Join(parts: seq<string>, sep: char): string
    requires |parts| >= 1
  {
    if |parts| == 1 then parts[0] else parts[0] + [sep] + Join(parts[1..], sep)
  }

  /** `Join` undoes `Split`: no character of the input is lost or added. */
  lemma {:induction false} JoinSplit(s: string, sep: char)
    ensures Join(Split(s, sep), sep) == s
    decreases |s|
  {
    if s != [] {
      var t := s[1..];
      JoinSplit(t, sep);
      var rest := Split(t, sep);
      assert s == [s[0]] + t;
      if s[0] == sep {
        JoinEmptyFirst(rest, sep);
      } else {
        JoinExtendFirst(s[0], rest, sep);
      }
    }
  }

  /** An empty first part contributes just the separator. */
  lemma JoinEmptyFirst(rest: seq<string>, sep: char)
    requires |rest| >= 1
    ensures Join([[]] + rest, sep) == [sep] + Join(rest, sep)
  {
    assert ([[]] + rest)[1..] == rest;
  }

  /** Prefixing the first part with `c` prefixes the joined string with `c`. */
  lemma JoinExtendFirst(c: char, rest: seq<string>, sep: char)
    requires |rest| >= 1
    ensures Join([[c] + rest[0]] + rest[1..], sep) == [c] + Join(rest, sep)
  {
    var parts := [[c] + rest[0]] + rest[1..];
    if |rest| > 1 {
      assert parts[1..] == rest[1..];
    }
  }

  /** `Split` undoes `Join` when no part holds the separator. */
  lemma {:induction false} SplitJoin(parts: seq<string>, sep: char)
    requires |parts| >= 1
    requires forall p :: p in parts ==> sep !in p
    ensures Split(Join(parts, sep), sep) == parts
    decreases |parts|
  {
    if |parts| > 1 {
      SplitJoin(parts[1..], sep);
      SplitAfterPart(parts[0], Join(parts[1..], sep), sep);
      assert [parts[0]] + parts[1..] == parts;
    }
  }

  /** Splitting `a + [sep] + b`, where `a` holds no separator, yields `a` and then the parts of `b`. */
  lemma {:induction false} SplitAfterPart(a: string, b: string, sep: char)
    requires sep !in a
    ensures Split(a + [sep] + b, sep) == [a] + Split(b, sep)
    decreases |a|
  {
    var s := a + [sep] + b;
    if a == [] {
      assert s[1..] == b;
    } else {
      assert s[1..] == a[1..] + [sep] + b;
      SplitAfterPart(a[1..], b, sep);
      assert [a[0]] + a[1..] == a;
    }
  }

  /** `parts.last()` */
  function Last(parts: seq<string>): string
    requires |parts| >= 1
  {
    parts[|parts| - 1]
  }

  /**
   * The last part of `s.split(sep)` is the suffix of `s` after its last
   * separator, or all of `s` when it holds none.
   */
  lemma LastPart(s: string, sep: char)
    ensures EndsWith(s, Last(Split(s, sep)))
    ensures sep !in Last(Split(s, sep))
    ensures sep in s ==> EndsWith(s, [sep] + Last(Split(s, sep)))
    ensures sep !in s ==> Last(Split(s, sep)) == s
  {
    if sep in s {
      LastPartSeparated(s, sep);
      EndsWithSuffix(s, [sep], Last(Split(s, sep)));
    }
  }

  /** When `s` holds a separator, its last part is preceded by one. */
  lemma {:induction false} LastPartSeparated(s: string, sep: char)
    requires sep in s
    ensures EndsWith(s, [sep] + Last(Split(s, sep)))
    decreases |s|
  {
    var t := s[1..];
    assert s == [s[0]] + t;
    var rest := Split(t, sep);
    if sep in t {
      LastPartSeparated(t, sep);
      assert Last(Split(s, sep)) == Last(rest);
      EndsWithCons(s[0], t, [sep] + Last(rest));
    } else {
      assert Split(s, sep) == [[]] + [t];
      assert [sep] + t == s;
    }
  }

  lemma EndsWithCons(c: char, t: string, m: string)
    requires EndsWith(t, m)
    ensures EndsWith([c] + t, m)
  {
    assert ([c] + t)[|t| + 1 - |m|..] == t[|t| - |m|..];
  }

  /** After the last separator of `a + [sep] + b` comes exactly `b`, when `b` holds none. */
  lemma {:induction false} LastPartAfterSeparator(a: string, b: string, sep: char)
    requires sep !in b
    ensures Last(Split(a + [sep] + b, sep)) == b
    decreases |a|
  {
    var s := a + [sep] + b;
    if a == [] {
      assert s == [sep] + b && s[1..] == b;
    } else {
      var t := s[1..];
      assert t == a[1..] + [sep] + b;
      LastPartAfterSeparator(a[1..], b, sep);
      assert t[|a| - 1] == sep;
      assert |Split(t, sep)| >= 2;
    }
  }
}
