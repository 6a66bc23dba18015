/**
 * The two pieces of Python's `str` behaviour the pipeline relies on:
 * `endswith` of a suffix, and the ordering of `<=`, which compares code
 * points from the left and ranks a proper prefix before any extension.
 */
module PyStrings {

  /** `s.endswith(suffix)`. */
  predicate EndsWith(s: string, suffix: string) {
    |suffix| <= |s| && s[|s| - |suffix|..] == suffix
  }

  /** Python's `a <= b` on strings. Dafny's `<=` on sequences is the prefix relation, not this order. */
  predicate LexLe(a: string, b: string) {
    if a == [] then true
    else if b == [] then false
    else if a[0] != b[0] then a[0] < b[0]
    else LexLe(a[1..], b[1..])
  }

  lemma {:induction false} LexLeReflexive(a: string)
    ensures LexLe(a, a)
  {
    if a != [] { LexLeReflexive(a[1..]); }
  }

  /** Any two strings are comparable. */
  lemma {:induction false} LexLeTotal(a: string, b: string)
    ensures LexLe(a, b) || LexLe(b, a)
  {
    if a != [] && b != [] && a[0] == b[0] { LexLeTotal(a[1..], b[1..]); }
  }

  /** Only equal strings are each `<=` the other. */
  lemma {:induction false} LexLeAntisymmetric(a: string, b: string)
    requires LexLe(a, b) && LexLe(b, a)
    ensures a == b
  {
    if a != [] && b != [] {
      LexLeAntisymmetric(a[1..], b[1..]);
      assert a == [a[0]] + a[1..] && b == [b[0]] + b[1..];
    }
  }

  lemma {:induction false} LexLeTransitive(a: string, b: string, c: string)
    requires LexLe(a, b) && LexLe(b, c)
    ensures LexLe(a, c)
  {
    if a != [] && b != [] && c != [] && a[0] == b[0] && b[0] == c[0] {
      LexLeTransitive(a[1..], b[1..], c[1..]);
    }
  }

  /** For distinct strings exactly one order holds, which is what the pair filter of the correlation table relies on. */
  lemma LexLeExactlyOne(a: string, b: string)
    requires a != b
    ensures LexLe(a, b) != LexLe(b, a)
  {
    LexLeTotal(a, b);
    if LexLe(a, b) && LexLe(b, a) { LexLeAntisymmetric(a, b); }
  }

  /** Upper-case letters sort before lower-case ones, and a prefix sorts first. */
  lemma LexLeExamples()
    ensures LexLe("Dalc", "age") && !LexLe("age", "Dalc")
    ensures LexLe("G", "G3") && !LexLe("G3", "G")
    ensures LexLe("G1", "G3") && !LexLe("x2", "x10")
  {
    assert "Dalc"[1..] == "alc";
    assert "G3"[1..] == "3" && "G"[1..] == "";
    assert "G1"[1..] == "1" && "G3"[1..] == "3";
    assert "x2"[1..] == "2" && "x10"[1..] == "10";
  }

  lemma EndsWithExamples()
    ensures EndsWith("students-math.csv", ".csv")
    ensures !EndsWith("students-math.txt", ".csv")
    ensures !EndsWith("csv", ".csv")
  {
    assert "students-math.csv"[13..] == ".csv";
    assert "students-math.txt"[13..] != ".csv" by {
      assert "students-math.txt"[13..][1] == 't';
    }
  }
}
