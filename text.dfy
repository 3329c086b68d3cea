/** The string tests the service worker uses: JavaScript's String.prototype
    endsWith and includes, and Array.prototype.some over a list of needles. */
module Text {

  /** `s.startsWith(prefix)` */
  predicate StartsWith(s: string, prefix: string) {
    |prefix| <= |s| && s[..|prefix|] == prefix
  }

  /** `s.endsWith(suffix)` */
  predicate EndsWith(s: string, suffix: string) {
    |suffix| <= |s| && s[|s| - |suffix|..] == suffix
  }

  /** `part` occurs in `s` starting at index `i`. */
  predicate OccursAt(s: string, part: string, i: nat) {
    i + |part| <= |s| && s[i..i + |part|] == part
  }

  /** `s.includes(part)`: a plain substring test, with no normalisation. */
  predicate Includes(s: string, part: string) {
    exists i :: 0 <= i <= |s| - |part| && OccursAt(s, part, i)
  }

  /** `needles.some((n) => s.includes(n))` */
  predicate IncludesAny(s: string, needles: seq<string>) {
    exists k :: 0 <= k < |needles| && Includes(s, needles[k])
  }

  /** `suffixes.some((x) => s.endsWith(x))` */
  predicate EndsWithAny(s: string, suffixes: seq<string>) {
    exists k :: 0 <= k < |suffixes| && EndsWith(s, suffixes[k])
  }

  lemma OccursAtIncludes(s: string, part: string, i: nat)
    requires OccursAt(s, part, i)
    ensures Includes(s, part)
  {
  }

  /** A string includes each of its prefixes. */
  lemma StartsWithIncludes(s: string, prefix: string)
    requires StartsWith(s, prefix)
    ensures Includes(s, prefix)
  {
    OccursAtIncludes(s, prefix, 0);
  }

  /** Substring inclusion is transitive: if `b` occurs in `a` and `c` occurs in
      `b`, then `c` occurs in `a`, at the sum of the two offsets. */
  lemma IncludesTransitive(a: string, b: string, c: string)
    requires Includes(a, b) && Includes(b, c)
    ensures Includes(a, c)
  {
    var i :| 0 <= i <= |a| - |b| && OccursAt(a, b, i);
    var j :| 0 <= j <= |b| - |c| && OccursAt(b, c, j);
    forall k | 0 <= k < |c|
      ensures a[i + j + k] == c[k]
    {
      assert b[j + k] == c[k];
      assert a[i + (j + k)] == b[j + k];
    }
    assert a[i + j..i + j + |c|] == c;
    OccursAtIncludes(a, c, i + j);
  }
}
