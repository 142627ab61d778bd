/**
 * `normalizeName` (utils.js): `name.replace(/[^\w]/gi, '').toLowerCase()`.  Without the
 * `u` flag, `\w` is exactly the ASCII letters, digits and `_`, and case-insensitive
 * matching adds nothing to that class, so the replace drops every other character.
 */
module Names {
  /** A character matched by `\w`. */
  predicate IsWordChar(c: char) {
    'a' <= c <= 'z' || 'A' <= c <= 'Z' || '0' <= c <= '9' || c == '_'
  }

  /** A character a normalized name may hold: `[a-z0-9_]`. */
  predicate IsNormalChar(c: char) {
    'a' <= c <= 'z' || '0' <= c <= '9' || c == '_'
  }

  /** `toLowerCase` on the characters that survive the replace. */
  function Lower(c: char): char {
    if 'A' <= c <= 'Z' then (c as int - 'A' as int + 'a' as int) as char else c
  }

  function NormalizeName(name: string): (r: string)
    ensures forall i :: 0 <= i < |r| ==> IsNormalChar(r[i])
    ensures |r| <= |name|
  {
    if name == [] then []
    else if IsWordChar(name[0]) then [Lower(name[0])] + NormalizeName(name[1..])
    else NormalizeName(name[1..])
  }

  /** A name already made of `[a-z0-9_]` is left as it is. */
  lemma {:induction false} NormalizeFixesNormal(name: string)
    requires forall i :: 0 <= i < |name| ==> IsNormalChar(name[i])
    ensures NormalizeName(name) == name
  {
    if name != [] {
      NormalizeFixesNormal(name[1..]);
      assert name == [name[0]] + name[1..];
    }
  }

  /** Normalizing twice is normalizing once. */
  lemma NormalizeIdempotent(name: string)
    ensures NormalizeName(NormalizeName(name)) == NormalizeName(name)
  {
    NormalizeFixesNormal(NormalizeName(name));
  }

  /** Normalization works character by character: it distributes over concatenation. */
  lemma {:induction false} NormalizeConcat(a: string, b: string)
    ensures NormalizeName(a + b) == NormalizeName(a) + NormalizeName(b)
  {
    if a != [] {
      assert (a + b)[0] == a[0] && (a + b)[1..] == a[1..] + b;
      NormalizeConcat(a[1..], b);
    } else {
      assert a + b == b;
    }
  }

  /** On one character: a word character is kept, lower-cased; any other is removed. */
  lemma NormalizeChar(c: char)
    ensures NormalizeName([c]) == if IsWordChar(c) then [Lower(c)] else []
  {
    assert [c][1..] == [];
  }

  /** Removing a character outside `\w` from anywhere in a name does not change its
      normalized form: such characters are deleted, not replaced. */
  lemma DropsNonWord(a: string, c: char, b: string)
    requires !IsWordChar(c)
    ensures NormalizeName(a + [c] + b) == NormalizeName(a + b)
  {
    NormalizeConcat(a + [c], b);
    NormalizeConcat(a, [c]);
    NormalizeChar(c);
    NormalizeConcat(a, b);
  }

  /** Upper and lower case spell the same normalized name. */
  lemma {:induction false} NormalizeIgnoresCase(name: string, other: string)
    requires |name| == |other|
    requires forall i :: 0 <= i < |name| ==> Lower(name[i]) == Lower(other[i])
    ensures NormalizeName(name) == NormalizeName(other)
  {
    if name != [] {
      assert IsWordChar(name[0]) == IsWordChar(other[0]);
      NormalizeIgnoresCase(name[1..], other[1..]);
    }
  }
}
