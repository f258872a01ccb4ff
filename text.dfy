/** String helpers for the keyword and name lookups: lower-casing, substring search,
    and a first-match search over an ordered keyword table. */
module Text {
  import opened Optional

  predicate IsUpper(c: char) { 'A' <= c <= 'Z' }

  /** Lower-cases an ASCII capital letter; every other character is kept. */
  function LowerChar(c: char): char
  {
    if IsUpper(c) then (c as int + 32) as char else c
  }

  /** Python's `str.lower()`, restricted to ASCII letters: no capital is left, every
      other character stays where it was, and each capital becomes its small letter. */
  function Lower(s: string): (r: string)
    ensures |r| == |s|
    ensures forall i :: 0 <= i < |r| ==> !IsUpper(r[i])
    ensures forall i :: 0 <= i < |s| && !IsUpper(s[i]) ==> r[i] == s[i]
    ensures forall i :: 0 <= i < |s| && IsUpper(s[i]) ==> r[i] as int == s[i] as int + 32
  {
    seq(|s|, i requires 0 <= i < |s| => LowerChar(s[i]))
  }

  /** Lower-casing twice is lower-casing once. */
  lemma LowerIdempotent(s: string)
    ensures Lower(Lower(s)) == Lower(s)
  {
    var once := Lower(s);
    assert forall i :: 0 <= i < |once| ==> Lower(once)[i] == once[i];
  }

  /** A string with no capital letters is its own lower-case form. */
  lemma LowerOfLowerCase(s: string)
    requires forall i :: 0 <= i < |s| ==> !IsUpper(s[i])
    ensures Lower(s) == s
  {
  }

  predicate StartsWith(p: string, s: string)
  {
    |p| <= |s| && s[..|p|] == p
  }

  /** Python's `k in s` on strings: `k` occurs in `s` at some position. */
  predicate Contains(k: string, s: string)
    decreases |s|
  {
    StartsWith(k, s) || (|s| > 0 && Contains(k, s[1..]))
  }

  /** `s` reads `k` from position `i` on. */
  predicate OccursAt(k: string, s: string, i: nat)
  {
    i + |k| <= |s| && s[i..i + |k|] == k
  }

  /** `Contains` agrees with "there is a position where `s` reads `k`". */
  lemma {:induction false} ContainsAt(k: string, s: string)
    ensures Contains(k, s) <==> exists i: nat :: OccursAt(k, s, i)
    decreases |s|
  {
    if StartsWith(k, s) {
      assert OccursAt(k, s, 0);
    } else if |s| > 0 {
      ContainsAt(k, s[1..]);
      if Contains(k, s[1..]) {
        var i: nat :| OccursAt(k, s[1..], i);
        assert s[i + 1..i + 1 + |k|] == s[1..][i..i + |k|];
        assert OccursAt(k, s, i + 1);
      }
      forall i: nat | OccursAt(k, s, i)
        ensures Contains(k, s[1..])
      {
        assert i != 0;
        assert s[1..][i - 1..i - 1 + |k|] == s[i..i + |k|];
        assert OccursAt(k, s[1..], i - 1);
      }
    }
  }

  /** Containment is transitive: a key inside a longer key is inside whatever holds the longer key. */
  lemma ContainsTransitive(a: string, b: string, c: string)
    requires Contains(a, b) && Contains(b, c)
    ensures Contains(a, c)
  {
    ContainsAt(a, b);
    ContainsAt(b, c);
    var i: nat :| OccursAt(a, b, i);
    var j: nat :| OccursAt(b, c, j);
    forall m | 0 <= m < |a|
      ensures c[j + i + m] == a[m]
    {
      assert c[j + i + m] == c[j..j + |b|][i + m] == b[i..i + |a|][m];
    }
    assert c[j + i..j + i + |a|] == a;
    assert OccursAt(a, c, j + i);
    ContainsAt(a, c);
  }

  /** Every character of a contained key occurs in the string; used to refute containment. */
  lemma ContainsChar(k: string, s: string, i: nat)
    requires Contains(k, s) && i < |k|
    ensures k[i] in s
  {
    ContainsAt(k, s);
    var j: nat :| OccursAt(k, s, j);
    assert s[j + i] == s[j..j + |k|][i];
  }

  /** A key with a character that `s` lacks does not occur in `s`. */
  lemma MissingChar(k: string, s: string, i: nat)
    requires i < |k| && k[i] !in s
    ensures !Contains(k, s)
  {
    if Contains(k, s) {
      ContainsChar(k, s, i);
    }
  }

  /** A string starts with itself, hence contains itself. */
  lemma ContainsSelf(s: string)
    ensures Contains(s, s)
  {
    assert s[..|s|] == s;
  }

  /** Index of the first key of `table`, in table order, that occurs in `s`
      (Python's `for key, v in table.items(): if key in s: return v`). */
  function FirstKey<V>(table: seq<(string, V)>, s: string): (r: Option<nat>)
    ensures r.Some? ==> r.value < |table| && Contains(table[r.value].0, s)
    ensures r.Some? ==> forall j :: 0 <= j < r.value ==> !Contains(table[j].0, s)
    ensures r.None? <==> forall j :: 0 <= j < |table| ==> !Contains(table[j].0, s)
  {
    if |table| == 0 then None
    else if Contains(table[0].0, s) then Some(0)
    else
      match FirstKey(table[1..], s)
      case None => None
      case Some(i) => Some(i + 1)
  }

  /** A key that contains an earlier key of the table is never the first match:
      the earlier key always wins. */
  lemma ShadowedKey<V>(table: seq<(string, V)>, i: nat, j: nat, s: string)
    requires i < j < |table|
    requires Contains(table[i].0, table[j].0)
    ensures FirstKey(table, s) != Some(j)
  {
    if FirstKey(table, s) == Some(j) {
      ContainsTransitive(table[i].0, table[j].0, s);
      assert false;
    }
  }

  /** The first-match characterisation determines the answer of `FirstKey`. */
  lemma FirstKeyIs<V>(table: seq<(string, V)>, s: string, i: nat)
    requires i < |table| && Contains(table[i].0, s)
    requires forall j :: 0 <= j < i ==> !Contains(table[j].0, s)
    ensures FirstKey(table, s) == Some(i)
  {
  }
}
