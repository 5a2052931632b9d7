/** Comparison of search texts: the bounded C string comparison that orders the index. */
module SearchText {

  const SEARCH_TEXT_MAX: nat := 128

  /** What a node stores of a text, and all that a comparison ever looks at. */
  type Key = s: string | |s| <= SEARCH_TEXT_MAX

  function Clip(s: string, n: nat): string {
    if |s| <= n then s else s[..n]
  }

  function KeyOf(s: string): Key {
    Clip(s, SEARCH_TEXT_MAX)
  }

  /** strncmp: the difference of the first characters that differ within the first n, a string's
      end counting as less than any character. */
  function StrNCmp(a: string, b: string, n: nat): (r: int)
    ensures r == 0 <==> Clip(a, n) == Clip(b, n)
  {
    if n == 0 || (a == [] && b == []) then 0
    else if a == [] then -1
    else if b == [] then 1
    else if a[0] != b[0] then a[0] as int - b[0] as int
    else
      var r := StrNCmp(a[1..], b[1..], n - 1);
      assert r == 0 <==> Clip(a, n) == Clip(b, n) by {
        assert Clip(a, n) == [a[0]] + Clip(a[1..], n - 1);
        assert Clip(b, n) == [b[0]] + Clip(b[1..], n - 1);
        assert Clip(a, n)[1..] == Clip(a[1..], n - 1);
        assert Clip(b, n)[1..] == Clip(b[1..], n - 1);
      }
      r
  }

  predicate Below(a: Key, b: Key) {
    StrNCmp(a, b, SEARCH_TEXT_MAX) < 0
  }

  lemma {:induction false} StrNCmpAntisymmetric(a: string, b: string, n: nat)
    ensures StrNCmp(a, b, n) == -StrNCmp(b, a, n)
    decreases n
  {
    if n > 0 && a != [] && b != [] && a[0] == b[0] {
      StrNCmpAntisymmetric(a[1..], b[1..], n - 1);
    }
  }

  lemma {:induction false} StrNCmpTransitive(a: string, b: string, c: string, n: nat)
    requires StrNCmp(a, b, n) < 0 && StrNCmp(b, c, n) < 0
    ensures StrNCmp(a, c, n) < 0
    decreases n
  {
    if a != [] && b != [] && c != [] && a[0] == b[0] == c[0] {
      StrNCmpTransitive(a[1..], b[1..], c[1..], n - 1);
    }
  }

  lemma {:induction false} StrNCmpClips(a: string, b: string, n: nat)
    ensures StrNCmp(a, b, n) == StrNCmp(Clip(a, n), Clip(b, n), n)
    decreases n
  {
    if n > 0 && a != [] && b != [] && a[0] == b[0] {
      assert Clip(a, n)[1..] == Clip(a[1..], n - 1);
      assert Clip(b, n)[1..] == Clip(b[1..], n - 1);
      StrNCmpClips(a[1..], b[1..], n - 1);
    }
  }

  /** What the sign of a comparison with a stored key tells. */
  lemma CompareMeans(text: string, k: Key)
    ensures var r := StrNCmp(text, k, SEARCH_TEXT_MAX);
            && (r == 0 <==> KeyOf(text) == k)
            && (r > 0 <==> Below(k, KeyOf(text)))
            && (r < 0 <==> Below(KeyOf(text), k))
  {
    StrNCmpClips(text, k, SEARCH_TEXT_MAX);
    StrNCmpAntisymmetric(KeyOf(text), k, SEARCH_TEXT_MAX);
  }

  lemma BelowTransitive(a: Key, b: Key, c: Key)
    requires Below(a, b) && Below(b, c)
    ensures Below(a, c)
  {
    StrNCmpTransitive(a, b, c, SEARCH_TEXT_MAX);
  }

  lemma BelowTotal(a: Key, b: Key)
    ensures Below(a, b) || a == b || Below(b, a)
    ensures Below(a, b) ==> a != b && !Below(b, a)
  {
    StrNCmpAntisymmetric(a, b, SEARCH_TEXT_MAX);
  }

  // ----- keys and their order, said directly

  /** Texts have the same key exactly if they agree in their first 128 characters: shorter texts only if they are the
      same. */
  lemma SameKey(a: string, b: string)
    ensures KeyOf(a) == KeyOf(b) <==>
            if |a| <= 128 && |b| <= 128 then a == b
            else |a| >= 128 && |b| >= 128 && forall i :: 0 <= i < 128 ==> a[i] == b[i]
  {
    assert |a| >= 128 ==> KeyOf(a) == a[..128];
    assert |b| >= 128 ==> KeyOf(b) == b[..128];
    if KeyOf(a) == KeyOf(b) && |a| >= 128 && |b| >= 128 {
      assert forall i :: 0 <= i < 128 ==> KeyOf(a)[i] == a[i] && KeyOf(b)[i] == b[i];
    }
  }

  /** The first place where two strings differ, or where one of them ends. */
  ghost predicate DifferAt(a: string, b: string, i: nat) {
    i <= |a| && i <= |b| && a[..i] == b[..i] && (i < |a| && i < |b| ==> a[i] != b[i])
  }

  /** A key is below another one if it ends first, or has the smaller character at the first place where they
      differ. */
  lemma BelowMeans(a: Key, b: Key, i: nat)
    requires DifferAt(a, b, i)
    ensures Below(a, b) <==> i < |b| && (i == |a| || a[i] < b[i])
  {
    CompareAt(a, b, i, SEARCH_TEXT_MAX);
  }

  lemma {:induction false} CompareAt(a: string, b: string, i: nat, n: nat)
    requires DifferAt(a, b, i) && |a| <= n && |b| <= n
    ensures StrNCmp(a, b, n) < 0 <==> i < |b| && (i == |a| || a[i] < b[i])
    decreases i
  {
    if i > 0 {
      assert a[0] == a[..i][0] == b[..i][0] == b[0];
      assert a[1..][..i - 1] == a[..i][1..] && b[1..][..i - 1] == b[..i][1..];
      CompareAt(a[1..], b[1..], i - 1, n - 1);
    }
  }

  /** There is such a place. */
  lemma {:induction false} SomewhereDiffer(a: string, b: string) returns (i: nat)
    ensures DifferAt(a, b, i)
  {
    if a == [] || b == [] || a[0] != b[0] {
      i := 0;
    } else {
      i := SomewhereDiffer(a[1..], b[1..]);
      i := i + 1;
      assert a[..i] == [a[0]] + a[1..][..i - 1] && b[..i] == [b[0]] + b[1..][..i - 1];
    }
  }
}
