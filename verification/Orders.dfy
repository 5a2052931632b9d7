/** Which of two elements comes first in a sequence. */
module Orders {

  /** a stands in front of b. */
  ghost predicate Ahead<T>(s: seq<T>, a: T, b: T) {
    exists j, k :: 0 <= j < k < |s| && s[j] == a && s[k] == b
  }

  lemma AheadAt<T>(s: seq<T>, j: nat, k: nat)
    requires j < k < |s|
    ensures Ahead(s, s[j], s[k])
  {
  }

  lemma AheadFront<T>(s: seq<T>, a: T, b: T)
    requires s != [] && Ahead(s, a, b)
    ensures Ahead(s[..|s| - 1], a, b) || (b == s[|s| - 1] && a in s[..|s| - 1])
  {
    var front := s[..|s| - 1];
    var j, k :| 0 <= j < k < |s| && s[j] == a && s[k] == b;
    assert front[j] == a;
    if k < |front| {
      assert front[k] == b;
    }
  }

  lemma AheadMore<T>(s: seq<T>, x: T, a: T, b: T)
    requires Ahead(s, a, b) || (a in s && b == x)
    ensures Ahead(s + [x], a, b)
  {
    if Ahead(s, a, b) {
      var j, k :| 0 <= j < k < |s| && s[j] == a && s[k] == b;
      assert (s + [x])[j] == a && (s + [x])[k] == b;
    } else {
      var j :| 0 <= j < |s| && s[j] == a;
      assert (s + [x])[j] == a && (s + [x])[|s|] == b;
    }
  }

  lemma AheadWithout<T>(s: seq<T>, i: nat, a: T, b: T)
    requires i < |s| && Ahead(s[..i] + s[i + 1..], a, b)
    ensures Ahead(s, a, b)
  {
    var r := s[..i] + s[i + 1..];
    var j, k :| 0 <= j < k < |r| && r[j] == a && r[k] == b;
    assert s[if j < i then j else j + 1] == a && s[if k < i then k else k + 1] == b;
  }
}
