/** Small vocabulary shared by the models: optional values, bytes and
    duplicate-free sequences. */
module Collections {

  datatype Option<+T> = None | Some(value: T)

  type byte = x: int | 0 <= x < 256

  /** The name the server gives a tunnel. */
  datatype TunnelID = TunnelID(text: string)

  ghost predicate NoDup<T>(s: seq<T>) {
    forall i, j :: 0 <= i < j < |s| ==> s[i] != s[j]
  }

  function Repeat<T>(x: T, n: nat): (s: seq<T>)
    ensures |s| == n && forall i :: 0 <= i < n ==> s[i] == x
  {
    seq(n, _ => x)
  }

  /** The elements of s outside `gone`, in their original order. */
  function Without<T(==)>(s: seq<T>, gone: set<T>): (r: seq<T>)
  {
    if s == [] then []
    else if s[0] in gone then Without(s[1..], gone)
    else [s[0]] + Without(s[1..], gone)
  }

  lemma {:induction false} WithoutElements<T>(s: seq<T>, gone: set<T>)
    ensures Elements(Without(s, gone)) == Elements(s) - gone
  {
    if s != [] {
      WithoutElements(s[1..], gone);
      assert Elements(s) == {s[0]} + Elements(s[1..]);
      var t := Without(s[1..], gone);
      assert Elements([s[0]] + t) == {s[0]} + Elements(t);
    }
  }

  lemma {:induction false} WithoutKeepsNoDup<T>(s: seq<T>, gone: set<T>)
    requires NoDup(s)
    ensures NoDup(Without(s, gone))
  {
    if s != [] {
      WithoutKeepsNoDup(s[1..], gone);
      WithoutElements(s[1..], gone);
      var t := Without(s[1..], gone);
      assert s[0] !in Elements(s[1..]);
      assert s[0] !in Elements(t);
    }
  }

  lemma {:induction false} WithoutNothing<T>(s: seq<T>, gone: set<T>)
    requires forall i :: 0 <= i < |s| ==> s[i] !in gone
    ensures Without(s, gone) == s
  {
    if s != [] {
      WithoutNothing(s[1..], gone);
    }
  }

  /** Splicing out one index of a duplicate-free sequence removes that element. */
  lemma {:induction false} SpliceIsWithout<T>(s: seq<T>, i: nat)
    requires NoDup(s) && i < |s|
    ensures s[..i] + s[i + 1..] == Without(s, {s[i]})
  {
    var t := s[1..];
    if i == 0 {
      WithoutNothing(t, {s[0]});
      assert s[..0] + t == t;
    } else {
      SpliceIsWithout(t, i - 1);
      assert s[..i] + s[i + 1..] == [s[0]] + (t[..i - 1] + t[i..]);
    }
  }

  ghost function Elements<T>(s: seq<T>): set<T> {
    set x | x in s
  }

  lemma ElementsTake<T>(s: seq<T>, i: nat)
    requires i < |s|
    ensures Elements(s[..i + 1]) == Elements(s[..i]) + {s[i]}
  {
    assert s[..i + 1] == s[..i] + [s[i]];
  }

  lemma {:induction false} NoDupCardinality<T>(s: seq<T>)
    requires NoDup(s)
    ensures |Elements(s)| == |s|
  {
    if s != [] {
      var t, last := s[..|s| - 1], s[|s| - 1];
      NoDupCardinality(t);
      assert s == t + [last];
      assert last !in t;
      assert Elements(s) == Elements(t) + {last};
    }
  }
}
