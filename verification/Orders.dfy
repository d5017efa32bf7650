/** Finite sets of numbers, listed in ascending order. */
module Orders {
  ghost function Least(keys: set<nat>): (k: nat)
    requires keys != {}
    ensures k in keys && forall j | j in keys :: k <= j
  {
    var k :| k in keys;
    assert forall j | j in keys :: j == k || j in keys - {k};
    if keys - {k} == {} then k
    else
      var rest := Least(keys - {k});
      if k < rest then k else rest
  }

  ghost function InOrder(keys: set<nat>): seq<nat> {
    if keys == {} then [] else [Least(keys)] + InOrder(keys - {Least(keys)})
  }

  lemma {:induction false} InOrderIsOrder(keys: set<nat>)
    ensures |InOrder(keys)| == |keys|
    ensures forall i | 0 <= i < |keys| :: InOrder(keys)[i] in keys
    ensures forall i, j | 0 <= i < j < |keys| :: InOrder(keys)[i] < InOrder(keys)[j]
    ensures forall m | m in keys :: m in InOrder(keys)
  {
    hide Least;
    if keys != {} {
      var k := Least(keys);
      var fewer := keys - {k};
      InOrderIsOrder(fewer);
      assert forall m | m in keys :: m == k || m in fewer;
    }
  }

  predicate Rising(s: seq<nat>) {
    forall i, j | 0 <= i < j < |s| :: s[i] < s[j]
  }

  /** There is only one ascending listing. */
  lemma {:induction false} RisingIsInOrder(s: seq<nat>, keys: set<nat>)
    requires Rising(s)
    requires forall k :: k in keys <==> k in s
    ensures s == InOrder(keys)
  {
    hide Least;
    if s == [] {
      assert keys == {};
    } else {
      assert s[0] in keys && Least(keys) in s;
      assert Least(keys) == s[0];
      forall k
        ensures k in keys - {s[0]} <==> k in s[1..]
      {
        if k in s && k != s[0] {
          var i :| 0 <= i < |s| && s[i] == k;
          assert s[1..][i - 1] == k;
        }
      }
      RisingIsInOrder(s[1..], keys - {s[0]});
    }
  }

  method Sort(keys: set<nat>) returns (s: seq<nat>)
    ensures s == InOrder(keys) && Rising(s)
    ensures forall k :: k in keys <==> k in s
  {
    hide Least;
    s := [];
    var rest := keys;
    while rest != {}
      invariant s + InOrder(rest) == InOrder(keys)
      decreases rest
    {
      ghost var least := Least(rest);
      var k :| k in rest && forall j | j in rest :: k <= j;
      assert k == least;
      s := s + [k];
      rest := rest - {k};
    }
    InOrderIsOrder(keys);
  }
}
