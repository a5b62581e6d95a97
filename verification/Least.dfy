/** The least element of a non-empty set of naturals. */
module Least {
  ghost predicate IsLeast(k: nat, keys: set<nat>) {
    k in keys && forall j | j in keys :: k <= j
  }

  lemma {:induction false} LeastExists(keys: set<nat>)
    requires keys != {}
    ensures exists k :: IsLeast(k, keys)
    decreases |keys|
  {
    var k :| k in keys;
    if keys != {k} {
      LeastExists(keys - {k});
      var j :| IsLeast(j, keys - {k});
      assert forall i | i in keys :: i == k || i in keys - {k};
      assert IsLeast(if j < k then j else k, keys);
    } else {
      assert IsLeast(k, keys);
    }
  }
}
