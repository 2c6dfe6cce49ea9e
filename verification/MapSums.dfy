/** What a map holds, summed without regard to the order in which its keys are visited. */
module MapSums {

  function Get<K>(m: map<K, real>, k: K): real {
    if k in m then m[k] else 0.0
  }

  ghost function SumOver<K>(m: map<K, real>, ids: set<K>): real
    requires ids <= m.Keys
  {
    if ids == {} then 0.0
    else
      var id :| id in ids;
      SumOver(m, ids - {id}) + m[id]
  }

  lemma {:induction false} SumWith<K>(m: map<K, real>, ids: set<K>, id: K)
    requires ids <= m.Keys && id in m && id !in ids
    ensures SumOver(m, ids + {id}) == SumOver(m, ids) + m[id]
    decreases |ids|
  {
    var all := ids + {id};
    var first :| first in all && SumOver(m, all) == SumOver(m, all - {first}) + m[first];
    if first == id {
      assert all - {first} == ids;
    } else {
      assert all - {first} == ids - {first} + {id};
      SumWith(m, ids - {first}, id);
      SumWith(m, ids - {first}, first);
      assert ids - {first} + {first} == ids;
    }
  }

  lemma {:induction false} SumElsewhere<K>(m: map<K, real>, m': map<K, real>, ids: set<K>)
    requires ids <= m.Keys && ids <= m'.Keys && forall id :: id in ids ==> m[id] == m'[id]
    ensures SumOver(m, ids) == SumOver(m', ids)
    decreases |ids|
  {
    if ids != {} {
      var id :| id in ids;
      SumElsewhere(m, m', ids - {id});
      SumWith(m, ids - {id}, id);
      SumWith(m', ids - {id}, id);
      assert ids - {id} + {id} == ids;
    }
  }

  ghost function Sum<K>(m: map<K, real>): real {
    SumOver(m, m.Keys)
  }

  /** Setting one value moves the sum by the difference. */
  lemma SumAfterUpdate<K>(m: map<K, real>, k: K, v: real)
    ensures Sum(m[k := v]) == Sum(m) - Get(m, k) + v
  {
    var rest, m' := m.Keys - {k}, m[k := v];
    SumElsewhere(m, m', rest);
    SumWith(m', rest, k);
    assert m'.Keys == rest + {k};
    if k in m {
      SumWith(m, rest, k);
      assert m.Keys == rest + {k};
    } else {
      assert m.Keys == rest;
    }
  }

  lemma {:induction false} SumNonnegative<K>(m: map<K, real>, ids: set<K>)
    requires ids <= m.Keys && forall id :: id in ids ==> m[id] >= 0.0
    ensures SumOver(m, ids) >= 0.0
    decreases |ids|
  {
    if ids != {} {
      var id :| id in ids && SumOver(m, ids) == SumOver(m, ids - {id}) + m[id];
      SumNonnegative(m, ids - {id});
    }
  }

  method SumValues<K>(m: map<K, real>) returns (sum: real)
    ensures sum == Sum(m)
  {
    var todo := m.Keys;
    sum := 0.0;
    while todo != {}
      invariant todo <= m.Keys
      invariant sum == SumOver(m, m.Keys - todo)
      decreases |todo|
    {
      var k :| k in todo;
      SumWith(m, m.Keys - todo, k);
      assert m.Keys - (todo - {k}) == m.Keys - todo + {k};
      sum := sum + m[k];
      todo := todo - {k};
    }
    assert m.Keys - todo == m.Keys;
  }
}
