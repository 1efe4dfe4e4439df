/**
 * The decoded query string of the incoming request, as `URLSearchParams` exposes it:
 * an ordered list of (name, value) pairs in which a name may repeat.
 */
module Query {
  import opened Wrappers

  type Params = seq<(string, string)>

  /** `searchParams.has(name)`: some pair carries the name. */
  predicate Has(q: Params, name: string) {
    exists i :: 0 <= i < |q| && q[i].0 == name
  }

  /** `searchParams.get(name)`: the value of the FIRST pair with that name, or none. */
  function Get(q: Params, name: string): (r: Option<string>)
    ensures r.Some? <==> Has(q, name)
    ensures r.Some? ==> exists i :: 0 <= i < |q| && q[i] == (name, r.value) &&
                                    forall j :: 0 <= j < i ==> q[j].0 != name
    decreases |q|
  {
    if |q| == 0 then None
    else if q[0].0 == name then Some(q[0].1)
    else
      var r := Get(q[1..], name);
      assert Has(q, name) ==> Has(q[1..], name) by {
        if Has(q, name) {
          var i :| 0 <= i < |q| && q[i].0 == name;
          assert q[1..][i - 1].0 == name;
        }
      }
      assert r.Some? ==> exists i :: 0 <= i < |q| && q[i] == (name, r.value) &&
                                     forall j :: 0 <= j < i ==> q[j].0 != name by {
        if r.Some? {
          var i :| 0 <= i < |q[1..]| && q[1..][i] == (name, r.value) &&
                   forall j :: 0 <= j < i ==> q[1..][j].0 != name;
          assert q[i + 1] == (name, r.value);
          assert forall j :: 0 <= j < i + 1 ==> q[j].0 != name by {
            forall j | 0 <= j < i + 1 ensures q[j].0 != name {
              if j > 0 { assert q[j] == q[1..][j - 1]; }
            }
          }
        }
      }
      r
  }

  /** A pair whose name is not `name` can be dropped without changing `get(name)`. */
  lemma {:induction false} GetSkip(q1: Params, x: (string, string), q2: Params, name: string)
    requires x.0 != name
    ensures Get(q1 + [x] + q2, name) == Get(q1 + q2, name)
    decreases |q1|
  {
    if |q1| == 0 {
      assert q1 + [x] + q2 == [x] + q2;
      assert ([x] + q2)[1..] == q2;
      assert q1 + q2 == q2;
    } else {
      GetSkip(q1[1..], x, q2, name);
      assert (q1 + [x] + q2)[1..] == q1[1..] + [x] + q2;
      assert (q1 + q2)[1..] == q1[1..] + q2;
    }
  }

  /** Appending a pair leaves `get` of every other name unchanged. */
  lemma GetAppendOther(q: Params, x: (string, string))
    ensures forall name :: name != x.0 ==> Get(q + [x], name) == Get(q, name)
  {
    forall name | name != x.0 ensures Get(q + [x], name) == Get(q, name) {
      GetSkip(q, x, [], name);
      assert q + [x] + [] == q + [x];
      assert q + [] == q;
    }
  }

  /** `get` on a list with one more pair at the end. */
  lemma GetAppend(q: Params, x: (string, string), name: string)
    ensures Get(q + [x], name) ==
              if Has(q, name) then Get(q, name) else if x.0 == name then Some(x.1) else None
  {
    if x.0 != name {
      GetAppendOther(q, x);
    } else if !Has(q, name) {
      assert (q + [x])[|q|] == x;
      var r := Get(q + [x], name);
      var i :| 0 <= i < |q + [x]| && (q + [x])[i] == (name, r.value) &&
               forall j :: 0 <= j < i ==> (q + [x])[j].0 != name;
      assert i == |q|;
    } else {
      var i :| 0 <= i < |q| && q[i] == (name, Get(q, name).value) &&
               forall j :: 0 <= j < i ==> q[j].0 != name;
      var r := Get(q + [x], name);
      var i' :| 0 <= i' < |q + [x]| && (q + [x])[i'] == (name, r.value) &&
                forall j :: 0 <= j < i' ==> (q + [x])[j].0 != name;
      assert (q + [x])[i] == q[i];
      assert i' <= i;
      assert i' >= i by {
        assert forall j :: 0 <= j < i ==> (q + [x])[j] == q[j];
      }
    }
  }
}
