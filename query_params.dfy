/** `mapParamsToObject`: the ordered key/value pairs of a query string folded into a plain
    dictionary, later pairs overwriting earlier ones. */
module QueryParams {

  import opened Wrappers

  /** Assigning this key on a plain object calls the prototype setter, which ignores a string
      value, so the key never becomes an entry. */
  const ProtoKey := "__proto__"

  /** `params[key] = value` on a plain object. */
  function Assign(params: map<string, string>, key: string, value: string): map<string, string> {
    if key == ProtoKey then params else params[key := value]
  }

  /** The dictionary after every pair of `pairs` has been assigned, in order. */
  function Fold(pairs: seq<(string, string)>): map<string, string> {
    if |pairs| == 0 then map[]
    else Assign(Fold(pairs[..|pairs| - 1]), pairs[|pairs| - 1].0, pairs[|pairs| - 1].1)
  }

  function KeysOf(pairs: seq<(string, string)>): set<string> {
    set i | 0 <= i < |pairs| :: pairs[i].0
  }

  /** The value of the last pair whose key is `k`, if there is one. */
  function LastValue(pairs: seq<(string, string)>, k: string): (r: Option<string>)
    ensures r.None? <==> forall i :: 0 <= i < |pairs| ==> pairs[i].0 != k
    ensures r.Some? ==> LastPairOf(pairs, k, r.value)
  {
    if |pairs| == 0 then None
    else if pairs[|pairs| - 1].0 == k then
      assert LastPairAt(pairs, k, pairs[|pairs| - 1].1, |pairs| - 1);
      Some(pairs[|pairs| - 1].1)
    else
      var r := LastValue(pairs[..|pairs| - 1], k);
      LastValueStep(pairs, k, r);
      r
  }

  /** The pair at `i` is `(k, v)` and no later pair has key `k`. */
  predicate LastPairAt(pairs: seq<(string, string)>, k: string, v: string, i: int) {
    0 <= i < |pairs| && pairs[i] == (k, v) && forall j :: i < j < |pairs| ==> pairs[j].0 != k
  }

  predicate LastPairOf(pairs: seq<(string, string)>, k: string, v: string) {
    exists i :: 0 <= i < |pairs| && LastPairAt(pairs, k, v, i)
  }

  /** A last pair of `k` before a final pair with another key is still the last one. */
  lemma LastValueStep(pairs: seq<(string, string)>, k: string, r: Option<string>)
    requires |pairs| > 0 && pairs[|pairs| - 1].0 != k
    requires var init := pairs[..|pairs| - 1];
      (r.None? <==> forall i :: 0 <= i < |init| ==> init[i].0 != k)
      && (r.Some? ==> LastPairOf(init, k, r.value))
    ensures r.None? <==> forall i :: 0 <= i < |pairs| ==> pairs[i].0 != k
    ensures r.Some? ==> LastPairOf(pairs, k, r.value)
  {
    var init := pairs[..|pairs| - 1];
    if r.Some? {
      var i :| 0 <= i < |init| && LastPairAt(init, k, r.value, i);
      assert pairs[i] == init[i];
      assert forall j :: i < j < |init| ==> pairs[j] == init[j];
      assert LastPairAt(pairs, k, r.value, i);
    } else {
      assert forall i :: 0 <= i < |init| ==> init[i] == pairs[i];
    }
  }

  /** The entries are the keys that occur, except the prototype key, each holding the value of
      its last pair. */
  lemma {:induction false} FoldMeaning(pairs: seq<(string, string)>)
    ensures Fold(pairs).Keys == KeysOf(pairs) - {ProtoKey}
    ensures forall k :: k in Fold(pairs) ==> LastValue(pairs, k) == Some(Fold(pairs)[k])
  {
    if |pairs| > 0 {
      var init, last := pairs[..|pairs| - 1], pairs[|pairs| - 1];
      FoldMeaning(init);
      assert pairs == init + [last];
      assert KeysOf(pairs) == KeysOf(init) + {last.0} by {
        forall k | k in KeysOf(pairs)
          ensures k in KeysOf(init) + {last.0}
        {
          var i :| 0 <= i < |pairs| && pairs[i].0 == k;
          if i < |pairs| - 1 {
            assert init[i] == pairs[i];
          }
        }
        forall k | k in KeysOf(init)
          ensures k in KeysOf(pairs)
        {
          var i :| 0 <= i < |init| && init[i].0 == k;
          assert pairs[i] == init[i];
        }
      }
    }
  }

  /** No pairs, no entries. */
  lemma FoldEmpty()
    ensures Fold([]) == map[]
  {
  }

  /** With distinct keys each pair's key holds that pair's own value, and nothing else is stored. */
  lemma FoldDistinct(pairs: seq<(string, string)>)
    requires forall i, j :: 0 <= i < j < |pairs| ==> pairs[i].0 != pairs[j].0
    ensures forall i :: 0 <= i < |pairs| && pairs[i].0 != ProtoKey
                        ==> pairs[i].0 in Fold(pairs) && Fold(pairs)[pairs[i].0] == pairs[i].1
    ensures forall k :: k in Fold(pairs) ==> exists i :: 0 <= i < |pairs| && pairs[i].0 == k
  {
    FoldMeaning(pairs);
    forall i | 0 <= i < |pairs| && pairs[i].0 != ProtoKey
      ensures pairs[i].0 in Fold(pairs) && Fold(pairs)[pairs[i].0] == pairs[i].1
    {
      var k := pairs[i].0;
      assert k in KeysOf(pairs);
      var v := LastValue(pairs, k).value;
      var m :| 0 <= m < |pairs| && LastPairAt(pairs, k, v, m);
      assert pairs[m].0 == pairs[i].0;
      assert m == i;
    }
  }

  /** The last pair of a repeated key wins. */
  lemma FoldLastWins(pairs: seq<(string, string)>, k: string, v: string)
    requires k != ProtoKey
    ensures Fold(pairs + [(k, v)])[k] == v
  {
    assert (pairs + [(k, v)])[..|pairs|] == pairs;
  }

  /** `searchParams.forEach((value, key) => { params[key] = value; })`. */
  method MapParamsToObject(pairs: seq<(string, string)>) returns (params: map<string, string>)
    ensures params == Fold(pairs)
    ensures params.Keys == KeysOf(pairs) - {ProtoKey}
    ensures forall k :: k in params ==> LastValue(pairs, k) == Some(params[k])
  {
    params := map[];
    for n := 0 to |pairs|
      invariant params == Fold(pairs[..n])
    {
      var (key, value) := pairs[n];
      if key != ProtoKey {
        params := params[key := value];
      }
      assert pairs[..n + 1][..n] == pairs[..n];
    }
    assert pairs[..|pairs|] == pairs;
    FoldMeaning(pairs);
  }
}
