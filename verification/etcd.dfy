/**
 * The etcd keyspace as the handlers see it. Values are kept in decoded form:
 * json.Unmarshal either yields a task or fails. A range read returns keys in
 * ascending byte order, which is the order etcd's range responses use; for
 * UTF-8 keys byte order and code-point order coincide.
 */
module Etcd {
  import opened Models

  /** A stored value after json.Unmarshal: a task, or bytes that do not decode as one. */
  datatype Stored = Valid(task: Task) | Corrupt

  predicate HasPrefix(key: string, prefix: string)
  {
    |prefix| <= |key| && key[..|prefix|] == prefix
  }

  /** Lexicographic order on keys. */
  predicate KeyLe(a: string, b: string)
    decreases |a|
  {
    if |a| == 0 then true
    else if |b| == 0 then false
    else if a[0] != b[0] then a[0] < b[0]
    else KeyLe(a[1..], b[1..])
  }

  lemma {:induction false} KeyLeTotal(a: string, b: string)
    ensures KeyLe(a, b) || KeyLe(b, a)
    decreases |a|
  {
    if |a| > 0 && |b| > 0 && a[0] == b[0] {
      KeyLeTotal(a[1..], b[1..]);
    }
  }

  lemma {:induction false} KeyLeAntisymmetric(a: string, b: string)
    requires KeyLe(a, b) && KeyLe(b, a)
    ensures a == b
    decreases |a|
  {
    if |a| > 0 && |b| > 0 {
      KeyLeAntisymmetric(a[1..], b[1..]);
      assert a == [a[0]] + a[1..] && b == [b[0]] + b[1..];
    }
  }

  lemma {:induction false} KeyLeTransitive(a: string, b: string, c: string)
    requires KeyLe(a, b) && KeyLe(b, c)
    ensures KeyLe(a, c)
    decreases |a|
  {
    if |a| > 0 && |b| > 0 && |c| > 0 && a[0] == b[0] && b[0] == c[0] {
      KeyLeTransitive(a[1..], b[1..], c[1..]);
    }
  }

  /** A non-empty finite set of keys has a least element. */
  lemma {:induction false} LeastKeyExists(s: set<string>)
    requires s != {}
    ensures exists m :: m in s && forall x :: x in s ==> KeyLe(m, x)
    decreases s
  {
    var y :| y in s;
    if s == {y} {
      KeyLeTotal(y, y);
    } else {
      LeastKeyExists(s - {y});
      var m :| m in s - {y} && forall x :: x in s - {y} ==> KeyLe(m, x);
      KeyLeTotal(m, y);
      if KeyLe(m, y) {
        assert forall x :: x in s ==> KeyLe(m, x);
      } else {
        forall x | x in s
          ensures KeyLe(y, x)
        {
          if x == y { KeyLeTotal(y, y); } else { KeyLeTransitive(y, m, x); }
        }
      }
    }
  }

  /** The keys of a set in ascending order. */
  function SortedKeys(s: set<string>): (keys: seq<string>)
    ensures |keys| == |s|
    ensures forall k :: k in keys <==> k in s
    ensures forall i, j :: 0 <= i < j < |keys| ==> KeyLe(keys[i], keys[j]) && keys[i] != keys[j]
    decreases s
  {
    if s == {} then []
    else
      LeastKeyExists(s);
      assert forall a, b :: a in s && b in s && KeyLe(a, b) && KeyLe(b, a) ==> a == b by {
        forall a, b | a in s && b in s && KeyLe(a, b) && KeyLe(b, a) ensures a == b {
          KeyLeAntisymmetric(a, b);
        }
      }
      var m :| m in s && forall x :: x in s ==> KeyLe(m, x);
      var rest := SortedKeys(s - {m});
      PrependLeast(s, m, rest);
      [m] + rest
  }

  /** Putting the least key of s before the sorted rest of s sorts s. */
  lemma PrependLeast(s: set<string>, m: string, rest: seq<string>)
    requires m in s && forall x :: x in s ==> KeyLe(m, x)
    requires |rest| == |s - {m}|
    requires forall k :: k in rest <==> k in s - {m}
    requires forall i, j :: 0 <= i < j < |rest| ==> KeyLe(rest[i], rest[j]) && rest[i] != rest[j]
    ensures |[m] + rest| == |s|
    ensures forall k :: k in [m] + rest <==> k in s
    ensures forall i, j :: 0 <= i < j < |[m] + rest| ==> KeyLe(([m] + rest)[i], ([m] + rest)[j]) && ([m] + rest)[i] != ([m] + rest)[j]
  {
    assert forall j :: 0 <= j < |rest| ==> rest[j] in s - {m};
  }

  /** A range read over a prefix: every key that starts with it, once each, in ascending order. */
  function Range(kv: map<string, Stored>, prefix: string): (keys: seq<string>)
    ensures forall k :: k in keys <==> k in kv && HasPrefix(k, prefix)
    ensures forall i, j :: 0 <= i < j < |keys| ==> KeyLe(keys[i], keys[j]) && keys[i] != keys[j]
  {
    SortedKeys(set k | k in kv && HasPrefix(k, prefix))
  }

  /** k is the least key of kv under the prefix. */
  ghost predicate IsLeastKey(kv: map<string, Stored>, prefix: string, k: string)
  {
    k in kv && HasPrefix(k, prefix) && forall k' :: k' in kv && HasPrefix(k', prefix) ==> KeyLe(k, k')
  }

  /** The first key of a non-empty range read is the least key under the prefix. */
  lemma RangeStartsWithLeast(kv: map<string, Stored>, prefix: string)
    requires Range(kv, prefix) != []
    ensures IsLeastKey(kv, prefix, Range(kv, prefix)[0])
  {
  }

  /** The etcd client: the keyspace it reaches, with put and delete calls that may fail. */
  class Client {
    var kv: map<string, Stored>

    constructor ()
      ensures kv == map[]
    {
      kv := map[];
    }

    /** Put upserts the key unless the backend fails (timeout or lost connection). */
    method Put(key: string, value: Stored, fails: bool) returns (err: bool)
      modifies this
      ensures err == fails
      ensures kv == if fails then old(kv) else old(kv)[key := value]
    {
      err := fails;
      if !fails {
        kv := kv[key := value];
      }
    }

    /** Delete removes the key, and is no error when it is absent, unless the backend fails. */
    method Delete(key: string, fails: bool) returns (err: bool)
      modifies this
      ensures err == fails
      ensures kv == if fails then old(kv) else old(kv) - {key}
    {
      err := fails;
      if !fails {
        kv := kv - {key};
      }
    }
  }
}
