/**
 * Lists of records keyed by a string id: the `map`/`filter`/`find` idioms
 * that every editor of the writers' room applies to scenes, characters and
 * locations. `idOf` reads a record's id.
 */
module Records {

  import opened Types

  /** No two records share an id. */
  predicate UniqueIds<T>(xs: seq<T>, idOf: T -> string) {
    forall i, j :: 0 <= i < j < |xs| ==> idOf(xs[i]) != idOf(xs[j])
  }

  /** Some record has id `key`. */
  predicate HasId<T>(xs: seq<T>, key: string, idOf: T -> string) {
    exists i :: 0 <= i < |xs| && idOf(xs[i]) == key
  }

  /** `a` is `b` with zero or more records left out, the rest in their order. */
  predicate Subsequence<T(==)>(a: seq<T>, b: seq<T>)
    decreases |b|
  {
    if |a| == 0 then true
    else if |b| == 0 then false
    else (a[0] == b[0] && Subsequence(a[1..], b[1..])) || Subsequence(a, b[1..])
  }

  /** How many records have id `key`. */
  function CountId<T>(xs: seq<T>, key: string, idOf: T -> string): (n: nat)
    ensures n <= |xs|
    ensures n == 0 <==> !HasId(xs, key, idOf)
  {
    if |xs| == 0 then 0
    else
      assert forall i :: 1 <= i < |xs| ==> xs[i] == xs[1..][i - 1];
      (if idOf(xs[0]) == key then 1 else 0) + CountId(xs[1..], key, idOf)
  }

  /** `xs.find(x => idOf(x) === key)`, as the index it stops at. */
  function FindId<T>(xs: seq<T>, key: string, idOf: T -> string): (r: Option<nat>)
    ensures r.None? <==> !HasId(xs, key, idOf)
    ensures r.Some? ==> r.value < |xs| && idOf(xs[r.value]) == key
    ensures r.Some? ==> forall k :: 0 <= k < r.value ==> idOf(xs[k]) != key
  {
    if |xs| == 0 then None
    else if idOf(xs[0]) == key then Some(0)
    else
      match FindId(xs[1..], key, idOf)
      case None => None
      case Some(k) => Some(k + 1)
  }

  /** `xs.map(x => idOf(x) === key ? f(x) : x)`: every record with id `key`
      is replaced by its image under `f`, every other record stays where it is. */
  function UpdateWhere<T>(xs: seq<T>, key: string, idOf: T -> string, f: T -> T): (r: seq<T>)
    ensures |r| == |xs|
    ensures forall i :: 0 <= i < |xs| ==> r[i] == (if idOf(xs[i]) == key then f(xs[i]) else xs[i])
  {
    if |xs| == 0 then []
    else [if idOf(xs[0]) == key then f(xs[0]) else xs[0]] + UpdateWhere(xs[1..], key, idOf, f)
  }

  /** Updating an id nobody has changes nothing. */
  lemma UpdateWhereAbsent<T>(xs: seq<T>, key: string, idOf: T -> string, f: T -> T)
    requires !HasId(xs, key, idOf)
    ensures UpdateWhere(xs, key, idOf, f) == xs
  {
    var r := UpdateWhere(xs, key, idOf, f);
    assert forall i :: 0 <= i < |xs| ==> r[i] == xs[i];
  }

  /** With distinct ids, updating the id of record `k` changes record `k` and no other. */
  lemma UpdateWhereOne<T>(xs: seq<T>, k: nat, idOf: T -> string, f: T -> T)
    requires UniqueIds(xs, idOf)
    requires k < |xs|
    ensures UpdateWhere(xs, idOf(xs[k]), idOf, f) == xs[k := f(xs[k])]
  {
    var r := UpdateWhere(xs, idOf(xs[k]), idOf, f);
    forall i | 0 <= i < |xs| ensures r[i] == xs[k := f(xs[k])][i] {
      if i != k {
        assert idOf(xs[i]) != idOf(xs[k]) by {
          if i < k { assert idOf(xs[i]) != idOf(xs[k]); } else { assert idOf(xs[k]) != idOf(xs[i]); }
        }
      }
    }
  }

  /** An update that keeps ids keeps the ids of the whole list. */
  lemma UpdateWhereKeepsIds<T>(xs: seq<T>, key: string, idOf: T -> string, f: T -> T)
    requires forall i :: 0 <= i < |xs| ==> idOf(f(xs[i])) == idOf(xs[i])
    ensures var r := UpdateWhere(xs, key, idOf, f);
      forall i :: 0 <= i < |xs| ==> idOf(r[i]) == idOf(xs[i])
  {
  }

  /** `xs.filter(x => idOf(x) !== key)`. */
  function RemoveWhere<T(==)>(xs: seq<T>, key: string, idOf: T -> string): (r: seq<T>)
    ensures forall i :: 0 <= i < |r| ==> r[i] in xs && idOf(r[i]) != key
    ensures forall i :: 0 <= i < |xs| && idOf(xs[i]) != key ==> xs[i] in r
    ensures |r| == |xs| - CountId(xs, key, idOf)
    ensures Subsequence(r, xs)
  {
    if |xs| == 0 then []
    else
      var rest := RemoveWhere(xs[1..], key, idOf);
      assert forall i :: 1 <= i < |xs| ==> xs[i] == xs[1..][i - 1];
      if idOf(xs[0]) == key then
        assert Subsequence(rest, xs) by { SubsequenceDropHead(rest, xs); }
        rest
      else
        assert ([xs[0]] + rest)[1..] == rest;
        [xs[0]] + rest
  }

  lemma SubsequenceDropHead<T>(a: seq<T>, b: seq<T>)
    requires |b| > 0 && Subsequence(a, b[1..])
    ensures Subsequence(a, b)
  {
  }

  /** Removing records never makes two ids equal. */
  lemma {:induction false} RemoveKeepsUnique<T>(xs: seq<T>, key: string, idOf: T -> string)
    requires UniqueIds(xs, idOf)
    ensures UniqueIds(RemoveWhere(xs, key, idOf), idOf)
  {
    if |xs| > 0 {
      var tail := xs[1..];
      var rest := RemoveWhere(tail, key, idOf);
      assert UniqueIds(tail, idOf) by {
        forall i, j | 0 <= i < j < |tail| ensures idOf(tail[i]) != idOf(tail[j]) {
          assert tail[i] == xs[i + 1] && tail[j] == xs[j + 1];
        }
      }
      RemoveKeepsUnique(tail, key, idOf);
      if idOf(xs[0]) != key {
        HeadNotInTail(xs, idOf);
        var r := [xs[0]] + rest;
        assert forall j :: 1 <= j < |r| ==> r[j] == rest[j - 1];
      }
    }
  }

  /** With distinct ids, no later record (nor anything taken from them) has the first record's id. */
  lemma HeadNotInTail<T>(xs: seq<T>, idOf: T -> string)
    requires UniqueIds(xs, idOf) && |xs| > 0
    ensures forall y :: y in xs[1..] ==> idOf(y) != idOf(xs[0])
  {
    forall y | y in xs[1..] ensures idOf(y) != idOf(xs[0]) {
      var m :| 0 <= m < |xs[1..]| && xs[1..][m] == y;
      assert xs[m + 1] == y;
    }
  }

  /** Removing an id nobody has changes nothing. */
  lemma {:induction false} RemoveWhereAbsent<T>(xs: seq<T>, key: string, idOf: T -> string)
    requires !HasId(xs, key, idOf)
    ensures RemoveWhere(xs, key, idOf) == xs
  {
    if |xs| > 0 {
      assert forall i :: 0 <= i < |xs[1..]| ==> xs[1..][i] == xs[i + 1];
      RemoveWhereAbsent(xs[1..], key, idOf);
    }
  }

  /** Removing a key drops a last record that carries it. */
  lemma {:induction false} RemoveWhereAppend<T>(xs: seq<T>, x: T, key: string, idOf: T -> string)
    requires idOf(x) == key
    ensures RemoveWhere(xs + [x], key, idOf) == RemoveWhere(xs, key, idOf)
    decreases |xs|
  {
    if |xs| == 0 {
      assert ([x])[1..] == [];
    } else {
      assert (xs + [x])[1..] == xs[1..] + [x];
      RemoveWhereAppend(xs[1..], x, key, idOf);
    }
  }

  /** With distinct ids, at most one record has any given id. */
  lemma {:induction false} CountIdUnique<T>(xs: seq<T>, key: string, idOf: T -> string)
    requires UniqueIds(xs, idOf)
    ensures CountId(xs, key, idOf) <= 1
  {
    if |xs| > 0 {
      var tail := xs[1..];
      assert UniqueIds(tail, idOf) by {
        forall i, j | 0 <= i < j < |tail| ensures idOf(tail[i]) != idOf(tail[j]) {
          assert tail[i] == xs[i + 1] && tail[j] == xs[j + 1];
        }
      }
      CountIdUnique(tail, key, idOf);
      if idOf(xs[0]) == key {
        HeadNotInTail(xs, idOf);
        assert !HasId(tail, key, idOf) by {
          forall i | 0 <= i < |tail| ensures idOf(tail[i]) != key {
            assert tail[i] in xs[1..];
          }
        }
      }
    }
  }
}
