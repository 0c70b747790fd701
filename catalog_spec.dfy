/** The pure parts of the catalog handlers: `find`, `findIndex` and `filter` over the
    product sequence, the uniqueness of ids, and how these interact with the updates
    the handlers perform (append, point update, filter). */
module CatalogSpec {
  import opened ProductModel

  // A lookup key is the `:id` route parameter, which is always a string; a record matches it
  // (`p.id === key`) exactly when the record's id is that same string.

  /** Some record of `s` has the id `key`. */
  ghost predicate HasId(s: seq<Product>, key: string) {
    exists k :: 0 <= k < |s| && s[k].id == Str(key)
  }

  /** No two records of `s` share an id. */
  ghost predicate UniqueIds(s: seq<Product>) {
    forall i, j :: 0 <= i < j < |s| ==> s[i].id != s[j].id
  }

  /** Every record of `s` is as JSON decoding produces it. */
  ghost predicate AllWellFormed(s: seq<Product>) {
    forall p :: p in s ==> WellFormed(p)
  }

  /** `products.findIndex(p => p.id === key)`: the first matching index, or -1. */
  function FindIndex(s: seq<Product>, key: string): (i: int)
    ensures -1 <= i < |s|
    ensures i == -1 <==> !HasId(s, key)
    ensures 0 <= i ==> s[i].id == Str(key) && forall k :: 0 <= k < i ==> s[k].id != Str(key)
  {
    if s == [] then -1
    else if s[0].id == Str(key) then 0
    else
      var j := FindIndex(s[1..], key);
      assert forall k :: 1 <= k < |s| ==> s[k] == s[1..][k - 1];
      if j == -1 then -1 else j + 1
  }

  /** `products.find(p => p.id === key)`: some matching record of `s`, or `undefined`. */
  function Find(s: seq<Product>, key: string): (r: Option<Product>)
    ensures r.Some? <==> HasId(s, key)
    ensures r.Some? ==> r.value.id == Str(key) && r.value in s
  {
    if s == [] then None
    else if s[0].id == Str(key) then Some(s[0])
    else
      assert forall k :: 1 <= k < |s| ==> s[k] == s[1..][k - 1];
      Find(s[1..], key)
  }

  /** `products.filter(p => p.id !== key)`: the records whose id differs, nothing else. */
  function RemoveId(s: seq<Product>, key: string): (r: seq<Product>)
    ensures |r| <= |s|
    ensures forall p :: p in r <==> p in s && p.id != Str(key)
    ensures |r| == |s| <==> !HasId(s, key)
  {
    if s == [] then []
    else
      assert forall k :: 1 <= k < |s| ==> s[k] == s[1..][k - 1];
      if s[0].id == Str(key) then RemoveId(s[1..], key)
      else [s[0]] + RemoveId(s[1..], key)
  }

  /** `find` and `findIndex` agree: `find` yields the record at the first matching index. */
  lemma {:induction false} FindIsFirstMatch(s: seq<Product>, key: string)
    ensures Find(s, key) == if FindIndex(s, key) == -1 then None else Some(s[FindIndex(s, key)])
  {
    if s != [] && s[0].id != Str(key) {
      FindIsFirstMatch(s[1..], key);
    }
  }

  /** Filtering distributes over concatenation, so the records it keeps stay in their
      original relative order. */
  lemma {:induction false} RemoveIdAppend(a: seq<Product>, b: seq<Product>, key: string)
    ensures RemoveId(a + b, key) == RemoveId(a, key) + RemoveId(b, key)
  {
    if a == [] {
      assert a + b == b;
    } else {
      assert (a + b)[1..] == a[1..] + b;
      RemoveIdAppend(a[1..], b, key);
    }
  }

  /** Deleting the middle one of three records with distinct ids leaves the other two in order. */
  lemma DeleteMiddle(a: Product, b: Product, c: Product, key: string)
    requires b.id == Str(key) && a.id != b.id && c.id != b.id
    ensures RemoveId([a, b, c], key) == [a, c]
  {
    RemoveIdAppend([a], [b, c], key);
    RemoveIdAppend([b], [c], key);
  }

  /** Prepending a record whose id is new keeps ids unique. */
  lemma ConsKeepsUnique(p: Product, t: seq<Product>)
    requires UniqueIds(t)
    requires forall q :: q in t ==> q.id != p.id
    ensures UniqueIds([p] + t)
  {
    var s := [p] + t;
    forall i, j | 0 <= i < j < |s|
      ensures s[i].id != s[j].id
    {
      assert s[j] == t[j - 1];
      if i > 0 {
        assert s[i] == t[i - 1];
      }
    }
  }

  /** Deleting keeps ids unique. */
  lemma {:induction false} RemoveIdKeepsUnique(s: seq<Product>, key: string)
    requires UniqueIds(s)
    ensures UniqueIds(RemoveId(s, key))
  {
    if s != [] {
      var tail := s[1..];
      assert UniqueIds(tail) by {
        forall i, j | 0 <= i < j < |tail|
          ensures tail[i].id != tail[j].id
        {
          assert tail[i] == s[i + 1] && tail[j] == s[j + 1];
        }
      }
      RemoveIdKeepsUnique(tail, key);
      if s[0].id != Str(key) {
        forall q | q in RemoveId(tail, key)
          ensures q.id != s[0].id
        {
          var k :| 0 <= k < |tail| && tail[k] == q;
          assert s[k + 1] == q;
        }
        ConsKeepsUnique(s[0], RemoveId(tail, key));
      }
    }
  }

  /** Round trip: after appending a record whose id was absent, looking that id up
      finds exactly the appended record. */
  lemma {:induction false} FindAfterAppend(s: seq<Product>, p: Product, key: string)
    requires p.id == Str(key) && !HasId(s, key)
    ensures Find(s + [p], key) == Some(p)
  {
    if s == [] {
      assert s + [p] == [p];
    } else {
      assert s[0].id != p.id;
      assert (s + [p])[1..] == s[1..] + [p];
      assert !HasId(s[1..], key) by {
        forall k | 0 <= k < |s[1..]|
          ensures s[1..][k].id != p.id
        {
          assert s[1..][k] == s[k + 1];
        }
      }
      FindAfterAppend(s[1..], p, key);
    }
  }

  /** Round trip: after overwriting the first record with a given id by a record that keeps
      the id, looking the id up finds the new record. */
  lemma FindAfterUpdate(s: seq<Product>, key: string, q: Product)
    requires HasId(s, key)
    requires q.id == Str(key)
    ensures Find(s[FindIndex(s, key) := q], key) == Some(q)
  {
    var i := FindIndex(s, key);
    var t := s[i := q];
    assert t[i].id == Str(key);
    var j := FindIndex(t, key);
    assert j != -1 by {
      assert HasId(t, key);
    }
    assert j == i;
    FindIsFirstMatch(t, key);
  }

  /** Overwriting a record by one with the same id keeps ids unique. */
  lemma UpdateKeepsUnique(s: seq<Product>, i: nat, q: Product)
    requires UniqueIds(s)
    requires i < |s| && q.id == s[i].id
    ensures UniqueIds(s[i := q])
  {
    var t := s[i := q];
    forall a, b | 0 <= a < b < |t|
      ensures t[a].id != t[b].id
    {
      assert t[a].id == s[a].id && t[b].id == s[b].id;
    }
  }

  /** Appending a record whose id is absent keeps ids unique. */
  lemma AppendKeepsUnique(s: seq<Product>, p: Product, key: string)
    requires UniqueIds(s)
    requires p.id == Str(key) && !HasId(s, key)
    ensures UniqueIds(s + [p])
  {
    var t := s + [p];
    forall a, b | 0 <= a < b < |t|
      ensures t[a].id != t[b].id
    {
      assert t[a] == s[a];
      if b < |s| {
        assert t[b] == s[b];
      }
    }
  }
}
