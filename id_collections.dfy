/**
 * The three ways the finance store changes a collection of records that carry an `id`
 * (src/context/FinanceContext.tsx): append a record, `map` it replacing the record(s)
 * with a given id, and `filter` out the record(s) with a given id.
 */
module IdCollections {
  import opened Seqs

  /** The ids of a collection, in order. */
  function Ids<T>(s: seq<T>, idOf: T -> string): (r: seq<string>)
    ensures |r| == |s|
    ensures forall i :: 0 <= i < |s| ==> r[i] == idOf(s[i])
  {
    seq(|s|, i requires 0 <= i < |s| => idOf(s[i]))
  }

  /** No two records share an id. */
  predicate UniqueIds<T>(s: seq<T>, idOf: T -> string) {
    NoDuplicates(Ids(s, idOf))
  }

  /** `s.map(x => x.id === u.id ? u : x)`. */
  function ReplaceById<T>(s: seq<T>, idOf: T -> string, u: T): seq<T>
  {
    if s == [] then []
    else [if idOf(s[0]) == idOf(u) then u else s[0]] + ReplaceById(s[1..], idOf, u)
  }

  /** `s.filter(x => x.id !== id)`. */
  function RemoveById<T>(s: seq<T>, idOf: T -> string, id: string): seq<T>
  {
    if s == [] then []
    else (if idOf(s[0]) == id then [] else [s[0]]) + RemoveById(s[1..], idOf, id)
  }

  /**
   * Replacing keeps length and order: each record whose id is `u`'s becomes `u`,
   * every other record stays as it was.
   */
  lemma {:induction false} ReplaceByIdAt<T>(s: seq<T>, idOf: T -> string, u: T)
    ensures |ReplaceById(s, idOf, u)| == |s|
    ensures forall i :: 0 <= i < |s| ==>
              ReplaceById(s, idOf, u)[i] == if idOf(s[i]) == idOf(u) then u else s[i]
  {
    if s != [] {
      ReplaceByIdAt(s[1..], idOf, u);
    }
  }

  /** Replacing never changes the ids, so a collection with unique ids keeps them. */
  lemma ReplaceKeepsIds<T>(s: seq<T>, idOf: T -> string, u: T)
    ensures Ids(ReplaceById(s, idOf, u), idOf) == Ids(s, idOf)
    ensures UniqueIds(s, idOf) ==> UniqueIds(ReplaceById(s, idOf, u), idOf)
  {
    ReplaceByIdAt(s, idOf, u);
  }

  /** Replacing with a record whose id no record has changes nothing. */
  lemma ReplaceUnknownId<T>(s: seq<T>, idOf: T -> string, u: T)
    requires idOf(u) !in Ids(s, idOf)
    ensures ReplaceById(s, idOf, u) == s
  {
    ReplaceByIdAt(s, idOf, u);
    forall i | 0 <= i < |s| ensures ReplaceById(s, idOf, u)[i] == s[i] {
      assert Ids(s, idOf)[i] == idOf(s[i]);
    }
  }

  /** Replacing twice with the same record is replacing once. */
  lemma ReplaceIdempotent<T>(s: seq<T>, idOf: T -> string, u: T)
    ensures ReplaceById(ReplaceById(s, idOf, u), idOf, u) == ReplaceById(s, idOf, u)
  {
    ReplaceByIdAt(s, idOf, u);
    ReplaceByIdAt(ReplaceById(s, idOf, u), idOf, u);
  }

  /** After replacing, a record with `u`'s id is `u`, when some record had that id. */
  lemma ReplaceFindsNew<T>(s: seq<T>, idOf: T -> string, u: T, x: T)
    requires x in ReplaceById(s, idOf, u) && idOf(x) == idOf(u)
    ensures x == u
  {
    ReplaceByIdAt(s, idOf, u);
  }

  /** Removing keeps exactly the records with another id. */
  lemma {:induction false} RemoveMembers<T>(s: seq<T>, idOf: T -> string, id: string)
    ensures forall x :: x in RemoveById(s, idOf, id) <==> x in s && idOf(x) != id
    ensures |RemoveById(s, idOf, id)| <= |s|
  {
    if s != [] {
      RemoveMembers(s[1..], idOf, id);
      assert s == [s[0]] + s[1..];
    }
  }

  lemma RemoveMember<T>(s: seq<T>, idOf: T -> string, id: string, x: T)
    ensures x in RemoveById(s, idOf, id) <==> x in s && idOf(x) != id
  {
    RemoveMembers(s, idOf, id);
  }

  /** Removing from a concatenation removes from each part; so the kept records keep their order. */
  lemma {:induction false} RemoveAppend<T>(a: seq<T>, b: seq<T>, idOf: T -> string, id: string)
    ensures RemoveById(a + b, idOf, id) == RemoveById(a, idOf, id) + RemoveById(b, idOf, id)
  {
    if a == [] {
      assert a + b == b;
    } else {
      assert (a + b)[1..] == a[1..] + b;
      RemoveAppend(a[1..], b, idOf, id);
    }
  }

  /** Removing an id no record has changes nothing. */
  lemma {:induction false} RemoveUnknownId<T>(s: seq<T>, idOf: T -> string, id: string)
    requires id !in Ids(s, idOf)
    ensures RemoveById(s, idOf, id) == s
  {
    if s != [] {
      assert Ids(s, idOf)[0] == idOf(s[0]);
      assert Ids(s[1..], idOf) == Ids(s, idOf)[1..];
      RemoveUnknownId(s[1..], idOf, id);
      assert s == [s[0]] + s[1..];
    }
  }

  /** Removing keeps ids unique. */
  lemma {:induction false} RemoveKeepsUnique<T>(s: seq<T>, idOf: T -> string, id: string)
    requires UniqueIds(s, idOf)
    ensures UniqueIds(RemoveById(s, idOf, id), idOf)
  {
    if s != [] {
      var rest := RemoveById(s[1..], idOf, id);
      assert Ids(s[1..], idOf) == Ids(s, idOf)[1..];
      RemoveKeepsUnique(s[1..], idOf, id);
      RemoveMembers(s[1..], idOf, id);
      if idOf(s[0]) != id {
        var r := [s[0]] + rest;
        forall i, j | 0 <= i < j < |r| ensures Ids(r, idOf)[i] != Ids(r, idOf)[j] {
          if i == 0 {
            assert r[j] == rest[j - 1] && rest[j - 1] in rest;
            RemoveMember(s[1..], idOf, id, r[j]);
            assert r[j] in s[1..];
            var k :| 0 <= k < |s[1..]| && s[1..][k] == r[j];
            assert s[k + 1] == r[j];
            assert NoDuplicates(Ids(s, idOf));
            assert Ids(s, idOf)[0] != Ids(s, idOf)[k + 1];
          } else {
            assert Ids(rest, idOf)[i - 1] != Ids(rest, idOf)[j - 1];
          }
        }
      }
    }
  }

  /** Appending a record with a fresh id keeps ids unique. */
  lemma AppendFreshKeepsUnique<T>(s: seq<T>, idOf: T -> string, x: T)
    requires UniqueIds(s, idOf) && idOf(x) !in Ids(s, idOf)
    ensures UniqueIds(s + [x], idOf)
  {
    var r := s + [x];
    forall i, j | 0 <= i < j < |r| ensures Ids(r, idOf)[i] != Ids(r, idOf)[j] {
      if j == |s| {
        assert Ids(s, idOf)[i] == idOf(r[i]);
      } else {
        assert Ids(s, idOf)[i] != Ids(s, idOf)[j];
      }
    }
  }

  /** Deleting a record just added with a fresh id gives back the collection before. */
  lemma RemoveAfterAppend<T>(s: seq<T>, idOf: T -> string, x: T)
    requires idOf(x) !in Ids(s, idOf)
    ensures RemoveById(s + [x], idOf, idOf(x)) == s
  {
    RemoveAppend(s, [x], idOf, idOf(x));
    RemoveUnknownId(s, idOf, idOf(x));
    assert RemoveById([x], idOf, idOf(x)) == [];
  }

  /** With unique ids, the first record carrying a member's id is that member. */
  lemma UniqueIdFinds<T>(s: seq<T>, idOf: T -> string, x: T)
    requires UniqueIds(s, idOf) && x in s
    ensures idOf(x) in Ids(s, idOf)
    ensures s[FirstIndex(Ids(s, idOf), idOf(x))] == x
  {
    var i :| 0 <= i < |s| && s[i] == x;
    assert Ids(s, idOf)[i] == idOf(x);
  }

  /** With unique ids, replacing a record by itself changes nothing. */
  lemma ReplaceWithSelf<T>(s: seq<T>, idOf: T -> string, u: T)
    requires UniqueIds(s, idOf) && u in s
    ensures ReplaceById(s, idOf, u) == s
  {
    ReplaceByIdAt(s, idOf, u);
    var j :| 0 <= j < |s| && s[j] == u;
    forall i | 0 <= i < |s| ensures ReplaceById(s, idOf, u)[i] == s[i] {
      if idOf(s[i]) == idOf(u) && i != j {
        assert Ids(s, idOf)[i] == Ids(s, idOf)[j];
      }
    }
  }
}
