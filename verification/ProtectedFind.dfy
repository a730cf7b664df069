/** cmap_find_protected() of lib/cmap.c, the lookup for a map that cannot change meanwhile.

    It derives the second bucket from the client's hash, where every other function derives
    it from the first bucket's hash, so it looks in a bucket in which the entry need not be.
  */
module ProtectedFind {

  import opened CuckooTable

  /** The bucket that is searched in place of the second candidate. */
  function OtherSearched<V>(p: Params<V>, hash: nat): (b: nat)
    requires hash < TWO32
    ensures b <= p.mask
  {
    OtherHash(hash) % (p.mask + 1)
  }

  /** cmap_find_protected. */
  function FindProtected<V(==)>(p: Params<V>, t: Table<V>, hash: nat): V
    requires Shape(p, t) && hash < TWO32
  {
    var v := FindIn(t[First(p, hash)], hash, p.nil);
    if v != p.nil then v else FindIn(t[OtherSearched(p, hash)], hash, p.nil)
  }

  /** Nothing is found that the map does not have, whichever bucket is searched. */
  lemma FoundIsPresent<V>(p: Params<V>, t: Table<V>, view: map<nat, V>, hash: nat)
    requires Settled(p, t, view) && hash < TWO32
    ensures FindProtected(p, t, hash) != p.nil ==> hash in view && FindProtected(p, t, hash) == view[hash]
  {
    forall b | 0 <= b < |t|
      ensures var v := FindIn(t[b], hash, p.nil); v != p.nil ==> hash in view && v == view[hash]
    {
      var i := FirstMatch(t[b], hash);
      assert i < |t[b]| && t[b][i].val != p.nil ==> Live(p, t, b, i);
    }
  }

  /** The result is that of cmap_find, in every settled table. */
  ghost predicate AlwaysRight<V(!new)>(p: Params<V>, hash: nat)
    requires hash < TWO32
  {
    forall t: Table<V>, view: map<nat, V> ::
      Settled(p, t, view) ==> FindProtected(p, t, hash) == ViewAt(p, view, hash)
  }

  /** A settled table with one entry, in its second bucket.  No unused slot has its hash. */
  function InSecond<V>(p: Params<V>, hash: nat, v: V): (t: Table<V>)
    requires p.k > 0
    ensures Shape(p, t)
  {
    var unused := seq(p.k, i => Slot(if hash == 0 then 1 else 0, p.nil));
    seq(p.mask + 1, b => unused)[Second(p, hash) := unused[0 := Slot(hash, v)]]
  }

  lemma InSecondSettled<V>(p: Params<V>, hash: nat, v: V)
    requires p.k > 0 && v != p.nil
    ensures Settled(p, InSecond(p, hash, v), map[hash := v])
  {
    var t := InSecond(p, hash, v);
    assert FirstMatch(t[Second(p, hash)], hash) == 0;
    assert First(p, hash) != Second(p, hash) ==> NoMatch(t[First(p, hash)], hash);
    assert forall b: nat, i: nat :: Live(p, t, b, i) ==> b == Second(p, hash) && i == 0;
  }

  /** The entry is missed if the bucket searched is not the second candidate. */
  lemma MissesSecond<V>(p: Params<V>, hash: nat, v: V)
    requires hash < TWO32 && p.k > 0 && v != p.nil
    requires First(p, hash) != Second(p, hash) && OtherSearched(p, hash) != Second(p, hash)
    ensures FindProtected(p, InSecond(p, hash, v), hash) == p.nil
  {
  }

  lemma ProtectedExact<V(!new)>(p: Params<V>, hash: nat, v: V)
    requires hash < TWO32 && p.k > 0 && v != p.nil
    ensures AlwaysRight(p, hash) <==> First(p, hash) == Second(p, hash) || OtherSearched(p, hash) == Second(p, hash)
  {
    if First(p, hash) == Second(p, hash) || OtherSearched(p, hash) == Second(p, hash) {
      forall t: Table<V>, view: map<nat, V> | Settled(p, t, view)
        ensures FindProtected(p, t, hash) == ViewAt(p, view, hash)
      {
        FindIsView(p, t, view, hash);
        FoundIsPresent(p, t, view, hash);
      }
    } else {
      InSecondSettled(p, hash, v);
      MissesSecond(p, hash, v);
      assert !(Settled(p, InSecond(p, hash, v), map[hash := v]) ==>
        FindProtected(p, InSecond(p, hash, v), hash) == ViewAt(p, map[hash := v], hash));
    }
  }
}
