/** The counting multiset of src/multiset.rs: a hash map from key to the
    number of times the key was inserted. */
module Multisets {

  class Multiset<K(==,!new)> {
    /** The wrapped HashMap<K, usize>. */
    var counts: map<K, nat>

    /** Every stored key was inserted at least once. */
    ghost predicate Valid()
      reads this
    {
      forall k :: k in counts ==> counts[k] >= 1
    }

    /** Multiset::new() */
    constructor ()
      ensures Valid() && counts == map[]
    {
      counts := map[];
    }

    /** Multiset::default() */
    constructor Default()
      ensures Valid() && counts == map[]
    {
      counts := map[];
    }

    /** The number of times `key` was inserted; 0 for a key never inserted. */
    function Multiplicity(key: K): (n: nat)
      reads this
      ensures key in counts ==> n == counts[key]
      ensures key !in counts ==> n == 0
      ensures Valid() ==> (n == 0 <==> key !in counts)
    {
      if key in counts then counts[key] else 0
    }

    /** A vacant entry gets 1, an occupied entry is raised by 1. */
    method Insert(key: K)
      requires Valid()
      modifies this
      ensures Valid()
      ensures counts == old(counts)[key := old(Multiplicity(key)) + 1]
      ensures Multiplicity(key) == old(Multiplicity(key)) + 1
      ensures forall j :: j != key ==> Multiplicity(j) == old(Multiplicity(j))
    {
      if key in counts {
        counts := counts[key := counts[key] + 1];
      } else {
        counts := counts[key := 1];
      }
    }
  }

  /** A fresh multiset holds no key at all. */
  method NewIsEmptyTest(key: nat) returns (fromNew: nat, fromDefault: nat)
    ensures fromNew == 0 && fromDefault == 0
  {
    var a := new Multiset<nat>();
    var b := new Multiset<nat>.Default();
    fromNew := a.Multiplicity(key);
    fromDefault := b.Multiplicity(key);
  }

  /** Inserting "Hello" ten times. */
  method InsertStringTest() returns (hello: nat, hallo: nat)
    ensures hello == 10 && hallo == 0
  {
    var bag := new Multiset<string>();
    for i := 0 to 10
      invariant bag.Valid()
      invariant bag.Multiplicity("Hello") == i
      invariant bag.Multiplicity("Hallo") == 0
    {
      bag.Insert("Hello");
    }
    hello := bag.Multiplicity("Hello");
    hallo := bag.Multiplicity("Hallo");
  }

  /** Inserting i % 20 for every i in 0..100 gives each residue five times. */
  method InsertIntTest() returns (zero: nat, eleven: nat, nineteen: nat)
    ensures zero == 5 && eleven == 5 && nineteen == 5
  {
    var bag := new Multiset<nat>();
    for i := 0 to 100
      invariant bag.Valid()
      invariant forall k :: 0 <= k < 20 ==>
        bag.Multiplicity(k) == i / 20 + (if k < i % 20 then 1 else 0)
    {
      bag.Insert(i % 20);
    }
    zero := bag.Multiplicity(0);
    eleven := bag.Multiplicity(11);
    nineteen := bag.Multiplicity(19);
  }
}
