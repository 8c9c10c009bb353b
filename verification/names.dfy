/**
 * An abstract store of OpenGL object names, standing in for the driver.
 *
 * Name 0 never denotes an object. Generating returns a name that is not in
 * use; deleting 0 is silently ignored (sections 6.1 and 8.1 of the OpenGL 4.6
 * core profile specification). Deleting a non-zero name that is not live is
 * what a double delete looks like from the driver's side: the store counts
 * such deletes in `staleDeletes`, so "no name is deleted twice" becomes
 * "`staleDeletes` never grows".
 *
 * All object kinds (textures, programs, shaders, framebuffers, vertex arrays,
 * buffers) draw from this one store.
 */
module Names {
  import opened Wrappers

  /** A `GLuint` object name; 0 means "no object". */
  type Name = nat

  /** The identity (address) of a C++ wrapper object. */
  type Addr = nat

  /** What a wrapper holding `n` owns: nothing when `n` is 0. */
  function NameSet(n: Name): set<Name> {
    if n == 0 then {} else {n}
  }

  datatype Store = Store(live: set<Name>, next: Name, staleDeletes: nat)

  predicate Valid(s: Store) {
    && 1 <= s.next
    && 0 !in s.live
    && forall n :: n in s.live ==> n < s.next
  }

  function Initial(): (s: Store)
    ensures Valid(s) && s.live == {} && s.staleDeletes == 0
  {
    Store({}, 1, 0)
  }

  /** `glGen*(1, …)` / `glCreate*()`: one name that was not live before. */
  function Generate(s: Store): (r: (Store, Name))
    requires Valid(s)
    ensures Valid(r.0)
    ensures r.1 != 0 && r.1 !in s.live
    ensures r.0.live == s.live + {r.1}
    ensures r.0.staleDeletes == s.staleDeletes
  {
    (s.(live := s.live + {s.next}, next := s.next + 1), s.next)
  }

  /** `glGen*(count, …)`: `count` distinct names, none of them live before. */
  function GenerateMany(s: Store, count: nat): (r: (Store, seq<Name>))
    requires Valid(s)
    ensures Valid(r.0)
    ensures |r.1| == count && Distinct(r.1)
    ensures forall i :: 0 <= i < |r.1| ==> r.1[i] != 0 && r.1[i] !in s.live
    ensures r.0.live == s.live + Elements(r.1)
    ensures r.0.staleDeletes == s.staleDeletes
    decreases count
  {
    if count == 0 then (s, [])
    else
      var (s1, n) := Generate(s);
      var (s2, ns) := GenerateMany(s1, count - 1);
      assert Elements([n] + ns) == {n} + Elements(ns);
      (s2, [n] + ns)
  }

  /** `glDelete*(1, &n)`. */
  function Delete(s: Store, n: Name): (r: Store)
    ensures n == 0 ==> r == s
    ensures n != 0 && n in s.live ==> r.live == s.live - {n} && r.staleDeletes == s.staleDeletes
    ensures n != 0 && n !in s.live ==> r.live == s.live && r.staleDeletes == s.staleDeletes + 1
    ensures Valid(s) ==> Valid(r)
  {
    if n == 0 then s
    else if n in s.live then s.(live := s.live - {n})
    else s.(staleDeletes := s.staleDeletes + 1)
  }

  /** `glDelete*(|ns|, ns)`: deleting distinct live names releases exactly them. */
  function DeleteMany(s: Store, ns: seq<Name>): (r: Store)
    ensures Valid(s) ==> Valid(r)
    ensures r.staleDeletes >= s.staleDeletes
    ensures Valid(s) && Distinct(ns) && Elements(ns) <= s.live ==>
              r.live == s.live - Elements(ns) && r.staleDeletes == s.staleDeletes
    decreases |ns|
  {
    if |ns| == 0 then s
    else
      assert Elements(ns) == {ns[0]} + Elements(ns[1..]);
      DeleteMany(Delete(s, ns[0]), ns[1..])
  }

  /**
   * Exclusive ownership: every owner's names are live and non-zero, no name
   * has two owners, and every live name has an owner (nothing leaks).
   */
  predicate Exclusive(live: set<Name>, owned: map<Addr, set<Name>>) {
    && (forall a :: a in owned ==> 0 !in owned[a] && owned[a] <= live)
    && (forall a, b :: a in owned && b in owned && a != b ==> owned[a] !! owned[b])
    && (forall n :: n in live ==> exists a :: a in owned && n in owned[a])
  }

  /** A new owner of freshly generated names keeps ownership exclusive. */
  lemma ExclusiveAdd(live: set<Name>, owned: map<Addr, set<Name>>, a: Addr, added: set<Name>)
    requires Exclusive(live, owned)
    requires a !in owned && added !! live && 0 !in added
    ensures Exclusive(live + added, owned[a := added])
  {
    var owned' := owned[a := added];
    forall n | n in live + added
      ensures exists b :: b in owned' && n in owned'[b]
    {
      if n in added {
        assert n in owned'[a];
      } else {
        var b :| b in owned && n in owned[b];
        assert owned'[b] == owned[b];
      }
    }
  }

  /** A new owner taking everything from `src` (move construction). */
  lemma ExclusiveHandOver(live: set<Name>, owned: map<Addr, set<Name>>, a: Addr, src: Addr)
    requires Exclusive(live, owned)
    requires a !in owned && src in owned
    ensures Exclusive(live, owned[a := owned[src]][src := {}])
  {
    var owned' := owned[a := owned[src]][src := {}];
    forall n | n in live
      ensures exists b :: b in owned' && n in owned'[b]
    {
      var b :| b in owned && n in owned[b];
      if b == src {
        assert n in owned'[a];
      } else {
        assert owned'[b] == owned[b];
      }
    }
  }

  /**
   * `dst` releases what it owned and takes everything from `src` (move
   * assignment between two distinct objects).
   */
  lemma ExclusiveReplace(live: set<Name>, owned: map<Addr, set<Name>>, dst: Addr, src: Addr)
    requires Exclusive(live, owned)
    requires dst in owned && src in owned && dst != src
    ensures Exclusive(live - owned[dst], owned[dst := owned[src]][src := {}])
  {
    var owned' := owned[dst := owned[src]][src := {}];
    forall n | n in live - owned[dst]
      ensures exists b :: b in owned' && n in owned'[b]
    {
      var b :| b in owned && n in owned[b];
      if b == src {
        assert n in owned'[dst];
      } else {
        assert b != dst;
        assert owned'[b] == owned[b];
      }
    }
  }

  /** An owner that goes away and releases what it owned. */
  lemma ExclusiveRemove(live: set<Name>, owned: map<Addr, set<Name>>, a: Addr)
    requires Exclusive(live, owned)
    requires a in owned
    ensures Exclusive(live - owned[a], owned - {a})
  {
    var owned' := owned - {a};
    forall n | n in live - owned[a]
      ensures exists b :: b in owned' && n in owned'[b]
    {
      var b :| b in owned && n in owned[b];
      assert b != a && b in owned' && owned'[b] == owned[b];
    }
  }

  /** Every name some owner holds. */
  function OwnedNames(owned: map<Addr, set<Name>>): set<Name> {
    set a, n | a in owned && n in owned[a] :: n
  }

  /** Under exclusive ownership the live names are exactly the owned ones. */
  lemma ExclusiveCovers(live: set<Name>, owned: map<Addr, set<Name>>)
    requires Exclusive(live, owned)
    ensures live == OwnedNames(owned)
  {
    forall n | n in live
      ensures n in OwnedNames(owned)
    {
      var b :| b in owned && n in owned[b];
    }
  }
}
