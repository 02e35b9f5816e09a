/**
 * The local IPv6 address pool of ipv6_pool.py.
 *
 * `active_addresses` is a Python dict from address to the time it was last verified; it is
 * modelled by the map `active` together with `order`, the key insertion order the dict keeps
 * (what `list(d.keys())` returns). The system listing each refresh reads, the reachability
 * probe, the clock, the random choice and the GUIDs of generated addresses are parameters.
 */
module Ipv6Pool {
  import opened Wrappers
  import opened PySemantics
  import opened Collections
  import opened NetUtils

  /** `_extract_prefix`: the first four ':'-fields of the address, rejoined with ':'. */
  function ExtractPrefix(a: string): string {
    Join(Slice(Split(a, ':'), 0, 4), ":")
  }

  /** The prefix has at most four fields, and they are the leading fields of the address. */
  lemma ExtractPrefixFields(a: string)
    ensures Split(ExtractPrefix(a), ':') == Slice(Split(a, ':'), 0, 4)
    ensures |Split(ExtractPrefix(a), ':')| <= 4
  {
    var parts := Slice(Split(a, ':'), 0, 4);
    assert |parts| >= 1 by {
      assert |Split(a, ':')| >= 1;
    }
    assert forall i :: 0 <= i < |parts| ==> ':' !in parts[i] by {
      SplitSpec(a, ':');
      forall i | 0 <= i < |parts| ensures ':' !in parts[i] {
        assert parts[i] == Split(a, ':')[i];
      }
    }
    SplitJoin(parts, ':');
  }

  /** Extracting the prefix of a prefix changes nothing. */
  lemma ExtractPrefixIdempotent(a: string)
    ensures ExtractPrefix(ExtractPrefix(a)) == ExtractPrefix(a)
  {
    ExtractPrefixFields(a);
    var parts := Split(ExtractPrefix(a), ':');
    assert Slice(parts, 0, 4) == parts;
    JoinSplit(ExtractPrefix(a), ':');
  }

  /** An address generated from a four-field prefix has exactly that prefix. */
  lemma ExtractPrefixOfGenerated(prefix: string, g: string)
    requires IsGuidHex(g)
    requires |Split(prefix, ':')| == 4
    ensures ExtractPrefix(GeneratedAddress(prefix, g)) == prefix
  {
    GeneratedAddressFields(prefix, g);
    var fields := Split(prefix, ':') + GuidGroups(g);
    assert Slice(fields, 0, 4) == Split(prefix, ':');
    JoinSplit(prefix, ':');
  }

  /** `_refresh_system_addresses` keeps the public addresses of the listing. */
  function PublicOf(listing: seq<string>): seq<string> {
    Filter(listing, IsPublicIpv6)
  }

  /** The refreshed system list holds exactly the public addresses of the listing. */
  lemma PublicOfSpec(listing: seq<string>)
    ensures forall a :: a in PublicOf(listing) <==> a in listing && IsPublicIpv6(a)
  {
    FilterSpec(listing, IsPublicIpv6);
  }

  /** The test `verify_and_add` applies: public, and the reachability probe succeeds. */
  function Probe(verify: string -> bool): string -> bool {
    a => IsPublicIpv6(a) && verify(a)
  }

  /** The test the prefix-change rebuild applies to a system address. */
  function HasPrefix(p: string): string -> bool {
    a => ExtractPrefix(a) == p
  }

  /** Membership in a list, as a test. */
  function MemberOf(s: seq<string>): string -> bool {
    a => a in s
  }

  /** The system list an attempt of `_add_addresses` compares against: the one before its refresh. */
  function SystemBefore(initial: seq<string>, listings: nat -> seq<string>, k: nat): seq<string> {
    if k == 0 then initial else PublicOf(listings(k - 1))
  }

  /**
   * What `_add_addresses` demands of the address it adds on attempt `k`: public, not active
   * before the call, present in the refreshed listing and absent from the list before it.
   */
  ghost predicate NewToPool(a: string, k: nat, active0: map<string, real>, system0: seq<string>, listings: nat -> seq<string>) {
    && a !in active0
    && a in PublicOf(listings(k))
    && a !in SystemBefore(system0, listings, k)
  }

  /** Picks, in no particular order, a public address from a set, as the `for ... break` over `new_addresses` does. */
  method ChooseNew(candidates: set<string>) returns (r: Option<string>)
    ensures r.Some? ==> r.value in candidates && IsPublicIpv6(r.value)
    ensures r.None? <==> forall a :: a in candidates ==> !IsPublicIpv6(a)
  {
    var remaining := candidates;
    while remaining != {}
      invariant remaining <= candidates
      invariant forall a :: a in candidates - remaining ==> !IsPublicIpv6(a)
      decreases |remaining|
    {
      var a :| a in remaining;
      if IsPublicIpv6(a) {
        return Some(a);
      }
      remaining := remaining - {a};
    }
    return None;
  }

  /** The loop of `_cleanup_invalid_addresses`: the keys still listed, and the ones that are not. */
  method SplitByMembership(keys: seq<string>, system: seq<string>) returns (kept: seq<string>, invalid: seq<string>)
    ensures kept == Filter(keys, MemberOf(system))
    ensures invalid == Filter(keys, a => a !in system)
    ensures |kept| + |invalid| == |keys|
  {
    kept, invalid := [], [];
    var i := 0;
    while i < |keys|
      invariant 0 <= i <= |keys|
      invariant kept == Filter(keys[..i], MemberOf(system))
      invariant invalid == Filter(keys[..i], a => a !in system)
      invariant |kept| + |invalid| == i
    {
      assert keys[..i + 1] == keys[..i] + [keys[i]];
      FilterSnoc(keys[..i], keys[i], MemberOf(system));
      FilterSnoc(keys[..i], keys[i], a => a !in system);
      if keys[i] !in system {
        invalid := invalid + [keys[i]];
      } else {
        kept := kept + [keys[i]];
      }
      i := i + 1;
    }
    assert keys[..i] == keys;
  }

  /** A dict's key order `o` and its contents `m` agree. */
  ghost predicate WellKeyed(o: seq<string>, m: map<string, real>) {
    Distinct(o) && Elements(o) == m.Keys
  }

  /** The dict `m` after `d[a] = t` for every `a` of `ks`. */
  function Stamp(m: map<string, real>, ks: seq<string>, t: real): map<string, real> {
    m + map a | a in ks :: t
  }

  /** The stamped keys are the old ones and `ks`; exactly the keys of `ks` carry the new time. */
  lemma StampSpec(m: map<string, real>, ks: seq<string>, t: real)
    ensures forall a :: a in Stamp(m, ks, t) <==> a in m || a in ks
    ensures forall a :: a in Stamp(m, ks, t) ==> Stamp(m, ks, t)[a] == if a in ks then t else m[a]
  {
  }

  lemma StampSnoc(m: map<string, real>, ks: seq<string>, x: string, t: real)
    ensures Stamp(m, ks + [x], t) == Stamp(m, ks, t)[x := t]
  {
    var l := Stamp(m, ks + [x], t);
    var r := Stamp(m, ks, t)[x := t];
    assert l.Keys == r.Keys;
    assert forall a :: a in l ==> l[a] == r[a];
  }

  /** Inserting keys into a consistent dict keeps its order and its contents consistent. */
  lemma InsertKeepsWellKeyed(o: seq<string>, m: map<string, real>, ks: seq<string>, t: real)
    requires WellKeyed(o, m)
    ensures WellKeyed(Dedup(o + ks), Stamp(m, ks, t))
  {
    StampSpec(m, ks, t);
    DedupSpec(o + ks);
    var o' := Dedup(o + ks);
    forall a ensures a in Elements(o') <==> a in Stamp(m, ks, t) {
      assert a in m <==> a in o;
    }
  }

  /**
   * `for a in keys: if keep(a): d[a] = t` on the dict (`o`, `m`): new keys are appended in
   * order of first occurrence, existing keys keep their place and get the new time. Also
   * counts the keys that passed.
   */
  method InsertWhere(o: seq<string>, m: map<string, real>, keys: seq<string>, keep: string -> bool, t: real)
    returns (o': seq<string>, m': map<string, real>, n: nat)
    requires WellKeyed(o, m)
    ensures WellKeyed(o', m')
    ensures o' == Dedup(o + Filter(keys, keep))
    ensures m' == Stamp(m, Filter(keys, keep), t)
    ensures n == |Filter(keys, keep)|
  {
    o', m', n := o, m, 0;
    DedupOfDistinct(o);
    assert o + Filter(keys[..0], keep) == o;
    assert Filter(keys[..0], keep) == [];
    assert m == Stamp(m, [], t);
    var i := 0;
    ghost var passed: seq<string> := [];
    while i < |keys|
      invariant 0 <= i <= |keys|
      invariant passed == Filter(keys[..i], keep)
      invariant n == |passed|
      invariant o' == Dedup(o + passed)
      invariant m' == Stamp(m, passed, t)
    {
      var x := keys[i];
      assert keys[..i + 1] == keys[..i] + [x];
      FilterSnoc(keys[..i], x, keep);
      if keep(x) {
        assert o + (passed + [x]) == (o + passed) + [x];
        DedupSnoc(o + passed, x);
        StampSnoc(m, passed, x, t);
        if x !in o' {
          o' := o' + [x];
        }
        m' := m'[x := t];
        n := n + 1;
        passed := passed + [x];
      }
      i := i + 1;
    }
    assert keys[..i] == keys;
    InsertKeepsWellKeyed(o, m, passed, t);
  }

  /**
   * One attempt of `_add_addresses` after the address is configured, on the dict (`o`, `m`)
   * and the previous system list: the list is refreshed from `listing`, and a public address
   * that was not in the previous list and is not active, if there is one, is picked.
   */
  method AddAttempt(o: seq<string>, m: map<string, real>, system: seq<string>, listing: seq<string>)
    returns (pick: Option<string>, system': seq<string>)
    ensures system' == PublicOf(listing)
    ensures pick.None? <==> forall a :: a in system' ==> a in system || a in m
    ensures pick.Some? ==> pick.value in system' && pick.value !in system && pick.value !in m
  {
    system' := PublicOf(listing);
    PublicOfSpec(listing);
    var unseen := Elements(system') - Elements(system) - m.Keys;
    pick := ChooseNew(unseen);
  }

  /** The dict (`o`, `m`) holds the old entries (`order0`, `active0`) followed by `newOnes`, stamped `t`. */
  ghost predicate PoolGrown(o: seq<string>, m: map<string, real>, newOnes: seq<string>,
                            order0: seq<string>, active0: map<string, real>, t: real)
  {
    && WellKeyed(o, m)
    && o == order0 + newOnes
    && m == Stamp(active0, newOnes, t)
  }

  /** `a` was in the pool when attempt `k` began: active before the call, or added by an earlier attempt. */
  ghost predicate InPoolAt(a: string, k: nat, active0: map<string, real>, newOnes: seq<string>, attemptOf: seq<nat>) {
    a in active0 || exists i :: 0 <= i < |newOnes| && i < |attemptOf| && attemptOf[i] < k && newOnes[i] == a
  }

  /**
   * Attempt `k` saw nothing to add: every public address of its listing was already in the
   * list before it or in the pool.
   */
  ghost predicate NothingNewAt(k: nat, active0: map<string, real>, system0: seq<string>, listings: nat -> seq<string>,
                               newOnes: seq<string>, attemptOf: seq<nat>) {
    forall a :: a in PublicOf(listings(k)) ==>
      a in SystemBefore(system0, listings, k) || InPoolAt(a, k, active0, newOnes, attemptOf)
  }

  /**
   * After `attempts` attempts the system list is the one the last attempt read, and
   * `newOnes[i]` was added by attempt `attemptOf[i]`, at most one per attempt, as `NewToPool`
   * demands. Every attempt that added nothing saw no public address new to the list and the pool.
   */
  ghost predicate AttemptsLogged(system: seq<string>, attempts: nat, newOnes: seq<string>, attemptOf: seq<nat>,
                                 active0: map<string, real>, system0: seq<string>, listings: nat -> seq<string>)
  {
    && system == SystemBefore(system0, listings, attempts)
    && |newOnes| == |attemptOf|
    && (forall i, j :: 0 <= i < j < |attemptOf| ==> attemptOf[i] < attemptOf[j])
    && (forall i :: 0 <= i < |newOnes| ==>
          attemptOf[i] < attempts && NewToPool(newOnes[i], attemptOf[i], active0, system0, listings))
    && (forall k :: 0 <= k < attempts && k !in attemptOf ==>
          NothingNewAt(k, active0, system0, listings, newOnes, attemptOf))
  }

  /**
   * An attempt whose listing shows a public address that is neither in the list before it nor
   * in the pool is one that added an address.
   */
  lemma NewAddressIsAdded(system: seq<string>, attempts: nat, newOnes: seq<string>, attemptOf: seq<nat>,
                          active0: map<string, real>, system0: seq<string>, listings: nat -> seq<string>,
                          k: nat, a: string)
    requires AttemptsLogged(system, attempts, newOnes, attemptOf, active0, system0, listings)
    requires k < attempts && a in PublicOf(listings(k))
    requires a !in SystemBefore(system0, listings, k) && a !in active0 && a !in newOnes
    ensures k in attemptOf
  {
  }

  /**
   * The state of `_add_addresses` after `attempts` attempts, started from the dict
   * (`order0`, `active0`) and the system list `system0`.
   */
  ghost predicate AddInvariant(o: seq<string>, m: map<string, real>, system: seq<string>, attempts: nat,
                               newOnes: seq<string>, attemptOf: seq<nat>,
                               order0: seq<string>, active0: map<string, real>, system0: seq<string>,
                               listings: nat -> seq<string>, now: real)
  {
    PoolGrown(o, m, newOnes, order0, active0, now)
    && AttemptsLogged(system, attempts, newOnes, attemptOf, active0, system0, listings)
  }

  /** Before the first attempt nothing was added. */
  lemma AddInvariantStart(order0: seq<string>, active0: map<string, real>, system0: seq<string>,
                          listings: nat -> seq<string>, now: real)
    requires WellKeyed(order0, active0)
    ensures AddInvariant(order0, active0, system0, 0, [], [], order0, active0, system0, listings, now)
  {
    assert active0 == Stamp(active0, [], now);
    assert order0 + [] == order0;
  }

  /** Adding an address that is not in the dict keeps the dict grown from the old one. */
  lemma PoolGrownSnoc(o: seq<string>, m: map<string, real>, newOnes: seq<string>,
                      order0: seq<string>, active0: map<string, real>, t: real, a: string)
    requires PoolGrown(o, m, newOnes, order0, active0, t) && a !in m
    ensures PoolGrown(o + [a], m[a := t], newOnes + [a], order0, active0, t)
    ensures a !in active0
  {
    assert a !in Elements(o);
    assert Elements(o + [a]) == Elements(o) + {a};
    assert o + [a] == order0 + (newOnes + [a]);
    StampSnoc(active0, newOnes, a, t);
    StampSpec(active0, newOnes, t);
  }

  /** An attempt that adds `a`, new to the pool, is logged as the attempt that added it. */
  lemma AttemptsLoggedFound(system: seq<string>, attempts: nat, newOnes: seq<string>, attemptOf: seq<nat>,
                            active0: map<string, real>, system0: seq<string>, listings: nat -> seq<string>, a: string)
    requires AttemptsLogged(system, attempts, newOnes, attemptOf, active0, system0, listings)
    requires NewToPool(a, attempts, active0, system0, listings)
    ensures AttemptsLogged(PublicOf(listings(attempts)), attempts + 1, newOnes + [a], attemptOf + [attempts],
                           active0, system0, listings)
  {
    var n' := newOnes + [a];
    var at' := attemptOf + [attempts];
    forall i | 0 <= i < |n'|
      ensures at'[i] < attempts + 1 && NewToPool(n'[i], at'[i], active0, system0, listings)
    {
      if i < |newOnes| {
        assert n'[i] == newOnes[i] && at'[i] == attemptOf[i];
      }
    }
    forall k | 0 <= k < attempts + 1 && k !in at'
      ensures NothingNewAt(k, active0, system0, listings, n', at')
    {
      assert k != attempts by {
        assert at'[|attemptOf|] == attempts;
      }
      assert k !in attemptOf by {
        assert attemptOf == at'[..|attemptOf|];
      }
      forall b | b in PublicOf(listings(k)) && InPoolAt(b, k, active0, newOnes, attemptOf)
        ensures InPoolAt(b, k, active0, n', at')
      {
        if b !in active0 {
          var i :| 0 <= i < |newOnes| && i < |attemptOf| && attemptOf[i] < k && newOnes[i] == b;
          assert n'[i] == b && at'[i] < k;
        }
      }
    }
  }

  /**
   * An attempt that adds nothing only moves the system list on; it is logged as one that saw
   * no public address new to the list before it and the pool.
   */
  lemma AttemptsLoggedNone(system: seq<string>, attempts: nat, newOnes: seq<string>, attemptOf: seq<nat>,
                           active0: map<string, real>, system0: seq<string>, listings: nat -> seq<string>)
    requires AttemptsLogged(system, attempts, newOnes, attemptOf, active0, system0, listings)
    requires forall a :: a in PublicOf(listings(attempts)) ==> a in system || a in active0 || a in newOnes
    ensures AttemptsLogged(PublicOf(listings(attempts)), attempts + 1, newOnes, attemptOf,
                           active0, system0, listings)
  {
    assert attempts !in attemptOf;
    forall a | a in PublicOf(listings(attempts)) && a !in system && a !in active0
      ensures InPoolAt(a, attempts, active0, newOnes, attemptOf)
    {
      var i :| 0 <= i < |newOnes| && newOnes[i] == a;
    }
  }

  /**
   * One attempt of the loop of `_add_addresses` after its address was configured: the pool
   * gains at most one address, and gains one exactly when the fresh listing shows a public
   * address that was neither listed before nor already in the pool.
   */
  method AttemptStep(o: seq<string>, m: map<string, real>, system: seq<string>, attempts: nat,
                     newOnes: seq<string>, attemptOf: seq<nat>,
                     order0: seq<string>, active0: map<string, real>, system0: seq<string>,
                     listings: nat -> seq<string>, now: real)
    returns (o': seq<string>, m': map<string, real>, system': seq<string>, newOnes': seq<string>, attemptOf': seq<nat>)
    requires AddInvariant(o, m, system, attempts, newOnes, attemptOf, order0, active0, system0, listings, now)
    ensures AddInvariant(o', m', system', attempts + 1, newOnes', attemptOf', order0, active0, system0, listings, now)
    ensures |newOnes'| == |newOnes| || |newOnes'| == |newOnes| + 1
    ensures |newOnes'| == |newOnes| <==> forall a :: a in system' ==> a in system || a in m
  {
    var pick;
    pick, system' := AddAttempt(o, m, system, listings(attempts));
    if pick.Some? {
      var a := pick.value;
      PoolGrownSnoc(o, m, newOnes, order0, active0, now, a);
      AttemptsLoggedFound(system, attempts, newOnes, attemptOf, active0, system0, listings, a);
      o', m', newOnes', attemptOf' := o + [a], m[a := now], newOnes + [a], attemptOf + [attempts];
    } else {
      StampSpec(active0, newOnes, now);
      AttemptsLoggedNone(system, attempts, newOnes, attemptOf, active0, system0, listings);
      o', m', newOnes', attemptOf' := o, m, newOnes, attemptOf;
    }
  }

  /**
   * The attempt loop of `_add_addresses` on the pool's state `order0`, `active0`, `system0`:
   * up to `count * 3` attempts, attempt `k` running `AddAttempt` on the listing `listings(k)`
   * read after its address was configured; it stops once `count` addresses were added and
   * returns how many attempts it made. `attemptOf[i]` is the attempt that added `newOnes[i]`.
   */
  method RunAttempts(order0: seq<string>, active0: map<string, real>, system0: seq<string>, count: int,
                     listings: nat -> seq<string>, now: real)
    returns (o: seq<string>, m: map<string, real>, system: seq<string>,
             attempts: nat, newOnes: seq<string>, attemptOf: seq<nat>)
    requires WellKeyed(order0, active0)
    ensures |newOnes| <= (if count < 0 then 0 else count)
    ensures attempts <= (if count < 0 then 0 else 3 * count)
    ensures attempts < 3 * count ==> |newOnes| == count
    ensures AddInvariant(o, m, system, attempts, newOnes, attemptOf, order0, active0, system0, listings, now)
  {
    o, m, system := order0, active0, system0;
    newOnes, attemptOf := [], [];
    AddInvariantStart(order0, active0, system0, listings, now);
    var maxAttempts := count * 3;
    attempts := 0;
    while |newOnes| < count && attempts < maxAttempts
      invariant count >= 0 ==> attempts <= maxAttempts && |newOnes| <= count
      invariant count < 0 ==> attempts == 0 && newOnes == []
      invariant AddInvariant(o, m, system, attempts, newOnes, attemptOf, order0, active0, system0, listings, now)
      decreases maxAttempts - attempts
    {
      o, m, system, newOnes, attemptOf :=
        AttemptStep(o, m, system, attempts, newOnes, attemptOf, order0, active0, system0, listings, now);
      attempts := attempts + 1;
    }
  }


  /** The pool rebuilt for prefix `p` holds system addresses with that prefix, all stamped `t`. */
  lemma RebuiltPool(system: seq<string>, p: string, t: real)
    ensures Dedup([] + Filter(system, HasPrefix(p))) == Dedup(Filter(system, HasPrefix(p)))
    ensures forall a :: a in Stamp(map[], Filter(system, HasPrefix(p)), t) ==>
      a in system && ExtractPrefix(a) == p && Stamp(map[], Filter(system, HasPrefix(p)), t)[a] == t
  {
    var matching := Filter(system, HasPrefix(p));
    assert [] + matching == matching;
    FilterSpec(system, HasPrefix(p));
    StampSpec(map[], matching, t);
  }

  class Ipv6AddressPool {
    /** Address to last verification time. */
    var active: map<string, real>
    /** The keys of `active` in insertion order. */
    var order: seq<string>
    var systemAddresses: seq<string>
    var lastPrefix: Option<string>
    const poolSize: int
    const networkCard: string
    const isWindows: bool

    ghost predicate Valid()
      reads this
    {
      WellKeyed(order, active)
    }

    constructor (poolSize: int, networkCard: string, isWindows: bool)
      ensures Valid()
      ensures active == map[] && order == [] && systemAddresses == [] && lastPrefix == None
      ensures this.poolSize == poolSize && this.networkCard == networkCard && this.isWindows == isWindows
    {
      this.poolSize := poolSize;
      this.networkCard := networkCard;
      this.isWindows := isWindows;
      active := map[];
      order := [];
      systemAddresses := [];
      lastPrefix := None;
    }

    /** `active_addresses[a] = t`: a new key goes last, an existing one keeps its place. */
    method Put(a: string, t: real)
      requires Valid()
      modifies this
      ensures Valid()
      ensures order == if a in old(order) then old(order) else old(order) + [a]
      ensures active == old(active)[a := t]
      ensures systemAddresses == old(systemAddresses) && lastPrefix == old(lastPrefix)
    {
      if a !in order {
        assert Elements(order + [a]) == Elements(order) + {a};
        order := order + [a];
      }
      active := active[a := t];
    }

    method RefreshSystemAddresses(listing: seq<string>)
      modifies this
      ensures systemAddresses == PublicOf(listing)
      ensures active == old(active) && order == old(order) && lastPrefix == old(lastPrefix)
    {
      systemAddresses := PublicOf(listing);
    }

    /**
     * `_cleanup_invalid_addresses`: refreshes the system list and drops every active address
     * it no longer holds; the survivors keep their place and their timestamps.
     */
    method CleanupInvalidAddresses(listing: seq<string>) returns (removed: nat)
      requires Valid()
      modifies this
      ensures Valid()
      ensures systemAddresses == PublicOf(listing)
      ensures forall a :: a in active ==> a in systemAddresses
      ensures forall a :: a in active <==> a in old(active) && a in systemAddresses
      ensures forall a :: a in active ==> active[a] == old(active)[a]
      ensures order == Filter(old(order), MemberOf(PublicOf(listing)))
      ensures removed == |old(order)| - |order|
      ensures lastPrefix == old(lastPrefix)
    {
      RefreshSystemAddresses(listing);
      var system := systemAddresses;
      var kept, invalid := SplitByMembership(order, system);
      FilterDistinct(order, MemberOf(system));
      FilterSpec(order, MemberOf(system));
      assert forall a :: a in kept <==> a in active && a in system by {
        forall a ensures a in kept <==> a in active && a in system {
          assert MemberOf(system)(a) == (a in system);
          assert a in order <==> a in Elements(order);
        }
      }
      active := map a | a in active && a in system :: active[a];
      assert Elements(kept) == active.Keys;
      order := kept;
      removed := |invalid|;
    }

    /**
     * `_check_prefix_change`: when the first system address has a prefix other than the
     * recorded one, the pool is rebuilt from the system addresses with the new prefix.
     */
    method CheckPrefixChange(now: real) returns (changed: bool)
      requires Valid()
      modifies this
      ensures Valid()
      ensures changed <==> |systemAddresses| > 0 && Some(ExtractPrefix(systemAddresses[0])) != old(lastPrefix)
      ensures !changed ==> active == old(active) && order == old(order) && lastPrefix == old(lastPrefix)
      ensures changed ==>
        var current := ExtractPrefix(systemAddresses[0]);
        && lastPrefix == Some(current)
        && order == Dedup(Filter(systemAddresses, HasPrefix(current)))
        && active == Stamp(map[], Filter(systemAddresses, HasPrefix(current)), now)
        && (forall a :: a in active ==> a in systemAddresses && ExtractPrefix(a) == current && active[a] == now)
      ensures systemAddresses == old(systemAddresses)
    {
      if |systemAddresses| == 0 {
        return false;
      }
      var current := ExtractPrefix(systemAddresses[0]);
      if Some(current) == lastPrefix {
        return false;
      }
      lastPrefix := Some(current);
      var n;
      order, active, n := InsertWhere([], map[], systemAddresses, HasPrefix(current), now);
      RebuiltPool(systemAddresses, current, now);
      return true;
    }

    /**
     * `_add_addresses`: up to `count * 3` attempts, each configuring one generated address
     * (attempt `k` uses GUID `guid(k)`) and then running `AddAttempt` on the listing
     * `listings(k)`; it stops once `count` addresses were added. `attemptOf[i]` is the
     * attempt that added `newOnes[i]`.
     */
    method AddAddresses(count: int, listings: nat -> seq<string>, guid: nat -> string, now: real)
      returns (added: nat, newOnes: seq<string>, attemptOf: seq<nat>, commands: seq<seq<string>>)
      requires Valid()
      requires forall k :: IsGuidHex(guid(k))
      modifies this
      ensures Valid()
      ensures lastPrefix == old(lastPrefix)
      ensures (lastPrefix.None? || lastPrefix.value == "") ==>
        added == 0 && commands == [] && active == old(active) && order == old(order)
        && systemAddresses == old(systemAddresses)
      ensures added <= (if count < 0 then 0 else count)
      ensures |commands| <= (if count < 0 then 0 else 3 * count)
      ensures lastPrefix.Some? && lastPrefix.value != "" && |commands| < 3 * count ==> added == count
      ensures lastPrefix.Some? ==> commands == AddCommands(isWindows, networkCard, lastPrefix.value, guid, |commands|)
      ensures added == |newOnes|
      ensures AddInvariant(order, active, systemAddresses, |commands|, newOnes, attemptOf,
                           old(order), old(active), old(systemAddresses), listings, now)
    {
      added, newOnes, attemptOf, commands := 0, [], [], [];
      AddInvariantStart(order, active, systemAddresses, listings, now);
      if lastPrefix.None? || lastPrefix.value == "" {
        return;
      }
      var o, m, system, attempts;
      o, m, system, attempts, newOnes, attemptOf := RunAttempts(order, active, systemAddresses, count, listings, now);
      commands := ConfigureIpv6Addresses(lastPrefix.value, attempts, networkCard, isWindows, guid);
      added := |newOnes|;
      order, active, systemAddresses := o, m, system;
    }

    /**
     * `if len(self.active_addresses) < self.pool_size: await self._add_addresses(needed)`, the
     * top-up both `initialize` and `maintain_pool` end with: `requested` addresses are asked
     * for when the pool is below its size, none otherwise.
     */
    method TopUp(listings: nat -> seq<string>, guid: nat -> string, now: real)
      returns (requested: int, added: nat, ghost attempts: nat, ghost newOnes: seq<string>, ghost attemptOf: seq<nat>)
      requires Valid()
      requires forall k :: IsGuidHex(guid(k))
      modifies this
      ensures Valid() && lastPrefix == old(lastPrefix)
      ensures requested == if |old(order)| < poolSize then poolSize - |old(order)| else 0
      ensures requested == 0 ==> attempts == 0 && newOnes == []
      ensures attempts <= 3 * requested && added == |newOnes| <= requested
      ensures lastPrefix.Some? && lastPrefix.value != "" && attempts < 3 * requested ==> |newOnes| == requested
      ensures AddInvariant(order, active, systemAddresses, attempts, newOnes, attemptOf,
                           old(order), old(active), old(systemAddresses), listings, now)
      ensures forall a :: a in active ==> a in old(active) || a in newOnes
    {
      requested, added, attempts, newOnes, attemptOf := 0, 0, 0, [], [];
      AddInvariantStart(order, active, systemAddresses, listings, now);
      if |order| < poolSize {
        requested := poolSize - |order|;
        var before := active;
        var commands;
        added, newOnes, attemptOf, commands := AddAddresses(requested, listings, guid, now);
        attempts := |commands|;
        StampSpec(before, newOnes, now);
      }
    }

    /**
     * `maintain_pool`: cleanup against the listing, prefix check, then a request for
     * `pool_size - count` addresses when the pool is below its size. Returns the removed count,
     * whether the prefix changed, the number requested (0 when none) and the number added.
     * `order1` and `active1` are the pool after the cleanup and the prefix check: the survivors
     * of the cleanup, or the pool rebuilt for a new prefix; the top-up then appends `newOnes`
     * to it, `attempts` being the number of addresses it configured.
     */
    method MaintainPool(listing: seq<string>, listings: nat -> seq<string>, guid: nat -> string, now: real)
      returns (removed: nat, prefixChanged: bool, requested: int, added: nat,
               ghost order1: seq<string>, ghost active1: map<string, real>,
               ghost attempts: nat, ghost newOnes: seq<string>, ghost attemptOf: seq<nat>)
      requires Valid()
      requires forall k :: IsGuidHex(guid(k))
      modifies this
      ensures Valid()
      ensures removed == |old(order)| - |Filter(old(order), MemberOf(PublicOf(listing)))|
      ensures prefixChanged <==> |PublicOf(listing)| > 0 && Some(ExtractPrefix(PublicOf(listing)[0])) != old(lastPrefix)
      ensures prefixChanged ==>
        var p := ExtractPrefix(PublicOf(listing)[0]);
        && lastPrefix == Some(p)
        && order1 == Dedup(Filter(PublicOf(listing), HasPrefix(p)))
        && active1 == Stamp(map[], Filter(PublicOf(listing), HasPrefix(p)), now)
      ensures !prefixChanged ==>
        && lastPrefix == old(lastPrefix)
        && order1 == Filter(old(order), MemberOf(PublicOf(listing)))
        && (forall a :: a in active1 <==> a in old(active) && a in PublicOf(listing))
        && (forall a :: a in active1 ==> active1[a] == old(active)[a])
      ensures requested == if |order1| < poolSize then poolSize - |order1| else 0
      ensures requested == 0 ==> attempts == 0 && newOnes == []
      ensures attempts <= 3 * requested
      ensures lastPrefix.Some? && lastPrefix.value != "" && attempts < 3 * requested ==> added == requested
      ensures added == |newOnes|
      ensures AddInvariant(order, active, systemAddresses, attempts, newOnes, attemptOf,
                           order1, active1, PublicOf(listing), listings, now)
      ensures requested >= 0 && added <= requested
      ensures requested > 0 ==> |order| <= poolSize && |order| + requested == poolSize + added
      ensures requested == 0 ==> |order| >= poolSize
    {
      removed := CleanupInvalidAddresses(listing);
      prefixChanged := CheckPrefixChange(now);
      order1, active1 := order, active;
      requested, added, attempts, newOnes, attemptOf := TopUp(listings, guid, now);
    }

    /** `get_random_address`: `random.choice` over the keys, modelled by the index `choice`. */
    method GetRandomAddress(choice: nat) returns (r: Option<string>)
      requires Valid()
      ensures r.None? <==> |active| == 0
      ensures r.Some? ==> r.value in active && r.value == order[choice % |order|]
    {
      if |order| == 0 {
        assert active.Keys == {};
        return None;
      }
      assert order[0] in active.Keys;
      return Some(order[choice % |order|]);
    }

    function GetAddressCount(): (n: nat)
      reads this
      requires Valid()
      ensures n == |GetAllAddresses()|
    {
      ElementsCardinality(order);
      assert |active.Keys| == |active|;
      |active|
    }

    function GetAllAddresses(): (r: seq<string>)
      reads this
      requires Valid()
      ensures Distinct(r) && forall a :: a in r <==> a in active
    {
      order
    }

    /**
     * `verify_and_add` over every system address: a public address whose probe succeeds is
     * (re)inserted with the current time; the result counts the successful probes.
     */
    method VerifyExisting(verify: string -> bool, now: real) returns (verified: nat)
      requires Valid()
      modifies this
      ensures Valid()
      ensures verified == |Filter(systemAddresses, Probe(verify))|
      ensures order == Dedup(old(order) + Filter(systemAddresses, Probe(verify)))
      ensures active == Stamp(old(active), Filter(systemAddresses, Probe(verify)), now)
      ensures systemAddresses == old(systemAddresses) && lastPrefix == old(lastPrefix)
    {
      order, active, verified := InsertWhere(order, active, systemAddresses, Probe(verify), now);
    }

    /**
     * The first part of `initialize` (lines 34-81): refresh the system list, fail when it has no
     * public address, record the prefix of the first one, and keep those that pass the probe;
     * fail when none passes, the pool then being as it was.
     */
    method AdmitVerified(listing: seq<string>, verify: string -> bool, now: real) returns (ok: bool)
      requires Valid()
      modifies this
      ensures Valid() && systemAddresses == PublicOf(listing)
      ensures ok <==> exists a :: a in PublicOf(listing) && verify(a)
      ensures PublicOf(listing) != [] ==> lastPrefix == Some(ExtractPrefix(PublicOf(listing)[0]))
      ensures PublicOf(listing) == [] ==> lastPrefix == old(lastPrefix)
      ensures !ok ==> order == old(order) && active == old(active)
      ensures ok ==>
        && order == Dedup(old(order) + Filter(PublicOf(listing), Probe(verify)))
        && active == Stamp(old(active), Filter(PublicOf(listing), Probe(verify)), now)
      ensures ok ==> forall a :: a in active <==> a in old(active) || (a in PublicOf(listing) && verify(a))
    {
      RefreshSystemAddresses(listing);
      if |systemAddresses| == 0 {
        return false;
      }
      lastPrefix := Some(ExtractPrefix(systemAddresses[0]));
      var before := order;
      var verified := VerifyExisting(verify, now);
      var passed := Filter(systemAddresses, Probe(verify));
      FilterSpec(systemAddresses, Probe(verify));
      PublicOfSpec(listing);
      assert forall a :: a in passed <==> a in PublicOf(listing) && verify(a);
      if verified == 0 {
        assert passed == [];
        assert before + passed == before;
        DedupOfDistinct(before);
        return false;
      }
      assert passed[0] in PublicOf(listing) && verify(passed[0]);
      StampSpec(old(active), passed, now);
      return true;
    }

    /**
     * `initialize`: fails when the listing has no public address or none of them passes the
     * probe, leaving the pool as it was; otherwise records the prefix of the first system
     * address, keeps the verified ones and tops the pool up towards `pool_size`. `order1` and
     * `active1` are the pool once the verified addresses are in; the top-up then appends
     * `newOnes` to it, `attempts` being the number of addresses it configured.
     */
    method Initialize(listing: seq<string>, verify: string -> bool, now: real, listings: nat -> seq<string>, guid: nat -> string)
      returns (ok: bool, ghost order1: seq<string>, ghost active1: map<string, real>,
               ghost attempts: nat, ghost newOnes: seq<string>, ghost attemptOf: seq<nat>)
      requires Valid()
      requires forall k :: IsGuidHex(guid(k))
      modifies this
      ensures Valid()
      ensures ok <==> exists a :: a in PublicOf(listing) && verify(a)
      ensures PublicOf(listing) != [] ==> lastPrefix == Some(ExtractPrefix(PublicOf(listing)[0]))
      ensures PublicOf(listing) == [] ==> lastPrefix == old(lastPrefix)
      ensures !ok ==> order == old(order) && active == old(active)
      ensures ok ==>
        && order1 == Dedup(old(order) + Filter(PublicOf(listing), Probe(verify)))
        && active1 == Stamp(old(active), Filter(PublicOf(listing), Probe(verify)), now)
        && AddInvariant(order, active, systemAddresses, attempts, newOnes, attemptOf,
                        order1, active1, PublicOf(listing), listings, now)
        && (|order1| >= poolSize ==> attempts == 0 && newOnes == [])
        && (|order1| < poolSize ==> attempts <= 3 * (poolSize - |order1|) && |newOnes| <= poolSize - |order1|)
        && (|order1| < poolSize && lastPrefix.value != "" && attempts < 3 * (poolSize - |order1|) ==>
              |newOnes| == poolSize - |order1|)
      ensures ok ==> forall a :: a in PublicOf(listing) && verify(a) ==> a in active
      ensures ok ==> forall a :: a in active && a !in old(active) ==> (a in PublicOf(listing) && verify(a)) || a in newOnes
    {
      order1, active1, attempts, newOnes, attemptOf := order, active, 0, [], [];
      ok := AdmitVerified(listing, verify, now);
      if !ok {
        return;
      }
      order1, active1 := order, active;
      var requested, added;
      requested, added, attempts, newOnes, attemptOf := TopUp(listings, guid, now);
      StampSpec(active1, newOnes, now);
    }
  }
}
