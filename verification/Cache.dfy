// What the two-level value cache computes, on maps.
module Caches {
  import opened Keys
  import opened Records

  const MAXHITS := 3

  /** hits counts the uses of an entry on the old level; on the new level it is -1. */
  datatype Entry = Entry(value: seq<Byte>, hits: int)

  datatype Cache = Cache(entries: map<Key, Entry>, on: bool, oldAllow: nat, newAllow: nat)

  predicate IsNew(e: Entry) {
    e.hits == -1
  }

  predicate HitsOk(hits: int) {
    hits == -1 || hits >= 1
  }

  // ---- what a level has to account for --------------------------------------------------

  datatype Tally = Tally(count: nat, size: nat)

  function Plus(a: Tally, b: Tally): Tally {
    Tally(a.count + b.count, a.size + b.size)
  }

  /** The share of one entry in the account of a level. */
  function Share(k: Key, e: Entry, onNew: bool): Tally {
    if IsNew(e) == onNew then Tally(1, |k| + |e.value|) else Tally(0, 0)
  }

  ghost function Pick(m: map<Key, Entry>): (k: Key)
    requires m != map[]
    ensures k in m
  {
    assert m.Keys != {};
    var k :| k in m;
    k
  }

  /** Number and total size of the entries on a level. */
  ghost function Account(m: map<Key, Entry>, onNew: bool): Tally
    decreases |m|
  {
    if m == map[] then Tally(0, 0) else
      var k := Pick(m);
      RemovalShrinks(m, k);
      Plus(Share(k, m[k], onNew), Account(m - {k}, onNew))
  }

  lemma {:induction false} RemovalShrinks(m: map<Key, Entry>, k: Key)
    requires k in m
    ensures |m - {k}| == |m| - 1
  {
    assert (m - {k}).Keys == m.Keys - {k};
    assert |m| == |m.Keys| && |m - {k}| == |(m - {k}).Keys|;
  }

  lemma {:induction false} AccountUnfolds(m: map<Key, Entry>, onNew: bool)
    requires m != map[]
    ensures Account(m, onNew) == Plus(Share(Pick(m), m[Pick(m)], onNew), Account(m - {Pick(m)}, onNew))
  {
    hide Pick;
    hide Share;
    hide Plus;
  }

  /** The account does not depend on the order in which entries are counted. */
  lemma {:induction false} AccountWithout(m: map<Key, Entry>, k: Key, onNew: bool)
    requires k in m
    ensures Account(m, onNew) == Plus(Share(k, m[k], onNew), Account(m - {k}, onNew))
    decreases |m|
  {
    hide Pick;
    hide Share;
    hide Account;
    var x := Pick(m);
    AccountUnfolds(m, onNew);
    if x != k {
      RemovalShrinks(m, x);
      AccountWithout(m - {x}, k, onNew);
      RemovalShrinks(m, k);
      AccountWithout(m - {k}, x, onNew);
      RemovalsCommute(m, x, k);
    }
  }

  lemma {:induction false} RemovalsCommute(m: map<Key, Entry>, x: Key, k: Key)
    ensures m - {x} - {k} == m - {k} - {x}
  {
  }

  lemma {:induction false} AccountChange(m: map<Key, Entry>, k: Key, e: Entry, onNew: bool)
    requires k in m
    ensures Plus(Account(m[k := e], onNew), Share(k, m[k], onNew)) == Plus(Account(m, onNew), Share(k, e, onNew))
  {
    hide Account;
    hide Share;
    AccountWithout(m, k, onNew);
    AccountWithout(m[k := e], k, onNew);
    assert m[k := e] - {k} == m - {k};
  }

  lemma {:induction false} AccountNewKey(m: map<Key, Entry>, k: Key, e: Entry, onNew: bool)
    requires k !in m
    ensures Account(m[k := e], onNew) == Plus(Share(k, e, onNew), Account(m, onNew))
  {
    hide Account;
    hide Share;
    AccountWithout(m[k := e], k, onNew);
    assert m[k := e] - {k} == m;
  }

  // ---- the operations -----------------------------------------------------------------------

  function Allowance(c: Cache, onNew: bool): nat {
    if onNew then c.newAllow else c.oldAllow
  }

  /** The fourth use takes an entry from the old level to the new one. */
  function Used(e: Entry): Entry {
    if IsNew(e) then e
    else if e.hits + 1 > MAXHITS then e.(hits := -1)
    else e.(hits := e.hits + 1)
  }

  /** One use of an entry. None: its level is over its allowance, and the eviction that follows
      goes through a link that was never set. */
  ghost function Touch(c: Cache, key: Key): Option<Cache>
    requires key in c.entries
  {
    var e := c.entries[key];
    if Account(c.entries, IsNew(e)).size >= Allowance(c, IsNew(e)) then None
    else Some(c.(entries := c.entries[key := Used(e)]))
  }

  /** A value that is already there is used, not replaced. */
  ghost function Set(c: Cache, key: Key, value: seq<Byte>): Option<Cache> {
    if !c.on then Some(c)
    else if key in c.entries then Touch(c, key)
    else Touch(c.(entries := c.entries[key := Entry(value, 1)]), key)
  }

  ghost function Get(c: Cache, key: Key): Option<Cache> {
    if c.on && key in c.entries then Touch(c, key) else Some(c)
  }

  function Remove(c: Cache, key: Key): Cache {
    if c.on then c.(entries := c.entries - {key}) else c
  }

  /** What one use does to the two accounts. */
  lemma {:induction false} UseAccounts(m: map<Key, Entry>, key: Key)
    requires key in m && HitsOk(m[key].hits)
    ensures var m', size := m[key := Used(m[key])], |key| + |m[key].value|;
            if IsNew(m[key]) then m' == m
            else if m[key].hits < MAXHITS then Account(m', true) == Account(m, true)
              && Account(m', false) == Account(m, false)
            else
              && Account(m, false).count >= 1 && Account(m, false).size >= size
              && Account(m', true) == Plus(Account(m, true), Tally(1, size))
              && Account(m, false) == Plus(Account(m', false), Tally(1, size))
  {
    hide Account;
    var e := m[key];
    AccountChange(m, key, Used(e), true);
    AccountChange(m, key, Used(e), false);
  }

  /** Promotion moves an entry between the accounts and loses nothing. */
  lemma {:induction false} TouchConserves(c: Cache, key: Key)
    requires key in c.entries && HitsOk(c.entries[key].hits) && Touch(c, key).Some?
    ensures var c' := Touch(c, key).value;
            && Plus(Account(c'.entries, true), Account(c'.entries, false)) ==
               Plus(Account(c.entries, true), Account(c.entries, false))
            && (Account(c'.entries, true) == Account(c.entries, true) <==>
                c.entries[key].hits < MAXHITS)
            && c'.entries.Keys == c.entries.Keys
            && forall k :: k in c.entries ==> c'.entries[k].value == c.entries[k].value
  {
    hide Account;
    var e := c.entries[key];
    AccountChange(c.entries, key, Used(e), true);
    AccountChange(c.entries, key, Used(e), false);
  }

  // ---- exactly when a use stops the process ---------------------------------------------------------

  /** An entry on the new level is measured against the new level's allowance, one on the old level
      against the old level's, before it is used: a level that has reached its own allowance stops the
      process, and nothing else does. */
  lemma {:induction false} UseStopsIff(c: Cache, key: Key, value: seq<Byte>)
    requires c.on && key in c.entries
    ensures Get(c, key).None? <==>
              if c.entries[key].hits == -1 then Account(c.entries, true).size >= c.newAllow
              else Account(c.entries, false).size >= c.oldAllow
    ensures Set(c, key, value) == Get(c, key)
  {
    hide Account;
  }

  /** A new entry is counted on the old level first. */
  lemma {:induction false} EnterStopsIff(c: Cache, key: Key, value: seq<Byte>)
    requires c.on && key !in c.entries
    ensures Set(c, key, value).None? <==> Account(c.entries, false).size + |key| + |value| >= c.oldAllow
  {
    hide Account;
    AccountNewKey(c.entries, key, Entry(value, 1), false);
  }

  /** Each level lies below its own allowance. */
  ghost predicate Below(c: Cache) {
    Account(c.entries, true).size < c.newAllow && Account(c.entries, false).size < c.oldAllow
  }

  lemma {:induction false} BelowNeverStops(c: Cache, key: Key)
    requires Below(c)
    ensures Get(c, key).Some?
  {
    hide Account;
    if c.on && key in c.entries {
      UseStopsIff(c, key, []);
    }
  }

  /** A cache that is switched off never stops the process, and never changes. */
  lemma {:induction false} OffNeverStops(c: Cache, key: Key, value: seq<Byte>)
    requires !c.on
    ensures Get(c, key) == Some(c) && Set(c, key, value) == Some(c) && Remove(c, key) == c
  {
  }

  /** A value that was cached just now goes to the new level with the second fetch behind that, not before. */
  lemma {:induction false} SecondFetchPromotes(c: Cache, key: Key, value: seq<Byte>, c1: Cache, c2: Cache, c3: Cache)
    requires c.on && key !in c.entries
    requires Set(c, key, value) == Some(c1) && Get(c1, key) == Some(c2)
    requires Get(c2, key) == Some(c3)
    ensures key in c1.entries && key in c2.entries && key in c3.entries
    ensures c1.entries[key].hits != -1 && c2.entries[key].hits != -1 && c3.entries[key].hits == -1
    ensures c1.entries[key].value == c2.entries[key].value == c3.entries[key].value == value
    ensures Get(c3, key).Some? ==> Get(c3, key).value == c3
  {
    hide Account;
    assert c3.entries[key := c3.entries[key]] == c3.entries;
  }

  /** Forgetting a key leaves all other entries as they are. */
  lemma {:induction false} RemoveForgetsOne(c: Cache, key: Key, other: Key)
    ensures c.on ==> key !in Remove(c, key).entries
    ensures other != key ==> (other in Remove(c, key).entries <==> other in c.entries)
    ensures other != key && other in c.entries ==> Remove(c, key).entries[other] == c.entries[other]
  {
  }
}
