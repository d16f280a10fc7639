/**
  The data of the UTXO index (domain/utxoindex): the stored tables, the virtual UTXO set they must
  describe, and the sums and counts that tie them together.
*/
module UtxoModel {
  import opened Basics

  type Script(==, !new)
  type Hash(==, !new)

  datatype Entry = Entry(script: Script, amount: nat, daaScore: nat, isCoinbase: bool)

  /** Key of an entry in the index: the script's bucket and the outpoint in it. */
  datatype Slot = Slot(script: Script, outpoint: Outpoint)

  type UtxoSet = map<Outpoint, Entry>
  type Index = map<Slot, Entry>

  /** The index's part of the database. */
  datatype Db = Db(
    utxos: Index,
    counts: map<Script, nat>,
    parents: Option<seq<Hash>>,
    supply: Option<nat>,
    countsInitialized: bool)

  /** What an outpoint names: a transaction output, with one script and one amount. */
  datatype Output = Output(script: Script, amount: nat)
  type Outputs = Outpoint -> Output

  /** A UTXO set read as an index. */
  function Slotted(u: UtxoSet): (m: Index)
    ensures forall k :: k in m <==> k.outpoint in u && u[k.outpoint].script == k.script
    ensures forall k :: k in m ==> m[k] == u[k.outpoint]
  {
    map k | k in (set o | o in u :: Slot(u[o].script, o)) :: u[k.outpoint]
  }

  // ---------- Sums ----------

  ghost function Total(m: Index): nat {
    if m == map[] then 0
    else
      var k :| k in m;
      m[k].amount + Total(m - {k})
  }

  lemma {:induction false} TotalRemove(m: Index, k: Slot)
    requires k in m
    ensures Total(m) == m[k].amount + Total(m - {k})
    decreases |m|
  {
    var p :| p in m && Total(m) == m[p].amount + Total(m - {p});
    if p != k {
      TotalRemove(m - {p}, k);
      TotalRemove(m - {k}, p);
      assert m - {p} - {k} == m - {k} - {p};
    }
  }

  lemma TotalAdd(m: Index, k: Slot, e: Entry)
    requires k !in m
    ensures Total(m[k := e]) == Total(m) + e.amount
  {
    TotalRemove(m[k := e], k);
    assert m[k := e] - {k} == m;
  }

  lemma {:induction false} TotalDisjoint(a: Index, b: Index)
    requires a.Keys !! b.Keys
    ensures Total(a + b) == Total(a) + Total(b)
    decreases |b|
  {
    if b == map[] {
      MapPlusEmpty(a, b);
    } else {
      var k :| k in b;
      TotalRemove(b, k);
      TotalRemove(a + b, k);
      MapMinusOne(a, b, k);
      TotalDisjoint(a, b - {k});
    }
  }

  lemma MapPlusEmpty(a: Index, b: Index)
    requires b == map[]
    ensures a + b == a
  {
  }

  lemma MapMinusOne(a: Index, b: Index, k: Slot)
    requires a.Keys !! b.Keys && k in b
    ensures (a + b) - {k} == a + (b - {k}) && (a + b)[k] == b[k]
  {
  }

  lemma MapSplit(m: Index, keys: set<Slot>)
    requires keys <= m.Keys
    ensures var part := map k | k in keys :: m[k];
      part.Keys == keys && (m - keys).Keys !! part.Keys && (m - keys) + part == m
  {
  }

  lemma TotalMinus(m: Index, r: Index)
    requires r.Keys <= m.Keys && forall k :: k in r ==> r[k].amount == m[k].amount
    ensures Total(m - r.Keys) + Total(r) == Total(m)
  {
    var gone := map k | k in r.Keys :: m[k];
    MapSplit(m, r.Keys);
    TotalDisjoint(m - r.Keys, gone);
    TotalSame(gone, r);
  }

  lemma {:induction false} TotalSame(a: Index, b: Index)
    requires a.Keys == b.Keys && forall k :: k in a ==> a[k].amount == b[k].amount
    ensures Total(a) == Total(b)
    decreases |a|
  {
    if a != map[] {
      var k :| k in a;
      TotalRemove(a, k);
      TotalRemove(b, k);
      TotalSame(a - {k}, b - {k});
    } else {
      assert b == map[];
    }
  }

  // ---------- Per-script parts ----------

  function SlotsOf(m: Index, s: Script): set<Slot> {
    set k | k in m && k.script == s
  }

  function CountOf(m: Index, s: Script): nat {
    |SlotsOf(m, s)|
  }

  function PartOf(m: Index, s: Script): Index {
    map k | k in m && k.script == s :: m[k]
  }

  ghost function Balance(m: Index, s: Script): nat {
    Total(PartOf(m, s))
  }

  lemma CountDisjoint(a: Index, b: Index, s: Script)
    requires a.Keys !! b.Keys
    ensures CountOf(a + b, s) == CountOf(a, s) + CountOf(b, s)
  {
    assert SlotsOf(a + b, s) == SlotsOf(a, s) + SlotsOf(b, s);
  }

  lemma CountMinus(m: Index, r: Index, s: Script)
    requires r.Keys <= m.Keys
    ensures CountOf(m - r.Keys, s) + CountOf(r, s) == CountOf(m, s)
  {
    assert SlotsOf(m, s) == SlotsOf(m - r.Keys, s) + SlotsOf(r, s);
  }

  /** Sum of the balances of a set of scripts. */
  ghost function Balances(m: Index, scripts: set<Script>): nat {
    if scripts == {} then 0
    else
      var s :| s in scripts;
      Balance(m, s) + Balances(m, scripts - {s})
  }

  /** The balances of all scripts of an index add up to its total. */
  lemma {:induction false} BalancesAddUp(m: Index, scripts: set<Script>)
    requires forall k :: k in m ==> k.script in scripts
    ensures Balances(m, scripts) == Total(m)
    decreases |scripts|
  {
    if scripts == {} {
      assert m == map[];
    } else {
      var s :| s in scripts && Balances(m, scripts) == Balance(m, s) + Balances(m, scripts - {s});
      var part := PartOf(m, s);
      var rest := m - part.Keys;
      forall t | t in scripts - {s} ensures PartOf(m, t) == PartOf(rest, t) { }
      BalancesAddUp(rest, scripts - {s});
      BalancesIgnore(m, rest, scripts - {s});
      TotalMinus(m, part);
      assert Balance(m, s) == Total(part);
      assert Balances(m, scripts - {s}) == Total(rest);
    }
  }

  lemma {:induction false} BalancesIgnore(m: Index, rest: Index, scripts: set<Script>)
    requires forall s :: s in scripts ==> PartOf(m, s) == PartOf(rest, s)
    ensures Balances(m, scripts) == Balances(rest, scripts)
    decreases |scripts|
  {
    if scripts != {} {
      var s :| s in scripts && Balances(m, scripts) == Balance(m, s) + Balances(m, scripts - {s});
      BalancesIgnore(m, rest, scripts - {s});
      BalancesRemove(rest, scripts, s);
      assert Balance(m, s) == Balance(rest, s);
    }
  }

  lemma {:induction false} BalancesRemove(m: Index, scripts: set<Script>, s: Script)
    requires s in scripts
    ensures Balances(m, scripts) == Balance(m, s) + Balances(m, scripts - {s})
    decreases |scripts|
  {
    var t :| t in scripts && Balances(m, scripts) == Balance(m, t) + Balances(m, scripts - {t});
    if t != s {
      BalancesRemove(m, scripts - {t}, s);
      BalancesRemove(m, scripts - {s}, t);
      assert scripts - {t} - {s} == scripts - {s} - {t};
    }
  }

  // ---------- What the stored tables must satisfy ----------

  /** A count record exists for exactly the scripts that have an entry, and holds their number. */
  ghost predicate CountsMatch(db: Db) {
    forall s :: (s in db.counts <==> CountOf(db.utxos, s) > 0) && (s in db.counts ==> db.counts[s] == CountOf(db.utxos, s))
  }

  ghost predicate SupplyMatches(db: Db) {
    db.supply == Some(WrapUint64(Total(db.utxos)))
  }

  /** Every entry carries the script and the amount of the output it stands for. */
  ghost predicate Genuine(m: Index, outputs: Outputs) {
    forall k :: k in m ==> k.script == outputs(k.outpoint).script && m[k].amount == outputs(k.outpoint).amount
  }

  ghost predicate GenuineSet(u: UtxoSet, outputs: Outputs) {
    forall o :: o in u ==> u[o].script == outputs(o).script && u[o].amount == outputs(o).amount
  }

  /** The index holds exactly the (script, outpoint) pairs of `u`, with their amounts. */
  ghost predicate Describes(m: Index, u: UtxoSet) {
    && m.Keys == Slotted(u).Keys
    && forall k :: k in m ==> m[k].amount == u[k.outpoint].amount
  }

  /** The synced marker is only on disk together with tables that describe its virtual UTXO set. */
  ghost predicate CrashSafe(db: Db, setOf: seq<Hash> -> UtxoSet) {
    db.parents.Some? ==>
      && db.countsInitialized && CountsMatch(db) && SupplyMatches(db)
      && Describes(db.utxos, setOf(db.parents.value))
  }
}
