/**
 * The activity transformation of `showInfo`: the skills object built from
 * the skill records, the XP transactions reversed in place into ascending
 * time order, the list of day-boundary labels, and the per-day cumulative
 * XP object.
 *
 * A JavaScript object is a `Dict`: its keys in insertion order and the value
 * stored under each. The day label of a timestamp (`toLocaleString()` cut
 * at the first `", "`) is the parameter `dayOf`. Amounts are integers, so
 * `Math.floor` is the identity.
 */
module Activity {
  import opened Strings

  datatype SkillRecord = SkillRecord(skillType: string, amount: int)

  datatype Transaction = Transaction(amount: int, createdAt: string, eventId: int, path: string)

  /** No key is listed twice. */
  ghost predicate Distinct<K>(keys: seq<K>) {
    forall i, j :: 0 <= i < j < |keys| ==> keys[i] != keys[j]
  }

  /**
   * A JavaScript object with string keys: its keys in insertion order, and
   * the value under each key at the same position, so `values` is
   * `Object.values(obj)`.
   */
  datatype Dict<K(==)> = Dict(keys: seq<K>, values: seq<int>) {

    /** One value per key. */
    ghost predicate Valid() {
      |keys| == |values|
    }

    /** `obj[k]` is `v`: the key is present and its value is `v`. */
    ghost predicate Stores(k: K, v: int)
      requires Valid()
    {
      k in keys && forall p :: 0 <= p < |keys| && keys[p] == k ==> values[p] == v
    }

    /** `obj[k] = v`: a new key goes to the end of the key order, an existing key keeps its place. */
    function Put(k: K, v: int): (r: Dict<K>)
      requires Valid()
      ensures r.Valid()
      ensures r.keys == if k in keys then keys else keys + [k]
      ensures r.Stores(k, v)
      ensures forall p :: 0 <= p < |keys| && keys[p] != k ==> r.values[p] == values[p]
    {
      if k in keys then
        Dict(keys, seq(|keys|, p requires 0 <= p < |keys| => if keys[p] == k then v else values[p]))
      else
        Dict(keys + [k], values + [v])
    }
  }

  /** `obj[k] = v` never lists a key twice. */
  lemma PutDistinct<K>(d: Dict<K>, k: K, v: int)
    requires d.Valid() && Distinct(d.keys)
    ensures Distinct(d.Put(k, v).keys)
  {
  }

  // ---------------------------------------------------------------------
  // Skills
  // ---------------------------------------------------------------------

  /** The length of the `skill_` prefix that `slice(6)` drops. */
  const PrefixLength: nat := 6

  /** `type.slice(6)`: the type without its first six characters, or `""` when it is shorter. */
  function SkillKey(skillType: string): (key: string)
    ensures |skillType| >= PrefixLength ==> skillType == skillType[..PrefixLength] + key
    ensures |skillType| < PrefixLength ==> key == ""
  {
    if |skillType| >= PrefixLength then skillType[PrefixLength..] else ""
  }

  /** A `skill_<name>` type gives the key `<name>`. */
  lemma SkillKeyStripsPrefix(name: string)
    ensures SkillKey("skill_" + name) == name
  {
    assert ("skill_" + name)[PrefixLength..] == name;
  }

  /**
   * The distinct elements of `s`, each at the place of its first occurrence:
   * the key order of an object whose keys were written in the order `s`.
   */
  function FirstOccurrences(s: seq<string>): (r: seq<string>)
    ensures forall x :: x in r <==> x in s
    ensures Distinct(r)
  {
    if s == [] then []
    else
      var n := |s| - 1;
      var prev := FirstOccurrences(s[..n]);
      assert forall x :: x in s <==> x in s[..n] || x == s[n];
      if s[n] in s[..n] then prev else prev + [s[n]]
  }

  /** The key of each entry, in order. */
  function EntryKeys(entries: seq<(string, int)>): (keys: seq<string>)
    ensures |keys| == |entries|
    ensures forall i :: 0 <= i < |entries| ==> keys[i] == entries[i].0
  {
    seq(|entries|, i requires 0 <= i < |entries| => entries[i].0)
  }

  /**
   * `Object.fromEntries(entries)`: every key that occurs is present and holds
   * the value of its last entry, and no key is listed twice.
   */
  function FromEntries(entries: seq<(string, int)>): (r: Dict<string>)
    ensures r.Valid() && Distinct(r.keys)
    ensures forall i :: 0 <= i < |entries| ==> entries[i].0 in r.keys
    ensures forall i :: (0 <= i < |entries| && (forall j :: i < j < |entries| ==> entries[j].0 != entries[i].0)
      ==> r.Stores(entries[i].0, entries[i].1))
    decreases |entries|
  {
    if entries == [] then Dict([], [])
    else
      var n := |entries| - 1;
      var prev := FromEntries(entries[..n]);
      assert forall i :: 0 <= i < n ==> entries[..n][i] == entries[i];
      PutDistinct(prev, entries[n].0, entries[n].1);
      prev.Put(entries[n].0, entries[n].1)
  }

  /** The keys of `Object.fromEntries(entries)` are the entry keys in first-occurrence order. */
  lemma {:induction false} FromEntriesKeyOrder(entries: seq<(string, int)>)
    ensures FromEntries(entries).keys == FirstOccurrences(EntryKeys(entries))
    decreases |entries|
  {
    if entries != [] {
      var n := |entries| - 1;
      FromEntriesKeyOrder(entries[..n]);
      assert EntryKeys(entries)[..n] == EntryKeys(entries[..n]);
      assert EntryKeys(entries)[n] == entries[n].0;
    }
  }

  /** `Object.fromEntries` adds no key that no entry has. */
  lemma {:induction false} FromEntriesOnlyGiven(entries: seq<(string, int)>, k: string)
    requires k in FromEntries(entries).keys
    ensures exists i :: 0 <= i < |entries| && entries[i].0 == k
    decreases |entries|
  {
    var n := |entries| - 1;
    if entries[n].0 != k {
      FromEntriesOnlyGiven(entries[..n], k);
      var i :| 0 <= i < n && entries[..n][i].0 == k;
      assert entries[i].0 == k;
    }
  }

  /** The key/amount pair of each skill record, in order. */
  function SkillEntries(skills: seq<SkillRecord>): (entries: seq<(string, int)>)
    ensures |entries| == |skills|
    ensures forall i :: 0 <= i < |skills| ==> entries[i] == (SkillKey(skills[i].skillType), skills[i].amount)
  {
    seq(|skills|, i requires 0 <= i < |skills| => (SkillKey(skills[i].skillType), skills[i].amount))
  }

  /**
   * The skills object: each record's type without its prefix maps to that
   * record's amount; on a repeated key the later record wins.
   */
  function SkillsMap(skills: seq<SkillRecord>): (r: Dict<string>)
    ensures r.Valid() && Distinct(r.keys)
    ensures forall i :: 0 <= i < |skills| ==> SkillKey(skills[i].skillType) in r.keys
    ensures forall i :: (0 <= i < |skills|
      && (forall j :: i < j < |skills| ==> SkillKey(skills[j].skillType) != SkillKey(skills[i].skillType))
      ==> r.Stores(SkillKey(skills[i].skillType), skills[i].amount))
  {
    var entries := SkillEntries(skills);
    var r := FromEntries(entries);
    assert forall i :: 0 <= i < |skills| ==> entries[i].0 == SkillKey(skills[i].skillType);
    r
  }

  /** The keys of the skills object are the stripped record types in first-occurrence order. */
  lemma SkillsKeyOrder(skills: seq<SkillRecord>)
    ensures SkillsMap(skills).keys == FirstOccurrences(seq(|skills|, i requires 0 <= i < |skills| => SkillKey(skills[i].skillType)))
  {
    var entries := SkillEntries(skills);
    FromEntriesKeyOrder(entries);
    assert EntryKeys(entries) == seq(|skills|, i requires 0 <= i < |skills| => SkillKey(skills[i].skillType));
  }

  /** The skills object has no key that no record gives. */
  lemma SkillsOnlyGiven(skills: seq<SkillRecord>, k: string)
    requires k in SkillsMap(skills).keys
    ensures exists i :: 0 <= i < |skills| && SkillKey(skills[i].skillType) == k
  {
    var entries := SkillEntries(skills);
    FromEntriesOnlyGiven(entries, k);
    var i :| 0 <= i < |entries| && entries[i].0 == k;
    assert SkillKey(skills[i].skillType) == k;
  }

  /** Two records of one skill type: one key, holding the later amount. */
  lemma LaterRecordWins(name: string, first: int, second: int)
    ensures SkillsMap([SkillRecord("skill_" + name, first), SkillRecord("skill_" + name, second)])
      == Dict([name], [second])
  {
    var skills := [SkillRecord("skill_" + name, first), SkillRecord("skill_" + name, second)];
    SkillKeyStripsPrefix(name);
    var entries := SkillEntries(skills);
    assert entries == [(name, first), (name, second)];
    assert entries[..1] == [(name, first)] && entries[..1][..0] == [];
    var none: Dict<string> := Dict([], []);
    assert FromEntries(entries[..1][..0]) == none;
    var one := FromEntries(entries[..1]);
    assert one == none.Put(name, first);
    assert none.keys + [name] == [name] && none.values + [first] == [first];
    var two := one.Put(name, second);
    assert FromEntries(entries) == two;
    assert two.values == [second];
  }

  // ---------------------------------------------------------------------
  // Transactions in ascending order
  // ---------------------------------------------------------------------

  /** The path marker of the excluded training track. */
  const ExcludedTrack: string := "piscine-go"

  /** `t.path.includes('piscine-go')`. */
  predicate Excluded(t: Transaction) {
    Contains(t.path, ExcludedTrack)
  }

  /** The day label of a transaction. */
  function Day<D>(t: Transaction, dayOf: string -> D): D {
    dayOf(t.createdAt)
  }

  /** The elements of `s` in the opposite order: position `k` holds position `|s| - 1 - k`. */
  function Reversed<T>(s: seq<T>): (r: seq<T>)
    ensures |r| == |s|
    ensures forall k :: 0 <= k < |s| ==> r[k] == s[|s| - 1 - k]
    decreases |s|
  {
    if s == [] then []
    else
      var rest := Reversed(s[..|s| - 1]);
      assert forall k :: 0 <= k < |s| - 1 ==> s[..|s| - 1][k] == s[k];
      [s[|s| - 1]] + rest
  }

  /** `transaction.reverse()`: the array is reversed in place. */
  method ReverseInPlace(a: array<Transaction>)
    modifies a
    ensures a[..] == Reversed(old(a[..]))
  {
    var lo, hi := 0, a.Length - 1;
    while lo < hi
      invariant 0 <= lo <= a.Length && hi == a.Length - 1 - lo
      invariant forall k :: 0 <= k < lo ==> a[k] == old(a[a.Length - 1 - k]) && a[a.Length - 1 - k] == old(a[k])
      invariant forall k :: lo <= k <= hi ==> a[k] == old(a[k])
    {
      a[lo], a[hi] := a[hi], a[lo];
      lo, hi := lo + 1, hi - 1;
    }
  }

  /** The transactions that are not excluded, in order. */
  function Kept(ts: seq<Transaction>): (r: seq<Transaction>)
    ensures |r| <= |ts|
    ensures forall i :: 0 <= i < |r| ==> !Excluded(r[i])
    decreases |ts|
  {
    if ts == [] then []
    else
      var n := |ts| - 1;
      Kept(ts[..n]) + (if Excluded(ts[n]) then [] else [ts[n]])
  }

  /**
   * `Kept` is the filter: its elements are the transactions at increasing
   * positions `idx` of `ts`, and these are exactly the positions whose
   * transaction is not excluded.
   */
  lemma {:induction false} KeptPositions(ts: seq<Transaction>) returns (idx: seq<nat>)
    ensures |idx| == |Kept(ts)|
    ensures forall p :: 0 <= p < |idx| ==> idx[p] < |ts| && Kept(ts)[p] == ts[idx[p]]
    ensures forall p, q :: 0 <= p < q < |idx| ==> idx[p] < idx[q]
    ensures forall i :: 0 <= i < |ts| ==> (i in idx <==> !Excluded(ts[i]))
    decreases |ts|
  {
    if ts == [] {
      idx := [];
    } else {
      var n := |ts| - 1;
      var prev := KeptPositions(ts[..n]);
      assert forall i :: 0 <= i < n ==> ts[..n][i] == ts[i];
      var k := Kept(ts[..n]);
      if Excluded(ts[n]) {
        idx := prev;
      } else {
        idx := prev + [n];
        assert forall p :: 0 <= p < |k| ==> (k + [ts[n]])[p] == k[p];
      }
    }
  }

  /** The day labels of the transactions that are not excluded, in order. */
  function KeptDays<D(==)>(ts: seq<Transaction>, dayOf: string -> D): (r: seq<D>)
    ensures |r| == |Kept(ts)|
    decreases |ts|
  {
    if ts == [] then []
    else
      var n := |ts| - 1;
      KeptDays(ts[..n], dayOf) + (if Excluded(ts[n]) then [] else [Day(ts[n], dayOf)])
  }

  /** The kept days are the days of the kept transactions, position by position. */
  lemma {:induction false} KeptDaysAt<D>(ts: seq<Transaction>, dayOf: string -> D)
    ensures forall p :: 0 <= p < |KeptDays(ts, dayOf)| ==> KeptDays(ts, dayOf)[p] == Day(Kept(ts)[p], dayOf)
    decreases |ts|
  {
    if ts != [] {
      var n := |ts| - 1;
      KeptDaysAt(ts[..n], dayOf);
    }
  }

  // ---------------------------------------------------------------------
  // Day-boundary labels
  // ---------------------------------------------------------------------

  /**
   * The first `forEach` of `showInfo` over `ts`, starting from `first`: the
   * labels pushed and the final `prevDate`. A label is pushed, with
   * `prevDate` moving on, for each transaction that is not excluded and
   * whose day differs from `prevDate`.
   */
  function DayScan<D(==)>(ts: seq<Transaction>, first: D, dayOf: string -> D): (r: (seq<D>, D))
    ensures |r.0| <= |Kept(ts)|
    ensures r.0 == [] ==> r.1 == first
    ensures r.0 != [] ==> r.0[0] == first
    decreases |ts|
  {
    if ts == [] then ([], first)
    else
      var n := |ts| - 1;
      var (dates, prevDate) := DayScan(ts[..n], first, dayOf);
      var date := Day(ts[n], dayOf);
      if date != prevDate && !Excluded(ts[n]) then (dates + [prevDate], date) else (dates, prevDate)
  }

  /** One label per run of equal adjacent days: the runs of `s`, oldest first. */
  function Runs<D(==)>(s: seq<D>): (r: seq<D>)
    ensures |r| <= |s|
    ensures s != [] ==> r != [] && r[|r| - 1] == s[|s| - 1]
    decreases |s|
  {
    if s == [] then []
    else
      var r := Runs(s[..|s| - 1]);
      if r != [] && r[|r| - 1] == s[|s| - 1] then r else r + [s[|s| - 1]]
  }

  /** Neighbouring runs differ: a label is pushed only where the day changes. */
  lemma {:induction false} RunsAdjacentDiffer<D>(s: seq<D>, i: nat)
    requires i + 1 < |Runs(s)|
    ensures Runs(s)[i] != Runs(s)[i + 1]
    decreases |s|
  {
    var r := Runs(s[..|s| - 1]);
    if i + 1 < |r| {
      RunsAdjacentDiffer(s[..|s| - 1], i);
    }
  }

  /** Appending one day to a non-empty list extends its runs by that day unless it repeats the last one. */
  lemma RunsSnoc<D>(s: seq<D>, d: D)
    requires s != []
    ensures var r := Runs(s);
      Runs(s + [d]) == if r[|r| - 1] == d then r else r + [d]
  {
    assert (s + [d])[..|s|] == s;
  }

  /** A leading day equal to the next one adds no run. */
  lemma {:induction false} RunsRepeatedHead<D>(x: D, s: seq<D>)
    requires s != [] && s[0] == x
    ensures Runs([x] + s) == Runs(s)
    decreases |s|
  {
    if |s| == 1 {
      assert [x] + s == [x] + [x];
      RunsSnoc([x], x);
      assert Runs([x]) == [x] by { assert [x][..0] == []; }
    } else {
      var p, d := s[..|s| - 1], s[|s| - 1];
      assert Runs([x] + p) == Runs(p) by {
        RunsRepeatedHead(x, p);
      }
      assert Runs([x] + s) == Runs(([x] + p) + [d]) by {
        assert [x] + s == ([x] + p) + [d];
      }
      assert Runs(s) == Runs(p + [d]) by {
        assert s == p + [d];
      }
      RunsSnoc([x] + p, d);
      RunsSnoc(p, d);
    }
  }

  /**
   * The labels are the runs of the initial `prevDate` followed by the kept
   * days, all but the last: the final day is never appended, and it is the
   * final `prevDate`. So there is one label per day change.
   */
  lemma {:induction false} DayScanRuns<D>(ts: seq<Transaction>, first: D, dayOf: string -> D)
    ensures var (dates, last) := DayScan(ts, first, dayOf);
      dates + [last] == Runs([first] + KeptDays(ts, dayOf))
    decreases |ts|
  {
    if ts != [] {
      var n := |ts| - 1;
      DayScanRuns(ts[..n], first, dayOf);
      var s := [first] + KeptDays(ts[..n], dayOf);
      if !Excluded(ts[n]) {
        assert [first] + KeptDays(ts, dayOf) == s + [Day(ts[n], dayOf)];
        RunsSnoc(s, Day(ts[n], dayOf));
      } else {
        assert [first] + KeptDays(ts, dayOf) == s;
      }
    }
  }

  /** The number of labels is the number of runs less one, and the labels are those runs but the final one. */
  lemma DatesCount<D>(ts: seq<Transaction>, first: D, dayOf: string -> D)
    ensures var runs := Runs([first] + KeptDays(ts, dayOf));
      && |runs| >= 1
      && DayScan(ts, first, dayOf).0 == runs[..|runs| - 1]
      && |DayScan(ts, first, dayOf).0| == |runs| - 1
  {
    DayScanRuns(ts, first, dayOf);
    var (dates, last) := DayScan(ts, first, dayOf);
    assert (dates + [last])[..|dates|] == dates;
  }

  // ---------------------------------------------------------------------
  // Cumulative XP per day
  // ---------------------------------------------------------------------

  /** `total` after the second `forEach` over `ts`: it grows by each amount that is not excluded. */
  function CountedSum(ts: seq<Transaction>): int
    decreases |ts|
  {
    if ts == [] then 0
    else
      var n := |ts| - 1;
      CountedSum(ts[..n]) + (if Excluded(ts[n]) then 0 else ts[n].amount)
  }

  /** The sum of every amount. */
  function Sum(ts: seq<Transaction>): int
    decreases |ts|
  {
    if ts == [] then 0 else Sum(ts[..|ts| - 1]) + ts[|ts| - 1].amount
  }

  /**
   * The `xp` object after the second `forEach` over `ts`: each transaction
   * that is not excluded writes the running total including its own amount
   * under its day.
   */
  function XpOf<D(==)>(ts: seq<Transaction>, dayOf: string -> D): (r: Dict<D>)
    ensures r.Valid()
    decreases |ts|
  {
    if ts == [] then Dict([], [])
    else
      var n := |ts| - 1;
      var prev := XpOf(ts[..n], dayOf);
      if Excluded(ts[n]) then prev
      else prev.Put(Day(ts[n], dayOf), ts[n].amount + CountedSum(ts[..n]))
  }

  /** One more transaction: nothing changes when it is excluded, otherwise its day gets the new running total. */
  lemma {:induction false} XpOfSnoc<D>(ts: seq<Transaction>, t: Transaction, dayOf: string -> D)
    ensures XpOf(ts + [t], dayOf) ==
      if Excluded(t) then XpOf(ts, dayOf) else XpOf(ts, dayOf).Put(Day(t, dayOf), t.amount + CountedSum(ts))
    ensures CountedSum(ts + [t]) == CountedSum(ts) + if Excluded(t) then 0 else t.amount
  {
    assert (ts + [t])[..|ts|] == ts;
  }

  /** `xp` never lists a day twice. */
  lemma {:induction false} XpDistinct<D>(ts: seq<Transaction>, dayOf: string -> D)
    ensures Distinct(XpOf(ts, dayOf).keys)
    decreases |ts|
  {
    if ts != [] {
      var n := |ts| - 1;
      XpDistinct(ts[..n], dayOf);
      if !Excluded(ts[n]) {
        PutDistinct(XpOf(ts[..n], dayOf), Day(ts[n], dayOf), ts[n].amount + CountedSum(ts[..n]));
      }
    }
  }

  /** The day of every kept transaction is present in `xp`. */
  lemma {:induction false} XpHasKeptDays<D>(ts: seq<Transaction>, dayOf: string -> D, i: nat)
    requires i < |ts| && !Excluded(ts[i])
    ensures Day(ts[i], dayOf) in XpOf(ts, dayOf).keys
    decreases |ts|
  {
    var n := |ts| - 1;
    if i < n {
      XpHasKeptDays(ts[..n], dayOf, i);
      assert ts[..n][i] == ts[i];
    }
  }

  /** A day is present in `xp` only when some kept transaction falls on it. */
  lemma {:induction false} XpOnlyKeptDays<D>(ts: seq<Transaction>, dayOf: string -> D, d: D)
    requires d in XpOf(ts, dayOf).keys
    ensures exists i :: 0 <= i < |ts| && !Excluded(ts[i]) && Day(ts[i], dayOf) == d
    decreases |ts|
  {
    var n := |ts| - 1;
    if Excluded(ts[n]) || Day(ts[n], dayOf) != d {
      XpOnlyKeptDays(ts[..n], dayOf, d);
      var i :| 0 <= i < n && !Excluded(ts[..n][i]) && Day(ts[..n][i], dayOf) == d;
      assert ts[..n][i] == ts[i];
    }
  }

  /** After the loop, `total` is the sum of the amounts that are not excluded. */
  lemma {:induction false} TotalIsKeptSum(ts: seq<Transaction>)
    ensures CountedSum(ts) == Sum(Kept(ts))
    decreases |ts|
  {
    if ts != [] {
      var n := |ts| - 1;
      TotalIsKeptSum(ts[..n]);
      var k := Kept(ts[..n]);
      if !Excluded(ts[n]) {
        assert (k + [ts[n]])[..|k|] == k;
      } else {
        assert Kept(ts) == k;
      }
    }
  }

  /**
   * Last write wins: the value under a day is the running total up to and
   * including the last kept transaction on that day.
   */
  lemma {:induction false} XpLastWrite<D>(ts: seq<Transaction>, dayOf: string -> D, i: nat)
    requires i < |ts| && !Excluded(ts[i])
    requires forall j :: i < j < |ts| && !Excluded(ts[j]) ==> Day(ts[j], dayOf) != Day(ts[i], dayOf)
    ensures Day(ts[i], dayOf) in XpOf(ts, dayOf).keys
    ensures XpOf(ts, dayOf).Stores(Day(ts[i], dayOf), CountedSum(ts[..i + 1]))
    decreases |ts|
  {
    var n := |ts| - 1;
    assert ts[..n + 1] == ts;
    if i < n {
      assert forall j :: i < j < n ==> ts[..n][j] == ts[j];
      XpLastWrite(ts[..n], dayOf, i);
      assert ts[..n][..i + 1] == ts[..i + 1];
    }
  }

  /**
   * The kept transactions fall into runs by day: two kept transactions on
   * one day have only kept transactions of that day between them. This holds
   * when the list is in ascending time order and a day label is a monotone
   * function of the time.
   */
  ghost predicate DaysContiguous<D>(ts: seq<Transaction>, dayOf: string -> D) {
    forall i, j, k ::
      (&& 0 <= i < j < k < |ts|
       && !Excluded(ts[i]) && !Excluded(ts[j]) && !Excluded(ts[k])
       && Day(ts[i], dayOf) == Day(ts[k], dayOf))
      ==> Day(ts[j], dayOf) == Day(ts[i], dayOf)
  }

  /** Contiguity carries over to every prefix. */
  lemma ContiguousPrefix<D>(ts: seq<Transaction>, dayOf: string -> D, n: nat)
    requires DaysContiguous(ts, dayOf) && n <= |ts|
    ensures DaysContiguous(ts[..n], dayOf)
  {
    assert forall j :: 0 <= j < n ==> ts[..n][j] == ts[j];
  }

  /** A list with a kept transaction at `i` has a last kept transaction, at or after `i`. */
  lemma {:induction false} LastKeptExists(ts: seq<Transaction>, i: nat) returns (m: nat)
    requires i < |ts| && !Excluded(ts[i])
    ensures i <= m < |ts| && !Excluded(ts[m])
    ensures forall j :: m < j < |ts| ==> Excluded(ts[j])
    decreases |ts|
  {
    var n := |ts| - 1;
    if !Excluded(ts[n]) {
      m := n;
    } else {
      assert i < n;
      m := LastKeptExists(ts[..n], i);
      assert ts[..n][m] == ts[m];
    }
  }

  /** Writing a key that is new or already the last key leaves it last, holding the value written. */
  lemma PutLast<K>(d: Dict<K>, k: K, v: int)
    requires d.Valid()
    requires k in d.keys ==> d.keys[|d.keys| - 1] == k
    ensures var r := d.Put(k, v);
      r.keys != [] && r.keys[|r.keys| - 1] == k && r.values[|r.values| - 1] == v
  {
  }

  /**
   * With days in runs: the day of the last kept transaction is the last key,
   * and the last value is the whole running total.
   */
  lemma {:induction false} LastKeyIsLastKeptDay<D>(ts: seq<Transaction>, dayOf: string -> D, m: nat)
    requires DaysContiguous(ts, dayOf)
    requires m < |ts| && !Excluded(ts[m])
    requires forall j :: m < j < |ts| ==> Excluded(ts[j])
    ensures var xp := XpOf(ts, dayOf);
      && xp.keys != []
      && xp.keys[|xp.keys| - 1] == Day(ts[m], dayOf)
      && xp.values[|xp.values| - 1] == CountedSum(ts)
    decreases |ts|, 1
  {
    var n := |ts| - 1;
    var prefix := ts[..n];
    if m < n {
      ExcludedLast(ts, dayOf);
      assert prefix[m] == ts[m];
      ContiguousPrefix(ts, dayOf, n);
      assert forall j :: m < j < n ==> prefix[j] == ts[j];
      LastKeyIsLastKeptDay(prefix, dayOf, m);
    } else {
      RepeatedDayIsLastKey(ts, dayOf);
      KeptLast(ts, dayOf);
    }
  }

  /** An excluded last transaction leaves `xp` and `total` as the rest made them. */
  lemma ExcludedLast<D>(ts: seq<Transaction>, dayOf: string -> D)
    requires ts != [] && Excluded(ts[|ts| - 1])
    ensures XpOf(ts, dayOf) == XpOf(ts[..|ts| - 1], dayOf)
    ensures CountedSum(ts) == CountedSum(ts[..|ts| - 1])
  {
  }

  /**
   * A kept last transaction whose day is new or already the last key leaves
   * its day as the last key, holding the whole total.
   */
  lemma KeptLast<D>(ts: seq<Transaction>, dayOf: string -> D)
    requires ts != [] && !Excluded(ts[|ts| - 1])
    requires var prev := XpOf(ts[..|ts| - 1], dayOf).keys;
      Day(ts[|ts| - 1], dayOf) in prev ==> prev[|prev| - 1] == Day(ts[|ts| - 1], dayOf)
    ensures var xp := XpOf(ts, dayOf);
      && xp.keys != []
      && xp.keys[|xp.keys| - 1] == Day(ts[|ts| - 1], dayOf)
      && xp.values[|xp.values| - 1] == CountedSum(ts)
  {
    var n := |ts| - 1;
    PutLast(XpOf(ts[..n], dayOf), Day(ts[n], dayOf), ts[n].amount + CountedSum(ts[..n]));
  }

  /**
   * With days in runs, a kept transaction whose day is already in `xp` falls
   * on the last key so far.
   */
  lemma {:induction false} RepeatedDayIsLastKey<D>(ts: seq<Transaction>, dayOf: string -> D)
    requires DaysContiguous(ts, dayOf)
    requires ts != [] && !Excluded(ts[|ts| - 1])
    ensures var prev := XpOf(ts[..|ts| - 1], dayOf);
      Day(ts[|ts| - 1], dayOf) in prev.keys ==> prev.keys[|prev.keys| - 1] == Day(ts[|ts| - 1], dayOf)
    decreases |ts|, 0
  {
    var n := |ts| - 1;
    var prefix := ts[..n];
    var d := Day(ts[n], dayOf);
    if d in XpOf(prefix, dayOf).keys {
      ContiguousPrefix(ts, dayOf, n);
      XpOnlyKeptDays(prefix, dayOf, d);
      var i0 :| 0 <= i0 < n && !Excluded(prefix[i0]) && Day(prefix[i0], dayOf) == d;
      var m0 := LastKeptExists(prefix, i0);
      LastKeyIsLastKeptDay(prefix, dayOf, m0);
      assert Day(ts[m0], dayOf) == d by {
        if i0 < m0 {
          assert prefix[i0] == ts[i0] && prefix[m0] == ts[m0];
        }
      }
    }
  }

  /** The values in key order never decrease. */
  ghost predicate NonDecreasing(v: seq<int>) {
    forall i, j :: 0 <= i < j < |v| ==> v[i] <= v[j]
  }

  /**
   * With days in runs and no negative kept amount, the `xp` values in key
   * order never decrease, and none exceeds the total.
   */
  lemma {:induction false} XpMonotone<D>(ts: seq<Transaction>, dayOf: string -> D)
    requires DaysContiguous(ts, dayOf)
    requires forall i :: 0 <= i < |ts| && !Excluded(ts[i]) ==> ts[i].amount >= 0
    ensures NonDecreasing(XpOf(ts, dayOf).values)
    ensures forall i :: 0 <= i < |XpOf(ts, dayOf).values| ==> XpOf(ts, dayOf).values[i] <= CountedSum(ts)
    decreases |ts|
  {
    if ts != [] {
      var n := |ts| - 1;
      var prefix := ts[..n];
      ContiguousPrefix(ts, dayOf, n);
      assert forall j :: 0 <= j < n ==> prefix[j] == ts[j];
      XpMonotone(prefix, dayOf);
      var prev := XpOf(prefix, dayOf);
      if !Excluded(ts[n]) {
        var d := Day(ts[n], dayOf);
        var total := CountedSum(ts);
        var xp := XpOf(ts, dayOf);
        var pv, v := prev.values, xp.values;
        LastKeyIsLastKeptDay(ts, dayOf, n);
        XpDistinct(ts, dayOf);
        // every position before the last holds what it held before
        assert forall i :: 0 <= i < |v| - 1 ==> xp.keys[i] != d;
        if d !in prev.keys {
          assert |v| - 1 == |pv|;
        }
      }
    }
  }

  /** The `xp` keys after one more transaction: a kept transaction adds its day unless it is already there. */
  lemma XpKeysStep<D>(ts: seq<Transaction>, dayOf: string -> D)
    requires ts != []
    ensures var prev := XpOf(ts[..|ts| - 1], dayOf).keys;
      var d := Day(ts[|ts| - 1], dayOf);
      XpOf(ts, dayOf).keys == if Excluded(ts[|ts| - 1]) || d in prev then prev else prev + [d]
  {
  }

  /** With days in runs, the `xp` keys are the runs of the kept days: each day once, oldest first. */
  lemma {:induction false} XpKeysAreRuns<D>(ts: seq<Transaction>, dayOf: string -> D)
    requires DaysContiguous(ts, dayOf)
    ensures XpOf(ts, dayOf).keys == Runs(KeptDays(ts, dayOf))
    decreases |ts|
  {
    if ts != [] {
      var n := |ts| - 1;
      var prefix := ts[..n];
      var prev := XpOf(prefix, dayOf).keys;
      var s := KeptDays(prefix, dayOf);
      assert prev == Runs(s) by {
        ContiguousPrefix(ts, dayOf, n);
        XpKeysAreRuns(prefix, dayOf);
      }
      XpKeysStep(ts, dayOf);
      if !Excluded(ts[n]) {
        var d := Day(ts[n], dayOf);
        assert KeptDays(ts, dayOf) == s + [d];
        assert d in prev ==> prev[|prev| - 1] == d by {
          RepeatedDayIsLastKey(ts, dayOf);
        }
        if s == [] {
          assert (s + [d])[..0] == [];
        } else {
          RunsSnoc(s, d);
        }
      } else {
        assert KeptDays(ts, dayOf) == s;
      }
    }
  }

  /**
   * With days in runs and the oldest transaction kept, the day-boundary
   * labels followed by the final `prevDate` are exactly the `xp` keys: the
   * labels are one short of the `xp` values.
   */
  lemma DatesMissFinalDay<D>(ts: seq<Transaction>, dayOf: string -> D)
    requires DaysContiguous(ts, dayOf)
    requires ts != [] && !Excluded(ts[0])
    ensures var (dates, last) := DayScan(ts, Day(ts[0], dayOf), dayOf);
      && dates + [last] == XpOf(ts, dayOf).keys
      && |dates| + 1 == |XpOf(ts, dayOf).values|
  {
    var first := Day(ts[0], dayOf);
    DayScanRuns(ts, first, dayOf);
    XpKeysAreRuns(ts, dayOf);
    var s := KeptDays(ts, dayOf);
    FirstKeptDay(ts, dayOf);
    RunsRepeatedHead(first, s);
  }

  /** The kept days start with the day of the first transaction when it is kept. */
  lemma {:induction false} FirstKeptDay<D>(ts: seq<Transaction>, dayOf: string -> D)
    requires ts != [] && !Excluded(ts[0])
    ensures KeptDays(ts, dayOf) != [] && KeptDays(ts, dayOf)[0] == Day(ts[0], dayOf)
    decreases |ts|
  {
    var n := |ts| - 1;
    if n > 0 {
      FirstKeptDay(ts[..n], dayOf);
    }
  }

  // ---------------------------------------------------------------------
  // The loops of showInfo
  // ---------------------------------------------------------------------

  /** The first `forEach`: the day-boundary labels and the final `prevDate`. */
  method DayBoundaries<D(==)>(ts: array<Transaction>, first: D, dayOf: string -> D)
    returns (dates: seq<D>, prevDate: D)
    ensures (dates, prevDate) == DayScan(ts[..], first, dayOf)
  {
    dates, prevDate := [], first;
    for i := 0 to ts.Length
      invariant (dates, prevDate) == DayScan(ts[..i], first, dayOf)
    {
      assert ts[..i + 1][..i] == ts[..i];
      var t := ts[i];
      var date := dayOf(t.createdAt);
      if date != prevDate && !Excluded(t) {
        dates := dates + [prevDate];
        prevDate := date;
      }
    }
    assert ts[..ts.Length] == ts[..];
  }

  /** The second `forEach`: the `xp` object and the final `total`. */
  method AccumulateXp<D(==)>(ts: array<Transaction>, dayOf: string -> D) returns (xp: Dict<D>, total: int)
    ensures xp == XpOf(ts[..], dayOf) && total == CountedSum(ts[..])
  {
    xp, total := Dict([], []), 0;
    for i := 0 to ts.Length
      invariant xp == XpOf(ts[..i], dayOf) && total == CountedSum(ts[..i])
    {
      assert ts[..i + 1][..i] == ts[..i];
      var t := ts[i];
      if Excluded(t) {
        continue;
      }
      var date := dayOf(t.createdAt);
      xp := xp.Put(date, t.amount + total);
      total := total + t.amount;
    }
    assert ts[..ts.Length] == ts[..];
  }

  /**
   * The transformation of `showInfo` on a non-empty, newest-first
   * transaction array: the skills object, the array reversed in place, the
   * labels scanned from the oldest transaction's day, and the `xp` object and
   * `total` over the ascending array.
   */
  method TransformActivity<D(==)>(skillRecords: seq<SkillRecord>, transactions: array<Transaction>, dayOf: string -> D)
    returns (skills: Dict<string>, dates: seq<D>, xp: Dict<D>, total: int)
    requires transactions.Length > 0
    modifies transactions
    ensures transactions[..] == Reversed(old(transactions[..]))
    ensures skills == SkillsMap(skillRecords)
    ensures dates == DayScan(transactions[..], Day(old(transactions[transactions.Length - 1]), dayOf), dayOf).0
    ensures xp == XpOf(transactions[..], dayOf) && total == CountedSum(transactions[..])
  {
    skills := SkillsMap(skillRecords);
    var prevDate := dayOf(transactions[transactions.Length - 1].createdAt);
    ReverseInPlace(transactions);
    var lastDate;
    dates, lastDate := DayBoundaries(transactions, prevDate, dayOf);
    xp, total := AccumulateXp(transactions, dayOf);
  }
}
