/** A wallet and its append-only ledger, with the 64-bit arithmetic of the balance column. */
module Ledger {
  import opened Domain

  const MAX_INT64: int := 0x7fff_ffff_ffff_ffff
  const TWO_64: int := 0x1_0000_0000_0000_0000

  type OrderId = nat
  type InviteId = nat
  type PurchaseId = nat

  datatype Kind = Topup | UsageFee | Fee | Refund | Bonus | Adjustment | CheckinReward

  datatype Ref =
    | OrderRef(order: OrderId)
    | UsageRef(code: nat, app: Option<nat>, price: nat, start: int, end: int)
    | PurchaseRef(purchase: PurchaseId)
    | InviteRef(invite: InviteId)
    | InitialRef
    | DayRef(day: int)
    | TextRef(text: string)

  datatype Entry = Entry(kind: Kind, ref: Ref, amount: int, after: int)

  datatype Wallet = Wallet(balance: int, entries: seq<Entry>)

  /** The sum of two int64 values as Go's int64 holds it, `x` being the true sum. */
  function Wrap(x: int): (r: int)
    ensures -TWO_64 <= x < TWO_64 ==> -MAX_INT64 - 1 <= r <= MAX_INT64
    ensures r == x || r == x - TWO_64 || r == x + TWO_64
  {
    if x > MAX_INT64 then x - TWO_64
    else if x < -MAX_INT64 - 1 then x + TWO_64
    else x
  }

  function Total(entries: seq<Entry>): int {
    if entries == [] then 0 else Total(entries[..|entries| - 1]) + entries[|entries| - 1].amount
  }

  /** The amount recorded under one (business type, reference). */
  function Recorded(entries: seq<Entry>, kind: Kind, ref: Ref): int {
    if entries == [] then 0 else
      var e := entries[|entries| - 1];
      Recorded(entries[..|entries| - 1], kind, ref) + if e.kind == kind && e.ref == ref then e.amount else 0
  }

  /** How many entries carry one (business type, reference). */
  function Count(entries: seq<Entry>, kind: Kind, ref: Ref): nat {
    if entries == [] then 0 else
      var e := entries[|entries| - 1];
      Count(entries[..|entries| - 1], kind, ref) + if e.kind == kind && e.ref == ref then 1 else 0
  }

  predicate Used(entries: seq<Entry>, kind: Kind, ref: Ref) {
    exists i :: 0 <= i < |entries| && entries[i].kind == kind && entries[i].ref == ref
  }

  /** INSERT of a ledger row: the amount may not be zero and (type, reference) is unique in the wallet. */
  predicate Insertable(w: Wallet, kind: Kind, ref: Ref, amount: int) {
    amount != 0 && !Used(w.entries, kind, ref)
  }

  /** The balance is computed in Go and stored as it is. */
  function Store(w: Wallet, kind: Kind, ref: Ref, amount: int): Wallet {
    var after := Wrap(w.balance + amount);
    Wallet(after, w.entries + [Entry(kind, ref, amount, after)])
  }

  /** The ledger row is computed in Go, but the balance is added to in SQL, which refuses to overflow. */
  function Add(w: Wallet, kind: Kind, ref: Ref, amount: int): Option<Wallet> {
    if !Insertable(w, kind, ref, amount) || w.balance + amount > MAX_INT64 || w.balance + amount < -MAX_INT64 - 1
    then None
    else Some(Wallet(w.balance + amount, w.entries + [Entry(kind, ref, amount, Wrap(w.balance + amount))]))
  }

  // ---------------------------------------------------------------- what every posting keeps

  function LastBalance(entries: seq<Entry>): int {
    if entries == [] then 0 else entries[|entries| - 1].after
  }

  /** Entry by entry: a new reference, a non-zero amount, and the balance before it plus the amount, as int64 adds. */
  predicate Chained(entries: seq<Entry>) {
    entries != [] ==>
      var front, e := entries[..|entries| - 1], entries[|entries| - 1];
      && Chained(front)
      && e.amount != 0 && !Used(front, e.kind, e.ref)
      && e.after == Wrap(LastBalance(front) + e.amount)
  }

  predicate WalletInv(w: Wallet) {
    Chained(w.entries) && w.balance == LastBalance(w.entries)
  }

  /** Every recorded balance is the exact running total, between zero and the largest int64. */
  predicate Exact(entries: seq<Entry>) {
    entries != [] ==>
      && Exact(entries[..|entries| - 1])
      && 0 <= entries[|entries| - 1].after <= MAX_INT64 && entries[|entries| - 1].after == Total(entries)
  }

  predicate Sound(w: Wallet) {
    Exact(w.entries) && 0 <= w.balance <= MAX_INT64 && w.balance == Total(w.entries)
  }

  lemma StoreKeeps(w: Wallet, kind: Kind, ref: Ref, amount: int)
    requires WalletInv(w) && Insertable(w, kind, ref, amount)
    ensures WalletInv(Store(w, kind, ref, amount))
  {
    assert Store(w, kind, ref, amount).entries[..|w.entries|] == w.entries;
  }

  ghost predicate Congruent(x: int, y: int) {
    exists k :: x == y + k * TWO_64
  }

  lemma WrapCongruent(x: int, y: int, amount: int)
    requires Congruent(x, y)
    ensures Congruent(Wrap(x + amount), y + amount)
  {
    var k :| x == y + k * TWO_64;
    var wraps := if x + amount > MAX_INT64 then -1 else if x + amount < -MAX_INT64 - 1 then 1 else 0;
    assert Wrap(x + amount) == y + amount + (k + wraps) * TWO_64;
  }

  /** Every recorded balance is the prefix sum of the amounts modulo 2^64. */
  lemma {:induction false} BalanceIsPrefixSum(entries: seq<Entry>, n: nat)
    requires Chained(entries) && n <= |entries|
    ensures Congruent(LastBalance(entries[..n]), Total(entries[..n]))
  {
    if entries == [] {
      assert 0 == 0 + 0 * TWO_64;
    } else {
      var front, e := entries[..|entries| - 1], entries[|entries| - 1];
      if n < |entries| {
        BalanceIsPrefixSum(front, n);
        assert front[..n] == entries[..n];
      } else {
        BalanceIsPrefixSum(front, n - 1);
        assert front[..n - 1] == front && entries[..n] == entries;
        WrapCongruent(LastBalance(front), Total(front), e.amount);
      }
    }
  }

  /** In a sound wallet every prefix of the ledger adds up to the balance recorded after it, never below zero. */
  lemma {:induction false} SoundPrefix(entries: seq<Entry>, n: nat)
    requires Exact(entries) && 0 < n <= |entries|
    ensures 0 <= Total(entries[..n]) <= MAX_INT64 && entries[n - 1].after == Total(entries[..n])
  {
    if n < |entries| {
      SoundPrefix(entries[..|entries| - 1], n);
      assert entries[..|entries| - 1][..n] == entries[..n];
    } else {
      assert entries[..n] == entries;
    }
  }

  /** No two entries of a wallet share a business type and reference. */
  lemma {:induction false} RefsUnique(entries: seq<Entry>, i: nat, j: nat)
    requires Chained(entries) && i < j < |entries|
    ensures entries[i].kind != entries[j].kind || entries[i].ref != entries[j].ref
  {
    var front := entries[..|entries| - 1];
    if j < |front| {
      RefsUnique(front, i, j);
    } else {
      assert entries[i] == front[i];
    }
  }

  lemma AddIsStore(w: Wallet, kind: Kind, ref: Ref, amount: int)
    requires Add(w, kind, ref, amount).Some?
    ensures Add(w, kind, ref, amount).value == Store(w, kind, ref, amount)
    ensures Insertable(w, kind, ref, amount)
  {
  }

  /** A posting to a sound wallet keeps it sound exactly when the true sum stays in range. */
  lemma SoundIffInRange(w: Wallet, kind: Kind, ref: Ref, amount: int)
    requires Sound(w)
    ensures Sound(Store(w, kind, ref, amount)) <==> 0 <= w.balance + amount <= MAX_INT64
  {
    assert Store(w, kind, ref, amount).entries[..|w.entries|] == w.entries;
  }

  lemma Appended(entries: seq<Entry>, e: Entry, kind: Kind, ref: Ref)
    ensures Recorded(entries + [e], kind, ref)
         == Recorded(entries, kind, ref) + if e.kind == kind && e.ref == ref then e.amount else 0
    ensures Count(entries + [e], kind, ref)
         == Count(entries, kind, ref) + if e.kind == kind && e.ref == ref then 1 else 0
  {
    assert (entries + [e])[..|entries|] == entries;
  }

  lemma {:induction false} UnusedIsEmpty(entries: seq<Entry>, kind: Kind, ref: Ref)
    requires !Used(entries, kind, ref)
    ensures Recorded(entries, kind, ref) == 0 && Count(entries, kind, ref) == 0
  {
    if entries != [] {
      var front := entries[..|entries| - 1];
      assert forall i :: 0 <= i < |front| ==> front[i] == entries[i];
      assert !(entries[|entries| - 1].kind == kind && entries[|entries| - 1].ref == ref);
      UnusedIsEmpty(front, kind, ref);
    }
  }
}
