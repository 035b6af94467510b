/** Spending promotional credit: which grants a usage charge draws on, and in what order. */
module Credits {
  import opened Domain

  /** A grant; `id` only breaks ties. */
  datatype Grant = Grant(ref: string, amount: nat, remaining: nat, expires: Option<int>, created: int, id: nat,
                         note: string)

  datatype Consumption = Consumption(grant: nat, charge: nat, amount: nat)

  /** remaining_cents > 0 and not expired. */
  predicate Live(g: Grant, now: int) {
    g.remaining > 0 && (g.expires.None? || g.expires.value > now)
  }

  predicate ExpiresBy(g: Grant, cutoff: int) {
    g.expires.Some? && g.expires.value <= cutoff
  }

  /** ORDER BY expires_at NULLS LAST, created_at, id: `g` may stand before `h`. */
  predicate Before(g: Grant, h: Grant) {
    if g.expires != h.expires then g.expires.Some? && (h.expires.None? || g.expires.value < h.expires.value)
    else g.created < h.created || (g.created == h.created && g.id <= h.id)
  }

  predicate Distinct(order: seq<nat>) {
    forall j, k :: 0 <= j < k < |order| ==> order[j] != order[k]
  }

  predicate InRange(grants: seq<Grant>, order: seq<nat>) {
    forall k :: 0 <= k < |order| ==> order[k] < |grants|
  }

  predicate Sorted(grants: seq<Grant>, order: seq<nat>)
    requires InRange(grants, order)
  {
    forall j, k :: 0 <= j < k < |order| ==> Before(grants[order[j]], grants[order[k]])
  }

  /** Every live grant among the first `n` once, in spending order. */
  predicate Lists(grants: seq<Grant>, now: int, n: nat, order: seq<nat>)
    requires n <= |grants|
  {
    && (forall k :: 0 <= k < |order| ==> order[k] < n && Live(grants[order[k]], now))
    && (forall i :: 0 <= i < n && Live(grants[i], now) ==> i in order)
    && Ordered(grants, order)
  }

  predicate Ordered(grants: seq<Grant>, order: seq<nat>) {
    InRange(grants, order) && Distinct(order) && Sorted(grants, order)
  }

  predicate AllBefore(grants: seq<Grant>, order: seq<nat>, x: nat) {
    x < |grants| && InRange(grants, order) && forall k :: 0 <= k < |order| ==> Before(grants[order[k]], grants[x])
  }

  lemma AppendOrdered(grants: seq<Grant>, order: seq<nat>, x: nat)
    requires Ordered(grants, order) && AllBefore(grants, order, x) && x !in order
    ensures Ordered(grants, order + [x])
  {
  }

  lemma FrontOrdered(grants: seq<Grant>, order: seq<nat>)
    requires Ordered(grants, order) && order != []
    ensures var front, last := order[..|order| - 1], order[|order| - 1];
      Ordered(grants, front) && AllBefore(grants, front, last) && last !in front && order == front + [last]
  {
  }

  /** Puts `i` behind everything that may stand before it. */
  function Placed(grants: seq<Grant>, order: seq<nat>, i: nat): (r: seq<nat>)
    requires i < |grants| && i !in order && Ordered(grants, order)
    ensures Ordered(grants, r) && forall x :: x in r <==> x in order || x == i
  {
    if order == [] then [i]
    else
      var last := order[|order| - 1];
      var front := order[..|order| - 1];
      FrontOrdered(grants, order);
      if Before(grants[last], grants[i]) then
        AppendOrdered(grants, order, i);
        order + [i]
      else
        var r := Placed(grants, front, i);
        StaysBefore(grants, front, i, last, r);
        AppendOrdered(grants, r, last);
        r + [last]
  }

  lemma StaysBefore(grants: seq<Grant>, front: seq<nat>, i: nat, last: nat, r: seq<nat>)
    requires i < |grants| && AllBefore(grants, front, last) && InRange(grants, r)
    requires !Before(grants[last], grants[i])
    requires forall x :: x in r <==> x in front || x == i
    ensures AllBefore(grants, r, last)
  {
    forall k | 0 <= k < |r| ensures Before(grants[r[k]], grants[last]) {
      assert r[k] in r;
    }
  }

  function OrderUpTo(grants: seq<Grant>, now: int, n: nat): (r: seq<nat>)
    requires n <= |grants|
    ensures Lists(grants, now, n, r)
  {
    if n == 0 then [] else
      var r := OrderUpTo(grants, now, n - 1);
      assert n - 1 !in r;
      if Live(grants[n - 1], now) then
        var p := Placed(grants, r, n - 1);
        assert forall k :: 0 <= k < |p| ==> p[k] in p;
        p
      else r
  }

  /** The rows the credit query of billUsage returns: every live grant once, in spending order. */
  function CreditQuery(grants: seq<Grant>, now: int): (r: seq<nat>)
    ensures Lists(grants, now, |grants|, r)
  {
    OrderUpTo(grants, now, |grants|)
  }

  // ---------------------------------------------------------------- the loop

  function Available(grants: seq<Grant>, order: seq<nat>): nat
    requires InRange(grants, order)
  {
    if order == [] then 0 else grants[order[0]].remaining + Available(grants, order[1..])
  }

  datatype Spending = Spending(grants: seq<Grant>, consumptions: seq<Consumption>)

  function Lesser(a: nat, b: nat): nat {
    if a > b then b else a
  }

  /** UPDATE credit_grants and INSERT INTO credit_consumptions for one grant. */
  function Draw(s: Spending, i: nat, used: nat, charge: nat): Spending
    requires i < |s.grants| && used <= s.grants[i].remaining
  {
    Spending(s.grants[i := s.grants[i].(remaining := s.grants[i].remaining - used)],
             s.consumptions + [Consumption(i, charge, used)])
  }

  /** The loop over the locked grants, with `need` still to be covered. */
  function SpendCredit(s: Spending, order: seq<nat>, need: nat, charge: nat): (r: Spending)
    requires InRange(s.grants, order)
    ensures |r.grants| == |s.grants|
    decreases |order|
  {
    if order == [] || need == 0 then s
    else
      var used := Lesser(s.grants[order[0]].remaining, need);
      SpendCredit(Draw(s, order[0], used, charge), order[1..], need - used, charge)
  }

  method SpendCreditLoop(s: Spending, order: seq<nat>, creditUsed: nat, charge: nat) returns (r: Spending)
    requires InRange(s.grants, order)
    ensures r == SpendCredit(s, order, creditUsed, charge)
  {
    r := s;
    var remainingCredit := creditUsed;
    var k := 0;
    while k < |order|
      invariant 0 <= k <= |order| && |r.grants| == |s.grants|
      invariant SpendCredit(r, order[k..], remainingCredit, charge) == SpendCredit(s, order, creditUsed, charge)
    {
      if remainingCredit == 0 { break; }
      var used := r.grants[order[k]].remaining;
      if used > remainingCredit { used := remainingCredit; }
      r := Draw(r, order[k], used, charge);
      remainingCredit := remainingCredit - used;
      assert order[k..][1..] == order[k + 1..];
      k := k + 1;
    }
  }

  // ---------------------------------------------------------------- conservation

  function ConsumedFrom(consumptions: seq<Consumption>, grant: nat): nat {
    if consumptions == [] then 0 else
      var c := consumptions[|consumptions| - 1];
      ConsumedFrom(consumptions[..|consumptions| - 1], grant) + if c.grant == grant then c.amount else 0
  }

  function ConsumedBy(consumptions: seq<Consumption>, charge: nat): nat {
    if consumptions == [] then 0 else
      var c := consumptions[|consumptions| - 1];
      ConsumedBy(consumptions[..|consumptions| - 1], charge) + if c.charge == charge then c.amount else 0
  }

  /** Each grant is what is left of it plus what was drawn from it. */
  predicate GrantsBalance(s: Spending) {
    && (forall i :: 0 <= i < |s.grants| ==>
          s.grants[i].amount == s.grants[i].remaining + ConsumedFrom(s.consumptions, i))
    && (forall k :: 0 <= k < |s.consumptions| ==> s.consumptions[k].grant < |s.grants| && s.consumptions[k].amount > 0)
  }

  lemma DrawBalances(s: Spending, i: nat, used: nat, charge: nat)
    requires i < |s.grants| && 0 < used <= s.grants[i].remaining && GrantsBalance(s)
    ensures GrantsBalance(Draw(s, i, used, charge))
  {
    var r := Draw(s, i, used, charge);
    assert r.consumptions[..|s.consumptions|] == s.consumptions;
  }

  lemma {:induction false} AvailableElsewhere(grants: seq<Grant>, order: seq<nat>, i: nat, g: Grant)
    requires InRange(grants, order) && i < |grants| && i !in order
    ensures Available(grants[i := g], order) == Available(grants, order)
  {
    if order != [] { AvailableElsewhere(grants, order[1..], i, g); }
  }

  predicate AllLeft(grants: seq<Grant>, order: seq<nat>)
    requires InRange(grants, order)
  {
    forall k :: 0 <= k < |order| ==> grants[order[k]].remaining > 0
  }

  lemma {:induction false} SpendKeepsBalance(s: Spending, order: seq<nat>, need: nat, charge: nat)
    requires InRange(s.grants, order) && Distinct(order) && AllLeft(s.grants, order) && GrantsBalance(s)
    ensures GrantsBalance(SpendCredit(s, order, need, charge))
    decreases |order|
  {
    if order != [] && need > 0 {
      var used := Lesser(s.grants[order[0]].remaining, need);
      DrawBalances(s, order[0], used, charge);
      assert order[0] !in order[1..];
      SpendKeepsBalance(Draw(s, order[0], used, charge), order[1..], need - used, charge);
    }
  }

  lemma {:induction false} SpendConsumes(s: Spending, order: seq<nat>, need: nat, charge: nat, j: nat)
    requires InRange(s.grants, order) && Distinct(order) && AllLeft(s.grants, order)
    ensures ConsumedBy(SpendCredit(s, order, need, charge).consumptions, j)
         == ConsumedBy(s.consumptions, j) + if j == charge then Lesser(need, Available(s.grants, order)) else 0
    decreases |order|
  {
    if order != [] && need > 0 {
      var used := Lesser(s.grants[order[0]].remaining, need);
      var next := Draw(s, order[0], used, charge);
      assert next.consumptions[..|s.consumptions|] == s.consumptions;
      assert order[0] !in order[1..];
      AvailableElsewhere(s.grants, order[1..], order[0], next.grants[order[0]]);
      SpendConsumes(next, order[1..], need - used, charge, j);
    }
  }

  /** The loop keeps every grant balanced and covers exactly min(need, available) of the charge. */
  lemma SpendCreditBalances(s: Spending, order: seq<nat>, need: nat, charge: nat)
    requires InRange(s.grants, order) && Distinct(order) && AllLeft(s.grants, order) && GrantsBalance(s)
    ensures GrantsBalance(SpendCredit(s, order, need, charge))
    ensures forall j :: ConsumedBy(SpendCredit(s, order, need, charge).consumptions, j)
                     == ConsumedBy(s.consumptions, j)
                        + if j == charge then Lesser(need, Available(s.grants, order)) else 0
  {
    SpendKeepsBalance(s, order, need, charge);
    forall j: nat
      ensures ConsumedBy(SpendCredit(s, order, need, charge).consumptions, j)
           == ConsumedBy(s.consumptions, j) + if j == charge then Lesser(need, Available(s.grants, order)) else 0
    {
      SpendConsumes(s, order, need, charge, j);
    }
  }

  // ---------------------------------------------------------------- earliest expiry first

  /** What is left in the grants of `order` that expire by the cutoff. */
  function LeftBy(grants: seq<Grant>, order: seq<nat>, cutoff: int): nat
    requires InRange(grants, order)
  {
    if order == [] then 0
    else LeftBy(grants, order[1..], cutoff)
         + if ExpiresBy(grants[order[0]], cutoff) then grants[order[0]].remaining else 0
  }

  /** `alt` is `grants` after spending in all `total` from the grants of `order`, in any way. */
  predicate Spent(grants: seq<Grant>, alt: seq<Grant>, order: seq<nat>, total: nat) {
    && InRange(grants, order) && |alt| == |grants|
    && (forall i :: 0 <= i < |grants| ==>
          alt[i].remaining <= grants[i].remaining && alt[i] == grants[i].(remaining := alt[i].remaining))
    && Available(grants, order) == Available(alt, order) + total
  }

  lemma {:induction false} LeftElsewhere(grants: seq<Grant>, order: seq<nat>, cutoff: int, i: nat, g: Grant)
    requires InRange(grants, order) && i < |grants| && i !in order
    ensures LeftBy(grants[i := g], order, cutoff) == LeftBy(grants, order, cutoff)
  {
    if order != [] { LeftElsewhere(grants, order[1..], cutoff, i, g); }
  }

  lemma {:induction false} NoneExpireBy(grants: seq<Grant>, order: seq<nat>, cutoff: int)
    requires InRange(grants, order) && forall k :: 0 <= k < |order| ==> !ExpiresBy(grants[order[k]], cutoff)
    ensures LeftBy(grants, order, cutoff) == 0
  {
    if order != [] { NoneExpireBy(grants, order[1..], cutoff); }
  }

  /** The loop takes from the grants expiring by any cutoff as much as there is to take. */
  lemma {:induction false} GreedyTakesEarliest(s: Spending, order: seq<nat>, need: nat, charge: nat, cutoff: int)
    requires Ordered(s.grants, order)
    ensures LeftBy(SpendCredit(s, order, need, charge).grants, order, cutoff)
         == LeftBy(s.grants, order, cutoff) - Lesser(need, LeftBy(s.grants, order, cutoff))
    decreases |order|
  {
    if order != [] && need > 0 {
      var i, rest := order[0], order[1..];
      var used := Lesser(s.grants[i].remaining, need);
      var next := Draw(s, i, used, charge);
      DrawKeepsOrder(s, order, used, charge);
      LeftElsewhere(s.grants, rest, cutoff, i, next.grants[i]);
      SpendKeepsOthers(next, rest, need - used, charge);
      GreedyTakesEarliest(next, rest, need - used, charge, cutoff);
      if !ExpiresBy(s.grants[i], cutoff) {
        LaterExpireLater(s.grants, order, cutoff);
        NoneExpireBy(s.grants, rest, cutoff);
      }
    }
  }

  lemma DrawKeepsOrder(s: Spending, order: seq<nat>, used: nat, charge: nat)
    requires Ordered(s.grants, order) && order != [] && used <= s.grants[order[0]].remaining
    ensures order[0] !in order[1..] && Ordered(Draw(s, order[0], used, charge).grants, order[1..])
  {
    var grants := Draw(s, order[0], used, charge).grants;
    forall j, k | 0 <= j < k < |order[1..]| ensures Before(grants[order[1..][j]], grants[order[1..][k]]) {
      assert Before(s.grants[order[j + 1]], s.grants[order[k + 1]]);
    }
  }

  lemma LaterExpireLater(grants: seq<Grant>, order: seq<nat>, cutoff: int)
    requires Ordered(grants, order) && order != [] && !ExpiresBy(grants[order[0]], cutoff)
    ensures forall k :: 0 <= k < |order[1..]| ==> !ExpiresBy(grants[order[1..][k]], cutoff)
  {
    forall k | 1 <= k < |order| ensures !ExpiresBy(grants[order[k]], cutoff) {
      assert Before(grants[order[0]], grants[order[k]]);
    }
  }

  /** Only the remaining amounts of the listed grants change, and they only fall. */
  lemma {:induction false} SpendKeepsOthers(s: Spending, order: seq<nat>, need: nat, charge: nat)
    requires InRange(s.grants, order)
    ensures var r := SpendCredit(s, order, need, charge);
      && (forall i :: 0 <= i < |s.grants| ==> r.grants[i] == s.grants[i].(remaining := r.grants[i].remaining))
      && (forall i :: 0 <= i < |s.grants| ==> r.grants[i].remaining <= s.grants[i].remaining)
      && (forall i :: 0 <= i < |s.grants| && i !in order ==> r.grants[i] == s.grants[i])
    decreases |order|
  {
    if order != [] && need > 0 {
      var used := Lesser(s.grants[order[0]].remaining, need);
      SpendKeepsOthers(Draw(s, order[0], used, charge), order[1..], need - used, charge);
    }
  }

  lemma {:induction false} AnySpendingLeaves(grants: seq<Grant>, alt: seq<Grant>, order: seq<nat>, cutoff: int)
    requires InRange(grants, order) && |alt| == |grants|
    requires forall i :: 0 <= i < |grants| ==>
      alt[i].remaining <= grants[i].remaining && alt[i] == grants[i].(remaining := alt[i].remaining)
    ensures 0 <= LeftBy(grants, order, cutoff) - LeftBy(alt, order, cutoff)
              <= Available(grants, order) - Available(alt, order)
  {
    if order != [] { AnySpendingLeaves(grants, alt, order[1..], cutoff); }
  }

  /** For every cutoff, no other way to spend the same credit leaves less in grants expiring by then. */
  lemma EarliestExpiryFirstIsOptimal(s: Spending, now: int, need: nat, charge: nat, alt: seq<Grant>, cutoff: int)
    requires var order := CreditQuery(s.grants, now);
      Spent(s.grants, alt, order, Lesser(need, Available(s.grants, order)))
    ensures var order := CreditQuery(s.grants, now);
      LeftBy(SpendCredit(s, order, need, charge).grants, order, cutoff) <= LeftBy(alt, order, cutoff)
  {
    var order := CreditQuery(s.grants, now);
    GreedyTakesEarliest(s, order, need, charge, cutoff);
    AnySpendingLeaves(s.grants, alt, order, cutoff);
  }

  /** A grant is drawn on only when every grant before it in the order is empty afterwards. */
  lemma {:induction false} DrawnInOrder(s: Spending, order: seq<nat>, need: nat, charge: nat, j: nat, k: nat)
    requires InRange(s.grants, order) && Distinct(order) && j < k < |order|
    requires SpendCredit(s, order, need, charge).grants[order[k]] != s.grants[order[k]]
    ensures SpendCredit(s, order, need, charge).grants[order[j]].remaining == 0
    decreases |order|
  {
    var used := Lesser(s.grants[order[0]].remaining, need);
    var next := Draw(s, order[0], used, charge);
    if need > 0 {
      SpendKeepsOthers(next, order[1..], need - used, charge);
      if j > 0 {
        DrawnInOrder(next, order[1..], need - used, charge, j - 1, k - 1);
      }
    }
  }
}
