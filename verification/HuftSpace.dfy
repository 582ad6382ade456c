/** How much room a set of tables takes: for each level, no more entries than there are codes, and one
    table over. */
module HuftSpace {
  import opened Bits
  import opened Huffman
  import opened HuftTables
  import opened HuftGrow

  /** Code `q` of length `k` starts at position `at`. */
  ghost predicate Begins(x: Plan, k: nat, q: nat, at: nat) {
    1 <= k <= x.g < |x.c| && q < x.c[k] && at == End(x.c, x.g, k - 1) + q * Pow2(x.g - k)
  }

  /** How many codes are shorter than `k`. */
  function Before(c: seq<nat>, k: nat): nat
    requires k <= |c|
  {
    if k <= 1 then 0 else Before(c, k - 1) + c[k - 1]
  }

  /** The codes from `q0` of length `k0` up to `q` of length `k` each take at most the first one's room. */
  lemma {:induction false} Span(x: Plan, k0: nat, q0: nat, at0: nat, k: nat, q: nat)
    requires Begins(x, k0, q0, at0) && k0 <= k <= x.g && q <= x.c[k] && (k0 == k ==> q0 <= q)
    ensures Before(x.c, k) + q >= Before(x.c, k0) + q0
    ensures End(x.c, x.g, k - 1) + q * Pow2(x.g - k) - at0 <=
      (Before(x.c, k) + q - (Before(x.c, k0) + q0)) * Pow2(x.g - k0)
    decreases k
  {
    if k == k0 {
      Minus(q, q0, Pow2(x.g - k));
    } else {
      Span(x, k0, q0, at0, k - 1, x.c[k - 1]);
      Pow2Mono(x.g - k, x.g - k0);
      More(Before(x.c, k) - (Before(x.c, k0) + q0), q, Pow2(x.g - k), Pow2(x.g - k0));
    }
  }

  lemma More(a: nat, q: nat, z: nat, y: nat)
    requires z <= y
    ensures a * y + q * z <= (a + q) * y
  {
    Distribute(1, a, q, y);
    Scale(z, y, q);
  }

  /** Past a subtree `w` bits deep that starts with a `k0`-bit code there are 2^(k0-w) codes more. */
  lemma RankGap(x: Plan, k0: nat, q0: nat, at0: nat, k: nat, q: nat, w: nat)
    requires Begins(x, k0, q0, at0) && 1 <= k <= x.g && q <= x.c[k] && w < k0
    requires End(x.c, x.g, k - 1) + q * Pow2(x.g - k) >= at0 + Pow2(x.g - w)
    ensures Before(x.c, k) + q >= Before(x.c, k0) + q0 + Pow2(k0 - w)
  {
    hide Before, Pow2;
    FurtherOn(x, k0, q0, at0, k, q, Pow2(x.g - w));
    Span(x, k0, q0, at0, k, q);
    Pow2Add(k0 - w, x.g - k0);
    hide *;
    AtLeast(Before(x.c, k) + q - (Before(x.c, k0) + q0), Pow2(k0 - w), Pow2(x.g - k0));
  }

  /** A later position belongs to a later code. */
  lemma FurtherOn(x: Plan, k0: nat, q0: nat, at0: nat, k: nat, q: nat, n: nat)
    requires Begins(x, k0, q0, at0) && 1 <= k <= x.g && q <= x.c[k] && n >= 1
    requires End(x.c, x.g, k - 1) + q * Pow2(x.g - k) >= at0 + n
    ensures k0 <= k && (k0 == k ==> q0 <= q)
  {
    hide Pow2;
    if k < k0 {
      assert End(x.c, x.g, k) == End(x.c, x.g, k - 1) + x.c[k] * Pow2(x.g - k);
      Scale(q, x.c[k], Pow2(x.g - k));
      EndMono(x.c, x.g, k, k0 - 1);
    } else if k == k0 && q < q0 {
      Scale(q, q0, Pow2(x.g - k));
    }
  }

  /** Entries of all tables, and of those at level `v`. */
  ghost function Sum(tabs: seq<Tab>): nat {
    if tabs == [] then 0 else Sum(tabs[..|tabs| - 1]) + Pow2(tabs[|tabs| - 1].j)
  }

  ghost function Load(tabs: seq<Tab>, v: nat): nat {
    if tabs == [] then 0
    else Load(tabs[..|tabs| - 1], v) + if tabs[|tabs| - 1].lvl == v then Pow2(tabs[|tabs| - 1].j) else 0
  }

  /** Codes one bit shorter than the table reaches do not fill it. */
  ghost predicate Tight(x: Plan, t: Tab) {
    && 1 <= t.j && Width(x, t) + t.j <= x.g < |x.c| && Hi(x, t) <= Pow2(x.g)
    && End(x.c, x.g, Width(x, t) + t.j - 1) < Hi(x, t)
  }

  /** The tables at level `v` take up no more than the codes before the start of the last one, that one's
      least number of codes, and its size. */
  ghost predicate LoadFits(x: Plan, tabs: seq<Tab>, v: nat, t: nat, k: nat, q: nat) {
    && t < |tabs| && tabs[t].lvl == v && Begins(x, k, q, Lo(x, tabs[t])) && Width(x, tabs[t]) < k
    && Load(tabs, v) <= Before(x.c, k) + q + Pow2(k - Width(x, tabs[t])) + Pow2(tabs[t].j)
  }

  ghost predicate PackedAt(x: Plan, tabs: seq<Tab>, v: nat) {
    Load(tabs, v) == 0 || exists t: nat, k: nat, q: nat :: LoadFits(x, tabs, v, t, k, q)
  }

  ghost predicate Packed(x: Plan, tabs: seq<Tab>) {
    && (forall t | 0 <= t < |tabs| :: Tight(x, tabs[t]))
    && (forall v: nat :: PackedAt(x, tabs, v))
  }

  lemma LoadSnoc(tabs: seq<Tab>, nt: Tab, v: nat)
    ensures Load(tabs + [nt], v) == Load(tabs, v) + if nt.lvl == v then Pow2(nt.j) else 0
    ensures Sum(tabs + [nt]) == Sum(tabs) + Pow2(nt.j)
  {
    assert (tabs + [nt])[..|tabs|] == tabs;
  }

  lemma FitsOn(x: Plan, tabs: seq<Tab>, nt: Tab, v: nat, t: nat, k: nat, q: nat)
    requires LoadFits(x, tabs, v, t, k, q) && v != nt.lvl
    ensures LoadFits(x, tabs + [nt], v, t, k, q)
  {
    hide Begins, Load, Before, Pow2;
    LoadSnoc(tabs, nt, v);
    assert (tabs + [nt])[t] == tabs[t];
  }

  /** A table opened where the tables of its level before it have ended. */
  lemma PackOpen(x: Plan, tabs: seq<Tab>, nt: Tab, k: nat, q: nat, at: nat)
    requires Packed(x, tabs) && Tight(x, nt) && Begins(x, k, q, at) && Lo(x, nt) == at && Width(x, nt) < k
    requires forall t | 0 <= t < |tabs| && tabs[t].lvl == nt.lvl :: Hi(x, tabs[t]) <= at
    ensures Packed(x, tabs + [nt])
  {
    var tabs' := tabs + [nt];
    hide LoadFits, Begins, Tight, Load;
    forall v: nat ensures PackedAt(x, tabs', v) {
      LoadSnoc(tabs, nt, v);
      if v == nt.lvl {
        NewLoad(x, tabs, nt, k, q, at);
      } else if Load(tabs, v) != 0 {
        var t: nat, k0: nat, q0: nat :| LoadFits(x, tabs, v, t, k0, q0) by { assert PackedAt(x, tabs, v); }
        FitsOn(x, tabs, nt, v, t, k0, q0);
      }
    }
  }

  lemma NewLoad(x: Plan, tabs: seq<Tab>, nt: Tab, k: nat, q: nat, at: nat)
    requires Packed(x, tabs) && Tight(x, nt) && Begins(x, k, q, at) && Lo(x, nt) == at && Width(x, nt) < k
    requires forall t | 0 <= t < |tabs| && tabs[t].lvl == nt.lvl :: Hi(x, tabs[t]) <= at
    ensures LoadFits(x, tabs + [nt], nt.lvl, |tabs|, k, q)
  {
    hide End, Pow2, Begins;
    var v := nt.lvl;
    LoadSnoc(tabs, nt, v);
    assert (tabs + [nt])[|tabs|] == nt;
    hide Tight, End, Lo, Hi;
    if Load(tabs, v) != 0 {
      assert PackedAt(x, tabs, v);
      var t: nat, k0: nat, q0: nat :| LoadFits(x, tabs, v, t, k0, q0);
      EarlierLoad(x, tabs[t], k0, q0, k, q, at);
    }
  }

  lemma EarlierLoad(x: Plan, t: Tab, k0: nat, q0: nat, k: nat, q: nat, at: nat)
    requires Tight(x, t) && Begins(x, k0, q0, Lo(x, t)) && Begins(x, k, q, at) && Width(x, t) < k0 && Hi(x, t) <= at
    requires Width(x, t) < k
    ensures Before(x.c, k0) + q0 + Pow2(k0 - Width(x, t)) <= Before(x.c, k) + q
    ensures Pow2(t.j) <= Pow2(k - Width(x, t))
  {
    hide Pow2;
    var w := Width(x, t);
    RankGap(x, k0, q0, Lo(x, t), k, q, w);
    Room(q, x.c[k], Pow2(x.g - k));
    if k < w + t.j {
      EndMono(x.c, x.g, k, w + t.j - 1);
    }
    Pow2Mono(t.j, k - w);
  }

  /** So a level takes no more entries than there are codes, and its last table over. */
  lemma LevelBound(x: Plan, tabs: seq<Tab>, v: nat, m: nat)
    requires x.Valid() && Packed(x, tabs) && forall t | 0 <= t < |tabs| && tabs[t].lvl == v :: tabs[t].j <= m
    ensures Load(tabs, v) <= Before(x.c, x.g + 1) + Pow2(m)
  {
    hide Plan.Valid, Tight, End, Lo, Hi, Begins, Before, Pow2;
    if Load(tabs, v) != 0 {
      assert PackedAt(x, tabs, v);
      var t: nat, k: nat, q: nat :| LoadFits(x, tabs, v, t, k, q);
      Pow2Mono(tabs[t].j, m);
      CodesFrom(x, tabs[t], k, q);
    }
  }

  lemma CodesFrom(x: Plan, t: Tab, k: nat, q: nat)
    requires x.Valid() && Tight(x, t) && Begins(x, k, q, Lo(x, t)) && Width(x, t) < k
    ensures Before(x.c, k) + q + Pow2(k - Width(x, t)) <= Before(x.c, x.g + 1)
  {
    hide Before, Pow2;
    var w := Width(x, t);
    assert End(x.c, x.g, x.g) == End(x.c, x.g, x.g - 1) + x.c[x.g] * Pow2(x.g - x.g);
    hide End;
    RankGap(x, k, q, Lo(x, t), x.g, x.c[x.g], w);
    BeforeNext(x.c, x.g);
  }

  lemma BeforeNext(c: seq<nat>, k: nat)
    requires 1 <= k < |c|
    ensures Before(c, k + 1) == Before(c, k) + c[k]
  {
  }

  lemma {:induction false} SumOfLevels(tabs: seq<Tab>)
    requires forall t | 0 <= t < |tabs| :: tabs[t].lvl <= 2
    ensures Sum(tabs) == Load(tabs, 0) + Load(tabs, 1) + Load(tabs, 2)
  {
    if tabs != [] { SumOfLevels(tabs[..|tabs| - 1]); }
  }

  /** The tables made so far in memory from `lo` to `hn`. */
  ghost predicate Space(x: Plan, tabs: seq<Tab>, lo: nat, hn: nat) {
    && Packed(x, tabs) && hn == lo + Sum(tabs)
    && (x.Wide() || forall t | 0 <= t < |tabs| :: tabs[t].j <= x.l)
  }

  /** Tables for these codes do not fit in `many` entries. */
  ghost predicate Overfull(x: Plan, lo: nat, many: nat) {
    exists tabs: seq<Tab>, hn: nat :: Space(x, tabs, lo, hn) && hn > many
  }

  lemma NothingYet(x: Plan, lo: nat)
    ensures Space(x, [], lo, lo)
  {
  }

  /** One more table. */
  lemma SpaceOpen(x: Plan, tabs: seq<Tab>, lo: nat, hn: nat, nt: Tab, k: nat, q: nat, at: nat)
    requires Space(x, tabs, lo, hn) && Tight(x, nt) && Begins(x, k, q, at) && Lo(x, nt) == at && Width(x, nt) < k
    requires forall t | 0 <= t < |tabs| && tabs[t].lvl == nt.lvl :: Hi(x, tabs[t]) <= at
    requires x.Wide() || nt.j <= x.l
    ensures Space(x, tabs + [nt], lo, hn + Pow2(nt.j))
  {
    hide Tight, Begins, Lo, Hi, Plan.Wide;
    PackOpen(x, tabs, nt, k, q, at);
    LoadSnoc(tabs, nt, 0);
  }

  lemma TooMuch(x: Plan, tabs: seq<Tab>, lo: nat, hn: nat, many: nat)
    requires Space(x, tabs, lo, hn) && hn > many
    ensures Overfull(x, lo, many)
  {
  }
}
