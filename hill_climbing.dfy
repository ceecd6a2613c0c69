/**
 * Steepest-descent hill climbing over a class schedule. The search state
 * keeps the schedule (class code to slot list), an inverse index (slot to
 * the codes of the classes meeting there) and the set of known empty
 * slots, and edits all three in place when it swaps two meetings or moves
 * a meeting into an empty slot. Every trial edit is undone by the reverse
 * edit; only the best improving trial is kept.
 */
module HillClimbing {
  import opened Wrappers
  import opened Slots
  import opened Oracle

  /**
   * `slot_assignment`: slot to the codes of the classes meeting there. The
   * order of each list is never read, so each is kept as a multiset.
   */
  type Index = map<Slot, multiset<string>>

  // ---------------------------------------------------------------------
  // List edits as Python's list.index / list.remove perform them
  // ---------------------------------------------------------------------

  /** `list.index(x)`: the position of the first occurrence. */
  function FirstIndex<T(==)>(s: seq<T>, x: T): (i: nat)
    requires x in s
    ensures i < |s| && s[i] == x
    ensures forall j :: 0 <= j < i ==> s[j] != x
  {
    if s[0] == x then 0 else FirstIndex(s[1..], x) + 1
  }

  /** `l[l.index(x)] = y` */
  function ReplaceFirst<T(==)>(s: seq<T>, x: T, y: T): seq<T>
    requires x in s
  {
    s[FirstIndex(s, x) := y]
  }

  /** The replacement is in the list afterwards. */
  lemma ReplaceFirstHas<T>(s: seq<T>, x: T, y: T)
    requires x in s
    ensures y in ReplaceFirst(s, x, y)
  {
    assert ReplaceFirst(s, x, y)[FirstIndex(s, x)] == y;
  }

  /** Replacing an element keeps the length and trades one x for one y. */
  lemma ReplaceFirstCounts<T>(s: seq<T>, x: T, y: T)
    requires x in s
    ensures |ReplaceFirst(s, x, y)| == |s| && y in ReplaceFirst(s, x, y)
    ensures multiset(ReplaceFirst(s, x, y)) == multiset(s) - multiset{x} + multiset{y}
  {
    var i := FirstIndex(s, x);
    var r := ReplaceFirst(s, x, y);
    assert s == s[..i] + [x] + s[i + 1..];
    assert r == s[..i] + [y] + s[i + 1..];
  }

  // ---------------------------------------------------------------------
  // The edits on schedules and indexes up to list order
  // ---------------------------------------------------------------------

  /** How often class k meets in slot s. */
  function SCount(b: Bags, k: string, s: Slot): nat
  {
    if k in b then b[k][s] else 0
  }

  /** How often the index lists class k under slot s. */
  function ICount(ib: Index, s: Slot, k: string): nat
  {
    if s in ib then ib[s][k] else 0
  }

  /**
   * The index is the inverse of the schedule: it lists each class under a
   * slot as often as the class meets there, and has no empty list.
   */
  ghost predicate Consistent(b: Bags, ib: Index)
  {
    && (forall s :: s in ib ==> ib[s] != multiset{})
    && (forall k, s {:trigger SCount(b, k, s)} :: SCount(b, k, s) == ICount(ib, s, k))
  }

  /** The move on the schedule: one `from` of class `kode` becomes `to`. */
  function MoveBags(b: Bags, from: Slot, kode: string, to: Slot): Bags
    requires kode in b
  {
    b[kode := b[kode] - multiset{from} + multiset{to}]
  }

  /** The swap on the schedule: one s1 of k1 becomes s2, then one s2 of k2 becomes s1. */
  function SwapBags(b: Bags, k1: string, s1: Slot, k2: string, s2: Slot): Bags
    requires k1 in b && k2 in b
  {
    MoveBags(MoveBags(b, s1, k1, s2), s2, k2, s1)
  }

  /** One `from` listed under slot s becomes `to`. */
  function Relabel(ib: Index, s: Slot, from: string, to: string): Index
    requires s in ib
  {
    ib[s := ib[s] - multiset{from} + multiset{to}]
  }

  /** The swap on the index: one k1 under s1 becomes k2, then one k2 under s2 becomes k1. */
  function SwapIdx(ib: Index, k1: string, s1: Slot, k2: string, s2: Slot): Index
    requires s1 in ib && s2 in ib
  {
    Relabel(Relabel(ib, s1, k1, k2), s2, k2, k1)
  }

  /** `kode` leaves slot `from`; an entry left empty is dropped. */
  function Withdraw(ib: Index, from: Slot, kode: string): Index
    requires from in ib
  {
    var rest := ib[from] - multiset{kode};
    if rest == multiset{} then ib - {from} else ib[from := rest]
  }

  /** `kode` joins slot `to`, which gets an entry if it had none. */
  function Deposit(ib: Index, to: Slot, kode: string): Index
  {
    if to in ib then ib[to := ib[to] + multiset{kode}] else ib[to := multiset{kode}]
  }

  /** The move on the index: `kode` leaves `from` (dropping a now empty entry) and joins `to`. */
  function MoveIdx(ib: Index, from: Slot, kode: string, to: Slot): Index
    requires from in ib
  {
    Deposit(Withdraw(ib, from, kode), to, kode)
  }

  /** The empty slots after a move: `from` joins them if it became empty, `to` leaves them if it was. */
  function EmptyAfterMove(e: set<Slot>, ib: Index, from: Slot, kode: string, to: Slot): set<Slot>
    requires from in ib
  {
    var i1 := Withdraw(ib, from, kode);
    var e1 := if from in i1 then e else e + {from};
    if to in i1 then e1 else e1 - {to}
  }

  function Ind(c: bool): int
  {
    if c then 1 else 0
  }

  /** The count of class k in slot s after a move: `kode` loses a `from` and gains a `to`. */
  lemma MoveBagsCount(b: Bags, from: Slot, kode: string, to: Slot, k: string, s: Slot)
    requires kode in b && from in b[kode]
    ensures MoveBags(b, from, kode, to).Keys == b.Keys
    ensures SCount(MoveBags(b, from, kode, to), k, s) ==
      SCount(b, k, s) - Ind(k == kode && s == from) + Ind(k == kode && s == to)
  {
  }

  /** The count of class k under slot s after a relabelling. */
  lemma RelabelCount(ib: Index, s0: Slot, from: string, to: string, s: Slot, k: string)
    requires s0 in ib && from in ib[s0]
    ensures Relabel(ib, s0, from, to).Keys == ib.Keys
    ensures ICount(Relabel(ib, s0, from, to), s, k) ==
      ICount(ib, s, k) - Ind(k == from && s == s0) + Ind(k == to && s == s0)
  {
    var m := ib[s0] - multiset{from} + multiset{to};
    assert m[k] == ib[s0][k] - Ind(k == from) + Ind(k == to);
  }

  /** The count of class k in slot s after a swap: k1 loses an s1 and gains an s2, k2 loses an s2 and gains an s1. */
  lemma SwapBagsCount(b: Bags, k1: string, s1: Slot, k2: string, s2: Slot, k: string, s: Slot)
    requires k1 in b && s1 in b[k1] && k2 in b && s2 in b[k2]
    ensures SwapBags(b, k1, s1, k2, s2).Keys == b.Keys
    ensures SCount(SwapBags(b, k1, s1, k2, s2), k, s) ==
      SCount(b, k, s) - Ind(k == k1 && s == s1) + Ind(k == k1 && s == s2)
                      - Ind(k == k2 && s == s2) + Ind(k == k2 && s == s1)
  {
    var b1 := MoveBags(b, s1, k1, s2);
    MoveBagsCount(b, s1, k1, s2, k2, s2);
    MoveBagsCount(b, s1, k1, s2, k, s);
    MoveBagsCount(b1, s2, k2, s1, k, s);
  }

  /** The count of class k under slot s after a swap on the index. */
  lemma SwapIdxCount(ib: Index, k1: string, s1: Slot, k2: string, s2: Slot, s: Slot, k: string)
    requires s1 in ib && k1 in ib[s1] && s2 in ib && k2 in ib[s2]
    ensures SwapIdx(ib, k1, s1, k2, s2).Keys == ib.Keys
    ensures ICount(SwapIdx(ib, k1, s1, k2, s2), s, k) ==
      ICount(ib, s, k) - Ind(k == k1 && s == s1) + Ind(k == k2 && s == s1)
                       - Ind(k == k2 && s == s2) + Ind(k == k1 && s == s2)
  {
    var i1 := Relabel(ib, s1, k1, k2);
    RelabelCount(ib, s1, k1, k2, s2, k2);
    RelabelCount(ib, s1, k1, k2, s, k);
    RelabelCount(i1, s2, k2, k1, s, k);
  }

  /** Withdrawing drops the slot's entry exactly when it held `kode` alone, and changes no other entry. */
  lemma WithdrawKeys(ib: Index, from: Slot, kode: string)
    requires from in ib
    ensures Withdraw(ib, from, kode).Keys ==
      if ib[from] - multiset{kode} == multiset{} then ib.Keys - {from} else ib.Keys
    ensures from in Withdraw(ib, from, kode) ==> Withdraw(ib, from, kode)[from] == ib[from] - multiset{kode}
    ensures forall s :: s in Withdraw(ib, from, kode) && s != from ==> Withdraw(ib, from, kode)[s] == ib[s]
  {
  }

  /** The count of class k under slot s after a withdrawal. */
  lemma WithdrawCount(ib: Index, from: Slot, kode: string, s: Slot, k: string)
    requires from in ib && kode in ib[from]
    ensures ICount(Withdraw(ib, from, kode), s, k) == ICount(ib, s, k) - Ind(k == kode && s == from)
  {
    var rest := ib[from] - multiset{kode};
    assert rest[k] == ib[from][k] - Ind(k == kode);
  }

  /** Depositing adds the slot's entry if missing, lists `kode` there once more, and changes no other entry. */
  lemma DepositCount(ib: Index, to: Slot, kode: string, s: Slot, k: string)
    ensures Deposit(ib, to, kode).Keys == ib.Keys + {to}
    ensures kode in Deposit(ib, to, kode)[to]
    ensures s in Deposit(ib, to, kode) && s != to ==> Deposit(ib, to, kode)[s] == ib[s]
    ensures ICount(Deposit(ib, to, kode), s, k) == ICount(ib, s, k) + Ind(k == kode && s == to)
  {
  }

  /** Which slots the index keys after a move. */
  lemma MoveIdxKeys(ib: Index, from: Slot, kode: string, to: Slot)
    requires from in ib
    ensures MoveIdx(ib, from, kode, to).Keys ==
      (if ib[from] - multiset{kode} == multiset{} then ib.Keys - {from} else ib.Keys) + {to}
  {
    WithdrawKeys(ib, from, kode);
    DepositCount(Withdraw(ib, from, kode), to, kode, to, kode);
  }

  /** The count of class k under slot s after a move on the index. */
  lemma MoveIdxCount(ib: Index, from: Slot, kode: string, to: Slot, s: Slot, k: string)
    requires from in ib && kode in ib[from]
    ensures ICount(MoveIdx(ib, from, kode, to), s, k) ==
      ICount(ib, s, k) - Ind(k == kode && s == from) + Ind(k == kode && s == to)
  {
    WithdrawCount(ib, from, kode, s, k);
    DepositCount(Withdraw(ib, from, kode), to, kode, s, k);
  }

  /** Two schedules with the same classes and the same counts are the same up to list order. */
  lemma BagsByCounts(b: Bags, c: Bags)
    requires b.Keys == c.Keys
    requires forall k, s :: SCount(b, k, s) == SCount(c, k, s)
    ensures b == c
  {
    forall k | k in b ensures b[k] == c[k] {
      forall s ensures b[k][s] == c[k][s] {
        assert SCount(b, k, s) == SCount(c, k, s);
      }
    }
  }

  /** Two indexes with the same slots and the same counts are the same up to list order. */
  lemma IdxByCounts(ib: Index, ic: Index)
    requires ib.Keys == ic.Keys
    requires forall s, k :: ICount(ib, s, k) == ICount(ic, s, k)
    ensures ib == ic
  {
    forall s | s in ib ensures ib[s] == ic[s] {
      forall k ensures ib[s][k] == ic[s][k] {
        assert ICount(ib, s, k) == ICount(ic, s, k);
      }
    }
  }

  /** A swap keeps the index the inverse of the schedule, and every edit it makes is defined. */
  lemma SwapKeepsConsistent(b: Bags, ib: Index, k1: string, s1: Slot, k2: string, s2: Slot)
    requires Consistent(b, ib)
    requires k1 in b && s1 in b[k1] && k2 in b && s2 in b[k2]
    ensures s1 in ib && k1 in ib[s1] && s2 in ib && k2 in ib[s2]
    ensures Consistent(SwapBags(b, k1, s1, k2, s2), SwapIdx(ib, k1, s1, k2, s2))
  {
    assert SCount(b, k1, s1) == ICount(ib, s1, k1) && SCount(b, k2, s2) == ICount(ib, s2, k2);
    var b2 := SwapBags(b, k1, s1, k2, s2);
    var i2 := SwapIdx(ib, k1, s1, k2, s2);
    forall k, s ensures SCount(b2, k, s) == ICount(i2, s, k) {
      SwapBagsCount(b, k1, s1, k2, s2, k, s);
      SwapIdxCount(ib, k1, s1, k2, s2, s, k);
      assert SCount(b, k, s) == ICount(ib, s, k);
    }
    SwapIdxNonEmpty(ib, k1, s1, k2, s2);
  }

  /** A swap on the index leaves no slot with an empty entry. */
  lemma SwapIdxNonEmpty(ib: Index, k1: string, s1: Slot, k2: string, s2: Slot)
    requires s1 in ib && k1 in ib[s1] && s2 in ib && k2 in ib[s2]
    requires forall s :: s in ib ==> ib[s] != multiset{}
    ensures forall s :: s in SwapIdx(ib, k1, s1, k2, s2) ==> SwapIdx(ib, k1, s1, k2, s2)[s] != multiset{}
  {
    var i2 := SwapIdx(ib, k1, s1, k2, s2);
    forall s | s in i2 ensures i2[s] != multiset{} {
      SwapIdxCount(ib, k1, s1, k2, s2, s, k1);
      SwapIdxCount(ib, k1, s1, k2, s2, s, k2);
      if s == s1 {
        assert ICount(i2, s, k2) > 0;
      } else if s == s2 {
        assert ICount(i2, s, k1) > 0;
      } else {
        assert i2[s] == ib[s];
      }
    }
  }

  /** After a swap on the schedule, k1 meets in s2 and k2 in s1. */
  lemma SwapBagsMembers(b: Bags, k1: string, s1: Slot, k2: string, s2: Slot)
    requires k1 in b && s1 in b[k1] && k2 in b && s2 in b[k2]
    ensures var b2 := SwapBags(b, k1, s1, k2, s2);
      b2.Keys == b.Keys && s2 in b2[k1] && s1 in b2[k2]
  {
    SwapBagsCount(b, k1, s1, k2, s2, k1, s2);
    SwapBagsCount(b, k1, s1, k2, s2, k2, s1);
  }

  /** Swapping back restores each count. */
  lemma SwapUndoCount(b: Bags, k1: string, s1: Slot, k2: string, s2: Slot, k: string, s: Slot)
    requires k1 in b && s1 in b[k1] && k2 in b && s2 in b[k2]
    requires var b2 := SwapBags(b, k1, s1, k2, s2); s2 in b2[k1] && s1 in b2[k2]
    ensures SCount(SwapBags(SwapBags(b, k1, s1, k2, s2), k1, s2, k2, s1), k, s) == SCount(b, k, s)
  {
    SwapBagsCount(b, k1, s1, k2, s2, k, s);
    SwapBagsCount(SwapBags(b, k1, s1, k2, s2), k1, s2, k2, s1, k, s);
  }

  /** Swapping back restores every class's slots, as multisets. */
  lemma SwapUndoBags(b: Bags, k1: string, s1: Slot, k2: string, s2: Slot)
    requires k1 in b && s1 in b[k1] && k2 in b && s2 in b[k2]
    ensures var b2 := SwapBags(b, k1, s1, k2, s2);
      s2 in b2[k1] && s1 in b2[k2] && SwapBags(b2, k1, s2, k2, s1) == b
  {
    var b2 := SwapBags(b, k1, s1, k2, s2);
    SwapBagsMembers(b, k1, s1, k2, s2);
    var b3 := SwapBags(b2, k1, s2, k2, s1);
    SwapBagsMembers(b2, k1, s2, k2, s1);
    forall k, s ensures SCount(b3, k, s) == SCount(b, k, s) {
      SwapUndoCount(b, k1, s1, k2, s2, k, s);
    }
    BagsByCounts(b3, b);
  }

  /** After a swap on the index, k1 is listed under s2 and k2 under s1. */
  lemma SwapIdxMembers(ib: Index, k1: string, s1: Slot, k2: string, s2: Slot)
    requires s1 in ib && k1 in ib[s1] && s2 in ib && k2 in ib[s2]
    ensures var i2 := SwapIdx(ib, k1, s1, k2, s2);
      i2.Keys == ib.Keys && k1 in i2[s2] && k2 in i2[s1]
  {
    SwapIdxCount(ib, k1, s1, k2, s2, s2, k1);
    SwapIdxCount(ib, k1, s1, k2, s2, s1, k2);
  }

  /** Swapping back restores the index, as multisets. */
  lemma SwapUndoIdx(ib: Index, k1: string, s1: Slot, k2: string, s2: Slot)
    requires s1 in ib && k1 in ib[s1] && s2 in ib && k2 in ib[s2]
    ensures var i2 := SwapIdx(ib, k1, s1, k2, s2);
      s1 in i2 && s2 in i2 && k1 in i2[s2] && k2 in i2[s1] && SwapIdx(i2, k1, s2, k2, s1) == ib
  {
    var i2 := SwapIdx(ib, k1, s1, k2, s2);
    SwapIdxMembers(ib, k1, s1, k2, s2);
    var i3 := SwapIdx(i2, k1, s2, k2, s1);
    SwapIdxCount(i2, k1, s2, k2, s1, s1, k1);
    forall s, k ensures ICount(i3, s, k) == ICount(ib, s, k) {
      SwapIdxCount(ib, k1, s1, k2, s2, s, k);
      SwapIdxCount(i2, k1, s2, k2, s1, s, k);
    }
    IdxByCounts(i3, ib);
  }

  /** Swapping back restores every class's slots and the index, as multisets. */
  lemma SwapUndo(b: Bags, ib: Index, k1: string, s1: Slot, k2: string, s2: Slot)
    requires Consistent(b, ib)
    requires k1 in b && s1 in b[k1] && k2 in b && s2 in b[k2]
    ensures var b2 := SwapBags(b, k1, s1, k2, s2);
      s2 in b2[k1] && s1 in b2[k2] && SwapBags(b2, k1, s2, k2, s1) == b
    ensures s1 in ib && s2 in ib &&
      var i2 := SwapIdx(ib, k1, s1, k2, s2);
      k1 in i2[s2] && k2 in i2[s1] && SwapIdx(i2, k1, s2, k2, s1) == ib
  {
    SwapKeepsConsistent(b, ib, k1, s1, k2, s2);
    SwapUndoBags(b, k1, s1, k2, s2);
    SwapUndoIdx(ib, k1, s1, k2, s2);
  }

  /** After a move the index still counts every class in every slot as the schedule does. */
  lemma MoveKeepsCounts(b: Bags, ib: Index, from: Slot, kode: string, to: Slot)
    requires Consistent(b, ib)
    requires kode in b && from in b[kode]
    ensures from in ib && kode in ib[from]
    ensures forall k, s :: SCount(MoveBags(b, from, kode, to), k, s) == ICount(MoveIdx(ib, from, kode, to), s, k)
  {
    assert SCount(b, kode, from) == ICount(ib, from, kode);
    var b2 := MoveBags(b, from, kode, to);
    var i2 := MoveIdx(ib, from, kode, to);
    forall k, s ensures SCount(b2, k, s) == ICount(i2, s, k) {
      MoveBagsCount(b, from, kode, to, k, s);
      MoveIdxCount(ib, from, kode, to, s, k);
      assert SCount(b, k, s) == ICount(ib, s, k);
    }
  }

  /** A move leaves no slot of the index with an empty list. */
  lemma MoveKeepsNonEmpty(ib: Index, from: Slot, kode: string, to: Slot)
    requires forall s :: s in ib ==> ib[s] != multiset{}
    requires from in ib && kode in ib[from]
    ensures forall s :: s in MoveIdx(ib, from, kode, to) ==> MoveIdx(ib, from, kode, to)[s] != multiset{}
  {
    var i1 := Withdraw(ib, from, kode);
    var i2 := MoveIdx(ib, from, kode, to);
    WithdrawKeys(ib, from, kode);
    forall s | s in i2 ensures i2[s] != multiset{} {
      DepositCount(i1, to, kode, s, kode);
      if s != to {
        assert i2[s] == i1[s];
      }
    }
  }

  /** A move keeps the empty slots disjoint from the index; together they gain the target. */
  lemma MoveEmptyKeys(ib: Index, e: set<Slot>, from: Slot, kode: string, to: Slot)
    requires e !! ib.Keys && from in ib
    ensures EmptyAfterMove(e, ib, from, kode, to) !! MoveIdx(ib, from, kode, to).Keys
    ensures EmptyAfterMove(e, ib, from, kode, to) + MoveIdx(ib, from, kode, to).Keys == e + ib.Keys + {to}
  {
    var i1 := Withdraw(ib, from, kode);
    WithdrawKeys(ib, from, kode);
    var e1 := if from in i1 then e else e + {from};
    assert e1 !! i1.Keys && e1 + i1.Keys == e + ib.Keys;
    DepositCount(i1, to, kode, to, kode);
  }

  /**
   * A move keeps the index the inverse of the schedule and the empty
   * slots disjoint from it; together they cover the same slots as before
   * plus the target.
   */
  lemma MoveKeepsConsistent(b: Bags, ib: Index, e: set<Slot>, from: Slot, kode: string, to: Slot)
    requires Consistent(b, ib) && e !! ib.Keys
    requires kode in b && from in b[kode]
    ensures from in ib && kode in ib[from]
    ensures Consistent(MoveBags(b, from, kode, to), MoveIdx(ib, from, kode, to))
    ensures EmptyAfterMove(e, ib, from, kode, to) !! MoveIdx(ib, from, kode, to).Keys
    ensures EmptyAfterMove(e, ib, from, kode, to) + MoveIdx(ib, from, kode, to).Keys == e + ib.Keys + {to}
  {
    MoveKeepsCounts(b, ib, from, kode, to);
    MoveKeepsNonEmpty(ib, from, kode, to);
    MoveEmptyKeys(ib, e, from, kode, to);
  }

  /** Moving a meeting out and back restores the schedule's multisets. */
  lemma MoveUndoBags(b: Bags, from: Slot, kode: string, to: Slot)
    requires kode in b && from in b[kode]
    ensures to in MoveBags(b, from, kode, to)[kode]
    ensures MoveBags(MoveBags(b, from, kode, to), to, kode, from) == b
  {
    var b2 := MoveBags(b, from, kode, to);
    MoveBagsCount(b, from, kode, to, kode, to);
    var b3 := MoveBags(b2, to, kode, from);
    forall k, s ensures SCount(b3, k, s) == SCount(b, k, s) {
      MoveBagsCount(b, from, kode, to, k, s);
      MoveBagsCount(b2, to, kode, from, k, s);
    }
    BagsByCounts(b3, b);
  }

  /** After a move into a slot the index did not list, that slot lists the moved class alone. */
  lemma MoveIntoFresh(ib: Index, from: Slot, kode: string, to: Slot)
    requires from in ib && to !in ib
    ensures to in MoveIdx(ib, from, kode, to) && MoveIdx(ib, from, kode, to)[to] == multiset{kode}
    ensures to !in Withdraw(ib, from, kode)
  {
    WithdrawKeys(ib, from, kode);
  }

  /** Moving a meeting into a slot the index did not list and back restores each count. */
  lemma MoveUndoIdxCount(ib: Index, from: Slot, kode: string, to: Slot, s: Slot, k: string)
    requires from in ib && kode in ib[from] && to !in ib
    requires to in MoveIdx(ib, from, kode, to) && kode in MoveIdx(ib, from, kode, to)[to]
    ensures ICount(MoveIdx(MoveIdx(ib, from, kode, to), to, kode, from), s, k) == ICount(ib, s, k)
  {
    MoveIdxCount(ib, from, kode, to, s, k);
    MoveIdxCount(MoveIdx(ib, from, kode, to), to, kode, from, s, k);
  }

  /** Moving a meeting into a slot the index did not list and back restores the index's multisets. */
  lemma MoveUndoIdx(ib: Index, from: Slot, kode: string, to: Slot)
    requires from in ib && kode in ib[from] && to !in ib
    ensures var i2 := MoveIdx(ib, from, kode, to);
      to in i2 && kode in i2[to] && MoveIdx(i2, to, kode, from) == ib
  {
    var i2 := MoveIdx(ib, from, kode, to);
    MoveIntoFresh(ib, from, kode, to);
    MoveIdxKeys(ib, from, kode, to);
    var i3 := MoveIdx(i2, to, kode, from);
    MoveIdxKeys(i2, to, kode, from);
    assert i2[to] - multiset{kode} == multiset{};
    forall s, k ensures ICount(i3, s, k) == ICount(ib, s, k) {
      MoveUndoIdxCount(ib, from, kode, to, s, k);
    }
    IdxByCounts(i3, ib);
  }

  /** Moving a meeting into an empty slot and back restores the set of empty slots. */
  lemma MoveUndoEmpty(ib: Index, e: set<Slot>, from: Slot, kode: string, to: Slot)
    requires e !! ib.Keys && from in ib && kode in ib[from] && to in e
    ensures var i2 := MoveIdx(ib, from, kode, to);
      to in i2 && EmptyAfterMove(EmptyAfterMove(e, ib, from, kode, to), i2, to, kode, from) == e
  {
    MoveIntoFresh(ib, from, kode, to);
    var i2 := MoveIdx(ib, from, kode, to);
    WithdrawKeys(i2, to, kode);
    assert i2[to] - multiset{kode} == multiset{};
  }

  /**
   * Moving a meeting into an empty slot and back restores the schedule's
   * multisets, the index's multisets and the empty set exactly.
   */
  lemma MoveUndo(b: Bags, ib: Index, e: set<Slot>, from: Slot, kode: string, to: Slot)
    requires Consistent(b, ib) && e !! ib.Keys
    requires kode in b && from in b[kode] && to in e
    ensures from in ib
    ensures var i2 := MoveIdx(ib, from, kode, to);
      && to in i2 && kode in i2[to]
      && to in MoveBags(b, from, kode, to)[kode]
      && MoveBags(MoveBags(b, from, kode, to), to, kode, from) == b
      && MoveIdx(i2, to, kode, from) == ib
      && EmptyAfterMove(EmptyAfterMove(e, ib, from, kode, to), i2, to, kode, from) == e
  {
    MoveKeepsCounts(b, ib, from, kode, to);
    MoveUndoBags(b, from, kode, to);
    MoveUndoIdx(ib, from, kode, to);
    MoveUndoEmpty(ib, e, from, kode, to);
  }

  // ---------------------------------------------------------------------
  // The same edits on the lists themselves
  // ---------------------------------------------------------------------

  /** Replacing one class's list replaces its multiset. */
  lemma BagsOfUpdate(sk: Schedule, k: string, l: seq<Slot>)
    ensures BagsOf(sk[k := l]) == BagsOf(sk)[k := multiset(l)]
  {
  }

  /** `_swap_pair_jadwal` on the schedule, the second edit seeing the first when k1 == k2. */
  function SwapSchedule(sk: Schedule, k1: string, s1: Slot, k2: string, s2: Slot): (r: Schedule)
    requires k1 in sk && s1 in sk[k1] && k2 in sk && s2 in sk[k2]
    ensures r.Keys == sk.Keys
  {
    ReplaceFirstHas(sk[k1], s1, s2);
    var first := sk[k1 := ReplaceFirst(sk[k1], s1, s2)];
    first[k2 := ReplaceFirst(first[k2], s2, s1)]
  }

  /** On the lists, the swap is the swap on their multisets. */
  lemma SwapScheduleBags(sk: Schedule, k1: string, s1: Slot, k2: string, s2: Slot)
    requires k1 in sk && s1 in sk[k1] && k2 in sk && s2 in sk[k2]
    ensures BagsOf(SwapSchedule(sk, k1, s1, k2, s2)) == SwapBags(BagsOf(sk), k1, s1, k2, s2)
  {
    var b := BagsOf(sk);
    var l1 := ReplaceFirst(sk[k1], s1, s2);
    ReplaceFirstCounts(sk[k1], s1, s2);
    var first := sk[k1 := l1];
    var b1 := b[k1 := b[k1] - multiset{s1} + multiset{s2}];
    assert BagsOf(first) == b1 by {
      BagsOfUpdate(sk, k1, l1);
    }
    assert s2 in first[k2];
    var l2 := ReplaceFirst(first[k2], s2, s1);
    ReplaceFirstCounts(first[k2], s2, s1);
    assert BagsOf(first[k2 := l2]) == b1[k2 := b1[k2] - multiset{s2} + multiset{s1}] by {
      BagsOfUpdate(first, k2, l2);
      assert b1[k2] == multiset(first[k2]);
    }
  }

  /** A swap keeps the number of meetings of every class. */
  lemma SwapScheduleLengths(sk: Schedule, k1: string, s1: Slot, k2: string, s2: Slot)
    requires k1 in sk && s1 in sk[k1] && k2 in sk && s2 in sk[k2]
    ensures forall k :: k in sk ==> |SwapSchedule(sk, k1, s1, k2, s2)[k]| == |sk[k]|
  {
    ReplaceFirstCounts(sk[k1], s1, s2);
    var first := sk[k1 := ReplaceFirst(sk[k1], s1, s2)];
    assert forall k :: k in sk ==> |first[k]| == |sk[k]|;
    ReplaceFirstCounts(first[k2], s2, s1);
  }

  /** `_move_into_slot` on the schedule. */
  function MoveSchedule(sk: Schedule, from: Slot, kode: string, to: Slot): (r: Schedule)
    requires kode in sk && from in sk[kode]
    ensures r.Keys == sk.Keys
  {
    sk[kode := ReplaceFirst(sk[kode], from, to)]
  }

  /** On the lists, the move is the move on their multisets. */
  lemma MoveScheduleBags(sk: Schedule, from: Slot, kode: string, to: Slot)
    requires kode in sk && from in sk[kode]
    ensures BagsOf(MoveSchedule(sk, from, kode, to)) == MoveBags(BagsOf(sk), from, kode, to)
  {
    BagsOfUpdate(sk, kode, ReplaceFirst(sk[kode], from, to));
    ReplaceFirstCounts(sk[kode], from, to);
  }

  /** A move keeps the number of meetings of every class. */
  lemma MoveScheduleLengths(sk: Schedule, from: Slot, kode: string, to: Slot)
    requires kode in sk && from in sk[kode]
    ensures forall k :: k in sk ==> |MoveSchedule(sk, from, kode, to)[k]| == |sk[k]|
  {
    ReplaceFirstCounts(sk[kode], from, to);
  }

  /** Replacing the first x by a y the list lacks, then the first y by x, gives the list back. */
  lemma ReplaceFirstUndo<T>(l: seq<T>, x: T, y: T)
    requires x in l && y !in l
    ensures y in ReplaceFirst(l, x, y) && ReplaceFirst(ReplaceFirst(l, x, y), y, x) == l
  {
    var i := FirstIndex(l, x);
    var m := l[i := y];
    assert m[i] == y;
    var j := FirstIndex(m, y);
    assert forall t :: 0 <= t < i ==> m[t] != y by {
      assert forall t :: 0 <= t < i ==> m[t] == l[t];
    }
    assert forall t :: 0 <= t < j ==> m[t] != y by {
      assert forall t :: 0 <= t < j ==> m[t] == m[..j][t];
    }
    assert j == i;
    assert m[i := x] == l;
  }

  /** A move into a slot the class does not use, followed by the move back, restores the lists exactly. */
  lemma MoveScheduleUndo(sk: Schedule, from: Slot, kode: string, to: Slot)
    requires kode in sk && from in sk[kode] && to !in sk[kode]
    ensures var r := MoveSchedule(sk, from, kode, to);
      to in r[kode] && MoveSchedule(r, to, kode, from) == sk
  {
    ReplaceFirstUndo(sk[kode], from, to);
    var r := MoveSchedule(sk, from, kode, to);
    assert MoveSchedule(r, to, kode, from) == r[kode := sk[kode]];
  }

  // ---------------------------------------------------------------------
  // The search state
  // ---------------------------------------------------------------------

  /** A trial edit of `next`. */
  datatype Move =
    | SwapMove(k1: string, s1: Slot, k2: string, s2: Slot)
    | MoveTo(from: Slot, kode: string, to: Slot)

  predicate Applicable(b: Bags, e: set<Slot>, m: Move)
  {
    match m
    case SwapMove(k1, s1, k2, s2) => k1 in b && s1 in b[k1] && k2 in b && s2 in b[k2]
    case MoveTo(from, kode, to) => kode in b && from in b[kode] && to in e
  }

  function Apply(b: Bags, e: set<Slot>, m: Move): Bags
    requires Applicable(b, e, m)
  {
    match m
    case SwapMove(k1, s1, k2, s2) => SwapBags(b, k1, s1, k2, s2)
    case MoveTo(from, kode, to) => MoveBags(b, from, kode, to)
  }

  /** The index lists the slots the edit reads from it. */
  predicate IdxApplicable(ib: Index, m: Move)
  {
    match m
    case SwapMove(_, s1, _, s2) => s1 in ib && s2 in ib
    case MoveTo(from, _, _) => from in ib
  }

  /** The edit on the index. */
  function ApplyIdx(ib: Index, m: Move): Index
    requires IdxApplicable(ib, m)
  {
    match m
    case SwapMove(k1, s1, k2, s2) => SwapIdx(ib, k1, s1, k2, s2)
    case MoveTo(from, kode, to) => MoveIdx(ib, from, kode, to)
  }

  /** The edit on the empty slots: a swap leaves them alone. */
  function ApplyEmpty(e: set<Slot>, ib: Index, m: Move): set<Slot>
    requires IdxApplicable(ib, m)
  {
    match m
    case SwapMove(_, _, _, _) => e
    case MoveTo(from, kode, to) => EmptyAfterMove(e, ib, from, kode, to)
  }

  /** `min(len(kelas) ** 2, 50)` */
  function NumSwaps(classes: nat): nat
  {
    if classes * classes < 50 then classes * classes else 50
  }

  /** `min(len(kelas) * len(empty_slots), 50)` */
  function NumMoves(classes: nat, empty: nat): nat
  {
    if classes * empty < 50 then classes * empty else 50
  }

  /**
   * The bookkeeping of `next` after the trials `tried` (their energy
   * changes): the best change is the least one below zero, and its edit,
   * applied to the starting schedule, reaches that energy.
   */
  ghost predicate BestSoFar(bestDelta: real, bestMove: Option<Move>, tried: seq<real>,
                      b0: Bags, e0: set<Slot>, energy0: real, objective: Objective)
  {
    && bestDelta <= 0.0
    && (forall i :: 0 <= i < |tried| ==> bestDelta <= tried[i])
    && (bestMove.None? <==> forall i :: 0 <= i < |tried| ==> tried[i] >= 0.0)
    && (bestMove.None? ==> bestDelta == 0.0)
    && (bestMove.Some? ==>
          && bestDelta < 0.0
          && (exists i :: 0 <= i < |tried| && tried[i] == bestDelta)
          && Applicable(b0, e0, bestMove.value)
          && objective(Apply(b0, e0, bestMove.value)) == energy0 + bestDelta)
  }


  /** No trial yet: no best move, and a best change of zero. */
  lemma BestSoFarStart(b0: Bags, e0: set<Slot>, energy0: real, objective: Objective)
    ensures BestSoFar(0.0, None, [], b0, e0, energy0, objective)
  {
  }

  /** Recording one more trial as `next` does keeps the bookkeeping right. */
  lemma {:induction false} BestSoFarStep(bestDelta: real, bestMove: Option<Move>, tried: seq<real>,
                                         b0: Bags, e0: set<Slot>, energy0: real, objective: Objective,
                                         m: Move, d: real)
    requires BestSoFar(bestDelta, bestMove, tried, b0, e0, energy0, objective)
    requires Applicable(b0, e0, m) && objective(Apply(b0, e0, m)) == energy0 + d
    ensures d < bestDelta ==> BestSoFar(d, Some(m), tried + [d], b0, e0, energy0, objective)
    ensures !(d < bestDelta) ==> BestSoFar(bestDelta, bestMove, tried + [d], b0, e0, energy0, objective)
  {
    var t := tried + [d];
    assert t[|tried|] == d;
    assert forall i :: 0 <= i < |tried| ==> t[i] == tried[i];
    if bestMove.Some? {
      var i :| 0 <= i < |tried| && tried[i] == bestDelta;
      assert t[i] == bestDelta;
    }
  }

  /**
   * The invariant of the search state: the index is the inverse of the
   * schedule, no empty slot is listed in the index, and every class meets
   * at least once.
   */
  ghost predicate StateInvariant(sk: Schedule, sa: Index, e: set<Slot>, classCodes: seq<string>)
  {
    && Consistent(BagsOf(sk), sa)
    && e !! sa.Keys
    && (forall c :: c in classCodes ==> c in sk && |sk[c]| > 0)
  }

  /**
   * The empty slots and the index's slots together make up `cov` (the
   * slots `seed_jadwal` accounted for); with the invariant's disjointness,
   * the empty slots are exactly the slots of `cov` the index does not list.
   */
  ghost predicate Covers(e: set<Slot>, sa: Index, cov: set<Slot>)
  {
    forall s :: s in cov <==> s in e || s in sa
  }

  /** A meeting in the schedule is listed under its slot in the index. */
  lemma Listed(sk: Schedule, sa: Index, k: string, s: Slot)
    requires Consistent(BagsOf(sk), sa)
    requires k in sk && s in sk[k]
    ensures s in sa && k in sa[s]
  {
    assert SCount(BagsOf(sk), k, s) == ICount(sa, s, k);
  }

  /** A swap keeps the index's slots, so it keeps the state invariant with the same coverage. */
  lemma SwapKeepsInvariant(sk: Schedule, sa: Index, e: set<Slot>, classCodes: seq<string>, cov: set<Slot>,
                           k1: string, s1: Slot, k2: string, s2: Slot)
    requires StateInvariant(sk, sa, e, classCodes) && Covers(e, sa, cov)
    requires k1 in sk && s1 in sk[k1] && k2 in sk && s2 in sk[k2]
    ensures s1 in sa && s2 in sa
    ensures StateInvariant(SwapSchedule(sk, k1, s1, k2, s2), SwapIdx(sa, k1, s1, k2, s2), e, classCodes)
    ensures Covers(e, SwapIdx(sa, k1, s1, k2, s2), cov)
  {
    SwapKeepsConsistent(BagsOf(sk), sa, k1, s1, k2, s2);
    SwapScheduleBags(sk, k1, s1, k2, s2);
    SwapScheduleLengths(sk, k1, s1, k2, s2);
    SwapIdxKeys(sa, k1, s1, k2, s2);
  }

  /** A swap on the index keeps its slots. */
  lemma SwapIdxKeys(sa: Index, k1: string, s1: Slot, k2: string, s2: Slot)
    requires s1 in sa && s2 in sa
    ensures SwapIdx(sa, k1, s1, k2, s2).Keys == sa.Keys
  {
    var r1 := Relabel(sa, s1, k1, k2);
    assert r1.Keys == sa.Keys;
    assert Relabel(r1, s2, k2, k1).Keys == r1.Keys;
  }

  /**
   * A move keeps the state invariant; the coverage gains the target, so it
   * is unchanged for a target that was empty or listed.
   */
  lemma MoveKeepsInvariant(sk: Schedule, sa: Index, e: set<Slot>, classCodes: seq<string>, cov: set<Slot>,
                           from: Slot, kode: string, to: Slot)
    requires StateInvariant(sk, sa, e, classCodes) && Covers(e, sa, cov)
    requires kode in sk && from in sk[kode]
    ensures from in sa
    ensures StateInvariant(MoveSchedule(sk, from, kode, to), MoveIdx(sa, from, kode, to),
                           EmptyAfterMove(e, sa, from, kode, to), classCodes)
    ensures Covers(EmptyAfterMove(e, sa, from, kode, to), MoveIdx(sa, from, kode, to), cov + {to})
  {
    MoveKeepsConsistent(BagsOf(sk), sa, e, from, kode, to);
    MoveScheduleBags(sk, from, kode, to);
    MoveScheduleLengths(sk, from, kode, to);
    MoveKeepsCovers(sa, e, cov, from, kode, to);
  }

  /** Adding a slot already covered changes nothing. */
  lemma CoveredAlready(cov: set<Slot>, to: Slot)
    requires to in cov
    ensures cov + {to} == cov
  {
  }

  /** After a move the empty slots and the index cover what they covered, and the target. */
  lemma MoveKeepsCovers(sa: Index, e: set<Slot>, cov: set<Slot>, from: Slot, kode: string, to: Slot)
    requires e !! sa.Keys && Covers(e, sa, cov) && from in sa
    ensures Covers(EmptyAfterMove(e, sa, from, kode, to), MoveIdx(sa, from, kode, to), cov + {to})
  {
    MoveEmptyKeys(sa, e, from, kode, to);
  }

  /** A slot the index lists is a meeting slot of some class. */
  lemma IndexedIsUsed(sk: Schedule, sa: Index, s: Slot)
    requires Consistent(BagsOf(sk), sa) && s in sa
    ensures exists k :: k in sk && s in sk[k]
  {
    var k :| k in sa[s];
    assert SCount(BagsOf(sk), k, s) == ICount(sa, s, k);
  }

  /** A slot the index does not list is used by no class. */
  lemma Unused(sk: Schedule, sa: Index, k: string, s: Slot)
    requires Consistent(BagsOf(sk), sa) && s !in sa && k in sk
    ensures s !in sk[k]
  {
    assert SCount(BagsOf(sk), k, s) == ICount(sa, s, k);
  }

  /** An index that counts each class in each slot as the schedule does, with no empty entry, is its inverse. */
  lemma ConsistentByCounts(sk: Schedule, sa: Index)
    requires forall s :: s in sa ==> sa[s] != multiset{}
    requires forall k, s :: ICount(sa, s, k) == (if k in sk then multiset(sk[k])[s] else 0)
    ensures Consistent(BagsOf(sk), sa)
  {
    forall k, s ensures SCount(BagsOf(sk), k, s) == ICount(sa, s, k) {
      assert ICount(sa, s, k) == (if k in sk then multiset(sk[k])[s] else 0);
    }
  }

  /** The first loop of `seed_jadwal` for one class: list `kode` under each of its slots, in order. */
  method AddMeetings(sa0: Index, kode: string, slots: seq<Slot>) returns (sa: Index)
    requires forall s :: s in sa0 ==> sa0[s] != multiset{}
    ensures forall s :: s in sa ==> sa[s] != multiset{}
    ensures forall k, s :: ICount(sa, s, k) == ICount(sa0, s, k) + (if k == kode then multiset(slots)[s] else 0)
  {
    sa := sa0;
    var j := 0;
    while j < |slots|
      invariant 0 <= j <= |slots|
      invariant forall s :: s in sa ==> sa[s] != multiset{}
      invariant forall k, s :: ICount(sa, s, k) == ICount(sa0, s, k) + (if k == kode then multiset(slots[..j])[s] else 0)
    {
      var slot := slots[j];
      var cur := if slot in sa then sa[slot] else multiset{};
      ghost var prev := sa;
      sa := sa[slot := cur + multiset{kode}];
      assert slots[..j + 1] == slots[..j] + [slot];
      forall k, s ensures ICount(sa, s, k) == ICount(prev, s, k) + Ind(k == kode && s == slot) {
      }
      j := j + 1;
    }
    assert slots[..j] == slots;
  }

  /** The first loop of `seed_jadwal`: the index of a schedule, built class by class. */
  method IndexOf(sk: Schedule) returns (sa: Index)
    ensures Consistent(BagsOf(sk), sa)
  {
    sa := map[];
    var todo := sk.Keys;
    while todo != {}
      invariant todo <= sk.Keys
      invariant forall s :: s in sa ==> sa[s] != multiset{}
      invariant forall k, s :: ICount(sa, s, k) == (if k in sk && k !in todo then multiset(sk[k])[s] else 0)
      decreases todo
    {
      var kode :| kode in todo;
      sa := AddMeetings(sa, kode, sk[kode]);
      todo := todo - {kode};
    }
    ConsistentByCounts(sk, sa);
  }

  /** The second loop of `seed_jadwal`: the grid slots, room by room, that the index does not list. */
  method GridSlotsFree(rooms: seq<string>, startTimes: seq<(string, int)>, sa: Index) returns (empty: set<Slot>)
    ensures forall s :: s in empty <==> OnGrid(s, rooms, startTimes) && s !in sa
  {
    empty := {};
    var i := 0;
    while i < |rooms|
      invariant 0 <= i <= |rooms|
      invariant forall s :: s in empty <==>
        s.room in rooms[..i] && (s.day, s.start) in startTimes && s.end == s.start + 1 && s !in sa
    {
      var j := 0;
      while j < |startTimes|
        invariant 0 <= j <= |startTimes|
        invariant forall s :: s in empty <==>
          ((s.room in rooms[..i] && (s.day, s.start) in startTimes) ||
           (s.room == rooms[i] && (s.day, s.start) in startTimes[..j]))
          && s.end == s.start + 1 && s !in sa
      {
        var slot := Slot(rooms[i], startTimes[j].0, startTimes[j].1, startTimes[j].1 + 1);
        assert startTimes[..j + 1] == startTimes[..j] + [startTimes[j]];
        if slot !in sa {
          empty := empty + {slot};
        }
        j := j + 1;
      }
      assert rooms[..i + 1] == rooms[..i] + [rooms[i]];
      assert startTimes[..j] == startTimes;
      i := i + 1;
    }
    assert rooms[..i] == rooms;
  }

  class HillClimbingState {
    const classCodes: seq<string>          // codes of problem.list_kelas
    const rooms: seq<string>               // codes of problem.list_ruangan
    const startTimes: seq<(string, int)>   // LIST_WAKTU_MULAI
    const objective: Objective
    const rng: Rng
    var slotKuliah: Schedule
    var slotAssignment: Index
    var emptySlots: set<Slot>
    /** The slots `seed_jadwal` accounted for: the grid and every slot a class met in. */
    ghost var coverage: set<Slot>

    ghost predicate Valid()
      reads this
    {
      StateInvariant(slotKuliah, slotAssignment, emptySlots, classCodes) &&
      Covers(emptySlots, slotAssignment, coverage)
    }

    /** `_energy`: the objective of the current schedule. */
    function Energy(): real
      reads this
    {
      objective(BagsOf(slotKuliah))
    }

    constructor (classCodes: seq<string>, rooms: seq<string>, startTimes: seq<(string, int)>,
                 objective: Objective, rng: Rng)
      ensures this.classCodes == classCodes && this.rooms == rooms && this.startTimes == startTimes
      ensures this.objective == objective && this.rng == rng
      ensures slotKuliah == map[] && slotAssignment == map[] && emptySlots == {}
    {
      this.classCodes := classCodes;
      this.rooms := rooms;
      this.startTimes := startTimes;
      this.objective := objective;
      this.rng := rng;
      slotKuliah := map[];
      slotAssignment := map[];
      emptySlots := {};
      coverage := {};
    }

    /** `_swap_pair_jadwal`: exchange s1 of class k1 with s2 of class k2, in the schedule and the index. */
    method SwapPair(k1: string, s1: Slot, k2: string, s2: Slot)
      requires Valid()
      requires k1 in slotKuliah && s1 in slotKuliah[k1] && k2 in slotKuliah && s2 in slotKuliah[k2]
      modifies this
      ensures Valid()
      ensures s1 in old(slotAssignment) && s2 in old(slotAssignment)
      ensures slotKuliah == SwapSchedule(old(slotKuliah), k1, s1, k2, s2)
      ensures slotAssignment == SwapIdx(old(slotAssignment), k1, s1, k2, s2)
      ensures emptySlots == old(emptySlots) && coverage == old(coverage)
    {
      var sk, sa := slotKuliah, slotAssignment;
      SwapKeepsInvariant(sk, sa, emptySlots, classCodes, coverage, k1, s1, k2, s2);
      var sk', sa' := SwapSchedule(sk, k1, s1, k2, s2), SwapIdx(sa, k1, s1, k2, s2);
      SetState(sk', sa', emptySlots, coverage);
    }

    /** Install a new schedule, index, empty set and coverage that already satisfy the invariant. */
    method SetState(sk: Schedule, sa: Index, e: set<Slot>, ghost cov: set<Slot>)
      requires StateInvariant(sk, sa, e, classCodes) && Covers(e, sa, cov)
      modifies this
      ensures Valid()
      ensures slotKuliah == sk && slotAssignment == sa && emptySlots == e && coverage == cov
    {
      slotKuliah, slotAssignment, emptySlots, coverage := sk, sa, e, cov;
    }

    /**
     * `seed_jadwal`, given the schedule the base class seeds: index every
     * meeting under its slot, then collect the grid slots nobody uses.
     */
    method SeedJadwal(base: Schedule)
      requires forall c :: c in classCodes ==> c in base && |base[c]| > 0
      modifies this
      ensures Valid()
      ensures slotKuliah == base
      ensures forall s :: s in emptySlots <==> OnGrid(s, rooms, startTimes) && s !in slotAssignment
      ensures forall s :: s in coverage <==> OnGrid(s, rooms, startTimes) || s in slotAssignment
      ensures SlotsOnGrid(base, rooms, startTimes) ==> forall s :: s in coverage <==> OnGrid(s, rooms, startTimes)
    {
      slotKuliah := base;
      var sa := IndexOf(base);
      slotAssignment := sa;
      emptySlots := GridSlotsFree(rooms, startTimes, sa);
      coverage := emptySlots + sa.Keys;
      if SlotsOnGrid(base, rooms, startTimes) {
        forall s | s in sa ensures OnGrid(s, rooms, startTimes) {
          IndexedIsUsed(base, sa, s);
        }
      }
    }

    /** `_move_into_slot`: move one meeting of `kode` from `from` to `to`, keeping the index and the empty set. */
    method MoveIntoSlot(from: Slot, kode: string, to: Slot)
      requires Valid()
      requires kode in slotKuliah && from in slotKuliah[kode]
      modifies this
      ensures Valid()
      ensures from in old(slotAssignment)
      ensures slotKuliah == MoveSchedule(old(slotKuliah), from, kode, to)
      ensures slotAssignment == MoveIdx(old(slotAssignment), from, kode, to)
      ensures emptySlots == EmptyAfterMove(old(emptySlots), old(slotAssignment), from, kode, to)
      ensures coverage == old(coverage) + {to}
    {
      MoveKeepsInvariant(slotKuliah, slotAssignment, emptySlots, classCodes, coverage, from, kode, to);
      var sk', e', sa' := MoveSchedule(slotKuliah, from, kode, to),
        EmptyAfterMove(emptySlots, slotAssignment, from, kode, to), MoveIdx(slotAssignment, from, kode, to);
      SetState(sk', sa', e', coverage + {to});
    }

    /** `_random_pair_jadwal`: two classes, then a meeting slot of each. */
    method RandomPair() returns (k1: string, s1: Slot, k2: string, s2: Slot)
      requires |classCodes| > 0
      requires forall c :: c in classCodes ==> c in slotKuliah && |slotKuliah[c]| > 0
      modifies rng
      ensures k1 in classCodes && k2 in classCodes
      ensures k1 in slotKuliah && s1 in slotKuliah[k1] && k2 in slotKuliah && s2 in slotKuliah[k2]
      ensures rng.pos == old(rng.pos) + 4
    {
      var i1 := rng.Below(|classCodes|);
      k1 := classCodes[i1];
      var i2 := rng.Below(|classCodes|);
      k2 := classCodes[i2];
      var j1 := rng.Below(|slotKuliah[k1]|);
      s1 := slotKuliah[k1][j1];
      var j2 := rng.Below(|slotKuliah[k2]|);
      s2 := slotKuliah[k2][j2];
    }

    /**
     * `_random_move_to_empty_slot`: a class, one of its meeting slots, and
     * an empty slot (a draw over the set's elements, whose iteration order
     * is not fixed, so the element drawn is left open).
     */
    method RandomMove() returns (from: Slot, kode: string, to: Slot)
      requires |classCodes| > 0 && emptySlots != {}
      requires forall c :: c in classCodes ==> c in slotKuliah && |slotKuliah[c]| > 0
      modifies rng
      ensures kode in classCodes && kode in slotKuliah && from in slotKuliah[kode] && to in emptySlots
      ensures rng.pos == old(rng.pos) + 3
    {
      var i := rng.Below(|classCodes|);
      kode := classCodes[i];
      var j := rng.Below(|slotKuliah[kode]|);
      from := slotKuliah[kode][j];
      var _ := rng.Below(|emptySlots|);
      to :| to in emptySlots;
    }

    /**
     * One pass of the first loop of `next`: a random swap, its energy
     * change, and the swap back. The schedule comes back up to the order
     * of each class's list; the index and the empty slots come back exactly.
     */
    method TrySwap(eInit: real) returns (m: Move, d: real)
      requires Valid() && |classCodes| > 0 && eInit == Energy()
      modifies this, rng
      ensures Valid()
      ensures BagsOf(slotKuliah) == old(BagsOf(slotKuliah))
      ensures slotAssignment == old(slotAssignment) && emptySlots == old(emptySlots)
      ensures coverage == old(coverage)
      ensures m.SwapMove? && Applicable(BagsOf(slotKuliah), emptySlots, m)
      ensures d == objective(Apply(BagsOf(slotKuliah), emptySlots, m)) - eInit
    {
      ghost var sk0 := slotKuliah;
      ghost var b0 := BagsOf(slotKuliah);
      var k1, s1, k2, s2 := RandomPair();
      SwapUndo(b0, slotAssignment, k1, s1, k2, s2);
      SwapPair(k1, s1, k2, s2);
      SwapScheduleBags(sk0, k1, s1, k2, s2);
      ghost var sk1 := slotKuliah;
      d := Energy() - eInit;
      m := SwapMove(k1, s1, k2, s2);
      SwapPair(k1, s2, k2, s1);
      SwapScheduleBags(sk1, k1, s2, k2, s1);
    }

    /**
     * One pass of the second loop of `next`: a random move into an empty
     * slot, its energy change, and the move back, which restores the
     * schedule, the index and the empty slots exactly.
     */
    method TryMove(eInit: real) returns (m: Move, d: real)
      requires Valid() && |classCodes| > 0 && emptySlots != {} && eInit == Energy()
      modifies this, rng
      ensures Valid()
      ensures slotKuliah == old(slotKuliah)
      ensures slotAssignment == old(slotAssignment) && emptySlots == old(emptySlots)
      ensures coverage == old(coverage)
      ensures m.MoveTo? && Applicable(BagsOf(slotKuliah), emptySlots, m)
      ensures d == objective(Apply(BagsOf(slotKuliah), emptySlots, m)) - eInit
    {
      ghost var sk0 := slotKuliah;
      ghost var b0 := BagsOf(slotKuliah);
      var from, kode, to := RandomMove();
      ghost var c0 := coverage;
      Listed(sk0, slotAssignment, kode, from);
      CoveredAlready(c0, to);
      CoveredAlready(c0, from);
      MoveUndo(b0, slotAssignment, emptySlots, from, kode, to);
      Unused(sk0, slotAssignment, kode, to);
      MoveScheduleUndo(sk0, from, kode, to);
      MoveIntoSlot(from, kode, to);
      MoveScheduleBags(sk0, from, kode, to);
      d := Energy() - eInit;
      m := MoveTo(from, kode, to);
      MoveIntoSlot(to, kode, from);
    }

    /** The first loop of `next`: min(n², 50) swap trials, each undone. */
    method SwapTrials(eInit: real, bestDelta0: real, bestMove0: Option<Move>, ghost tried0: seq<real>)
      returns (bestDelta: real, bestMove: Option<Move>, ghost tried: seq<real>)
      requires Valid() && eInit == Energy()
      requires BestSoFar(bestDelta0, bestMove0, tried0, BagsOf(slotKuliah), emptySlots, eInit, objective)
      modifies this, rng
      ensures Valid()
      ensures BagsOf(slotKuliah) == old(BagsOf(slotKuliah))
      ensures slotAssignment == old(slotAssignment) && emptySlots == old(emptySlots)
      ensures coverage == old(coverage)
      ensures |tried| == |tried0| + NumSwaps(|classCodes|)
      ensures BestSoFar(bestDelta, bestMove, tried, BagsOf(slotKuliah), emptySlots, eInit, objective)
    {
      ghost var b0 := BagsOf(slotKuliah);
      ghost var i0 := slotAssignment;
      ghost var e0 := emptySlots;
      bestDelta, bestMove, tried := bestDelta0, bestMove0, tried0;
      var numSwaps := NumSwaps(|classCodes|);
      var t := 0;
      while t < numSwaps
        invariant 0 <= t <= numSwaps && |tried| == |tried0| + t
        invariant Valid()
        invariant BagsOf(slotKuliah) == b0 && slotAssignment == i0 && emptySlots == e0
        invariant coverage == old(coverage)
        invariant BestSoFar(bestDelta, bestMove, tried, b0, e0, eInit, objective)
      {
        var m, d := TrySwap(eInit);
        BestSoFarStep(bestDelta, bestMove, tried, b0, e0, eInit, objective, m, d);
        if d < bestDelta {
          bestDelta := d;
          bestMove := Some(m);
        }
        tried := tried + [d];
        t := t + 1;
      }
    }

    /**
     * The second loop of `next`: when some slot is empty, min(n·|empty|, 50)
     * trials of a move into an empty slot, each undone.
     */
    method MoveTrials(eInit: real, bestDelta0: real, bestMove0: Option<Move>, ghost tried0: seq<real>)
      returns (bestDelta: real, bestMove: Option<Move>, ghost tried: seq<real>)
      requires Valid() && eInit == Energy()
      requires BestSoFar(bestDelta0, bestMove0, tried0, BagsOf(slotKuliah), emptySlots, eInit, objective)
      modifies this, rng
      ensures Valid()
      ensures slotKuliah == old(slotKuliah)
      ensures slotAssignment == old(slotAssignment) && emptySlots == old(emptySlots)
      ensures coverage == old(coverage)
      ensures |tried| == |tried0| + if emptySlots == {} then 0 else NumMoves(|classCodes|, |emptySlots|)
      ensures BestSoFar(bestDelta, bestMove, tried, BagsOf(slotKuliah), emptySlots, eInit, objective)
    {
      ghost var sk0 := slotKuliah;
      ghost var b0 := BagsOf(slotKuliah);
      ghost var i0 := slotAssignment;
      ghost var e0 := emptySlots;
      bestDelta, bestMove, tried := bestDelta0, bestMove0, tried0;
      if |emptySlots| > 0 {
        var numMoves := NumMoves(|classCodes|, |emptySlots|);
        var t := 0;
        while t < numMoves
          invariant 0 <= t <= numMoves && |tried| == |tried0| + t
          invariant Valid()
          invariant slotKuliah == sk0 && slotAssignment == i0 && emptySlots == e0
          invariant coverage == old(coverage)
          invariant BestSoFar(bestDelta, bestMove, tried, b0, e0, eInit, objective)
        {
          var m, d := TryMove(eInit);
          BestSoFarStep(bestDelta, bestMove, tried, b0, e0, eInit, objective, m, d);
          if d < bestDelta {
            bestDelta := d;
            bestMove := Some(m);
          }
          tried := tried + [d];
          t := t + 1;
        }
      }
    }

    /**
     * `next`: run the swap trials and, when some slot is empty, the move
     * trials; then apply the trial that lowered the energy most, if any
     * did. `tried` records the energy change of every trial in order,
     * `best` the trial applied.
     */
    method Next() returns (delta: real, accepted: bool, ghost tried: seq<real>, ghost best: Option<Move>)
      requires Valid()
      modifies this, rng
      ensures Valid()
      ensures |tried| == NumSwaps(|classCodes|) +
        (if old(emptySlots) == {} then 0 else NumMoves(|classCodes|, |old(emptySlots)|))
      ensures accepted <==> exists i :: 0 <= i < |tried| && tried[i] < 0.0
      ensures accepted <==> best.Some?
      ensures coverage == old(coverage)
      ensures !accepted ==>
        && delta == 0.0
        && BagsOf(slotKuliah) == old(BagsOf(slotKuliah))
        && slotAssignment == old(slotAssignment)
        && emptySlots == old(emptySlots)
      ensures accepted ==>
        && delta < 0.0
        && (forall i :: 0 <= i < |tried| ==> delta <= tried[i])
        && (exists i :: 0 <= i < |tried| && tried[i] == delta)
        && Applicable(old(BagsOf(slotKuliah)), old(emptySlots), best.value)
        && IdxApplicable(old(slotAssignment), best.value)
        && BagsOf(slotKuliah) == Apply(old(BagsOf(slotKuliah)), old(emptySlots), best.value)
        && slotAssignment == ApplyIdx(old(slotAssignment), best.value)
        && emptySlots == ApplyEmpty(old(emptySlots), old(slotAssignment), best.value)
        && Energy() == old(Energy()) + delta
    {
      var eInit := Energy();
      BestSoFarStart(BagsOf(slotKuliah), emptySlots, eInit, objective);
      var bestDelta, bestMove;
      bestDelta, bestMove, tried := SwapTrials(eInit, 0.0, None, []);
      bestDelta, bestMove, tried := MoveTrials(eInit, bestDelta, bestMove, tried);
      best := bestMove;
      if bestMove.Some? {
        ApplyMove(bestMove.value);
        delta, accepted := bestDelta, true;
      } else {
        delta, accepted := 0.0, false;
      }
    }

    /** The end of `next`: carry out the chosen swap or move for good. */
    method ApplyMove(m: Move)
      requires Valid() && Applicable(BagsOf(slotKuliah), emptySlots, m)
      modifies this
      ensures Valid()
      ensures coverage == old(coverage)
      ensures IdxApplicable(old(slotAssignment), m)
      ensures BagsOf(slotKuliah) == Apply(old(BagsOf(slotKuliah)), old(emptySlots), m)
      ensures slotAssignment == ApplyIdx(old(slotAssignment), m)
      ensures emptySlots == ApplyEmpty(old(emptySlots), old(slotAssignment), m)
    {
      ghost var sk := slotKuliah;
      match m
      case SwapMove(k1, s1, k2, s2) =>
        SwapPair(k1, s1, k2, s2);
        SwapScheduleBags(sk, k1, s1, k2, s2);
      case MoveTo(from, kode, to) =>
        assert to in coverage;
        CoveredAlready(coverage, to);
        MoveIntoSlot(from, kode, to);
        MoveScheduleBags(sk, from, kode, to);
    }
  }
  /**
   * `SteepestAscentHillClimbing`: seeds the search state, then calls `next`
   * until no trial improves, recording the objective before the first call
   * and after every call.
   */
  class SteepestAscent {
    const state: HillClimbingState
    var iteration: nat
    var objectivePlt: seq<real>
    var localOptimaIteration: nat
    var jadwalInit: Schedule

    constructor (state: HillClimbingState)
      ensures this.state == state
      ensures iteration == 0 && objectivePlt == [] && localOptimaIteration == 0
    {
      this.state := state;
      iteration := 0;
      objectivePlt := [];
      localOptimaIteration := 0;
      jadwalInit := map[];
    }

    /** One call of `next`, seen through the energy: lower when accepted, unchanged when not. */
    method Step() returns (accepted: bool)
      requires state.Valid()
      modifies state, state.rng
      ensures state.Valid() && state.coverage == old(state.coverage)
      ensures accepted ==> state.Energy() < old(state.Energy())
      ensures !accepted ==> state.Energy() == old(state.Energy())
    {
      ghost var tried: seq<real>;
      ghost var best: Option<Move>;
      var delta;
      delta, accepted, tried, best := state.Next();
    }

    /**
     * The loop of `search`: at most `fuel` calls of `next`, stopping after
     * the first one that accepts nothing. `plt` is the objective before the
     * first call and after each call, `it` the number of calls and `loi`
     * the call that found the local optimum (0 while none has).
     */
    method Climb(fuel: nat) returns (plt: seq<real>, it: nat, loi: nat, converged: bool)
      requires state.Valid()
      modifies state, state.rng
      ensures state.Valid() && state.coverage == old(state.coverage)
      ensures |plt| == it + 1 && it <= fuel
      ensures plt[0] == old(state.Energy()) && plt[it] == state.Energy()
      ensures forall i :: 0 < i < it ==> plt[i] < plt[i - 1]
      ensures converged ==> it > 0 && loi == it && plt[it] == plt[it - 1]
      ensures !converged ==> it == fuel && loi == 0 && (it > 0 ==> plt[it] < plt[it - 1])
    {
      plt := [state.Energy()];
      it := 0;
      loi := 0;
      converged := false;
      while !converged && it < fuel
        invariant state.Valid() && state.coverage == old(state.coverage)
        invariant |plt| == it + 1 && it <= fuel
        invariant plt[0] == old(state.Energy()) && plt[it] == state.Energy()
        invariant forall i :: 0 < i < it ==> plt[i] < plt[i - 1]
        invariant converged ==> it > 0 && loi == it && plt[it] == plt[it - 1]
        invariant !converged ==> loi == 0 && (it > 0 ==> plt[it] < plt[it - 1])
      {
        var accepted := Step();
        plt := plt + [state.Energy()];
        it := it + 1;
        if !accepted {
          loi := it;
          converged := true;
        }
      }
    }

    /**
     * `search`, given the schedule the base class seeds and a bound `fuel`
     * on the number of `next` calls (the source loops until convergence).
     * The statistics are reset first, so none of the results depends on an
     * earlier search. Each accepted step strictly lowers the objective; the
     * last, rejected step leaves it where it was.
     */
    method Search(base: Schedule, fuel: nat) returns (converged: bool)
      requires forall c :: c in state.classCodes ==> c in base && |base[c]| > 0
      modifies this, state, state.rng
      ensures state.Valid()
      ensures jadwalInit == base
      ensures forall s :: s in state.emptySlots <==> s in state.coverage && s !in state.slotAssignment
      ensures SlotsOnGrid(base, state.rooms, state.startTimes) ==>
        forall s :: s in state.emptySlots <==> OnGrid(s, state.rooms, state.startTimes) && s !in state.slotAssignment
      ensures |objectivePlt| == iteration + 1
      ensures objectivePlt[0] == state.objective(BagsOf(base))
      ensures objectivePlt[iteration] == state.Energy()
      ensures forall i :: 0 < i < iteration ==> objectivePlt[i] < objectivePlt[i - 1]
      ensures converged ==>
        iteration > 0 && localOptimaIteration == iteration &&
        objectivePlt[iteration] == objectivePlt[iteration - 1]
      ensures !converged ==>
        iteration == fuel && localOptimaIteration == 0 &&
        (iteration > 0 ==> objectivePlt[iteration] < objectivePlt[iteration - 1])
    {
      iteration := 0;
      objectivePlt := [];
      localOptimaIteration := 0;

      state.SeedJadwal(base);
      jadwalInit := state.slotKuliah;
      var plt, it, loi;
      plt, it, loi, converged := Climb(fuel);
      iteration, objectivePlt, localOptimaIteration := it, plt, loi;
    }
  }
}
