/**
 * `AccountType`: the accounts a Drift instruction references, their
 * ordering (variant tag first, then the pubkey bytes) and their projection
 * into instruction account metadata.
 */
module Accounts {
  import opened Wrappers

  type Byte = x: int | 0 <= x < 256

  /** A 32-byte public key. */
  type Pubkey = s: seq<Byte> | |s| == 32 witness seq(32, i => 0)

  datatype AccountType =
    | Oracle(pubkey: Pubkey)
    | Spot(pubkey: Pubkey, writable: bool)
    | Perp(pubkey: Pubkey, writable: bool)

  datatype Ordering = Less | Equal | Greater

  function Flip(o: Ordering): Ordering {
    match o
    case Less => Greater
    case Equal => Equal
    case Greater => Less
  }

  /** `a` is at most `b` under a comparison that returned `o`. */
  predicate AtMost(o: Ordering) {
    o != Greater
  }

  function CmpNat(a: nat, b: nat): (r: Ordering) {
    if a < b then Less else if a == b then Equal else Greater
  }

  /** `bool`'s `Ord`: false before true. */
  function CmpBool(a: bool, b: bool): (r: Ordering) {
    if a == b then Equal else if !a then Less else Greater
  }

  // ---------------------------------------------------------------------------
  // Lexicographic comparison of byte strings (`Pubkey`'s order)
  // ---------------------------------------------------------------------------

  function CmpBytes(a: seq<Byte>, b: seq<Byte>): Ordering {
    if |a| == 0 && |b| == 0 then Equal
    else if |a| == 0 then Less
    else if |b| == 0 then Greater
    else if a[0] < b[0] then Less
    else if a[0] > b[0] then Greater
    else CmpBytes(a[1..], b[1..])
  }

  lemma {:induction false} CmpBytesFlip(a: seq<Byte>, b: seq<Byte>)
    ensures CmpBytes(b, a) == Flip(CmpBytes(a, b))
  {
    if |a| > 0 && |b| > 0 && a[0] == b[0] {
      CmpBytesFlip(a[1..], b[1..]);
    }
  }

  lemma {:induction false} CmpBytesEqual(a: seq<Byte>, b: seq<Byte>)
    ensures CmpBytes(a, b) == Equal <==> a == b
  {
    if |a| > 0 && |b| > 0 && a[0] == b[0] {
      CmpBytesEqual(a[1..], b[1..]);
      assert a == [a[0]] + a[1..] && b == [b[0]] + b[1..];
    }
  }

  lemma {:induction false} CmpBytesTrans(a: seq<Byte>, b: seq<Byte>, c: seq<Byte>)
    requires CmpBytes(a, b) == Less && CmpBytes(b, c) == Less
    ensures CmpBytes(a, c) == Less
  {
    if |a| > 0 && |b| > 0 && |c| > 0 && a[0] == b[0] == c[0] {
      CmpBytesTrans(a[1..], b[1..], c[1..]);
    }
  }

  // ---------------------------------------------------------------------------
  // Accessors
  // ---------------------------------------------------------------------------

  /** `AccountType::parts`: the pubkey and the writable flag, which an Oracle never has. */
  function Parts(t: AccountType): (r: (Pubkey, bool))
    ensures r.0 == t.pubkey
    ensures r.1 <==> !t.Oracle? && t.writable
  {
    match t
    case Oracle(pubkey) => (pubkey, false)
    case Spot(pubkey, writable) => (pubkey, writable)
    case Perp(pubkey, writable) => (pubkey, writable)
  }

  /** `AccountType::discriminant`: the variant tag, in declaration order. */
  function Discriminant(t: AccountType): (r: nat)
    ensures r < 3
    ensures r == 0 <==> t.Oracle?
    ensures r == 1 <==> t.Spot?
  {
    match t
    case Oracle(_) => 0
    case Spot(_, _) => 1
    case Perp(_, _) => 2
  }

  // ---------------------------------------------------------------------------
  // The two orders
  // ---------------------------------------------------------------------------

  /**
   * The hand-written `partial_cmp`: the variant tag decides, and within a
   * variant the pubkey does. It always answers, and it never looks at the
   * writable flag.
   */
  function PartialCmp(a: AccountType, b: AccountType): (r: Option<Ordering>)
    ensures r.Some?
    ensures r.value == Equal <==> Discriminant(a) == Discriminant(b) && a.pubkey == b.pubkey
  {
    CmpBytesEqual(a.pubkey, b.pubkey);
    var typeOrder := CmpNat(Discriminant(a), Discriminant(b));
    if typeOrder == Equal then Some(CmpBytes(a.pubkey, b.pubkey)) else Some(typeOrder)
  }

  /**
   * The derived `Ord` (`cmp`): the variant tag, then the pubkey, then (for
   * Spot and Perp) the writable flag. Equal only on equal values. `sort`
   * does not use it: it compares with `lt`, which the hand-written
   * `partial_cmp` answers.
   */
  function DerivedCmp(a: AccountType, b: AccountType): (r: Ordering)
    ensures r == Equal <==> a == b
  {
    CmpBytesEqual(a.pubkey, b.pubkey);
    var typeOrder := CmpNat(Discriminant(a), Discriminant(b));
    if typeOrder != Equal then typeOrder
    else
      var keyOrder := CmpBytes(a.pubkey, b.pubkey);
      if keyOrder != Equal then keyOrder
      else if a.Oracle? then Equal
      else CmpBool(a.writable, b.writable)
  }

  lemma PartialCmpFlip(a: AccountType, b: AccountType)
    ensures PartialCmp(b, a).value == Flip(PartialCmp(a, b).value)
  {
    CmpBytesFlip(a.pubkey, b.pubkey);
  }

  lemma PartialCmpTrans(a: AccountType, b: AccountType, c: AccountType)
    requires AtMost(PartialCmp(a, b).value) && AtMost(PartialCmp(b, c).value)
    ensures AtMost(PartialCmp(a, c).value)
  {
    CmpBytesEqual(a.pubkey, b.pubkey);
    CmpBytesEqual(b.pubkey, c.pubkey);
    if Discriminant(a) == Discriminant(b) == Discriminant(c)
      && CmpBytes(a.pubkey, b.pubkey) == Less && CmpBytes(b.pubkey, c.pubkey) == Less
    {
      CmpBytesTrans(a.pubkey, b.pubkey, c.pubkey);
    }
  }

  lemma DerivedCmpFlip(a: AccountType, b: AccountType)
    ensures DerivedCmp(b, a) == Flip(DerivedCmp(a, b))
  {
    CmpBytesFlip(a.pubkey, b.pubkey);
  }

  lemma DerivedCmpTrans(a: AccountType, b: AccountType, c: AccountType)
    requires AtMost(DerivedCmp(a, b)) && AtMost(DerivedCmp(b, c))
    ensures AtMost(DerivedCmp(a, c))
  {
    CmpBytesEqual(a.pubkey, b.pubkey);
    CmpBytesEqual(b.pubkey, c.pubkey);
    CmpBytesEqual(a.pubkey, c.pubkey);
    if Discriminant(a) == Discriminant(b) == Discriminant(c)
      && CmpBytes(a.pubkey, b.pubkey) == Less && CmpBytes(b.pubkey, c.pubkey) == Less
    {
      CmpBytesTrans(a.pubkey, b.pubkey, c.pubkey);
    }
  }

  /**
   * The two orders agree whenever `partial_cmp` tells two accounts apart;
   * when it calls them equal but they differ, they are the same Spot or Perp
   * account with different writable flags, and the derived order puts the
   * read-only one first.
   */
  lemma OrdersAgree(a: AccountType, b: AccountType)
    ensures PartialCmp(a, b).value != Equal ==> DerivedCmp(a, b) == PartialCmp(a, b).value
    ensures PartialCmp(a, b).value == Equal && a != b ==>
      && !a.Oracle? && Discriminant(a) == Discriminant(b) && a.pubkey == b.pubkey
      && a.writable != b.writable
      && (DerivedCmp(a, b) == Less <==> !a.writable)
  {
  }

  // ---------------------------------------------------------------------------
  // `accounts.sort()`: a stable sort that compares with `partial_cmp`
  // ---------------------------------------------------------------------------

  /** `partial_cmp` calls `a` and `b` equal: the same variant and the same pubkey. */
  predicate Tied(a: AccountType, b: AccountType) {
    PartialCmp(a, b).value == Equal
  }

  /** Ascending under `partial_cmp`, the order `sort` compares with. */
  ghost predicate Sorted(s: seq<AccountType>) {
    forall i, j :: 0 <= i < j < |s| ==> AtMost(PartialCmp(s[i], s[j]).value)
  }

  /** The elements of `s` that `partial_cmp` calls equal to `t`, in their order in `s`. */
  function TiedWith(s: seq<AccountType>, t: AccountType): seq<AccountType> {
    if |s| == 0 then []
    else (if Tied(s[0], t) then [s[0]] else []) + TiedWith(s[1..], t)
  }

  lemma TiedWithCons(h: AccountType, s: seq<AccountType>, t: AccountType)
    ensures TiedWith([h] + s, t) == (if Tied(h, t) then [h] else []) + TiedWith(s, t)
  {
    assert ([h] + s)[0] == h && ([h] + s)[1..] == s;
  }

  /**
   * Puts `x` in front of the first element it is at most. Every element
   * `x` ties with stays behind it, so `x` keeps its place before them.
   */
  function Insert(x: AccountType, s: seq<AccountType>): (r: seq<AccountType>)
    requires Sorted(s)
    ensures Sorted(r) && multiset(r) == multiset(s) + multiset{x}
    ensures forall t :: TiedWith(r, t) == (if Tied(x, t) then [x] else []) + TiedWith(s, t)
  {
    if |s| == 0 then
      ConsTies(x, s);
      assert [x] + s == [x];
      [x]
    else if AtMost(PartialCmp(x, s[0]).value) then
      InsertFrontSorted(x, s);
      ConsTies(x, s);
      [x] + s
    else
      PartialCmpFlip(x, s[0]);
      var rest := Insert(x, s[1..]);
      assert s == [s[0]] + s[1..];
      HeadBelowAll(s[0], rest, s[1..], x);
      SkipTies(x, s[0], s[1..], rest);
      [s[0]] + rest
  }

  lemma ConsTies(x: AccountType, s: seq<AccountType>)
    ensures forall t :: TiedWith([x] + s, t) == (if Tied(x, t) then [x] else []) + TiedWith(s, t)
  {
    forall t { TiedWithCons(x, s, t); }
  }

  lemma SkipTies(x: AccountType, h: AccountType, s: seq<AccountType>, rest: seq<AccountType>)
    requires !Tied(x, h)
    requires forall t :: TiedWith(rest, t) == (if Tied(x, t) then [x] else []) + TiedWith(s, t)
    ensures forall t :: TiedWith([h] + rest, t) == (if Tied(x, t) then [x] else []) + TiedWith([h] + s, t)
  {
    forall t ensures TiedWith([h] + rest, t) == (if Tied(x, t) then [x] else []) + TiedWith([h] + s, t) {
      TiedWithSkip(x, h, s, rest, t);
    }
  }

  /** `partial_cmp`'s ties are an equivalence: two accounts tied with a third are tied with each other. */
  lemma TiedTrans(a: AccountType, b: AccountType, t: AccountType)
    requires Tied(a, t) && Tied(b, t)
    ensures Tied(a, b)
  {
  }

  /** Passing over `h`, which `x` does not tie with, leaves `x` ahead of all its ties. */
  lemma TiedWithSkip(x: AccountType, h: AccountType, s: seq<AccountType>, rest: seq<AccountType>, t: AccountType)
    requires !Tied(x, h)
    requires TiedWith(rest, t) == (if Tied(x, t) then [x] else []) + TiedWith(s, t)
    ensures TiedWith([h] + rest, t) == (if Tied(x, t) then [x] else []) + TiedWith([h] + s, t)
  {
    TiedWithCons(h, rest, t);
    TiedWithCons(h, s, t);
    if Tied(x, t) {
      assert !Tied(h, t) by {
        if Tied(h, t) { TiedTrans(x, h, t); }
      }
      assert TiedWith([h] + rest, t) == TiedWith(rest, t);
      assert TiedWith([h] + s, t) == TiedWith(s, t);
    } else {
      assert TiedWith(rest, t) == TiedWith(s, t);
    }
  }

  lemma InsertFrontSorted(x: AccountType, s: seq<AccountType>)
    requires Sorted(s) && |s| > 0 && AtMost(PartialCmp(x, s[0]).value)
    ensures Sorted([x] + s)
  {
    forall j | 0 < j < |s| ensures AtMost(PartialCmp(x, s[j]).value) {
      PartialCmpTrans(x, s[0], s[j]);
    }
  }

  /** `h` may be put in front of `r`, a sorted rearrangement of `t` plus `x`, when it is at most `x` and every element of `t`. */
  lemma HeadBelowAll(h: AccountType, r: seq<AccountType>, t: seq<AccountType>, x: AccountType)
    requires Sorted(r) && multiset(r) == multiset(t) + multiset{x}
    requires AtMost(PartialCmp(h, x).value)
    requires forall j :: 0 <= j < |t| ==> AtMost(PartialCmp(h, t[j]).value)
    ensures Sorted([h] + r)
  {
    forall j | 0 <= j < |r| ensures AtMost(PartialCmp(h, r[j]).value) {
      assert r[j] in multiset(r);
      if r[j] != x {
        assert r[j] in multiset(t);
        var k :| 0 <= k < |t| && t[k] == r[j];
      }
    }
  }

  /**
   * `accounts.sort()`: the accounts in ascending `partial_cmp` order, each
   * group of tied accounts in its input order.
   */
  function SortAccounts(s: seq<AccountType>): (r: seq<AccountType>)
    ensures Sorted(r) && multiset(r) == multiset(s)
    ensures forall t :: TiedWith(r, t) == TiedWith(s, t)
  {
    if |s| == 0 then []
    else
      assert s == [s[0]] + s[1..];
      assert forall t :: TiedWith(s, t) == (if Tied(s[0], t) then [s[0]] else []) + TiedWith(s[1..], t);
      Insert(s[0], SortAccounts(s[1..]))
  }

  lemma SortedTail(s: seq<AccountType>)
    requires Sorted(s) && |s| > 0
    ensures Sorted(s[1..])
  {
  }

  lemma {:induction false} TiedWithMember(s: seq<AccountType>, t: AccountType)
    requires TiedWith(s, t) != []
    ensures exists k :: 0 <= k < |s| && Tied(s[k], t)
  {
    if !Tied(s[0], t) {
      TiedWithMember(s[1..], t);
      var k :| 0 <= k < |s| - 1 && Tied(s[1..][k], t);
      assert Tied(s[k + 1], t);
    }
  }

  lemma TiedWithSelf(s: seq<AccountType>)
    requires |s| > 0
    ensures TiedWith(s, s[0]) != []
  {
    assert Tied(s[0], s[0]);
  }

  /** The head of a sorted list is at most every account it has a tie for. */
  lemma HeadAtMostTied(s: seq<AccountType>, t: AccountType)
    requires Sorted(s) && TiedWith(s, t) != []
    ensures AtMost(PartialCmp(s[0], t).value)
  {
    TiedWithMember(s, t);
    var k :| 0 <= k < |s| && Tied(s[k], t);
    assert PartialCmp(s[0], t) == PartialCmp(s[0], s[k]);
  }

  /**
   * There is only one stable sorted arrangement: two lists sorted by
   * `partial_cmp` that hold the same tied accounts in the same order are
   * equal.
   */
  lemma {:induction false} StableSortedUnique(a: seq<AccountType>, b: seq<AccountType>)
    requires Sorted(a) && Sorted(b)
    requires forall t :: TiedWith(a, t) == TiedWith(b, t)
    ensures a == b
  {
    if |a| == 0 || |b| == 0 {
      if |a| > 0 {
        TiedWithSelf(a);
      } else if |b| > 0 {
        TiedWithSelf(b);
      }
    } else {
      var x, y := a[0], b[0];
      assert TiedWith(b, y) != [];
      assert TiedWith(a, x) != [];
      HeadAtMostTied(a, y);
      HeadAtMostTied(b, x);
      PartialCmpFlip(x, y);
      assert TiedWith(a, x)[0] == x && TiedWith(b, x)[0] == y;
      forall t ensures TiedWith(a[1..], t) == TiedWith(b[1..], t) {
        var p := if Tied(x, t) then [x] else [];
        assert TiedWith(a, t) == p + TiedWith(a[1..], t);
        assert TiedWith(b, t) == p + TiedWith(b[1..], t);
        assert TiedWith(a[1..], t) == (p + TiedWith(a[1..], t))[|p|..];
      }
      SortedTail(a);
      SortedTail(b);
      StableSortedUnique(a[1..], b[1..]);
      assert a == [x] + a[1..] && b == [x] + b[1..];
    }
  }

  /** Every stable sort by `partial_cmp`, such as the standard library's merge sort, gives the output of `SortAccounts`. */
  lemma SortAccountsUnique(s: seq<AccountType>, r: seq<AccountType>)
    requires Sorted(r) && forall t :: TiedWith(r, t) == TiedWith(s, t)
    ensures r == SortAccounts(s)
  {
    StableSortedUnique(r, SortAccounts(s));
  }

  /**
   * In a sorted list every Oracle comes before every Spot, every Spot before
   * every Perp, and within a variant the pubkeys ascend.
   */
  lemma SortedLayout(s: seq<AccountType>, i: nat, j: nat)
    requires Sorted(s) && i < j < |s|
    ensures Discriminant(s[i]) <= Discriminant(s[j])
    ensures Discriminant(s[i]) == Discriminant(s[j]) ==> AtMost(CmpBytes(s[i].pubkey, s[j].pubkey))
    ensures s[j].Oracle? ==> s[i].Oracle?
    ensures s[i].Perp? ==> s[j].Perp?
  {
    assert AtMost(PartialCmp(s[i], s[j]).value);
  }

  /** A Spot or Perp account listed twice, writable first, stays in that order: the sort does not look at `writable`. */
  lemma SortKeepsTiedOrder(k: Pubkey)
    ensures SortAccounts([Spot(k, true), Spot(k, false)]) == [Spot(k, true), Spot(k, false)]
    ensures SortAccounts([Perp(k, true), Perp(k, false)]) == [Perp(k, true), Perp(k, false)]
  {
    assert [Spot(k, true), Spot(k, false)][1..] == [Spot(k, false)];
    assert [Perp(k, true), Perp(k, false)][1..] == [Perp(k, false)];
  }

  // ---------------------------------------------------------------------------
  // Sorting by the derived `Ord`
  // ---------------------------------------------------------------------------

  ghost predicate OrdSorted(s: seq<AccountType>) {
    forall i, j :: 0 <= i < j < |s| ==> AtMost(DerivedCmp(s[i], s[j]))
  }

  /** Puts `x` in front of the first element it is at most in the derived order. */
  function OrdInsert(x: AccountType, s: seq<AccountType>): (r: seq<AccountType>)
    requires OrdSorted(s)
    ensures OrdSorted(r) && multiset(r) == multiset(s) + multiset{x}
  {
    if |s| == 0 then [x]
    else if AtMost(DerivedCmp(x, s[0])) then
      OrdInsertFrontSorted(x, s);
      [x] + s
    else
      DerivedCmpFlip(x, s[0]);
      var rest := OrdInsert(x, s[1..]);
      assert s == [s[0]] + s[1..];
      OrdHeadBelowAll(s[0], rest, s[1..], x);
      [s[0]] + rest
  }

  lemma OrdInsertFrontSorted(x: AccountType, s: seq<AccountType>)
    requires OrdSorted(s) && |s| > 0 && AtMost(DerivedCmp(x, s[0]))
    ensures OrdSorted([x] + s)
  {
    forall j | 0 < j < |s| ensures AtMost(DerivedCmp(x, s[j])) {
      DerivedCmpTrans(x, s[0], s[j]);
    }
  }

  lemma OrdHeadBelowAll(h: AccountType, r: seq<AccountType>, t: seq<AccountType>, x: AccountType)
    requires OrdSorted(r) && multiset(r) == multiset(t) + multiset{x}
    requires AtMost(DerivedCmp(h, x))
    requires forall j :: 0 <= j < |t| ==> AtMost(DerivedCmp(h, t[j]))
    ensures OrdSorted([h] + r)
  {
    forall j | 0 <= j < |r| ensures AtMost(DerivedCmp(h, r[j])) {
      assert r[j] in multiset(r);
      if r[j] != x {
        assert r[j] in multiset(t);
        var k :| 0 <= k < |t| && t[k] == r[j];
      }
    }
  }

  /** The accounts in ascending derived order, as a sort by `Ord::cmp` would give them. */
  function SortByOrd(s: seq<AccountType>): (r: seq<AccountType>)
    ensures OrdSorted(r) && multiset(r) == multiset(s)
  {
    if |s| == 0 then []
    else
      assert s == [s[0]] + s[1..];
      OrdInsert(s[0], SortByOrd(s[1..]))
  }

  /**
   * The derived order has no ties between distinct values, so a collection
   * has only one arrangement sorted by it.
   */
  lemma {:induction false} OrdSortedUnique(a: seq<AccountType>, b: seq<AccountType>)
    requires OrdSorted(a) && OrdSorted(b) && multiset(a) == multiset(b)
    ensures a == b
  {
    assert |a| == |multiset(a)| == |multiset(b)| == |b|;
    if |a| > 0 {
      OrdHeadIsLeast(a, b[0]);
      OrdHeadIsLeast(b, a[0]);
      DerivedCmpFlip(a[0], b[0]);
      assert a[0] == b[0];
      OrdSortedTail(a);
      OrdSortedTail(b);
      OrdSortedUnique(a[1..], b[1..]);
    }
  }

  /** The head of a sorted list is at most every element of it. */
  lemma OrdHeadIsLeast(s: seq<AccountType>, x: AccountType)
    requires OrdSorted(s) && x in multiset(s)
    ensures AtMost(DerivedCmp(s[0], x))
  {
    var k :| 0 <= k < |s| && s[k] == x;
    if k > 0 {
      assert AtMost(DerivedCmp(s[0], s[k]));
    }
  }

  lemma OrdSortedTail(s: seq<AccountType>)
    requires OrdSorted(s) && |s| > 0
    ensures OrdSorted(s[1..]) && multiset(s[1..]) == multiset(s) - multiset{s[0]}
  {
    assert s == [s[0]] + s[1..];
  }

  /** The two sorts part only on ties: they differ on the same account listed writable first, and agree on a list without ties. */
  lemma SortByOrdBreaksTies(k: Pubkey)
    ensures SortByOrd([Spot(k, true), Spot(k, false)]) == [Spot(k, false), Spot(k, true)]
  {
    var s := [Spot(k, true), Spot(k, false)];
    assert s[1..] == [Spot(k, false)];
    assert DerivedCmp(Spot(k, true), Spot(k, false)) == Greater by {
      CmpBytesEqual(k, k);
    }
    assert OrdInsert(Spot(k, true), []) == [Spot(k, true)];
  }

  // ---------------------------------------------------------------------------
  // Where the two sorts agree
  // ---------------------------------------------------------------------------

  /** No two accounts share a variant and a pubkey. */
  ghost predicate NoTies(s: seq<AccountType>) {
    forall i, j :: 0 <= i < j < |s| ==> !Tied(s[i], s[j])
  }

  lemma {:induction false} NoneTied(s: seq<AccountType>, t: AccountType)
    requires forall k :: 0 <= k < |s| ==> !Tied(s[k], t)
    ensures TiedWith(s, t) == []
  {
    if |s| > 0 {
      NoneTied(s[1..], t);
    }
  }

  lemma {:induction false} AtMostOneTie(s: seq<AccountType>, t: AccountType)
    requires NoTies(s)
    ensures |TiedWith(s, t)| <= 1
  {
    if |s| > 0 {
      assert NoTies(s[1..]) by {
        forall i, j | 0 <= i < j < |s| - 1 ensures !Tied(s[1..][i], s[1..][j]) {
          assert !Tied(s[i + 1], s[j + 1]);
        }
      }
      AtMostOneTie(s[1..], t);
      if Tied(s[0], t) {
        forall k | 0 <= k < |s| - 1 ensures !Tied(s[1..][k], t) {
          assert !Tied(s[0], s[k + 1]);
        }
        NoneTied(s[1..], t);
      }
    }
  }

  lemma {:induction false} TiedWithHas(s: seq<AccountType>, j: nat, t: AccountType)
    requires j < |s| && Tied(s[j], t)
    ensures |TiedWith(s, t)| >= 1
  {
    if j > 0 {
      TiedWithHas(s[1..], j - 1, t);
    }
  }

  lemma {:induction false} TiedWithTwo(s: seq<AccountType>, i: nat, j: nat, t: AccountType)
    requires i < j < |s| && Tied(s[i], t) && Tied(s[j], t)
    ensures |TiedWith(s, t)| >= 2
  {
    if i > 0 {
      TiedWithTwo(s[1..], i - 1, j - 1, t);
    } else {
      TiedWithHas(s[1..], j - 1, t);
    }
  }

  /** Without ties the stable `partial_cmp` sort and the derived-order sort give the same output. */
  lemma SortAccountsWithoutTies(s: seq<AccountType>)
    requires NoTies(s)
    ensures SortAccounts(s) == SortByOrd(s)
  {
    var r := SortAccounts(s);
    forall i, j | 0 <= i < j < |r| ensures AtMost(DerivedCmp(r[i], r[j])) {
      if Tied(r[i], r[j]) {
        TiedWithTwo(r, i, j, r[i]);
        AtMostOneTie(s, r[i]);
        assert false;
      }
      OrdersAgree(r[i], r[j]);
    }
    OrdSortedUnique(r, SortByOrd(s));
  }

  /** A pubkey of 32 equal bytes, as the unit test builds them. */
  function Key(b: Byte): Pubkey {
    seq(32, i => b)
  }

  lemma KeyOrder(a: Byte, b: Byte)
    requires a < b
    ensures CmpBytes(Key(a), Key(b)) == Less
  {
    assert Key(a)[0] == a && Key(b)[0] == b;
  }

  function TestInput(): seq<AccountType> {
    [Perp(Key(4), false), Oracle(Key(2)), Oracle(Key(1)), Spot(Key(3), true)]
  }

  function TestExpected(): seq<AccountType> {
    [Oracle(Key(1)), Oracle(Key(2)), Spot(Key(3), true), Perp(Key(4), false)]
  }

  lemma TestExpectedSorted()
    ensures OrdSorted(TestExpected())
  {
    var e := TestExpected();
    KeyOrder(1, 2);
    assert DerivedCmp(e[0], e[1]) == Less;
    forall i, j | 0 <= i < j < |e| && !(i == 0 && j == 1) ensures AtMost(DerivedCmp(e[i], e[j])) {
      assert Discriminant(e[i]) < Discriminant(e[j]);
    }
  }

  lemma TestVectorPermutation()
    ensures multiset(TestInput()) == multiset(TestExpected())
  {
    var input, expected := TestInput(), TestExpected();
    assert input == [expected[3], expected[1], expected[0], expected[2]];
  }

  lemma TestInputNoTies()
    ensures NoTies(TestInput())
  {
    var s := TestInput();
    assert Key(2)[0] != Key(1)[0];
    assert !Tied(s[1], s[2]);
  }

  /** Sorting the unit test's four accounts gives Oracle(1s), Oracle(2s), Spot(3s), Perp(4s). */
  lemma SortTestVector()
    ensures SortAccounts(TestInput()) == TestExpected()
  {
    TestExpectedSorted();
    TestVectorPermutation();
    OrdSortedUnique(SortByOrd(TestInput()), TestExpected());
    TestInputNoTies();
    SortAccountsWithoutTies(TestInput());
  }

  // ---------------------------------------------------------------------------
  // `From<AccountType> for AccountMeta`
  // ---------------------------------------------------------------------------

  datatype AccountMeta = AccountMeta(pubkey: Pubkey, is_signer: bool, is_writable: bool)

  /** The instruction metadata of an account: never a signer; an Oracle is read-only. */
  function ToAccountMeta(t: AccountType): (m: AccountMeta)
    ensures m.pubkey == t.pubkey && !m.is_signer
    ensures m.is_writable <==> (t.Spot? || t.Perp?) && t.writable
  {
    var (pubkey, is_writable) := Parts(t);
    AccountMeta(pubkey, false, is_writable)
  }

  /** Rebuilds an account of the variant with tag `tag` from its metadata. */
  function FromMeta(tag: nat, m: AccountMeta): AccountType {
    if tag == 0 then Oracle(m.pubkey)
    else if tag == 1 then Spot(m.pubkey, m.is_writable)
    else Perp(m.pubkey, m.is_writable)
  }

  /** The projection forgets only the variant tag: with the tag the account is recovered exactly. */
  lemma AccountMetaRoundTrip(t: AccountType)
    ensures FromMeta(Discriminant(t), ToAccountMeta(t)) == t
  {
  }
}
