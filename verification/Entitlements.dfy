/** Keep-oldest reconciliation: which accounts lose monitoring when a plan's caps shrink. */
module Entitlements {
  import opened Optional
  import opened Sorting
  import opened Strings

  datatype Account = Account(id: string, brandId: Option<string>, createdAt: int)
  datatype Brand = Brand(id: string, createdAt: int)
  /** None is an unlimited dimension. */
  datatype Caps = Caps(maxBrands: Option<int>, maxConnectedAccounts: Option<int>)

  /** Oldest first, by creation time and then id. */
  predicate OlderKey(c: int, id: string, c': int, id': string) { c < c' || (c == c' && StrLe(id, id')) }

  predicate AccountLe(a: Account, b: Account) { OlderKey(a.createdAt, a.id, b.createdAt, b.id) }

  predicate BrandLe(a: Brand, b: Brand) { OlderKey(a.createdAt, a.id, b.createdAt, b.id) }

  lemma AgeOrders()
    ensures TotalPreorder(AccountLe) && TotalOrder(BrandLe)
  {
    StrLeIsTotalOrder();
  }

  function IdsOf(accounts: seq<Account>): seq<string> {
    seq(|accounts|, i requires 0 <= i < |accounts| => accounts[i].id)
  }

  ghost predicate DistinctIds(accounts: seq<Account>) { Distinct(IdsOf(accounts)) }

  lemma DistinctIdsFacts(accounts: seq<Account>)
    requires DistinctIds(accounts)
    ensures Distinct(accounts) && Separates(AccountLe, accounts)
    ensures forall a, b :: a in accounts && b in accounts && a.id == b.id ==> a == b
  {
    StrLeIsTotalOrder();
    forall i, j | 0 <= i < j < |accounts| ensures accounts[i] != accounts[j] {
      assert IdsOf(accounts)[i] != IdsOf(accounts)[j];
    }
    forall a, b | a in accounts && b in accounts && a.id == b.id ensures a == b {
      var i :| 0 <= i < |accounts| && accounts[i] == a;
      var j :| 0 <= j < |accounts| && accounts[j] == b;
      assert IdsOf(accounts)[i] == IdsOf(accounts)[j];
    }
  }

  // ---------------------------------------------------------------- the selection

  /** slice(0, max(0, cap)) and slice(max(0, cap)). */
  function Cut(cap: int, n: nat): (k: nat)
    ensures k <= n
  {
    if cap < 0 then 0 else if cap <= n then cap else n
  }

  function KeptBrands(brands: seq<Brand>, cap: int): set<string> {
    var oldest := Sort(BrandLe, brands);
    set b | b in oldest[..Cut(cap, |brands|)] :: b.id
  }

  predicate BrandAllowed(a: Account, brands: seq<Brand>, caps: Caps) {
    caps.maxBrands.Some? && a.brandId.Some? ==> a.brandId.value in KeptBrands(brands, caps.maxBrands.value)
  }

  function Survivors(accounts: seq<Account>, brands: seq<Brand>, caps: Caps): seq<Account> {
    Filter((a: Account) => BrandAllowed(a, brands, caps), accounts)
  }

  function Losers(accounts: seq<Account>, brands: seq<Brand>, caps: Caps): seq<Account> {
    Filter((a: Account) => !BrandAllowed(a, brands, caps), accounts)
  }

  /** The survivors beyond the account cap, oldest of them first. */
  function Excess(survivors: seq<Account>, caps: Caps): seq<Account> {
    if caps.maxConnectedAccounts.None? then []
    else
      Sort(AccountLe, survivors)[Cut(caps.maxConnectedAccounts.value, |survivors|)..]
  }

  /** Adding to an insertion-ordered set. */
  function Add(ids: seq<string>, id: string): seq<string> { if id in ids then ids else ids + [id] }

  function AddAll(ids: seq<string>, accounts: seq<Account>): (r: seq<string>)
    ensures forall id :: id in r <==> id in ids || exists a :: a in accounts && a.id == id
  {
    if accounts == [] then ids
    else
      var n := |accounts| - 1;
      assert accounts == accounts[..n] + [accounts[n]];
      Add(AddAll(ids, accounts[..n]), accounts[n].id)
  }

  function Disabled(accounts: seq<Account>, brands: seq<Brand>, caps: Caps): seq<string> {
    AddAll(AddAll([], Losers(accounts, brands, caps)), Excess(Survivors(accounts, brands, caps), caps))
  }

  method SelectMonitoringToDisable(accounts: seq<Account>, brands: seq<Brand>, caps: Caps) returns (disable: seq<string>)
    ensures disable == Disabled(accounts, brands, caps)
  {
    hide Sort, Survivors, Losers, AddAll, KeptBrands;
    NoAccounts(brands, caps);
    disable := [];
    var survivors := accounts;
    if caps.maxBrands.Some? {
      var keep := KeptBrands(brands, caps.maxBrands.value);
      survivors := [];
      for i := 0 to |accounts|
        invariant survivors == Survivors(accounts[..i], brands, caps)
        invariant disable == AddAll([], Losers(accounts[..i], brands, caps))
      {
        var a := accounts[i];
        assert accounts[..i + 1] == accounts[..i] + [a];
        OneMoreAccount(accounts[..i], a, brands, caps);
        if a.brandId.Some? && a.brandId.value !in keep {
          disable := Add(disable, a.id);
        } else {
          survivors := survivors + [a];
        }
      }
      assert accounts[..|accounts|] == accounts;
    } else {
      UncappedBrands(accounts, brands, caps);
    }
    AddAllNothing(disable);
    if caps.maxConnectedAccounts.Some? {
      var ordered := Sort(AccountLe, survivors);
      var excess := ordered[Cut(caps.maxConnectedAccounts.value, |ordered|)..];
      ghost var before := disable;
      for i := 0 to |excess|
        invariant disable == AddAll(before, excess[..i])
      {
        assert excess[..i + 1] == excess[..i] + [excess[i]];
        AddAllOneMore(before, excess[..i], excess[i]);
        disable := Add(disable, excess[i].id);
      }
      assert excess[..|excess|] == excess;
    }
  }

  lemma NoAccounts(brands: seq<Brand>, caps: Caps)
    ensures Survivors([], brands, caps) == [] && Losers([], brands, caps) == [] && AddAll([], []) == []
  {
  }

  lemma AddAllNothing(ids: seq<string>)
    ensures AddAll(ids, []) == ids
  {
  }

  lemma AddAllOneMore(ids: seq<string>, accounts: seq<Account>, a: Account)
    ensures AddAll(ids, accounts + [a]) == Add(AddAll(ids, accounts), a.id)
  {
    assert (accounts + [a])[..|accounts|] == accounts;
  }

  lemma OneMoreAccount(accounts: seq<Account>, a: Account, brands: seq<Brand>, caps: Caps)
    ensures Survivors(accounts + [a], brands, caps) == if BrandAllowed(a, brands, caps) then Survivors(accounts, brands, caps) + [a] else Survivors(accounts, brands, caps)
    ensures Losers(accounts + [a], brands, caps) == if BrandAllowed(a, brands, caps) then Losers(accounts, brands, caps) else Losers(accounts, brands, caps) + [a]
    ensures AddAll([], Losers(accounts, brands, caps) + [a]) == Add(AddAll([], Losers(accounts, brands, caps)), a.id)
  {
    hide BrandAllowed;
    assert (accounts + [a])[..|accounts|] == accounts;
    var was := Losers(accounts, brands, caps);
    assert (was + [a])[..|was|] == was;
  }

  lemma {:induction false} UncappedBrands(accounts: seq<Account>, brands: seq<Brand>, caps: Caps)
    requires caps.maxBrands.None?
    ensures Survivors(accounts, brands, caps) == accounts && Losers(accounts, brands, caps) == []
  {
    if accounts != [] {
      var n := |accounts| - 1;
      UncappedBrands(accounts[..n], brands, caps);
      assert accounts == accounts[..n] + [accounts[n]];
    }
  }

  // ---------------------------------------------------------------- what the selection promises

  function Kept(accounts: seq<Account>, brands: seq<Brand>, caps: Caps): seq<Account> {
    var disabled := Disabled(accounts, brands, caps);
    Filter((a: Account) => a.id !in disabled, accounts)
  }

  /** At most `cap` brands are kept, and each kept id belongs to a brand at least as old as every
      brand that is not kept. */
  lemma KeptBrandsAreOldest(brands: seq<Brand>, cap: int, id: string) returns (b: Brand)
    requires id in KeptBrands(brands, cap)
    ensures |KeptBrands(brands, cap)| <= (if cap < 0 then 0 else cap)
    ensures b in brands && b.id == id
    ensures forall c :: c in brands && c.id !in KeptBrands(brands, cap) ==>
      b.createdAt < c.createdAt || (b.createdAt == c.createdAt && b.id != c.id && StrLe(b.id, c.id))
  {
    hide StrLe, Sort, TotalPreorder;
    AgeOrders();
    SortSorts(BrandLe, brands);
    SortPermutes(BrandLe, brands);
    var s, k := Sort(BrandLe, brands), Cut(cap, |brands|);
    BrandCount(s[..k]);
    b :| b in s[..k] && b.id == id;
    var i :| 0 <= i < k && s[i] == b;
    forall j | 0 <= j < k ensures s[j].id in KeptBrands(brands, cap) { assert s[..k][j] == s[j]; }
    forall c | c in brands && c.id !in KeptBrands(brands, cap) ensures BrandLe(b, c) && b.id != c.id {
      var j :| 0 <= j < |s| && s[j] == c;
    }
  }

  lemma {:induction false} BrandCount(s: seq<Brand>)
    ensures |set b | b in s :: b.id| <= |s|
  {
    var ids := set b | b in s :: b.id;
    if s == [] {
      assert ids == {};
    } else {
      BrandCount(s[1..]);
      assert s == [s[0]] + s[1..];
      assert ids == (set b | b in s[1..] :: b.id) + {s[0].id};
    }
  }

  /** Survivors in age order, cut at the account cap. */
  function AgeOrdered(accounts: seq<Account>, brands: seq<Brand>, caps: Caps): seq<Account> {
    Sort(AccountLe, Survivors(accounts, brands, caps))
  }

  function AccountCut(accounts: seq<Account>, brands: seq<Brand>, caps: Caps): (k: nat)
    ensures k <= |Survivors(accounts, brands, caps)|
  {
    var n := |Survivors(accounts, brands, caps)|;
    if caps.maxConnectedAccounts.None? then n else Cut(caps.maxConnectedAccounts.value, n)
  }

  /** An account keeps monitoring exactly when it stands in front of the cut. */
  lemma KeptIffInFront(accounts: seq<Account>, brands: seq<Brand>, caps: Caps)
    requires DistinctIds(accounts)
    ensures forall a :: a in Kept(accounts, brands, caps) <==>
      a in AgeOrdered(accounts, brands, caps)[..AccountCut(accounts, brands, caps)]
  {
    AgeOrderedFacts(accounts, brands, caps);
    DistinctIdsFacts(accounts);
    var s, k := AgeOrdered(accounts, brands, caps), AccountCut(accounts, brands, caps);
    forall a ensures a in Kept(accounts, brands, caps) <==> a in s[..k] {
      if a in accounts { DisabledIff(accounts, brands, caps, a); }
      assert a in s[..k] ==> a in s;
      if a in s { FrontOrBack(s, k, a); }
    }
  }

  lemma AgeOrderedFacts(accounts: seq<Account>, brands: seq<Brand>, caps: Caps)
    requires DistinctIds(accounts)
    ensures Distinct(AgeOrdered(accounts, brands, caps))
    ensures forall a :: a in AgeOrdered(accounts, brands, caps) <==> a in accounts && BrandAllowed(a, brands, caps)
    ensures Excess(Survivors(accounts, brands, caps), caps) == AgeOrdered(accounts, brands, caps)[AccountCut(accounts, brands, caps)..]
  {
    DistinctIdsFacts(accounts);
    var sv := Survivors(accounts, brands, caps);
    FilterDistinct((a: Account) => BrandAllowed(a, brands, caps), accounts);
    SortPermutes(AccountLe, sv);
    DistinctFromMultiset(sv, AgeOrdered(accounts, brands, caps));
  }

  lemma DisabledIff(accounts: seq<Account>, brands: seq<Brand>, caps: Caps, a: Account)
    requires DistinctIds(accounts) && a in accounts
    ensures a.id in Disabled(accounts, brands, caps) <==>
      !BrandAllowed(a, brands, caps) || a in Excess(Survivors(accounts, brands, caps), caps)
  {
    DistinctIdsFacts(accounts);
    AgeOrderedFacts(accounts, brands, caps);
    var excess := Excess(Survivors(accounts, brands, caps), caps);
    forall b | b in excess ensures b in accounts { assert b in AgeOrdered(accounts, brands, caps); }
    assert a in Losers(accounts, brands, caps) <==> !BrandAllowed(a, brands, caps);
  }

  lemma FrontOrBack<T>(s: seq<T>, k: nat, x: T)
    requires Distinct(s) && k <= |s| && x in s
    ensures x in s[..k] <==> x !in s[k..]
  {
    var i :| 0 <= i < |s| && s[i] == x;
    if i < k { assert s[..k][i] == x; } else { assert s[k..][i - k] == x; }
  }

  /** Both caps hold afterwards, and no more is disabled than they force: exactly the excess over
      the account cap goes, and only accounts younger than everything kept. */
  lemma KeepsOldestWithinCaps(accounts: seq<Account>, brands: seq<Brand>, caps: Caps)
    requires DistinctIds(accounts)
    ensures var kept, sv := Kept(accounts, brands, caps), Survivors(accounts, brands, caps);
      && (forall a :: a in kept ==> a in accounts && BrandAllowed(a, brands, caps))
      && (caps.maxConnectedAccounts == None ==> |kept| == |sv|)
      && (forall cap :: caps.maxConnectedAccounts == Some(cap) ==> |kept| == if cap < 0 then 0 else if cap < |sv| then cap else |sv|)
      && |Excess(sv, caps)| == |sv| - |kept|
      && (forall a, b :: a in kept && b in Excess(sv, caps) ==>
            a.createdAt < b.createdAt || (a.createdAt == b.createdAt && a.id != b.id && StrLe(a.id, b.id)))
  {
    hide Sort, Filter, Disabled, KeptBrands, Sorted, TotalPreorder;
    var kept, sv := Kept(accounts, brands, caps), Survivors(accounts, brands, caps);
    var s, k := AgeOrdered(accounts, brands, caps), AccountCut(accounts, brands, caps);
    KeptIffInFront(accounts, brands, caps);
    AgeOrderedFacts(accounts, brands, caps);
    DistinctIdsFacts(accounts);
    var disabled := Disabled(accounts, brands, caps);
    FilterDistinct((a: Account) => a.id !in disabled, accounts);
    ContainedNotLonger(kept, s[..k]);
    ContainedNotLonger(s[..k], kept);
    AgeOrders();
    SortSorts(AccountLe, sv);
    SortPermutes(AccountLe, sv);
    forall a | a in kept ensures a in accounts && BrandAllowed(a, brands, caps) { assert a in s; }
    forall a, b | a in kept && b in s[k..] ensures AccountLe(a, b) && a.id != b.id {
      FrontBeforeBack(s, k, a, b);
      assert b in s;
    }
  }

  lemma FrontBeforeBack(s: seq<Account>, k: nat, a: Account, b: Account)
    requires Distinct(s) && Sorted(AccountLe, s) && k <= |s| && a in s[..k] && b in s[k..]
    ensures AccountLe(a, b) && a != b
  {
    var i :| 0 <= i < k && s[i] == a;
    var j :| k <= j < |s| && s[j] == b;
  }

  // ---------------------------------------------------------------- the same selection, by counting who is older

  ghost function OlderBrands(brands: seq<Brand>, b: Brand): set<Brand> {
    set c | c in brands && (c.createdAt < b.createdAt || (c.createdAt == b.createdAt && c.id != b.id && StrLe(c.id, b.id)))
  }

  /** The brand of this account is not among the oldest. */
  ghost predicate LosesBrand(a: Account, brands: seq<Brand>, caps: Caps) {
    && caps.maxBrands.Some? && a.brandId.Some?
    && forall b :: b in brands && b.id == a.brandId.value ==> |OlderBrands(brands, b)| >= caps.maxBrands.value
  }

  ghost function OlderRivals(accounts: seq<Account>, brands: seq<Brand>, caps: Caps, a: Account): set<Account> {
    set x | x in accounts && !LosesBrand(x, brands, caps)
      && (x.createdAt < a.createdAt || (x.createdAt == a.createdAt && x.id != a.id && StrLe(x.id, a.id)))
  }

  ghost predicate DistinctBrands(brands: seq<Brand>) {
    forall i, j :: 0 <= i < j < |brands| ==> brands[i].id != brands[j].id
  }

  lemma {:induction false} DistinctCount<T>(s: seq<T>)
    requires Distinct(s)
    ensures |set x | x in s| == |s|
  {
    var members := set x | x in s;
    if s == [] {
      assert members == {};
    } else {
      DistinctCount(s[1..]);
      assert s == [s[0]] + s[1..] && s[0] !in s[1..];
      assert members == (set x | x in s[1..]) + {s[0]};
    }
  }

  /** In a sorted list without ties, the place of an element is the number of elements before it in the order. */
  lemma PlaceIsRank<T(!new)>(le: (T, T) -> bool, s: seq<T>, i: nat, older: set<T>)
    requires i < |s| && Sorted(le, s) && Separates(le, s) && Distinct(s)
    requires forall x :: x in older <==> x in s && x != s[i] && le(x, s[i])
    ensures |older| == i
  {
    forall x ensures x in older <==> x in s[..i] {
      if x in s[..i] { var j :| 0 <= j < i && s[j] == x; }
      if x in older { var j :| 0 <= j < |s| && s[j] == x; }
    }
    DistinctCount(s[..i]);
    assert older == set x | x in s[..i];
  }

  lemma BrandRank(brands: seq<Brand>, b: Brand) returns (i: nat)
    requires DistinctBrands(brands) && b in brands
    ensures i < |brands| && Sort(BrandLe, brands)[i] == b && |OlderBrands(brands, b)| == i
    ensures forall c :: c in Sort(BrandLe, brands) && c.id == b.id ==> c == b
    ensures Distinct(Sort(BrandLe, brands))
  {
    hide StrLe, Sort;
    AgeOrders();
    var s := Sort(BrandLe, brands);
    SortSorts(BrandLe, brands);
    SortPermutes(BrandLe, brands);
    DistinctFromMultiset(brands, s);
    assert b in s;
    i :| 0 <= i < |s| && s[i] == b;
    SameBrands(brands, b, s);
    hide DistinctBrands;
    PlaceIsRank(BrandLe, s, i, OlderBrands(brands, b));
  }

  lemma BrandPlaces(brands: seq<Brand>, cap: int, b: Brand)
    requires DistinctBrands(brands) && b in brands
    ensures b.id in KeptBrands(brands, cap) <==> |OlderBrands(brands, b)| < cap
  {
    hide Sort, OlderBrands, BrandLe, DistinctBrands;
    var s, k := Sort(BrandLe, brands), Cut(cap, |brands|);
    var i := BrandRank(brands, b);
    if i < k { assert s[..k][i] == b; }
    if b.id in KeptBrands(brands, cap) {
      var c :| c in s[..k] && c.id == b.id;
      assert c in s;
      var j :| 0 <= j < k && s[j] == c;
      assert i == j;
    }
  }

  lemma SameBrands(brands: seq<Brand>, b: Brand, s: seq<Brand>)
    requires DistinctBrands(brands) && b in brands && forall c :: c in s <==> c in brands
    ensures forall c :: c in s && c.id == b.id ==> c == b
  {
    forall c | c in s && c.id == b.id ensures c == b {
      var i :| 0 <= i < |brands| && brands[i] == b;
      var j :| 0 <= j < |brands| && brands[j] == c;
    }
  }

  lemma LosesIffNotAllowed(brands: seq<Brand>, caps: Caps, a: Account)
    requires DistinctBrands(brands)
    ensures LosesBrand(a, brands, caps) <==> !BrandAllowed(a, brands, caps)
  {
    hide KeptBrands, OlderBrands;
    if caps.maxBrands.Some? && a.brandId.Some? {
      var cap := caps.maxBrands.value;
      if b :| b in brands && b.id == a.brandId.value {
        BrandPlaces(brands, cap, b);
        SameBrands(brands, b, brands);
      } else if a.brandId.value in KeptBrands(brands, cap) {
        var b := KeptBrandsAreOldest(brands, cap, a.brandId.value);
      }
    }
  }

  /** An account is disabled exactly when as many brands as are allowed are older than its own, or as many accounts of
      kept brands as are allowed are older than it. */
  lemma DisabledByRank(accounts: seq<Account>, brands: seq<Brand>, caps: Caps, a: Account)
    requires DistinctIds(accounts) && DistinctBrands(brands) && a in accounts
    ensures a.id in Disabled(accounts, brands, caps) <==>
      || LosesBrand(a, brands, caps)
      || (caps.maxConnectedAccounts.Some? && |OlderRivals(accounts, brands, caps, a)| >= caps.maxConnectedAccounts.value)
  {
    hide Disabled, BrandAllowed, LosesBrand, Survivors, Sort, Sorted, Separates, StrLe, TotalPreorder;
    forall x ensures LosesBrand(x, brands, caps) <==> !BrandAllowed(x, brands, caps) { LosesIffNotAllowed(brands, caps, x); }
    DisabledIff(accounts, brands, caps, a);
    AgeOrderedFacts(accounts, brands, caps);
    if BrandAllowed(a, brands, caps) && caps.maxConnectedAccounts.Some? {
      var s, k := AgeOrdered(accounts, brands, caps), AccountCut(accounts, brands, caps);
      assert a in s;
      FrontOrBack(s, k, a);
      var i := RivalPlaces(accounts, brands, caps, a);
      if i < k { assert s[..k][i] == a; }
      if a in s[..k] { var j :| 0 <= j < k && s[j] == a; assert i == j; }
      assert |s| == |Survivors(accounts, brands, caps)|;
    }
  }

  lemma RivalPlaces(accounts: seq<Account>, brands: seq<Brand>, caps: Caps, a: Account) returns (i: nat)
    requires DistinctIds(accounts) && a in accounts && BrandAllowed(a, brands, caps)
    requires forall x :: LosesBrand(x, brands, caps) <==> !BrandAllowed(x, brands, caps)
    ensures i < |AgeOrdered(accounts, brands, caps)| && AgeOrdered(accounts, brands, caps)[i] == a
    ensures |OlderRivals(accounts, brands, caps, a)| == i
  {
    hide BrandAllowed, LosesBrand, StrLe;
    AgeOrders();
    AgeOrderedFacts(accounts, brands, caps);
    DistinctIdsFacts(accounts);
    var s := AgeOrdered(accounts, brands, caps);
    SortSorts(AccountLe, Survivors(accounts, brands, caps));
    assert a in s;
    i :| 0 <= i < |s| && s[i] == a;
    PlaceIsRank(AccountLe, s, i, OlderRivals(accounts, brands, caps, a));
  }

  /** The list names first the accounts that lose their brand, as listed, then the excess from the oldest on. */
  lemma DisabledListed(accounts: seq<Account>, brands: seq<Brand>, caps: Caps)
    requires DistinctIds(accounts)
    ensures Disabled(accounts, brands, caps) == IdsOf(Losers(accounts, brands, caps)) + IdsOf(Excess(Survivors(accounts, brands, caps), caps))
    ensures var excess := Excess(Survivors(accounts, brands, caps), caps);
      forall i, j :: 0 <= i < j < |excess| ==>
        excess[i].createdAt < excess[j].createdAt || (excess[i].createdAt == excess[j].createdAt && StrLe(excess[i].id, excess[j].id))
  {
    hide BrandAllowed, StrLe;
    DistinctIdsFacts(accounts);
    AgeOrderedFacts(accounts, brands, caps);
    AgeOrders();
    SortSorts(AccountLe, Survivors(accounts, brands, caps));
    var losers, excess := Losers(accounts, brands, caps), Excess(Survivors(accounts, brands, caps), caps);
    FilterDistinct((a: Account) => !BrandAllowed(a, brands, caps), accounts);
    forall a | a in excess ensures a in accounts && a !in losers { assert a in AgeOrdered(accounts, brands, caps); }
    AddAllNew([], losers, accounts);
    AddAllNew(IdsOf(losers), excess, accounts);
    assert [] + IdsOf(losers) == IdsOf(losers);
  }

  lemma {:induction false} AddAllNew(ids: seq<string>, list: seq<Account>, accounts: seq<Account>)
    requires forall a, b :: a in accounts && b in accounts && a.id == b.id ==> a == b
    requires Distinct(list) && forall a :: a in list ==> a in accounts && a.id !in ids
    ensures AddAll(ids, list) == ids + IdsOf(list)
  {
    hide AddAll;
    if list == [] {
      AddAllNothing(ids);
    } else {
      var n := |list| - 1;
      var init, a := list[..n], list[n];
      assert list == init + [a] && a !in init;
      AddAllNew(ids, init, accounts);
      AddAllOneMore(ids, init, a);
      assert IdsOf(list) == IdsOf(init) + [a.id];
      forall x | x in init ensures x.id != a.id { assert x in list; }
      assert a.id !in IdsOf(init);
    }
  }

  /** Among the accounts that belong to the kept, oldest brands, no selection within the account cap keeps more. */
  lemma KeepsAsManyAsPossible(accounts: seq<Account>, brands: seq<Brand>, caps: Caps, other: seq<Account>)
    requires DistinctIds(accounts) && Distinct(other)
    requires forall a :: a in other ==> a in accounts && BrandAllowed(a, brands, caps)
    requires caps.maxConnectedAccounts.Some? ==> |other| <= Cut(caps.maxConnectedAccounts.value, |other|)
    ensures |other| <= |Kept(accounts, brands, caps)|
  {
    KeepsOldestWithinCaps(accounts, brands, caps);
    ContainedNotLonger(other, Survivors(accounts, brands, caps));
  }

  /** Keeping the oldest brands is not always the largest choice: of two brands under a cap of one, the
      older one has a single account and the younger one two. The selection keeps the single one; with the
      younger brand kept instead it would be two. */
  lemma YoungerBrandKeepsMore(b: Brand, c: Brand, x: Account, y: Account, z: Account)
    requires b.createdAt < c.createdAt && b.id != c.id && x.brandId == Some(b.id) && y.brandId == Some(c.id) && z.brandId == Some(c.id)
    requires x.id != y.id && y.id != z.id && x.id != z.id
    ensures var caps := Caps(Some(1), None);
      Kept([x, y, z], [b, c], caps) == [x] && Kept([x, y, z], [c], caps) == [y, z]
  {
    hide KeptBrands, Sort, Survivors, Losers, AddAll;
    OneBrandKept(b, c);
    var caps := Caps(Some(1), None);
    ThreeAccounts(x, y, z, [b, c], caps);
    ThreeAccounts(x, y, z, [c], caps);
    AddAllNothing(AddAll([], [y, z]));
    AddAllNothing(AddAll([], [x]));
  }

  /** Three accounts of which exactly the brand decides. */
  lemma ThreeAccounts(x: Account, y: Account, z: Account, brands: seq<Brand>, caps: Caps)
    requires x.id != y.id && y.id != z.id && x.id != z.id && caps.maxConnectedAccounts.None?
    requires BrandAllowed(x, brands, caps) != BrandAllowed(y, brands, caps) && BrandAllowed(y, brands, caps) == BrandAllowed(z, brands, caps)
    ensures Kept([x, y, z], brands, caps) == if BrandAllowed(x, brands, caps) then [x] else [y, z]
  {
    hide BrandAllowed, Disabled, Filter;
    DisabledThree(x, y, z, brands, caps);
    var disabled := Disabled([x, y, z], brands, caps);
    FilterThree((a: Account) => a.id !in disabled, x, y, z);
  }

  lemma DisabledThree(x: Account, y: Account, z: Account, brands: seq<Brand>, caps: Caps)
    requires y.id != z.id && caps.maxConnectedAccounts.None?
    requires BrandAllowed(x, brands, caps) != BrandAllowed(y, brands, caps) && BrandAllowed(y, brands, caps) == BrandAllowed(z, brands, caps)
    ensures Disabled([x, y, z], brands, caps) == if BrandAllowed(x, brands, caps) then [y.id, z.id] else [x.id]
  {
    hide BrandAllowed, Survivors, AddAll, Filter;
    FilterThree((a: Account) => !BrandAllowed(a, brands, caps), x, y, z);
    hide Losers;
    assert [] + [x] == [x] && [] + [y] == [y] && [y] + [z] == [y, z];
    AddAllNothing([]);
    AddAllOneMore([], [], x);
    AddAllOneMore([], [], y);
    AddAllOneMore([], [y], z);
    AddAllNothing(AddAll([], Losers([x, y, z], brands, caps)));
  }

  lemma FilterThree(keep: Account -> bool, x: Account, y: Account, z: Account)
    requires keep(y) == keep(z) == !keep(x)
    ensures Filter(keep, [x, y, z]) == if keep(x) then [x] else [y, z]
  {
    assert [] + [x] == [x] && [x] + [y] == [x, y] && [x, y] + [z] == [x, y, z] && [] + [y] == [y] && [y] + [z] == [y, z];
    FilterStep(keep, [], x);
    FilterStep(keep, [x], y);
    FilterStep(keep, [x, y], z);
  }

  lemma FilterStep(keep: Account -> bool, accounts: seq<Account>, a: Account)
    ensures Filter(keep, []) == []
    ensures Filter(keep, accounts + [a]) == if keep(a) then Filter(keep, accounts) + [a] else Filter(keep, accounts)
  {
    assert (accounts + [a])[..|accounts|] == accounts;
    assert Filter(keep, []) == [];
  }

  lemma OneBrandKept(b: Brand, c: Brand)
    requires b.createdAt < c.createdAt && b.id != c.id
    ensures KeptBrands([b, c], 1) == {b.id} && KeptBrands([c], 1) == {c.id}
  {
    assert [b, c][1..] == [c] && [c][1..] == [];
    assert Sort(BrandLe, [c]) == [c];
    assert Sort(BrandLe, [b, c]) == [b, c];
    assert [b, c][..1] == [b] && [c][..1] == [c];
  }

  /** The accounts and brands may be listed in any order. */
  lemma OrderDoesNotMatter(accounts: seq<Account>, brands: seq<Brand>, caps: Caps, accounts': seq<Account>, brands': seq<Brand>)
    requires DistinctIds(accounts)
    requires multiset(accounts) == multiset(accounts') && multiset(brands) == multiset(brands')
    ensures forall id :: id in Disabled(accounts, brands, caps) <==> id in Disabled(accounts', brands', caps)
  {
    AgeOrders();
    SortForgetsOrder(BrandLe, brands, brands');
    SameMultisetSameElements(brands, brands');
    SameMultisetSameElements(accounts, accounts');
    forall a ensures BrandAllowed(a, brands, caps) == BrandAllowed(a, brands', caps) {}
    var sv, sv' := Survivors(accounts, brands, caps), Survivors(accounts', brands', caps);
    forall x ensures multiset(sv)[x] == multiset(sv')[x] {
      FilterMultiset((a: Account) => BrandAllowed(a, brands, caps), accounts, x);
      FilterMultiset((a: Account) => BrandAllowed(a, brands', caps), accounts', x);
    }
    assert multiset(sv) == multiset(sv');
    SameMultisetSameElements(sv, sv');
    DistinctIdsFacts(accounts);
    SortForgetsOrder(AccountLe, sv, sv');
  }

  /** Reconciling what is left disables nothing more. */
  lemma SecondRunDisablesNothing(accounts: seq<Account>, brands: seq<Brand>, caps: Caps)
    requires DistinctIds(accounts)
    ensures Disabled(Kept(accounts, brands, caps), brands, caps) == []
  {
    var kept := Kept(accounts, brands, caps);
    KeepsOldestWithinCaps(accounts, brands, caps);
    var losers := Losers(kept, brands, caps);
    if losers != [] { var a := SomeMember(losers); }
    assert losers == [];
    var sv := Survivors(kept, brands, caps);
    assert |sv| <= |kept|;
    SortPermutes(AccountLe, sv);
    assert Excess(sv, caps) == [];
  }
}
