/** The order of providers in the tray menu: a stable sort by a three-tier comparator. */
module ProviderOrder {
  import opened Text
  import opened SemVer

  datatype Provider = Provider(id: string, sortIndex: Option<nat>, createdAt: Option<int>, name: string)

  function CompareInt(a: int, b: int): Ordering {
    if a < b then Less else if a > b then Greater else Equal
  }

  /** The comparator, branch by branch. */
  function CompareProviders(a: Provider, b: Provider): Ordering {
    match (a.sortIndex, b.sortIndex)
    case (Some(i), Some(j)) => CompareInt(i, j)
    case (Some(_), None) => Less
    case (None, Some(_)) => Greater
    case (None, None) =>
      match (a.createdAt, b.createdAt)
      case (Some(s), Some(t)) => CompareInt(s, t)
      case (Some(_), None) => Greater
      case (None, Some(_)) => Less
      case (None, None) => CompareText(a.name, b.name)
  }

  /** Indexed providers come first, then those without a date, then the dated ones. */
  function Tier(p: Provider): nat {
    if p.sortIndex.Some? then 0 else if p.createdAt.None? then 1 else 2
  }

  /** Within a tier the index, the name or the date alone decides. */
  predicate BeforeInTier(a: Provider, b: Provider)
    requires Tier(a) == Tier(b)
  {
    match Tier(a)
    case 0 => a.sortIndex.value < b.sortIndex.value
    case 1 => CompareText(a.name, b.name) == Less
    case _ => a.createdAt.value < b.createdAt.value
  }

  lemma ComparatorIsTiered(a: Provider, b: Provider)
    ensures CompareProviders(a, b) == Less <==> Tier(a) < Tier(b) || (Tier(a) == Tier(b) && BeforeInTier(a, b))
    ensures CompareProviders(a, b) == Greater <==> Tier(b) < Tier(a) || (Tier(a) == Tier(b) && BeforeInTier(b, a))
  {
    TextIsPreorder(a.name, b.name, a.name);
  }

  lemma ComparatorIsTotalPreorder(a: Provider, b: Provider, c: Provider)
    ensures CompareProviders(a, a) == Equal
    ensures CompareProviders(b, a) == Reverse(CompareProviders(a, b))
    ensures Chains(CompareProviders(a, b), CompareProviders(b, c), CompareProviders(a, c))
  {
    TextIsPreorder(a.name, b.name, c.name);
    TextIsPreorder(a.name, a.name, a.name);
  }

  // ---------- the sort ----------

  /** Puts `x` behind everything that does not come after it. */
  function InsertLast(sorted: seq<Provider>, x: Provider): (r: seq<Provider>)
    ensures |r| == |sorted| + 1
  {
    if sorted == [] || CompareProviders(sorted[|sorted| - 1], x) != Greater then sorted + [x]
    else InsertLast(sorted[..|sorted| - 1], x) + [sorted[|sorted| - 1]]
  }

  /** What a stable `sort_by` makes of the list. */
  function SortProviders(providers: seq<Provider>): (r: seq<Provider>)
    ensures |r| == |providers|
  {
    if providers == [] then []
    else InsertLast(SortProviders(providers[..|providers| - 1]), providers[|providers| - 1])
  }

  /** Provider i has to stand before provider j of the input. */
  predicate StandsBefore(providers: seq<Provider>, i: nat, j: nat)
    requires i < |providers| && j < |providers|
  {
    var ord := CompareProviders(providers[i], providers[j]);
    ord == Less || (ord == Equal && i < j)
  }

  predicate Positions(order: seq<nat>, n: nat) {
    && (forall k | 0 <= k < |order| :: order[k] < n)
    && (forall i | 0 <= i < n :: i in order)
  }

  predicate InOrder(providers: seq<Provider>, order: seq<nat>)
    requires forall k | 0 <= k < |order| :: order[k] < |providers|
  {
    forall j, k | 0 <= j < k < |order| :: StandsBefore(providers, order[j], order[k])
  }

  /** The providers at the listed positions. */
  function Picked(providers: seq<Provider>, order: seq<nat>): seq<Provider>
    requires forall k | 0 <= k < |order| :: order[k] < |providers|
  {
    if order == [] then [] else Picked(providers, order[..|order| - 1]) + [providers[order[|order| - 1]]]
  }

  /** `order` lists every position once, in the order in which the result takes them. */
  ghost predicate StablySorts(providers: seq<Provider>, order: seq<nat>, result: seq<Provider>) {
    && Positions(order, |providers|)
    && InOrder(providers, order)
    && result == Picked(providers, order)
  }

  /** The positions, inserted alongside the providers. */
  function InsertPosition(providers: seq<Provider>, order: seq<nat>, x: nat): (r: seq<nat>)
    requires x < |providers| && forall k | 0 <= k < |order| :: order[k] < |providers|
    ensures |r| == |order| + 1
    ensures forall k | 0 <= k < |r| :: r[k] < |providers|
    ensures forall i :: i in r <==> i == x || i in order
  {
    if order == [] || CompareProviders(providers[order[|order| - 1]], providers[x]) != Greater then order + [x] else
      var last := order[|order| - 1];
      assert order == order[..|order| - 1] + [last];
      InsertPosition(providers, order[..|order| - 1], x) + [last]
  }

  lemma {:induction false} InsertFollows(providers: seq<Provider>, order: seq<nat>, x: nat)
    requires x < |providers| && forall k | 0 <= k < |order| :: order[k] < |providers|
    ensures InsertLast(Picked(providers, order), providers[x]) ==
            Picked(providers, InsertPosition(providers, order, x))
  {
    var sorted := Picked(providers, order);
    if order == [] || CompareProviders(providers[order[|order| - 1]], providers[x]) != Greater {
      assert (order + [x])[..|order|] == order;
    } else {
      var front, last := order[..|order| - 1], order[|order| - 1];
      InsertFollows(providers, front, x);
      assert sorted[..|sorted| - 1] == Picked(providers, front);
      var inner := InsertPosition(providers, front, x);
      assert (inner + [last])[..|inner|] == inner;
    }
  }

  lemma {:induction false} InsertKeepsOrder(providers: seq<Provider>, order: seq<nat>, x: nat)
    requires x < |providers| && forall k | 0 <= k < |order| :: order[k] < x
    requires InOrder(providers, order)
    ensures InOrder(providers, InsertPosition(providers, order, x))
  {
    if order != [] {
      var front, last := order[..|order| - 1], order[|order| - 1];
      if CompareProviders(providers[last], providers[x]) == Greater {
        InsertKeepsOrder(providers, front, x);
        ComparatorIsTotalPreorder(providers[last], providers[x], providers[last]);
        var inner := InsertPosition(providers, front, x);
        forall k | 0 <= k < |inner| ensures StandsBefore(providers, inner[k], last) {
          if inner[k] != x {
            assert inner[k] in front;
            var j :| 0 <= j < |front| && front[j] == inner[k];
            assert StandsBefore(providers, order[j], order[|order| - 1]);
          }
        }
      } else {
        forall k | 0 <= k < |order| ensures StandsBefore(providers, order[k], x) {
          if k < |order| - 1 {
            assert StandsBefore(providers, order[k], last);
            ComparatorIsTotalPreorder(providers[order[k]], providers[last], providers[x]);
          }
        }
      }
    }
  }

  lemma {:induction false} MoreProviders(providers: seq<Provider>, x: Provider, order: seq<nat>)
    requires forall k | 0 <= k < |order| :: order[k] < |providers|
    ensures InOrder(providers, order) == InOrder(providers + [x], order)
    ensures Picked(providers, order) == Picked(providers + [x], order)
  {
    forall j, k | 0 <= j < k < |order|
      ensures StandsBefore(providers, order[j], order[k]) == StandsBefore(providers + [x], order[j], order[k])
    {
    }
    if order != [] {
      MoreProviders(providers, x, order[..|order| - 1]);
    }
  }

  /** The result is the input in the comparator's order, with ties as they were. */
  lemma {:induction false} SortIsStable(providers: seq<Provider>) returns (order: seq<nat>)
    ensures StablySorts(providers, order, SortProviders(providers))
  {
    if providers == [] {
      order := [];
    } else {
      var n := |providers| - 1;
      var front := providers[..n];
      var before := SortIsStable(front);
      order := InsertPosition(providers, before, n);
      assert providers == front + [providers[n]];
      MoreProviders(front, providers[n], before);
      InsertKeepsOrder(providers, before, n);
      InsertFollows(providers, before, n);
    }
  }

  lemma HeadIsMember(b: seq<nat>)
    requires b != []
    ensures b[0] in b
  {
  }

  lemma {:induction false} OrderIsUnique(providers: seq<Provider>, a: seq<nat>, b: seq<nat>)
    requires forall i :: i in a <==> i in b
    requires forall k | 0 <= k < |a| :: a[k] < |providers|
    requires forall k | 0 <= k < |b| :: b[k] < |providers|
    requires InOrder(providers, a) && InOrder(providers, b)
    ensures a == b
  {
    if a == [] {
      if b != [] {
        HeadIsMember(b);
      }
    } else {
      assert a[0] in b && b != [] && b[0] in a;
      FirstIsFirst(providers, a, b);
      NotRepeated(providers, a);
      NotRepeated(providers, b);
      assert a == [a[0]] + a[1..] && b == [b[0]] + b[1..];
      forall i ensures i in a[1..] <==> i in b[1..] {
        assert (i in a <==> i == a[0] || i in a[1..]) && (i in b <==> i == b[0] || i in b[1..]);
      }
      OrderIsUnique(providers, a[1..], b[1..]);
    }
  }

  lemma FirstIsFirst(providers: seq<Provider>, a: seq<nat>, b: seq<nat>)
    requires a != [] && b != [] && a[0] in b && b[0] in a
    requires forall k | 0 <= k < |a| :: a[k] < |providers|
    requires forall k | 0 <= k < |b| :: b[k] < |providers|
    requires InOrder(providers, a) && InOrder(providers, b)
    ensures a[0] == b[0]
  {
    var i :| 0 <= i < |b| && b[i] == a[0];
    var j :| 0 <= j < |a| && a[j] == b[0];
    if i > 0 && j > 0 {
      assert StandsBefore(providers, b[0], b[i]) && StandsBefore(providers, a[0], a[j]);
      ComparatorIsTotalPreorder(providers[a[0]], providers[b[0]], providers[a[0]]);
    }
  }

  lemma NotRepeated(providers: seq<Provider>, a: seq<nat>)
    requires a != [] && forall k | 0 <= k < |a| :: a[k] < |providers|
    requires InOrder(providers, a)
    ensures a[0] !in a[1..]
  {
    ComparatorIsTotalPreorder(providers[a[0]], providers[a[0]], providers[a[0]]);
    forall k | 0 <= k < |a[1..]| ensures a[1..][k] != a[0] {
      assert StandsBefore(providers, a[0], a[k + 1]);
    }
  }

  /** No other list is a stable sort of the input. */
  lemma StableSortIsUnique(providers: seq<Provider>, order: seq<nat>, result: seq<Provider>)
    requires StablySorts(providers, order, result)
    ensures result == SortProviders(providers)
  {
    var ours := SortIsStable(providers);
    OrderIsUnique(providers, order, ours);
  }

  // ---------- the documented order ----------

  /** Where an absent value stands, of which the documentation says nothing. */
  datatype Placement = Placement(indexedFirst: bool, datedFirst: bool)

  function CompareOption(a: Option<int>, b: Option<int>, presentFirst: bool): Ordering {
    match (a, b)
    case (Some(i), Some(j)) => CompareInt(i, j)
    case (Some(_), None) => if presentFirst then Less else Greater
    case (None, Some(_)) => if presentFirst then Greater else Less
    case (None, None) => Equal
  }

  /** Index, then date, then name: each decides the ties that the one before it leaves. */
  function Documented(a: Provider, b: Provider, placed: Placement): Ordering {
    Then(CompareOption(a.sortIndex, b.sortIndex, placed.indexedFirst),
         Then(CompareOption(a.createdAt, b.createdAt, placed.datedFirst), CompareText(a.name, b.name)))
  }

  /** A tie that the code leaves and the documentation decides. */
  predicate LeavesTie(a: Provider, b: Provider) {
    || (a.sortIndex.Some? && a.sortIndex == b.sortIndex && (a.createdAt != b.createdAt || a.name != b.name))
    || (a.sortIndex.None? && b.sortIndex.None? && a.createdAt.Some? && a.createdAt == b.createdAt && a.name != b.name)
  }

  /** An absent value that the code places otherwise. */
  predicate PlacesOtherwise(a: Provider, b: Provider, placed: Placement) {
    || (a.sortIndex.Some? != b.sortIndex.Some? && !placed.indexedFirst)
    || (a.sortIndex.None? && b.sortIndex.None? && a.createdAt.Some? != b.createdAt.Some? && placed.datedFirst)
  }

  /** Wherever absent values are meant to stand, the code compares as documented if and only if neither happens. */
  lemma ComparesAsDocumentedExactly(a: Provider, b: Provider, placed: Placement)
    ensures CompareProviders(a, b) == Documented(a, b, placed) <==> !LeavesTie(a, b) && !PlacesOtherwise(a, b, placed)
  {
    TextOrder(a.name, b.name);
  }

  /** Providers with the same index are equal to the code, whatever their dates. */
  lemma IndexTiesAreLeft(placed: Placement) returns (a: Provider, b: Provider)
    ensures a == Provider("a", Some(1), Some(2), "a") && b == Provider("b", Some(1), Some(1), "b")
    ensures CompareProviders(a, b) == Equal && Documented(a, b, placed) == Greater
  {
    a, b := Provider("a", Some(1), Some(2), "a"), Provider("b", Some(1), Some(1), "b");
  }

  /** Absent values where the code has them: indexed before the others, undated before dated. */
  const AS_CODED := Placement(true, false)

  lemma DocumentedRefines(a: Provider, b: Provider)
    ensures CompareProviders(a, b) != Equal ==> Documented(a, b, AS_CODED) == CompareProviders(a, b)
  {
    ComparesAsDocumentedExactly(a, b, AS_CODED);
  }

  predicate IsSortedAsDocumented(providers: seq<Provider>) {
    forall j, k | 0 <= j < k < |providers| :: Documented(providers[j], providers[k], AS_CODED) != Greater
  }

  /** What the code takes for equal already stands in the documented order. */
  predicate TiesStandRight(providers: seq<Provider>) {
    forall i, j | 0 <= i < j < |providers| && CompareProviders(providers[i], providers[j]) == Equal ::
      Documented(providers[i], providers[j], AS_CODED) != Greater
  }

  lemma {:induction false} PickedAt(providers: seq<Provider>, order: seq<nat>, k: nat)
    requires k < |order| && forall k | 0 <= k < |order| :: order[k] < |providers|
    ensures |Picked(providers, order)| == |order| && Picked(providers, order)[k] == providers[order[k]]
    decreases |order|
  {
    if k < |order| - 1 {
      PickedAt(providers, order[..|order| - 1], k);
    } else if |order| > 1 {
      PickedAt(providers, order[..|order| - 1], 0);
    }
  }

  /** Of two equal providers the earlier one comes first in the result. */
  lemma TieKeepsPlace(providers: seq<Provider>, order: seq<nat>, i: nat, j: nat) returns (a: nat, b: nat)
    requires Positions(order, |providers|) && InOrder(providers, order)
    requires i < j < |providers| && CompareProviders(providers[i], providers[j]) == Equal
    ensures a < b < |order| && order[a] == i && order[b] == j
  {
    assert i in order && j in order;
    a :| 0 <= a < |order| && order[a] == i;
    b :| 0 <= b < |order| && order[b] == j;
    if b < a {
      assert StandsBefore(providers, order[b], order[a]);
      ComparatorIsTotalPreorder(providers[i], providers[j], providers[i]);
    }
  }

  /** The menu is in the documented order if and only if the ties of the input stand right. */
  lemma SortedAsDocumentedExactly(providers: seq<Provider>)
    ensures IsSortedAsDocumented(SortProviders(providers)) <==> TiesStandRight(providers)
  {
    var order := SortIsStable(providers);
    var result := SortProviders(providers);
    forall k | 0 <= k < |order| ensures |result| == |order| && result[k] == providers[order[k]] {
      PickedAt(providers, order, k);
    }
    if TiesStandRight(providers) {
      forall j, k | 0 <= j < k < |result| ensures Documented(result[j], result[k], AS_CODED) != Greater {
        assert StandsBefore(providers, order[j], order[k]);
        DocumentedRefines(result[j], result[k]);
      }
    }
    if IsSortedAsDocumented(result) {
      forall i, j | 0 <= i < j < |providers| && CompareProviders(providers[i], providers[j]) == Equal
        ensures Documented(providers[i], providers[j], AS_CODED) != Greater
      {
        var a, b := TieKeepsPlace(providers, order, i, j);
        assert Documented(result[a], result[b], AS_CODED) != Greater;
      }
    }
  }
}
