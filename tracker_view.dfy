/** The state logic of the tracker page, src/components/ShopTracker.tsx: the comparator that
    orders the report's items, the sort that applies it to a copy of the items, and the
    component state the sort buttons and the user-id form update. */
module TrackerView {
  import opened Numeric
  import opened Recommendation
  import opened ShopTracker

  datatype SortField = Name | CurrentPrice | BasePrice | Difference | Rating

  datatype SortDirection = Asc | Desc

  /** A string comparison standing in for `localeCompare`: any order that reports a pair as
      positive exactly when it reports the swapped pair as negative. */
  ghost predicate Antisymmetric(nameOrder: (string, string) -> int)
  {
    forall x, y :: nameOrder(x, y) > 0 <==> nameOrder(y, x) < 0
  }

  /** `a.analysis?.recommendation.score || 0`: a missing analysis counts as score 0. */
  function ScoreOrZero(item: UserItem): int
  {
    match item.analysis
    case Some(analysis) => analysis.recommendation.score
    case None => 0
  }

  /** The percentage difference of line 58, a JavaScript number: a base of 0 gives an infinity
      or NaN. */
  function DifferencePercent(item: UserItem): Num
  {
    Scale(Divide((item.currentUserPrice - item.basePrice) as real, item.basePrice as real), 100.0)
  }

  /** Lines 42-69: the comparison on the selected field, before the direction is applied. */
  function FieldCompare(field: SortField, nameOrder: (string, string) -> int, a: UserItem, b: UserItem): Num
  {
    match field
    case Name => Finite(nameOrder(a.item.name, b.item.name) as real)
    case CurrentPrice =>
      var byPrice := a.currentUserPrice - b.currentUserPrice;
      if byPrice == 0 && a.analysis.Some? && b.analysis.Some? then
        Finite((a.analysis.value.recommendation.score - b.analysis.value.recommendation.score) as real)
      else Finite(byPrice as real)
    case BasePrice => Finite((a.basePrice - b.basePrice) as real)
    case Difference => Subtract(DifferencePercent(a), DifferencePercent(b))
    case Rating =>
      var byScore := ScoreOrZero(a) - ScoreOrZero(b);
      Finite((if byScore == 0 then a.currentUserPrice - b.currentUserPrice else byScore) as real)
  }

  /** The comparator of `sortItems` (lines 37-71): fixed items against non-fixed ones first,
      then the field comparison, negated for a descending sort. */
  function Compare(field: SortField, direction: SortDirection, nameOrder: (string, string) -> int,
                   a: UserItem, b: UserItem): Num
  {
    if a.pricingType == Fixed && b.pricingType != Fixed then Finite(1.0)
    else if a.pricingType != Fixed && b.pricingType == Fixed then Finite(-1.0)
    else
      var compareValue := FieldCompare(field, nameOrder, a, b);
      if direction == Asc then compareValue else Negate(compareValue)
  }

  /** A fixed item is placed after a non-fixed one whatever the field and the direction. */
  lemma FixedItemsGoLast(field: SortField, direction: SortDirection, nameOrder: (string, string) -> int,
                         a: UserItem, b: UserItem)
    requires a.pricingType == Fixed && b.pricingType != Fixed
    ensures IsPositive(Compare(field, direction, nameOrder, a, b))
    ensures IsNegative(Compare(field, direction, nameOrder, b, a))
  {
  }

  /** Whatever may follow a fixed item without being out of order is fixed too. */
  lemma InOrderAfterFixed(field: SortField, direction: SortDirection, nameOrder: (string, string) -> int,
                          a: UserItem, b: UserItem)
    requires a.pricingType == Fixed
    requires !IsPositive(Compare(field, direction, nameOrder, a, b))
    ensures b.pricingType == Fixed
  {
  }

  /** For two items of the same kind a descending sort reports the opposite sign of an
      ascending one. */
  lemma DescendingReversesAscending(field: SortField, nameOrder: (string, string) -> int, a: UserItem, b: UserItem)
    requires (a.pricingType == Fixed) == (b.pricingType == Fixed)
    ensures IsPositive(Compare(field, Desc, nameOrder, a, b)) <==> IsNegative(Compare(field, Asc, nameOrder, a, b))
    ensures IsNegative(Compare(field, Desc, nameOrder, a, b)) <==> IsPositive(Compare(field, Asc, nameOrder, a, b))
  {
    var v := FieldCompare(field, nameOrder, a, b);
    assert Compare(field, Asc, nameOrder, a, b) == v;
    assert Compare(field, Desc, nameOrder, a, b) == Negate(v);
    NegateSwapsSign(v);
  }

  /** Ascending by current price, equal prices are ordered by recommendation score when both
      items have an analysis, and are a tie otherwise. */
  lemma EqualPricesOrderedByScore(nameOrder: (string, string) -> int, a: UserItem, b: UserItem)
    requires a.pricingType == Randomized && b.pricingType == Randomized
    requires a.currentUserPrice == b.currentUserPrice
    ensures a.analysis.Some? && b.analysis.Some? ==>
      (IsNegative(Compare(CurrentPrice, Asc, nameOrder, a, b)) <==> ScoreOrZero(a) < ScoreOrZero(b))
    ensures a.analysis.None? || b.analysis.None? ==>
      !IsNegative(Compare(CurrentPrice, Asc, nameOrder, a, b)) && !IsPositive(Compare(CurrentPrice, Asc, nameOrder, a, b))
  {
  }

  /** Ascending by rating, equal scores (a missing analysis counting as 0) are ordered by
      current price. */
  lemma EqualRatingsOrderedByPrice(nameOrder: (string, string) -> int, a: UserItem, b: UserItem)
    requires a.pricingType == b.pricingType
    requires ScoreOrZero(a) == ScoreOrZero(b)
    ensures IsNegative(Compare(Rating, Asc, nameOrder, a, b)) <==> a.currentUserPrice < b.currentUserPrice
    ensures IsPositive(Compare(Rating, Asc, nameOrder, a, b)) <==> a.currentUserPrice > b.currentUserPrice
  {
  }

  /** Each field comparison is antisymmetric in sign whenever the name order is. */
  lemma FieldCompareAntisymmetric(field: SortField, nameOrder: (string, string) -> int, a: UserItem, b: UserItem)
    requires Antisymmetric(nameOrder)
    ensures IsPositive(FieldCompare(field, nameOrder, a, b)) <==> IsNegative(FieldCompare(field, nameOrder, b, a))
  {
    match field
    case Name =>
      assert nameOrder(a.item.name, b.item.name) > 0 <==> nameOrder(b.item.name, a.item.name) < 0;
    case Difference =>
      SubtractSwapsSign(DifferencePercent(a), DifferencePercent(b));
    case _ =>
  }

  /** The comparator is antisymmetric in sign whenever the name order is: it puts a before b
      exactly when it puts b after a. */
  lemma CompareAntisymmetric(field: SortField, direction: SortDirection, nameOrder: (string, string) -> int,
                             a: UserItem, b: UserItem)
    requires Antisymmetric(nameOrder)
    ensures IsPositive(Compare(field, direction, nameOrder, a, b)) <==> IsNegative(Compare(field, direction, nameOrder, b, a))
  {
    if (a.pricingType == Fixed) == (b.pricingType == Fixed) {
      var v := FieldCompare(field, nameOrder, a, b);
      var w := FieldCompare(field, nameOrder, b, a);
      FieldCompareAntisymmetric(field, nameOrder, a, b);
      FieldCompareAntisymmetric(field, nameOrder, b, a);
      if direction == Asc {
        assert Compare(field, direction, nameOrder, a, b) == v;
        assert Compare(field, direction, nameOrder, b, a) == w;
      } else {
        assert Compare(field, direction, nameOrder, a, b) == Negate(v);
        assert Compare(field, direction, nameOrder, b, a) == Negate(w);
        NegateSwapsSign(v);
        NegateSwapsSign(w);
      }
    }
  }

  /** The comparator reports the pair (a, b) in the wrong order: a must move after b. */
  function OutOfOrder(field: SortField, direction: SortDirection, nameOrder: (string, string) -> int): (UserItem, UserItem) -> bool
  {
    (a, b) => IsPositive(Compare(field, direction, nameOrder, a, b))
  }

  /** No two neighbours of s between lo and hi are in the wrong order. */
  ghost predicate OrderedBetween<T>(outOfOrder: (T, T) -> bool, s: seq<T>, lo: int, hi: int)
    requires 0 <= lo && hi <= |s|
  {
    forall k :: lo <= k < hi - 1 ==> !outOfOrder(s[k], s[k + 1])
  }

  /** No two neighbours of s are in the wrong order. */
  ghost predicate AdjacentOrdered<T>(outOfOrder: (T, T) -> bool, s: seq<T>)
  {
    OrderedBetween(outOfOrder, s, 0, |s|)
  }

  /** Never both (x, y) and (y, x) in the wrong order. */
  ghost predicate NeverBothWays<T(!new)>(outOfOrder: (T, T) -> bool)
  {
    forall x, y :: outOfOrder(x, y) ==> !outOfOrder(y, x)
  }

  /** The tracker's comparator never reports both orders of a pair as wrong. */
  lemma OutOfOrderNeverBothWays(field: SortField, direction: SortDirection, nameOrder: (string, string) -> int)
    requires Antisymmetric(nameOrder)
    ensures NeverBothWays(OutOfOrder(field, direction, nameOrder))
  {
    forall x, y | OutOfOrder(field, direction, nameOrder)(x, y)
      ensures !OutOfOrder(field, direction, nameOrder)(y, x)
    {
      CompareAntisymmetric(field, direction, nameOrder, y, x);
    }
  }

  /** s with the elements at x and y exchanged. */
  function Swap<T>(s: seq<T>, x: int, y: int): (r: seq<T>)
    requires 0 <= x < |s| && 0 <= y < |s|
    ensures |r| == |s| && r[x] == s[y] && r[y] == s[x]
    ensures forall k :: 0 <= k < |s| && k != x && k != y ==> r[k] == s[k]
    ensures multiset(r) == multiset(s)
  {
    s[x := s[y]][y := s[x]]
  }

  /** Midway through inserting the element at i, which now sits at j: the elements before it
      and the elements after it up to i have no neighbours out of order, it is not out of
      order with its right neighbour, and its two neighbours were neighbours before. */
  ghost predicate Inserting<T>(outOfOrder: (T, T) -> bool, s: seq<T>, j: int, i: int)
  {
    && 0 <= j <= i < |s|
    && OrderedBetween(outOfOrder, s, 0, j)
    && OrderedBetween(outOfOrder, s, j + 1, i + 1)
    && (j < i ==> !outOfOrder(s[j], s[j + 1]))
    && (0 < j < i ==> !outOfOrder(s[j - 1], s[j + 1]))
  }

  /** Moving the element left past a neighbour it is out of order with keeps the state. */
  lemma SwapKeepsInserting<T(!new)>(outOfOrder: (T, T) -> bool, s: seq<T>, j: int, i: int)
    requires NeverBothWays(outOfOrder)
    requires Inserting(outOfOrder, s, j, i) && j > 0 && outOfOrder(s[j - 1], s[j])
    ensures Inserting(outOfOrder, Swap(s, j - 1, j), j - 1, i)
  {
    var r := Swap(s, j - 1, j);
    assert !outOfOrder(r[j - 1], r[j]);
    forall k | j <= k < i
      ensures !outOfOrder(r[k], r[k + 1])
    {
      if k == j {
        assert r[k] == s[k - 1] && r[k + 1] == s[k + 1];
      } else {
        assert r[k] == s[k] && r[k + 1] == s[k + 1];
      }
    }
  }

  /** When the element stops, at the front or behind a neighbour it is in order with, all of
      s up to i has no neighbours out of order. */
  lemma InsertingDone<T>(outOfOrder: (T, T) -> bool, s: seq<T>, j: int, i: int)
    requires Inserting(outOfOrder, s, j, i)
    requires j == 0 || !outOfOrder(s[j - 1], s[j])
    ensures OrderedBetween(outOfOrder, s, 0, i + 1)
  {
  }

  /** One pass of the insertion sort: a[i] moves left past the neighbours the comparator puts
      after it, so that a[..i + 1] has no neighbours out of order when a[..i] had none. */
  method InsertAt<T(!new)>(a: array<T>, i: int, outOfOrder: (T, T) -> bool)
    requires NeverBothWays(outOfOrder)
    requires 0 <= i < a.Length
    requires OrderedBetween(outOfOrder, a[..], 0, i)
    modifies a
    ensures multiset(a[..]) == multiset(old(a[..]))
    ensures OrderedBetween(outOfOrder, a[..], 0, i + 1)
  {
    var j := i;
    while j > 0 && outOfOrder(a[j - 1], a[j])
      invariant Inserting(outOfOrder, a[..], j, i)
      invariant multiset(a[..]) == multiset(old(a[..]))
    {
      ghost var s := a[..];
      SwapKeepsInserting(outOfOrder, s, j, i);
      a[j - 1], a[j] := a[j], a[j - 1];
      assert a[..] == Swap(s, j - 1, j);
      j := j - 1;
    }
    InsertingDone(outOfOrder, a[..], j, i);
  }

  /** A stable in-place insertion sort. Only comparisons of neighbours are needed, so the
      comparator may be intransitive (NaN differences) and the result still has no neighbours
      out of order. */
  method InsertionSort<T(!new)>(a: array<T>, outOfOrder: (T, T) -> bool)
    requires NeverBothWays(outOfOrder)
    modifies a
    ensures multiset(a[..]) == multiset(old(a[..]))
    ensures AdjacentOrdered(outOfOrder, a[..])
  {
    var i := 0;
    while i < a.Length
      invariant 0 <= i <= a.Length
      invariant multiset(a[..]) == multiset(old(a[..]))
      invariant OrderedBetween(outOfOrder, a[..], 0, i)
    {
      InsertAt(a, i, outOfOrder);
      i := i + 1;
    }
  }

  /** `sortItems`: the items sorted into a new array with the tracker's comparator; the
      items themselves are left as they are. */
  method SortItems(field: SortField, direction: SortDirection, nameOrder: (string, string) -> int,
                   items: array<UserItem>) returns (sorted: array<UserItem>)
    requires Antisymmetric(nameOrder)
    ensures fresh(sorted)
    ensures items[..] == old(items[..])
    ensures multiset(sorted[..]) == multiset(items[..])
    ensures AdjacentOrdered(OutOfOrder(field, direction, nameOrder), sorted[..])
  {
    var copy := items[..];
    sorted := new UserItem[|copy|](k requires 0 <= k < |copy| => copy[k]);
    assert sorted[..] == copy;
    OutOfOrderNeverBothWays(field, direction, nameOrder);
    InsertionSort(sorted, OutOfOrder(field, direction, nameOrder));
  }

  /** In any arrangement without neighbours out of order, whatever the field and direction,
      every non-fixed item precedes every fixed one. */
  lemma {:induction false} FixedItemsSortLast(field: SortField, direction: SortDirection,
                                              nameOrder: (string, string) -> int, s: seq<UserItem>, i: int, j: int)
    requires AdjacentOrdered(OutOfOrder(field, direction, nameOrder), s)
    requires 0 <= i < j < |s| && s[i].pricingType == Fixed
    ensures s[j].pricingType == Fixed
    decreases j - i
  {
    if j - 1 > i {
      FixedItemsSortLast(field, direction, nameOrder, s, i, j - 1);
    }
    assert !OutOfOrder(field, direction, nameOrder)(s[j - 1], s[j]);
    InOrderAfterFixed(field, direction, nameOrder, s[j - 1], s[j]);
  }

  /** Sorted ascending by current price, neighbouring randomized items have non-decreasing
      prices, and equal prices with both analyses present have non-decreasing scores. */
  lemma AscendingByPriceOrdersNeighbours(nameOrder: (string, string) -> int, s: seq<UserItem>, k: int)
    requires AdjacentOrdered(OutOfOrder(CurrentPrice, Asc, nameOrder), s)
    requires 0 <= k < |s| - 1
    requires s[k].pricingType == Randomized && s[k + 1].pricingType == Randomized
    ensures s[k].currentUserPrice <= s[k + 1].currentUserPrice
    ensures s[k].currentUserPrice == s[k + 1].currentUserPrice && s[k].analysis.Some? && s[k + 1].analysis.Some? ==>
      ScoreOrZero(s[k]) <= ScoreOrZero(s[k + 1])
  {
    assert !OutOfOrder(CurrentPrice, Asc, nameOrder)(s[k], s[k + 1]);
  }

  /** The component's state (lines 18-24): the user id in use, whether the id form is open,
      the id being typed, and the sort settings. */
  class TrackerState {
    var userId: string
    var isEditingId: bool
    var tempUserId: string
    var sortField: SortField
    var sortDirection: SortDirection

    /** The page leaves the id form only once a user id is set. */
    ghost predicate Valid()
      reads this
    {
      !isEditingId ==> userId != ""
    }

    /** The initial state from the stored cookie ("" when there is none): the form is open
        exactly when no id is stored, and the items are sorted by ascending current price. */
    constructor (cookieUserId: string)
      ensures Valid()
      ensures userId == cookieUserId && tempUserId == cookieUserId
      ensures isEditingId == (cookieUserId == "")
      ensures sortField == CurrentPrice && sortDirection == Asc
    {
      userId := cookieUserId;
      isEditingId := cookieUserId == "";
      tempUserId := cookieUserId;
      sortField := CurrentPrice;
      sortDirection := Asc;
    }

    /** `toggleSort`: the same field flips the direction; another field is selected in
        ascending order. */
    method ToggleSort(field: SortField)
      requires Valid()
      modifies this
      ensures Valid()
      ensures sortField == field
      ensures old(sortField) == field ==> sortDirection == (if old(sortDirection) == Asc then Desc else Asc)
      ensures old(sortField) != field ==> sortDirection == Asc
      ensures userId == old(userId) && isEditingId == old(isEditingId) && tempUserId == old(tempUserId)
    {
      if sortField == field {
        sortDirection := if sortDirection == Asc then Desc else Asc;
      } else {
        sortField := field;
        sortDirection := Asc;
      }
    }

    /** Typing in the id field (line 148). */
    method SetTempUserId(typed: string)
      requires Valid()
      modifies this
      ensures Valid()
      ensures tempUserId == typed
      ensures userId == old(userId) && isEditingId == old(isEditingId)
      ensures sortField == old(sortField) && sortDirection == old(sortDirection)
    {
      tempUserId := typed;
    }

    /** `handleUpdateUserId`: an empty typed id changes nothing; otherwise it becomes the id
        in use and the form closes. */
    method HandleUpdateUserId()
      requires Valid()
      modifies this
      ensures Valid()
      ensures old(tempUserId) == "" ==>
        userId == old(userId) && isEditingId == old(isEditingId)
      ensures old(tempUserId) != "" ==> userId == old(tempUserId) && !isEditingId
      ensures tempUserId == old(tempUserId)
      ensures sortField == old(sortField) && sortDirection == old(sortDirection)
    {
      if tempUserId == "" {
        return;
      }
      userId := tempUserId;
      isEditingId := false;
    }

    /** `handleEditUserId`: the form opens with the id in use. */
    method HandleEditUserId()
      requires Valid()
      modifies this
      ensures Valid()
      ensures tempUserId == old(userId) && isEditingId
      ensures userId == old(userId)
      ensures sortField == old(sortField) && sortDirection == old(sortDirection)
    {
      tempUserId := userId;
      isEditingId := true;
    }
  }
}
