/**
 * Pagination arithmetic and the query-string helper of the catalog's
 * utilities (dor/utils.py).
 */
module Utils {
  import opened Wrappers
  import opened Text
  import Seqs

  /** The value `previous_offset` and `next_offset` hold when there is no such page. */
  const NoOffset: int := -1

  /** `math.ceil(total_items / limit)` for a positive limit, computed exactly. */
  function CeilDiv(totalItems: int, limit: int): (r: int)
    requires limit > 0
    ensures (r - 1) * limit < totalItems <= r * limit
  {
    var q := (totalItems + limit - 1) / limit;
    assert q * limit + (totalItems + limit - 1) % limit == totalItems + limit - 1;
    q
  }

  /** `int(a / b)` for a positive `b`: the quotient truncated toward zero. */
  function TruncDiv(a: int, b: int): (r: int)
    requires b > 0
    ensures a >= 0 ==> 0 <= a - r * b < b
    ensures a < 0 ==> -b < a - r * b <= 0
  {
    if a >= 0 then a / b else -((-a) / b)
  }

  lemma MulMonotonic(a: int, b: int, l: int)
    requires a <= b && l > 0
    ensures a * l <= b * l
  {
    assert b * l - a * l == (b - a) * l;
  }

  /** A number lies in at most one of the blocks `((r - 1) * l, r * l]`, or `[(r - 1) * l, r * l)`. */
  lemma BlockUnique(x: int, l: int, r: int, s: int)
    requires l > 0
    requires ((r - 1) * l < x <= r * l && (s - 1) * l < x <= s * l)
          || ((r - 1) * l <= x < r * l && (s - 1) * l <= x < s * l)
    ensures r == s
  {
    if r < s { MulMonotonic(r, s - 1, l); }
    if s < r { MulMonotonic(s, r - 1, l); }
  }

  /** With a positive limit and a count that is not negative, more items than fit one page means more than one page. */
  lemma SeveralPages(totalItems: int, limit: int, totalPages: int)
    ensures limit > 0 && totalItems >= 0 && totalPages == CeilDiv(totalItems, limit) ==>
              (limit < totalItems <==> totalPages > 1)
  {
    if limit > 0 && totalItems >= 0 && totalPages == CeilDiv(totalItems, limit) {
      if limit < totalItems && totalPages <= 1 { MulMonotonic(totalPages, 1, limit); }
      if totalPages > 1 && limit >= totalItems { MulMonotonic(1, totalPages - 1, limit); }
    }
  }

  /** A page of query results with the navigation values derived from its position. */
  class Page<T> {
    var totalItems: int
    var totalPages: int
    var offset: int
    var limit: int
    var nextOffset: int
    var previousOffset: int
    var items: seq<T>

    /** The derived fields agree with `total_items`, `offset` and `limit`. */
    ghost predicate Valid()
      reads this
    {
      && limit > 0
      && totalPages == CeilDiv(totalItems, limit)
      && previousOffset == (if offset - limit >= 0 then offset - limit else NoOffset)
      && nextOffset == (if offset + limit < totalItems then offset + limit else NoOffset)
    }

    /**
     * `Page(total_items=..., offset=..., limit=..., items=...)`: the remaining
     * fields start at their defaults (-1) and `__post_init__` derives them.
     */
    constructor (totalItems: int, offset: int, limit: int, items: seq<T>)
      requires limit > 0
      ensures this.totalItems == totalItems && this.offset == offset
      ensures this.limit == limit && this.items == items
      ensures Valid()
    {
      this.totalItems := totalItems;
      this.totalPages := -1;
      this.offset := offset;
      this.limit := limit;
      this.nextOffset := NoOffset;
      this.previousOffset := NoOffset;
      this.items := items;
      new;
      UpdateTotals();
    }

    /**
     * `_update_totals`: recomputes the page count, and sets each neighbouring
     * offset only when that page exists; otherwise the field keeps its value.
     */
    method UpdateTotals()
      requires limit > 0
      modifies this
      ensures totalItems == old(totalItems) && offset == old(offset)
      ensures limit == old(limit) && items == old(items)
      ensures totalPages == CeilDiv(totalItems, limit)
      ensures previousOffset == if offset - limit >= 0 then offset - limit else old(previousOffset)
      ensures nextOffset == if offset + limit < totalItems then offset + limit else old(nextOffset)
    {
      totalPages := CeilDiv(totalItems, limit);
      if offset - limit >= 0 {
        previousOffset := offset - limit;
      }
      if offset + limit < totalItems {
        nextOffset := offset + limit;
      }
    }

    /** `is_useful`: there is more than one page, so navigation is worth showing. */
    function IsUseful(): (r: bool)
      reads this
      ensures Valid() && totalItems >= 0 ==> (r <==> totalPages > 1)
      ensures Valid() && offset == 0 ==> (r <==> nextOffset != NoOffset)
    {
      SeveralPages(totalItems, limit, totalPages);
      limit < totalItems
    }

    /** `index`: the 1-based number of the page that begins at `offset`. */
    function Index(): (r: int)
      reads this
      requires limit > 0
      ensures offset >= 0 ==> r >= 1 && (r - 1) * limit <= offset < r * limit
    {
      TruncDiv(offset + limit, limit)
    }

    /** `range`: the text "<first>-<last>" of the 1-based positions this page shows. */
    function Range(): (r: string)
      reads this
      ensures 0 <= offset && 0 <= totalItems && 0 <= limit ==>
                ParseRange(r).Some? && ParseRange(r).value.0 == offset + 1
                && ParseRange(r).value.1 <= totalItems
      ensures 0 <= offset && 0 <= totalItems && 0 <= limit ==>
                ParseRange(r).Some? && ParseRange(r).value.1 == Seqs.Min(offset + limit, totalItems)
      ensures 0 <= offset && 0 <= totalItems && 0 <= limit ==>
                ParseRange(r).Some?
                && Show(ParseRange(r).value.0) + "-" + Show(ParseRange(r).value.1) == r
      ensures 0 <= offset < totalItems && limit > 0 ==>
                ParseRange(r).Some?
                && ParseRange(r).value.1 - ParseRange(r).value.0 + 1 == Seqs.Min(limit, totalItems - offset)
    {
      var first := offset + 1;
      var last := if offset + limit > totalItems then totalItems else offset + limit;
      ParseRangeOfShow(first, last);
      Show(first) + "-" + Show(last)
    }
  }

  /** Reads "<a>-<b>" back into the two numbers, when both are plain decimals. */
  function ParseRange(s: string): Option<(nat, nat)>
  {
    var parts := Split(s, '-');
    if |parts| == 2 && IsDecimal(parts[0]) && IsDecimal(parts[1])
    then Some((ParseDecimal(parts[0]), ParseDecimal(parts[1])))
    else None
  }

  lemma ParseRangeOfShow(a: int, b: int)
    ensures a >= 0 && b >= 0 ==> ParseRange(Show(a) + "-" + Show(b)) == Some((a, b))
  {
    if a < 0 || b < 0 { return; }
    var da, db := DecimalString(a), DecimalString(b);
    assert forall i | 0 <= i < |da| :: da[i] != '-';
    assert forall i | 0 <= i < |db| :: db[i] != '-';
    assert Join([da, db], '-') == da + "-" + db;
    SplitJoin([da, db], '-');
    ParseDecimalString(a);
    ParseDecimalString(b);
  }

  /**
   * The neighbouring offsets are real positions in the result: each is either
   * the "none" value or an index in `[0, total_items)`, so the two cannot be confused.
   */
  lemma OffsetsInRange<T>(p: Page<T>)
    requires p.Valid() && 0 <= p.offset <= p.totalItems
    ensures p.previousOffset == NoOffset || 0 <= p.previousOffset < p.totalItems
    ensures p.nextOffset == NoOffset || 0 <= p.nextOffset < p.totalItems
  {
  }

  /**
   * Following `next_offset` and then `previous_offset` comes back to the same
   * page, and the page number goes up by one.
   */
  lemma NextThenPrevious<T>(p: Page<T>, q: Page<T>)
    requires p.Valid() && q.Valid() && p.offset >= 0
    requires p.nextOffset != NoOffset && q.offset == p.nextOffset
    requires q.limit == p.limit && q.totalItems == p.totalItems
    ensures q.previousOffset == p.offset
    ensures q.Index() == p.Index() + 1
  {
    var l := p.limit;
    assert q.offset == p.offset + l;
    var i, j := p.Index(), q.Index();
    assert (j - 1) * l <= p.offset + l < j * l;
    assert (j - 1) * l == (j - 2) * l + l;
    assert j * l == (j - 1) * l + l;
    BlockUnique(p.offset, l, i, j - 1);
  }

  /**
   * The previous offset tests/test_utils.py expects: the page before `offset`
   * starts `limit` items earlier, or at 0 when fewer than `limit` items precede it.
   */
  function ClampedPreviousOffset(offset: int, limit: int): (r: int)
    requires limit > 0
    ensures offset <= 0 ==> r == NoOffset
    ensures offset > 0 ==> 0 <= r <= offset - 1 < r + limit
    ensures offset > 0 ==> r == 0 || r == offset - limit
  {
    if offset - limit >= 0 then offset - limit
    else if offset > 0 then 0
    else NoOffset
  }

  /**
   * As written, a page that starts inside the first `limit` items but not at 0
   * gets no previous offset, although items precede it.
   */
  lemma PreviousOffsetMissedNearStart<T>(p: Page<T>)
    requires p.Valid() && 0 < p.offset < p.limit
    ensures p.previousOffset == NoOffset
    ensures ClampedPreviousOffset(p.offset, p.limit) == 0
  {
  }

  /** `remove_parameter`: the query parameters without `key`. */
  function RemoveParameter(params: map<string, string>, key: string): (r: map<string, string>)
    ensures r.Keys == params.Keys - {key}
    ensures forall k :: k in r ==> r[k] == params[k]
  {
    map k | k in params && k != key :: params[k]
  }

  /** Removing a key that is not there changes nothing; removing it twice is removing it once. */
  lemma RemoveParameterAbsent(params: map<string, string>, key: string)
    ensures key !in params ==> RemoveParameter(params, key) == params
    ensures RemoveParameter(RemoveParameter(params, key), key) == RemoveParameter(params, key)
  {
  }

  /** The example of tests/test_utils.py: the filter parameters minus `alt_identifier`. */
  lemma RemoveParameterExample()
    ensures RemoveParameter(map["object_type" := "types:monograph",
                                "alt_identifier" := "amjewess:",
                                "collection_alt_identifier" := "amjewess"], "alt_identifier")
            == map["object_type" := "types:monograph", "collection_alt_identifier" := "amjewess"]
  {
  }

  /** The pages of tests/test_utils.py over eight items with two per page. */
  method PageExamples()
  {
    var items := [0, 1, 2, 3, 4, 5, 6, 7];
    var first := new Page(|items|, 0, 2, items[0..2]);
    assert first.totalPages == 4 by { assert 3 * 2 < 8 <= 4 * 2; }
    assert first.previousOffset == -1 && first.nextOffset == 2;
    var middle := new Page(|items|, 4, 2, items[4..6]);
    assert middle.previousOffset == 2 && middle.nextOffset == 6;
    // tests/test_utils.py expects 0 here; the code leaves the default
    var near := new Page(|items|, 1, 2, items[1..3]);
    assert near.previousOffset == -1 && near.nextOffset == 3;
    var last := new Page(|items|, 7, 2, items[7..]);
    assert last.previousOffset == 5 && last.nextOffset == -1;
  }
}
