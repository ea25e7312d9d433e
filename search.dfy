/**
 * The inclusive binary search over a range table. It is generic over the address
 * width: addresses are naturals, and `rangeAt(mid)` fetches the bounds of range
 * `mid`, the start of record `mid` and the start of record `mid + 1`.
 */
module RangeSearch {
  import opened Results

  /** Fetches `(ipfrom, ipto)` for a record index, or the error of a failing read. */
  type RangeFetch = nat -> Result<(nat, nat)>

  /**
   * What the search loop computes over the window `[low, high]`: the index of a range
   * with `ipfrom <= ipno < ipto`, None once the window is empty, or an error.
   */
  function Search(rangeAt: RangeFetch, ipno: nat, low: nat, high: nat): Result<Option<nat>>
    decreases high as int + 1 - low
  {
    if low > high then Ok(None)
    else
      var mid := (low + high) / 2;
      var range :- rangeAt(mid);
      if range.0 <= ipno < range.1 then Ok(Some(mid))
      else if ipno < range.0 then
        if mid == 0 then Err(Overflow) else Search(rangeAt, ipno, low, mid - 1)
      else Search(rangeAt, ipno, mid + 1, high)
  }

  /**
   * What the search returns: a found index lies in the window and its range holds the
   * address; an error is the failure of a range read in the window, or the underflow
   * of `mid - 1` below record 0 when the address lies below range 0.
   */
  lemma {:induction false} SearchSound(rangeAt: RangeFetch, ipno: nat, low: nat, high: nat)
    ensures var r := Search(rangeAt, ipno, low, high);
      r.Ok? && r.value.Some? ==>
        low <= r.value.value <= high && rangeAt(r.value.value).Ok?
        && rangeAt(r.value.value).value.0 <= ipno < rangeAt(r.value.value).value.1
    ensures var r := Search(rangeAt, ipno, low, high);
      r.Err? ==>
        (exists i :: low <= i <= high && rangeAt(i) == Err(r.error))
        || (r.error == Overflow && low == 0 && rangeAt(0).Ok? && ipno < rangeAt(0).value.0)
    decreases high as int + 1 - low
  {
    if low <= high {
      var mid := (low + high) / 2;
      if rangeAt(mid).Ok? {
        var range := rangeAt(mid).value;
        if range.0 <= ipno < range.1 {
        } else if ipno < range.0 {
          if mid > 0 {
            SearchSound(rangeAt, ipno, low, mid - 1);
          }
        } else {
          SearchSound(rangeAt, ipno, mid + 1, high);
        }
      }
    }
  }

  /** The source's `while low <= high` loop; `mid - 1` at `mid == 0` is reported as Overflow. */
  method BinarySearch(low: nat, high: nat, ipno: nat, rangeAt: RangeFetch) returns (r: Result<Option<nat>>)
    ensures r == Search(rangeAt, ipno, low, high)
  {
    var lo, hi := low, high;
    while lo <= hi
      invariant Search(rangeAt, ipno, lo, hi) == Search(rangeAt, ipno, low, high)
      decreases hi as int + 1 - lo
    {
      var mid := (lo + hi) / 2;
      var range :- rangeAt(mid);
      var (ipfrom, ipto) := range;
      if ipfrom <= ipno && ipno < ipto {
        return Ok(Some(mid));
      } else if ipno < ipfrom {
        if mid == 0 {
          return Err(Overflow);
        }
        hi := mid - 1;
      } else {
        lo := mid + 1;
      }
    }
    return Ok(None);
  }

  /** Range starts in ascending order, one more than there are ranges (the sentinel record). */
  ghost predicate Sorted(starts: seq<nat>)
  {
    forall i, j :: 0 <= i <= j < |starts| ==> starts[i] <= starts[j]
  }

  /** Over the window, `rangeAt` reads range i as `[starts[i], starts[i + 1])`. */
  ghost predicate Tabulates(rangeAt: RangeFetch, starts: seq<nat>, low: nat, high: nat)
  {
    high + 1 < |starts|
    && forall i {:trigger rangeAt(i)} :: low <= i <= high ==> rangeAt(i) == Ok((starts[i], starts[i + 1]))
  }

  /** Range i is the half-open interval `[starts[i], starts[i + 1])` and holds ipno. */
  ghost predicate Holds(starts: seq<nat>, i: nat, ipno: nat)
  {
    i + 1 < |starts| && starts[i] <= ipno < starts[i + 1]
  }

  /** In a sorted table at most one range holds an address. */
  lemma HolderIsUnique(starts: seq<nat>, i: nat, j: nat, ipno: nat)
    requires Sorted(starts) && Holds(starts, i, ipno) && Holds(starts, j, ipno)
    ensures i == j
  {
  }

  /** The search finds the range that holds the address whenever it lies in the window. */
  lemma {:induction false} SearchFindsHolder(rangeAt: RangeFetch, starts: seq<nat>, ipno: nat, low: nat, high: nat, i: nat)
    requires Sorted(starts) && Tabulates(rangeAt, starts, low, high)
    requires low <= i <= high && Holds(starts, i, ipno)
    ensures Search(rangeAt, ipno, low, high) == Ok(Some(i))
    decreases high as int + 1 - low
  {
    var mid := (low + high) / 2;
    assert rangeAt(mid) == Ok((starts[mid], starts[mid + 1]));
    if starts[mid] <= ipno < starts[mid + 1] {
      HolderIsUnique(starts, i, mid, ipno);
    } else if ipno < starts[mid] {
      SearchFindsHolder(rangeAt, starts, ipno, low, mid - 1, i);
    } else {
      SearchFindsHolder(rangeAt, starts, ipno, mid + 1, high, i);
    }
  }

  /** Below the first range of a window that starts at record 0, the search steps left until `mid - 1` underflows. */
  lemma {:induction false} SearchBelowFirst(rangeAt: RangeFetch, starts: seq<nat>, ipno: nat, high: nat)
    requires Sorted(starts) && Tabulates(rangeAt, starts, 0, high)
    requires ipno < starts[0]
    ensures Search(rangeAt, ipno, 0, high) == Err(Overflow)
    decreases high
  {
    var mid := high / 2;
    assert rangeAt(mid) == Ok((starts[mid], starts[mid + 1]));
    assert starts[0] <= starts[mid];
    if mid > 0 {
      SearchBelowFirst(rangeAt, starts, ipno, mid - 1);
    }
  }

  /** An address past the window's last range, or below its first range when that is not record 0, is not found. */
  lemma {:induction false} SearchOutside(rangeAt: RangeFetch, starts: seq<nat>, ipno: nat, low: nat, high: nat)
    requires Sorted(starts) && Tabulates(rangeAt, starts, low, high)
    requires low <= high + 1 && (starts[high + 1] <= ipno || (0 < low && ipno < starts[low]))
    ensures Search(rangeAt, ipno, low, high) == Ok(None)
    decreases high as int + 1 - low
  {
    if low <= high {
      var mid := (low + high) / 2;
      assert rangeAt(mid) == Ok((starts[mid], starts[mid + 1]));
      assert starts[low] <= starts[mid] && starts[mid + 1] <= starts[high + 1];
      if ipno < starts[mid] {
        SearchOutside(rangeAt, starts, ipno, low, mid - 1);
      } else {
        SearchOutside(rangeAt, starts, ipno, mid + 1, high);
      }
    }
  }

  /** In a sorted table, an address at or above the start of range `low` and below the end of range `high` lies in one of them. */
  lemma {:induction false} HolderExists(starts: seq<nat>, ipno: nat, low: nat, high: nat) returns (i: nat)
    requires Sorted(starts) && low <= high && high + 1 < |starts|
    requires starts[low] <= ipno < starts[high + 1]
    ensures low <= i <= high && Holds(starts, i, ipno)
    decreases high - low
  {
    if ipno < starts[low + 1] {
      i := low;
    } else {
      i := HolderExists(starts, ipno, low + 1, high);
    }
  }

  /**
   * Range coverage: over a sorted, readable window the search ends, and it returns
   * the one range that holds the address, or no record when the address lies at or
   * above the window's end or below its start, except that below record 0 the source
   * underflows `mid - 1`.
   */
  lemma SearchTotal(rangeAt: RangeFetch, starts: seq<nat>, ipno: nat, low: nat, high: nat)
    requires Sorted(starts) && Tabulates(rangeAt, starts, low, high) && low <= high
    ensures starts[low] <= ipno < starts[high + 1] ==>
              exists i :: low <= i <= high && Holds(starts, i, ipno)
                          && Search(rangeAt, ipno, low, high) == Ok(Some(i))
    ensures starts[high + 1] <= ipno ==> Search(rangeAt, ipno, low, high) == Ok(None)
    ensures ipno < starts[low] ==>
              Search(rangeAt, ipno, low, high) == (if low == 0 then Err(Overflow) else Ok(None))
  {
    var r := Search(rangeAt, ipno, low, high);
    if starts[low] <= ipno < starts[high + 1] {
      var i := HolderExists(starts, ipno, low, high);
      SearchFindsHolder(rangeAt, starts, ipno, low, high, i);
    } else if low == 0 && ipno < starts[low] {
      SearchBelowFirst(rangeAt, starts, ipno, high);
    } else {
      SearchOutside(rangeAt, starts, ipno, low, high);
    }
  }

  /**
   * A table whose first range starts at address 0 never meets the `mid - 1` underflow:
   * searching from record 0 always ends without error, and finds no record exactly when
   * the address lies at or past the end of the last range.
   */
  lemma SearchFromZeroStart(rangeAt: RangeFetch, starts: seq<nat>, ipno: nat, high: nat)
    requires Sorted(starts) && Tabulates(rangeAt, starts, 0, high) && starts[0] == 0
    ensures Search(rangeAt, ipno, 0, high).Ok?
    ensures Search(rangeAt, ipno, 0, high).value.None? <==> starts[high + 1] <= ipno
  {
    SearchTotal(rangeAt, starts, ipno, 0, high);
  }

  /**
   * Index narrowing changes nothing: when the index window `[lo, hi]` inside `[0, count]`
   * contains the range that holds the address, searching it gives the same record
   * as searching the whole table.
   */
  lemma IndexWindowAgrees(rangeAt: RangeFetch, starts: seq<nat>, ipno: nat, count: nat, lo: nat, hi: nat, i: nat)
    requires Sorted(starts) && Tabulates(rangeAt, starts, 0, count)
    requires hi <= count && lo <= i <= hi && Holds(starts, i, ipno)
    ensures Search(rangeAt, ipno, lo, hi) == Search(rangeAt, ipno, 0, count) == Ok(Some(i))
  {
    SearchFindsHolder(rangeAt, starts, ipno, lo, hi, i);
    SearchFindsHolder(rangeAt, starts, ipno, 0, count, i);
  }

  /** Half-open bounds: an address equal to the end of range i is found in range i + 1, never in range i. */
  lemma BoundaryBelongsToNext(rangeAt: RangeFetch, starts: seq<nat>, low: nat, high: nat, i: nat)
    requires Sorted(starts) && Tabulates(rangeAt, starts, low, high)
    requires low <= i && i + 1 <= high && starts[i + 1] < starts[i + 2]
    ensures Search(rangeAt, starts[i + 1], low, high) == Ok(Some(i + 1))
  {
    SearchFindsHolder(rangeAt, starts, starts[i + 1], low, high, i + 1);
  }
}
