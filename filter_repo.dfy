/**
 * FilterRepository (src/storage/repositories/filter_repo.py): the user_filters
 * table as an in-memory sequence of rows, one row per (user, filter type).
 */
module FilterRepo {
  import opened Wrappers

  /** A row of user_filters; the id and the timestamps are not modelled. */
  datatype Row = Row(userId: int, filterType: string, filterValue: string)

  /** The row belongs to user `u` and, when `t` is given, has filter type `t`. */
  predicate Matches(r: Row, u: int, t: Option<string>) {
    r.userId == u && (t.None? || r.filterType == t.value)
  }

  /** At most one row per (user, filter type): what `scalar_one_or_none` relies on. */
  predicate Unique(rows: seq<Row>) {
    forall i, j :: 0 <= i < j < |rows| ==>
      !(rows[i].userId == rows[j].userId && rows[i].filterType == rows[j].filterType)
  }

  /** `get_user_filters`: user `u`'s rows read in table order into a dictionary. */
  function FiltersOf(rows: seq<Row>, u: int): map<string, string>
  {
    if rows == [] then map[]
    else
      var r := rows[|rows| - 1];
      var m := FiltersOf(rows[..|rows| - 1], u);
      if r.userId == u then m[r.filterType := r.filterValue] else m
  }

  /** The first row matching (u, t), if any. */
  function Find(rows: seq<Row>, u: int, t: string): (r: Option<nat>)
    ensures r.None? <==> forall j :: 0 <= j < |rows| ==> !Matches(rows[j], u, Some(t))
    ensures r.Some? ==> r.value < |rows| && Matches(rows[r.value], u, Some(t))
    ensures r.Some? ==> forall j :: 0 <= j < r.value ==> !Matches(rows[j], u, Some(t))
  {
    if rows == [] then None
    else
      var prefix := Find(rows[..|rows| - 1], u, t);
      if prefix.Some? then prefix
      else if Matches(rows[|rows| - 1], u, Some(t)) then Some(|rows| - 1)
      else None
  }

  /** The table after `save_filter(u, t, v)`: the existing row updated in place, or a new row appended. */
  function Saved(rows: seq<Row>, u: int, t: string, v: string): seq<Row>
  {
    match Find(rows, u, t)
    case Some(i) => rows[i := Row(u, t, v)]
    case None => rows + [Row(u, t, v)]
  }

  /** The table after a DELETE of every row matching (u, t): the other rows, in order. */
  function Remove(rows: seq<Row>, u: int, t: Option<string>): (r: seq<Row>)
    ensures forall k :: 0 <= k < |r| ==> r[k] in rows && !Matches(r[k], u, t)
    ensures forall j :: 0 <= j < |rows| && !Matches(rows[j], u, t) ==> rows[j] in r
  {
    if rows == [] then []
    else
      var prefix := Remove(rows[..|rows| - 1], u, t);
      var last := rows[|rows| - 1];
      assert forall x :: x in rows[..|rows| - 1] ==> x in rows;
      if Matches(last, u, t) then prefix else prefix + [last]
  }

  class FilterRepository {
    var rows: seq<Row>

    predicate Valid()
      reads this
    {
      Unique(rows)
    }

    /** A repository over an empty table (the database session is not modelled). */
    constructor ()
      ensures rows == [] && Valid()
    {
      rows := [];
    }

    /** `get_user_filters`: a dictionary built row by row from the user's rows. */
    method GetUserFilters(userId: int) returns (filters: map<string, string>)
      ensures filters == FiltersOf(rows, userId)
      ensures forall t :: t in filters <==> exists i :: 0 <= i < |rows| && Matches(rows[i], userId, Some(t))
    {
      filters := map[];
      var i := 0;
      while i < |rows|
        invariant 0 <= i <= |rows|
        invariant filters == FiltersOf(rows[..i], userId)
      {
        assert rows[..i + 1][..i] == rows[..i];
        if rows[i].userId == userId {
          filters := filters[rows[i].filterType := rows[i].filterValue];
        }
        i := i + 1;
      }
      assert rows[..i] == rows;
      FiltersOfKeys(rows, userId);
    }

    /** `save_filter`: update the (u, t) row when one exists, otherwise add one. */
    method SaveFilter(userId: int, filterType: string, filterValue: string)
      requires Valid()
      modifies this
      ensures Valid()
      ensures rows == Saved(old(rows), userId, filterType, filterValue)
      ensures FiltersOf(rows, userId) == old(FiltersOf(rows, userId))[filterType := filterValue]
      ensures forall w :: w != userId ==> FiltersOf(rows, w) == old(FiltersOf(rows, w))
    {
      var existing := Find(rows, userId, filterType);
      SavedUnique(rows, userId, filterType, filterValue);
      SavedFilters(rows, userId, filterType, filterValue);
      SavedOtherUsers(rows, userId, filterType, filterValue);
      if existing.Some? {
        rows := rows[existing.value := Row(userId, filterType, filterValue)];
      } else {
        rows := rows + [Row(userId, filterType, filterValue)];
      }
    }

    /** `delete_filter`: drop the (u, t) row. */
    method DeleteFilter(userId: int, filterType: string)
      requires Valid()
      modifies this
      ensures Valid()
      ensures rows == Remove(old(rows), userId, Some(filterType))
      ensures FiltersOf(rows, userId) == old(FiltersOf(rows, userId)) - {filterType}
      ensures forall w :: w != userId ==> FiltersOf(rows, w) == old(FiltersOf(rows, w))
    {
      RemoveUnique(rows, userId, Some(filterType));
      RemoveFilter(rows, userId, filterType);
      RemoveOtherUsers(rows, userId, Some(filterType));
      rows := Remove(rows, userId, Some(filterType));
    }

    /** `clear_all_filters`: drop every row of the user. */
    method ClearAllFilters(userId: int)
      requires Valid()
      modifies this
      ensures Valid()
      ensures rows == Remove(old(rows), userId, None)
      ensures FiltersOf(rows, userId) == map[]
      ensures forall w :: w != userId ==> FiltersOf(rows, w) == old(FiltersOf(rows, w))
    {
      RemoveUnique(rows, userId, None);
      RemoveAllFilters(rows, userId);
      RemoveOtherUsers(rows, userId, None);
      rows := Remove(rows, userId, None);
    }
  }

  // ---- get_user_filters ----

  lemma FiltersOfSnoc(rows: seq<Row>, r: Row, u: int)
    ensures FiltersOf(rows + [r], u) == if r.userId == u then FiltersOf(rows, u)[r.filterType := r.filterValue] else FiltersOf(rows, u)
  {
    assert (rows + [r])[..|rows|] == rows;
  }

  /** The dictionary's keys are exactly the filter types of the user's rows. */
  lemma {:induction false} FiltersOfKeys(rows: seq<Row>, u: int)
    ensures forall t :: t in FiltersOf(rows, u) <==> exists i :: 0 <= i < |rows| && Matches(rows[i], u, Some(t))
  {
    if rows != [] {
      var p := rows[..|rows| - 1];
      FiltersOfKeys(p, u);
      forall t ensures t in FiltersOf(rows, u) <==> exists i :: 0 <= i < |rows| && Matches(rows[i], u, Some(t)) {
        if exists i :: 0 <= i < |rows| && Matches(rows[i], u, Some(t)) {
          var i :| 0 <= i < |rows| && Matches(rows[i], u, Some(t));
          if i < |p| { assert p[i] == rows[i]; }
        }
        if exists i :: 0 <= i < |p| && Matches(p[i], u, Some(t)) {
          var i :| 0 <= i < |p| && Matches(p[i], u, Some(t));
          assert rows[i] == p[i];
        }
      }
    }
  }

  /** On a repeated (u, t), the row that comes last in the table decides the value. */
  lemma {:induction false} FiltersOfLaterWins(rows: seq<Row>, u: int, i: nat)
    requires i < |rows| && rows[i].userId == u
    requires forall j :: i < j < |rows| ==> !Matches(rows[j], u, Some(rows[i].filterType))
    ensures rows[i].filterType in FiltersOf(rows, u)
    ensures FiltersOf(rows, u)[rows[i].filterType] == rows[i].filterValue
  {
    if i < |rows| - 1 {
      var p := rows[..|rows| - 1];
      FiltersOfLaterWins(p, u, i);
    }
  }

  /** Another user's rows never show up. */
  lemma FiltersOfOnlyOwnRows(rows: seq<Row>, u: int, r: Row)
    requires r.userId != u
    ensures FiltersOf(rows + [r], u) == FiltersOf(rows, u)
  {
    FiltersOfSnoc(rows, r, u);
  }

  // ---- save_filter ----

  lemma {:induction false} FiltersOfUpdateSame(rows: seq<Row>, i: nat, v: string)
    requires i < |rows|
    requires forall j :: 0 <= j < |rows| && j != i ==> !Matches(rows[j], rows[i].userId, Some(rows[i].filterType))
    ensures FiltersOf(rows[i := Row(rows[i].userId, rows[i].filterType, v)], rows[i].userId)
         == FiltersOf(rows, rows[i].userId)[rows[i].filterType := v]
  {
    var u, t, n := rows[i].userId, rows[i].filterType, |rows|;
    var q := rows[i := Row(u, t, v)];
    var p := rows[..n - 1];
    if i == n - 1 {
      assert q[..n - 1] == p;
    } else {
      assert q[..n - 1] == p[i := Row(u, t, v)];
      FiltersOfUpdateSame(p, i, v);
      var r := rows[n - 1];
      assert q[n - 1] == r;
      if r.userId == u {
        assert r.filterType != t;
      }
    }
  }

  lemma {:induction false} FiltersOfUpdateOther(rows: seq<Row>, i: nat, r: Row, w: int)
    requires i < |rows| && rows[i].userId != w && r.userId != w
    ensures FiltersOf(rows[i := r], w) == FiltersOf(rows, w)
  {
    var n := |rows|;
    var q := rows[i := r];
    var p := rows[..n - 1];
    if i == n - 1 {
      assert q[..n - 1] == p;
    } else {
      assert q[..n - 1] == p[i := r];
      FiltersOfUpdateOther(p, i, r, w);
    }
  }

  /** Saving (u, t, v) sets exactly u's filter t to v. */
  lemma SavedFilters(rows: seq<Row>, u: int, t: string, v: string)
    requires Unique(rows)
    ensures FiltersOf(Saved(rows, u, t, v), u) == FiltersOf(rows, u)[t := v]
  {
    match Find(rows, u, t)
    case Some(i) =>
      FiltersOfUpdateSame(rows, i, v);
    case None =>
      FiltersOfSnoc(rows, Row(u, t, v), u);
  }

  /** After a save, reading the filters back gives the saved value. */
  lemma SavedReadBack(rows: seq<Row>, u: int, t: string, v: string)
    requires Unique(rows)
    ensures t in FiltersOf(Saved(rows, u, t, v), u) && FiltersOf(Saved(rows, u, t, v), u)[t] == v
  {
    SavedFilters(rows, u, t, v);
  }

  /** Saving for one user leaves every other user's filters as they were. */
  lemma SavedOtherUsers(rows: seq<Row>, u: int, t: string, v: string)
    ensures forall w :: w != u ==> FiltersOf(Saved(rows, u, t, v), w) == FiltersOf(rows, w)
  {
    forall w | w != u ensures FiltersOf(Saved(rows, u, t, v), w) == FiltersOf(rows, w) {
      match Find(rows, u, t)
      case Some(i) => FiltersOfUpdateOther(rows, i, Row(u, t, v), w);
      case None => FiltersOfSnoc(rows, Row(u, t, v), w);
    }
  }

  /** Saving keeps at most one row per (user, filter type). */
  lemma SavedUnique(rows: seq<Row>, u: int, t: string, v: string)
    requires Unique(rows)
    ensures Unique(Saved(rows, u, t, v))
  {
    var s := Saved(rows, u, t, v);
    match Find(rows, u, t)
    case Some(i) =>
      assert forall k :: 0 <= k < |s| ==> s[k].userId == rows[k].userId && s[k].filterType == rows[k].filterType;
    case None =>
      assert forall k :: 0 <= k < |rows| ==> s[k] == rows[k];
  }

  /** Every row for another user or another filter type stays where it was, and at most one row is added. */
  lemma SavedKeepsOtherRows(rows: seq<Row>, u: int, t: string, v: string)
    ensures |Saved(rows, u, t, v)| == |rows| + (if Find(rows, u, t).None? then 1 else 0)
    ensures forall j :: 0 <= j < |rows| && !Matches(rows[j], u, Some(t)) ==> Saved(rows, u, t, v)[j] == rows[j]
  {
  }

  /** Saving the same value twice is the same as saving it once. */
  lemma SavedIdempotent(rows: seq<Row>, u: int, t: string, v: string)
    ensures Saved(Saved(rows, u, t, v), u, t, v) == Saved(rows, u, t, v)
  {
    var s := Saved(rows, u, t, v);
    match Find(rows, u, t)
    case Some(i) =>
      assert forall j :: 0 <= j < |s| ==> (Matches(s[j], u, Some(t)) <==> Matches(rows[j], u, Some(t)));
      assert Find(s, u, t) == Some(i);
    case None =>
      assert Find(s, u, t) == Some(|rows|);
  }

  // ---- delete_filter and clear_all_filters ----

  lemma RemoveSnoc(rows: seq<Row>, r: Row, u: int, t: Option<string>)
    ensures Remove(rows + [r], u, t) == if Matches(r, u, t) then Remove(rows, u, t) else Remove(rows, u, t) + [r]
  {
    assert (rows + [r])[..|rows|] == rows;
  }

  /** Deleting (u, t) removes exactly key t from u's filters. */
  lemma {:induction false} RemoveFilter(rows: seq<Row>, u: int, t: string)
    ensures FiltersOf(Remove(rows, u, Some(t)), u) == FiltersOf(rows, u) - {t}
  {
    if rows != [] {
      var p, r := rows[..|rows| - 1], rows[|rows| - 1];
      assert rows == p + [r];
      var m := FiltersOf(p, u);
      RemoveFilter(p, u, t);
      RemoveSnoc(p, r, u, Some(t));
      FiltersOfSnoc(p, r, u);
      if Matches(r, u, Some(t)) {
        MapUpdateRemove(m, t, r.filterValue);
      } else {
        FiltersOfSnoc(Remove(p, u, Some(t)), r, u);
        if r.userId == u {
          MapRemoveUpdate(m, t, r.filterType, r.filterValue);
        }
      }
    }
  }

  lemma MapUpdateRemove(m: map<string, string>, t: string, v: string)
    ensures m[t := v] - {t} == m - {t}
  {
  }

  lemma MapRemoveUpdate(m: map<string, string>, t: string, k: string, v: string)
    requires k != t
    ensures (m - {t})[k := v] == m[k := v] - {t}
  {
  }

  /** After clearing, the user has no filters left. */
  lemma {:induction false} RemoveAllFilters(rows: seq<Row>, u: int)
    ensures FiltersOf(Remove(rows, u, None), u) == map[]
  {
    if rows != [] {
      var p, r := rows[..|rows| - 1], rows[|rows| - 1];
      assert rows == p + [r];
      RemoveAllFilters(p, u);
      RemoveSnoc(p, r, u, None);
      if !Matches(r, u, None) {
        FiltersOfSnoc(Remove(p, u, None), r, u);
      }
    }
  }

  /** Deleting or clearing for user u leaves every other user's filters as they were. */
  lemma {:induction false} RemoveOtherUsers(rows: seq<Row>, u: int, t: Option<string>)
    ensures forall w :: w != u ==> FiltersOf(Remove(rows, u, t), w) == FiltersOf(rows, w)
  {
    if rows != [] {
      var p, r := rows[..|rows| - 1], rows[|rows| - 1];
      assert rows == p + [r];
      RemoveOtherUsers(p, u, t);
      RemoveSnoc(p, r, u, t);
      forall w | w != u ensures FiltersOf(Remove(rows, u, t), w) == FiltersOf(rows, w) {
        FiltersOfSnoc(p, r, w);
        if !Matches(r, u, t) {
          FiltersOfSnoc(Remove(p, u, t), r, w);
        }
      }
    }
  }

  /** Deleting or clearing keeps at most one row per (user, filter type). */
  lemma {:induction false} RemoveUnique(rows: seq<Row>, u: int, t: Option<string>)
    requires Unique(rows)
    ensures Unique(Remove(rows, u, t))
  {
    if rows != [] {
      var p, r := rows[..|rows| - 1], rows[|rows| - 1];
      assert rows == p + [r];
      RemoveUnique(p, u, t);
      RemoveSnoc(p, r, u, t);
      if !Matches(r, u, t) {
        var q := Remove(p, u, t);
        forall k | 0 <= k < |q| ensures !(q[k].userId == r.userId && q[k].filterType == r.filterType) {
          var j :| 0 <= j < |p| && p[j] == q[k];
          assert rows[j] == p[j] && rows[|rows| - 1] == r;
        }
        assert forall k :: 0 <= k < |q| ==> (q + [r])[k] == q[k];
      }
    }
  }

  /** Deleting or clearing a second time changes nothing. */
  lemma {:induction false} RemoveIdempotent(rows: seq<Row>, u: int, t: Option<string>)
    ensures Remove(Remove(rows, u, t), u, t) == Remove(rows, u, t)
  {
    if rows != [] {
      var p, r := rows[..|rows| - 1], rows[|rows| - 1];
      assert rows == p + [r];
      RemoveIdempotent(p, u, t);
      RemoveSnoc(p, r, u, t);
      if !Matches(r, u, t) {
        RemoveSnoc(Remove(p, u, t), r, u, t);
      }
    }
  }
}
