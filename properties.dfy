/**
 * Properties of the meal-log store operations, stated over the
 * specification functions that the MealPlanStore methods are proved against.
 */
module Properties {
  import opened Wrappers
  import opened Schemas
  import opened Services

  // ---------------------------------------------------------------------
  // Upsert
  // ---------------------------------------------------------------------

  /**
   * Logging the same key twice, with quantities q1 and q2, accumulates:
   * there is one row of the key more than before at most, and its quantity
   * has grown by q1 + q2; every other row is as it was.
   */
  lemma {:induction false} UpsertTwiceAccumulates(rows: seq<MealPlan>, nextId: int, c1: MealPlanCreate, c2: MealPlanCreate)
    requires RequestKey(c1) == RequestKey(c2)
    ensures var r2 := Upserted(Upserted(rows, nextId, c1), NextIdAfter(rows, nextId, c1), c2);
      match FirstMatch(rows, c1)
      case Some(i) => r2 == rows[i := rows[i].(quantity := rows[i].quantity + c1.quantity + c2.quantity)]
      case None => r2 == rows + [NewRow(c1, nextId).(quantity := c1.quantity + c2.quantity)]
  {
    var r1 := Upserted(rows, nextId, c1);
    var r2 := Upserted(r1, NextIdAfter(rows, nextId, c1), c2);
    match FirstMatch(rows, c1)
    case Some(i) =>
      assert forall j :: 0 <= j < i ==> r1[j] == rows[j];
      assert RowKey(r1[i]) == RequestKey(c2);
      assert FirstMatch(r1, c2) == Some(i);
      assert r2 == rows[i := rows[i].(quantity := rows[i].quantity + c1.quantity + c2.quantity)];
    case None =>
      assert forall j :: 0 <= j < |rows| ==> r1[j] == rows[j];
      assert RowKey(r1[|rows|]) == RequestKey(c2);
      assert FirstMatch(r1, c2) == Some(|rows|);
      assert r1 == rows + [NewRow(c1, nextId)];
      assert r2 == rows + [NewRow(c1, nextId).(quantity := c1.quantity + c2.quantity)];
  }

  /** At most one row per merge key. */
  ghost predicate KeysUnique(rows: seq<MealPlan>)
  {
    forall i, j :: 0 <= i < j < |rows| ==> RowKey(rows[i]) != RowKey(rows[j])
  }

  /** The upsert keeps the table free of duplicate merge keys. */
  lemma UpsertKeepsKeysUnique(rows: seq<MealPlan>, nextId: int, c: MealPlanCreate)
    requires KeysUnique(rows)
    ensures KeysUnique(Upserted(rows, nextId, c))
  {
  }

  /** An upsert for one user leaves every other user's rows as they were. */
  lemma {:induction false} UpsertKeepsOtherUsers(rows: seq<MealPlan>, nextId: int, c: MealPlanCreate, username: string)
    requires username != c.username
    ensures RowsOf(Upserted(rows, nextId, c), username) == RowsOf(rows, username)
  {
    match FirstMatch(rows, c)
    case Some(i) =>
      RowsOfUpdateOther(rows, i, rows[i].(quantity := rows[i].quantity + c.quantity), username);
    case None =>
      var r := rows + [NewRow(c, nextId)];
      assert r[..|rows|] == rows;
      assert RowsOf(r, username) == RowsOf(rows, username);
  }

  /** Overwriting a row that belongs to neither the old nor the new owner `username` leaves that user's rows alone. */
  lemma {:induction false} RowsOfUpdateOther(rows: seq<MealPlan>, i: nat, p: MealPlan, username: string)
    requires i < |rows| && rows[i].username != username && p.username != username
    ensures RowsOf(rows[i := p], username) == RowsOf(rows, username)
  {
    var n := |rows| - 1;
    var s := rows[i := p];
    if i < n {
      assert s[..n] == rows[..n][i := p];
      RowsOfUpdateOther(rows[..n], i, p, username);
    } else {
      assert s[..n] == rows[..n];
    }
  }

  // ---------------------------------------------------------------------
  // Grouped view
  // ---------------------------------------------------------------------

  /** The dates of the grouped view are exactly the dates of the user's rows. */
  lemma GroupedKeys(rows: seq<MealPlan>, username: string, d: Date)
    ensures d in Grouped(rows, username) <==>
            exists i :: 0 <= i < |rows| && rows[i].username == username && rows[i].currentDate == d
  {
  }

  /**
   * Every date of the grouped view carries exactly the canonical meal types,
   * in canonical order, so the sort by MEAL_TYPE_ORDER rank leaves it as it is.
   */
  lemma GroupedDayShape(rows: seq<MealPlan>, username: string, d: Date)
    requires d in Grouped(rows, username)
    ensures |Grouped(rows, username)[d]| == 4
    ensures forall k :: 0 <= k < 4 ==> Grouped(rows, username)[d][k].mealType == MealTypeOrder[k]
    ensures forall j, k :: 0 <= j < k < 4 ==>
      MealTypeRank(Grouped(rows, username)[d][j].mealType) < MealTypeRank(Grouped(rows, username)[d][k].mealType)
  {
  }

  /** A group holds the projection of a row exactly when some row of that group projects to it. */
  lemma {:induction false} ItemsForMembers(rows: seq<MealPlan>, username: string, date: Date, mealType: string, x: MealItem)
    ensures x in ItemsFor(rows, username, date, mealType) <==>
            exists i :: 0 <= i < |rows| && InGroup(rows[i], username, date, mealType) && Project(rows[i]) == x
  {
    if rows != [] {
      var n := |rows| - 1;
      ItemsForMembers(rows[..n], username, date, mealType, x);
      if x in ItemsFor(rows, username, date, mealType) && x !in ItemsFor(rows[..n], username, date, mealType) {
        assert InGroup(rows[n], username, date, mealType) && Project(rows[n]) == x;
      }
      if exists i :: 0 <= i < |rows| && InGroup(rows[i], username, date, mealType) && Project(rows[i]) == x {
        var i :| 0 <= i < |rows| && InGroup(rows[i], username, date, mealType) && Project(rows[i]) == x;
        if i < n {
          assert rows[..n][i] == rows[i];
        }
      }
    }
  }

  /** Groups keep table order: the group of a concatenation is the concatenation of the groups. */
  lemma {:induction false} ItemsForConcat(a: seq<MealPlan>, b: seq<MealPlan>, username: string, date: Date, mealType: string)
    ensures ItemsFor(a + b, username, date, mealType) ==
            ItemsFor(a, username, date, mealType) + ItemsFor(b, username, date, mealType)
  {
    if b == [] {
      assert a + b == a;
    } else {
      var n := |b| - 1;
      assert (a + b)[..|a| + n] == a + b[..n];
      ItemsForConcat(a, b[..n], username, date, mealType);
    }
  }

  /** Appending one row to the table appends it to the user's query exactly when it is the user's. */
  lemma RowsOfSnoc(rows: seq<MealPlan>, p: MealPlan, username: string)
    ensures RowsOf(rows + [p], username) == RowsOf(rows, username) + (if p.username == username then [p] else [])
  {
    assert (rows + [p])[..|rows|] == rows;
  }

  /** The user's query keeps table order: the rows of a concatenation are the concatenation of the rows. */
  lemma {:induction false} RowsOfConcat(a: seq<MealPlan>, b: seq<MealPlan>, username: string)
    ensures RowsOf(a + b, username) == RowsOf(a, username) + RowsOf(b, username)
  {
    if b == [] {
      assert a + b == a;
    } else {
      var n := |b| - 1;
      var x := b[n];
      assert b[..n] + [x] == b;
      assert a + b == (a + b[..n]) + [x];
      RowsOfConcat(a, b[..n], username);
      RowsOfSnoc(a + b[..n], x, username);
      RowsOfSnoc(b[..n], x, username);
    }
  }

  /** Filtering on the user first does not change any group. */
  lemma {:induction false} ItemsForRowsOf(rows: seq<MealPlan>, username: string, date: Date, mealType: string)
    ensures ItemsFor(RowsOf(rows, username), username, date, mealType) == ItemsFor(rows, username, date, mealType)
  {
    if rows != [] {
      var n := |rows| - 1;
      ItemsForRowsOf(rows[..n], username, date, mealType);
      var p := rows[n];
      if p.username == username {
        ItemsForSnoc(RowsOf(rows[..n], username), p, username, date, mealType);
      } else {
        assert RowsOf(rows, username) == RowsOf(rows[..n], username);
      }
    }
  }

  /** Rows of other usernames contribute nothing: the view of the user's own rows is the same view. */
  lemma GroupedIgnoresOtherUsers(rows: seq<MealPlan>, username: string)
    ensures Grouped(RowsOf(rows, username), username) == Grouped(rows, username)
  {
    var own := RowsOf(rows, username);
    forall d | d in DatesOf(rows, username)
      ensures d in DatesOf(own, username)
    {
      var i :| 0 <= i < |rows| && rows[i].username == username && rows[i].currentDate == d;
      assert rows[i] in own;
      var j :| 0 <= j < |own| && own[j] == rows[i];
    }
    forall d | d in DatesOf(own, username)
      ensures d in DatesOf(rows, username)
    {
      var j :| 0 <= j < |own| && own[j].username == username && own[j].currentDate == d;
      assert own[j] in rows;
      var i :| 0 <= i < |rows| && rows[i] == own[j];
    }
    assert DatesOf(own, username) == DatesOf(rows, username);
    forall d | d in DatesOf(rows, username)
      ensures DaySlots(own, username, d) == DaySlots(rows, username, d)
    {
      forall k | 0 <= k < |MealTypeOrder| {
        ItemsForRowsOf(rows, username, d, MealTypeOrder[k]);
      }
    }
  }

  /** The four empty slots of a date that has rows but none of a canonical meal type. */
  function EmptyDay(): (r: seq<MealSlot>)
    ensures |r| == 4 && forall k :: 0 <= k < 4 ==> r[k] == MealSlot(MealTypeOrder[k], [])
  {
    [MealSlot("breakfast", []), MealSlot("lunch", []), MealSlot("dinner", []), MealSlot("snack", [])]
  }

  /**
   * A row whose meal type is not canonical appears in no list: it leaves every
   * existing date's slots as they were, and its own date still appears, with
   * four empty lists when the user had nothing else on that date.
   */
  lemma {:induction false} NonCanonicalRowDropped(rows: seq<MealPlan>, p: MealPlan, username: string)
    requires p.username == username && p.mealType !in MealTypeOrder
    ensures Grouped(rows + [p], username).Keys == Grouped(rows, username).Keys + {p.currentDate}
    ensures forall d :: d in Grouped(rows, username) ==> Grouped(rows + [p], username)[d] == Grouped(rows, username)[d]
    ensures p.currentDate !in Grouped(rows, username) ==> Grouped(rows + [p], username)[p.currentDate] == EmptyDay()
  {
    DatesOfSnoc(rows, p, username);
    forall d, k | 0 <= k < |MealTypeOrder|
      ensures ItemsFor(rows + [p], username, d, MealTypeOrder[k]) == ItemsFor(rows, username, d, MealTypeOrder[k])
    {
      ItemsForSnoc(rows, p, username, d, MealTypeOrder[k]);
    }
    forall d ensures DaySlots(rows + [p], username, d) == DaySlots(rows, username, d) {
    }
    if p.currentDate !in DatesOf(rows, username) {
      forall k | 0 <= k < |MealTypeOrder| {
        ItemsForAbsentDate(rows, username, p.currentDate, MealTypeOrder[k]);
      }
      assert DaySlots(rows, username, p.currentDate) == EmptyDay();
    }
  }

  // ---------------------------------------------------------------------
  // Partial update
  // ---------------------------------------------------------------------

  /** The update with no field supplied. */
  function NoChanges(): MealPlanUpdate
  {
    MealPlanUpdate(None, None, None, None, None)
  }

  /**
   * Only supplied fields are overwritten, each with the supplied value; id
   * and username are never touched.
   */
  lemma PatchedFields(p: MealPlan, u: MealPlanUpdate)
    ensures Patched(p, u).id == p.id && Patched(p, u).username == p.username
    ensures Patched(p, u).mealType == (if u.mealType.Some? then u.mealType.value else p.mealType)
    ensures Patched(p, u).descKor == (if u.descKor.Some? then u.descKor.value else p.descKor)
    ensures Patched(p, u).quantity == (if u.quantity.Some? then u.quantity.value else p.quantity)
    ensures Patched(p, u).nutrients == (if u.nutrients.Some? then u.nutrients.value else p.nutrients)
    ensures Patched(p, u).currentDate == (if u.currentDate.Some? then u.currentDate.value else p.currentDate)
  {
  }

  /** Updating with nothing supplied is the identity, and applying the same update twice is applying it once. */
  lemma PatchedIdempotent(p: MealPlan, u: MealPlanUpdate)
    ensures Patched(p, NoChanges()) == p
    ensures Patched(Patched(p, u), u) == Patched(p, u)
  {
  }

  /** The updated row is still the one found under its id. */
  lemma {:induction false} UpdateKeepsId(rows: seq<MealPlan>, id: int, u: MealPlanUpdate)
    requires IndexOfId(rows, id).Some?
    ensures var i := IndexOfId(rows, id).value;
      IndexOfId(rows[i := Patched(rows[i], u)], id) == Some(i)
  {
    var i := IndexOfId(rows, id).value;
    var s := rows[i := Patched(rows[i], u)];
    assert forall j :: 0 <= j < i ==> s[j] == rows[j];
    assert s[i].id == id;
  }

  /**
   * Unlike the upsert, a partial update does not merge: overwriting the
   * description of one of two rows with the other's gives two rows of one key.
   */
  lemma UpdateCanDuplicateKeys(d: Date)
    ensures var rows := [MealPlan(1, "u", "lunch", "a", 1, map[], d), MealPlan(2, "u", "lunch", "b", 1, map[], d)];
      var u := MealPlanUpdate(None, Some("a"), None, None, None);
      KeysUnique(rows) && !KeysUnique(rows[1 := Patched(rows[1], u)])
  {
    var rows := [MealPlan(1, "u", "lunch", "a", 1, map[], d), MealPlan(2, "u", "lunch", "b", 1, map[], d)];
    var s := rows[1 := Patched(rows[1], MealPlanUpdate(None, Some("a"), None, None, None))];
    assert RowKey(s[0]) == RowKey(s[1]);
  }

  // ---------------------------------------------------------------------
  // Delete
  // ---------------------------------------------------------------------

  /**
   * With unique ids, deleting by id removes exactly the row with that id:
   * one row fewer, no row with that id is left, every other row remains, and
   * a second delete of the same id finds nothing.
   */
  lemma {:induction false} DeleteRemovesExactlyThatRow(rows: seq<MealPlan>, id: int)
    requires IdsUnique(rows) && IndexOfId(rows, id).Some?
    ensures var r := Removed(rows, IndexOfId(rows, id).value);
      && |r| == |rows| - 1
      && IndexOfId(r, id).None?
      && (forall p :: p in r <==> p in rows && p.id != id)
      && multiset(r) + multiset{rows[IndexOfId(rows, id).value]} == multiset(rows)
  {
    var i := IndexOfId(rows, id).value;
    var r := Removed(rows, i);
    forall j | 0 <= j < |r|
      ensures r[j].id != id
    {
      if j >= i {
        assert r[j] == rows[j + 1];
      }
    }
    forall p | p in rows && p.id != id
      ensures p in r
    {
      var k :| 0 <= k < |rows| && rows[k] == p;
      if k < i {
        assert r[k] == p;
      } else {
        assert k != i;
        assert r[k - 1] == p;
      }
    }
    assert rows == rows[..i] + [rows[i]] + rows[i + 1..];
  }

  // ---------------------------------------------------------------------
  // A client of the store
  // ---------------------------------------------------------------------

  /** Logging quantity 1 and then quantity 2 of the same meal leaves one row, of quantity 3. */
  method LogTwiceLeavesOneRow(username: string, today: Date)
  {
    var store := new MealPlanStore();
    var first := NewMealPlanCreate("lunch", username, "bibimbap", 1, map[], None, today);
    var second := NewMealPlanCreate("lunch", username, "bibimbap", 2, map[], Some(today), today);
    var saved := store.CreateOrUpdateMealPlan(first);
    assert saved.id == 1 && store.rows == [saved];
    saved := store.CreateOrUpdateMealPlan(second);
    assert FirstMatch([NewRow(first, 1)], second) == Some(0);
    assert |store.rows| == 1 && saved.quantity == 3 && saved.id == 1;
    var deleted := store.DeleteMealPlan(1);
    assert deleted && store.rows == [];
    deleted := store.DeleteMealPlan(1);
    assert !deleted;
  }
}
