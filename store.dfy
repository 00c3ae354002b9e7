/** The user store: a single `objects` sequence, replaced wholesale by
    setInitialData, prepended to by addUser, filtered by removeUser, and the
    table's batch row delete built from removeUser. */
module Store {
  import opened Users
  import opened Salary
  import opened Formatter

  /** The records of `objs` whose uid is in none of `gone`, in their order:
      removeUser(id) is FilterOut(objs, [id]). */
  function FilterOut(objs: seq<User>, gone: seq<string>): (r: seq<User>)
    ensures |r| <= |objs|
    ensures forall k :: 0 <= k < |r| ==> r[k].uid !in gone
    decreases |objs|
  {
    if objs == [] then []
    else (if objs[0].uid in gone then [] else [objs[0]]) + FilterOut(objs[1..], gone)
  }

  /** Membership: a record survives exactly when it was there and its uid is not in `gone`. */
  lemma {:induction false} FilterOutMembers(objs: seq<User>, gone: seq<string>, u: User)
    ensures u in FilterOut(objs, gone) <==> u in objs && u.uid !in gone
    decreases |objs|
  {
    if objs != [] {
      FilterOutMembers(objs[1..], gone, u);
      assert objs == [objs[0]] + objs[1..];
    }
  }

  /** `idx` lists, in increasing order, positions of `objs` whose records make up `r`. */
  ghost predicate PicksInOrder(r: seq<User>, objs: seq<User>, idx: seq<int>) {
    |idx| == |r| &&
    (forall k :: 0 <= k < |idx| ==> 0 <= idx[k] < |objs| && r[k] == objs[idx[k]]) &&
    (forall k, l :: 0 <= k < l < |idx| ==> idx[k] < idx[l])
  }

  /** FilterOut keeps exactly the positions whose uid is not in `gone`, in
      their original relative order. */
  lemma {:induction false} FilterOutKeepsOrder(objs: seq<User>, gone: seq<string>) returns (idx: seq<int>)
    ensures PicksInOrder(FilterOut(objs, gone), objs, idx)
    ensures forall j :: 0 <= j < |objs| ==> (j in idx <==> objs[j].uid !in gone)
    decreases |objs|
  {
    if objs == [] {
      return [];
    }
    var x, tail := objs[0], objs[1..];
    assert objs == [x] + tail;
    var rest := FilterOutKeepsOrder(tail, gone);
    var shifted := Shift(rest, |tail|);
    ShiftPicks(FilterOut(tail, gone), x, tail, rest);
    forall j | 1 <= j < |objs|
      ensures j in shifted <==> objs[j].uid !in gone
    {
      assert tail[j - 1] == objs[j];
    }
    if x.uid in gone {
      assert FilterOut(objs, gone) == FilterOut(tail, gone);
      idx := shifted;
    } else {
      assert FilterOut(objs, gone) == [x] + FilterOut(tail, gone);
      idx := [0] + shifted;
      forall j | 1 <= j < |objs|
        ensures j in idx <==> j in shifted
      {
      }
    }
  }

  /** Positions of `r` in `tail`, moved up one, are its positions in `[x] + tail`;
      with 0 in front they are the positions of `[x] + r`. */
  lemma ShiftPicks(r: seq<User>, x: User, tail: seq<User>, idx: seq<int>)
    requires PicksInOrder(r, tail, idx)
    ensures PicksInOrder(r, [x] + tail, Shift(idx, |tail|))
    ensures PicksInOrder([x] + r, [x] + tail, [0] + Shift(idx, |tail|))
  {
    var s := Shift(idx, |tail|);
    var objs := [x] + tail;
    forall k | 0 <= k < |s|
      ensures 0 <= s[k] < |objs| && r[k] == objs[s[k]]
    {
      assert objs[idx[k] + 1] == tail[idx[k]];
    }
    var s0 := [0] + s;
    forall k | 0 <= k < |s0|
      ensures 0 <= s0[k] < |objs| && ([x] + r)[k] == objs[s0[k]]
    {
      if k > 0 {
        assert s0[k] == s[k - 1] && ([x] + r)[k] == r[k - 1];
      }
    }
  }

  /** Every index moved one place up: the positions of `rest` inside `[x] + rest`. */
  function Shift(idx: seq<int>, n: int): (s: seq<int>)
    requires forall k :: 0 <= k < |idx| ==> 0 <= idx[k] < n
    ensures |s| == |idx|
    ensures forall k :: 0 <= k < |s| ==> s[k] == idx[k] + 1 && 1 <= s[k]
    ensures forall j :: 1 <= j <= n ==> (j in s <==> j - 1 in idx)
  {
    var s := seq(|idx|, k requires 0 <= k < |idx| => idx[k] + 1);
    assert forall j :: 1 <= j <= n ==> (j in s <==> j - 1 in idx) by {
      forall j | 1 <= j <= n
        ensures j in s <==> j - 1 in idx
      {
        if j - 1 in idx {
          var k :| 0 <= k < |idx| && idx[k] == j - 1;
          assert s[k] == j;
        }
      }
    }
    s
  }

  /** Filtering twice is filtering once by both lists. */
  lemma {:induction false} FilterOutCompose(objs: seq<User>, g1: seq<string>, g2: seq<string>)
    ensures FilterOut(FilterOut(objs, g1), g2) == FilterOut(objs, g1 + g2)
    decreases |objs|
  {
    if objs != [] {
      var x, tail := objs[0], objs[1..];
      FilterOutCompose(tail, g1, g2);
      assert x.uid in g1 + g2 <==> x.uid in g1 || x.uid in g2;
      if x.uid in g1 {
        assert FilterOut(objs, g1) == FilterOut(tail, g1);
        assert FilterOut(objs, g1 + g2) == FilterOut(tail, g1 + g2);
      } else {
        var once := FilterOut(objs, g1);
        assert once == [x] + FilterOut(tail, g1);
        assert once[0] == x && once[1..] == FilterOut(tail, g1);
        if x.uid in g2 {
          assert FilterOut(once, g2) == FilterOut(once[1..], g2);
          assert FilterOut(objs, g1 + g2) == FilterOut(tail, g1 + g2);
        } else {
          assert FilterOut(once, g2) == [x] + FilterOut(once[1..], g2);
          assert FilterOut(objs, g1 + g2) == [x] + FilterOut(tail, g1 + g2);
        }
      }
    }
  }

  /** Removing uids that no record carries changes nothing. */
  lemma {:induction false} FilterOutAbsentNoop(objs: seq<User>, gone: seq<string>)
    requires forall k :: 0 <= k < |objs| ==> objs[k].uid !in gone
    ensures FilterOut(objs, gone) == objs
    decreases |objs|
  {
    if objs != [] {
      FilterOutAbsentNoop(objs[1..], gone);
    }
  }

  /** removeUser is idempotent. */
  lemma FilterOutIdempotent(objs: seq<User>, gone: seq<string>)
    ensures FilterOut(FilterOut(objs, gone), gone) == FilterOut(objs, gone)
  {
    var once := FilterOut(objs, gone);
    assert forall k :: 0 <= k < |once| ==> once[k] in once;
    FilterOutAbsentNoop(once, gone);
  }

  /** addUser(u) then removeUser(u.uid) restores the store when no record
      already carried u's uid. */
  lemma AddThenRemoveRestores(objs: seq<User>, u: User)
    requires forall k :: 0 <= k < |objs| ==> objs[k].uid != u.uid
    ensures FilterOut([u] + objs, [u.uid]) == objs
  {
    assert ([u] + objs)[1..] == objs;
    FilterOutAbsentNoop(objs, [u.uid]);
  }

  /** No two records share a uid. */
  predicate UniqueUids(objs: seq<User>) {
    forall k, l :: 0 <= k < l < |objs| ==> objs[k].uid != objs[l].uid
  }

  /** Filtering keeps uids unique; and on unique uids removeUser drops at most one record. */
  lemma {:induction false} FilterOutKeepsUnique(objs: seq<User>, id: string)
    requires UniqueUids(objs)
    ensures UniqueUids(FilterOut(objs, [id]))
    ensures |FilterOut(objs, [id])| >= |objs| - 1
    decreases |objs|
  {
    if objs != [] {
      FilterOutKeepsUnique(objs[1..], id);
      var rest := FilterOut(objs[1..], [id]);
      assert forall k :: 0 <= k < |rest| ==> rest[k].uid != objs[0].uid by {
        forall k | 0 <= k < |rest| ensures rest[k].uid != objs[0].uid {
          assert rest[k] in rest;
          FilterOutMembers(objs[1..], [id], rest[k]);
          var j :| 0 <= j < |objs[1..]| && objs[1..][j] == rest[k];
          assert objs[j + 1] == rest[k];
        }
      }
      if objs[0].uid == id {
        FilterOutAbsentNoop(objs[1..], [id]);
      }
    }
  }

  /** addUser keeps uids unique exactly when the new uid is fresh. */
  lemma PrependKeepsUnique(objs: seq<User>, u: User)
    ensures UniqueUids([u] + objs)
            <==> UniqueUids(objs) && forall k :: 0 <= k < |objs| ==> objs[k].uid != u.uid
  {
    var s := [u] + objs;
    if UniqueUids(s) {
      forall k | 0 <= k < |objs| ensures objs[k].uid != u.uid {
        assert s[0] == u && s[k + 1] == objs[k];
      }
      forall k, l | 0 <= k < l < |objs| ensures objs[k].uid != objs[l].uid {
        assert s[k + 1] == objs[k] && s[l + 1] == objs[l];
      }
    }
  }

  /** The effect of calling removeUser once per uid of `uids`, in turn. */
  function DeleteEach(objs: seq<User>, uids: seq<string>): seq<User>
    decreases |uids|
  {
    if uids == [] then objs
    else FilterOut(DeleteEach(objs, uids[..|uids| - 1]), [uids[|uids| - 1]])
  }

  /** Deleting uid by uid is one filter by all of them. */
  lemma {:induction false} DeleteEachIsFilterOut(objs: seq<User>, uids: seq<string>)
    ensures DeleteEach(objs, uids) == FilterOut(objs, uids)
    decreases |uids|
  {
    if uids == [] {
      FilterOutAbsentNoop(objs, []);
    } else {
      var init := uids[..|uids| - 1];
      DeleteEachIsFilterOut(objs, init);
      FilterOutCompose(objs, init, [uids[|uids| - 1]]);
      assert init + [uids[|uids| - 1]] == uids;
    }
  }

  /** The uids of the snapshot rows a batch delete selects. */
  function SelectedUids(snapshot: seq<User>, rows: seq<int>): (uids: seq<string>)
    requires forall k :: 0 <= k < |rows| ==> 0 <= rows[k] < |snapshot|
    ensures |uids| == |rows|
    ensures forall k :: 0 <= k < |rows| ==> uids[k] == snapshot[rows[k]].uid
  {
    seq(|rows|, k requires 0 <= k < |rows| => snapshot[rows[k]].uid)
  }

  /** A batch delete over valid rows removes exactly the records whose uid is
      the uid of some selected snapshot row, and keeps every other record. */
  lemma BatchDeleteRemovesSelected(snapshot: seq<User>, rows: seq<int>, u: User)
    requires forall k :: 0 <= k < |rows| ==> 0 <= rows[k] < |snapshot|
    ensures u in DeleteEach(snapshot, SelectedUids(snapshot, rows))
            <==> u in snapshot && forall k :: 0 <= k < |rows| ==> u.uid != snapshot[rows[k]].uid
  {
    var uids := SelectedUids(snapshot, rows);
    DeleteEachIsFilterOut(snapshot, uids);
    FilterOutMembers(snapshot, uids, u);
    if u.uid in uids {
      var k :| 0 <= k < |uids| && uids[k] == u.uid;
      assert u.uid == snapshot[rows[k]].uid;
    }
  }

  /** How many leading row indices fall inside a snapshot of `n` records: the
      batch delete stops at the first index outside it. */
  function ValidRowPrefix(rows: seq<int>, n: int): (p: nat)
    ensures p <= |rows|
    ensures forall k :: 0 <= k < p ==> 0 <= rows[k] < n
    ensures p < |rows| ==> !(0 <= rows[p] < n)
    decreases |rows|
  {
    if rows == [] || !(0 <= rows[0] < n) then 0 else 1 + ValidRowPrefix(rows[1..], n)
  }

  /** The store. The React hooks, devtools and persistence around it are not modelled. */
  class UserStore {
    var objects: seq<User>

    constructor ()
      ensures objects == []
    {
      objects := [];
    }

    /** setInitialData: `response` is the fetched batch, or None when the fetch
        failed, in which case nothing is set. */
    method SetInitialData(response: Option<seq<RawUser>>, today: Date, draws: seq<SalaryDraw>)
      returns (ok: bool)
      requires response.Some? ==> |draws| == |response.value|
      modifies this
      ensures ok == response.Some?
      ensures ok ==> |objects| == |response.value|
      ensures ok ==> forall i :: 0 <= i < |objects| ==>
                       objects[i] == FormatUser(response.value[i], today, draws[i])
      ensures !ok ==> objects == old(objects)
    {
      if response.None? {
        return false;
      }
      objects := FormatData(response.value, today, draws);
      ok := true;
    }

    /** addUser: the new record goes in front. */
    method AddUser(u: User)
      modifies this
      ensures objects == [u] + old(objects)
    {
      objects := [u] + objects;
    }

    /** removeUser: every record with this uid goes. */
    method RemoveUser(uid: string)
      modifies this
      ensures objects == FilterOut(old(objects), [uid])
    {
      objects := FilterOut(objects, [uid]);
    }

    /** createNewUser: fetch one record, format it, add it; nothing changes
        when the fetch failed. */
    method CreateNewUser(response: Option<RawUser>, today: Date, draw: SalaryDraw) returns (ok: bool)
      modifies this
      ensures ok == response.Some?
      ensures ok ==> objects == [FormatUser(response.value, today, draw)] + old(objects)
      ensures !ok ==> objects == old(objects)
    {
      if response.None? {
        return false;
      }
      AddUser(FormatUser(response.value, today, draw));
      ok := true;
    }

    /** onRowsDelete: one removeUser per selected row, each row index read in
        the snapshot taken before any deletion. An index outside the snapshot
        raises, leaving the deletions already made; `ok` is false then. */
    method OnRowsDelete(rows: seq<int>) returns (ok: bool)
      modifies this
      ensures ok == (ValidRowPrefix(rows, |old(objects)|) == |rows|)
      ensures objects == FilterOut(old(objects),
                           SelectedUids(old(objects), rows[..ValidRowPrefix(rows, |old(objects)|)]))
    {
      var data := objects;
      ghost var p := ValidRowPrefix(rows, |data|);
      var i := 0;
      while i < |rows|
        invariant 0 <= i <= p
        invariant objects == DeleteEach(data, SelectedUids(data, rows[..i]))
      {
        if !(0 <= rows[i] < |data|) {
          DeleteEachIsFilterOut(data, SelectedUids(data, rows[..i]));
          return false;
        }
        ghost var before := SelectedUids(data, rows[..i]);
        RemoveUser(data[rows[i]].uid);
        i := i + 1;
        assert SelectedUids(data, rows[..i])[..i - 1] == before;
      }
      assert rows[..i] == rows;
      DeleteEachIsFilterOut(data, SelectedUids(data, rows[..i]));
      ok := true;
    }
  }
}
