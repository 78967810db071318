/**
 * The user cache of `DatabaseManager`: the in-memory list of players and the
 * two ways it grows. The remote read is an input `Snapshot` and the remote
 * write is the name list a method returns.
 */
module UserStore {
  import opened Wrappers

  datatype User = User(name: string)

  /** The value found under the `users` key, as far as the merge can tell. */
  datatype Payload = Names(names: seq<string>) | OtherType

  /** The outcome of reading the `users` key: an error, no data, or a value. */
  datatype Snapshot = Failed | Absent | Present(value: Payload)

  /** The names to merge, when the read delivered a list of strings. */
  function Fetched(snapshot: Snapshot): (r: Option<seq<string>>)
    ensures r.Some? <==> snapshot.Present? && snapshot.value.Names?
  {
    if snapshot.Present? && snapshot.value.Names? then Some(snapshot.value.names) else None
  }

  /** Some user in `users` has exactly this name. */
  predicate NameIn(users: seq<User>, name: string) {
    exists j | 0 <= j < |users| :: users[j].name == name
  }

  ghost predicate DistinctNames(users: seq<User>) {
    forall i, j :: 0 <= i < j < |users| ==> users[i].name != users[j].name
  }

  /** One step of the merge: append `name` unless a user already has it. */
  function AddIfAbsent(users: seq<User>, name: string): seq<User> {
    if NameIn(users, name) then users else users + [User(name)]
  }

  /**
   * The cache after merging `names` into `users` one name at a time, in order.
   * Every cached user stays in place and each fetched name adds at most one user.
   */
  function Merged(users: seq<User>, names: seq<string>): (r: seq<User>)
    ensures |users| <= |r| <= |users| + |names|
    ensures r[..|users|] == users
    decreases |names|
  {
    if names == [] then users
    else AddIfAbsent(Merged(users, names[..|names| - 1]), names[|names| - 1])
  }

  /** The position where `x` first occurs in `names`. */
  function FirstIndex(names: seq<string>, x: string): (k: nat)
    requires x in names
    ensures k < |names| && names[k] == x
    ensures forall i :: 0 <= i < k ==> names[i] != x
  {
    if names[0] == x then 0 else 1 + FirstIndex(names[1..], x)
  }

  lemma FirstIndexOfPrefix(names: seq<string>, n: nat, x: string)
    requires n <= |names| && x in names[..n]
    ensures FirstIndex(names, x) == FirstIndex(names[..n], x)
  {
  }


  /** After the merge a name is cached exactly when it was cached before or was fetched. */
  lemma {:induction false} MergedNames(users: seq<User>, names: seq<string>, x: string)
    ensures NameIn(Merged(users, names), x) <==> NameIn(users, x) || x in names
  {
    if names != [] {
      var init := names[..|names| - 1];
      var last := names[|names| - 1];
      MergedNames(users, init, x);
      var m := Merged(users, init);
      assert names == init + [last];
      if !NameIn(m, last) {
        var m' := m + [User(last)];
        assert m'[|m|].name == last;
        if NameIn(m', x) && x != last {
          var j :| 0 <= j < |m'| && m'[j].name == x;
          assert m[j].name == x;
        }
        if NameIn(m, x) {
          var j :| 0 <= j < |m| && m[j].name == x;
          assert m'[j].name == x;
        }
      }
    }
  }

  /** Every user the merge appends carries a fetched name that was not cached before. */
  lemma {:induction false} MergedAppendsOnlyNew(users: seq<User>, names: seq<string>)
    ensures forall j :: |users| <= j < |Merged(users, names)| ==>
      Merged(users, names)[j].name in names && !NameIn(users, Merged(users, names)[j].name)
  {
    if names != [] {
      var init := names[..|names| - 1];
      var last := names[|names| - 1];
      MergedAppendsOnlyNew(users, init);
      var m := Merged(users, init);
      if !NameIn(m, last) {
        MergedNames(users, init, last);
      }
      forall j | |users| <= j < |Merged(users, names)|
        ensures Merged(users, names)[j].name in names
      {
        if j < |m| {
          assert m[j].name in init;
        }
      }
    }
  }

  /** The appended users come in the order their names first occur in the fetched list. */
  lemma {:induction false} MergedInFetchedOrder(users: seq<User>, names: seq<string>)
    ensures forall p, q :: |users| <= p < q < |Merged(users, names)| ==>
      Merged(users, names)[p].name in names && Merged(users, names)[q].name in names &&
      FirstIndex(names, Merged(users, names)[p].name) < FirstIndex(names, Merged(users, names)[q].name)
  {
    MergedAppendsOnlyNew(users, names);
    if names != [] {
      var n := |names| - 1;
      var init := names[..n];
      var last := names[n];
      var m := Merged(users, init);
      MergedInFetchedOrder(users, init);
      MergedAppendsOnlyNew(users, init);
      forall p | |users| <= p < |m|
        ensures FirstIndex(names, m[p].name) == FirstIndex(init, m[p].name) < n
      {
        FirstIndexOfPrefix(names, n, m[p].name);
      }
      if !NameIn(m, last) {
        MergedNames(users, init, last);
        assert last !in init;
        assert FirstIndex(names, last) == n by {
          forall i | 0 <= i < n ensures names[i] != last {
            assert names[i] == init[i];
          }
        }
      }
    }
  }

  /** The merge never introduces two users with the same name. */
  lemma {:induction false} MergedKeepsDistinct(users: seq<User>, names: seq<string>)
    requires DistinctNames(users)
    ensures DistinctNames(Merged(users, names))
  {
    if names != [] {
      var init := names[..|names| - 1];
      var last := names[|names| - 1];
      MergedKeepsDistinct(users, init);
      var m := Merged(users, init);
      if !NameIn(m, last) {
        var m' := m + [User(last)];
        forall i, j | 0 <= i < j < |m'| ensures m'[i].name != m'[j].name {
          if j == |m| {
            assert m[i].name != last;
          } else {
            assert m'[i] == m[i] && m'[j] == m[j];
          }
        }
      }
    }
  }

  /** Merging names that are all cached already leaves the cache as it is. */
  lemma {:induction false} MergedOfCachedNames(users: seq<User>, names: seq<string>)
    requires forall x :: x in names ==> NameIn(users, x)
    ensures Merged(users, names) == users
  {
    if names != [] {
      var init := names[..|names| - 1];
      MergedOfCachedNames(users, init);
    }
  }

  /** Merging the same fetched list twice is the same as merging it once. */
  lemma MergedIdempotent(users: seq<User>, names: seq<string>)
    ensures Merged(Merged(users, names), names) == Merged(users, names)
  {
    forall x | x in names ensures NameIn(Merged(users, names), x) {
      MergedNames(users, names, x);
    }
    MergedOfCachedNames(Merged(users, names), names);
  }

  /** Appending without a check, as `addUser` does, duplicates a name that is already cached. */
  lemma AppendCanDuplicate(users: seq<User>, user: User)
    requires NameIn(users, user.name)
    ensures !DistinctNames(users + [user])
  {
    var j :| 0 <= j < |users| && users[j].name == user.name;
    var u := users + [user];
    assert u[j].name == u[|users|].name;
  }

  /** `DatabaseManager`, reduced to its user cache. */
  class Store {
    var users: seq<User>

    constructor ()
      ensures users == []
    {
      users := [];
    }

    /**
     * `loadUsers`: on a list of names, merge them into the cache and deliver the
     * whole cache; on an error, no data or a value of another type, deliver
     * nothing and leave the cache alone.
     */
    method LoadUsers(snapshot: Snapshot) returns (delivered: seq<User>)
      modifies this
      ensures Fetched(snapshot).None? ==> users == old(users) && delivered == []
      ensures Fetched(snapshot).Some? ==>
        users == Merged(old(users), Fetched(snapshot).value) && delivered == users
    {
      match snapshot
      case Failed =>
        delivered := [];
      case Present(OtherType) =>
        delivered := [];
      case Present(Names(names)) =>
        var i := 0;
        while i < |names|
          invariant 0 <= i <= |names|
          invariant users == Merged(old(users), names[..i])
        {
          var username := names[i];
          assert names[..i + 1][..i] == names[..i];
          if !NameIn(users, username) {
            users := users + [User(username)];
          }
          i := i + 1;
        }
        assert names[..i] == names;
        delivered := users;
      case Absent =>
        delivered := [];
    }

    /**
     * `addUser`: append without looking for the name, then return the list that
     * is written back, the names of the whole cache in order.
     */
    method AddUser(user: User) returns (persisted: seq<string>)
      modifies this
      ensures users == old(users) + [user]
      ensures |persisted| == |users|
      ensures forall i :: 0 <= i < |users| ==> persisted[i] == users[i].name
    {
      users := users + [user];
      var cache := users;
      persisted := seq(|cache|, i requires 0 <= i < |cache| => cache[i].name);
    }

    /**
     * The cache side of ending a name edit: load the users and, when the
     * delivered list has no user with the typed name, add it. The result is
     * the list written back, when there was a write.
     */
    method CommitName(snapshot: Snapshot, text: Option<string>) returns (persisted: Option<seq<string>>)
      modifies this
      ensures var loaded := if Fetched(snapshot).Some? then Merged(old(users), Fetched(snapshot).value) else old(users);
        var seen := if Fetched(snapshot).Some? then loaded else [];
        users == if text.Some? && !NameIn(seen, text.value) then loaded + [User(text.value)] else loaded
      ensures text.Some? ==> NameIn(users, text.value)
      ensures Fetched(snapshot).Some? && DistinctNames(old(users)) ==> DistinctNames(users)
      ensures Fetched(snapshot).None? && text.Some? ==> users == old(users) + [User(text.value)]
      ensures persisted.Some? <==> (text.Some? && (Fetched(snapshot).None? || (!NameIn(old(users), text.value) && text.value !in Fetched(snapshot).value)))
      ensures persisted.Some? ==> |persisted.value| == |users|
      ensures persisted.Some? ==> forall i :: 0 <= i < |users| ==> persisted.value[i] == users[i].name
    {
      var delivered := LoadUsers(snapshot);
      if text.Some? && !NameIn(delivered, text.value) {
        var written := AddUser(User(text.value));
        persisted := Some(written);
      } else {
        persisted := None;
      }
      if Fetched(snapshot).Some? {
        var loaded := Merged(old(users), Fetched(snapshot).value);
        if text.Some? {
          MergedNames(old(users), Fetched(snapshot).value, text.value);
        }
        MergedAppendsOnlyNew(old(users), Fetched(snapshot).value);
        if DistinctNames(old(users)) {
          MergedKeepsDistinct(old(users), Fetched(snapshot).value);
          if text.Some? && !NameIn(loaded, text.value) {
            AppendNewKeepsDistinct(loaded, text.value);
          }
        }
      }
      if text.Some? {
        assert users[|users| - 1].name == text.value || NameIn(users, text.value);
      }
    }
  }

  lemma AppendNewKeepsDistinct(users: seq<User>, name: string)
    requires DistinctNames(users) && !NameIn(users, name)
    ensures DistinctNames(users + [User(name)])
  {
  }


  /** Typing the same new name twice while the list can be read caches it once. */
  method RepeatedNameScenario() {
    var store := new Store();
    assert Merged([], []) == [] && !NameIn([], "Ana");
    var first := store.CommitName(Present(Names([])), Some("Ana"));
    assert store.users == [User("Ana")];
    assert Merged(store.users, []) == store.users && NameIn(store.users, "Ana");
    var second := store.CommitName(Present(Names([])), Some("Ana"));
    assert store.users == [User("Ana")] && second.None?;
  }

  /** Typing the same name twice while every read fails caches it twice. */
  method RepeatedNameOfflineScenario() {
    var store := new Store();
    assert Fetched(Failed).None?;
    var first := store.CommitName(Failed, Some("Ana"));
    assert store.users == [User("Ana")];
    var second := store.CommitName(Failed, Some("Ana"));
    assert store.users == [User("Ana")] + [User("Ana")] == [User("Ana"), User("Ana")];
    assert second.Some? && second.value == ["Ana", "Ana"];
  }
}
