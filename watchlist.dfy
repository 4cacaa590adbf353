/** The list operations both watchlist providers share: a watchlist is an
    array of `{id, origin_country, dest_country}` items, searched by route
    pair and edited by item id. */
module WatchlistCore {
  import opened Js

  datatype Item = Item(id: string, origin_country: string, dest_country: string)

  /** `item.origin_country === origin && item.dest_country === dest` */
  function PairIs(origin: string, dest: string): Item -> bool {
    (item: Item) => item.origin_country == origin && item.dest_country == dest
  }

  /** `item.id !== id` */
  function IdIsNot(id: string): Item -> bool {
    (item: Item) => item.id != id
  }

  /** `isInWatchlist` */
  predicate IsInWatchlist(list: seq<Item>, origin: string, dest: string) {
    Some_(list, PairIs(origin, dest))
  }

  /** The entry a toggle acts on: the first item for the pair. */
  function Existing(list: seq<Item>, origin: string, dest: string): Option<Item> {
    Find(list, PairIs(origin, dest))
  }

  /** `list.filter(item => item.id !== id)` */
  function Without(list: seq<Item>, id: string): seq<Item> {
    Filter(list, IdIsNot(id))
  }

  /** `list.map(item => item.id === id ? row : item)` */
  function ReplaceId(list: seq<Item>, id: string, row: Item): (r: seq<Item>)
    ensures |r| == |list|
  {
    seq(|list|, i requires 0 <= i < |list| => if list[i].id == id then row else list[i])
  }

  predicate UniqueIds(list: seq<Item>) {
    forall i, j :: 0 <= i < j < |list| ==> list[i].id != list[j].id
  }

  predicate FreshId(list: seq<Item>, id: string) {
    forall x :: x in list ==> x.id != id
  }

  /** A toggle finds an entry exactly when the pair is in the list, and
      then it is the first item for the pair. */
  lemma ExistingIffInWatchlist(list: seq<Item>, origin: string, dest: string)
    ensures Existing(list, origin, dest).Some? <==> IsInWatchlist(list, origin, dest)
    ensures Existing(list, origin, dest).Some? ==>
      exists i :: 0 <= i < |list| && list[i] == Existing(list, origin, dest).value
        && list[i].origin_country == origin && list[i].dest_country == dest
        && forall j :: 0 <= j < i ==> !(list[j].origin_country == origin && list[j].dest_country == dest)
  {
    FindFirst(list, PairIs(origin, dest));
    if IsInWatchlist(list, origin, dest) {
      var i :| 0 <= i < |list| && PairIs(origin, dest)(list[i]);
      assert list[i] in list;
    }
  }

  /** Removing by id keeps exactly the items with another id, in order. */
  lemma WithoutKeepsOtherIds(list: seq<Item>, id: string)
    ensures forall x :: x in Without(list, id) <==> x in list && x.id != id
    ensures |Without(list, id)| <= |list|
  {
    FilterMembers(list, IdIsNot(id));
  }

  /** After removing an entry the pair is still listed only through an item
      with another id. */
  lemma RemovalClearsPair(list: seq<Item>, id: string, origin: string, dest: string)
    ensures IsInWatchlist(Without(list, id), origin, dest) <==>
      exists x :: x in list && x.id != id && x.origin_country == origin && x.dest_country == dest
  {
    var w := Without(list, id);
    WithoutKeepsOtherIds(list, id);
    if IsInWatchlist(w, origin, dest) {
      var i :| 0 <= i < |w| && PairIs(origin, dest)(w[i]);
      assert w[i] in w;
    }
    if exists x :: x in list && x.id != id && x.origin_country == origin && x.dest_country == dest {
      var x :| x in list && x.id != id && x.origin_country == origin && x.dest_country == dest;
      assert x in w;
      var i :| 0 <= i < |w| && w[i] == x;
      assert PairIs(origin, dest)(w[i]);
    }
  }

  /** An id nobody has removes nothing. */
  lemma WithoutFreshIdIsIdentity(list: seq<Item>, id: string)
    requires FreshId(list, id)
    ensures Without(list, id) == list
  {
    FilterAll(list, IdIsNot(id));
  }

  /** With distinct ids, removing an entry by its id removes that entry
      only, so putting it back restores the list's contents. */
  lemma {:induction false} WithoutThenRestore(list: seq<Item>, e: Item)
    requires UniqueIds(list) && e in list
    ensures multiset(Without(list, e.id)) + multiset{e} == multiset(list)
    decreases |list|
  {
    var rest := list[1..];
    assert list == [list[0]] + rest;
    assert UniqueIds(rest) by {
      forall i, j | 0 <= i < j < |rest| ensures rest[i].id != rest[j].id {
        assert rest[i] == list[i + 1] && rest[j] == list[j + 1];
      }
    }
    if list[0].id == e.id {
      var k :| 0 <= k < |list| && list[k] == e;
      assert k == 0;
      forall x | x in rest ensures IdIsNot(e.id)(x) {
        var j :| 0 <= j < |rest| && rest[j] == x;
        assert list[j + 1] == x;
      }
      FilterAll(rest, IdIsNot(e.id));
    } else {
      assert e in rest;
      WithoutThenRestore(rest, e);
    }
  }

  /** Appending an item with a fresh id and then mapping that id to a row
      leaves the list followed by the row. */
  lemma ReplaceAppended(list: seq<Item>, item: Item, row: Item)
    requires FreshId(list, item.id)
    ensures ReplaceId(list + [item], item.id, row) == list + [row]
  {
    var r := ReplaceId(list + [item], item.id, row);
    forall i | 0 <= i < |list| ensures r[i] == list[i] {
      assert list[i] in list;
    }
  }

  /** Appending an item with a fresh id and then removing that id gives
      the list back. */
  lemma WithoutAppended(list: seq<Item>, item: Item)
    requires FreshId(list, item.id)
    ensures Without(list + [item], item.id) == list
  {
    FilterSnoc(list, item, IdIsNot(item.id));
    WithoutFreshIdIsIdentity(list, item.id);
  }

  /** After appending an item its pair is in the list. */
  lemma AppendedIsInWatchlist(list: seq<Item>, item: Item)
    ensures IsInWatchlist(list + [item], item.origin_country, item.dest_country)
  {
    assert PairIs(item.origin_country, item.dest_country)((list + [item])[|list|]);
  }
}

/** The CargoBloom watchlist provider: edits show at once and are undone
    when the store reports an error. */
module BloomWatchlist {
  import opened Js
  import opened WatchlistCore

  /** What a toggle left waiting for the store's reply. */
  datatype Pending = NothingPending | Removing(existing: Item) | Adding(tempId: string)

  /** The reply to the insert: an error, the stored row, or no row. */
  datatype InsertReply = InsertFailed | Inserted(row: Item) | InsertedNoRow

  /** `temp-${Date.now()}` */
  function TempId(now: nat): string {
    "temp-" + NatText(now)
  }

  /** The immediate effect of a toggle by a signed-in user with a client:
      remove the pair's first entry by id, or append a placeholder. */
  function OptimisticToggle(list: seq<Item>, origin: string, dest: string, now: nat): (seq<Item>, Pending) {
    match Existing(list, origin, dest)
    case Some(existing) => (Without(list, existing.id), Removing(existing))
    case None => (list + [Item(TempId(now), origin, dest)], Adding(TempId(now)))
  }

  /** The effect of the delete's reply on the list current at that time. */
  function AfterRemoval(list: seq<Item>, existing: Item, failed: bool): seq<Item> {
    if failed then list + [existing] else list
  }

  /** The effect of the insert's reply on the list current at that time. */
  function AfterAddition(list: seq<Item>, tempId: string, reply: InsertReply): seq<Item> {
    match reply
    case InsertFailed => Without(list, tempId)
    case Inserted(row) => ReplaceId(list, tempId, row)
    case InsertedNoRow => list
  }

  /** Toggling an absent pair lists it at once; the reply then swaps the
      placeholder for the stored row, or drops it on error, restoring the
      list as it was. */
  lemma AddThenReply(list: seq<Item>, origin: string, dest: string, now: nat, reply: InsertReply)
    requires !IsInWatchlist(list, origin, dest) && FreshId(list, TempId(now))
    ensures var (shown, pending) := OptimisticToggle(list, origin, dest, now);
      && pending == Adding(TempId(now))
      && shown == list + [Item(TempId(now), origin, dest)]
      && IsInWatchlist(shown, origin, dest)
      && (reply.InsertFailed? ==> AfterAddition(shown, TempId(now), reply) == list)
      && (reply.Inserted? ==> AfterAddition(shown, TempId(now), reply) == list + [reply.row])
  {
    ExistingIffInWatchlist(list, origin, dest);
    var item := Item(TempId(now), origin, dest);
    AppendedIsInWatchlist(list, item);
    WithoutAppended(list, item);
    if reply.Inserted? {
      ReplaceAppended(list, item, reply.row);
    }
  }

  /** Toggling a listed pair removes its first entry at once; when the
      delete fails the entry comes back (at the end of the list) and, with
      distinct ids, the list has its old contents again. */
  lemma RemoveThenReply(list: seq<Item>, origin: string, dest: string, now: nat, failed: bool)
    requires IsInWatchlist(list, origin, dest) && UniqueIds(list)
    ensures var (shown, pending) := OptimisticToggle(list, origin, dest, now);
      && pending.Removing?
      && pending.existing in list
      && pending.existing.origin_country == origin && pending.existing.dest_country == dest
      && (forall x :: x in shown <==> x in list && x.id != pending.existing.id)
      && (failed ==> multiset(AfterRemoval(shown, pending.existing, failed)) == multiset(list))
      && (!failed ==> AfterRemoval(shown, pending.existing, failed) == shown)
  {
    ExistingIffInWatchlist(list, origin, dest);
    FoundIsMember(list, PairIs(origin, dest));
    var e := Existing(list, origin, dest).value;
    WithoutKeepsOtherIds(list, e.id);
    if failed {
      WithoutThenRestore(list, e);
    }
  }

  class Provider {
    var user: Option<string>
    /** Whether the store's URL and key are configured. */
    const hasClient: bool
    var watchlist: seq<Item>
    var isLoading: bool
    /** How often the sign-in dialog was asked for. */
    var authDialogRequests: nat

    constructor (hasClient: bool)
      ensures this.hasClient == hasClient
      ensures user.None? && watchlist == [] && !isLoading && authDialogRequests == 0
    {
      this.hasClient := hasClient;
      user := None;
      watchlist := [];
      isLoading := false;
      authDialogRequests := 0;
    }

    /** The effect on a user change: signing out empties the list; signing
        in leaves it to the fetch. */
    method SetUser(u: Option<string>)
      modifies this
      ensures user == u
      ensures watchlist == (if u.None? then [] else old(watchlist))
      ensures isLoading == old(isLoading) && authDialogRequests == old(authDialogRequests)
    {
      user := u;
      if u.None? {
        watchlist := [];
      }
    }

    /** `fetchWatchlist` with the store's reply as a parameter: no reply
        stands for an error or a null result. */
    method FetchWatchlist(reply: Option<seq<Item>>)
      modifies this
      ensures user.None? || !hasClient ==> watchlist == old(watchlist) && isLoading == old(isLoading)
      ensures user.Some? && hasClient ==>
        watchlist == (if reply.Some? then reply.value else old(watchlist)) && !isLoading
      ensures user == old(user) && authDialogRequests == old(authDialogRequests)
    {
      if user.None? || !hasClient {
        return;
      }
      isLoading := true;
      if reply.Some? {
        watchlist := reply.value;
      }
      isLoading := false;
    }

    /** `toggleWatchlist` up to the store call; `now` stands for the clock. */
    method ToggleWatchlist(origin: string, dest: string, now: nat) returns (pending: Pending)
      modifies this
      ensures old(user).None? ==>
        authDialogRequests == old(authDialogRequests) + 1 && watchlist == old(watchlist) && pending == NothingPending
      ensures old(user).Some? && !hasClient ==>
        authDialogRequests == old(authDialogRequests) && watchlist == old(watchlist) && pending == NothingPending
      ensures old(user).Some? && hasClient ==>
        authDialogRequests == old(authDialogRequests)
        && (watchlist, pending) == OptimisticToggle(old(watchlist), origin, dest, now)
      ensures user == old(user) && isLoading == old(isLoading)
    {
      pending := NothingPending;
      if user.None? {
        authDialogRequests := authDialogRequests + 1;
        return;
      }
      if !hasClient {
        return;
      }
      var existing := Find(watchlist, PairIs(origin, dest));
      if existing.Some? {
        watchlist := Filter(watchlist, IdIsNot(existing.value.id));
        pending := Removing(existing.value);
      } else {
        var tempId := TempId(now);
        watchlist := watchlist + [Item(tempId, origin, dest)];
        pending := Adding(tempId);
      }
    }

    /** The delete's reply arriving. */
    method CompleteRemoval(existing: Item, failed: bool)
      modifies this
      ensures watchlist == AfterRemoval(old(watchlist), existing, failed)
      ensures user == old(user) && isLoading == old(isLoading) && authDialogRequests == old(authDialogRequests)
    {
      if failed {
        watchlist := watchlist + [existing];
      }
    }

    /** The insert's reply arriving. */
    method CompleteAddition(tempId: string, reply: InsertReply)
      modifies this
      ensures watchlist == AfterAddition(old(watchlist), tempId, reply)
      ensures user == old(user) && isLoading == old(isLoading) && authDialogRequests == old(authDialogRequests)
    {
      match reply {
        case InsertFailed => watchlist := Without(watchlist, tempId);
        case Inserted(row) => watchlist := ReplaceId(watchlist, tempId, row);
        case InsertedNoRow =>
      }
    }
  }
}

/** The CargoMind watchlist provider: the list changes only once the store
    has accepted the edit. */
module MindWatchlist {
  import opened Js
  import opened WatchlistCore

  /** The store's reply to a delete or an insert. */
  datatype Reply = Failed | Succeeded(row: Option<Item>)

  /** The list after a signed-in user's toggle and the store's reply. */
  function Toggled(list: seq<Item>, origin: string, dest: string, reply: Reply): seq<Item> {
    match Existing(list, origin, dest)
    case Some(existing) => if reply.Succeeded? then Without(list, existing.id) else list
    case None => if reply.Succeeded? && reply.row.Some? then list + [reply.row.value] else list
  }

  /** A failed store call leaves the list as it was. */
  lemma FailureChangesNothing(list: seq<Item>, origin: string, dest: string)
    ensures Toggled(list, origin, dest, Failed) == list
  {
  }

  /** Adding a pair and then toggling it again, both accepted, gives the
      list back when the stored row's id is new. */
  lemma {:induction false} AddThenRemoveRestores(list: seq<Item>, origin: string, dest: string, row: Item)
    requires !IsInWatchlist(list, origin, dest)
    requires row.origin_country == origin && row.dest_country == dest && FreshId(list, row.id)
    ensures Toggled(list, origin, dest, Succeeded(Some(row))) == list + [row]
    ensures IsInWatchlist(list + [row], origin, dest)
    ensures Toggled(list + [row], origin, dest, Succeeded(None)) == list
  {
    ExistingIffInWatchlist(list, origin, dest);
    AppendedIsInWatchlist(list, row);
    FindFirst(list, PairIs(origin, dest));
    assert Existing(list + [row], origin, dest) == Some(row) by {
      FindAfterMiss(list, row, PairIs(origin, dest));
    }
    WithoutAppended(list, row);
  }

  /** Searching past elements that all fail the test. */
  lemma {:induction false} FindAfterMiss(list: seq<Item>, x: Item, p: Item -> bool)
    requires forall y :: y in list ==> !p(y)
    requires p(x)
    ensures Find(list + [x], p) == Some(x)
    decreases |list|
  {
    if list != [] {
      assert (list + [x])[1..] == list[1..] + [x];
      FindAfterMiss(list[1..], x, p);
    }
  }

  /** An accepted removal of a listed pair drops every item sharing the
      first entry's id; with one item per pair the pair is gone. */
  lemma AcceptedRemovalUnlists(list: seq<Item>, origin: string, dest: string)
    requires IsInWatchlist(list, origin, dest)
    requires forall x, y :: (x in list && y in list && x.origin_country == y.origin_country
      && x.dest_country == y.dest_country) ==> x.id == y.id
    ensures !IsInWatchlist(Toggled(list, origin, dest, Succeeded(None)), origin, dest)
  {
    ExistingIffInWatchlist(list, origin, dest);
    FoundIsMember(list, PairIs(origin, dest));
    var e := Existing(list, origin, dest).value;
    RemovalClearsPair(list, e.id, origin, dest);
  }

  class Provider {
    var user: Option<string>
    var watchlist: seq<Item>
    var isLoading: bool
    var authDialogRequests: nat

    constructor ()
      ensures user.None? && watchlist == [] && !isLoading && authDialogRequests == 0
    {
      user := None;
      watchlist := [];
      isLoading := false;
      authDialogRequests := 0;
    }

    method SetUser(u: Option<string>)
      modifies this
      ensures user == u
      ensures watchlist == (if u.None? then [] else old(watchlist))
      ensures isLoading == old(isLoading) && authDialogRequests == old(authDialogRequests)
    {
      user := u;
      if u.None? {
        watchlist := [];
      }
    }

    method FetchWatchlist(reply: Option<seq<Item>>)
      modifies this
      ensures user.None? ==> watchlist == old(watchlist) && isLoading == old(isLoading)
      ensures user.Some? ==> watchlist == (if reply.Some? then reply.value else old(watchlist)) && !isLoading
      ensures user == old(user) && authDialogRequests == old(authDialogRequests)
    {
      if user.None? {
        return;
      }
      isLoading := true;
      if reply.Some? {
        watchlist := reply.value;
      }
      isLoading := false;
    }

    /** `toggleWatchlist` with the store's reply as a parameter. */
    method ToggleWatchlist(origin: string, dest: string, reply: Reply)
      modifies this
      ensures old(user).None? ==>
        authDialogRequests == old(authDialogRequests) + 1 && watchlist == old(watchlist)
      ensures old(user).Some? ==>
        authDialogRequests == old(authDialogRequests) && watchlist == Toggled(old(watchlist), origin, dest, reply)
      ensures user == old(user) && isLoading == old(isLoading)
    {
      if user.None? {
        authDialogRequests := authDialogRequests + 1;
        return;
      }
      var existing := Find(watchlist, PairIs(origin, dest));
      if existing.Some? {
        if reply.Succeeded? {
          watchlist := Filter(watchlist, IdIsNot(existing.value.id));
        }
      } else if reply.Succeeded? && reply.row.Some? {
        watchlist := watchlist + [reply.row.value];
      }
    }
  }
}
