/** The in-memory user store of the older tree: a hash map from id to user
    and a counter that hands out the ids. The counter is a static field in
    the source, shared by every instance; here it is a field of the one
    store. */
module UserRepository {
  import opened Common
  import opened Entities

  class UserRepository {
    var users: map<int, User>
    var generatedId: int

    /** Every stored user sits under its own id, and every id was handed out
        by the counter. */
    ghost predicate Valid()
      reads this
    {
      generatedId >= 0 &&
      forall k :: k in users ==> users[k].id == k && 1 <= k <= generatedId
    }

    constructor ()
      ensures Valid() && users == map[] && generatedId == 0
    {
      users := map[];
      generatedId := 0;
    }

    /** `findById`: the user stored under the id, if any. */
    function FindById(userId: int): (r: Option<User>)
      reads this
      requires Valid()
      ensures r.Some? <==> userId in users
      ensures r.Some? ==> r.value.id == userId && r.value in users.Values
    {
      if userId in users then Some(users[userId]) else None
    }

    /** `save`: the user gets the next id and is stored under it. The id is
        fresh, so no stored user is replaced. */
    method Save(u: User) returns (saved: User)
      requires Valid()
      modifies this
      ensures Valid()
      ensures generatedId == old(generatedId) + 1
      ensures saved == u.(id := generatedId)
      ensures saved.id !in old(users)
      ensures users == old(users)[saved.id := saved]
      ensures FindById(saved.id) == Some(saved)
      ensures forall k :: k != saved.id ==> FindById(k) == old(FindById(k))
    {
      generatedId := generatedId + 1;
      saved := u.(id := generatedId);
      users := users[saved.id := saved];
    }

    /** `deleteById`: EntityNotFound, and nothing removed, for an absent id;
        otherwise that one entry goes. */
    method DeleteById(userId: int) returns (r: Result<()>)
      requires Valid()
      modifies this
      ensures Valid()
      ensures generatedId == old(generatedId)
      ensures userId !in old(users) ==> r == Err(EntityNotFound) && users == old(users)
      ensures userId in old(users) ==> r == Ok(()) && users == old(users) - {userId}
      ensures FindById(userId).None?
    {
      if userId !in users {
        return Err(EntityNotFound);
      }
      users := users - {userId};
      r := Ok(());
    }

    /** `findAll`: every stored user once, in the map's iteration order,
        which the source leaves unspecified. */
    method FindAll() returns (r: seq<User>)
      requires Valid()
      ensures |r| == |users|
      ensures forall i :: 0 <= i < |r| ==> r[i].id in users && users[r[i].id] == r[i]
      ensures forall k :: k in users ==> users[k] in r
      ensures forall i, j :: 0 <= i < j < |r| ==> r[i].id != r[j].id
    {
      r := [];
      var rest := users.Keys;
      while rest != {}
        invariant rest <= users.Keys
        invariant |r| + |rest| == |users.Keys|
        invariant forall i :: 0 <= i < |r| ==> r[i].id in users && users[r[i].id] == r[i] && r[i].id !in rest
        invariant forall k :: k in users && k !in rest ==> users[k] in r
        invariant forall i, j :: 0 <= i < j < |r| ==> r[i].id != r[j].id
        decreases |rest|
      {
        HasElement(rest);
        var id :| id in rest;
        r := r + [users[id]];
        rest := rest - {id};
      }
    }
  }

  /** A set that is not empty has an element to pick. */
  lemma HasElement(s: set<int>)
    requires s != {}
    ensures exists x :: x in s
  {
    var none: set<int> := {};
    assert (forall x :: x in s ==> x in none) ==> s <= none;
    assert !(s <= none);
  }
}
