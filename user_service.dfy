/** The user directory: creation with a unique email, partial update, lookup
    and listing, over the in-memory user store. A stored user is updated by
    writing its map entry, which is what the store holding the very object
    the service changes amounts to. */
module UserService {
  import opened Common
  import opened Entities
  import opened UserMapper
  import UserRepository

  /** `validateUniqueEmail`'s `anyMatch`: some stored user has the email. */
  predicate EmailTaken(users: map<int, User>, email: string)
  {
    exists k :: k in users && users[k].email == email
  }

  /** No two stored users share an email: what the service's checks keep. */
  ghost predicate UniqueEmails(users: map<int, User>)
  {
    forall j, k :: j in users && k in users && users[j].email == users[k].email ==> j == k
  }

  /** The partial update `updateUser` applies to the stored user once the
      email check has passed: a field is replaced only by a non-null,
      non-blank value. */
  function Patch(u: User, d: UserDto): (r: User)
    ensures r.id == u.id
    ensures r.name == (if HasText(d.name) then d.name.value else u.name)
    ensures r.email == (if HasText(d.email) then d.email.value else u.email)
  {
    var named := if HasText(d.name) then u.(name := d.name.value) else u;
    if HasText(d.email) then named.(email := d.email.value) else named
  }

  /** A DTO with nothing to say changes nothing, and applying the same
      patch twice is applying it once. */
  lemma PatchBlankIsIdentity(u: User, d: UserDto)
    requires !HasText(d.name) && !HasText(d.email)
    ensures Patch(u, d) == u
  {
  }

  lemma PatchIdempotent(u: User, d: UserDto)
    ensures Patch(Patch(u, d), d) == Patch(u, d)
  {
  }

  /** Whether `updateUser` must refuse the new email: it is present, differs
      from the user's current one, and another user holds it. */
  predicate EmailClash(users: map<int, User>, u: User, d: UserDto)
  {
    HasText(d.email) && d.email.value != u.email && EmailTaken(users, d.email.value)
  }

  /** Writing back a patched user keeps the emails unique whenever the email
      check lets the patch through. */
  lemma PatchKeepsUniqueEmails(users: map<int, User>, id: int, d: UserDto)
    requires UniqueEmails(users) && id in users
    requires !EmailClash(users, users[id], d)
    ensures UniqueEmails(users[id := Patch(users[id], d)])
  {
    var after := users[id := Patch(users[id], d)];
    forall j, k | j in after && k in after && after[j].email == after[k].email
      ensures j == k
    {
      if j != id && k != id {
        assert users[j].email == users[k].email;
      } else if j == id && k != id {
        if HasText(d.email) && d.email.value != users[id].email {
          assert users[k].email == d.email.value;
          assert EmailTaken(users, d.email.value);
        }
      } else if j != id && k == id {
        if HasText(d.email) && d.email.value != users[id].email {
          assert users[j].email == d.email.value;
          assert EmailTaken(users, d.email.value);
        }
      }
    }
  }

  class UserService {
    const repo: UserRepository.UserRepository

    ghost predicate Valid()
      reads this, repo
    {
      repo.Valid() && UniqueEmails(repo.users)
    }

    constructor (repo: UserRepository.UserRepository)
      requires repo.Valid() && UniqueEmails(repo.users)
      ensures this.repo == repo && Valid()
    {
      this.repo := repo;
    }

    /** `getUserById`: the stored user as a DTO, or EntityNotFound. */
    function GetUserById(id: int): (r: Result<UserDto>)
      reads this, repo
      requires Valid()
      ensures r.Err? <==> id !in repo.users
      ensures r.Err? ==> r.error == EntityNotFound
      ensures r.Ok? ==> r.value.id == id && r.value == ToUserDto(repo.users[id])
    {
      match repo.FindById(id)
      case None => Err(EntityNotFound)
      case Some(u) => Ok(ToUserDto(u))
    }

    /** `saveNewUser`: NotUniqueEmail, and nothing stored, when some user
        already has the email; otherwise the user is stored under a fresh id. */
    method SaveNewUser(d: UserDto) returns (r: Result<UserDto>)
      requires Valid()
      requires d.name.Some? && d.email.Some?
      modifies repo
      ensures Valid()
      ensures EmailTaken(old(repo.users), d.email.value) ==>
                r == Err(NotUniqueEmail) && repo.users == old(repo.users) &&
                repo.generatedId == old(repo.generatedId)
      ensures !EmailTaken(old(repo.users), d.email.value) ==>
                var u := ToEntity(d).(id := old(repo.generatedId) + 1);
                u.id !in old(repo.users) && repo.users == old(repo.users)[u.id := u] &&
                r == Ok(ToUserDto(u))
    {
      if EmailTaken(repo.users, d.email.value) {
        return Err(NotUniqueEmail);
      }
      var saved := repo.Save(ToEntity(d));
      r := Ok(ToUserDto(saved));
    }

    /** `updateUser`. The name is set before the email is checked, and the
        store holds the object being changed, so a refused email still leaves
        the new name in place. An unchanged email skips the check. */
    method UpdateUser(id: int, d: UserDto) returns (r: Result<UserDto>)
      requires Valid()
      modifies repo
      ensures Valid()
      ensures repo.generatedId == old(repo.generatedId)
      ensures id !in old(repo.users) ==> r == Err(EntityNotFound) && repo.users == old(repo.users)
      ensures id in old(repo.users) && EmailClash(old(repo.users), old(repo.users)[id], d) ==>
                r == Err(NotUniqueEmail) &&
                repo.users == old(repo.users)[id := Patch(old(repo.users)[id], d.(email := None))]
      ensures id in old(repo.users) && !EmailClash(old(repo.users), old(repo.users)[id], d) ==>
                r == Ok(ToUserDto(Patch(old(repo.users)[id], d))) &&
                repo.users == old(repo.users)[id := Patch(old(repo.users)[id], d)]
    {
      var found := repo.FindById(id);
      if found.None? {
        return Err(EntityNotFound);
      }
      var user := found.value;
      if HasText(d.name) {
        user := user.(name := d.name.value);
      }
      if HasText(d.email) {
        if user.email != d.email.value && EmailTaken(repo.users, d.email.value) {
          repo.users := repo.users[id := user];
          return Err(NotUniqueEmail);
        }
        user := user.(email := d.email.value);
      }
      PatchKeepsUniqueEmails(repo.users, id, d);
      repo.users := repo.users[id := user];
      r := Ok(ToUserDto(user));
    }

    /** `deleteUserById`: the store's delete. */
    method DeleteUserById(id: int) returns (r: Result<()>)
      requires Valid()
      modifies repo
      ensures Valid()
      ensures id !in old(repo.users) ==> r == Err(EntityNotFound) && repo.users == old(repo.users)
      ensures id in old(repo.users) ==> r == Ok(()) && repo.users == old(repo.users) - {id}
    {
      r := repo.DeleteById(id);
    }

    /** `findAll`: one DTO per stored user. */
    method FindAll() returns (r: seq<UserDto>)
      requires Valid()
      ensures |r| == |repo.users|
      ensures forall i :: 0 <= i < |r| ==> r[i].id in repo.users && r[i] == ToUserDto(repo.users[r[i].id])
      ensures forall k :: k in repo.users ==> ToUserDto(repo.users[k]) in r
    {
      var all := repo.FindAll();
      r := seq(|all|, i requires 0 <= i < |all| => ToUserDto(all[i]));
      forall k | k in repo.users
        ensures ToUserDto(repo.users[k]) in r
      {
        var i :| 0 <= i < |all| && all[i] == repo.users[k];
        assert r[i] == ToUserDto(repo.users[k]);
      }
    }
  }
}
