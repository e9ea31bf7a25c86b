/**
 * `UserService`: signup (fields copied from the request, the password encoded, the
 * `ROLE_USER` role granted, a unique-constraint violation reported as
 * `UserExistException`), profile update of name, last name and bio only, and lookups.
 */
module UserServices {

  import opened Failures
  import opened Entities
  import opened Seqs
  import opened Repositories
  import opened PostServices
  import opened Mappers

  /** The user `createUser` builds from a signup request before saving it. */
  function NewUser(request: SignupRequest, encode: string -> string): (u: User)
    ensures u.email == request.email && u.name == request.firstname
    ensures u.lastname == request.lastname && u.username == request.username
    ensures u.password == encode(request.password)
    ensures u.roles == {ROLE_USER} && u.bio == None
  {
    User(0, request.email, request.firstname, request.lastname, request.username, None,
         encode(request.password), {ROLE_USER})
  }

  /** What `updateUser` writes into a user: the first name, last name and bio of the
      view. */
  function ApplyProfile(user: User, dto: UserDTO): (u: User)
    ensures u.name == dto.firstname && u.lastname == dto.lastname && u.bio == dto.bio
    ensures u.(name := user.name, lastname := user.lastname, bio := user.bio) == user
  {
    user.(name := dto.firstname, lastname := dto.lastname, bio := dto.bio)
  }

  /** Saving back a user's own view changes nothing. */
  lemma ApplyOwnProfile(user: User)
    ensures ApplyProfile(user, UserToUserDTO(user)) == user
  {
  }

  /** Applying the same view twice is applying it once. */
  lemma ApplyProfileIdempotent(user: User, dto: UserDTO)
    ensures ApplyProfile(ApplyProfile(user, dto), dto) == ApplyProfile(user, dto)
  {
  }

  /** The message of the `UserExistException` thrown by `createUser`. */
  function UserExistsMessage(email: string): string
  {
    "The user with such email \"" + email + "\" already exists. Please check your credentials."
  }

  class UserService {
    const userRepository: UserRepository
    const encode: string -> string

    ghost predicate Valid()
      reads userRepository
    {
      userRepository.Valid()
    }

    constructor (users: UserRepository, passwordEncoder: string -> string)
      requires users.Valid()
      ensures userRepository == users && encode == passwordEncoder
      ensures Valid()
    {
      userRepository, encode := users, passwordEncoder;
    }

    /** `createUser`: saves the new user, or reports a duplicate email or username
        without changing the store. */
    method CreateUser(request: SignupRequest) returns (r: Result<Unit>)
      requires Valid()
      modifies userRepository
      ensures Valid()
      ensures r.Err? <==> old(userRepository.Conflicts(NewUser(request, encode)))
      ensures r.Err? ==>
        && r.error == Failure(UserExistException, Some(UserExistsMessage(request.email)))
        && userRepository.users == old(userRepository.users)
      ensures r.Ok? ==>
        var saved := NewUser(request, encode).(id := old(userRepository.nextId));
        && userRepository.users == old(userRepository.users) + [saved]
        && GetUserByUsername(request.username) == Ok(saved)
        && GetUserById(saved.id) == Ok(saved)
    {
      var ok, saved := userRepository.Insert(NewUser(request, encode));
      if !ok {
        return Err(Failure(UserExistException, Some(UserExistsMessage(request.email))));
      }
      assert userRepository.users[|userRepository.users| - 1] == saved;
      SameUsernameSameUser(userRepository.users, GetUserByUsername(request.username).value, saved);
      SameIdSameUser(userRepository.users, GetUserById(saved.id).value, saved);
      return Ok(Unit);
    }

    /** `updateUser`: the principal's user with the view's first name, last name and
        bio; every other field, and every other user, stays as it was. */
    method UpdateUser(dto: UserDTO, principal: string) returns (r: Result<User>)
      requires Valid()
      modifies userRepository
      ensures Valid()
      ensures r.Ok? <==> old(GetUserByPrincipal(userRepository, principal)).Ok?
      ensures r.Err? ==>
        && old(GetUserByPrincipal(userRepository, principal)).Err?
        && r == Err(old(GetUserByPrincipal(userRepository, principal)).error)
        && userRepository.users == old(userRepository.users)
      ensures r.Ok? ==>
        var user := old(GetUserByPrincipal(userRepository, principal)).value;
        && r.value == ApplyProfile(user, dto)
        && |userRepository.users| == |old(userRepository.users)|
        && (forall i :: 0 <= i < |userRepository.users| ==>
              userRepository.users[i] == if old(userRepository.users[i]).id == user.id then r.value else old(userRepository.users[i]))
        && GetCurrentUser(principal) == Ok(r.value)
    {
      var found := GetUserByPrincipal(userRepository, principal);
      if found.Err? {
        return Err(found.error);
      }
      var user := SaveProfile(found.value, dto);
      return Ok(user);
    }

    /** Writes the view's profile fields into the stored row `current`. */
    method SaveProfile(current: User, dto: UserDTO) returns (user: User)
      requires Valid() && current in userRepository.users
      modifies userRepository
      ensures Valid()
      ensures user == ApplyProfile(current, dto)
      ensures |userRepository.users| == |old(userRepository.users)|
      ensures forall i :: 0 <= i < |userRepository.users| ==>
        userRepository.users[i] == if old(userRepository.users[i]).id == current.id then user else old(userRepository.users[i])
      ensures GetCurrentUser(current.username) == Ok(user)
    {
      user := ApplyProfile(current, dto);
      ghost var k :| 0 <= k < |userRepository.users| && userRepository.users[k] == current;
      userRepository.Update(user);
      assert userRepository.users[k] == user;
      SameUsernameSameUser(userRepository.users, GetCurrentUser(current.username).value, user);
    }

    /** `getCurrentUser`: the user whose username is the principal's name. */
    function GetCurrentUser(principal: string): (r: Result<User>)
      reads userRepository
      ensures r.Ok? <==> exists i :: 0 <= i < |userRepository.users| && userRepository.users[i].username == principal
      ensures r.Ok? ==> r.value in userRepository.users && r.value.username == principal
      ensures r.Err? ==> r.error == Failure(UsernameNotFoundException, Some("Username not found"))
    {
      GetUserByPrincipal(userRepository, principal)
    }

    /** `getUserById`. */
    function GetUserById(id: nat): (r: Result<User>)
      reads userRepository
      ensures r.Ok? <==> exists i :: 0 <= i < |userRepository.users| && userRepository.users[i].id == id
      ensures r.Ok? ==> r.value in userRepository.users && r.value.id == id
      ensures r.Err? ==> r.error == Failure(UsernameNotFoundException, Some("User not found"))
    {
      match userRepository.FindById(id)
      case Some(u) => Ok(u)
      case None => Err(Failure(UsernameNotFoundException, Some("User not found")))
    }

    /** `getUserByUsername`. */
    function GetUserByUsername(username: string): (r: Result<User>)
      reads userRepository
      ensures r.Ok? <==> exists i :: 0 <= i < |userRepository.users| && userRepository.users[i].username == username
      ensures r.Ok? ==> r.value in userRepository.users && r.value.username == username
      ensures r.Err? ==> r.error == Failure(UsernameNotFoundException, Some("User not found"))
    {
      match userRepository.FindUserByUsername(username)
      case Some(u) => Ok(u)
      case None => Err(Failure(UsernameNotFoundException, Some("User not found")))
    }
  }

  /** Two stored users with the same username are the same row. */
  lemma SameUsernameSameUser(users: seq<User>, x: User, y: User)
    requires forall i, j :: 0 <= i < j < |users| ==> users[i].username != users[j].username
    requires x in users && y in users && x.username == y.username
    ensures x == y
  {
    var i :| 0 <= i < |users| && users[i] == x;
    var j :| 0 <= j < |users| && users[j] == y;
    assert !(i < j) && !(j < i);
  }

  /** Two stored users with the same id are the same row. */
  lemma SameIdSameUser(users: seq<User>, x: User, y: User)
    requires IncreasingBy(users, (u: User) => u.id)
    requires x in users && y in users && x.id == y.id
    ensures x == y
  {
    var i :| 0 <= i < |users| && users[i] == x;
    var j :| 0 <= j < |users| && users[j] == y;
    assert !(i < j) && !(j < i);
  }
}
