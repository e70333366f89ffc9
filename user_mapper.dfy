/** Conversions between the user entity and its transfer shapes. The server
    and the older in-memory tree carry the same three conversions. */
module UserMapper {
  import opened Common
  import opened Entities

  /** `UserDto`: on a partial update a field may be absent (null). */
  datatype UserDto = UserDto(id: int, name: Option<string>, email: Option<string>)

  /** `UserDtoShort`: how a booking shows its booker and an item its owner. */
  datatype UserDtoShort = UserDtoShort(id: int, name: string)

  /** `toUserDto` (server) and `toDto` (in-memory tree): every field is copied. */
  function ToUserDto(u: User): (d: UserDto)
    ensures d.id == u.id && d.name == Some(u.name) && d.email == Some(u.email)
  {
    UserDto(u.id, Some(u.name), Some(u.email))
  }

  function ToUserDtoShort(u: User): (d: UserDtoShort)
    ensures d.id == u.id && d.name == u.name
  {
    UserDtoShort(u.id, u.name)
  }

  /** `toEntity`. Its one caller, user creation, receives a DTO whose name
      and email the validation layer has already required to be present. */
  function ToEntity(d: UserDto): (u: User)
    requires d.name.Some? && d.email.Some?
    ensures u.id == d.id && Some(u.name) == d.name && Some(u.email) == d.email
  {
    User(d.id, d.name.value, d.email.value)
  }

  /** Converting an entity to its DTO and back gives the entity again. */
  lemma EntityRoundTrip(u: User)
    ensures ToEntity(ToUserDto(u)) == u
  {
  }

  /** A complete DTO survives the trip through the entity. */
  lemma DtoRoundTrip(d: UserDto)
    requires d.name.Some? && d.email.Some?
    ensures ToUserDto(ToEntity(d)) == d
  {
  }

  /** The short form is the full DTO without the email. */
  lemma ShortIsDtoWithoutEmail(u: User)
    ensures Some(ToUserDtoShort(u).name) == ToUserDto(u).name
    ensures ToUserDtoShort(u).id == ToUserDto(u).id
  {
  }
}
