/** `updateUserProfile`: three checks on the submitted profile (name, bio, age), then the merge
    of the submitted fields into the stored user, who is saved. The current year is a parameter
    (`new Date().getFullYear()`), and so is the parsed birth date. */
module UserService {
  import opened Wrappers
  import opened JsStrings

  /** A JavaScript `Date` as the service reads it: its time value and its local calendar year,
      or an invalid date (`new Date('garbage')`), whose `getFullYear()` is `NaN`. */
  datatype Date = Date(time: int, fullYear: int) | InvalidDate

  /** `ProfileData`. `None` is a field that is `undefined` or `null`; the controller passes the
      birth date already converted to a `Date`, and drops a falsy one. */
  datatype ProfileData = ProfileData(name: Option<string>, birthdate: Option<Date>, bio: Option<string>,
    profilePic: Option<string>)

  /** The columns of the `User` entity the service touches, plus the ones it must not. The
      entity declares no `weight` column, so `weight` of a loaded user is always `undefined`;
      it stands for the `weight` the controller forwards, which the service never writes. */
  datatype User = User(id: int, email: string, username: string, name: Option<string>, birthdate: Option<Date>,
    bio: Option<string>, profilePic: Option<string>, weight: Option<real>)

  /** `{ success, message }`. */
  datatype Result = Result(success: bool, message: string)

  const DefaultProfilePic: string := "https://cdn-icons-png.flaticon.com/512/149/149071.png"

  /** One character of the class `[A-Za-zÁÉÍÓÚáéíóúÑñ\s]`. */
  predicate IsNameChar(c: char)
  {
    || ('A' <= c <= 'Z') || ('a' <= c <= 'z')
    || c in "ÁÉÍÓÚáéíóúÑñ"
    || IsJsWhitespace(c)
  }

  /** `/^[A-Za-zÁÉÍÓÚáéíóúÑñ\s]+$/.test(name)`. */
  predicate NamePattern(name: string)
  {
    name != [] && forall i :: 0 <= i < |name| ==> IsNameChar(name[i])
  }

  /** `!(name && !pattern.test(name))`: an absent or empty name is not checked. */
  predicate NameOk(name: Option<string>)
  {
    name.None? || name.value == [] || NamePattern(name.value)
  }

  /** `!(bio && bio.length > 100)`, the length in UTF-16 code units. */
  predicate BioOk(bio: Option<string>)
  {
    bio.None? || bio.value == [] || Utf16Length(bio.value) <= 100
  }

  /** `!(age < 13)` with `age = now.getFullYear() - birth.getFullYear()`: only the calendar
      years are compared, and an invalid date gives `NaN`, which is not below 13. */
  predicate AgeOk(birthdate: Option<Date>, currentYear: int)
  {
    birthdate.None? || birthdate.value.InvalidDate? || currentYear - birthdate.value.fullYear >= 13
  }

  /** The checks in the order the service makes them; the message of the first that fails. */
  function FirstFailure(data: ProfileData, currentYear: int): (m: Option<string>)
    ensures m.None? <==> NameOk(data.name) && BioOk(data.bio) && AgeOk(data.birthdate, currentYear)
    ensures !NameOk(data.name) ==> m == Some("Nombre inválido")
    ensures NameOk(data.name) && !BioOk(data.bio) ==> m == Some("La biografía no puede tener más de 100 caracteres")
    ensures NameOk(data.name) && BioOk(data.bio) && !AgeOk(data.birthdate, currentYear) ==>
      m == Some("Debes tener al menos 13 años para usar FitLink")
  {
    if !NameOk(data.name) then Some("Nombre inválido")
    else if !BioOk(data.bio) then Some("La biografía no puede tener más de 100 caracteres")
    else if !AgeOk(data.birthdate, currentYear) then Some("Debes tener al menos 13 años para usar FitLink")
    else None
  }

  /** A `profilePic` that is absent or `''` is falsy. */
  predicate PicGiven(profilePic: Option<string>)
  {
    profilePic.Some? && profilePic.value != []
  }

  /** The assignments after the checks: the birth date if one was sent, `name ?? user.name`,
      `bio ?? user.bio` (so `''` is stored), and `profilePic || DEFAULT_PROFILE_PIC`. */
  function Merged(u: User, data: ProfileData): (r: User)
    ensures r.birthdate == (if data.birthdate.Some? then data.birthdate else u.birthdate)
    ensures data.name.None? ==> r.name == u.name
    ensures data.name.Some? ==> r.name == data.name
    ensures data.bio.None? ==> r.bio == u.bio
    ensures data.bio.Some? ==> r.bio == data.bio
    ensures r.profilePic == Some(if PicGiven(data.profilePic) then data.profilePic.value else DefaultProfilePic)
    ensures r.id == u.id && r.email == u.email && r.username == u.username && r.weight == u.weight
  {
    u.(birthdate := if data.birthdate.Some? then data.birthdate else u.birthdate,
       name := if data.name.Some? then data.name else u.name,
       bio := if data.bio.Some? then data.bio else u.bio,
       profilePic := Some(if PicGiven(data.profilePic) then data.profilePic.value else DefaultProfilePic))
  }

  /** Sending the same profile twice stores the same user as sending it once. */
  lemma {:induction false} MergeIdempotent(u: User, data: ProfileData)
    ensures Merged(Merged(u, data), data) == Merged(u, data)
  {
  }

  /** Merging a profile drawn from the stored user changes nothing but the picture, which
      becomes the default when the user had none. */
  lemma {:induction false} MergeOwnProfile(u: User)
    requires u.profilePic.None? || u.profilePic.value != []
    ensures Merged(u, ProfileData(u.name, u.birthdate, u.bio, u.profilePic))
      == u.(profilePic := Some(if u.profilePic.Some? then u.profilePic.value else DefaultProfilePic))
  {
  }

  /** The answer of `updateUserProfile` and, on success, the user it saves. */
  function UpdateOutcome(users: map<int, User>, userId: int, data: ProfileData, currentYear: int): (r: Result)
    ensures userId !in users ==> r == Result(false, "Usuario no encontrado")
    ensures r.success <==> userId in users && FirstFailure(data, currentYear).None?
    ensures userId in users && !r.success ==> r.message == FirstFailure(data, currentYear).value
    ensures r.success ==> r.message == "Perfil actualizado correctamente"
  {
    if userId !in users then Result(false, "Usuario no encontrado")
    else
      match FirstFailure(data, currentYear)
      case Some(m) => Result(false, m)
      case None => Result(true, "Perfil actualizado correctamente")
  }

  /** A check that fails settles the answer whatever the later fields hold. */
  lemma {:induction false} NameCheckedFirst(users: map<int, User>, userId: int, data: ProfileData, other: ProfileData,
    currentYear: int)
    requires userId in users && data.name == other.name && !NameOk(data.name)
    ensures UpdateOutcome(users, userId, data, currentYear) == UpdateOutcome(users, userId, other, currentYear)
    ensures UpdateOutcome(users, userId, data, currentYear) == Result(false, "Nombre inválido")
  {
  }

  /** An accepted birth date belongs to someone who turns at least 13 this calendar year. */
  lemma {:induction false} AcceptedAge(users: map<int, User>, userId: int, data: ProfileData, currentYear: int)
    requires UpdateOutcome(users, userId, data, currentYear).success
    requires data.birthdate.Some? && data.birthdate.value.Date?
    ensures data.birthdate.value.fullYear <= currentYear - 13
  {
  }

  /** The stored users. */
  class UserStore {
    var users: map<int, User>

    constructor(initial: map<int, User>)
      ensures users == initial
    {
      users := initial;
    }

    /** `updateUserProfile(userId, data)`: the early-return checks, then the field assignments
        on the loaded user and `userRepo.save(user)`. Nothing is saved when a check fails. */
    method UpdateUserProfile(userId: int, data: ProfileData, currentYear: int) returns (r: Result)
      modifies this
      ensures r == UpdateOutcome(old(users), userId, data, currentYear)
      ensures r.success ==> users == old(users)[userId := Merged(old(users)[userId], data)]
      ensures !r.success ==> users == old(users)
    {
      if userId !in users {
        return Result(false, "Usuario no encontrado");
      }
      var user := users[userId];
      var name, birthdate, bio, profilePic := data.name, data.birthdate, data.bio, data.profilePic;
      if name.Some? && name.value != [] && !NamePattern(name.value) {
        assert !NameOk(data.name);
        return Result(false, "Nombre inválido");
      }
      assert NameOk(data.name);
      if bio.Some? && bio.value != [] && Utf16Length(bio.value) > 100 {
        assert !BioOk(data.bio);
        return Result(false, "La biografía no puede tener más de 100 caracteres");
      }
      assert BioOk(data.bio);
      if birthdate.Some? {
        var birth := birthdate.value;
        if birth.Date? && currentYear - birth.fullYear < 13 {
          assert !AgeOk(data.birthdate, currentYear);
          return Result(false, "Debes tener al menos 13 años para usar FitLink");
        }
        user := user.(birthdate := Some(birth));
      }
      assert AgeOk(data.birthdate, currentYear);
      user := user.(name := if name.Some? then name else user.name);
      user := user.(bio := if bio.Some? then bio else user.bio);
      user := user.(profilePic := Some(if profilePic.Some? && profilePic.value != [] then profilePic.value else DefaultProfilePic));
      assert user == Merged(old(users)[userId], data);
      users := users[userId := user];
      return Result(true, "Perfil actualizado correctamente");
    }
  }
}
