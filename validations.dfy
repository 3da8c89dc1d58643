/** The two lookup tables between roles and profile types: which profile
    (and serializer) belongs to a user's role, and which role a profile implies. */
module Validations {
  import opened Common
  import opened UserModels

  /** The four profile models; each also names its serializer class. */
  datatype ProfileType = AdministratorType | SpecialistType | ManagerType | StudentType

  /** Whatever object a caller hands over: a user, a profile, or anything else. */
  datatype Instance = UserObject(role: Role) | ProfileObject(kind: ProfileType) | OtherObject

  /** The accessor `user.<name>` Django creates for each profile (`related_name="%(class)s"`). */
  function ProfileAccessor(t: ProfileType): string
  {
    match t
    case AdministratorType => "administrator"
    case SpecialistType => "specialist"
    case ManagerType => "manager"
    case StudentType => "student"
  }

  /** `check_user_role`: the profile serializer and accessor name for a user's role. */
  function CheckUserRole(x: Instance): (r: Result<(ProfileType, string)>)
    ensures r.Err? <==> !x.UserObject?
    ensures r.Err? ==> r.error == InvalidAccount
    ensures r.Ok? ==> r.value.1 == ProfileAccessor(r.value.0)
  {
    match x
    case UserObject(role) =>
      (match role
       case Administrator => Ok((AdministratorType, "administrator"))
       case Specialist => Ok((SpecialistType, "specialist"))
       case Manager => Ok((ManagerType, "manager"))
       case Student => Ok((StudentType, "student")))
    case _ => Err(InvalidAccount)
  }

  /** `check_user_instance`: the serializer and role a profile object implies. */
  function CheckUserInstance(x: Instance): (r: Result<(ProfileType, Role)>)
    ensures r.Err? <==> !x.ProfileObject?
    ensures r.Err? ==> r.error == InvalidUser
    ensures r.Ok? ==> r.value.0 == x.kind
  {
    match x
    case ProfileObject(kind) =>
      (match kind
       case AdministratorType => Ok((AdministratorType, Administrator))
       case SpecialistType => Ok((SpecialistType, Specialist))
       case ManagerType => Ok((ManagerType, Manager))
       case StudentType => Ok((StudentType, Student)))
    case _ => Err(InvalidUser)
  }

  /** The tables agree: the profile type chosen for a role maps back to that
      role, and a profile's role chooses that profile again. */
  lemma TablesAgree(role: Role, kind: ProfileType)
    ensures CheckUserInstance(ProfileObject(CheckUserRole(UserObject(role)).value.0)).value.1 == role
    ensures CheckUserRole(UserObject(CheckUserInstance(ProfileObject(kind)).value.1)).value.0 == kind
  {
  }
}
